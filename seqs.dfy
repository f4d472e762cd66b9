/** Facts about sequences that a left-to-right walk updating elements in place relies on. */
module Seqs {

  /** A sequence part-way through a walk is the elements walked so far followed by those not
      yet walked: the next element is the first not walked, and replacing or keeping it moves
      the split point by one. */
  lemma SpliceAt<T>(walked: seq<T>, all: seq<T>, i: nat)
    requires |walked| == i < |all|
    ensures (walked + all[i..])[i] == all[i]
    ensures forall x: T {:trigger walked + [x]} :: (walked + all[i..])[i := x] == (walked + [x]) + all[i + 1..]
    ensures walked + all[i..] == (walked + [all[i]]) + all[i + 1..]
  {
    forall x: T
      ensures (walked + all[i..])[i := x] == (walked + [x]) + all[i + 1..]
    {
      assert all[i..] == [all[i]] + all[i + 1..];
    }
    assert all[i..] == [all[i]] + all[i + 1..];
  }

  /** The number of places at which two sequences of the same length differ. */
  function Changed<T(==)>(before: seq<T>, after: seq<T>): (n: nat)
    requires |before| == |after|
    ensures n <= |before|
  {
    if |before| == 0 then 0
    else
      var k := |before| - 1;
      Changed(before[..k], after[..k]) + (if before[k] == after[k] then 0 else 1)
  }

  /** The number of elements that satisfy `f`. */
  function Count<T>(s: seq<T>, f: T -> bool): (n: nat)
    ensures n <= |s|
  {
    if |s| == 0 then 0
    else Count(s[..|s| - 1], f) + (if f(s[|s| - 1]) then 1 else 0)
  }
}
