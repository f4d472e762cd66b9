/** The Bitcoin ladder scanner (scannerBTCMarkets.js): for every strike of a fixed ladder it
    builds the market slug for one date, looks the market up, and keeps the rungs closing within
    four hours whose YES price lies in [0.80, 0.99] and whose YES book is not dust. The rungs are
    written to the scanner output in strike order. */
module ScannerBTCMarkets {
  import opened Wrappers
  import opened JsNumber
  import opened Gamma
  import opened OrderBook
  import opened Scanning
  import opened YesRung
  import Decimal

  const DATE_LABEL: string := "january-24"
  /** The strikes of the ladder, in thousands of dollars. */
  const STRIKES: seq<nat> := [86, 88, 90, 92, 94, 96, 98, 100, 102]
  const MAX_HOURS_TO_CLOSE: real := 4.0

  const SLUG_HEAD: string := "bitcoin-above-"
  const SLUG_TAIL: string := "k-on-" + DATE_LABEL

  /** `bitcoin-above-${strike}k-on-${DATE_LABEL}` */
  function RungSlug(strike: nat): string {
    SLUG_HEAD + Decimal.Digits(strike) + SLUG_TAIL
  }

  /** The strike a ladder slug names: the digits between the fixed head and tail. */
  function StrikeOf(slug: string): nat {
    if |slug| < |SLUG_HEAD| + |SLUG_TAIL| then 0
    else Decimal.ValueOf(slug[|SLUG_HEAD|..|slug| - |SLUG_TAIL|])
  }

  /** The strike can be read back from its slug, so different strikes give different slugs. */
  lemma SlugNamesStrike(strike: nat)
    ensures StrikeOf(RungSlug(strike)) == strike
  {
    var d := Decimal.Digits(strike);
    var s := RungSlug(strike);
    assert s[|SLUG_HEAD|..|s| - |SLUG_TAIL|] == d;
    Decimal.ValueOfDigits(strike);
  }

  lemma RungSlugInjective(a: nat, b: nat)
    ensures RungSlug(a) == RungSlug(b) <==> a == b
  {
    SlugNamesStrike(a);
    SlugNamesStrike(b);
  }

  /** What the gateways answer for one rung: the lookup by slug, the hours until the market's
      end date, and the book of its first token. */
  datatype RungInput = RungInput(answer: Fetch<Market>, hours: Num, book: Option<Book>)

  /** One record of the scanner output. */
  datatype Record = Record(
    slug: string,
    strike: nat,
    endDate: string,
    hoursToClose: Num,
    yesPrice: Num,
    bestAsk: real,
    askSize: real,
    liquidityUSD: real,
    tokenId: Option<string>)

  /** One rung: a failed lookup is skipped, but an empty answer throws when its end date is
      read; a market without an end date, or outside the window of `(0, MAX_HOURS_TO_CLOSE]`
      hours, is skipped; the rest is the shared YES tail. */
  function RungFind(strike: nat, input: RungInput): Verdict<Record>
  {
    match input.answer
    case Failed => Skip
    case Missing => Crash
    case Got(m) =>
      if !HasEndDate(m) || OutsideWindow(input.hours, MAX_HOURS_TO_CLOSE) then Skip
      else
        match PriceAndBook(m, input.book)
        case Skip => Skip
        case Crash => Crash
        case Take(r) =>
          Take(Record(RungSlug(strike), strike, m.endDate.value, input.hours, r.yesPrice,
                      r.bestAsk, r.askSize, r.liquidityUSD, r.tokenId))
  }

  /** The rungs of a ladder, in strike order, until one throws. */
  function LadderFind(strikes: seq<nat>, inputs: seq<RungInput>): Found<Record>
    requires |inputs| == |strikes|
  {
    if |strikes| == 0 then Found([], false)
    else
      var n := |strikes| - 1;
      Then(LadderFind(strikes[..n], inputs[..n]), AsFound(RungFind(strikes[n], inputs[n])))
  }

  /** The scanner output: every eligible rung of the ladder, or nothing when the scan throws. */
  function ScanOutput(inputs: seq<RungInput>): Option<seq<Record>>
    requires |inputs| == |STRIKES|
  {
    var f := LadderFind(STRIKES, inputs);
    if f.aborted then None else Some(f.items)
  }

  /** What every record satisfies: its slug names its strike, its market closes inside the
      window, its YES price passes the band, and its best ask is not dust. */
  predicate RecordOk(r: Record) {
    && r.slug == RungSlug(r.strike)
    && !OutsideWindow(r.hoursToClose, MAX_HOURS_TO_CLOSE)
    && !OutsideBand(r.yesPrice, YesRung.MIN_PROBABILITY, YesRung.MAX_PROBABILITY)
    && r.liquidityUSD == r.askSize * r.bestAsk >= YesRung.MIN_LIQUIDITY_USD
  }

  /** A rung throws exactly when its lookup came back empty or the YES tail throws on a market
      with an end date inside the window; it is kept exactly when the market has an end date,
      is inside the window, and passes the YES tail; the record then carries the rung's own
      slug and strike. */
  lemma RungFindExactly(strike: nat, input: RungInput)
    ensures var v := RungFind(strike, input);
            && (v.Crash? <==>
                  || input.answer.Missing?
                  || (&& input.answer.Got? && HasEndDate(input.answer.value)
                      && !OutsideWindow(input.hours, MAX_HOURS_TO_CLOSE)
                      && PriceAndBook(input.answer.value, input.book).Crash?))
            && (v.Take? <==>
                  && input.answer.Got? && HasEndDate(input.answer.value)
                  && !OutsideWindow(input.hours, MAX_HOURS_TO_CLOSE)
                  && PriceAndBook(input.answer.value, input.book).Take?)
            && (v.Take? ==> v.value.strike == strike && RecordOk(v.value))
  {
    if input.answer.Got? {
      PriceAndBookExactly(input.answer.value, input.book);
    }
  }

  predicate StrictlyIncreasing(s: seq<nat>) {
    forall i, j :: 0 <= i < j < |s| ==> s[i] < s[j]
  }

  function StrikesOf(rs: seq<Record>): (r: seq<nat>)
    ensures |r| == |rs| && forall k :: 0 <= k < |rs| ==> r[k] == rs[k].strike
  {
    if |rs| == 0 then [] else StrikesOf(rs[..|rs| - 1]) + [rs[|rs| - 1].strike]
  }

  /** At most one rung per strike is kept, and every kept rung satisfies `RecordOk` and comes
      from the ladder. */
  lemma {:induction false} LadderFindSound(strikes: seq<nat>, inputs: seq<RungInput>)
    requires |inputs| == |strikes|
    ensures var f := LadderFind(strikes, inputs);
            && |f.items| <= |strikes|
            && (forall r <- f.items :: RecordOk(r) && r.strike in strikes)
  {
    if |strikes| > 0 {
      var n := |strikes| - 1;
      LadderFindSound(strikes[..n], inputs[..n]);
      RungFindExactly(strikes[n], inputs[n]);
      var prev := LadderFind(strikes[..n], inputs[..n]);
      forall r <- LadderFind(strikes, inputs).items
        ensures RecordOk(r) && r.strike in strikes
      {
        if r in prev.items {
          assert r.strike in strikes[..n];
        }
      }
    }
  }

  /** A kept rung carries its own strike. */
  lemma RungFindStrike(strike: nat, input: RungInput)
    ensures RungFind(strike, input).Take? ==> RungFind(strike, input).value.strike == strike
  {
  }

  /** Appending a strike above all earlier ones keeps a strike list increasing. */
  lemma AppendIncreasing(s: seq<nat>, x: nat)
    requires StrictlyIncreasing(s) && forall k :: 0 <= k < |s| ==> s[k] < x
    ensures StrictlyIncreasing(s + [x])
  {
  }

  /** On an increasing ladder every rung kept before the last strike lies below it. */
  lemma BelowLast(strikes: seq<nat>, inputs: seq<RungInput>)
    requires |inputs| == |strikes| > 0 && StrictlyIncreasing(strikes)
    ensures var n := |strikes| - 1;
            forall r <- LadderFind(strikes[..n], inputs[..n]).items :: r.strike < strikes[n]
  {
    var n := |strikes| - 1;
    LadderFindSound(strikes[..n], inputs[..n]);
    forall r <- LadderFind(strikes[..n], inputs[..n]).items
      ensures r.strike < strikes[n]
    {
      var j :| 0 <= j < n && strikes[..n][j] == r.strike;
      assert strikes[j] < strikes[n];
    }
  }

  /** One step of the ladder keeps strike order when the new rung lies above all kept ones. */
  lemma OrderedStep(prev: Found<Record>, v: Verdict<Record>, x: nat)
    requires StrictlyIncreasing(StrikesOf(prev.items))
    requires forall r <- prev.items :: r.strike < x
    requires v.Take? ==> v.value.strike == x
    ensures StrictlyIncreasing(StrikesOf(Then(prev, AsFound(v)).items))
  {
    if !prev.aborted && v.Take? {
      var ps := StrikesOf(prev.items);
      assert StrikesOf(Then(prev, AsFound(v)).items) == ps + [x];
      forall k | 0 <= k < |ps|
        ensures ps[k] < x
      {
        assert prev.items[k] in prev.items;
      }
      AppendIncreasing(ps, x);
    } else {
      assert Then(prev, AsFound(v)).items == prev.items;
    }
  }

  /** On an increasing ladder the output keeps strike order. */
  lemma {:induction false} LadderFindOrdered(strikes: seq<nat>, inputs: seq<RungInput>)
    requires |inputs| == |strikes| && StrictlyIncreasing(strikes)
    ensures StrictlyIncreasing(StrikesOf(LadderFind(strikes, inputs).items))
  {
    if |strikes| > 0 {
      var n := |strikes| - 1;
      assert StrictlyIncreasing(strikes[..n]);
      LadderFindOrdered(strikes[..n], inputs[..n]);
      RungFindStrike(strikes[n], inputs[n]);
      BelowLast(strikes, inputs);
      OrderedStep(LadderFind(strikes[..n], inputs[..n]), RungFind(strikes[n], inputs[n]), strikes[n]);
    }
  }

  /** The fixed ladder goes up by two thousand dollars a rung. */
  lemma LadderIncreasing()
    ensures StrictlyIncreasing(STRIKES)
  {
    forall i, j | 0 <= i < j < |STRIKES|
      ensures STRIKES[i] < STRIKES[j]
    {
      assert STRIKES[i] == 86 + 2 * i && STRIKES[j] == 86 + 2 * j;
    }
  }

  /** The fixed ladder is increasing, so the output keeps strike order with one rung per strike
      at most. */
  lemma ScanOutputOrdered(inputs: seq<RungInput>)
    requires |inputs| == |STRIKES|
    ensures var o := ScanOutput(inputs);
            o.Some? ==> |o.value| <= 9 && StrictlyIncreasing(StrikesOf(o.value))
                        && forall r <- o.value :: RecordOk(r) && r.strike in STRIKES
  {
    LadderIncreasing();
    LadderFindSound(STRIKES, inputs);
    LadderFindOrdered(STRIKES, inputs);
  }

  lemma {:induction false} LadderAbortedRest(strikes: seq<nat>, inputs: seq<RungInput>, i: nat)
    requires |inputs| == |strikes| && i <= |strikes|
    requires LadderFind(strikes[..i], inputs[..i]).aborted
    ensures LadderFind(strikes, inputs) == LadderFind(strikes[..i], inputs[..i])
    decreases |strikes| - i
  {
    if i < |strikes| {
      assert strikes[..i + 1][..i] == strikes[..i];
      assert inputs[..i + 1][..i] == inputs[..i];
      LadderAbortedRest(strikes, inputs, i + 1);
    } else {
      assert strikes[..i] == strikes && inputs[..i] == inputs;
    }
  }

  /** The scan loop over the fixed ladder: build each rung's slug, judge the rung, and push
      the eligible ones, until one throws. It computes exactly `ScanOutput`. */
  method Scan(inputs: seq<RungInput>) returns (output: Option<seq<Record>>)
    requires |inputs| == |STRIKES|
    ensures output == ScanOutput(inputs)
  {
    var results: seq<Record> := [];
    var aborted := false;
    var i := 0;
    while i < |STRIKES| && !aborted
      invariant 0 <= i <= |STRIKES|
      invariant Found(results, aborted) == LadderFind(STRIKES[..i], inputs[..i])
    {
      assert STRIKES[..i + 1][..i] == STRIKES[..i];
      assert inputs[..i + 1][..i] == inputs[..i];
      match RungFind(STRIKES[i], inputs[i]) {
        case Skip =>
          assert results + [] == results;
        case Crash =>
          aborted := true;
        case Take(r) =>
          results := results + [r];
      }
      i := i + 1;
    }
    if aborted {
      LadderAbortedRest(STRIKES, inputs, i);
      output := None;
    } else {
      assert STRIKES[..i] == STRIKES && inputs[..i] == inputs;
      output := Some(results);
    }
  }
}
