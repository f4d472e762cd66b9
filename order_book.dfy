/** Order books as the CLOB endpoint returns them, and the best-price aggregation that every
    program applies to them: the best price over all levels, and the total size of all levels
    quoted at exactly that price. */
module OrderBook {
  import opened Wrappers

  /** A price level with `Number(price)` and `Number(size)` already taken. */
  datatype Level = Level(price: real, size: real)

  /** Missing `asks` or `bids` arrays are modelled as empty ones: every program rejects both alike. */
  datatype Book = Book(asks: seq<Level>, bids: seq<Level>)

  /** A best price together with the size aggregated at it. */
  datatype Quote = Quote(price: real, size: real)

  /** `Math.min(...levels.map(l => l.price))` */
  function MinPrice(levels: seq<Level>): (m: real)
    requires |levels| > 0
    ensures exists k :: 0 <= k < |levels| && levels[k].price == m
    ensures forall k :: 0 <= k < |levels| ==> m <= levels[k].price
  {
    if |levels| == 1 then levels[0].price
    else
      var rest := MinPrice(levels[1..]);
      assert forall k :: 1 <= k < |levels| ==> levels[k] == levels[1..][k - 1];
      if levels[0].price <= rest then levels[0].price else rest
  }

  /** `Math.max(...levels.map(l => l.price))` */
  function MaxPrice(levels: seq<Level>): (m: real)
    requires |levels| > 0
    ensures exists k :: 0 <= k < |levels| && levels[k].price == m
    ensures forall k :: 0 <= k < |levels| ==> levels[k].price <= m
  {
    if |levels| == 1 then levels[0].price
    else
      var rest := MaxPrice(levels[1..]);
      assert forall k :: 1 <= k < |levels| ==> levels[k] == levels[1..][k - 1];
      if levels[0].price >= rest then levels[0].price else rest
  }

  /** `levels.filter(l => l.price === p)` */
  function AtPrice(levels: seq<Level>, p: real): seq<Level>
  {
    if |levels| == 0 then []
    else AtPrice(levels[..|levels| - 1], p)
         + (if levels[|levels| - 1].price == p then [levels[|levels| - 1]] else [])
  }

  /** `levels.reduce((s, l) => s + l.size, 0)` */
  function TotalSize(levels: seq<Level>): real
  {
    if |levels| == 0 then 0.0 else TotalSize(levels[..|levels| - 1]) + levels[|levels| - 1].size
  }

  /** The lowest ask and the size summed over every level at it; none for an empty side. */
  function BestAsk(asks: seq<Level>): Option<Quote>
  {
    if |asks| == 0 then None
    else var p := MinPrice(asks); Some(Quote(p, TotalSize(AtPrice(asks, p))))
  }

  /** The highest bid and the size summed over every level at it; none for an empty side. */
  function BestBid(bids: seq<Level>): Option<Quote>
  {
    if |bids| == 0 then None
    else var p := MaxPrice(bids); Some(Quote(p, TotalSize(AtPrice(bids, p))))
  }

  /** The filter keeps exactly the levels at the price, in their order. */
  lemma {:induction false} AtPriceMembers(levels: seq<Level>, p: real)
    ensures forall l :: l in AtPrice(levels, p) <==> l in levels && l.price == p
  {
    if |levels| > 0 {
      var n := |levels| - 1;
      AtPriceMembers(levels[..n], p);
      assert levels == levels[..n] + [levels[n]];
    }
  }

  /** When every level has positive size and some level sits at the price, the aggregated size
      there is positive; with no level at the price it is zero. */
  lemma {:induction false} AtPriceSize(levels: seq<Level>, p: real)
    requires forall k :: 0 <= k < |levels| ==> levels[k].size > 0.0
    ensures (exists k :: 0 <= k < |levels| && levels[k].price == p) <==> TotalSize(AtPrice(levels, p)) > 0.0
    ensures TotalSize(AtPrice(levels, p)) >= 0.0
  {
    if |levels| > 0 {
      var n := |levels| - 1;
      AtPriceSize(levels[..n], p);
      var tail := if levels[n].price == p then [levels[n]] else [];
      TotalSizeAppend(AtPrice(levels[..n], p), tail);
      assert forall k :: 0 <= k < n ==> levels[..n][k] == levels[k];
    }
  }

  lemma {:induction false} TotalSizeAppend(a: seq<Level>, b: seq<Level>)
    ensures TotalSize(a + b) == TotalSize(a) + TotalSize(b)
  {
    if |b| > 0 {
      var n := |b| - 1;
      assert (a + b)[..|a + b| - 1] == a + b[..n];
      TotalSizeAppend(a, b[..n]);
    } else {
      assert a + b == a;
    }
  }

  /** On a book side whose levels all have positive size, the best quote is attained by some
      level, beats or equals every level, and carries a positive aggregated size. */
  lemma BestAskIsLowest(asks: seq<Level>)
    requires forall k :: 0 <= k < |asks| ==> asks[k].size > 0.0
    ensures BestAsk(asks).None? <==> |asks| == 0
    ensures BestAsk(asks).Some? ==>
              && (forall k :: 0 <= k < |asks| ==> BestAsk(asks).value.price <= asks[k].price)
              && BestAsk(asks).value.size > 0.0
  {
    if |asks| > 0 {
      AtPriceSize(asks, MinPrice(asks));
    }
  }

  /** The mirror image for bids. */
  lemma BestBidIsHighest(bids: seq<Level>)
    requires forall k :: 0 <= k < |bids| ==> bids[k].size > 0.0
    ensures BestBid(bids).None? <==> |bids| == 0
    ensures BestBid(bids).Some? ==>
              && (forall k :: 0 <= k < |bids| ==> bids[k].price <= BestBid(bids).value.price)
              && BestBid(bids).value.size > 0.0
  {
    if |bids| > 0 {
      AtPriceSize(bids, MaxPrice(bids));
    }
  }
}
