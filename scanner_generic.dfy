/** The generic scanner (scannerGeneric.js): it walks the discovered events closing within four
    hours, looks each listed market up by slug, and for each of its two sides keeps those whose
    probability lies in the band and whose best ask carries at least one dollar of liquidity.
    The records are written to the scanner output in event, market, YES-then-NO order. */
module ScannerGeneric {
  import opened Wrappers
  import opened JsNumber
  import opened Gamma
  import opened OrderBook
  import opened Scanning

  const MAX_HOURS_TO_CLOSE: real := 4.0
  const MIN_PROBABILITY: real := 0.80
  const MAX_PROBABILITY: real := 0.96
  const MIN_LIQUIDITY_USD: real := 1.0

  /** One record of the scanner output. */
  datatype Record = Record(
    slug: string,
    eventSlug: string,
    marketSlug: string,
    marketId: string,
    side: Side,
    endDate: Option<string>,
    hoursToClose: Num,
    probability: Num,
    bestAsk: real,
    askSize: real,
    liquidityUSD: real,
    tokenId: string)

  /** One side of a market with two prices and two tokens: its probability is its own price;
      outside the band, with a failed book request, a book without asks, or less than the
      liquidity floor at the best ask, it is skipped; otherwise it is recorded. */
  function SideFind(ev: EventInput, mi: MarketInput, m: Market, prices: seq<Outcome>,
                    tokens: seq<string>, side: Side): seq<Record>
    requires |prices| == 2 && |tokens| == 2
  {
    var prob := prices[IndexOf(side)].value;
    if OutsideBand(prob, MIN_PROBABILITY, MAX_PROBABILITY) then []
    else
      match BookFor(mi, side)
      case None => []
      case Some(b) =>
        match BestAsk(b.asks)
        case None => []
        case Some(q) =>
          if q.price * q.size < MIN_LIQUIDITY_USD then []
          else [Record(mi.slug, ev.slug, mi.slug, m.id, side, m.endDate, ev.hours, prob,
                       q.price, q.size, q.price * q.size, tokens[IndexOf(side)])]
  }

  /** One market: a failed lookup is skipped, but an empty answer throws when its fields are
      read and ends the scan; a missing or unparsable price or token field, or anything but two
      prices and two tokens, skips the market; otherwise YES then NO. */
  function MarketFind(ev: EventInput, mi: MarketInput): Found<Record>
  {
    match mi.answer
    case Failed => Found([], false)
    case Missing => Found([], true)
    case Got(m) =>
      match (m.outcomePrices, m.clobTokenIds)
      case (Parsed(prices), Parsed(tokens)) =>
        if |prices| != 2 || |tokens| != 2 then Found([], false)
        else Found(SideFind(ev, mi, m, prices, tokens, Yes) + SideFind(ev, mi, m, prices, tokens, No), false)
      case _ => Found([], false)
  }

  /** The markets of one event, in order, until one throws. */
  function MarketsFind(ev: EventInput, ms: seq<MarketInput>): Found<Record>
  {
    if |ms| == 0 then Found([], false)
    else Then(MarketsFind(ev, ms[..|ms| - 1]), MarketFind(ev, ms[|ms| - 1]))
  }

  /** One event: outside the window of `(0, MAX_HOURS_TO_CLOSE]` hours it is skipped. */
  function EventFind(ev: EventInput): Found<Record>
  {
    if OutsideWindow(ev.hours, MAX_HOURS_TO_CLOSE) then Found([], false)
    else MarketsFind(ev, ev.markets)
  }

  /** All events, in order, until one throws. */
  function ScanFind(events: seq<EventInput>): Found<Record>
  {
    if |events| == 0 then Found([], false)
    else Then(ScanFind(events[..|events| - 1]), EventFind(events[|events| - 1]))
  }

  /** The scanner output: nothing when the discovery file holds no event array or the scan
      throws, otherwise every record in order. */
  function ScanOutput(events: Option<seq<EventInput>>): Option<seq<Record>>
  {
    match events
    case None => None
    case Some(evs) =>
      var f := ScanFind(evs);
      if f.aborted then None else Some(f.items)
  }

  /** What every record satisfies: its probability passes the band, its best ask carries at
      least the liquidity floor, its event is inside the window, and it names that side's
      token. */
  predicate RecordOk(r: Record) {
    && !OutsideBand(r.probability, MIN_PROBABILITY, MAX_PROBABILITY)
    && r.liquidityUSD == r.bestAsk * r.askSize >= MIN_LIQUIDITY_USD
    && !OutsideWindow(r.hoursToClose, MAX_HOURS_TO_CLOSE)
    && r.slug == r.marketSlug
  }

  /** A side is kept exactly when its price passes the band (NaN passes), its book request
      answers with asks, and the best ask times the size summed at it reaches the floor; the
      record then carries that side's price and token and the best ask and size. */
  lemma SideFindExactly(ev: EventInput, mi: MarketInput, m: Market, prices: seq<Outcome>,
                        tokens: seq<string>, side: Side)
    requires |prices| == 2 && |tokens| == 2
    ensures var r := SideFind(ev, mi, m, prices, tokens, side);
            var prob := prices[IndexOf(side)].value;
            var book := BookFor(mi, side);
            && |r| <= 1
            && (r != [] <==>
                  && (prob.NaN? || MIN_PROBABILITY <= prob.v <= MAX_PROBABILITY)
                  && book.Some? && |book.value.asks| > 0
                  && BestAsk(book.value.asks).value.price * BestAsk(book.value.asks).value.size >= MIN_LIQUIDITY_USD)
            && (r != [] ==>
                  && r[0].side == side && r[0].tokenId == tokens[IndexOf(side)]
                  && r[0].probability == prob && r[0].marketId == m.id
                  && r[0].slug == mi.slug && r[0].eventSlug == ev.slug
                  && r[0].bestAsk == BestAsk(book.value.asks).value.price
                  && r[0].askSize == BestAsk(book.value.asks).value.size)
  {
    OutsideBandMeaning(prices[IndexOf(side)].value, MIN_PROBABILITY, MAX_PROBABILITY);
  }

  /** A market gives at most its two sides, YES before NO; it ends the scan exactly when the
      lookup comes back empty; a failed lookup, a missing or unparsable field, or a pair of the
      wrong length gives nothing. */
  lemma MarketFindShape(ev: EventInput, mi: MarketInput)
    ensures var r := MarketFind(ev, mi);
            && (r.aborted <==> mi.answer.Missing?)
            && |r.items| <= 2
            && (|r.items| == 2 ==> r.items[0].side == Yes && r.items[1].side == No)
            && (r.items != [] ==>
                  && mi.answer.Got?
                  && mi.answer.value.outcomePrices.Parsed? && |mi.answer.value.outcomePrices.value| == 2
                  && mi.answer.value.clobTokenIds.Parsed? && |mi.answer.value.clobTokenIds.value| == 2)
  {
    if mi.answer.Got? {
      var m := mi.answer.value;
      if m.outcomePrices.Parsed? && m.clobTokenIds.Parsed?
         && |m.outcomePrices.value| == 2 && |m.clobTokenIds.value| == 2 {
        SideFindExactly(ev, mi, m, m.outcomePrices.value, m.clobTokenIds.value, Yes);
        SideFindExactly(ev, mi, m, m.outcomePrices.value, m.clobTokenIds.value, No);
      }
    }
  }

  /** Every record a market gives satisfies `RecordOk` when its event is inside the window. */
  lemma MarketFindSound(ev: EventInput, mi: MarketInput)
    requires !OutsideWindow(ev.hours, MAX_HOURS_TO_CLOSE)
    ensures forall r <- MarketFind(ev, mi).items :: RecordOk(r) && r.hoursToClose == ev.hours
  {
    if mi.answer.Got? {
      var m := mi.answer.value;
      if m.outcomePrices.Parsed? && m.clobTokenIds.Parsed?
         && |m.outcomePrices.value| == 2 && |m.clobTokenIds.value| == 2 {
        var prices, tokens := m.outcomePrices.value, m.clobTokenIds.value;
        SideFindSound(ev, mi, m, prices, tokens, Yes);
        SideFindSound(ev, mi, m, prices, tokens, No);
        assert MarketFind(ev, mi).items
            == SideFind(ev, mi, m, prices, tokens, Yes) + SideFind(ev, mi, m, prices, tokens, No);
      }
    }
  }

  /** Every record a side gives satisfies `RecordOk` when its event is inside the window. */
  lemma SideFindSound(ev: EventInput, mi: MarketInput, m: Market, prices: seq<Outcome>,
                      tokens: seq<string>, side: Side)
    requires |prices| == 2 && |tokens| == 2
    requires !OutsideWindow(ev.hours, MAX_HOURS_TO_CLOSE)
    ensures forall r <- SideFind(ev, mi, m, prices, tokens, side) :: RecordOk(r) && r.hoursToClose == ev.hours
  {
  }

  lemma {:induction false} MarketsFindSound(ev: EventInput, ms: seq<MarketInput>)
    requires !OutsideWindow(ev.hours, MAX_HOURS_TO_CLOSE)
    ensures forall r <- MarketsFind(ev, ms).items :: RecordOk(r)
  {
    if |ms| > 0 {
      MarketsFindSound(ev, ms[..|ms| - 1]);
      MarketFindSound(ev, ms[|ms| - 1]);
    }
  }

  /** Every record of the output satisfies `RecordOk`. */
  lemma {:induction false} ScanFindSound(events: seq<EventInput>)
    ensures forall r <- ScanFind(events).items :: RecordOk(r)
  {
    if |events| > 0 {
      var n := |events| - 1;
      ScanFindSound(events[..n]);
      if !OutsideWindow(events[n].hours, MAX_HOURS_TO_CLOSE) {
        MarketsFindSound(events[n], events[n].markets);
      }
    }
  }

  /** The records keep the events' order: scanning two lists of events one after the other
      is scanning the first and then, unless it threw, the second. */
  lemma {:induction false} ScanFindAppend(a: seq<EventInput>, b: seq<EventInput>)
    ensures ScanFind(a + b) == Then(ScanFind(a), ScanFind(b))
    decreases |b|
  {
    if |b| == 0 {
      assert a + b == a;
      assert ScanFind(a).items + [] == ScanFind(a).items;
    } else {
      var n := |b| - 1;
      assert (a + b)[..|a + b| - 1] == a + b[..n];
      assert (a + b)[|a + b| - 1] == b[n];
      ScanFindAppend(a, b[..n]);
      ThenAssociative(ScanFind(a), ScanFind(b[..n]), EventFind(b[n]));
    }
  }

  /** After a throw the scan is over: nothing later adds a record. */
  lemma {:induction false} MarketsAbortedRest(ev: EventInput, ms: seq<MarketInput>, i: nat)
    requires i <= |ms| && MarketsFind(ev, ms[..i]).aborted
    ensures MarketsFind(ev, ms) == MarketsFind(ev, ms[..i])
    decreases |ms| - i
  {
    if i < |ms| {
      assert ms[..i + 1][..i] == ms[..i];
      MarketsAbortedRest(ev, ms, i + 1);
    } else {
      assert ms[..i] == ms;
    }
  }

  lemma {:induction false} ScanAbortedRest(events: seq<EventInput>, i: nat)
    requires i <= |events| && ScanFind(events[..i]).aborted
    ensures ScanFind(events) == ScanFind(events[..i])
    decreases |events| - i
  {
    if i < |events| {
      assert events[..i + 1][..i] == events[..i];
      ScanAbortedRest(events, i + 1);
    } else {
      assert events[..i] == events;
    }
  }

  /** The loop over one event's markets, each market's sides, stopping at the first exception.
      It computes exactly `MarketsFind`. */
  method ScanMarkets(ev: EventInput) returns (records: seq<Record>, aborted: bool)
    ensures Found(records, aborted) == MarketsFind(ev, ev.markets)
  {
    var ms := ev.markets;
    records, aborted := [], false;
    var j := 0;
    while j < |ms| && !aborted
      invariant 0 <= j <= |ms|
      invariant Found(records, aborted) == MarketsFind(ev, ms[..j])
    {
      assert ms[..j + 1][..j] == ms[..j];
      var r := MarketFind(ev, ms[j]);
      records, aborted := records + r.items, r.aborted;
      j := j + 1;
    }
    if aborted {
      MarketsAbortedRest(ev, ms, j);
    } else {
      assert ms[..j] == ms;
    }
  }

  /** The scan: no event array gives no output; otherwise the events in order, skipping those
      outside the window, and no output if an exception ends the scan. It computes exactly
      `ScanOutput`. */
  method Scan(events: Option<seq<EventInput>>) returns (output: Option<seq<Record>>)
    ensures output == ScanOutput(events)
  {
    if events.None? {
      return None;
    }
    var evs := events.value;
    var records: seq<Record> := [];
    var aborted := false;
    var i := 0;
    while i < |evs| && !aborted
      invariant 0 <= i <= |evs|
      invariant Found(records, aborted) == ScanFind(evs[..i])
    {
      var ev := evs[i];
      assert evs[..i + 1][..i] == evs[..i];
      if !OutsideWindow(ev.hours, MAX_HOURS_TO_CLOSE) {
        var more, stop := ScanMarkets(ev);
        records, aborted := records + more, stop;
      } else {
        assert records + [] == records;
      }
      i := i + 1;
    }
    if aborted {
      ScanAbortedRest(evs, i);
      output := None;
    } else {
      assert evs[..i] == evs;
      output := Some(records);
    }
  }
}
