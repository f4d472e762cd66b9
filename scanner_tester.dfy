/** The scanning paper trader (scannerTester.js): it scans the discovered events itself, buys a
    fixed fifth of the budget of every side that passes the time window, the probability band and
    the liquidity floor, as long as the wallet can pay for it, and then watches the positions,
    writing one row to the trade file when a market resolves. Settling marks the position closed
    but never credits the payout to the wallet, and the watcher never stops. */
module ScannerTester {
  import opened Wrappers
  import opened JsNumber
  import opened Gamma
  import opened OrderBook
  import opened Fills
  import opened Scanning
  import Sums
  import Seqs

  const TOTAL_BUDGET: real := 50.0
  const MAX_HOURS_TO_CLOSE: real := 4.0
  const MIN_PROBABILITY: real := 0.80
  const MAX_PROBABILITY: real := 0.96
  const MIN_LIQUIDITY_USD: real := 10.0
  /** The fixed amount offered to every trade, a fifth of the budget. */
  const ALLOCATION: real := TOTAL_BUDGET / 5.0

  // ---------------------------------------------------------------- the scan

  /** What the scan hands to the trade: the side, its best ask and the size quoted there. */
  datatype Candidate = Candidate(
    slug: string,
    marketId: string,
    side: Side,
    price: real,
    askSize: real,
    hoursToClose: Num)

  /** One side of a market: outside the probability band it is skipped; a thrown book request
      ends the scan; a book without asks, or whose best ask is worth less than the liquidity
      floor, is skipped; otherwise the side is a candidate at the best ask. */
  function SideFind(slug: string, m: Market, prices: seq<Outcome>, side: Side, book: Option<Book>,
                    hrs: Num): Found<Candidate>
  {
    if OutsideBand(HeldProbability(side, prices), MIN_PROBABILITY, MAX_PROBABILITY) then Found([], false)
    else
      match book
      case None => Found([], true)
      case Some(b) =>
        match BestAsk(b.asks)
        case None => Found([], false)
        case Some(q) =>
          if q.price * q.size < MIN_LIQUIDITY_USD then Found([], false)
          else Found([Candidate(slug, m.id, side, q.price, q.size, hrs)], false)
  }

  /** One market: a thrown lookup ends the scan; an empty answer or a missing price or token
      field skips it; a field that does not parse ends the scan; otherwise YES then NO. */
  function MarketFind(mi: MarketInput, hrs: Num): Found<Candidate>
  {
    match mi.answer
    case Failed => Found([], true)
    case Missing => Found([], false)
    case Got(m) =>
      if m.outcomePrices.Absent? || m.clobTokenIds.Absent? then Found([], false)
      else if !m.outcomePrices.Parsed? || !m.clobTokenIds.Parsed? then Found([], true)
      else
        var prices := m.outcomePrices.value;
        Then(SideFind(mi.slug, m, prices, Yes, BookFor(mi, Yes), hrs),
             SideFind(mi.slug, m, prices, No, BookFor(mi, No), hrs))
  }

  /** The markets of one event, in order, until one throws. */
  function MarketsFind(ms: seq<MarketInput>, hrs: Num): Found<Candidate>
  {
    if |ms| == 0 then Found([], false)
    else Then(MarketsFind(ms[..|ms| - 1], hrs), MarketFind(ms[|ms| - 1], hrs))
  }

  /** One event: outside the window of `(0, MAX_HOURS_TO_CLOSE]` hours it is skipped. */
  function EventFind(ev: EventInput): Found<Candidate>
  {
    if OutsideWindow(ev.hours, MAX_HOURS_TO_CLOSE) then Found([], false)
    else MarketsFind(ev.markets, ev.hours)
  }

  /** The whole scan, event by event, until one throws. */
  function ScanFind(events: seq<EventInput>): Found<Candidate>
  {
    if |events| == 0 then Found([], false)
    else Then(ScanFind(events[..|events| - 1]), EventFind(events[|events| - 1]))
  }

  /** The value quoted at a candidate's best ask reaches the liquidity floor. */
  predicate Liquid(c: Candidate) {
    c.price * c.askSize >= MIN_LIQUIDITY_USD
  }

  /** A side is taken exactly when its probability passes the band, its book request answers,
      the book has asks, and the best ask times the size at it reaches the floor; the candidate
      then carries that best ask and size. The scan ends at the side exactly when the band passes
      and the book request throws. */
  lemma SideFindExactly(slug: string, m: Market, prices: seq<Outcome>, side: Side, book: Option<Book>,
                        hrs: Num)
    ensures var r := SideFind(slug, m, prices, side, book, hrs);
            var prob := HeldProbability(side, prices);
            && (r.items != [] <==>
                  && (prob.NaN? || MIN_PROBABILITY <= prob.v <= MAX_PROBABILITY)
                  && book.Some? && |book.value.asks| > 0
                  && BestAsk(book.value.asks).value.price * BestAsk(book.value.asks).value.size >= MIN_LIQUIDITY_USD)
            && (r.items != [] ==>
                  r.items == [Candidate(slug, m.id, side, BestAsk(book.value.asks).value.price,
                                        BestAsk(book.value.asks).value.size, hrs)])
            && (r.aborted <==> !OutsideBand(prob, MIN_PROBABILITY, MAX_PROBABILITY) && book.None?)
  {
    OutsideBandMeaning(HeldProbability(side, prices), MIN_PROBABILITY, MAX_PROBABILITY);
  }

  /** A market yields at most its two sides, YES before NO, each a liquid candidate of that
      market; a thrown lookup ends the scan, an empty answer or a missing field skips the
      market, and a field present but not parsable ends the scan. */
  lemma MarketFindShape(mi: MarketInput, hrs: Num)
    ensures var r := MarketFind(mi, hrs);
            && |r.items| <= 2
            && (forall c <- r.items :: c.slug == mi.slug && mi.answer.Got? && c.marketId == mi.answer.value.id
                                       && c.hoursToClose == hrs && Liquid(c))
            && (|r.items| == 2 ==> r.items[0].side == Yes && r.items[1].side == No)
            && (mi.answer.Failed? ==> r.aborted)
            && (mi.answer.Missing? ==> r == Found([], false))
            && (mi.answer.Got? ==>
                  var m := mi.answer.value;
                  && ((m.outcomePrices.Absent? || m.clobTokenIds.Absent?) ==> r == Found([], false))
                  && ((&& !m.outcomePrices.Absent? && !m.clobTokenIds.Absent?
                       && !(m.outcomePrices.Parsed? && m.clobTokenIds.Parsed?)) ==> r == Found([], true)))
  {
    if mi.answer.Got? {
      var m := mi.answer.value;
      if m.outcomePrices.Parsed? && m.clobTokenIds.Parsed? {
        var prices := m.outcomePrices.value;
        var y := SideFind(mi.slug, m, prices, Yes, BookFor(mi, Yes), hrs);
        var n := SideFind(mi.slug, m, prices, No, BookFor(mi, No), hrs);
        SideFindShape(mi.slug, m, prices, Yes, BookFor(mi, Yes), hrs);
        SideFindShape(mi.slug, m, prices, No, BookFor(mi, No), hrs);
        assert MarketFind(mi, hrs) == Then(y, n);
        if !y.aborted {
          assert Then(y, n).items == y.items + n.items;
        }
      }
    }
  }

  /** A side gives at most one candidate, of that side and market, and liquid. */
  lemma SideFindShape(slug: string, m: Market, prices: seq<Outcome>, side: Side, book: Option<Book>,
                      hrs: Num)
    ensures var r := SideFind(slug, m, prices, side, book, hrs);
            && |r.items| <= 1
            && forall c <- r.items :: && c.slug == slug && c.marketId == m.id && c.side == side
                                      && c.hoursToClose == hrs && Liquid(c)
  {
  }

  /** After a throw the scan is over: nothing later adds a candidate. */
  lemma {:induction false} MarketsAbortedRest(ms: seq<MarketInput>, hrs: Num, i: nat)
    requires i <= |ms| && MarketsFind(ms[..i], hrs).aborted
    ensures MarketsFind(ms, hrs) == MarketsFind(ms[..i], hrs)
    decreases |ms| - i
  {
    if i < |ms| {
      assert ms[..i + 1][..i] == ms[..i];
      MarketsAbortedRest(ms, hrs, i + 1);
    } else {
      assert ms[..i] == ms;
    }
  }

  lemma {:induction false} ScanAbortedRest(events: seq<EventInput>, i: nat)
    requires i <= |events| && ScanFind(events[..i]).aborted
    ensures ScanFind(events) == ScanFind(events[..i])
    decreases |events| - i
  {
    if i < |events| {
      assert events[..i + 1][..i] == events[..i];
      ScanAbortedRest(events, i + 1);
    } else {
      assert events[..i] == events;
    }
  }

  /** Every candidate of every scan reaches the liquidity floor, and belongs to an event inside
      the window (or whose end date gave NaN hours, which no guard rejects). */
  lemma {:induction false} ScanFindSound(events: seq<EventInput>)
    ensures forall c <- ScanFind(events).items ::
              Liquid(c) && !OutsideWindow(c.hoursToClose, MAX_HOURS_TO_CLOSE)
  {
    if |events| > 0 {
      var n := |events| - 1;
      ScanFindSound(events[..n]);
      var ev := events[n];
      if !OutsideWindow(ev.hours, MAX_HOURS_TO_CLOSE) {
        EventMarketsSound(ev.markets, ev.hours);
      }
    }
  }

  lemma {:induction false} EventMarketsSound(ms: seq<MarketInput>, hrs: Num)
    ensures forall c <- MarketsFind(ms, hrs).items :: Liquid(c) && c.hoursToClose == hrs
  {
    if |ms| > 0 {
      EventMarketsSound(ms[..|ms| - 1], hrs);
      MarketFindShape(ms[|ms| - 1], hrs);
    }
  }

  /** One more market extends the scan of the markets before it. */
  lemma MarketsFindStep(ms: seq<MarketInput>, hrs: Num, j: nat)
    requires j < |ms|
    ensures MarketsFind(ms[..j + 1], hrs) == Then(MarketsFind(ms[..j], hrs), MarketFind(ms[j], hrs))
  {
    assert ms[..j + 1][..j] == ms[..j];
  }

  /** The loop over one event's markets, each market's YES and NO sides, stopping at the
      first exception. It computes exactly `MarketsFind`. */
  method ScanMarkets(ms: seq<MarketInput>, hrs: Num) returns (cands: seq<Candidate>, aborted: bool)
    ensures Found(cands, aborted) == MarketsFind(ms, hrs)
  {
    cands, aborted := [], false;
    var j := 0;
    while j < |ms| && !aborted
      invariant 0 <= j <= |ms|
      invariant Found(cands, aborted) == MarketsFind(ms[..j], hrs)
    {
      MarketsFindStep(ms, hrs, j);
      var r := MarketFind(ms[j], hrs);
      cands, aborted := cands + r.items, r.aborted;
      j := j + 1;
    }
    if aborted {
      MarketsAbortedRest(ms, hrs, j);
    } else {
      assert ms[..j] == ms;
    }
  }

  /** The scan loop: events in order, skipping those outside the window, stopping at the first
      exception. It computes exactly `ScanFind`. */
  method Scan(events: seq<EventInput>) returns (cands: seq<Candidate>, aborted: bool)
    ensures Found(cands, aborted) == ScanFind(events)
  {
    cands, aborted := [], false;
    var i := 0;
    while i < |events| && !aborted
      invariant 0 <= i <= |events|
      invariant Found(cands, aborted) == ScanFind(events[..i])
    {
      var ev := events[i];
      assert events[..i + 1][..i] == events[..i];
      if !OutsideWindow(ev.hours, MAX_HOURS_TO_CLOSE) {
        var more, stop := ScanMarkets(ev.markets, ev.hours);
        cands, aborted := cands + more, stop;
      } else {
        assert cands + [] == cands;
      }
      i := i + 1;
    }
    if aborted {
      ScanAbortedRest(events, i);
    } else {
      assert events[..i] == events;
    }
  }

  // ---------------------------------------------------------------- the trades

  /** A position: identity, size and cost basis of the opening trade, and the settled flag. */
  datatype Position = Position(
    slug: string,
    marketId: string,
    side: Side,
    entryPrice: real,
    size: real,
    cost: real,
    hoursToClose: Num,
    boughtAt: string,
    resolved: bool)

  predicate PositionOk(p: Position) {
    p.size > 0.0 && p.cost == p.size * p.entryPrice
  }

  ghost predicate AllOk(ps: seq<Position>) {
    forall k :: 0 <= k < |ps| ==> PositionOk(ps[k])
  }

  function CostOf(p: Position): real {
    p.cost
  }

  /** `Math.min(ALLOCATION / price, askSize)`; at price zero the quotient is Infinity and the
      minimum is the ask size. */
  function TradeSize(c: Candidate): real {
    if c.price == 0.0 then c.askSize else Min(ALLOCATION / c.price, c.askSize)
  }

  /** The trade for one candidate: nothing when the size is not positive, nothing when the
      wallet holds less than the cost; otherwise an unsettled position at the best ask. */
  function PaperTrade(balance: real, c: Candidate, boughtAt: string): Option<Position> {
    var size := TradeSize(c);
    if size <= 0.0 || balance < size * c.price then None
    else Some(Position(c.slug, c.marketId, c.side, c.price, size, size * c.price, c.hoursToClose,
                       boughtAt, false))
  }

  /** A trade happens exactly when the size is positive and the balance covers the cost; the
      position then buys at most the quoted size, is well formed and unsettled, and paying for
      it leaves the balance non-negative. */
  lemma PaperTradeExactly(balance: real, c: Candidate, boughtAt: string)
    ensures var r := PaperTrade(balance, c, boughtAt);
            && (r.Some? <==> TradeSize(c) > 0.0 && balance >= TradeSize(c) * c.price)
            && (r.Some? ==>
                  && r.value.size == TradeSize(c) <= c.askSize
                  && r.value.entryPrice == c.price && r.value.side == c.side
                  && PositionOk(r.value) && !r.value.resolved
                  && balance - r.value.cost >= 0.0)
  {
  }

  /** At a positive price a trade never spends more than the fixed allocation. */
  lemma PaperTradeWithinAllocation(balance: real, c: Candidate, boughtAt: string)
    requires c.price > 0.0 && PaperTrade(balance, c, boughtAt).Some?
    ensures PaperTrade(balance, c, boughtAt).value.cost <= ALLOCATION
  {
    var q := ALLOCATION / c.price;
    assert q * c.price == ALLOCATION;
    var s := TradeSize(c);
    assert s <= q;
    assert s * c.price <= q * c.price;
  }

  /** The wallet as the trades leave it. */
  datatype Ledger = Ledger(balance: real, positions: seq<Position>)

  /** The trades of a list of candidates, in order, each against the balance the earlier ones
      left. */
  function Traded(balance: real, cands: seq<Candidate>, boughtAt: string): (r: Ledger)
    ensures |r.positions| <= |cands|
  {
    if |cands| == 0 then Ledger(balance, [])
    else
      var prev := Traded(balance, cands[..|cands| - 1], boughtAt);
      match PaperTrade(prev.balance, cands[|cands| - 1], boughtAt)
      case None => prev
      case Some(p) => Ledger(prev.balance - p.cost, prev.positions + [p])
  }

  /** Appending a position adds its cost to the total. */
  lemma CostAppend(ps: seq<Position>, p: Position)
    ensures Sums.Sum(ps + [p], CostOf) == Sums.Sum(ps, CostOf) + p.cost
  {
    assert (ps + [p])[..|ps|] == ps;
  }

  /** The trades debit exactly what the new positions cost, every new position is well formed
      and unsettled, and a non-negative balance stays non-negative. */
  lemma {:induction false} TradedBooks(balance: real, cands: seq<Candidate>, boughtAt: string)
    ensures var r := Traded(balance, cands, boughtAt);
            && r.balance == balance - Sums.Sum(r.positions, CostOf)
            && (forall p <- r.positions :: PositionOk(p) && !p.resolved)
            && (balance >= 0.0 ==> r.balance >= 0.0)
  {
    if |cands| > 0 {
      var n := |cands| - 1;
      TradedBooks(balance, cands[..n], boughtAt);
      var prev := Traded(balance, cands[..n], boughtAt);
      PaperTradeExactly(prev.balance, cands[n], boughtAt);
      match PaperTrade(prev.balance, cands[n], boughtAt)
      case None =>
        assert Traded(balance, cands, boughtAt) == prev;
      case Some(p) =>
        var ps := prev.positions + [p];
        assert Traded(balance, cands, boughtAt) == Ledger(prev.balance - p.cost, ps);
        CostAppend(prev.positions, p);
        forall q <- ps
          ensures PositionOk(q) && !q.resolved
        {
          if q != p {
            assert q in prev.positions;
          }
        }
    }
  }

  /** Trading one more candidate extends the trades of the prefix by one step. */
  lemma TradedStep(balance: real, cands: seq<Candidate>, boughtAt: string, i: nat)
    requires i < |cands|
    ensures var prev := Traded(balance, cands[..i], boughtAt);
            Traded(balance, cands[..i + 1], boughtAt)
            == (match PaperTrade(prev.balance, cands[i], boughtAt)
                case None => prev
                case Some(p) => Ledger(prev.balance - p.cost, prev.positions + [p]))
  {
    assert cands[..i + 1][..i] == cands[..i];
  }

  /** The trades of the scan's candidates, one `paperTrade` call per candidate in order. It
      computes exactly `Traded`. */
  method TradeAll(balance: real, cands: seq<Candidate>, boughtAt: string)
    returns (left: real, newOnes: seq<Position>)
    ensures Ledger(left, newOnes) == Traded(balance, cands, boughtAt)
  {
    left, newOnes := balance, [];
    var i := 0;
    while i < |cands|
      invariant 0 <= i <= |cands|
      invariant Ledger(left, newOnes) == Traded(balance, cands[..i], boughtAt)
    {
      TradedStep(balance, cands, boughtAt, i);
      match PaperTrade(left, cands[i], boughtAt) {
        case None =>
        case Some(p) =>
          left := left - p.cost;
          newOnes := newOnes + [p];
      }
      i := i + 1;
    }
    assert cands[..i] == cands;
  }

  // ---------------------------------------------------------------- the watcher

  /** One row of the trade file (the date column is the date part of `resolvedAt`). */
  datatype Row = Row(
    slug: string,
    side: Side,
    entryPrice: real,
    size: real,
    cost: real,
    hoursToClose: Num,
    boughtAt: string,
    resolution: Side,
    resolvedAt: string,
    payout: real,
    pnlNoFees: real,
    pnlWithFees: real)

  /** The outcome of checking one unsettled position in a tick: nothing happens, an exception
      escapes and ends the tick, or the position is settled and one row written. */
  datatype Step = Keep | Abort | Update(next: Position, row: Row)

  /** One unsettled position in one tick: a thrown lookup ends the tick; an empty answer or an
      open market is skipped; a closed market whose outcome prices do not parse (or are absent)
      ends the tick; a closed market without a final outcome tag is skipped; otherwise the
      position settles with its whole size. */
  function Evaluate(p: Position, market: Fetch<Market>, now: string): Step
  {
    match market
    case Failed => Abort
    case Missing => Keep
    case Got(m) =>
      if !m.closed then Keep
      else
        match m.outcomePrices
        case Parsed(prices) =>
          (match ResolutionOf(prices)
           case None => Keep
           case Some(res) =>
             var s := Settle(p.side, res, p.size, p.cost);
             Update(p.(resolved := true),
                    Row(p.slug, p.side, p.entryPrice, p.size, p.cost, p.hoursToClose, p.boughtAt,
                        res, now, s.payout, s.pnlNoFees, s.pnlWithFees)))
        case _ => Abort
  }

  /** A position settles exactly when its market was fetched, is closed, and carries a final
      outcome tag; the position is then only marked settled, and the row pays the whole size on
      the winning side and nothing on the losing side, less the one-percent fee. */
  lemma SettlesExactly(p: Position, market: Fetch<Market>, now: string, res: Side)
    requires PositionOk(p)
    ensures var st := Evaluate(p, market, now);
            (st.Update? && st.row.resolution == res) <==>
              && market.Got? && market.value.closed
              && market.value.outcomePrices.Parsed?
              && ResolutionOf(market.value.outcomePrices.value) == Some(res)
    ensures var st := Evaluate(p, market, now);
            st.Update? ==>
              && st.next == p.(resolved := true)
              && st.row.payout == (if p.side == st.row.resolution then p.size else 0.0)
              && st.row.pnlNoFees == st.row.payout - p.cost
              && st.row.pnlWithFees == st.row.pnlNoFees - st.row.payout * FEE_RATE
  {
  }

  /** The tick ends at this position exactly when the lookup threw, or the market is closed
      with outcome prices that are absent or do not parse. */
  lemma AbortsExactly(p: Position, market: Fetch<Market>, now: string)
    ensures Evaluate(p, market, now).Abort? <==>
              || market.Failed?
              || (market.Got? && market.value.closed && !market.value.outcomePrices.Parsed?)
  {
  }

  /** The state a sweep leaves: the positions, the rows written, and whether an exception ended
      it early. */
  datatype Sweep = Sweep(positions: seq<Position>, rows: seq<Row>, aborted: bool)

  /** One tick's handling of the next position: a settled position is skipped, and after an
      exception nothing further is looked at. */
  function Advance(prev: Sweep, p: Position, market: Fetch<Market>, now: string): (r: Sweep)
    ensures |r.positions| == |prev.positions| + 1
  {
    if prev.aborted || p.resolved then Sweep(prev.positions + [p], prev.rows, prev.aborted)
    else
      match Evaluate(p, market, now)
      case Keep => Sweep(prev.positions + [p], prev.rows, false)
      case Abort => Sweep(prev.positions + [p], prev.rows, true)
      case Update(q, row) => Sweep(prev.positions + [q], prev.rows + [row], false)
  }

  /** One tick's walk over the positions in order, with the market answer for each position. */
  function SweepOf(ps: seq<Position>, markets: seq<Fetch<Market>>, now: string): (r: Sweep)
    requires |markets| == |ps|
    ensures |r.positions| == |ps|
  {
    if |ps| == 0 then Sweep([], [], false)
    else
      var n := |ps| - 1;
      Advance(SweepOf(ps[..n], markets[..n], now), ps[n], markets[n], now)
  }

  lemma SweepPrefix(ps: seq<Position>, markets: seq<Fetch<Market>>, now: string, i: nat)
    requires |markets| == |ps| && i < |ps|
    ensures SweepOf(ps[..i + 1], markets[..i + 1], now)
            == Advance(SweepOf(ps[..i], markets[..i], now), ps[i], markets[i], now)
  {
    assert ps[..i + 1][..i] == ps[..i];
    assert markets[..i + 1][..i] == markets[..i];
  }

  /** A step changes the next position at most by marking it settled, keeps the positions
      before it, and writes at most one row. */
  lemma AdvanceKeepsOk(prev: Sweep, p: Position, market: Fetch<Market>, now: string)
    requires PositionOk(p) && AllOk(prev.positions)
    ensures var r := Advance(prev, p, market, now);
            && AllOk(r.positions)
            && r.positions[..|prev.positions|] == prev.positions
            && r.positions[|prev.positions|] in {p, p.(resolved := true)}
            && |r.rows| <= |prev.rows| + 1
  {
    var r := Advance(prev, p, market, now);
    assert r.positions[..|prev.positions|] == prev.positions;
  }

  /** A sweep changes a position at most by marking it settled, so it keeps every position
      well formed, and it writes no more rows than it walks positions. */
  lemma {:induction false} SweepKeepsOk(ps: seq<Position>, markets: seq<Fetch<Market>>, now: string)
    requires |markets| == |ps| && AllOk(ps)
    ensures var s := SweepOf(ps, markets, now);
            && AllOk(s.positions)
            && (forall k :: 0 <= k < |ps| ==> s.positions[k] in {ps[k], ps[k].(resolved := true)})
            && |s.rows| <= |ps|
  {
    if |ps| > 0 {
      var n := |ps| - 1;
      var prev := SweepOf(ps[..n], markets[..n], now);
      SweepKeepsOk(ps[..n], markets[..n], now);
      AdvanceKeepsOk(prev, ps[n], markets[n], now);
      var s := SweepOf(ps, markets, now);
      forall k | 0 <= k < |ps|
        ensures s.positions[k] in {ps[k], ps[k].(resolved := true)}
      {
        if k < n {
          assert s.positions[..n][k] == s.positions[k];
          assert ps[..n][k] == ps[k];
        }
      }
    }
  }

  /** A position the watcher still checks. */
  predicate IsOpen(p: Position) {
    !p.resolved
  }

  /** A step writes a row exactly when it changes the position it walks, keeps the positions
      before it, and never changes a settled position. */
  lemma AdvanceRows(prev: Sweep, p: Position, market: Fetch<Market>, now: string)
    ensures var r := Advance(prev, p, market, now);
            && r.positions[..|prev.positions|] == prev.positions
            && |r.rows| == |prev.rows| + (if r.positions[|prev.positions|] == p then 0 else 1)
            && (p.resolved ==> r.positions[|prev.positions|] == p)
  {
    var r := Advance(prev, p, market, now);
    assert r.positions[..|prev.positions|] == prev.positions;
  }

  /** A sweep writes one row for every position it settles and no other, so never a row for a
      position settled before the tick, and never more rows than there are unsettled
      positions. */
  lemma {:induction false} SweepRows(ps: seq<Position>, markets: seq<Fetch<Market>>, now: string)
    requires |markets| == |ps|
    ensures var s := SweepOf(ps, markets, now);
            && |s.rows| == Seqs.Changed(ps, s.positions)
            && Seqs.Changed(ps, s.positions) <= Seqs.Count(ps, IsOpen)
  {
    if |ps| > 0 {
      var n := |ps| - 1;
      var prev := SweepOf(ps[..n], markets[..n], now);
      SweepRows(ps[..n], markets[..n], now);
      AdvanceRows(prev, ps[n], markets[n], now);
      var s := SweepOf(ps, markets, now);
      assert s.positions[..n] == prev.positions;
    }
  }

  /** A sweep leaves every cost basis as it was. */
  lemma {:induction false} SweepKeepsCosts(ps: seq<Position>, markets: seq<Fetch<Market>>, now: string)
    requires |markets| == |ps| && AllOk(ps)
    ensures Sums.Sum(SweepOf(ps, markets, now).positions, CostOf) == Sums.Sum(ps, CostOf)
  {
    if |ps| > 0 {
      var n := |ps| - 1;
      var prev := SweepOf(ps[..n], markets[..n], now);
      SweepKeepsCosts(ps[..n], markets[..n], now);
      SweepKeepsOk(ps[..n], markets[..n], now);
      AdvanceKeepsOk(prev, ps[n], markets[n], now);
      var s := SweepOf(ps, markets, now);
      assert s.positions[..n] == prev.positions;
      assert CostOf(s.positions[n]) == CostOf(ps[n]);
    }
  }

  lemma {:induction false} SweepAbortedRest(ps: seq<Position>, markets: seq<Fetch<Market>>, now: string, i: nat)
    requires |markets| == |ps| && i <= |ps|
    requires SweepOf(ps[..i], markets[..i], now).aborted
    ensures var pre := SweepOf(ps[..i], markets[..i], now);
            SweepOf(ps, markets, now) == Sweep(pre.positions + ps[i..], pre.rows, true)
    decreases |ps| - i
  {
    if i < |ps| {
      SweepPrefix(ps, markets, now, i);
      SweepAbortedRest(ps, markets, now, i + 1);
      assert ps[i..] == [ps[i]] + ps[i + 1..];
    } else {
      assert ps[..i] == ps && markets[..i] == markets;
    }
  }

  /** The loop of one tick: walk the positions in order, skip settled ones, check each unsettled
      one and mark it settled in place, and stop at the first exception. It computes exactly the
      sweep `SweepOf` describes. */
  method RunSweep(positions: seq<Position>, markets: seq<Fetch<Market>>, now: string)
    returns (ps: seq<Position>, log: seq<Row>, aborted: bool)
    requires |markets| == |positions|
    ensures Sweep(ps, log, aborted) == SweepOf(positions, markets, now)
  {
    ps, log := positions, [];
    ghost var sw := Sweep([], [], false);
    var n := |ps|;
    var i := 0;
    aborted := false;
    while i < n && !aborted
      invariant 0 <= i <= n == |positions| == |ps|
      invariant sw == SweepOf(positions[..i], markets[..i], now)
      invariant ps == sw.positions + positions[i..]
      invariant log == sw.rows && aborted == sw.aborted
    {
      SweepPrefix(positions, markets, now, i);
      Seqs.SpliceAt(sw.positions, positions, i);
      var p := ps[i];
      if !p.resolved {
        match Evaluate(p, markets[i], now)
        case Keep =>
        case Abort =>
          aborted := true;
        case Update(q, row) =>
          ps := ps[i := q];
          log := log + [row];
      }
      sw := Advance(sw, positions[i], markets[i], now);
      i := i + 1;
    }
    if aborted {
      SweepAbortedRest(positions, markets, now, i);
    } else {
      assert positions[..i] == positions && markets[..i] == markets;
    }
  }

  /** The input one tick receives: per position, the market answer, and the clock reading. */
  datatype TickInput = TickInput(markets: seq<Fetch<Market>>, now: string)

  /** The wallet's state between ticks: the balance, the positions and the trade file. */
  datatype State = State(balance: real, positions: seq<Position>, rows: seq<Row>)

  /** What the watcher leaves: the final state, the number of ticks run, and whether the last
      one threw. */
  datatype Polled = Polled(state: State, ran: nat, crashed: bool)

  /** Every tick answers for as many positions as the wallet holds. */
  predicate Fits(ticks: seq<TickInput>, n: nat) {
    forall k :: 0 <= k < |ticks| ==> |ticks[k].markets| == n
  }

  /** One tick from a state: the sweep's positions and its rows appended; the balance is not
      touched. */
  function TickOf(st: State, t: TickInput): (next: State)
    requires |t.markets| == |st.positions|
    ensures |next.positions| == |st.positions| && next.balance == st.balance
  {
    var s := SweepOf(st.positions, t.markets, t.now);
    State(st.balance, s.positions, st.rows + s.rows)
  }

  /** The watcher from tick `i` on: it never stops by itself, so it runs every tick until one
      throws, and that one is the last. */
  function PollFrom(st: State, ticks: seq<TickInput>, i: nat): (r: Polled)
    requires i <= |ticks| && Fits(ticks, |st.positions|)
    ensures i <= r.ran <= |ticks| && |r.state.positions| == |st.positions|
    ensures r.ran < |ticks| ==> r.crashed
    ensures r.state.balance == st.balance
    decreases |ticks| - i
  {
    if i == |ticks| then Polled(st, i, false)
    else if SweepOf(st.positions, ticks[i].markets, ticks[i].now).aborted then
      Polled(TickOf(st, ticks[i]), i + 1, true)
    else PollFrom(TickOf(st, ticks[i]), ticks, i + 1)
  }

  /** The watcher never changes a settled position, and changes an unsettled one at most by
      settling it. */
  lemma {:induction false} PollKeepsSettled(st: State, ticks: seq<TickInput>, i: nat)
    requires i <= |ticks| && Fits(ticks, |st.positions|) && AllOk(st.positions)
    ensures var r := PollFrom(st, ticks, i);
            && AllOk(r.state.positions)
            && forall k :: 0 <= k < |st.positions| ==>
                 r.state.positions[k] in {st.positions[k], st.positions[k].(resolved := true)}
    decreases |ticks| - i
  {
    if i < |ticks| {
      var next := TickOf(st, ticks[i]);
      SweepKeepsOk(st.positions, ticks[i].markets, ticks[i].now);
      if !SweepOf(st.positions, ticks[i].markets, ticks[i].now).aborted {
        PollKeepsSettled(next, ticks, i + 1);
        var r := PollFrom(st, ticks, i);
        forall k | 0 <= k < |st.positions|
          ensures r.state.positions[k] in {st.positions[k], st.positions[k].(resolved := true)}
        {
          assert next.positions[k] in {st.positions[k], st.positions[k].(resolved := true)};
        }
      }
    }
  }

  // ---------------------------------------------------------------- the wallet

  class Wallet {
    var balance: real
    /** The positions, in the order they were bought. */
    var positions: seq<Position>
    /** The trade file's rows, in the order they were appended. */
    var rows: seq<Row>

    /** The wallet's invariant: every position is well formed, and the balance is the budget
        less the cost of every position ever bought, which never takes it below zero. */
    ghost predicate Valid()
      reads this
    {
      && AllOk(positions)
      && balance + Sums.Sum(positions, CostOf) == TOTAL_BUDGET
      && balance >= 0.0
    }

    /** The wallet holds the fixed budget and no position. */
    constructor ()
      ensures Valid()
      ensures balance == TOTAL_BUDGET && positions == [] && rows == []
    {
      balance := TOTAL_BUDGET;
      positions := [];
      rows := [];
    }

    /** The start-up scan: the candidates of `ScanFind`, each traded in order against the
        balance the earlier trades left, until the scan throws. */
    method ScanAndTrade(events: seq<EventInput>, boughtAt: string) returns (aborted: bool)
      requires Valid()
      modifies this
      ensures Valid() && rows == old(rows)
      ensures var f := ScanFind(events);
              var l := Traded(old(balance), f.items, boughtAt);
              && positions == old(positions) + l.positions
              && balance == l.balance
              && aborted == f.aborted
    {
      var cands;
      cands, aborted := Scan(events);
      var left, newOnes := TradeAll(balance, cands, boughtAt);
      TradedBooks(balance, cands, boughtAt);
      Sums.SumAppend(positions, newOnes, CostOf);
      assert AllOk(positions + newOnes) by {
        forall k | 0 <= k < |positions + newOnes|
          ensures PositionOk((positions + newOnes)[k])
        {
          if k >= |positions| {
            assert (positions + newOnes)[k] in newOnes;
          }
        }
      }
      positions, balance := positions + newOnes, left;
    }

    /** One watcher tick: the positions are walked and settled as `SweepOf` says, the rows are
        appended, and the balance is left exactly as it was. */
    method Tick(markets: seq<Fetch<Market>>, now: string) returns (aborted: bool)
      requires Valid() && |markets| == |positions|
      modifies this
      ensures Valid()
      ensures var s := SweepOf(old(positions), markets, now);
              && positions == s.positions
              && rows == old(rows) + s.rows
              && aborted == s.aborted
      ensures balance == old(balance)
    {
      var next, logged;
      next, logged, aborted := RunSweep(positions, markets, now);
      SweepKeepsOk(positions, markets, now);
      SweepKeepsCosts(positions, markets, now);
      positions, rows := next, rows + logged;
    }

    /** The wallet's state as a value. */
    function Current(): State
      reads this
    {
      State(balance, positions, rows)
    }

    /** The watcher never clears its interval: every tick runs until one throws, which ends
        the process. The new state is exactly what `PollFrom` gives; the balance never changes,
        whatever settles. */
    method Poll(ticks: seq<TickInput>) returns (ran: nat, crashed: bool)
      requires Valid()
      requires Fits(ticks, |positions|)
      modifies this
      ensures Valid()
      ensures PollFrom(old(Current()), ticks, 0) == Polled(Current(), ran, crashed)
      ensures crashed ==> ran > 0
    {
      ran, crashed := 0, false;
      while ran < |ticks| && !crashed
        invariant Valid() && |positions| == old(|positions|) && ran <= |ticks|
        invariant crashed ==> ran > 0
        invariant !crashed ==> PollFrom(old(Current()), ticks, 0) == PollFrom(Current(), ticks, ran)
        invariant crashed ==> PollFrom(old(Current()), ticks, 0) == Polled(Current(), ran, true)
        decreases |ticks| - ran
      {
        var t := ticks[ran];
        ghost var before := Current();
        crashed := Tick(t.markets, t.now);
        assert Current() == TickOf(before, t);
        ran := ran + 1;
      }
    }

    /** Start-up: scan and trade, and only if the scan did not throw, start the watcher. The
        trades found before a throw are still made (they are appended as the scan goes), but
        then no tick runs. */
    method Boot(events: seq<EventInput>, boughtAt: string, ticks: seq<TickInput>)
      returns (scanAborted: bool, ran: nat, crashed: bool)
      requires Valid()
      requires Fits(ticks, |positions| + |Traded(balance, ScanFind(events).items, boughtAt).positions|)
      modifies this
      ensures Valid()
      ensures scanAborted == ScanFind(events).aborted
      ensures var l := Traded(old(balance), ScanFind(events).items, boughtAt);
              var traded := State(l.balance, old(positions) + l.positions, old(rows));
              && (scanAborted ==> Current() == traded && ran == 0 && !crashed)
              && (!scanAborted ==> PollFrom(traded, ticks, 0) == Polled(Current(), ran, crashed))
      ensures balance == Traded(old(balance), ScanFind(events).items, boughtAt).balance
    {
      scanAborted := ScanAndTrade(events, boughtAt);
      ran, crashed := 0, false;
      if !scanAborted {
        ran, crashed := Poll(ticks);
      }
    }
  }
}
