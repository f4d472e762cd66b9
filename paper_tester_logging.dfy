/** The paper trader with stop-loss and a trade log (paperTesterLogging.js): it splits a budget
    equally over the scanner's opportunities and opens one simulated fill per opportunity, then on
    every poll tick walks the open positions, taking a stop-loss exit against the best bid when the
    held side's probability has dropped far enough, and otherwise settling positions whose market
    has closed with a final outcome. Every exit and settlement credits the wallet and appends one
    row to the trade log. Polling ends once no position is left open. */
module PaperTesterLogging {
  import opened Wrappers
  import opened JsNumber
  import opened Gamma
  import opened OrderBook
  import opened Fills
  import Sums
  import Seqs

  /** The tag a closing event records: settled at the market's outcome, or stopped out. */
  datatype Resolution = Settled(side: Side) | StopLoss

  /** The settlement fields of a position; a later stop-loss exit overwrites earlier ones. */
  datatype Closing = Closing(
    resolution: Resolution,
    resolvedAt: string,
    payout: real,
    pnlNoFees: real,
    pnlWithFees: real)

  /** A position: identity, remaining size and cost basis, lifecycle flag, last closing event. */
  datatype Position = Position(
    slug: string,
    marketId: string,
    side: Side,
    tokenId: string,
    entryProbability: Num,
    entryPrice: real,
    size: real,
    cost: real,
    boughtAt: string,
    hoursToCloseAtEntry: Num,
    resolved: bool,
    closing: Option<Closing>)

  /** One row of the trade log (the date column is the date part of `resolvedAt`). */
  datatype Row = Row(
    slug: string,
    side: Side,
    entryPrice: real,
    size: real,
    cost: real,
    hoursToCloseAtEntry: Num,
    boughtAt: string,
    resolution: Resolution,
    resolvedAt: string,
    payout: real,
    pnlNoFees: real,
    pnlWithFees: real)

  /** What every position satisfies: sizes are never negative, an open position has a positive
      size (the divisor of the proportional cost), the cost basis stays at size times entry
      price however many partial exits were taken, and a closed position has its settlement. */
  predicate PositionOk(p: Position) {
    && p.size >= 0.0
    && (!p.resolved ==> p.size > 0.0)
    && p.cost == p.size * p.entryPrice
    && (p.resolved ==> p.closing.Some?)
  }

  /** The cost basis still at risk: that of an open position. */
  function OpenCost(p: Position): real {
    if p.resolved then 0.0 else p.cost
  }

  function CostOf(p: Position): real {
    p.cost
  }

  function RowPnl(r: Row): real {
    r.pnlNoFees
  }

  function RowPayout(r: Row): real {
    r.payout
  }

  predicate AllResolved(ps: seq<Position>) {
    forall k :: 0 <= k < |ps| ==> ps[k].resolved
  }

  /** With every position closed nothing is at risk: the open cost basis is zero. */
  lemma {:induction false} NothingOpen(ps: seq<Position>)
    requires AllResolved(ps)
    ensures Sums.Sum(ps, OpenCost) == 0.0
  {
    if |ps| > 0 {
      NothingOpen(ps[..|ps| - 1]);
    }
  }

  // ---------------------------------------------------------------- allocation

  /** The position that an opening fill creates. */
  function NewPosition(m: Opportunity, f: Fill, boughtAt: string): Position {
    Position(m.slug, m.marketId, m.side, m.tokenId, m.probability, f.price, f.size, f.cost,
             boughtAt, m.hoursToClose, false, None)
  }

  /** The positions that the allocation loop opens from `ms`, in input order. */
  function Opened(ms: seq<Opportunity>, allocation: real, boughtAt: string): (ps: seq<Position>)
    ensures |ps| <= |ms|
  {
    if |ms| == 0 then []
    else
      var rest := Opened(ms[..|ms| - 1], allocation, boughtAt);
      var m := ms[|ms| - 1];
      match OpenFill(allocation, m.bestAsk, m.askSize)
      case None => rest
      case Some(f) => rest + [NewPosition(m, f, boughtAt)]
  }

  /** Allocation handles the opportunities one at a time and keeps their order: the positions
      opened from a concatenation are those opened from each part, one after the other. */
  lemma {:induction false} OpenedAppend(a: seq<Opportunity>, b: seq<Opportunity>, allocation: real, boughtAt: string)
    ensures Opened(a + b, allocation, boughtAt) == Opened(a, allocation, boughtAt) + Opened(b, allocation, boughtAt)
  {
    if |b| == 0 {
      assert a + b == a;
    } else {
      var n := |b| - 1;
      assert (a + b)[..|a + b| - 1] == a + b[..n];
      assert (a + b)[|a + b| - 1] == b[n];
      OpenedAppend(a, b[..n], allocation, boughtAt);
    }
  }

  /** Allocating one more opportunity appends at most its own position. */
  lemma OpenedStep(ms: seq<Opportunity>, i: nat, allocation: real, boughtAt: string)
    requires i < |ms|
    ensures Opened(ms[..i + 1], allocation, boughtAt)
            == Opened(ms[..i], allocation, boughtAt)
               + (match OpenFill(allocation, ms[i].bestAsk, ms[i].askSize)
                  case None => []
                  case Some(f) => [NewPosition(ms[i], f, boughtAt)])
  {
    assert ms[..i + 1][..i] == ms[..i];
  }

  /** A position opened from a fill is open, unsettled and well formed, and with a non-negative
      allocation it costs a positive amount no larger than the allocation. */
  lemma NewPositionOk(m: Opportunity, allocation: real, boughtAt: string)
    requires OpenFill(allocation, m.bestAsk, m.askSize).Some?
    ensures var p := NewPosition(m, OpenFill(allocation, m.bestAsk, m.askSize).value, boughtAt);
            && PositionOk(p) && !p.resolved && p.closing.None?
            && (allocation >= 0.0 ==> 0.0 < p.cost <= allocation)
  {
    if allocation >= 0.0 {
      OpenFillWithinAllocation(allocation, m.bestAsk, m.askSize);
    }
  }

  /** Every opened position is open, unsettled, well formed, and costs a positive amount no
      larger than the allocation. */
  lemma {:induction false} OpenedPositions(ms: seq<Opportunity>, allocation: real, boughtAt: string)
    requires allocation >= 0.0
    ensures forall p <- Opened(ms, allocation, boughtAt) ::
              PositionOk(p) && !p.resolved && p.closing.None? && 0.0 < p.cost <= allocation
  {
    var ps := Opened(ms, allocation, boughtAt);
    if |ms| > 0 {
      var n := |ms| - 1;
      var m := ms[n];
      OpenedPositions(ms[..n], allocation, boughtAt);
      var rest := Opened(ms[..n], allocation, boughtAt);
      match OpenFill(allocation, m.bestAsk, m.askSize)
      case None =>
        assert ps == rest;
      case Some(f) =>
        NewPositionOk(m, allocation, boughtAt);
        var p := NewPosition(m, f, boughtAt);
        assert ps == rest + [p];
        forall q <- ps
          ensures PositionOk(q) && !q.resolved && q.closing.None? && 0.0 < q.cost <= allocation
        {
          if q != p {
            assert q in rest;
          }
        }
    }
  }

  /** At most `n` positions each costing at most `allocation` cost at most `n` allocations. */
  lemma CostsWithin(ps: seq<Position>, n: nat, allocation: real)
    requires |ps| <= n && allocation >= 0.0
    requires forall p <- ps :: p.cost <= allocation
    ensures Sums.Sum(ps, CostOf) <= Sums.Times(n, allocation)
  {
    forall k | 0 <= k < |ps|
      ensures CostOf(ps[k]) <= allocation
    {
      assert ps[k] in ps;
    }
    Sums.SumAtMost(ps, CostOf, allocation);
    Sums.TimesMonotone(|ps|, n, allocation);
  }

  /** The opened positions together cost at most one allocation per opportunity. */
  lemma OpenedCost(ms: seq<Opportunity>, allocation: real, boughtAt: string)
    requires allocation >= 0.0
    ensures Sums.Sum(Opened(ms, allocation, boughtAt), CostOf) <= Sums.Times(|ms|, allocation)
  {
    OpenedPositions(ms, allocation, boughtAt);
    CostsWithin(Opened(ms, allocation, boughtAt), |ms|, allocation);
  }

  /** The equal split never overspends: with `N > 0` opportunities and a non-negative budget,
      the fills at `budget / N` each cost at most the budget in total. */
  lemma AllocationWithinBudget(ms: seq<Opportunity>, budget: real, boughtAt: string)
    requires |ms| > 0 && budget >= 0.0
    ensures Sums.Sum(Opened(ms, budget / |ms| as real, boughtAt), CostOf) <= budget
  {
    OpenedCost(ms, budget / |ms| as real, boughtAt);
    Sums.EqualShares(|ms|, budget);
  }

  /** With a positive budget, every opportunity whose price and size are positive numbers opens
      a position, and one that opens nothing is exactly one whose price or size is zero, negative
      or NaN. */
  lemma {:induction false} OpenedCount(ms: seq<Opportunity>, allocation: real, boughtAt: string)
    requires allocation > 0.0
    ensures (forall k :: 0 <= k < |ms| ==>
               ms[k].bestAsk.Val? && ms[k].bestAsk.v > 0.0 && ms[k].askSize.Val? && ms[k].askSize.v > 0.0)
            ==> |Opened(ms, allocation, boughtAt)| == |ms|
  {
    if |ms| > 0 {
      var n := |ms| - 1;
      OpenedCount(ms[..n], allocation, boughtAt);
      OpenFillOpens(allocation, ms[n].bestAsk, ms[n].askSize);
    }
  }

  // ---------------------------------------------------------------- one position, one tick

  /** The outcome of evaluating one open position in a tick: nothing happens (`continue`), an
      exception escapes and ends the tick, or the position changes, the wallet is credited, and
      one row is logged. */
  datatype Step = Keep | Abort | Update(next: Position, credit: real, row: Row)

  /** The stop-loss threshold test: `entryProbability - currentProb >= STOP_PROB_DROP`; a NaN on
      either side never triggers. */
  predicate StopTriggered(p: Position, prices: seq<Outcome>, stopDrop: real) {
    AtLeast(Minus(p.entryProbability, HeldProbability(p.side, prices)), stopDrop)
  }

  /** The stop-loss branch is entered and reaches the order book without an exception: outcome
      prices parse, the threshold is met, and the order-book fetch returns. */
  predicate StopPathTaken(p: Position, m: Market, book: Option<Book>, stopDrop: real) {
    m.outcomePrices.Parsed? && StopTriggered(p, m.outcomePrices.value, stopDrop) && book.Some?
  }

  /** The stop-loss exit against the best bid: sell `min(size, bidSize)`, release the same
      fraction of the cost basis, and close the position once no size remains. */
  function StopExit(p: Position, bid: Quote, now: string): Step
    requires p.size > 0.0
  {
    var exitSize := Min(p.size, bid.size);
    if exitSize <= 0.0 then Keep
    else
      var payout := exitSize * bid.price;
      var costPortion := (exitSize / p.size) * p.cost;
      var pnlNoFees := payout - costPortion;
      var pnlWithFees := payout - costPortion - payout * FEE_RATE;
      var remaining := p.size - exitSize;
      Update(
        p.(size := remaining,
           cost := p.cost - costPortion,
           closing := Some(Closing(StopLoss, now, payout, pnlNoFees, pnlWithFees)),
           resolved := if remaining <= 0.0 then true else p.resolved),
        payout,
        Row(p.slug, p.side, p.entryPrice, exitSize, costPortion, p.hoursToCloseAtEntry,
            p.boughtAt, StopLoss, now, payout, pnlNoFees, pnlWithFees))
  }

  /** Settlement at the market's outcome: nothing until the market is closed with a final
      outcome tag; a closed market whose outcome prices do not parse throws. */
  function Resolve(p: Position, m: Market, now: string): Step
  {
    if !m.closed then Keep
    else
      match m.outcomePrices
      case Parsed(prices) =>
        (match ResolutionOf(prices)
         case None => Keep
         case Some(res) =>
           var s := Settle(p.side, res, p.size, p.cost);
           Update(
             p.(resolved := true,
                closing := Some(Closing(Settled(res), now, s.payout, s.pnlNoFees, s.pnlWithFees))),
             s.payout,
             Row(p.slug, p.side, p.entryPrice, p.size, p.cost, p.hoursToCloseAtEntry,
                 p.boughtAt, Settled(res), now, s.payout, s.pnlNoFees, s.pnlWithFees)))
      case _ => Abort
  }

  /** One open position in one tick: a failed market fetch skips it; an undefined market throws
      outside the stop-loss block; the stop-loss block runs first and, once it reaches the order
      book, ends the position's turn; otherwise (prices that do not parse, threshold not met, or
      a thrown order-book fetch) the settlement check runs. */
  function Evaluate(p: Position, market: Fetch<Market>, book: Option<Book>, stopDrop: real, now: string): Step
    requires p.size > 0.0
  {
    match market
    case Failed => Keep
    case Missing => Abort
    case Got(m) =>
      if StopPathTaken(p, m, book, stopDrop) then
        match BestBid(book.value.bids)
        case None => Keep
        case Some(bid) => StopExit(p, bid, now)
      else Resolve(p, m, now)
  }

  /** Removing the fraction `e / s` of a cost basis `s * price` leaves `(s - e) * price`. */
  lemma ProportionalCost(e: real, s: real, price: real)
    requires s != 0.0
    ensures (s * price) - (e / s) * (s * price) == (s - e) * price
  {
    calc {
      (e / s) * (s * price);
      ((e / s) * s) * price;
      { assert (e / s) * s == e; }
      e * price;
    }
  }

  /** A stop-loss exit keeps the cost per remaining unit: whatever fraction of the size is sold,
      the same fraction of the cost basis goes with it. */
  lemma StopExitKeepsRatio(p: Position, bid: Quote, now: string)
    requires p.size > 0.0
    requires StopExit(p, bid, now).Update? && StopExit(p, bid, now).next.size > 0.0
    ensures StopExit(p, bid, now).next.cost / StopExit(p, bid, now).next.size == p.cost / p.size
  {
    var e := Min(p.size, bid.size);
    var s := p.size;
    var c := p.cost;
    var c' := c - (e / s) * c;
    assert c' == c * ((s - e) / s) by {
      assert (e / s) * c == c * (e / s);
      assert c * ((s - e) / s) == c * (s / s) - c * (e / s);
    }
    var r := (s - e) / s;
    assert r != 0.0;
    assert c' / (s - e) == (c * r) / (s * r);
    assert (c * r) / (s * r) == c / s;
  }

  /** The amounts of a stop-loss exit: it sells a positive amount no larger than the remaining
      size or the size bid at the best price, credits that amount at the best bid, releases cost
      in proportion, and closes the position exactly when it sells everything. */
  lemma StopExitAmounts(p: Position, bid: Quote, now: string)
    requires PositionOk(p) && !p.resolved
    requires StopExit(p, bid, now).Update?
    ensures var u := StopExit(p, bid, now);
            && 0.0 < u.row.size <= p.size && u.row.size <= bid.size
            && u.row.size == Min(p.size, bid.size)
            && u.credit == u.row.payout == u.row.size * bid.price
            && u.row.cost == (u.row.size / p.size) * p.cost
            && u.next.size == p.size - u.row.size >= 0.0
            && u.next.cost == p.cost - u.row.cost
            && (p.cost >= 0.0 ==> u.next.cost >= 0.0)
            && (u.next.resolved <==> u.next.size == 0.0)
            && u.row.pnlWithFees == u.row.payout - u.row.cost - u.row.payout * FEE_RATE
  {
    var u := StopExit(p, bid, now);
    ProportionalCost(u.row.size, p.size, p.entryPrice);
    if p.cost >= 0.0 {
      assert p.entryPrice >= 0.0 by {
        if p.entryPrice < 0.0 {
          assert false;
        }
      }
      assert u.next.cost == u.next.size * p.entryPrice;
    }
  }

  /** What an update must satisfy: the position stays well formed and keeps its identity, the
      credit is the row's payout, and the books balance: the credit plus the change in open cost
      is the row's P&L before fees. */
  predicate StepOk(p: Position, st: Step) {
    st.Update? ==>
      && PositionOk(st.next)
      && st.credit + OpenCost(st.next) - OpenCost(p) == st.row.pnlNoFees
      && st.credit == st.row.payout
      && st.next.slug == p.slug && st.next.side == p.side
      && st.next.entryPrice == p.entryPrice && st.next.marketId == p.marketId
  }

  /** A stop-loss exit is a well-formed, balanced update. */
  lemma StopExitOk(p: Position, bid: Quote, now: string)
    requires PositionOk(p) && !p.resolved
    ensures StepOk(p, StopExit(p, bid, now))
  {
    if StopExit(p, bid, now).Update? {
      StopExitAmounts(p, bid, now);
      ProportionalCost(StopExit(p, bid, now).row.size, p.size, p.entryPrice);
    }
  }

  /** A settlement is a well-formed, balanced update. */
  lemma ResolveOk(p: Position, m: Market, now: string)
    requires PositionOk(p) && !p.resolved
    ensures StepOk(p, Resolve(p, m, now))
  {
  }

  /** One evaluation keeps the position well formed and keeps the books balanced. */
  lemma EvaluateKeepsOk(p: Position, market: Fetch<Market>, book: Option<Book>, stopDrop: real, now: string)
    requires PositionOk(p) && !p.resolved
    ensures StepOk(p, Evaluate(p, market, book, stopDrop, now))
  {
    if market.Got? {
      var m := market.value;
      if StopPathTaken(p, m, book, stopDrop) {
        match BestBid(book.value.bids)
        case None =>
        case Some(bid) => StopExitOk(p, bid, now);
      } else {
        ResolveOk(p, m, now);
      }
    }
  }

  /** The stop-loss fires exactly when the market was fetched, its outcome prices parse, the
      held side's probability has dropped by at least the threshold, the order book was fetched,
      it has bids, and some size is bid at the best price. */
  lemma StopLossFiresExactly(p: Position, market: Fetch<Market>, book: Option<Book>, stopDrop: real, now: string)
    requires PositionOk(p) && !p.resolved
    ensures var st := Evaluate(p, market, book, stopDrop, now);
            (st.Update? && st.row.resolution == StopLoss) <==>
              && market.Got?
              && StopPathTaken(p, market.value, book, stopDrop)
              && BestBid(book.value.bids).Some?
              && Min(p.size, BestBid(book.value.bids).value.size) > 0.0
  {
  }

  /** Settlement happens exactly when the market was fetched, the stop-loss branch did not reach
      the order book, the market is closed, and its outcome tag is final; it then pays the
      remaining size on the winning side and nothing on the losing side, credits the payout, and
      closes the position. */
  lemma SettlesExactly(p: Position, market: Fetch<Market>, book: Option<Book>, stopDrop: real, now: string, res: Side)
    requires PositionOk(p) && !p.resolved
    ensures var st := Evaluate(p, market, book, stopDrop, now);
            (st.Update? && st.row.resolution == Settled(res)) <==>
              && market.Got?
              && !StopPathTaken(p, market.value, book, stopDrop)
              && market.value.closed
              && market.value.outcomePrices.Parsed?
              && ResolutionOf(market.value.outcomePrices.value) == Some(res)
    ensures var st := Evaluate(p, market, book, stopDrop, now);
            (st.Update? && st.row.resolution == Settled(res)) ==>
              && st.next.resolved
              && st.credit == (if p.side == res then p.size else 0.0)
              && st.row.pnlNoFees == st.credit - p.cost
              && st.row.pnlWithFees == st.credit - st.credit * FEE_RATE - p.cost
              && st.next.size == p.size && st.next.cost == p.cost
  {
    if market.Got? && StopPathTaken(p, market.value, book, stopDrop) {
      StopCheckPreemptsSettlement(p, market.value, book, stopDrop, now);
    }
  }

  /** Once the threshold is met and the order book comes back, the settlement check is not
      reached in that tick, even for a market that has closed with a final outcome: the position
      is either left alone or stopped out. */
  lemma StopCheckPreemptsSettlement(p: Position, m: Market, book: Option<Book>, stopDrop: real, now: string)
    requires PositionOk(p) && !p.resolved
    requires StopPathTaken(p, m, book, stopDrop)
    ensures var st := Evaluate(p, Got(m), book, stopDrop, now);
            st.Keep? || (st.Update? && st.row.resolution == StopLoss)
  {
  }

  /** The tick ends at this position exactly when the market came back undefined, or when the
      settlement check is reached on a closed market whose outcome prices do not parse. */
  lemma AbortsExactly(p: Position, market: Fetch<Market>, book: Option<Book>, stopDrop: real, now: string)
    requires PositionOk(p) && !p.resolved
    ensures Evaluate(p, market, book, stopDrop, now).Abort? <==>
              || market.Missing?
              || (&& market.Got?
                  && !StopPathTaken(p, market.value, book, stopDrop)
                  && market.value.closed
                  && !market.value.outcomePrices.Parsed?)
  {
  }

  // ---------------------------------------------------------------- the sweep of one tick

  /** The state a sweep leaves: the positions, the total credited, the rows logged, and whether
      an exception ended it early. */
  datatype Sweep = Sweep(positions: seq<Position>, credit: real, rows: seq<Row>, aborted: bool)

  /** One tick's handling of the next position after the positions already walked: a resolved
      position is skipped, and after an exception nothing further is looked at. */
  function Advance(prev: Sweep, p: Position, market: Fetch<Market>, book: Option<Book>,
                   stopDrop: real, now: string): (r: Sweep)
    requires PositionOk(p)
    ensures |r.positions| == |prev.positions| + 1
  {
    if prev.aborted || p.resolved then Sweep(prev.positions + [p], prev.credit, prev.rows, prev.aborted)
    else
      match Evaluate(p, market, book, stopDrop, now)
      case Keep => Sweep(prev.positions + [p], prev.credit, prev.rows, false)
      case Abort => Sweep(prev.positions + [p], prev.credit, prev.rows, true)
      case Update(q, credit, row) => Sweep(prev.positions + [q], prev.credit + credit, prev.rows + [row], false)
  }

  ghost predicate AllOk(ps: seq<Position>) {
    forall k :: 0 <= k < |ps| ==> PositionOk(ps[k])
  }

  /** One tick's walk over the positions in order, with the market and order-book answers for
      each position. */
  function SweepOf(ps: seq<Position>, markets: seq<Fetch<Market>>, books: seq<Option<Book>>,
                   stopDrop: real, now: string): (r: Sweep)
    requires |markets| == |ps| && |books| == |ps| && AllOk(ps)
    ensures |r.positions| == |ps|
  {
    if |ps| == 0 then Sweep([], 0.0, [], false)
    else
      var n := |ps| - 1;
      assert PositionOk(ps[n]);
      Advance(SweepOf(ps[..n], markets[..n], books[..n], stopDrop, now), ps[n], markets[n], books[n], stopDrop, now)
  }

  /** Walking one more position extends the walk of the prefix by one step. */
  lemma SweepPrefix(ps: seq<Position>, markets: seq<Fetch<Market>>, books: seq<Option<Book>>,
                    stopDrop: real, now: string, i: nat)
    requires |markets| == |ps| && |books| == |ps| && AllOk(ps) && i < |ps|
    ensures SweepOf(ps[..i + 1], markets[..i + 1], books[..i + 1], stopDrop, now)
            == Advance(SweepOf(ps[..i], markets[..i], books[..i], stopDrop, now), ps[i], markets[i], books[i], stopDrop, now)
  {
    assert ps[..i + 1][..i] == ps[..i];
    assert markets[..i + 1][..i] == markets[..i];
    assert books[..i + 1][..i] == books[..i];
  }

  /** A step keeps every position well formed and leaves a resolved position as it was. */
  lemma AdvanceKeepsOk(prev: Sweep, p: Position, market: Fetch<Market>, book: Option<Book>, stopDrop: real, now: string)
    requires PositionOk(p) && AllOk(prev.positions)
    ensures var r := Advance(prev, p, market, book, stopDrop, now);
            && AllOk(r.positions)
            && r.positions[..|prev.positions|] == prev.positions
            && (p.resolved ==> r.positions[|prev.positions|] == p)
  {
    var r := Advance(prev, p, market, book, stopDrop, now);
    if !prev.aborted && !p.resolved {
      EvaluateKeepsOk(p, market, book, stopDrop, now);
    }
    assert r.positions[..|prev.positions|] == prev.positions;
  }

  /** A step credits exactly the payout it logs and balances the books: the credit plus the
      change in open cost is the P&L before fees of the row it logs. */
  lemma AdvanceBalances(prev: Sweep, p: Position, market: Fetch<Market>, book: Option<Book>, stopDrop: real, now: string)
    requires PositionOk(p)
    ensures var r := Advance(prev, p, market, book, stopDrop, now);
            && r.credit - prev.credit == Sums.Sum(r.rows, RowPayout) - Sums.Sum(prev.rows, RowPayout)
            && (r.credit - prev.credit) + Sums.Sum(r.positions, OpenCost) - Sums.Sum(prev.positions, OpenCost) - OpenCost(p)
               == Sums.Sum(r.rows, RowPnl) - Sums.Sum(prev.rows, RowPnl)
            && |r.rows| <= |prev.rows| + 1
  {
    var r := Advance(prev, p, market, book, stopDrop, now);
    var last := r.positions[|prev.positions|];
    assert r.positions == prev.positions + [last];
    assert r.positions[..|r.positions| - 1] == prev.positions;
    assert Sums.Sum(r.positions, OpenCost) == Sums.Sum(prev.positions, OpenCost) + OpenCost(last);
    if !prev.aborted && !p.resolved {
      EvaluateKeepsOk(p, market, book, stopDrop, now);
      match Evaluate(p, market, book, stopDrop, now)
      case Keep =>
      case Abort =>
      case Update(q, credit, row) =>
        assert (prev.rows + [row])[..|prev.rows|] == prev.rows;
    }
  }

  /** A sweep keeps every position well formed and leaves resolved positions as they were. */
  lemma {:induction false} SweepKeepsOk(ps: seq<Position>, markets: seq<Fetch<Market>>, books: seq<Option<Book>>,
                                       stopDrop: real, now: string)
    requires |markets| == |ps| && |books| == |ps| && AllOk(ps)
    ensures var s := SweepOf(ps, markets, books, stopDrop, now);
            && AllOk(s.positions)
            && (forall k :: 0 <= k < |ps| && ps[k].resolved ==> s.positions[k] == ps[k])
  {
    if |ps| > 0 {
      var n := |ps| - 1;
      var prev := SweepOf(ps[..n], markets[..n], books[..n], stopDrop, now);
      SweepKeepsOk(ps[..n], markets[..n], books[..n], stopDrop, now);
      AdvanceKeepsOk(prev, ps[n], markets[n], books[n], stopDrop, now);
      var s := SweepOf(ps, markets, books, stopDrop, now);
      forall k | 0 <= k < |ps| && ps[k].resolved
        ensures s.positions[k] == ps[k]
      {
        if k < n {
          assert s.positions[..n][k] == s.positions[k];
          assert ps[..n][k] == ps[k];
        }
      }
    }
  }

  /** A sweep credits exactly the payouts of the rows it logs, and logs no more rows than it
      walks positions. */
  lemma {:induction false} SweepCredits(ps: seq<Position>, markets: seq<Fetch<Market>>, books: seq<Option<Book>>,
                                       stopDrop: real, now: string)
    requires |markets| == |ps| && |books| == |ps| && AllOk(ps)
    ensures var s := SweepOf(ps, markets, books, stopDrop, now);
            s.credit == Sums.Sum(s.rows, RowPayout) && |s.rows| <= |ps|
  {
    if |ps| > 0 {
      var n := |ps| - 1;
      var prev := SweepOf(ps[..n], markets[..n], books[..n], stopDrop, now);
      SweepCredits(ps[..n], markets[..n], books[..n], stopDrop, now);
      AdvanceBalances(prev, ps[n], markets[n], books[n], stopDrop, now);
    }
  }

  /** A position the watcher still evaluates. */
  predicate IsOpen(p: Position) {
    !p.resolved
  }

  /** A step logs a row exactly when it changes the position it walks (a stop exit sells a
      positive size, a settlement resolves it), keeps the positions before it, and never
      changes a resolved position. */
  lemma AdvanceRows(prev: Sweep, p: Position, market: Fetch<Market>, book: Option<Book>, stopDrop: real, now: string)
    requires PositionOk(p)
    ensures var r := Advance(prev, p, market, book, stopDrop, now);
            && r.positions[..|prev.positions|] == prev.positions
            && |r.rows| == |prev.rows| + (if r.positions[|prev.positions|] == p then 0 else 1)
            && (p.resolved ==> r.positions[|prev.positions|] == p)
  {
    var r := Advance(prev, p, market, book, stopDrop, now);
    assert r.positions[..|prev.positions|] == prev.positions;
  }

  /** A sweep logs one row for every position it changes and no other, so never a row for a
      position resolved before the tick, and never more rows than there are open positions. */
  lemma {:induction false} SweepRows(ps: seq<Position>, markets: seq<Fetch<Market>>, books: seq<Option<Book>>,
                                    stopDrop: real, now: string)
    requires |markets| == |ps| && |books| == |ps| && AllOk(ps)
    ensures var s := SweepOf(ps, markets, books, stopDrop, now);
            && |s.rows| == Seqs.Changed(ps, s.positions)
            && Seqs.Changed(ps, s.positions) <= Seqs.Count(ps, IsOpen)
  {
    if |ps| > 0 {
      var n := |ps| - 1;
      var prev := SweepOf(ps[..n], markets[..n], books[..n], stopDrop, now);
      SweepRows(ps[..n], markets[..n], books[..n], stopDrop, now);
      AdvanceRows(prev, ps[n], markets[n], books[n], stopDrop, now);
      var s := SweepOf(ps, markets, books, stopDrop, now);
      assert s.positions[..n] == prev.positions;
    }
  }

  /** A sweep keeps the books balanced: the credit plus the change in open cost is the P&L
      before fees of the rows it logs. */
  lemma {:induction false} SweepBalances(ps: seq<Position>, markets: seq<Fetch<Market>>, books: seq<Option<Book>>,
                                        stopDrop: real, now: string)
    requires |markets| == |ps| && |books| == |ps| && AllOk(ps)
    ensures var s := SweepOf(ps, markets, books, stopDrop, now);
            s.credit + Sums.Sum(s.positions, OpenCost) - Sums.Sum(ps, OpenCost) == Sums.Sum(s.rows, RowPnl)
  {
    if |ps| > 0 {
      var n := |ps| - 1;
      var prev := SweepOf(ps[..n], markets[..n], books[..n], stopDrop, now);
      SweepBalances(ps[..n], markets[..n], books[..n], stopDrop, now);
      AdvanceBalances(prev, ps[n], markets[n], books[n], stopDrop, now);
      assert Sums.Sum(ps, OpenCost) == Sums.Sum(ps[..n], OpenCost) + OpenCost(ps[n]);
    }
  }

  /** A sweep keeps the wallet's ledger invariant: positions stay well formed, and a balance that
      accounted for the open cost and the logged P&L before still does after the credit is
      added and the rows are appended. */
  lemma SweepKeepsLedger(ps: seq<Position>, markets: seq<Fetch<Market>>, books: seq<Option<Book>>,
                         stopDrop: real, now: string, balance: real, rows: seq<Row>, start: real)
    requires |markets| == |ps| && |books| == |ps| && AllOk(ps)
    requires balance + Sums.Sum(ps, OpenCost) == start + Sums.Sum(rows, RowPnl)
    ensures var s := SweepOf(ps, markets, books, stopDrop, now);
            && AllOk(s.positions)
            && balance + s.credit + Sums.Sum(s.positions, OpenCost) == start + Sums.Sum(rows + s.rows, RowPnl)
  {
    var s := SweepOf(ps, markets, books, stopDrop, now);
    SweepKeepsOk(ps, markets, books, stopDrop, now);
    SweepBalances(ps, markets, books, stopDrop, now);
    Sums.SumAppend(rows, s.rows, RowPnl);
  }

  /** After an exception, the rest of the positions are passed over untouched. */
  lemma {:induction false} SweepAbortedRest(ps: seq<Position>, markets: seq<Fetch<Market>>, books: seq<Option<Book>>,
                                           stopDrop: real, now: string, i: nat)
    requires |markets| == |ps| && |books| == |ps| && AllOk(ps) && i <= |ps|
    requires SweepOf(ps[..i], markets[..i], books[..i], stopDrop, now).aborted
    ensures var pre := SweepOf(ps[..i], markets[..i], books[..i], stopDrop, now);
            SweepOf(ps, markets, books, stopDrop, now) == Sweep(pre.positions + ps[i..], pre.credit, pre.rows, true)
    decreases |ps| - i
  {
    if i < |ps| {
      var pre := SweepOf(ps[..i], markets[..i], books[..i], stopDrop, now);
      SweepPrefix(ps, markets, books, stopDrop, now, i);
      SweepAbortedRest(ps, markets, books, stopDrop, now, i + 1);
      assert ps[i..] == [ps[i]] + ps[i + 1..];
    } else {
      assert ps[..i] == ps && markets[..i] == markets && books[..i] == books;
    }
  }

  /** The input one tick receives: per position, the market answer and the order-book answer
      (used only if the stop-loss branch asks for it), and the clock reading. */
  datatype TickInput = TickInput(markets: seq<Fetch<Market>>, books: seq<Option<Book>>, now: string)

  /** The wallet's state between ticks: the balance, the ledger, the trade log, and whether
      polling has stopped. */
  datatype State = State(balance: real, positions: seq<Position>, rows: seq<Row>, done: bool)

  /** What polling leaves: the final state, the number of ticks run, and whether the last one
      threw. */
  datatype Polled = Polled(state: State, ran: nat, crashed: bool)

  /** Every tick answers for as many positions as the ledger holds. */
  predicate Fits(ticks: seq<TickInput>, n: nat) {
    forall k :: 0 <= k < |ticks| ==> |ticks[k].markets| == n && |ticks[k].books| == n
  }

  /** One tick from a state: the sweep's positions, the credited balance, its rows appended, and
      polling stopped when the tick did not throw and no position is left open. */
  function TickOf(st: State, t: TickInput, stopDrop: real): (next: State)
    requires |t.markets| == |st.positions| && |t.books| == |st.positions| && AllOk(st.positions)
    ensures |next.positions| == |st.positions| && AllOk(next.positions)
  {
    var s := SweepOf(st.positions, t.markets, t.books, stopDrop, t.now);
    SweepKeepsOk(st.positions, t.markets, t.books, stopDrop, t.now);
    State(st.balance + s.credit, s.positions, st.rows + s.rows, !s.aborted && AllResolved(s.positions))
  }

  /** Polling from tick `i` on: no tick runs once polling has stopped or the ticks run out, and
      the first tick that throws is the last. */
  function PollFrom(st: State, ticks: seq<TickInput>, stopDrop: real, i: nat): (r: Polled)
    requires i <= |ticks| && Fits(ticks, |st.positions|) && AllOk(st.positions)
    ensures i <= r.ran <= |ticks| && |r.state.positions| == |st.positions|
    ensures r.ran < |ticks| ==> r.state.done || r.crashed
    ensures st.done ==> r == Polled(st, i, false)
    decreases |ticks| - i
  {
    if i == |ticks| || st.done then Polled(st, i, false)
    else if SweepOf(st.positions, ticks[i].markets, ticks[i].books, stopDrop, ticks[i].now).aborted then
      Polled(TickOf(st, ticks[i], stopDrop), i + 1, true)
    else PollFrom(TickOf(st, ticks[i], stopDrop), ticks, stopDrop, i + 1)
  }

  /** Polling never changes a resolved position. */
  lemma {:induction false} PollKeepsResolved(st: State, ticks: seq<TickInput>, stopDrop: real, i: nat)
    requires i <= |ticks| && Fits(ticks, |st.positions|) && AllOk(st.positions)
    ensures var r := PollFrom(st, ticks, stopDrop, i);
            forall k :: 0 <= k < |st.positions| && st.positions[k].resolved ==>
              r.state.positions[k] == st.positions[k]
    decreases |ticks| - i
  {
    if i < |ticks| && !st.done {
      var t := ticks[i];
      var next := TickOf(st, t, stopDrop);
      SweepKeepsOk(st.positions, t.markets, t.books, stopDrop, t.now);
      if !SweepOf(st.positions, t.markets, t.books, stopDrop, t.now).aborted {
        PollKeepsResolved(next, ticks, stopDrop, i + 1);
        var r := PollFrom(st, ticks, stopDrop, i);
        forall k | 0 <= k < |st.positions| && st.positions[k].resolved
          ensures r.state.positions[k] == st.positions[k]
        {
          assert next.positions[k] == st.positions[k];
        }
      }
    }
  }

  /** A snapshot row: one closed position. */
  datatype SnapshotRow = SnapshotRow(
    slug: string,
    side: Side,
    entryPrice: real,
    sizeRemaining: real,
    costRemaining: real,
    resolved: bool,
    closing: Option<Closing>)

  function SnapshotRowOf(p: Position): SnapshotRow {
    SnapshotRow(p.slug, p.side, p.entryPrice, p.size, p.cost, p.resolved, p.closing)
  }

  /** `positions.filter(p => p.resolved).map(...)` */
  function Snapshot(ps: seq<Position>): seq<SnapshotRow> {
    if |ps| == 0 then []
    else Snapshot(ps[..|ps| - 1]) + (if ps[|ps| - 1].resolved then [SnapshotRowOf(ps[|ps| - 1])] else [])
  }

  /** The P&L after fees a position contributes to the realized total. */
  function RealizedOf(p: Position): real {
    if p.resolved && p.closing.Some? then p.closing.value.pnlWithFees else 0.0
  }

  /** The realized P&L of the snapshot: the after-fee P&L summed over resolved positions that
      carry one. */
  function RealizedPnl(ps: seq<Position>): real {
    Sums.Sum(ps, RealizedOf)
  }

  function SnapshotPnl(r: SnapshotRow): real {
    if r.closing.Some? then r.closing.value.pnlWithFees else 0.0
  }

  /** The snapshot lists the resolved positions and only those, in ledger order. */
  lemma {:induction false} SnapshotLists(ps: seq<Position>)
    ensures forall r :: r in Snapshot(ps) ==> r.resolved
    ensures forall r :: r in Snapshot(ps) <==> exists k :: 0 <= k < |ps| && ps[k].resolved && r == SnapshotRowOf(ps[k])
  {
    if |ps| > 0 {
      var n := |ps| - 1;
      SnapshotLists(ps[..n]);
      assert forall k :: 0 <= k < n ==> ps[..n][k] == ps[k];
    }
  }

  /** The snapshot keeps ledger order: the snapshot of a concatenation is the two snapshots one
      after the other. */
  lemma {:induction false} SnapshotAppend(a: seq<Position>, b: seq<Position>)
    ensures Snapshot(a + b) == Snapshot(a) + Snapshot(b)
  {
    if |b| == 0 {
      assert a + b == a;
    } else {
      var n := |b| - 1;
      assert (a + b)[..|a + b| - 1] == a + b[..n];
      SnapshotAppend(a, b[..n]);
    }
  }

  /** The realized P&L announced with a snapshot is the total of the P&L column of the rows it
      writes. */
  lemma {:induction false} RealizedPnlIsSnapshotTotal(ps: seq<Position>)
    ensures RealizedPnl(ps) == Sums.Sum(Snapshot(ps), SnapshotPnl)
  {
    if |ps| > 0 {
      var n := |ps| - 1;
      RealizedPnlIsSnapshotTotal(ps[..n]);
      var tail := if ps[n].resolved then [SnapshotRowOf(ps[n])] else [];
      Sums.SumAppend(Snapshot(ps[..n]), tail, SnapshotPnl);
      if ps[n].resolved {
        assert Sums.Sum(tail, SnapshotPnl) == SnapshotPnl(SnapshotRowOf(ps[n]));
      } else {
        assert tail == [];
      }
    }
  }

  /** The allocation loop: give each opportunity the allocation in input order, and collect the
      positions its fills open and what they cost. It computes exactly `Opened`. */
  method OpenAll(markets: seq<Opportunity>, allocation: real, boughtAt: string)
    returns (newOnes: seq<Position>, spent: real)
    ensures newOnes == Opened(markets, allocation, boughtAt)
    ensures spent == Sums.Sum(newOnes, CostOf)
  {
    newOnes, spent := [], 0.0;
    var i := 0;
    while i < |markets|
      invariant 0 <= i <= |markets|
      invariant newOnes == Opened(markets[..i], allocation, boughtAt)
      invariant spent == Sums.Sum(newOnes, CostOf)
    {
      var m := markets[i];
      OpenedStep(markets, i, allocation, boughtAt);
      match OpenFill(allocation, m.bestAsk, m.askSize) {
        case None =>
        case Some(f) =>
          var p := NewPosition(m, f, boughtAt);
          OpenedCostAppend(newOnes, p);
          spent := spent + p.cost;
          newOnes := newOnes + [p];
      }
      i := i + 1;
    }
    assert markets[..i] == markets;
  }

  /** Appending newly opened positions keeps every position well formed, and adds their cost
      to the open cost basis. */
  lemma {:induction false} JoinKeepsBooks(ps: seq<Position>, newOnes: seq<Position>, allocation: real,
                                         markets: seq<Opportunity>, boughtAt: string)
    requires AllOk(ps) && newOnes == Opened(markets, allocation, boughtAt)
    ensures AllOk(ps + newOnes)
    ensures Sums.Sum(ps + newOnes, OpenCost) == Sums.Sum(ps, OpenCost) + Sums.Sum(newOnes, CostOf)
    decreases |markets|
  {
    if |markets| == 0 {
      assert ps + newOnes == ps;
    } else {
      var n := |markets| - 1;
      var rest := Opened(markets[..n], allocation, boughtAt);
      JoinKeepsBooks(ps, rest, allocation, markets[..n], boughtAt);
      match OpenFill(allocation, markets[n].bestAsk, markets[n].askSize)
      case None =>
      case Some(f) =>
        var p := NewPosition(markets[n], f, boughtAt);
        NewPositionOk(markets[n], allocation, boughtAt);
        AppendKeepsBooks(ps + rest, p);
        OpenedCostAppend(rest, p);
        assert ps + newOnes == (ps + rest) + [p];
    }
  }

  /** Appending a position adds its cost to the total. */
  lemma OpenedCostAppend(ps: seq<Position>, p: Position)
    ensures Sums.Sum(ps + [p], CostOf) == Sums.Sum(ps, CostOf) + p.cost
  {
    assert (ps + [p])[..|ps|] == ps;
  }

  /** Appending a well-formed open position keeps every position well formed and adds its cost
      to the open cost basis. */
  lemma AppendKeepsBooks(ps: seq<Position>, p: Position)
    requires AllOk(ps) && PositionOk(p) && !p.resolved
    ensures AllOk(ps + [p])
    ensures Sums.Sum(ps + [p], OpenCost) == Sums.Sum(ps, OpenCost) + p.cost
  {
    assert (ps + [p])[..|ps|] == ps;
    forall k | 0 <= k < |ps + [p]|
      ensures PositionOk((ps + [p])[k])
    {
      if k < |ps| {
        assert (ps + [p])[k] == ps[k];
      }
    }
  }

  /** The loop of one tick: walk the positions in order, skip resolved ones, evaluate each open
      one, apply its update in place, and stop at the first exception. It computes exactly the
      sweep `SweepOf` describes. */
  method RunSweep(positions: seq<Position>, markets: seq<Fetch<Market>>, books: seq<Option<Book>>,
                  stopDrop: real, now: string)
    returns (ps: seq<Position>, credit: real, log: seq<Row>, aborted: bool)
    requires |markets| == |positions| && |books| == |positions| && AllOk(positions)
    ensures Sweep(ps, credit, log, aborted) == SweepOf(positions, markets, books, stopDrop, now)
  {
    ps, credit, log := positions, 0.0, [];
    ghost var sw := Sweep([], 0.0, [], false);
    var n := |ps|;
    var i := 0;
    aborted := false;
    while i < n && !aborted
      invariant 0 <= i <= n == |positions| == |ps|
      invariant sw == SweepOf(positions[..i], markets[..i], books[..i], stopDrop, now)
      invariant ps == sw.positions + positions[i..]
      invariant credit == sw.credit && log == sw.rows && aborted == sw.aborted
    {
      SweepPrefix(positions, markets, books, stopDrop, now, i);
      Seqs.SpliceAt(sw.positions, positions, i);
      var p := ps[i];
      if !p.resolved {
        match Evaluate(p, markets[i], books[i], stopDrop, now)
        case Keep =>
        case Abort =>
          aborted := true;
        case Update(q, c, row) =>
          credit := credit + c;
          ps := ps[i := q];
          log := log + [row];
      }
      sw := Advance(sw, positions[i], markets[i], books[i], stopDrop, now);
      i := i + 1;
    }
    if aborted {
      SweepAbortedRest(positions, markets, books, stopDrop, now, i);
    } else {
      assert positions[..i] == positions && markets[..i] == markets && books[..i] == books;
    }
  }

  // ---------------------------------------------------------------- the wallet

  class Wallet {
    const startingBalance: real
    var balance: real
    /** The ledger, in allocation order. */
    var positions: seq<Position>
    /** The trade log, in the order rows were appended. */
    var rows: seq<Row>
    /** The polling interval has been cleared. */
    var done: bool

    /** The wallet's invariant: every position is well formed, the balance accounts exactly for
        the open cost basis and the P&L logged so far, and polling stops only with nothing open. */
    ghost predicate Valid()
      reads this
    {
      && AllOk(positions)
      && balance + Sums.Sum(positions, OpenCost) == startingBalance + Sums.Sum(rows, RowPnl)
      && (done ==> AllResolved(positions))
    }

    /** The wallet holds the whole budget and no position. */
    constructor (budget: real)
      ensures Valid()
      ensures startingBalance == budget && balance == budget
      ensures positions == [] && rows == [] && !done
    {
      startingBalance := budget;
      balance := budget;
      positions := [];
      rows := [];
      done := false;
    }

    /** The allocation at start-up: with no opportunity the program exits and nothing is opened;
        otherwise each opportunity gets `TOTAL_BUDGET / N`, its fill (if any) is debited, and its
        position is appended in input order. No row is logged for an opening. */
    method Allocate(markets: seq<Opportunity>, boughtAt: string) returns (exit: bool)
      requires Valid() && !done
      modifies this
      ensures Valid() && !done && rows == old(rows)
      ensures exit <==> |markets| == 0
      ensures exit ==> positions == old(positions) && balance == old(balance)
      ensures !exit ==>
                (var newOnes := Opened(markets, startingBalance / |markets| as real, boughtAt);
                 && positions == old(positions) + newOnes
                 && balance == old(balance) - Sums.Sum(newOnes, CostOf))
      ensures old(positions) == [] && old(balance) == startingBalance >= 0.0 ==> balance >= 0.0
    {
      if |markets| == 0 {
        return true;
      }
      exit := false;
      var allocation := startingBalance / |markets| as real;
      var newOnes, spent := OpenAll(markets, allocation, boughtAt);
      JoinKeepsBooks(positions, newOnes, allocation, markets, boughtAt);
      positions := positions + newOnes;
      balance := balance - spent;
      if old(positions) == [] && old(balance) == startingBalance >= 0.0 {
        AllocationWithinBudget(markets, startingBalance, boughtAt);
      }
    }

    /** One polling tick: walk the positions in order, skipping resolved ones, evaluating each
        open one against its market answer; then, unless an exception ended the walk, stop
        polling when no position is left open. */
    method Tick(markets: seq<Fetch<Market>>, books: seq<Option<Book>>, stopDrop: real, now: string)
      returns (aborted: bool)
      requires Valid() && !done
      requires |markets| == |positions| && |books| == |positions|
      modifies this
      ensures Valid()
      ensures var s := SweepOf(old(positions), markets, books, stopDrop, now);
              && positions == s.positions
              && balance == old(balance) + s.credit
              && rows == old(rows) + s.rows
              && aborted == s.aborted
      ensures done <==> !aborted && AllResolved(positions)
    {
      var next, credit, logged;
      next, credit, logged, aborted := RunSweep(positions, markets, books, stopDrop, now);
      SweepKeepsLedger(positions, markets, books, stopDrop, now, balance, rows, startingBalance);
      positions, balance, rows := next, balance + credit, rows + logged;
      if !aborted && AllResolved(positions) {
        done := true;
      }
    }

    /** The wallet's state as a value. */
    function Current(): State
      reads this
    {
      State(balance, positions, rows, done)
    }

    /** The polling scheduler: run one tick per input until polling has stopped or a tick has
        thrown. An exception escaping a tick is an unhandled rejection of the interval callback,
        which ends the process under Node's default policy, so no tick runs after it. Once
        polling has stopped, no further tick runs, so nothing changes and no row is written.
        The new state is exactly what `PollFrom` gives. */
    method Poll(ticks: seq<TickInput>, stopDrop: real) returns (ran: nat, crashed: bool)
      requires Valid()
      requires Fits(ticks, |positions|)
      modifies this
      ensures Valid()
      ensures PollFrom(old(Current()), ticks, stopDrop, 0) == Polled(Current(), ran, crashed)
      ensures crashed ==> ran > 0 && !done
      ensures done ==> AllResolved(positions) && balance == startingBalance + Sums.Sum(rows, RowPnl)
    {
      ran, crashed := 0, false;
      while ran < |ticks| && !done && !crashed
        invariant Valid() && |positions| == old(|positions|) && ran <= |ticks|
        invariant crashed ==> ran > 0 && !done
        invariant !crashed ==> PollFrom(old(Current()), ticks, stopDrop, 0) == PollFrom(Current(), ticks, stopDrop, ran)
        invariant crashed ==> PollFrom(old(Current()), ticks, stopDrop, 0) == Polled(Current(), ran, true)
        decreases |ticks| - ran
      {
        var t := ticks[ran];
        ghost var before := Current();
        crashed := Tick(t.markets, t.books, stopDrop, t.now);
        assert Current() == TickOf(before, t, stopDrop);
        ran := ran + 1;
      }
      if done {
        NothingOpen(positions);
      }
    }
  }
}
