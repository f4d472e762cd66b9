/** The first paper trader (paperTester.js): it splits a fixed budget equally over the scanner's
    opportunities, opens one simulated fill per opportunity, then on every poll tick settles the
    positions whose market has closed with a final outcome, crediting the payout and appending
    one row to the trade file. There is no stop-loss and no partial exit: a position is settled
    once, with its whole size. Polling ends once every position is settled. */
module PaperTester {
  import opened Wrappers
  import opened JsNumber
  import opened Gamma
  import opened Fills
  import Sums
  import Seqs

  /** The fixed budget of the fake wallet. */
  const TOTAL_BUDGET: real := 50.0

  /** A position: identity, size and cost basis from the opening fill, and the settled flag. */
  datatype Position = Position(
    slug: string,
    marketId: string,
    side: Side,
    entryPrice: real,
    size: real,
    cost: real,
    boughtAt: string,
    hoursToCloseAtEntry: Num,
    resolved: bool)

  /** One row of the trade file (the date column is the date part of `resolvedAt`). */
  datatype Row = Row(
    slug: string,
    side: Side,
    entryPrice: real,
    size: real,
    cost: real,
    hoursToCloseAtEntry: Num,
    boughtAt: string,
    resolution: Side,
    resolvedAt: string,
    payout: real,
    pnlNoFees: real,
    pnlWithFees: real)

  /** What every position satisfies: the size of the opening fill is positive and the cost basis
      is size times entry price. */
  predicate PositionOk(p: Position) {
    p.size > 0.0 && p.cost == p.size * p.entryPrice
  }

  ghost predicate AllOk(ps: seq<Position>) {
    forall k :: 0 <= k < |ps| ==> PositionOk(ps[k])
  }

  /** The cost basis still at risk: that of an unsettled position. */
  function OpenCost(p: Position): real {
    if p.resolved then 0.0 else p.cost
  }

  function CostOf(p: Position): real {
    p.cost
  }

  function RowPnl(r: Row): real {
    r.pnlNoFees
  }

  function RowPayout(r: Row): real {
    r.payout
  }

  predicate AllResolved(ps: seq<Position>) {
    forall k :: 0 <= k < |ps| ==> ps[k].resolved
  }

  /** With every position settled nothing is at risk: the open cost basis is zero. */
  lemma {:induction false} NothingOpen(ps: seq<Position>)
    requires AllResolved(ps)
    ensures Sums.Sum(ps, OpenCost) == 0.0
  {
    if |ps| > 0 {
      NothingOpen(ps[..|ps| - 1]);
    }
  }

  // ---------------------------------------------------------------- allocation

  /** The position that an opening fill creates. */
  function NewPosition(m: Opportunity, f: Fill, boughtAt: string): Position {
    Position(m.slug, m.marketId, m.side, f.price, f.size, f.cost, boughtAt, m.hoursToClose, false)
  }

  /** The positions that the allocation loop opens from `ms`, in input order. */
  function Opened(ms: seq<Opportunity>, allocation: real, boughtAt: string): (ps: seq<Position>)
    ensures |ps| <= |ms|
  {
    if |ms| == 0 then []
    else
      var rest := Opened(ms[..|ms| - 1], allocation, boughtAt);
      var m := ms[|ms| - 1];
      match OpenFill(allocation, m.bestAsk, m.askSize)
      case None => rest
      case Some(f) => rest + [NewPosition(m, f, boughtAt)]
  }

  /** Allocating one more opportunity appends at most its own position. */
  lemma OpenedStep(ms: seq<Opportunity>, i: nat, allocation: real, boughtAt: string)
    requires i < |ms|
    ensures Opened(ms[..i + 1], allocation, boughtAt)
            == Opened(ms[..i], allocation, boughtAt)
               + (match OpenFill(allocation, ms[i].bestAsk, ms[i].askSize)
                  case None => []
                  case Some(f) => [NewPosition(ms[i], f, boughtAt)])
  {
    assert ms[..i + 1][..i] == ms[..i];
  }

  /** A position opened from a fill is unsettled and well formed, and with a non-negative
      allocation it costs a positive amount no larger than the allocation. */
  lemma NewPositionOk(m: Opportunity, allocation: real, boughtAt: string)
    requires OpenFill(allocation, m.bestAsk, m.askSize).Some?
    ensures var p := NewPosition(m, OpenFill(allocation, m.bestAsk, m.askSize).value, boughtAt);
            && PositionOk(p) && !p.resolved
            && (allocation >= 0.0 ==> 0.0 < p.cost <= allocation)
  {
    if allocation >= 0.0 {
      OpenFillWithinAllocation(allocation, m.bestAsk, m.askSize);
    }
  }

  /** Every opened position is unsettled, well formed, and costs a positive amount no larger
      than the allocation. */
  lemma {:induction false} OpenedPositions(ms: seq<Opportunity>, allocation: real, boughtAt: string)
    requires allocation >= 0.0
    ensures forall p <- Opened(ms, allocation, boughtAt) ::
              PositionOk(p) && !p.resolved && 0.0 < p.cost <= allocation
  {
    var ps := Opened(ms, allocation, boughtAt);
    if |ms| > 0 {
      var n := |ms| - 1;
      var m := ms[n];
      OpenedPositions(ms[..n], allocation, boughtAt);
      var rest := Opened(ms[..n], allocation, boughtAt);
      match OpenFill(allocation, m.bestAsk, m.askSize)
      case None =>
        assert ps == rest;
      case Some(f) =>
        NewPositionOk(m, allocation, boughtAt);
        var p := NewPosition(m, f, boughtAt);
        assert ps == rest + [p];
        forall q <- ps
          ensures PositionOk(q) && !q.resolved && 0.0 < q.cost <= allocation
        {
          if q != p {
            assert q in rest;
          }
        }
    }
  }

  /** At most `n` positions each costing at most `allocation` cost at most `n` allocations. */
  lemma CostsWithin(ps: seq<Position>, n: nat, allocation: real)
    requires |ps| <= n && allocation >= 0.0
    requires forall p <- ps :: p.cost <= allocation
    ensures Sums.Sum(ps, CostOf) <= Sums.Times(n, allocation)
  {
    forall k | 0 <= k < |ps|
      ensures CostOf(ps[k]) <= allocation
    {
      assert ps[k] in ps;
    }
    Sums.SumAtMost(ps, CostOf, allocation);
    Sums.TimesMonotone(|ps|, n, allocation);
  }

  /** The equal split never overspends: with `N > 0` opportunities and a non-negative budget,
      the fills at `budget / N` each cost at most the budget in total. */
  lemma AllocationWithinBudget(ms: seq<Opportunity>, budget: real, boughtAt: string)
    requires |ms| > 0 && budget >= 0.0
    ensures Sums.Sum(Opened(ms, budget / |ms| as real, boughtAt), CostOf) <= budget
  {
    var allocation := budget / |ms| as real;
    OpenedPositions(ms, allocation, boughtAt);
    CostsWithin(Opened(ms, allocation, boughtAt), |ms|, allocation);
    Sums.EqualShares(|ms|, budget);
  }

  /** With a positive allocation, every opportunity whose price and size are positive numbers
      opens a position. */
  lemma {:induction false} OpenedCount(ms: seq<Opportunity>, allocation: real, boughtAt: string)
    requires allocation > 0.0
    ensures (forall k :: 0 <= k < |ms| ==>
               ms[k].bestAsk.Val? && ms[k].bestAsk.v > 0.0 && ms[k].askSize.Val? && ms[k].askSize.v > 0.0)
            ==> |Opened(ms, allocation, boughtAt)| == |ms|
  {
    if |ms| > 0 {
      var n := |ms| - 1;
      OpenedCount(ms[..n], allocation, boughtAt);
      OpenFillOpens(allocation, ms[n].bestAsk, ms[n].askSize);
    }
  }

  /** The allocation loop: give each opportunity the allocation in input order, and collect the
      positions its fills open and what they cost. It computes exactly `Opened`. */
  method OpenAll(markets: seq<Opportunity>, allocation: real, boughtAt: string)
    returns (newOnes: seq<Position>, spent: real)
    ensures newOnes == Opened(markets, allocation, boughtAt)
    ensures spent == Sums.Sum(newOnes, CostOf)
  {
    newOnes, spent := [], 0.0;
    var i := 0;
    while i < |markets|
      invariant 0 <= i <= |markets|
      invariant newOnes == Opened(markets[..i], allocation, boughtAt)
      invariant spent == Sums.Sum(newOnes, CostOf)
    {
      var m := markets[i];
      OpenedStep(markets, i, allocation, boughtAt);
      match OpenFill(allocation, m.bestAsk, m.askSize) {
        case None =>
        case Some(f) =>
          var p := NewPosition(m, f, boughtAt);
          OpenedCostAppend(newOnes, p);
          spent := spent + p.cost;
          newOnes := newOnes + [p];
      }
      i := i + 1;
    }
    assert markets[..i] == markets;
  }

  /** Appending a position adds its cost to the total. */
  lemma OpenedCostAppend(ps: seq<Position>, p: Position)
    ensures Sums.Sum(ps + [p], CostOf) == Sums.Sum(ps, CostOf) + p.cost
  {
    assert (ps + [p])[..|ps|] == ps;
  }

  /** Appending a well-formed unsettled position keeps every position well formed and adds its
      cost to the open cost basis. */
  lemma AppendKeepsBooks(ps: seq<Position>, p: Position)
    requires AllOk(ps) && PositionOk(p) && !p.resolved
    ensures AllOk(ps + [p])
    ensures Sums.Sum(ps + [p], OpenCost) == Sums.Sum(ps, OpenCost) + p.cost
  {
    assert (ps + [p])[..|ps|] == ps;
    forall k | 0 <= k < |ps + [p]|
      ensures PositionOk((ps + [p])[k])
    {
      if k < |ps| {
        assert (ps + [p])[k] == ps[k];
      }
    }
  }

  /** Appending newly opened positions keeps every position well formed, and adds their cost
      to the open cost basis. */
  lemma {:induction false} JoinKeepsBooks(ps: seq<Position>, newOnes: seq<Position>, allocation: real,
                                         markets: seq<Opportunity>, boughtAt: string)
    requires AllOk(ps) && newOnes == Opened(markets, allocation, boughtAt)
    ensures AllOk(ps + newOnes)
    ensures Sums.Sum(ps + newOnes, OpenCost) == Sums.Sum(ps, OpenCost) + Sums.Sum(newOnes, CostOf)
    decreases |markets|
  {
    if |markets| == 0 {
      assert ps + newOnes == ps;
    } else {
      var n := |markets| - 1;
      var rest := Opened(markets[..n], allocation, boughtAt);
      JoinKeepsBooks(ps, rest, allocation, markets[..n], boughtAt);
      match OpenFill(allocation, markets[n].bestAsk, markets[n].askSize)
      case None =>
      case Some(f) =>
        var p := NewPosition(markets[n], f, boughtAt);
        NewPositionOk(markets[n], allocation, boughtAt);
        AppendKeepsBooks(ps + rest, p);
        assert (rest + [p])[..|rest|] == rest;
        assert ps + newOnes == (ps + rest) + [p];
    }
  }

  // ---------------------------------------------------------------- one position, one tick

  /** The outcome of checking one unsettled position in a tick: nothing happens (`continue`),
      an exception escapes and ends the tick, or the position is settled, the wallet credited,
      and one row written. */
  datatype Step = Keep | Abort | Update(next: Position, credit: real, row: Row)

  /** One unsettled position in one tick: a failed fetch skips it; an undefined market throws
      when its `closed` flag is read; an open market is skipped; a closed market whose outcome
      prices do not parse throws; a closed market without a final outcome tag is skipped;
      otherwise the position settles with its whole size. */
  function Evaluate(p: Position, market: Fetch<Market>, now: string): Step
  {
    match market
    case Failed => Keep
    case Missing => Abort
    case Got(m) =>
      if !m.closed then Keep
      else
        match m.outcomePrices
        case Parsed(prices) =>
          (match ResolutionOf(prices)
           case None => Keep
           case Some(res) =>
             var s := Settle(p.side, res, p.size, p.cost);
             Update(p.(resolved := true), s.payout,
                    Row(p.slug, p.side, p.entryPrice, p.size, p.cost, p.hoursToCloseAtEntry,
                        p.boughtAt, res, now, s.payout, s.pnlNoFees, s.pnlWithFees)))
        case _ => Abort
  }

  /** What an update satisfies: the position is settled and otherwise unchanged, the credit is
      the row's payout, and the books balance: the credit less the cost basis released is the
      row's P&L before fees. */
  predicate StepOk(p: Position, st: Step) {
    st.Update? ==>
      && st.next == p.(resolved := true)
      && st.credit + OpenCost(st.next) - OpenCost(p) == st.row.pnlNoFees
      && st.credit == st.row.payout
  }

  /** One check keeps the books balanced. */
  lemma EvaluateKeepsOk(p: Position, market: Fetch<Market>, now: string)
    requires PositionOk(p) && !p.resolved
    ensures StepOk(p, Evaluate(p, market, now))
  {
  }

  /** A position settles exactly when its market was fetched, is closed, and carries a final
      outcome tag; it is then paid its whole size on the winning side and nothing on the losing
      side, and the fee is one percent of the payout. */
  lemma SettlesExactly(p: Position, market: Fetch<Market>, now: string, res: Side)
    requires PositionOk(p) && !p.resolved
    ensures var st := Evaluate(p, market, now);
            (st.Update? && st.row.resolution == res) <==>
              && market.Got? && market.value.closed
              && market.value.outcomePrices.Parsed?
              && ResolutionOf(market.value.outcomePrices.value) == Some(res)
    ensures var st := Evaluate(p, market, now);
            (st.Update? && st.row.resolution == res) ==>
              && st.credit == (if p.side == res then p.size else 0.0)
              && st.row.pnlNoFees == st.credit - p.cost
              && st.row.pnlWithFees == st.credit - st.credit * FEE_RATE - p.cost
              && st.row.size == p.size && st.row.cost == p.cost
  {
  }

  /** The tick ends at this position exactly when the market came back undefined, or is closed
      with outcome prices that do not parse. */
  lemma AbortsExactly(p: Position, market: Fetch<Market>, now: string)
    ensures Evaluate(p, market, now).Abort? <==>
              || market.Missing?
              || (market.Got? && market.value.closed && !market.value.outcomePrices.Parsed?)
  {
  }

  // ---------------------------------------------------------------- the sweep of one tick

  /** The state a sweep leaves: the positions, the total credited, the rows written, and whether
      an exception ended it early. */
  datatype Sweep = Sweep(positions: seq<Position>, credit: real, rows: seq<Row>, aborted: bool)

  /** One tick's handling of the next position: a settled position is skipped, and after an
      exception nothing further is looked at. */
  function Advance(prev: Sweep, p: Position, market: Fetch<Market>, now: string): (r: Sweep)
    ensures |r.positions| == |prev.positions| + 1
  {
    if prev.aborted || p.resolved then Sweep(prev.positions + [p], prev.credit, prev.rows, prev.aborted)
    else
      match Evaluate(p, market, now)
      case Keep => Sweep(prev.positions + [p], prev.credit, prev.rows, false)
      case Abort => Sweep(prev.positions + [p], prev.credit, prev.rows, true)
      case Update(q, credit, row) => Sweep(prev.positions + [q], prev.credit + credit, prev.rows + [row], false)
  }

  /** One tick's walk over the positions in order, with the market answer for each position. */
  function SweepOf(ps: seq<Position>, markets: seq<Fetch<Market>>, now: string): (r: Sweep)
    requires |markets| == |ps|
    ensures |r.positions| == |ps|
  {
    if |ps| == 0 then Sweep([], 0.0, [], false)
    else
      var n := |ps| - 1;
      Advance(SweepOf(ps[..n], markets[..n], now), ps[n], markets[n], now)
  }

  /** Walking one more position extends the walk of the prefix by one step. */
  lemma SweepPrefix(ps: seq<Position>, markets: seq<Fetch<Market>>, now: string, i: nat)
    requires |markets| == |ps| && i < |ps|
    ensures SweepOf(ps[..i + 1], markets[..i + 1], now)
            == Advance(SweepOf(ps[..i], markets[..i], now), ps[i], markets[i], now)
  {
    assert ps[..i + 1][..i] == ps[..i];
    assert markets[..i + 1][..i] == markets[..i];
  }

  /** A step keeps every position well formed, changes no position except to settle it, and
      logs at most one row. */
  lemma AdvanceKeepsOk(prev: Sweep, p: Position, market: Fetch<Market>, now: string)
    requires PositionOk(p) && AllOk(prev.positions)
    ensures var r := Advance(prev, p, market, now);
            && AllOk(r.positions)
            && r.positions[..|prev.positions|] == prev.positions
            && r.positions[|prev.positions|] in {p, p.(resolved := true)}
  {
    var r := Advance(prev, p, market, now);
    assert r.positions[..|prev.positions|] == prev.positions;
  }

  /** A step credits exactly the payout it writes and balances the books. */
  lemma AdvanceBalances(prev: Sweep, p: Position, market: Fetch<Market>, now: string)
    requires PositionOk(p)
    ensures var r := Advance(prev, p, market, now);
            && r.credit - prev.credit == Sums.Sum(r.rows, RowPayout) - Sums.Sum(prev.rows, RowPayout)
            && (r.credit - prev.credit) + Sums.Sum(r.positions, OpenCost) - Sums.Sum(prev.positions, OpenCost) - OpenCost(p)
               == Sums.Sum(r.rows, RowPnl) - Sums.Sum(prev.rows, RowPnl)
            && |r.rows| <= |prev.rows| + 1
  {
    var r := Advance(prev, p, market, now);
    var last := r.positions[|prev.positions|];
    assert r.positions == prev.positions + [last];
    assert r.positions[..|r.positions| - 1] == prev.positions;
    if !prev.aborted && !p.resolved {
      EvaluateKeepsOk(p, market, now);
      match Evaluate(p, market, now)
      case Keep =>
      case Abort =>
      case Update(q, credit, row) =>
        assert (prev.rows + [row])[..|prev.rows|] == prev.rows;
    }
  }

  /** A sweep keeps every position well formed, leaves settled positions as they were, and
      changes an unsettled one at most by settling it. */
  lemma {:induction false} SweepKeepsOk(ps: seq<Position>, markets: seq<Fetch<Market>>, now: string)
    requires |markets| == |ps| && AllOk(ps)
    ensures var s := SweepOf(ps, markets, now);
            && AllOk(s.positions)
            && (forall k :: 0 <= k < |ps| ==> s.positions[k] in {ps[k], ps[k].(resolved := true)})
  {
    if |ps| > 0 {
      var n := |ps| - 1;
      var prev := SweepOf(ps[..n], markets[..n], now);
      SweepKeepsOk(ps[..n], markets[..n], now);
      AdvanceKeepsOk(prev, ps[n], markets[n], now);
      var s := SweepOf(ps, markets, now);
      forall k | 0 <= k < |ps|
        ensures s.positions[k] in {ps[k], ps[k].(resolved := true)}
      {
        if k < n {
          assert s.positions[..n][k] == s.positions[k];
          assert ps[..n][k] == ps[k];
        }
      }
    }
  }

  /** A sweep credits exactly the payouts of the rows it writes, and writes no more rows than
      it walks positions. */
  lemma {:induction false} SweepCredits(ps: seq<Position>, markets: seq<Fetch<Market>>, now: string)
    requires |markets| == |ps| && AllOk(ps)
    ensures var s := SweepOf(ps, markets, now);
            s.credit == Sums.Sum(s.rows, RowPayout) && |s.rows| <= |ps|
  {
    if |ps| > 0 {
      var n := |ps| - 1;
      SweepCredits(ps[..n], markets[..n], now);
      AdvanceBalances(SweepOf(ps[..n], markets[..n], now), ps[n], markets[n], now);
    }
  }

  /** A position the watcher still checks. */
  predicate IsOpen(p: Position) {
    !p.resolved
  }

  /** A step writes a row exactly when it changes the position it walks, keeps the positions
      before it, and never changes a settled position. */
  lemma AdvanceRows(prev: Sweep, p: Position, market: Fetch<Market>, now: string)
    ensures var r := Advance(prev, p, market, now);
            && r.positions[..|prev.positions|] == prev.positions
            && |r.rows| == |prev.rows| + (if r.positions[|prev.positions|] == p then 0 else 1)
            && (p.resolved ==> r.positions[|prev.positions|] == p)
  {
    var r := Advance(prev, p, market, now);
    assert r.positions[..|prev.positions|] == prev.positions;
  }

  /** A sweep writes one row for every position it settles and no other, so never a row for a
      position settled before the tick, and never more rows than there are unsettled
      positions. */
  lemma {:induction false} SweepRows(ps: seq<Position>, markets: seq<Fetch<Market>>, now: string)
    requires |markets| == |ps|
    ensures var s := SweepOf(ps, markets, now);
            && |s.rows| == Seqs.Changed(ps, s.positions)
            && Seqs.Changed(ps, s.positions) <= Seqs.Count(ps, IsOpen)
  {
    if |ps| > 0 {
      var n := |ps| - 1;
      var prev := SweepOf(ps[..n], markets[..n], now);
      SweepRows(ps[..n], markets[..n], now);
      AdvanceRows(prev, ps[n], markets[n], now);
      var s := SweepOf(ps, markets, now);
      assert s.positions[..n] == prev.positions;
    }
  }

  /** A sweep keeps the books balanced: the credit less the cost basis it releases is the P&L
      before fees of the rows it writes. */
  lemma {:induction false} SweepBalances(ps: seq<Position>, markets: seq<Fetch<Market>>, now: string)
    requires |markets| == |ps| && AllOk(ps)
    ensures var s := SweepOf(ps, markets, now);
            s.credit + Sums.Sum(s.positions, OpenCost) - Sums.Sum(ps, OpenCost) == Sums.Sum(s.rows, RowPnl)
  {
    if |ps| > 0 {
      var n := |ps| - 1;
      SweepBalances(ps[..n], markets[..n], now);
      AdvanceBalances(SweepOf(ps[..n], markets[..n], now), ps[n], markets[n], now);
      assert Sums.Sum(ps, OpenCost) == Sums.Sum(ps[..n], OpenCost) + OpenCost(ps[n]);
    }
  }

  /** A sweep keeps the wallet's ledger invariant. */
  lemma SweepKeepsLedger(ps: seq<Position>, markets: seq<Fetch<Market>>, now: string,
                         balance: real, rows: seq<Row>, start: real)
    requires |markets| == |ps| && AllOk(ps)
    requires balance + Sums.Sum(ps, OpenCost) == start + Sums.Sum(rows, RowPnl)
    ensures var s := SweepOf(ps, markets, now);
            && AllOk(s.positions)
            && balance + s.credit + Sums.Sum(s.positions, OpenCost) == start + Sums.Sum(rows + s.rows, RowPnl)
  {
    var s := SweepOf(ps, markets, now);
    SweepKeepsOk(ps, markets, now);
    SweepBalances(ps, markets, now);
    Sums.SumAppend(rows, s.rows, RowPnl);
  }

  /** After an exception, the rest of the positions are passed over untouched. */
  lemma {:induction false} SweepAbortedRest(ps: seq<Position>, markets: seq<Fetch<Market>>, now: string, i: nat)
    requires |markets| == |ps| && i <= |ps|
    requires SweepOf(ps[..i], markets[..i], now).aborted
    ensures var pre := SweepOf(ps[..i], markets[..i], now);
            SweepOf(ps, markets, now) == Sweep(pre.positions + ps[i..], pre.credit, pre.rows, true)
    decreases |ps| - i
  {
    if i < |ps| {
      SweepPrefix(ps, markets, now, i);
      SweepAbortedRest(ps, markets, now, i + 1);
      assert ps[i..] == [ps[i]] + ps[i + 1..];
    } else {
      assert ps[..i] == ps && markets[..i] == markets;
    }
  }

  /** The loop of one tick: walk the positions in order, skip settled ones, check each unsettled
      one, settle it in place, and stop at the first exception. It computes exactly the sweep
      `SweepOf` describes. */
  method RunSweep(positions: seq<Position>, markets: seq<Fetch<Market>>, now: string)
    returns (ps: seq<Position>, credit: real, log: seq<Row>, aborted: bool)
    requires |markets| == |positions|
    ensures Sweep(ps, credit, log, aborted) == SweepOf(positions, markets, now)
  {
    ps, credit, log := positions, 0.0, [];
    ghost var sw := Sweep([], 0.0, [], false);
    var n := |ps|;
    var i := 0;
    aborted := false;
    while i < n && !aborted
      invariant 0 <= i <= n == |positions| == |ps|
      invariant sw == SweepOf(positions[..i], markets[..i], now)
      invariant ps == sw.positions + positions[i..]
      invariant credit == sw.credit && log == sw.rows && aborted == sw.aborted
    {
      SweepPrefix(positions, markets, now, i);
      Seqs.SpliceAt(sw.positions, positions, i);
      var p := ps[i];
      if !p.resolved {
        match Evaluate(p, markets[i], now)
        case Keep =>
        case Abort =>
          aborted := true;
        case Update(q, c, row) =>
          credit := credit + c;
          ps := ps[i := q];
          log := log + [row];
      }
      sw := Advance(sw, positions[i], markets[i], now);
      i := i + 1;
    }
    if aborted {
      SweepAbortedRest(positions, markets, now, i);
    } else {
      assert positions[..i] == positions && markets[..i] == markets;
    }
  }

  /** The input one tick receives: per position, the market answer, and the clock reading. */
  datatype TickInput = TickInput(markets: seq<Fetch<Market>>, now: string)

  /** The wallet's state between ticks: the balance, the ledger, the trade file, and whether
      polling has stopped. */
  datatype State = State(balance: real, positions: seq<Position>, rows: seq<Row>, done: bool)

  /** What polling leaves: the final state, the number of ticks run, and whether the last one
      threw. */
  datatype Polled = Polled(state: State, ran: nat, crashed: bool)

  /** Every tick answers for as many positions as the ledger holds. */
  predicate Fits(ticks: seq<TickInput>, n: nat) {
    forall k :: 0 <= k < |ticks| ==> |ticks[k].markets| == n
  }

  /** One tick from a state: the sweep's positions, the credited balance, its rows appended, and
      polling stopped when the tick did not throw and every position is settled. */
  function TickOf(st: State, t: TickInput): (next: State)
    requires |t.markets| == |st.positions|
    ensures |next.positions| == |st.positions|
  {
    var s := SweepOf(st.positions, t.markets, t.now);
    State(st.balance + s.credit, s.positions, st.rows + s.rows, !s.aborted && AllResolved(s.positions))
  }

  /** Polling from tick `i` on: no tick runs once polling has stopped or the ticks run out, and
      the first tick that throws is the last. */
  function PollFrom(st: State, ticks: seq<TickInput>, i: nat): (r: Polled)
    requires i <= |ticks| && Fits(ticks, |st.positions|)
    ensures i <= r.ran <= |ticks| && |r.state.positions| == |st.positions|
    ensures r.ran < |ticks| ==> r.state.done || r.crashed
    ensures st.done ==> r == Polled(st, i, false)
    decreases |ticks| - i
  {
    if i == |ticks| || st.done then Polled(st, i, false)
    else if SweepOf(st.positions, ticks[i].markets, ticks[i].now).aborted then
      Polled(TickOf(st, ticks[i]), i + 1, true)
    else PollFrom(TickOf(st, ticks[i]), ticks, i + 1)
  }

  /** Polling never changes a settled position, and changes an unsettled one at most by
      settling it. */
  lemma {:induction false} PollKeepsSettled(st: State, ticks: seq<TickInput>, i: nat)
    requires i <= |ticks| && Fits(ticks, |st.positions|) && AllOk(st.positions)
    ensures var r := PollFrom(st, ticks, i);
            && AllOk(r.state.positions)
            && forall k :: 0 <= k < |st.positions| ==>
                 r.state.positions[k] in {st.positions[k], st.positions[k].(resolved := true)}
    decreases |ticks| - i
  {
    if i < |ticks| && !st.done {
      var next := TickOf(st, ticks[i]);
      SweepKeepsOk(st.positions, ticks[i].markets, ticks[i].now);
      if !SweepOf(st.positions, ticks[i].markets, ticks[i].now).aborted {
        PollKeepsSettled(next, ticks, i + 1);
        var r := PollFrom(st, ticks, i);
        forall k | 0 <= k < |st.positions|
          ensures r.state.positions[k] in {st.positions[k], st.positions[k].(resolved := true)}
        {
          assert next.positions[k] in {st.positions[k], st.positions[k].(resolved := true)};
        }
      }
    }
  }

  // ---------------------------------------------------------------- the wallet

  class Wallet {
    const startingBalance: real
    var balance: real
    /** The ledger, in allocation order. */
    var positions: seq<Position>
    /** The trade file's rows, in the order they were appended. */
    var rows: seq<Row>
    /** The polling interval has been cleared. */
    var done: bool

    /** The wallet's invariant: the wallet started with the fixed budget, every position is well formed, the balance accounts exactly for
        the open cost basis and the P&L written so far, and polling stops only with every
        position settled. */
    ghost predicate Valid()
      reads this
    {
      && startingBalance == TOTAL_BUDGET
      && AllOk(positions)
      && balance + Sums.Sum(positions, OpenCost) == startingBalance + Sums.Sum(rows, RowPnl)
      && (done ==> AllResolved(positions))
    }

    /** The wallet holds the fixed budget and no position. */
    constructor ()
      ensures Valid()
      ensures startingBalance == TOTAL_BUDGET && balance == TOTAL_BUDGET
      ensures positions == [] && rows == [] && !done
    {
      startingBalance := TOTAL_BUDGET;
      balance := TOTAL_BUDGET;
      positions := [];
      rows := [];
      done := false;
    }

    /** The allocation at start-up: with no opportunity the program exits and nothing is opened;
        otherwise each opportunity gets `TOTAL_BUDGET / N`, its fill (if any) is debited, and its
        position is appended in input order. */
    method Allocate(markets: seq<Opportunity>, boughtAt: string) returns (exit: bool)
      requires Valid() && !done
      modifies this
      ensures Valid() && !done && rows == old(rows)
      ensures exit <==> |markets| == 0
      ensures exit ==> positions == old(positions) && balance == old(balance)
      ensures !exit ==>
                (var newOnes := Opened(markets, TOTAL_BUDGET / |markets| as real, boughtAt);
                 && positions == old(positions) + newOnes
                 && balance == old(balance) - Sums.Sum(newOnes, CostOf))
      ensures old(balance) == startingBalance ==> balance >= 0.0
    {
      if |markets| == 0 {
        return true;
      }
      exit := false;
      var allocation := TOTAL_BUDGET / |markets| as real;
      var newOnes, spent := OpenAll(markets, allocation, boughtAt);
      JoinKeepsBooks(positions, newOnes, allocation, markets, boughtAt);
      positions := positions + newOnes;
      balance := balance - spent;
      AllocationWithinBudget(markets, TOTAL_BUDGET, boughtAt);
    }

    /** One polling tick: walk the positions in order, settling those whose market has closed
        with a final outcome; then, unless an exception ended the walk, stop polling when every
        position is settled. */
    method Tick(markets: seq<Fetch<Market>>, now: string) returns (aborted: bool)
      requires Valid() && !done
      requires |markets| == |positions|
      modifies this
      ensures Valid()
      ensures var s := SweepOf(old(positions), markets, now);
              && positions == s.positions
              && balance == old(balance) + s.credit
              && rows == old(rows) + s.rows
              && aborted == s.aborted
      ensures done <==> !aborted && AllResolved(positions)
    {
      var next, credit, logged;
      next, credit, logged, aborted := RunSweep(positions, markets, now);
      SweepKeepsLedger(positions, markets, now, balance, rows, startingBalance);
      positions, balance, rows := next, balance + credit, rows + logged;
      if !aborted && AllResolved(positions) {
        done := true;
      }
    }

    /** The wallet's state as a value. */
    function Current(): State
      reads this
    {
      State(balance, positions, rows, done)
    }

    /** The polling scheduler: run one tick per input until polling has stopped or a tick has
        thrown (an unhandled rejection of the interval callback, which ends the process under
        Node's default policy). The new state is exactly what `PollFrom` gives. Once every
        position is settled, the balance is the budget plus the P&L before fees written to the
        trade file. */
    method Poll(ticks: seq<TickInput>) returns (ran: nat, crashed: bool)
      requires Valid()
      requires Fits(ticks, |positions|)
      modifies this
      ensures Valid()
      ensures PollFrom(old(Current()), ticks, 0) == Polled(Current(), ran, crashed)
      ensures crashed ==> ran > 0 && !done
      ensures done ==> AllResolved(positions) && balance == startingBalance + Sums.Sum(rows, RowPnl)
    {
      ran, crashed := 0, false;
      while ran < |ticks| && !done && !crashed
        invariant Valid() && |positions| == old(|positions|) && ran <= |ticks|
        invariant crashed ==> ran > 0 && !done
        invariant !crashed ==> PollFrom(old(Current()), ticks, 0) == PollFrom(Current(), ticks, ran)
        invariant crashed ==> PollFrom(old(Current()), ticks, 0) == Polled(Current(), ran, true)
        decreases |ticks| - ran
      {
        var t := ticks[ran];
        ghost var before := Current();
        crashed := Tick(t.markets, t.now);
        assert Current() == TickOf(before, t);
        ran := ran + 1;
      }
      if done {
        NothingOpen(positions);
      }
    }
  }
}
