/** The fill and settlement rules shared by the paper traders: an opening fill sized against
    an allocation and the visible ask, and the unit-or-nothing settlement of a resolved market
    with its one-percent fee. */
module Fills {
  import opened Wrappers
  import opened JsNumber
  import opened Gamma

  /** The simulated taker fee, a fraction of every payout. */
  const FEE_RATE: real := 0.01

  /** A record of the scanner output that the traders read, fields taken through `Number`
      where the traders do so. */
  datatype Opportunity = Opportunity(
    slug: string,
    marketId: string,
    side: Side,
    tokenId: string,
    probability: Num,
    bestAsk: Num,
    askSize: Num,
    hoursToClose: Num)

  /** A simulated purchase: price per unit, units bought, and what they cost. */
  datatype Fill = Fill(price: real, size: real, cost: real)

  function Min(a: real, b: real): real {
    if a <= b then a else b
  }

  /** The opening fill for one opportunity: nothing when price or size is zero or NaN, or when
      `min(allocation / price, askSize)` is not positive. */
  function OpenFill(allocation: real, bestAsk: Num, askSize: Num): (r: Option<Fill>)
    ensures r.Some? ==> bestAsk.Val? && r.value.price == bestAsk.v && r.value.size > 0.0
  {
    if !Truthy(bestAsk) || !Truthy(askSize) then None
    else
      var fillSize := Min(allocation / bestAsk.v, askSize.v);
      if fillSize <= 0.0 then None
      else Some(Fill(bestAsk.v, fillSize, fillSize * bestAsk.v))
  }

  /** With a positive allocation, a fill opens exactly when price and size are positive numbers. */
  lemma OpenFillOpens(allocation: real, bestAsk: Num, askSize: Num)
    requires allocation > 0.0
    ensures OpenFill(allocation, bestAsk, askSize).Some? <==>
              bestAsk.Val? && bestAsk.v > 0.0 && askSize.Val? && askSize.v > 0.0
  {
    if bestAsk.Val? && bestAsk.v < 0.0 {
      assert allocation / bestAsk.v < 0.0;
    }
    if bestAsk.Val? && bestAsk.v > 0.0 {
      assert allocation / bestAsk.v > 0.0;
    }
  }

  /** A fill bought with a non-negative allocation costs a positive amount no larger than the
      allocation, buys no more than the ask offers, and costs exactly size times price; it uses
      the whole allocation when the ask is deep enough. */
  lemma OpenFillWithinAllocation(allocation: real, bestAsk: Num, askSize: Num)
    requires allocation >= 0.0
    requires OpenFill(allocation, bestAsk, askSize).Some?
    ensures var f := OpenFill(allocation, bestAsk, askSize).value;
            && f.price > 0.0
            && 0.0 < f.size <= askSize.v
            && f.cost == f.size * f.price
            && 0.0 < f.cost <= allocation
            && (askSize.v * f.price >= allocation ==> f.cost == allocation)
            && (askSize.v * f.price < allocation ==> f.size == askSize.v)
  {
    var p := bestAsk.v;
    var q := allocation / p;
    assert p > 0.0 by {
      if p < 0.0 {
        assert false;
      }
    }
    assert q * p == allocation;
    var f := OpenFill(allocation, bestAsk, askSize).value;
    assert f.size <= q;
    assert f.size * p <= q * p;
    if askSize.v * p >= allocation {
      assert askSize.v >= q;
    } else {
      assert askSize.v * p < q * p;
      assert askSize.v < q;
    }
  }

  /** The settlement of a resolved position: `payout`, `fee = payout * FEE_RATE`,
      `pnlNoFees = payout - cost`, `pnlWithFees = payout - fee - cost`. */
  datatype Settlement = Settlement(payout: real, fee: real, pnlNoFees: real, pnlWithFees: real)

  /** A contract pays one unit of currency per unit held on the winning side and nothing on the
      losing side. */
  function Settle(side: Side, resolution: Side, size: real, cost: real): Settlement
  {
    var payout := if side == resolution then size * 1.0 else 0.0;
    var fee := payout * FEE_RATE;
    Settlement(payout, fee, payout - cost, payout - fee - cost)
  }

  /** Winning pays the size less one percent; losing pays nothing and loses the whole cost; the
      fee only ever lowers the result, and the two P&L figures differ by exactly the fee. */
  lemma SettleOutcomes(side: Side, resolution: Side, size: real, cost: real)
    requires size >= 0.0
    ensures var s := Settle(side, resolution, size, cost);
            && (side == resolution ==> s.payout == size && s.pnlWithFees == size * 0.99 - cost)
            && (side != resolution ==> s.payout == 0.0 && s.pnlWithFees == -cost == s.pnlNoFees)
            && 0.0 <= s.payout <= size
            && s.pnlNoFees - s.pnlWithFees == s.fee == s.payout / 100.0
            && s.pnlWithFees <= s.pnlNoFees
  {
  }
}
