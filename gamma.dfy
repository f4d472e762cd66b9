/** The market records that the gamma endpoint returns, after `JSON.parse` and `Number`:
    what the trading programs read of them, and the rules that all of them apply to the
    `outcomePrices` pair. */
module Gamma {
  import opened Wrappers
  import opened JsNumber

  /** The outcome side a position holds or a market resolves to. */
  datatype Side = Yes | No

  /** A JSON-encoded string field: absent or falsy (`undefined`, `null`, ""), present but not
      valid JSON (so `JSON.parse` throws), or parsed. */
  datatype Field<+T> = Absent | Malformed | Parsed(value: T)

  /** One entry of the parsed `outcomePrices` array: the string itself and `Number` of it. */
  datatype Outcome = Outcome(text: string, value: Num)

  datatype Market = Market(
    id: string,
    closed: bool,
    endDate: Option<string>,
    outcomePrices: Field<seq<Outcome>>,
    clobTokenIds: Field<seq<string>>)

  /** `Number(prices[i])`; reading past the end gives `undefined`, which compares like NaN. */
  function PriceAt(prices: seq<Outcome>, i: nat): Num
  {
    if i < |prices| then prices[i].value else NaN
  }

  /** The position of a side's entry in the `outcomePrices` and `clobTokenIds` pairs. */
  function IndexOf(side: Side): nat {
    if side == Yes then 0 else 1
  }

  /** `!!market.endDate`: present and not the empty string. */
  predicate HasEndDate(m: Market) {
    m.endDate.Some? && m.endDate.value != ""
  }

  /** `prices[i] === "1"` */
  predicate IsOne(prices: seq<Outcome>, i: nat) {
    i < |prices| && prices[i].text == "1"
  }

  /** The terminal outcome of a closed market: YES when the first price is exactly the string
      "1", else NO when the second one is, else not finalized yet. */
  function ResolutionOf(prices: seq<Outcome>): Option<Side>
  {
    if IsOne(prices, 0) then Some(Yes)
    else if IsOne(prices, 1) then Some(No)
    else None
  }

  /** The implied probability of the side held, read from the YES price alone:
      `side === "YES" ? prices[0] : 1 - prices[0]`. */
  function HeldProbability(side: Side, prices: seq<Outcome>): Num
  {
    if side == Yes then PriceAt(prices, 0) else Minus(Val(1.0), PriceAt(prices, 0))
  }

  /** A finalized market resolves one way only, YES taking precedence, and a tag is found
      exactly when one of the first two prices is the string "1". */
  lemma ResolutionOfCases(prices: seq<Outcome>)
    ensures ResolutionOf(prices) == Some(Yes) <==> IsOne(prices, 0)
    ensures ResolutionOf(prices) == Some(No) <==> !IsOne(prices, 0) && IsOne(prices, 1)
    ensures ResolutionOf(prices).None? <==> !IsOne(prices, 0) && !IsOne(prices, 1)
  {
  }

  /** The two sides' probabilities as the stop-loss reads them add up to one, and both are NaN
      when the YES price is not a number. */
  lemma HeldProbabilitiesComplement(prices: seq<Outcome>)
    ensures PriceAt(prices, 0).Val? ==>
              HeldProbability(Yes, prices).v + HeldProbability(No, prices).v == 1.0
    ensures PriceAt(prices, 0).NaN? ==>
              HeldProbability(Yes, prices).NaN? && HeldProbability(No, prices).NaN?
  {
  }
}
