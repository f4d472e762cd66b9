/** The price, book and liquidity tail shared by the two YES-only scanners (the Bitcoin ladder
    scanner and the daily yes/no scanner): once a market has passed the time filter, its YES
    price must lie in [0.80, 0.99], the book of its first token must have asks, and the best ask
    must carry at least one dollar of liquidity. */
module YesRung {
  import opened Wrappers
  import opened JsNumber
  import opened Gamma
  import opened OrderBook
  import opened Scanning

  const MIN_PROBABILITY: real := 0.80
  /** The hard ceiling: a market priced above it is too close to resolution. */
  const MAX_PROBABILITY: real := 0.99
  /** Below one dollar at the best ask a market is dust. */
  const MIN_LIQUIDITY_USD: real := 1.0

  /** What the tail finds for an eligible market. */
  datatype Rung = Rung(yesPrice: Num, tokenId: Option<string>, bestAsk: real, askSize: real, liquidityUSD: real)

  /** The tail: outcome prices that are absent or do not parse throw; a YES price outside the
      band skips; a token list that is absent or does not parse throws; the first token (none
      for an empty list) names the book; a failed book request or a book without asks skips;
      so does less than the floor at the best ask. */
  function PriceAndBook(m: Market, book: Option<Book>): Verdict<Rung>
  {
    match m.outcomePrices
    case Parsed(prices) =>
      var yes := PriceAt(prices, 0);
      if OutsideBand(yes, MIN_PROBABILITY, MAX_PROBABILITY) then Skip
      else
        (match m.clobTokenIds
         case Parsed(tokens) =>
           (match book
            case None => Skip
            case Some(b) =>
              (match BestAsk(b.asks)
               case None => Skip
               case Some(q) =>
                 if q.size * q.price < MIN_LIQUIDITY_USD then Skip
                 else Take(Rung(yes, if |tokens| > 0 then Some(tokens[0]) else None,
                                q.price, q.size, q.size * q.price))))
         case _ => Crash)
    case _ => Crash
  }

  /** The tail throws exactly when the prices do not parse, or pass the band and the tokens do
      not parse; it takes exactly a market whose YES price passes the band (NaN passes), whose
      tokens parse, and whose book has asks with at least the floor at the best ask; the rung
      then carries the YES price, the first token, the best ask and the size summed at it. */
  lemma PriceAndBookExactly(m: Market, book: Option<Book>)
    ensures var v := PriceAndBook(m, book);
            && (v.Crash? <==>
                  || !m.outcomePrices.Parsed?
                  || (!OutsideBand(PriceAt(m.outcomePrices.value, 0), MIN_PROBABILITY, MAX_PROBABILITY)
                      && !m.clobTokenIds.Parsed?))
            && (v.Take? <==>
                  && m.outcomePrices.Parsed? && m.clobTokenIds.Parsed?
                  && (var yes := PriceAt(m.outcomePrices.value, 0);
                      yes.NaN? || MIN_PROBABILITY <= yes.v <= MAX_PROBABILITY)
                  && book.Some? && |book.value.asks| > 0
                  && BestAsk(book.value.asks).value.size * BestAsk(book.value.asks).value.price >= MIN_LIQUIDITY_USD)
            && (v.Take? ==>
                  && v.value.yesPrice == PriceAt(m.outcomePrices.value, 0)
                  && v.value.bestAsk == BestAsk(book.value.asks).value.price
                  && v.value.askSize == BestAsk(book.value.asks).value.size
                  && v.value.liquidityUSD == v.value.askSize * v.value.bestAsk >= MIN_LIQUIDITY_USD
                  && (v.value.tokenId.Some? <==> |m.clobTokenIds.value| > 0)
                  && (v.value.tokenId.Some? ==> v.value.tokenId.value == m.clobTokenIds.value[0]))
  {
    if m.outcomePrices.Parsed? {
      OutsideBandMeaning(PriceAt(m.outcomePrices.value, 0), MIN_PROBABILITY, MAX_PROBABILITY);
    }
  }
}
