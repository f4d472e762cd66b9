/** What the scanners read of the discovery file and the gateways, and how their loops gather
    results: in order, until an exception ends the scan. */
module Scanning {
  import opened Wrappers
  import opened JsNumber
  import opened Gamma
  import opened OrderBook

  /** One market listed under a discovered event, with what the gateways answer for it: the
      lookup by its slug, and the book for the YES and the NO token (none when that request
      throws). */
  datatype MarketInput = MarketInput(
    slug: string,
    answer: Fetch<Market>,
    yesBook: Option<Book>,
    noBook: Option<Book>)

  /** A discovered event, with the hours until its end date already computed (NaN when the end
      date does not parse). */
  datatype EventInput = EventInput(slug: string, hours: Num, markets: seq<MarketInput>)

  /** The book requested for one side of a market. */
  function BookFor(mi: MarketInput, side: Side): Option<Book> {
    if side == Yes then mi.yesBook else mi.noBook
  }

  /** The results gathered so far, in order, and whether an exception ended the scan. */
  datatype Found<T> = Found(items: seq<T>, aborted: bool)

  /** Scanning one part and then, unless it threw, the next. */
  function Then<T>(a: Found<T>, b: Found<T>): Found<T> {
    if a.aborted then a else Found(a.items + b.items, b.aborted)
  }

  /** Scanning in parts is scanning in one go: the parts may be grouped either way. */
  lemma ThenAssociative<T>(a: Found<T>, b: Found<T>, c: Found<T>)
    ensures Then(Then(a, b), c) == Then(a, Then(b, c))
  {
    if !a.aborted && !b.aborted {
      assert (a.items + b.items) + c.items == a.items + (b.items + c.items);
    }
  }

  /** The verdict on one market of a list scanned one market at a time: skipped, an exception
      that ends the scan, or eligible. */
  datatype Verdict<+T> = Skip | Crash | Take(value: T)

  /** A verdict as the part of the scan it contributes. */
  function AsFound<T>(v: Verdict<T>): Found<T> {
    match v
    case Skip => Found([], false)
    case Crash => Found([], true)
    case Take(x) => Found([x], false)
  }
}
