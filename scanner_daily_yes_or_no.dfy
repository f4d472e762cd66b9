/** The daily yes/no scanner (scannerDailyYesOrNo.js): for every market of a hand-curated slug
    list it looks the market up and keeps those closing within four hours whose YES price lies
    in [0.80, 0.99] and whose YES book is not dust. The records are written to the scanner
    output in list order, each tagged with the daily market type. */
module ScannerDailyYesOrNo {
  import opened Wrappers
  import opened JsNumber
  import opened Gamma
  import opened OrderBook
  import opened Scanning
  import opened YesRung

  const MARKET_SLUGS: seq<string> := [
    "will-the-fed-cut-rates-in-january",
    "will-bitcoin-close-above-45000-today",
    "will-ethereum-outperform-bitcoin-today"]
  const MAX_HOURS_TO_CLOSE: real := 4.0
  const MARKET_TYPE: string := "daily_yes_no"

  /** What the gateways answer for one slug: the lookup, the hours until the market's end
      date, and the book of its first token. */
  datatype SlugInput = SlugInput(answer: Fetch<Market>, hours: Num, book: Option<Book>)

  /** One record of the scanner output. */
  datatype Record = Record(
    slug: string,
    endDate: string,
    hoursToClose: Num,
    yesPrice: Num,
    bestAsk: real,
    askSize: real,
    liquidityUSD: real,
    tokenId: Option<string>,
    marketType: string)

  /** One market: a failed lookup or an empty answer is skipped, as is a market without an end
      date or token list, or outside the window of `(0, MAX_HOURS_TO_CLOSE]` hours; the rest is
      the shared YES tail. */
  function MarketFind(slug: string, input: SlugInput): Verdict<Record>
  {
    match input.answer
    case Failed => Skip
    case Missing => Skip
    case Got(m) =>
      if !HasEndDate(m) || m.clobTokenIds.Absent? then Skip
      else if OutsideWindow(input.hours, MAX_HOURS_TO_CLOSE) then Skip
      else
        match PriceAndBook(m, input.book)
        case Skip => Skip
        case Crash => Crash
        case Take(r) =>
          Take(Record(slug, m.endDate.value, input.hours, r.yesPrice, r.bestAsk, r.askSize,
                      r.liquidityUSD, r.tokenId, MARKET_TYPE))
  }

  /** The markets of a slug list, in list order, until one throws. */
  function ListFind(slugs: seq<string>, inputs: seq<SlugInput>): Found<Record>
    requires |inputs| == |slugs|
  {
    if |slugs| == 0 then Found([], false)
    else
      var n := |slugs| - 1;
      Then(ListFind(slugs[..n], inputs[..n]), AsFound(MarketFind(slugs[n], inputs[n])))
  }

  /** The scanner output: every eligible market of the list, or nothing when the scan throws. */
  function ScanOutput(inputs: seq<SlugInput>): Option<seq<Record>>
    requires |inputs| == |MARKET_SLUGS|
  {
    var f := ListFind(MARKET_SLUGS, inputs);
    if f.aborted then None else Some(f.items)
  }

  /** What every record satisfies: it is tagged as a daily market, closes inside the window,
      its YES price passes the band, and its best ask is not dust. */
  predicate RecordOk(r: Record) {
    && r.marketType == MARKET_TYPE
    && !OutsideWindow(r.hoursToClose, MAX_HOURS_TO_CLOSE)
    && !OutsideBand(r.yesPrice, YesRung.MIN_PROBABILITY, YesRung.MAX_PROBABILITY)
    && r.liquidityUSD == r.askSize * r.bestAsk >= YesRung.MIN_LIQUIDITY_USD
  }

  /** A market throws exactly when it passed the field and time filters and the YES tail
      throws (its prices do not parse, or its tokens do not parse after the band); it is kept
      exactly when it has an end date and a token list, is inside the window, and passes the
      YES tail; the record then carries the list's slug. */
  lemma MarketFindExactly(slug: string, input: SlugInput)
    ensures var v := MarketFind(slug, input);
            var passed := && input.answer.Got? && HasEndDate(input.answer.value)
                          && !input.answer.value.clobTokenIds.Absent?
                          && !OutsideWindow(input.hours, MAX_HOURS_TO_CLOSE);
            && (v.Crash? <==> passed && PriceAndBook(input.answer.value, input.book).Crash?)
            && (v.Take? <==> passed && PriceAndBook(input.answer.value, input.book).Take?)
            && (v.Take? ==> v.value.slug == slug && RecordOk(v.value))
  {
    if input.answer.Got? {
      PriceAndBookExactly(input.answer.value, input.book);
    }
  }

  /** Every record satisfies `RecordOk` and names a slug of the list, at most one per slug. */
  lemma {:induction false} ListFindSound(slugs: seq<string>, inputs: seq<SlugInput>)
    requires |inputs| == |slugs|
    ensures var f := ListFind(slugs, inputs);
            && |f.items| <= |slugs|
            && forall r <- f.items :: RecordOk(r) && r.slug in slugs
  {
    if |slugs| > 0 {
      var n := |slugs| - 1;
      ListFindSound(slugs[..n], inputs[..n]);
      MarketFindExactly(slugs[n], inputs[n]);
      var prev := ListFind(slugs[..n], inputs[..n]);
      forall r <- ListFind(slugs, inputs).items
        ensures RecordOk(r) && r.slug in slugs
      {
        if r in prev.items {
          assert r.slug in slugs[..n];
        }
      }
    }
  }

  /** The records follow the list's order: scanning two lists one after the other is scanning
      the first and then, unless it threw, the second. */
  lemma {:induction false} ListFindAppend(a: seq<string>, ia: seq<SlugInput>, b: seq<string>, ib: seq<SlugInput>)
    requires |ia| == |a| && |ib| == |b|
    ensures ListFind(a + b, ia + ib) == Then(ListFind(a, ia), ListFind(b, ib))
    decreases |b|
  {
    if |b| == 0 {
      assert a + b == a && ia + ib == ia;
      assert ListFind(a, ia).items + [] == ListFind(a, ia).items;
    } else {
      var n := |b| - 1;
      var last := AsFound(MarketFind(b[n], ib[n]));
      assert (a + b)[..|a + b| - 1] == a + b[..n];
      assert (ia + ib)[..|ia + ib| - 1] == ia + ib[..n];
      assert (a + b)[|a + b| - 1] == b[n] && (ia + ib)[|ia + ib| - 1] == ib[n];
      calc {
        ListFind(a + b, ia + ib);
        Then(ListFind(a + b[..n], ia + ib[..n]), last);
        { ListFindAppend(a, ia, b[..n], ib[..n]); }
        Then(Then(ListFind(a, ia), ListFind(b[..n], ib[..n])), last);
        { ThenAssociative(ListFind(a, ia), ListFind(b[..n], ib[..n]), last); }
        Then(ListFind(a, ia), Then(ListFind(b[..n], ib[..n]), last));
      }
    }
  }

  lemma {:induction false} ListAbortedRest(slugs: seq<string>, inputs: seq<SlugInput>, i: nat)
    requires |inputs| == |slugs| && i <= |slugs|
    requires ListFind(slugs[..i], inputs[..i]).aborted
    ensures ListFind(slugs, inputs) == ListFind(slugs[..i], inputs[..i])
    decreases |slugs| - i
  {
    if i < |slugs| {
      assert slugs[..i + 1][..i] == slugs[..i];
      assert inputs[..i + 1][..i] == inputs[..i];
      ListAbortedRest(slugs, inputs, i + 1);
    } else {
      assert slugs[..i] == slugs && inputs[..i] == inputs;
    }
  }

  /** The scan loop over the curated list: judge each market and push the eligible ones, until
      one throws. It computes exactly `ScanOutput`. */
  method Scan(inputs: seq<SlugInput>) returns (output: Option<seq<Record>>)
    requires |inputs| == |MARKET_SLUGS|
    ensures output == ScanOutput(inputs)
  {
    var results: seq<Record> := [];
    var aborted := false;
    var i := 0;
    while i < |MARKET_SLUGS| && !aborted
      invariant 0 <= i <= |MARKET_SLUGS|
      invariant Found(results, aborted) == ListFind(MARKET_SLUGS[..i], inputs[..i])
    {
      assert MARKET_SLUGS[..i + 1][..i] == MARKET_SLUGS[..i];
      assert inputs[..i + 1][..i] == inputs[..i];
      match MarketFind(MARKET_SLUGS[i], inputs[i]) {
        case Skip =>
          assert results + [] == results;
        case Crash =>
          aborted := true;
        case Take(r) =>
          results := results + [r];
      }
      i := i + 1;
    }
    if aborted {
      ListAbortedRest(MARKET_SLUGS, inputs, i);
      output := None;
    } else {
      assert MARKET_SLUGS[..i] == MARKET_SLUGS && inputs[..i] == inputs;
      output := Some(results);
    }
  }
}
