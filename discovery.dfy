/** Event discovery (discovery.js): page through the open events, newest first, a hundred at a
    time, keep those with an id, a slug, an end date and at least one market that has an id and
    a slug, project each kept market to its id and slug, and stop at the first page that fails,
    is not an array, or is empty. The discovery output holds the kept events in the order they
    arrived, and their count. */
module Discovery {
  import opened Wrappers

  /** The page size, the largest the events endpoint allows. */
  const LIMIT: nat := 100

  /** A string field read through `?.` or `??`: absent (or null), or present. */
  predicate Present(f: Option<string>) {
    f.Some? && f.value != ""
  }

  /** A market entry of an event as the endpoint returns it. */
  datatype RawMarket = RawMarket(id: Option<string>, slug: Option<string>)

  /** An event as the endpoint returns it; `markets` is none when it is not an array. */
  datatype RawEvent = RawEvent(
    id: Option<string>,
    slug: Option<string>,
    title: Option<string>,
    endDate: Option<string>,
    markets: Option<seq<RawMarket>>)

  /** The answer for one page: the request threw, the body is not an array, or the events. */
  datatype Page = FetchFailed | NotAnArray | Events(events: seq<RawEvent>)

  datatype MarketRef = MarketRef(id: string, slug: string)

  datatype DiscoveredEvent = DiscoveredEvent(
    eventId: string,
    slug: string,
    title: string,
    endDate: string,
    markets: seq<MarketRef>)

  /** The discovery output (less its timestamp). */
  datatype Output = Output(totalEvents: nat, events: seq<DiscoveredEvent>)

  /** The markets with both an id and a slug, reduced to those two fields, in order. */
  function Project(ms: seq<RawMarket>): seq<MarketRef>
  {
    if |ms| == 0 then []
    else
      var m := ms[|ms| - 1];
      Project(ms[..|ms| - 1])
      + (if Present(m.id) && Present(m.slug) then [MarketRef(m.id.value, m.slug.value)] else [])
  }

  /** One event: kept when it has an id, a slug, an end date and a non-empty market array of
      which at least one market survives the projection; a missing title becomes "". */
  function KeepEvent(ev: RawEvent): Option<DiscoveredEvent>
  {
    if !Present(ev.id) || !Present(ev.slug) || !Present(ev.endDate) then None
    else
      match ev.markets
      case None => None
      case Some(ms) =>
        var projected := Project(ms);
        if |ms| == 0 || |projected| == 0 then None
        else Some(DiscoveredEvent(ev.id.value, ev.slug.value,
                                  if ev.title.Some? then ev.title.value else "",
                                  ev.endDate.value, projected))
  }

  /** The kept events of one page, in order. */
  function PageEvents(evs: seq<RawEvent>): seq<DiscoveredEvent>
  {
    if |evs| == 0 then []
    else
      var ev := evs[|evs| - 1];
      PageEvents(evs[..|evs| - 1]) + (match KeepEvent(ev) case None => [] case Some(d) => [d])
  }

  /** The answer for page `k`; beyond the pages given, the endpoint has no more events. */
  function PageAt(pages: seq<Page>, k: nat): Page {
    if k < |pages| then pages[k] else Events([])
  }

  /** The loop stops on a failed request, a body that is not an array, or an empty page. */
  predicate Stops(p: Page) {
    !p.Events? || |p.events| == 0
  }

  /** The events kept from page `k` on, until the loop stops. */
  function DiscoverFrom(pages: seq<Page>, k: nat): seq<DiscoveredEvent>
    decreases |pages| - k
  {
    if Stops(PageAt(pages, k)) then [] else PageEvents(pages[k].events) + DiscoverFrom(pages, k + 1)
  }

  /** The page at which the loop stops, looking from page `k` on: the first one that stops
      it. */
  function StopPage(pages: seq<Page>, k: nat): (s: nat)
    ensures k <= s && (s == k || s <= |pages|)
    ensures Stops(PageAt(pages, s))
    ensures forall j :: k <= j < s ==> !Stops(PageAt(pages, j))
    decreases |pages| - k
  {
    if Stops(PageAt(pages, k)) then k else StopPage(pages, k + 1)
  }

  /** A market survives the projection exactly when it has an id and a slug. */
  lemma {:induction false} ProjectExactly(ms: seq<RawMarket>)
    ensures |Project(ms)| <= |ms|
    ensures forall r :: r in Project(ms) <==>
              exists m :: m in ms && Present(m.id) && Present(m.slug) && r == MarketRef(m.id.value, m.slug.value)
  {
    if |ms| > 0 {
      var n := |ms| - 1;
      ProjectExactly(ms[..n]);
      assert ms == ms[..n] + [ms[n]];
      forall r | r in Project(ms)
        ensures exists m :: m in ms && Present(m.id) && Present(m.slug) && r == MarketRef(m.id.value, m.slug.value)
      {
        if r in Project(ms[..n]) {
          var m :| m in ms[..n] && Present(m.id) && Present(m.slug) && r == MarketRef(m.id.value, m.slug.value);
          assert m in ms;
        }
      }
      forall m | m in ms && Present(m.id) && Present(m.slug)
        ensures MarketRef(m.id.value, m.slug.value) in Project(ms)
      {
        if m != ms[n] {
          assert m in ms[..n];
        }
      }
    }
  }

  /** Projecting keeps the markets' order. */
  lemma {:induction false} ProjectAppend(a: seq<RawMarket>, b: seq<RawMarket>)
    ensures Project(a + b) == Project(a) + Project(b)
    decreases |b|
  {
    if |b| == 0 {
      assert a + b == a;
    } else {
      var n := |b| - 1;
      assert (a + b)[..|a + b| - 1] == a + b[..n];
      ProjectAppend(a, b[..n]);
    }
  }

  /** What every discovered event satisfies: its id, slug and end date are present, and it
      lists at least one market, each with an id and a slug. */
  predicate EventOk(d: DiscoveredEvent) {
    && d.eventId != "" && d.slug != "" && d.endDate != ""
    && |d.markets| > 0
    && forall r <- d.markets :: r.id != "" && r.slug != ""
  }

  /** An event is kept exactly when its id, slug and end date are present and a non-empty
      market array has a market with an id and a slug; the kept event carries its own fields,
      the title or "", and the projected markets. */
  lemma KeepEventExactly(ev: RawEvent)
    ensures KeepEvent(ev).Some? <==>
              && Present(ev.id) && Present(ev.slug) && Present(ev.endDate)
              && ev.markets.Some?
              && exists m :: m in ev.markets.value && Present(m.id) && Present(m.slug)
    ensures KeepEvent(ev).Some? ==>
              var d := KeepEvent(ev).value;
              && EventOk(d)
              && d.eventId == ev.id.value && d.slug == ev.slug.value && d.endDate == ev.endDate.value
              && d.title == (if ev.title.Some? then ev.title.value else "")
              && d.markets == Project(ev.markets.value)
  {
    if ev.markets.Some? {
      var ms := ev.markets.value;
      ProjectExactly(ms);
      if |Project(ms)| > 0 {
        assert Project(ms)[0] in Project(ms);
      }
      if exists m :: m in ms && Present(m.id) && Present(m.slug) {
        var m :| m in ms && Present(m.id) && Present(m.slug);
        assert MarketRef(m.id.value, m.slug.value) in Project(ms);
      }
      forall r <- Project(ms)
        ensures r.id != "" && r.slug != ""
      {
      }
    }
  }

  /** Every event a page yields is `EventOk`, no more events than the page holds. */
  lemma {:induction false} PageEventsOk(evs: seq<RawEvent>)
    ensures |PageEvents(evs)| <= |evs|
    ensures forall d <- PageEvents(evs) :: EventOk(d)
  {
    if |evs| > 0 {
      PageEventsOk(evs[..|evs| - 1]);
      KeepEventExactly(evs[|evs| - 1]);
    }
  }

  /** Filtering a page keeps the events' order. */
  lemma {:induction false} PageEventsAppend(a: seq<RawEvent>, b: seq<RawEvent>)
    ensures PageEvents(a + b) == PageEvents(a) + PageEvents(b)
    decreases |b|
  {
    if |b| == 0 {
      assert a + b == a;
    } else {
      var n := |b| - 1;
      assert (a + b)[..|a + b| - 1] == a + b[..n];
      PageEventsAppend(a, b[..n]);
    }
  }

  /** Every discovered event is `EventOk`. */
  lemma {:induction false} DiscoverFromOk(pages: seq<Page>, k: nat)
    ensures forall d <- DiscoverFrom(pages, k) :: EventOk(d)
    decreases |pages| - k
  {
    if !Stops(PageAt(pages, k)) {
      DiscoverFromOk(pages, k + 1);
      PageEventsOk(pages[k].events);
    }
  }

  /** Pages after the one where the loop stops are never looked at: two page lists that agree
      up to and including it discover the same events. */
  lemma {:induction false} DiscoverIgnoresLater(pages: seq<Page>, other: seq<Page>, k: nat)
    requires forall j :: k <= j <= StopPage(pages, k) ==> PageAt(other, j) == PageAt(pages, j)
    ensures DiscoverFrom(other, k) == DiscoverFrom(pages, k)
    ensures StopPage(other, k) == StopPage(pages, k)
    decreases |pages| - k
  {
    if !Stops(PageAt(pages, k)) {
      DiscoverIgnoresLater(pages, other, k + 1);
    }
  }

  /** The loop over one page's events, pushing the kept ones. It computes exactly
      `PageEvents`. */
  method KeepAll(evs: seq<RawEvent>) returns (kept: seq<DiscoveredEvent>)
    ensures kept == PageEvents(evs)
  {
    kept := [];
    var i := 0;
    while i < |evs|
      invariant 0 <= i <= |evs|
      invariant kept == PageEvents(evs[..i])
    {
      assert evs[..i + 1][..i] == evs[..i];
      match KeepEvent(evs[i]) {
        case None =>
          assert kept + [] == kept;
        case Some(d) =>
          kept := kept + [d];
      }
      i := i + 1;
    }
    assert evs[..i] == evs;
  }

  /** The discovery loop: request the page at `offset`, stop on a failed, non-array or empty
      page, otherwise push its kept events and advance `offset` by `LIMIT` and `page` by one.
      It computes exactly `DiscoverFrom(pages, 0)`, and it requested the offsets 0, 100, 200,
      … up to and including the page where it stopped. */
  method Discover(pages: seq<Page>) returns (output: Output, requested: seq<nat>)
    ensures output.events == DiscoverFrom(pages, 0)
    ensures output.totalEvents == |output.events|
    ensures |requested| == StopPage(pages, 0) + 1
    ensures forall k :: 0 <= k < |requested| ==> requested[k] == LIMIT * k
  {
    var discovered: seq<DiscoveredEvent> := [];
    var offset: nat := 0;
    var page: nat := 0;
    var stop := false;
    requested := [];
    while !stop
      invariant page <= |pages|
      invariant offset == LIMIT * page
      invariant |requested| == page + (if stop then 1 else 0)
      invariant forall k :: 0 <= k < |requested| ==> requested[k] == LIMIT * k
      invariant !stop ==> discovered + DiscoverFrom(pages, page) == DiscoverFrom(pages, 0)
      invariant !stop ==> StopPage(pages, page) == StopPage(pages, 0)
      invariant stop ==> discovered == DiscoverFrom(pages, 0) && page == StopPage(pages, 0)
      decreases |pages| - page, if stop then 0 else 1
    {
      var answer := PageAt(pages, page);
      requested := requested + [offset];
      if Stops(answer) {
        stop := true;
        assert discovered + [] == discovered;
      } else {
        var kept := KeepAll(answer.events);
        discovered := discovered + kept;
        offset := offset + LIMIT;
        page := page + 1;
      }
    }
    output := Output(|discovered|, discovered);
  }
}
