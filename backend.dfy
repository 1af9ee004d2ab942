/** The counter service: one record of site-wide counters kept in a data
    file, and the request handlers that load it, change it and save it back. */
module Backend {
  import opened Wrappers
  import opened Sums

  /** The visitor count never goes past this. */
  const VisitorCap: nat := 1000

  /** The page a page-view request counts when it names none. */
  const DefaultPage: string := "home"

  /** The stored counters; `pageStats` maps a page to its number of views. */
  datatype Counters = Counters(
    totalVisitors: nat,
    totalPageViews: nat,
    totalClicks: nat,
    pageStats: map<string, nat>)

  /** The per-page views add up to the page-view total. */
  ghost predicate Consistent(c: Counters) {
    c.totalPageViews == SumValues(c.pageStats)
  }

  /** The record a fresh (or reset) service starts from: every counter zero,
      no pages. */
  function Initial(): (c: Counters)
    ensures c.totalVisitors == 0 && c.totalPageViews == 0 && c.totalClicks == 0
    ensures c.pageStats == map[]
    ensures Consistent(c)
  {
    Counters(0, 0, 0, map[])
  }

  function Min(a: int, b: int): (m: int)
    ensures m <= a && m <= b && (m == a || m == b)
  {
    if a <= b then a else b
  }

  /** A visitor: the visitor count goes up by one, but not past the cap;
      nothing else changes. */
  function Visitor(c: Counters): (r: Counters)
    ensures c.totalVisitors < VisitorCap ==> r.totalVisitors == c.totalVisitors + 1
    ensures c.totalVisitors >= VisitorCap ==> r.totalVisitors == VisitorCap
    ensures r.totalVisitors <= VisitorCap
    ensures r.totalPageViews == c.totalPageViews && r.totalClicks == c.totalClicks
    ensures r.pageStats == c.pageStats
  {
    c.(totalVisitors := Min(c.totalVisitors + 1, VisitorCap))
  }

  /** The page a page-view request counts. */
  function RequestedPage(page: Option<string>): (p: string)
    ensures page.None? ==> p == DefaultPage
    ensures page.Some? ==> p == page.value
  {
    page.GetOr(DefaultPage)
  }

  /** A view of `page`: the page-view total and the page's own count each go
      up by one (a missing page starting from zero); other pages and the other
      totals are left as they were, so the per-page sum grows by one too. */
  function PageView(c: Counters, page: string): (r: Counters)
    ensures r.totalPageViews == c.totalPageViews + 1
    ensures r.pageStats.Keys == c.pageStats.Keys + {page}
    ensures r.pageStats[page] == (if page in c.pageStats then c.pageStats[page] else 0) + 1
    ensures forall q :: q in c.pageStats && q != page ==> r.pageStats[q] == c.pageStats[q]
    ensures r.totalVisitors == c.totalVisitors && r.totalClicks == c.totalClicks
    ensures SumValues(r.pageStats) == SumValues(c.pageStats) + 1
  {
    var stats := if page in c.pageStats then c.pageStats else c.pageStats[page := 0];
    var before := stats[page];
    SumValuesUpdate(c.pageStats, page, before + 1);
    assert stats[page := before + 1] == c.pageStats[page := before + 1];
    c.(totalPageViews := c.totalPageViews + 1, pageStats := stats[page := before + 1])
  }

  /** A click: the click count goes up by one and nothing else changes. */
  function Click(c: Counters): (r: Counters)
    ensures r.totalClicks == c.totalClicks + 1
    ensures r.totalVisitors == c.totalVisitors && r.totalPageViews == c.totalPageViews
    ensures r.pageStats == c.pageStats
  {
    c.(totalClicks := c.totalClicks + 1)
  }

  /** The requests the service answers that change the counters. */
  datatype Request = VisitorRequest | PageViewRequest(page: Option<string>) | ClickRequest | ResetRequest

  /** The counters after one request. */
  function Handle(c: Counters, req: Request): Counters {
    match req
    case VisitorRequest => Visitor(c)
    case PageViewRequest(page) => PageView(c, RequestedPage(page))
    case ClickRequest => Click(c)
    case ResetRequest => Initial()
  }

  /** The counters after the requests, in order. */
  function Replay(c: Counters, reqs: seq<Request>): Counters {
    if reqs == [] then c else Handle(Replay(c, reqs[..|reqs| - 1]), reqs[|reqs| - 1])
  }

  /** A reset forgets everything, whatever came before. */
  lemma ResetForgets(c: Counters, reqs: seq<Request>)
    ensures Replay(c, reqs + [ResetRequest]) == Initial()
  {
    assert (reqs + [ResetRequest])[..|reqs|] == reqs;
  }

  /** Every request keeps the per-page sum equal to the page-view total and
      the visitor count within the cap. */
  lemma HandleKeepsInvariant(c: Counters, req: Request)
    requires Consistent(c) && c.totalVisitors <= VisitorCap
    ensures Consistent(Handle(c, req)) && Handle(c, req).totalVisitors <= VisitorCap
  {
  }

  /** From the initial record, any sequence of requests leaves the per-page
      views adding up to the page-view total, and at most 1000 visitors. */
  lemma {:induction false} ReplayKeepsInvariant(reqs: seq<Request>)
    ensures Consistent(Replay(Initial(), reqs))
    ensures Replay(Initial(), reqs).totalVisitors <= VisitorCap
  {
    if reqs != [] {
      ReplayKeepsInvariant(reqs[..|reqs| - 1]);
      HandleKeepsInvariant(Replay(Initial(), reqs[..|reqs| - 1]), reqs[|reqs| - 1]);
    }
  }

  /** The data file and the handlers that read and write it. `file` is what
      loading the file yields: `None` when the file is missing or cannot be
      read as counters. */
  class CounterStore {
    var file: Option<Counters>

    constructor (file: Option<Counters>)
      ensures this.file == file
    {
      this.file := file;
    }

    /** What is stored, if anything, keeps the per-page sum. */
    ghost predicate Valid()
      reads this
    {
      file.None? || Consistent(file.value)
    }

    /** The counters as loaded: the file's content, or the initial record
        when there is no usable file. */
    function Load(): (c: Counters)
      reads this
      ensures file.None? ==> c == Initial()
      ensures file.Some? ==> c == file.value
      ensures Valid() ==> Consistent(c)
    {
      file.GetOr(Initial())
    }

    method Save(data: Counters)
      modifies this
      ensures file == Some(data)
    {
      file := Some(data);
    }

    /** The summary every visitor sees: the loaded counters. */
    method GetAnalytics() returns (data: Counters)
      ensures data == Load()
    {
      data := Load();
    }

    method TrackVisitor() returns (totalVisitors: nat)
      modifies this
      ensures file == Some(Visitor(old(Load())))
      ensures totalVisitors == file.value.totalVisitors
      ensures old(Valid()) ==> Valid()
    {
      var data := Load();
      data := data.(totalVisitors := Min(data.totalVisitors + 1, VisitorCap));
      Save(data);
      totalVisitors := data.totalVisitors;
    }

    /** A page view of the requested page, `page` being the request's
        optional `page` field. */
    method TrackPageview(page: Option<string>) returns (totalPageViews: nat)
      modifies this
      ensures file == Some(PageView(old(Load()), RequestedPage(page)))
      ensures totalPageViews == file.value.totalPageViews
      ensures old(Valid()) ==> Valid()
    {
      var data := Load();
      var p := page.GetOr(DefaultPage);
      data := data.(totalPageViews := data.totalPageViews + 1);
      if p !in data.pageStats {
        data := data.(pageStats := data.pageStats[p := 0]);
      }
      data := data.(pageStats := data.pageStats[p := data.pageStats[p] + 1]);
      Save(data);
      totalPageViews := data.totalPageViews;
    }

    method TrackClick() returns (totalClicks: nat)
      modifies this
      ensures file == Some(Click(old(Load())))
      ensures totalClicks == file.value.totalClicks
      ensures old(Valid()) ==> Valid()
    {
      var data := Load();
      data := data.(totalClicks := data.totalClicks + 1);
      Save(data);
      totalClicks := data.totalClicks;
    }

    method ResetAnalytics()
      modifies this
      ensures file == Some(Initial())
      ensures Valid()
    {
      var data := Initial();
      Save(data);
    }
  }
}
