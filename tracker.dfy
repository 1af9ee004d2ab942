/** The tracker as it runs in one browser tab: the two web-storage slots it
    reads and writes, the page-load and unload handlers that update them, and
    the read-only summaries computed from what is stored. */
module AnalyticsTracker {
  import opened Wrappers
  import opened Strings
  import opened Sums
  import opened Analytics

  /** One tab's view of web storage. `analytics` is the parsed content of
      `localStorage['analytics']`, shared by every tab of the site;
      `sessionId` is `sessionStorage['sessionId']`, private to the tab. An
      empty slot is `None`. */
  class Tracker {
    var analytics: Option<Record>
    var sessionId: Option<string>

    constructor (analytics: Option<Record>, sessionId: Option<string>)
      ensures this.analytics == analytics && this.sessionId == sessionId
    {
      this.analytics := analytics;
      this.sessionId := sessionId;
    }

    /** What is stored, if anything, is a consistent record. */
    ghost predicate Valid()
      reads this
    {
      analytics.None? || Consistent(analytics.value)
    }

    /** The stored record, or the empty record when nothing is stored yet. */
    function Data(): (r: Record)
      reads this
      ensures analytics.None? ==> r == EmptyRecord()
      ensures Valid() ==> Consistent(r)
    {
      analytics.GetOr(EmptyRecord())
    }

    /** The page-load handler: reuse the tab's session identifier, or store
        `freshId` when the tab has none, record the page view, and arm the
        unload handler. */
    method InitializeTracking(freshId: string, path: string, now: int, width: int, documentReferrer: string)
      returns (armed: bool)
      modifies this
      ensures sessionId == Some(
        if old(sessionId).Some? && old(sessionId).value != [] then old(sessionId).value else freshId)
      ensures analytics == Some(PageView(old(Data()), sessionId.value, path, now, width, documentReferrer))
      ensures armed
      ensures old(Valid()) ==> Valid()
    {
      ghost var before := Data();
      ghost var wasValid := Valid();
      if sessionId.None? || sessionId.value == [] {
        sessionId := Some(freshId);
      }
      assert Data() == before && Valid() == wasValid;
      TrackPageView(path, now, width, documentReferrer);
      ghost var after := PageView(before, sessionId.value, path, now, width, documentReferrer);
      assert Data() == after;
      assert FindSession(after.sessions, sessionId.value).Some?;
      armed := TrackSessionDuration();
    }

    /** Record a page view in the tab's session and store the result: find
        the session (adding a new one when there is none), push the page onto
        it, create the page's counter if missing and add a view to it, then
        recompute both totals from the sessions. */
    method TrackPageView(path: string, now: int, width: int, documentReferrer: string)
      requires sessionId.Some?
      modifies this
      ensures sessionId == old(sessionId)
      ensures analytics == Some(PageView(old(Data()), sessionId.value, path, now, width, documentReferrer))
      ensures old(Valid()) ==> Valid()
    {
      var data: Record;
      if analytics.None? {
        data := RecordPageView(EmptyRecord(), sessionId.value, path, now, width, documentReferrer);
      } else {
        data := RecordPageView(analytics.value, sessionId.value, path, now, width, documentReferrer);
      }
      analytics := Some(data);
    }

    /** Whether the unload handler gets installed: only when the stored
        record holds a session with the tab's identifier. */
    method TrackSessionDuration() returns (armed: bool)
      ensures armed <==> sessionId.Some? && FindSession(Data().sessions, sessionId.value).Some?
    {
      var sessions := Data().sessions;
      armed := sessionId.Some? && FindSession(sessions, sessionId.value).Some?;
    }

    /** The unload handler armed for session `id`. It patches a freshly read
        copy of that session (returned here) and then stores another fresh
        read, so what is stored does not change. When no stored session has
        the identifier the handler fails before storing anything (`None`). */
    method BeforeUnload(id: string, now: int) returns (patched: Option<Session>)
      modifies this
      ensures analytics == old(analytics) && sessionId == old(sessionId)
      ensures patched == match FindSession(old(Data()).sessions, id)
        case None => None
        case Some(k) => Some(Finalize(old(Data()).sessions[k], now))
    {
      var sessionsData := Data().sessions;
      var found := FindSession(sessionsData, id);
      if found.None? {
        patched := None;
        return;
      }
      var session := sessionsData[found.value];
      if |session.pages| > 0 {
        var n := |session.pages| - 1;
        var lastPage := session.pages[n];
        lastPage := lastPage.(timeOnPage := RoundDiv(now - lastPage.viewTime, 1000));
        session := session.(pages := session.pages[n := lastPage]);
      }
      if |session.pages| == 1 {
        session := session.(bounced := true);
      }
      patched := Some(session);
      analytics := Some(Data());
    }

    /** The unload handler as intended: the patched session is written back
        into the record it was read from, so the stored session keeps its
        time on page and its bounce mark. Without a stored session of that
        identifier nothing is stored, as in `BeforeUnload`. */
    method BeforeUnloadStoringPatch(id: string, now: int) returns (patched: Option<Session>)
      modifies this
      ensures sessionId == old(sessionId)
      ensures FindSession(old(Data()).sessions, id).None? ==> analytics == old(analytics) && patched.None?
      ensures FindSession(old(Data()).sessions, id).Some? ==>
        && analytics == Some(FinalizeStored(old(Data()), id, now))
        && patched == Some(Finalize(old(Data()).sessions[FindSession(old(Data()).sessions, id).value], now))
      ensures old(Valid()) ==> Valid()
    {
      var data := Data();
      var sessionsData := data.sessions;
      var found := FindSession(sessionsData, id);
      if found.None? {
        patched := None;
        return;
      }
      var k := found.value;
      var session := sessionsData[k];
      if |session.pages| > 0 {
        var n := |session.pages| - 1;
        var lastPage := session.pages[n];
        lastPage := lastPage.(timeOnPage := RoundDiv(now - lastPage.viewTime, 1000));
        session := session.(pages := session.pages[n := lastPage]);
      }
      if |session.pages| == 1 {
        session := session.(bounced := true);
      }
      patched := Some(session);
      assert session == Finalize(sessionsData[k], now);
      analytics := Some(data.(sessions := sessionsData[k := session]));
    }

    /** Forget everything: both storage slots are emptied. */
    method ClearAnalytics()
      modifies this
      ensures analytics == None && sessionId == None
      ensures Data() == EmptyRecord() && Valid()
    {
      analytics := None;
      sessionId := None;
    }

    /** The average session duration of the stored sessions, summed page by
        page. */
    method AverageSessionDuration() returns (r: string)
      ensures r == AverageDuration(Data().sessions)
    {
      var sessions := Data().sessions;
      if |sessions| == 0 {
        r := "0s";
        return;
      }
      var totalTime := 0;
      var i := 0;
      while i < |sessions|
        invariant i <= |sessions|
        invariant totalTime == TotalTime(sessions[..i])
      {
        var pages := sessions[i].pages;
        var j := 0;
        while j < |pages|
          invariant j <= |pages|
          invariant totalTime == TotalTime(sessions[..i]) + PagesTime(pages[..j])
        {
          assert pages[..j + 1][..j] == pages[..j];
          if pages[j].timeOnPage != 0 {
            totalTime := totalTime + pages[j].timeOnPage;
          }
          j := j + 1;
        }
        assert pages[..j] == pages;
        assert sessions[..i + 1][..i] == sessions[..i];
        i := i + 1;
      }
      assert sessions[..i] == sessions;
      r := FormatSeconds(RoundDiv(totalTime, |sessions|));
    }

    /** The number of stored sessions per device class; the three counts
        cover every session. */
    method DeviceBreakdown() returns (devices: map<Device, nat>)
      ensures devices.Keys == {Desktop, Mobile, Tablet}
      ensures forall d :: d in devices ==> devices[d] == CountDevice(Data().sessions, d)
      ensures SumValues(devices) == |Data().sessions|
    {
      var sessions := Data().sessions;
      devices := CountDevices(sessions);
      DeviceBreakdownTotal(devices, sessions);
    }

    /** The number of stored sessions per traffic source; only sources that
        occur are keys, and the counts cover every session. */
    method TrafficSources() returns (sources: map<Source, nat>)
      ensures forall src :: src in sources <==> CountSource(Data().sessions, src) > 0
      ensures forall src :: src in sources ==> sources[src] == CountSource(Data().sessions, src)
      ensures SumValues(sources) == |Data().sessions|
    {
      var sessions := Data().sessions;
      sources := CountSources(sessions);
      SourceBreakdownTotal(sources, sessions);
    }
  }

  /** The steps of `trackPageView` on the record it read: push the page
      onto the tab's session (found or added), add a view to the page's
      counter (created when missing), then recompute both totals from the
      sessions. */
  method RecordPageView(data: Record, id: string, path: string, now: int, width: int, documentReferrer: string)
    returns (updated: Record)
    ensures updated == PageView(data, id, path, now, width, documentReferrer)
    ensures Consistent(data) ==> Consistent(updated)
  {
    var sessions := PushPage(data.sessions, id, path, now, width, documentReferrer);
    var pageStats := CountPageView(data.pageStats, PageName(path), path);
    var uniqueVisitors := |SessionIds(sessions)|;
    var totalPageViews := SumPageCounts(sessions);
    updated := data.(totalVisitors := uniqueVisitors, pageViews := totalPageViews,
                     pageStats := pageStats, sessions := sessions);
    PageViewFields(data, id, path, now, width, documentReferrer, updated);
  }

  /** The session part of `trackPageView`: find the session with
      identifier `id`, adding a new one (no pages, not bounced, device and
      referrer of this page load) at the end when there is none, then push
      the page onto it. */
  method PushPage(ss: seq<Session>, id: string, path: string, now: int, width: int, documentReferrer: string)
    returns (sessions: seq<Session>)
    ensures sessions == AddPageView(ss, id, path, now, width, documentReferrer)
  {
    sessions := ss;
    var found := FindSession(sessions, id);
    var k: nat;
    if found.None? {
      var currentSession := Session(id, now, [], DeviceType(width), StoredReferrer(documentReferrer), false);
      sessions := sessions + [currentSession];
      k := |sessions| - 1;
    } else {
      k := found.value;
    }
    var currentSession := sessions[k];
    sessions := sessions[k := currentSession.(pages := currentSession.pages + [Page(path, now, 0)])];
  }

  /** The page-counter part of `trackPageView`: create the counter of
      `pageName` with no views, no time and this path when missing, then add
      one view to it. */
  method CountPageView(stats: map<string, PageStat>, pageName: string, path: string)
    returns (pageStats: map<string, PageStat>)
    ensures pageStats == CountView(stats, pageName, path)
  {
    pageStats := stats;
    if pageName !in pageStats {
      pageStats := pageStats[pageName := PageStat(path, 0, 0)];
    }
    pageStats := pageStats[pageName := pageStats[pageName].(views := pageStats[pageName].views + 1)];
  }

  /** The `reduce` that adds up the page-list lengths of the sessions. */
  method SumPageCounts(sessions: seq<Session>) returns (total: nat)
    ensures total == TotalPages(sessions)
  {
    total := 0;
    var i := 0;
    while i < |sessions|
      invariant i <= |sessions|
      invariant total == TotalPages(sessions[..i])
    {
      assert sessions[..i + 1][..i] == sessions[..i];
      total := total + |sessions[i].pages|;
      i := i + 1;
    }
    assert sessions[..i] == sessions;
  }

  /** The `forEach` loop of the device breakdown over `sessions`. */
  method CountDevices(sessions: seq<Session>) returns (devices: map<Device, nat>)
    ensures devices.Keys == {Desktop, Mobile, Tablet}
    ensures forall d :: d in devices ==> devices[d] == CountDevice(sessions, d)
  {
    devices := map[Desktop := 0, Mobile := 0, Tablet := 0];
    var i := 0;
    while i < |sessions|
      invariant i <= |sessions|
      invariant devices.Keys == {Desktop, Mobile, Tablet}
      invariant forall d :: d in devices ==> devices[d] == CountDevice(sessions[..i], d)
    {
      assert sessions[..i + 1][..i] == sessions[..i];
      var device := sessions[i].device;
      assert device in devices by {
        assert device == Desktop || device == Mobile || device == Tablet;
      }
      devices := devices[device := devices[device] + 1];
      i := i + 1;
    }
    assert sessions[..i] == sessions;
  }

  /** The `forEach` loop of the traffic breakdown over `sessions`. */
  method CountSources(sessions: seq<Session>) returns (sources: map<Source, nat>)
    ensures forall src :: ValueAt(sources, src) == CountSource(sessions, src)
    ensures forall src :: src in sources ==> sources[src] > 0
  {
    sources := map[];
    var i := 0;
    while i < |sessions|
      invariant i <= |sessions|
      invariant forall src :: ValueAt(sources, src) == CountSource(sessions[..i], src)
      invariant forall src :: src in sources ==> sources[src] > 0
    {
      var src := TrafficSource(sessions[i].referrer);
      CountSourceStep(sessions, i);
      ghost var before := sources;
      sources := sources[src := ValueAt(sources, src) + 1];
      assert forall other ::
        ValueAt(sources, other) == ValueAt(before, other) + (if src == other then 1 else 0);
      i := i + 1;
    }
    assert sessions[..i] == sessions;
  }
}
