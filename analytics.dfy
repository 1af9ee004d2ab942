/** The browser-side visitor aggregator: the stored record of sessions and
    per-page counters, the page-view update, the unload backfill and the
    derived summaries (averages, rates, device and traffic breakdowns,
    formatted numbers), all as values. The storage the browser keeps them in
    is the `Tracker` class of module AnalyticsTracker. */
module Analytics {
  import opened Wrappers
  import opened Strings
  import opened Sums

  // ----- Device and traffic classification -----

  datatype Device = Desktop | Mobile | Tablet

  /** The three keys of the device breakdown. */
  const AllDevices: seq<Device> := [Desktop, Mobile, Tablet]

  /** The device class of a viewport width: up to 768 pixels is a phone, up to
      1024 a tablet, anything wider a desktop. */
  function DeviceType(width: int): (d: Device)
    ensures d == Mobile <==> width <= 768
    ensures d == Tablet <==> 768 < width <= 1024
    ensures d == Desktop <==> 1024 < width
  {
    if width <= 768 then Mobile
    else if width <= 1024 then Tablet
    else Desktop
  }

  /** The referrer a new session stores: the document's referrer, or the
      marker "direct" when the browser reports none. */
  function StoredReferrer(documentReferrer: string): (r: string)
    ensures r != []
    ensures documentReferrer == [] ==> r == "direct"
    ensures documentReferrer != [] ==> r == documentReferrer
  {
    if documentReferrer == [] then "direct" else documentReferrer
  }

  datatype Source = GoogleSearch | LinkedIn | GitHub | DirectTraffic | ReferralLinks

  /** Every traffic source, each once. */
  const AllSources: seq<Source> := [GoogleSearch, LinkedIn, GitHub, DirectTraffic, ReferralLinks]

  /** The traffic source of a stored referrer: the first of "google",
      "linkedin", "github" it contains, else direct traffic for exactly the
      marker "direct", else a referral link. */
  function TrafficSource(referrer: string): (src: Source)
    ensures src == GoogleSearch <==> Includes(referrer, "google")
    ensures src == LinkedIn <==> !Includes(referrer, "google") && Includes(referrer, "linkedin")
    ensures src == GitHub <==>
      !Includes(referrer, "google") && !Includes(referrer, "linkedin") && Includes(referrer, "github")
    ensures src == DirectTraffic <==>
      !Includes(referrer, "google") && !Includes(referrer, "linkedin") && !Includes(referrer, "github") &&
      referrer == "direct"
  {
    if Includes(referrer, "google") then GoogleSearch
    else if Includes(referrer, "linkedin") then LinkedIn
    else if Includes(referrer, "github") then GitHub
    else if referrer == "direct" then DirectTraffic
    else ReferralLinks
  }

  /** A session opened without a referrer is counted as direct traffic. */
  lemma NoReferrerIsDirect()
    ensures TrafficSource(StoredReferrer([])) == DirectTraffic
  {
    var d := StoredReferrer([]);
    assert d == "direct";
    assert !Includes(d, "google") && !Includes(d, "linkedin") && !Includes(d, "github") by {
      ShortPattern(d, "google");
      ShortPattern(d, "linkedin");
      ShortPattern(d, "github");
    }
  }

  /** A pattern at least as long as the text, and different from it, occurs
      nowhere in it. */
  lemma ShortPattern(s: string, pat: string)
    requires |s| <= |pat| && s != pat
    ensures !Includes(s, pat)
  {
  }

  // ----- Page names -----

  /** The display name of a page path: the text after the last "/" (or
      "home" when that is empty), without its first ".html", with the first
      character upper-cased. */
  function PageName(path: string): (name: string)
    ensures LastPiece(path, '/') == [] ==> name == "Home"
    ensures '/' !in name
  {
    var segment := LastPiece(path, '/');
    LastPieceIsSuffix(path, '/');
    var base := if segment == [] then "home" else segment;
    assert IndexOf("home", ".html").None? by {
      ShortPattern("home", ".html");
    }
    Capitalize(RemoveFirst(base, ".html"))
  }

  /** The page after the last "/" of a path is named after that segment,
      with its first ".html" (wherever it occurs) removed and its first
      character upper-cased. */
  lemma PageNameOfSegment(dir: string, seg: string)
    requires seg != [] && '/' !in seg
    ensures PageName(dir + "/" + seg) == Capitalize(RemoveFirst(seg, ".html"))
  {
    SplitAround(dir, seg, '/');
    SplitNoSeparator(seg, '/');
    assert dir + "/" + seg == dir + ['/'] + seg;
    assert LastPiece(dir + "/" + seg, '/') == seg;
  }

  /** The page of an HTML file is named after the file without its
      extension, and so is the same file addressed without the extension. */
  lemma PageNameOfFile(dir: string, base: string)
    requires base != [] && '/' !in base && !Includes(base, ".html")
    ensures PageName(dir + "/" + base + ".html") == Capitalize(base)
    ensures PageName(dir + "/" + base) == Capitalize(base)
  {
    var file := base + ".html";
    assert '/' !in file;
    assert dir + "/" + base + ".html" == dir + "/" + file;
    PageNameOfSegment(dir, file);
    PageNameOfSegment(dir, base);
    ExtensionFoundAtEnd(base);
  }

  /** In `base + ".html"`, when `base` has no ".html" of its own, the first
      ".html" is the appended one. */
  lemma ExtensionFoundAtEnd(base: string)
    requires !Includes(base, ".html")
    ensures IndexOf(base + ".html", ".html") == Some(|base|)
    ensures RemoveFirst(base + ".html", ".html") == base
  {
    var s, pat := base + ".html", ".html";
    assert OccursAt(s, pat, |base|) by {
      assert s[|base|..|base| + 5] == pat;
    }
    forall j | 0 <= j < |base|
      ensures !OccursAt(s, pat, j)
    {
      if j + 5 <= |base| {
        assert s[j..j + 5] == base[j..j + 5];
        assert !OccursAt(base, pat, j);
      } else {
        var k := |base| - j;
        assert s[j + k] == '.';
        assert pat[k] != '.';
      }
    }
    assert s[..|base|] == base;
    assert s[|base| + 5..] == [];
  }

  /** The root page is "Home". */
  lemma RootPageName()
    ensures PageName("/") == "Home"
  {
    assert Split("/", '/') == [[]] + Split([], '/');
  }

  lemma AboutPageName(path: string)
    requires path == "/about.html"
    ensures PageName(path) == "About"
  {
    var dir, base := path[..0], path[1..6];
    AboutBase(base);
    assert path == dir + "/" + base + ".html";
    PageNameOfFile(dir, base);
  }

  /** Only the first ".html" goes, wherever it is: "/old.html.bak" is
      named "Old.bak". */
  lemma InnerExtensionPageName(path: string)
    requires path == "/old.html.bak"
    ensures PageName(path) == "Old.bak"
  {
    var seg := path[1..];
    assert path == [] + "/" + seg;
    InnerExtensionRemoved(seg);
    PageNameOfSegment([], seg);
    assert ToUpper('o') == 'O';
  }

  lemma InnerExtensionRemoved(seg: string)
    requires seg == "old.html.bak"
    ensures '/' !in seg
    ensures RemoveFirst(seg, ".html") == "old.bak"
  {
    var pat := ".html";
    assert seg[0] == 'o' && seg[1] == 'l' && seg[2] == 'd';
    assert !OccursAt(seg, pat, 0) by { assert seg[0..5][0] == seg[0]; }
    assert !OccursAt(seg, pat, 1) by { assert seg[1..6][0] == seg[1]; }
    assert !OccursAt(seg, pat, 2) by { assert seg[2..7][0] == seg[2]; }
    assert OccursAt(seg, pat, 3) by { assert seg[3..8] == pat; }
    assert IndexOf(seg, pat) == Some(3);
    assert seg[..3] == "old" && seg[8..] == ".bak";
  }

  lemma AboutBase(base: string)
    requires base == "about"
    ensures '/' !in base && !Includes(base, ".html")
    ensures Capitalize(base) == "About"
  {
    ShortPattern(base, ".html");
    assert ToUpper(base[0]) == 'A';
  }

  // ----- The stored record -----

  /** One page view within a session; `timeOnPage` is in whole seconds and is
      filled in when the tab is closed. */
  datatype Page = Page(path: string, viewTime: int, timeOnPage: int)

  datatype Session = Session(
    sessionId: string,
    startTime: int,
    pages: seq<Page>,
    device: Device,
    referrer: string,
    bounced: bool)

  /** The per-page counter, keyed by page name. */
  datatype PageStat = PageStat(path: string, views: nat, totalTime: int)

  datatype Record = Record(
    totalVisitors: nat,
    pageViews: nat,
    pageStats: map<string, PageStat>,
    sessions: seq<Session>)

  /** The record used when nothing is stored yet. */
  function EmptyRecord(): (r: Record)
    ensures r.sessions == [] && r.pageStats == map[] && r.totalVisitors == 0 && r.pageViews == 0
    ensures Consistent(r)
  {
    Record(0, 0, map[], [])
  }

  /** The index of the first session with identifier `id`, if any (the
      array's `find`). */
  function FindSession(ss: seq<Session>, id: string): (k: Option<nat>)
    ensures k.Some? ==> k.value < |ss| && ss[k.value].sessionId == id
    ensures k.Some? ==> forall j :: 0 <= j < k.value ==> ss[j].sessionId != id
    ensures k.None? <==> forall j :: 0 <= j < |ss| ==> ss[j].sessionId != id
  {
    if ss == [] then None
    else if ss[0].sessionId == id then Some(0)
    else
      match FindSession(ss[1..], id)
      case None => None
      case Some(k) => Some(k + 1)
  }

  /** The number of page views recorded over all sessions. */
  function TotalPages(ss: seq<Session>): nat {
    if ss == [] then 0 else TotalPages(ss[..|ss| - 1]) + |ss[|ss| - 1].pages|
  }

  lemma {:induction false} TotalPagesAppend(ss: seq<Session>, s: Session)
    ensures TotalPages(ss + [s]) == TotalPages(ss) + |s.pages|
  {
    assert (ss + [s])[..|ss|] == ss;
  }

  /** Replacing one session changes the page count by the difference. */
  lemma {:induction false} TotalPagesUpdate(ss: seq<Session>, k: nat, s: Session)
    requires k < |ss|
    ensures TotalPages(ss[k := s]) + |ss[k].pages| == TotalPages(ss) + |s.pages|
  {
    var n := |ss| - 1;
    var ss' := ss[k := s];
    if k < n {
      TotalPagesUpdate(ss[..n], k, s);
      assert ss'[..n] == ss[..n][k := s];
    } else {
      assert ss'[..n] == ss[..n];
    }
  }

  /** The set of stored session identifiers. */
  function SessionIds(ss: seq<Session>): set<string> {
    set i | 0 <= i < |ss| :: ss[i].sessionId
  }

  /** No two stored sessions share an identifier. */
  predicate DistinctIds(ss: seq<Session>) {
    forall i, j :: 0 <= i < j < |ss| ==> ss[i].sessionId != ss[j].sessionId
  }

  /** With distinct identifiers, counting identifiers counts sessions. */
  lemma {:induction false} DistinctIdsCount(ss: seq<Session>)
    requires DistinctIds(ss)
    ensures |SessionIds(ss)| == |ss|
  {
    if ss != [] {
      var n := |ss| - 1;
      var p := ss[..n];
      assert DistinctIds(p);
      DistinctIdsCount(p);
      SessionIdsSnoc(ss);
      LastIdIsNew(ss);
    }
  }

  lemma SessionIdsSnoc(ss: seq<Session>)
    requires ss != []
    ensures SessionIds(ss) == SessionIds(ss[..|ss| - 1]) + {ss[|ss| - 1].sessionId}
  {
    var n := |ss| - 1;
    var p := ss[..n];
    forall x | x in SessionIds(ss) ensures x in SessionIds(p) + {ss[n].sessionId} {
      var i :| 0 <= i < |ss| && ss[i].sessionId == x;
      if i < n { assert p[i] == ss[i]; }
    }
    forall x | x in SessionIds(p) ensures x in SessionIds(ss) {
      var i :| 0 <= i < |p| && p[i].sessionId == x;
      assert ss[i] == p[i];
    }
  }

  lemma LastIdIsNew(ss: seq<Session>)
    requires ss != [] && DistinctIds(ss)
    ensures ss[|ss| - 1].sessionId !in SessionIds(ss[..|ss| - 1])
  {
    var n := |ss| - 1;
    var p := ss[..n];
    forall i | 0 <= i < |p| ensures p[i].sessionId != ss[n].sessionId {
      assert p[i] == ss[i];
    }
  }

  /** Per-page view counts, without the other fields of the counters. */
  function Views(stats: map<string, PageStat>): map<string, nat> {
    map name | name in stats :: stats[name].views
  }

  /** The bookkeeping the stored record keeps: identifiers are distinct,
      `totalVisitors` counts the sessions, `pageViews` counts their pages, and
      the per-page counters add up to `pageViews`. */
  ghost predicate Consistent(r: Record) {
    && DistinctIds(r.sessions)
    && r.totalVisitors == |r.sessions|
    && r.pageViews == TotalPages(r.sessions)
    && SumValues(Views(r.pageStats)) == r.pageViews
  }

  // ----- Recording a page view -----

  /** The sessions after a page view of `path` at time `now` in session
      `id`: the session is looked up, created (with no pages, not bounced,
      with the device of `width` and the stored referrer) when there is none,
      and given one more page; every other session is left as it was. */
  function AddPageView(ss: seq<Session>, id: string, path: string, now: int, width: int, documentReferrer: string)
    : (ss': seq<Session>)
    ensures FindSession(ss, id).None? ==>
      ss' == ss + [Session(id, now, [Page(path, now, 0)], DeviceType(width), StoredReferrer(documentReferrer), false)]
    ensures FindSession(ss, id).Some? ==>
      var k := FindSession(ss, id).value;
      && |ss'| == |ss|
      && ss'[k] == ss[k].(pages := ss[k].pages + [Page(path, now, 0)])
      && forall j :: 0 <= j < |ss| && j != k ==> ss'[j] == ss[j]
    ensures FindSession(ss', id).Some?
    ensures TotalPages(ss') == TotalPages(ss) + 1
    ensures DistinctIds(ss) ==> DistinctIds(ss')
  {
    var found := FindSession(ss, id);
    var withSession :=
      if found.Some? then ss
      else ss + [Session(id, now, [], DeviceType(width), StoredReferrer(documentReferrer), false)];
    var k := if found.Some? then found.value else |ss|;
    var session := withSession[k];
    var ss' := withSession[k := session.(pages := session.pages + [Page(path, now, 0)])];
    assert ss'[k].sessionId == id;
    assert TotalPages(ss') == TotalPages(ss) + 1 by {
      TotalPagesAppend(ss, withSession[|withSession| - 1]);
      TotalPagesUpdate(withSession, k, ss'[k]);
    }
    assert found.None? ==> ss'[k].pages == [Page(path, now, 0)];
    assert DistinctIds(ss) ==> DistinctIds(ss') by {
      if DistinctIds(ss) {
        forall i, j | 0 <= i < j < |ss'| ensures ss'[i].sessionId != ss'[j].sessionId {
          assert ss'[i].sessionId == withSession[i].sessionId;
          assert ss'[j].sessionId == withSession[j].sessionId;
        }
      }
    }
    ss'
  }

  /** The per-page counters after a view of page `name` (at `path`): the
      entry gains one view, being created first with no views, no time and
      this path when missing; every other entry is left as it was. */
  function CountView(stats: map<string, PageStat>, name: string, path: string): (stats': map<string, PageStat>)
    ensures stats'.Keys == stats.Keys + {name}
    ensures stats'[name].views == (if name in stats then stats[name].views else 0) + 1
    ensures stats'[name].path == (if name in stats then stats[name].path else path)
    ensures stats'[name].totalTime == (if name in stats then stats[name].totalTime else 0)
    ensures forall other :: other in stats && other != name ==> stats'[other] == stats[other]
    ensures SumValues(Views(stats')) == SumValues(Views(stats)) + 1
  {
    var stat := if name in stats then stats[name] else PageStat(path, 0, 0);
    var stats' := stats[name := stat.(views := stat.views + 1)];
    assert Views(stats') == Views(stats)[name := stat.views + 1];
    SumValuesUpdate(Views(stats), name, stat.views + 1);
    stats'
  }

  /** The record after a page view: the session gets the page, the page's
      counter a view, and both totals are recomputed from the sessions, so
      that `totalVisitors` counts the distinct identifiers and `pageViews`
      grows by one. */
  function PageView(r: Record, id: string, path: string, now: int, width: int, documentReferrer: string): (r': Record)
    ensures r'.totalVisitors == |SessionIds(r'.sessions)|
    ensures r'.pageViews == TotalPages(r.sessions) + 1 == TotalPages(r'.sessions)
    ensures FindSession(r'.sessions, id).Some?
    ensures DistinctIds(r.sessions) ==> DistinctIds(r'.sessions) && r'.totalVisitors == |r'.sessions|
    ensures SumValues(Views(r'.pageStats)) == SumValues(Views(r.pageStats)) + 1
  {
    var sessions := AddPageView(r.sessions, id, path, now, width, documentReferrer);
    assert DistinctIds(r.sessions) ==> |SessionIds(sessions)| == |sessions| by {
      if DistinctIds(r.sessions) { DistinctIdsCount(sessions); }
    }
    Record(
      |SessionIds(sessions)|,
      TotalPages(sessions),
      CountView(r.pageStats, PageName(path), path),
      sessions)
  }

  /** A record whose fields are recomputed as a page view recomputes them
      is the page view's record, and is consistent when the one read was. */
  lemma PageViewFields(r: Record, id: string, path: string, now: int, width: int, documentReferrer: string,
                       updated: Record)
    requires updated.sessions == AddPageView(r.sessions, id, path, now, width, documentReferrer)
    requires updated.pageStats == CountView(r.pageStats, PageName(path), path)
    requires updated.totalVisitors == |SessionIds(updated.sessions)|
    requires updated.pageViews == TotalPages(updated.sessions)
    ensures updated == PageView(r, id, path, now, width, documentReferrer)
    ensures Consistent(r) ==> Consistent(updated)
  {
    if Consistent(r) {
      PageViewConsistent(r, id, path, now, width, documentReferrer);
    }
  }

  /** Recording a page view keeps the stored record consistent. */
  lemma PageViewConsistent(r: Record, id: string, path: string, now: int, width: int, documentReferrer: string)
    requires Consistent(r)
    ensures Consistent(PageView(r, id, path, now, width, documentReferrer))
  {
  }

  /** The inputs of one page load. */
  datatype PageLoad = PageLoad(path: string, now: int, width: int, documentReferrer: string)

  /** The record after the given page loads, in order, all in session `id`. */
  function PageViews(r: Record, id: string, loads: seq<PageLoad>): Record {
    if loads == [] then r
    else
      var l := loads[|loads| - 1];
      PageView(PageViews(r, id, loads[..|loads| - 1]), id, l.path, l.now, l.width, l.documentReferrer)
  }

  /** N page loads in one session, starting from a store without sessions
      (the default record, say), leave one session with N pages: one visitor
      and N page views. */
  lemma {:induction false} OneSessionViews(r: Record, id: string, loads: seq<PageLoad>)
    requires Consistent(r) && r.sessions == []
    requires |loads| > 0
    ensures var r' := PageViews(r, id, loads);
      && Consistent(r')
      && |r'.sessions| == 1 && r'.sessions[0].sessionId == id && |r'.sessions[0].pages| == |loads|
      && r'.totalVisitors == 1 && r'.pageViews == |loads|
  {
    var n := |loads| - 1;
    var l := loads[n];
    var prev := PageViews(r, id, loads[..n]);
    if n == 0 {
      assert prev == r;
    } else {
      OneSessionViews(r, id, loads[..n]);
    }
    PageViewInOneSession(prev, id, l);
    PageViewConsistent(prev, id, l.path, l.now, l.width, l.documentReferrer);
  }

  /** A page view in the only session, or into a store without sessions,
      leaves one session with one more page. */
  lemma PageViewInOneSession(r: Record, id: string, l: PageLoad)
    requires |r.sessions| == 0 || (|r.sessions| == 1 && r.sessions[0].sessionId == id)
    ensures var ss := PageView(r, id, l.path, l.now, l.width, l.documentReferrer).sessions;
      && |ss| == 1 && ss[0].sessionId == id
      && |ss[0].pages| == (if r.sessions == [] then 0 else |r.sessions[0].pages|) + 1
  {
    var ss := AddPageView(r.sessions, id, l.path, l.now, l.width, l.documentReferrer);
    assert PageView(r, id, l.path, l.now, l.width, l.documentReferrer).sessions == ss;
    if r.sessions == [] {
      assert FindSession(r.sessions, id).None?;
    } else {
      assert FindSession(r.sessions, id) == Some(0);
    }
  }

  // ----- Closing the tab -----

  /** Math.round(a / b) for a positive divisor: the nearest integer, halves
      rounded up. */
  function RoundDiv(a: int, b: int): (q: int)
    requires b > 0
    ensures 2 * b * q - b <= 2 * a < 2 * b * q + b
    ensures a >= 0 ==> q >= 0
  {
    (2 * a + b) / (2 * b)
  }

  /** The session as the unload handler patches it: the last page's time on
      page becomes the elapsed milliseconds rounded to whole seconds, and a
      session of exactly one page is marked bounced (a mark never removed). */
  function Finalize(s: Session, now: int): (f: Session)
    ensures f.sessionId == s.sessionId && f.startTime == s.startTime
    ensures f.device == s.device && f.referrer == s.referrer
    ensures |f.pages| == |s.pages|
    ensures forall i :: 0 <= i < |s.pages| - 1 ==> f.pages[i] == s.pages[i]
    ensures |s.pages| > 0 ==>
      var last, last' := s.pages[|s.pages| - 1], f.pages[|s.pages| - 1];
      && last'.path == last.path && last'.viewTime == last.viewTime
      && 2000 * last'.timeOnPage - 1000 <= 2 * (now - last.viewTime) < 2000 * last'.timeOnPage + 1000
    ensures f.bounced <==> s.bounced || |s.pages| == 1
  {
    var pages :=
      if |s.pages| > 0 then
        var n := |s.pages| - 1;
        s.pages[n := s.pages[n].(timeOnPage := RoundDiv(now - s.pages[n].viewTime, 1000))]
      else s.pages;
    s.(pages := pages, bounced := if |s.pages| == 1 then true else s.bounced)
  }

  // ----- Summaries -----

  /** The summed time on page of one session's pages, in seconds. */
  function PagesTime(ps: seq<Page>): int {
    if ps == [] then 0 else PagesTime(ps[..|ps| - 1]) + ps[|ps| - 1].timeOnPage
  }

  /** The summed time on page over all sessions, in seconds. */
  function TotalTime(ss: seq<Session>): int {
    if ss == [] then 0 else TotalTime(ss[..|ss| - 1]) + PagesTime(ss[|ss| - 1].pages)
  }

  /** The number of sessions marked bounced. */
  function BouncedCount(ss: seq<Session>): (b: nat)
    ensures b <= |ss|
  {
    if ss == [] then 0 else BouncedCount(ss[..|ss| - 1]) + (if ss[|ss| - 1].bounced then 1 else 0)
  }

  /** The bounce rate as shown: "0%" without sessions, otherwise the share of
      bounced sessions in percent, rounded to the nearest integer. */
  function BounceRate(ss: seq<Session>): (r: string)
    ensures |ss| == 0 ==> r == "0%"
    ensures |r| >= 2 && r[|r| - 1] == '%' && IsDecimal(r[..|r| - 1])
    ensures |ss| > 0 ==>
      var p, n := DecimalValue(r[..|r| - 1]), |ss|;
      && p <= 100
      && 2 * n * p - n <= 200 * BouncedCount(ss) < 2 * n * p + n
  {
    if |ss| == 0 then "0%"
    else
      var n, b := |ss|, BouncedCount(ss);
      var p := RoundDiv(100 * b, n);
      RoundDivAtMost(100 * b, n, 100);
      var r := NatToString(p) + "%";
      assert r[..|r| - 1] == NatToString(p);
      r
  }

  /** Rounding a quotient of at most `m` gives at most `m`. */
  lemma RoundDivAtMost(a: int, n: int, m: int)
    requires n > 0 && a <= m * n
    ensures RoundDiv(a, n) <= m
  {
    var q := RoundDiv(a, n);
    assert n * (2 * (q - m) - 1) <= 0;
    NonPositiveFactor(n, 2 * (q - m) - 1);
  }

  lemma NonPositiveFactor(n: int, x: int)
    requires n > 0 && n * x <= 0
    ensures x <= 0
  {
  }

  /** A number of seconds as shown: "Ns" under a minute, otherwise whole
      minutes and the remaining seconds, "Mm Ss". */
  function FormatSeconds(seconds: int): (r: string)
    ensures seconds < 60 ==> r == IntToString(seconds) + "s"
    ensures seconds >= 60 ==>
      exists m: nat, s: nat :: s < 60 && m * 60 + s == seconds && r == NatToString(m) + "m " + NatToString(s) + "s"
  {
    if seconds < 60 then IntToString(seconds) + "s"
    else NatToString(seconds / 60) + "m " + NatToString(seconds % 60) + "s"
  }

  /** The average session duration as shown: "0s" without sessions, otherwise
      the summed time on page divided by the number of sessions, rounded to
      whole seconds and formatted. */
  function AverageDuration(ss: seq<Session>): (r: string)
    ensures |ss| == 0 ==> r == "0s"
    ensures |ss| > 0 ==> exists q: int ::
      2 * |ss| * q - |ss| <= 2 * TotalTime(ss) < 2 * |ss| * q + |ss| && r == FormatSeconds(q)
  {
    if |ss| == 0 then "0s" else FormatSeconds(RoundDiv(TotalTime(ss), |ss|))
  }

  /** The number of sessions from the given device class. */
  function CountDevice(ss: seq<Session>, d: Device): nat {
    if ss == [] then 0 else CountDevice(ss[..|ss| - 1], d) + (if ss[|ss| - 1].device == d then 1 else 0)
  }

  /** Every session falls in exactly one device class. */
  lemma {:induction false} DeviceCountsTotal(ss: seq<Session>)
    ensures CountDevice(ss, Desktop) + CountDevice(ss, Mobile) + CountDevice(ss, Tablet) == |ss|
  {
    if ss != [] {
      DeviceCountsTotal(ss[..|ss| - 1]);
    }
  }

  /** The number of sessions from the given traffic source. */
  function CountSource(ss: seq<Session>, src: Source): nat {
    if ss == [] then 0
    else CountSource(ss[..|ss| - 1], src) + (if TrafficSource(ss[|ss| - 1].referrer) == src then 1 else 0)
  }

  /** Counting one more session counts its source once more. */
  lemma CountSourceStep(ss: seq<Session>, i: nat)
    requires i < |ss|
    ensures forall src ::
      CountSource(ss[..i + 1], src) == CountSource(ss[..i], src) + (if TrafficSource(ss[i].referrer) == src then 1 else 0)
  {
    assert ss[..i + 1][..i] == ss[..i];
  }

  /** Every session falls in exactly one traffic source. */
  lemma {:induction false} SourceCountsTotal(ss: seq<Session>)
    ensures CountSource(ss, GoogleSearch) + CountSource(ss, LinkedIn) + CountSource(ss, GitHub)
      + CountSource(ss, DirectTraffic) + CountSource(ss, ReferralLinks) == |ss|
  {
    if ss != [] {
      SourceCountsTotal(ss[..|ss| - 1]);
    }
  }

  /** A device breakdown that holds the count of every class adds up to the
      number of sessions. */
  lemma DeviceBreakdownTotal(devices: map<Device, nat>, ss: seq<Session>)
    requires devices.Keys == {Desktop, Mobile, Tablet}
    requires forall d :: d in devices ==> devices[d] == CountDevice(ss, d)
    ensures SumValues(devices) == |ss|
  {
    DeviceCountsTotal(ss);
    assert forall k :: k in devices ==> k in AllDevices;
    SumValuesByKeys(devices, AllDevices);
    SumAtThree(devices, AllDevices, Desktop, Mobile, Tablet);
  }

  /** A traffic breakdown that holds the count of every source, a missing
      source standing for no sessions, adds up to the number of sessions. */
  lemma SourceBreakdownTotal(sources: map<Source, nat>, ss: seq<Session>)
    requires forall src :: ValueAt(sources, src) == CountSource(ss, src)
    ensures SumValues(sources) == |ss|
  {
    SourceCountsTotal(ss);
    AllSourcesListed();
    SumValuesByKeys(sources, AllSources);
    SumAtFive(sources, AllSources, GoogleSearch, LinkedIn, GitHub, DirectTraffic, ReferralLinks);
  }

  /** Every source is listed in `AllSources`, once. */
  lemma AllSourcesListed()
    ensures Distinct(AllSources)
    ensures forall src :: src in AllSources
  {
    var ks := AllSources;
    forall src ensures src in ks {
      assert src == ks[0] || src == ks[1] || src == ks[2] || src == ks[3] || src == ks[4];
    }
  }

  // ----- Number formatting -----

  /** `r` is `digits` in comma-separated groups: removing the commas gives
      back the digits, the first group has one to three digits and every later
      group exactly three. */
  predicate Grouped(r: string, digits: string) {
    var groups := Split(r, ',');
    && Concat(groups) == digits
    && 1 <= |groups[0]| <= 3
    && (forall i :: 1 <= i < |groups| ==> |groups[i]| == 3)
    && (forall i :: 0 <= i < |groups| ==> AllDigits(groups[i]))
  }

  /** A digit string with a comma before every third digit from the right. */
  function GroupThousands(digits: string): (r: string)
    requires |digits| > 0 && AllDigits(digits)
    ensures Grouped(r, digits)
    ensures |Split(r, ',')| == (|digits| + 2) / 3
  {
    if |digits| <= 3 then
      SplitNoSeparator(digits, ',');
      digits
    else
      var n := |digits| - 3;
      var head, tail := digits[..n], digits[n..];
      var g := GroupThousands(head);
      GroupedAppend(g, head, tail);
      assert head + tail == digits;
      g + [','] + tail
  }

  /** Appending a comma and three more digits to a grouping of `head` groups
      `head + tail`, with one more group. */
  lemma GroupedAppend(g: string, head: string, tail: string)
    requires Grouped(g, head)
    requires |tail| == 3 && AllDigits(tail)
    ensures Grouped(g + [','] + tail, head + tail)
    ensures |Split(g + [','] + tail, ',')| == |Split(g, ',')| + 1
  {
    var groups := Split(g, ',');
    SplitAround(g, tail, ',');
    SplitNoSeparator(tail, ',');
    var groups' := Split(g + [','] + tail, ',');
    assert groups' == groups + [tail];
    ConcatAppend(groups, tail);
    assert groups'[0] == groups[0];
  }

  /** The pieces written one after another. */
  function Concat(parts: seq<string>): string {
    if parts == [] then [] else Concat(parts[..|parts| - 1]) + parts[|parts| - 1]
  }

  lemma ConcatAppend(parts: seq<string>, last: string)
    ensures Concat(parts + [last]) == Concat(parts) + last
  {
    assert (parts + [last])[..|parts|] == parts;
  }

  /** A natural number with thousands separators: removing the commas gives
      back its decimal numeral; the first group has one to three digits and
      every later group exactly three. */
  function FormatNumber(num: nat): (r: string)
    ensures Grouped(r, NatToString(num))
  {
    GroupThousands(NatToString(num))
  }

  // ----- What the unload handler stores -----

  /** The unload handler as its comments intend it: store the patched
      session back in place of the one read. Without a stored session of that
      identifier nothing changes. */
  function FinalizeStored(r: Record, id: string, now: int): (r': Record)
    ensures FindSession(r.sessions, id).None? ==> r' == r
    ensures FindSession(r.sessions, id).Some? ==>
      var k := FindSession(r.sessions, id).value;
      && |r'.sessions| == |r.sessions|
      && r'.sessions[k] == Finalize(r.sessions[k], now)
      && forall j :: 0 <= j < |r.sessions| && j != k ==> r'.sessions[j] == r.sessions[j]
    ensures r'.pageStats == r.pageStats
    ensures Consistent(r) ==> Consistent(r')
  {
    match FindSession(r.sessions, id)
    case None => r
    case Some(k) =>
      var ss' := r.sessions[k := Finalize(r.sessions[k], now)];
      TotalPagesUpdate(r.sessions, k, ss'[k]);
      assert forall i :: 0 <= i < |ss'| ==> ss'[i].sessionId == r.sessions[i].sessionId;
      r.(sessions := ss')
  }

  /** No session is marked bounced and no page has a time on page. */
  predicate Unfinalized(ss: seq<Session>) {
    forall i :: 0 <= i < |ss| ==>
      !ss[i].bounced && forall j :: 0 <= j < |ss[i].pages| ==> ss[i].pages[j].timeOnPage == 0
  }

  /** Page views add only unbounced sessions and pages with no time on page. */
  lemma AddPageViewKeepsUnfinalized(ss: seq<Session>, id: string, path: string, now: int, width: int, documentReferrer: string)
    requires Unfinalized(ss)
    ensures Unfinalized(AddPageView(ss, id, path, now, width, documentReferrer))
  {
    var ss' := AddPageView(ss, id, path, now, width, documentReferrer);
    var found := FindSession(ss, id);
    forall i | 0 <= i < |ss'|
      ensures !ss'[i].bounced && forall j :: 0 <= j < |ss'[i].pages| ==> ss'[i].pages[j].timeOnPage == 0
    {
      if found.Some? && i == found.value {
        assert ss'[i].pages == ss[i].pages + [Page(path, now, 0)];
      } else if i < |ss| {
        assert ss'[i] == ss[i];
      }
    }
  }

  lemma PageViewKeepsUnfinalized(r: Record, id: string, path: string, now: int, width: int, documentReferrer: string)
    requires Unfinalized(r.sessions)
    ensures Unfinalized(PageView(r, id, path, now, width, documentReferrer).sessions)
  {
    AddPageViewKeepsUnfinalized(r.sessions, id, path, now, width, documentReferrer);
  }

  lemma {:induction false} UnfinalizedCounts(ss: seq<Session>)
    requires Unfinalized(ss)
    ensures BouncedCount(ss) == 0 && TotalTime(ss) == 0
  {
    if ss != [] {
      var n := |ss| - 1;
      assert Unfinalized(ss[..n]) by {
        forall i | 0 <= i < n ensures ss[..n][i] == ss[i] { }
      }
      UnfinalizedCounts(ss[..n]);
      UnfinalizedPages(ss[n].pages);
    }
  }

  lemma {:induction false} UnfinalizedPages(ps: seq<Page>)
    requires forall j :: 0 <= j < |ps| ==> ps[j].timeOnPage == 0
    ensures PagesTime(ps) == 0
  {
    if ps != [] {
      UnfinalizedPages(ps[..|ps| - 1]);
    }
  }

  /** With nothing finalized the summaries read "0%" and "0s", however many
      sessions there are. */
  lemma UnfinalizedRates(ss: seq<Session>)
    requires Unfinalized(ss)
    ensures BounceRate(ss) == "0%" && AverageDuration(ss) == "0s"
  {
    UnfinalizedCounts(ss);
    if |ss| > 0 {
      RoundDivZero(|ss|);
      assert NatToString(0) == "0";
    }
  }

  lemma RoundDivZero(n: int)
    requires n > 0
    ensures RoundDiv(0, n) == 0
  {
    RoundDivAtMost(0, n, 0);
  }

  /** What happens to the stored record, from page loads and tab closes. */
  datatype Event = Viewed(id: string, load: PageLoad) | Closed(id: string, now: int)

  /** The stored record after the events, the unload handler storing the
      re-read record as the source does (`intended` false) or the patched
      session as intended (`intended` true). */
  function Replay(r: Record, events: seq<Event>, intended: bool): Record {
    if events == [] then r
    else Apply(Replay(r, events[..|events| - 1], intended), events[|events| - 1], intended)
  }

  /** The stored record after one event. */
  function Apply(r: Record, e: Event, intended: bool): Record {
    match e
    case Viewed(id, l) => PageView(r, id, l.path, l.now, l.width, l.documentReferrer)
    case Closed(id, now) => if intended then FinalizeStored(r, id, now) else r
  }

  /** Either way the stored record stays consistent. */
  lemma {:induction false} ReplayConsistent(r: Record, events: seq<Event>, intended: bool)
    requires Consistent(r)
    ensures Consistent(Replay(r, events, intended))
  {
    if events != [] {
      var prev := Replay(r, events[..|events| - 1], intended);
      ReplayConsistent(r, events[..|events| - 1], intended);
      match events[|events| - 1]
      case Viewed(id, l) =>
        PageViewConsistent(prev, id, l.path, l.now, l.width, l.documentReferrer);
      case Closed(_, _) =>
    }
  }

  /** As written, the unload handler never changes the stored record, so
      from a store with nothing finalized (an empty one, say) no session is
      ever bounced and no page ever has a time on page: the bounce rate reads
      "0%" and the average duration "0s" whatever the visitors do. */
  lemma {:induction false} AsWrittenRatesStayZero(r: Record, events: seq<Event>)
    requires Unfinalized(r.sessions)
    ensures Unfinalized(Replay(r, events, false).sessions)
    ensures BounceRate(Replay(r, events, false).sessions) == "0%"
    ensures AverageDuration(Replay(r, events, false).sessions) == "0s"
  {
    if events != [] {
      var prev := Replay(r, events[..|events| - 1], false);
      AsWrittenRatesStayZero(r, events[..|events| - 1]);
      assert Replay(r, events, false) == Apply(prev, events[|events| - 1], false);
      match events[|events| - 1]
      case Viewed(id, l) =>
        PageViewKeepsUnfinalized(prev, id, l.path, l.now, l.width, l.documentReferrer);
      case Closed(_, _) =>
    }
    UnfinalizedRates(Replay(r, events, false).sessions);
  }

  /** The first page view into a store without sessions opens one session of
      one page. */
  lemma FirstPageView(r: Record, id: string, l: PageLoad)
    requires r.sessions == []
    ensures PageView(r, id, l.path, l.now, l.width, l.documentReferrer).sessions ==
      [Session(id, l.now, [Page(l.path, l.now, 0)], DeviceType(l.width), StoredReferrer(l.documentReferrer), false)]
  {
    assert FindSession(r.sessions, id).None?;
  }

  lemma HundredPercent()
    ensures NatToString(100) == "100"
  {
    assert DecimalValue("100") == 100 by {
      assert "100"[..2] == "10" && "10"[..1] == "1";
    }
    NatToStringOfValue("100");
  }

  /** A single bounced session of five seconds reads "100%" and "5s". */
  lemma OneBouncedSessionRates(ss: seq<Session>)
    requires |ss| == 1 && ss[0].bounced && |ss[0].pages| == 1 && ss[0].pages[0].timeOnPage == 5
    ensures BounceRate(ss) == "100%" && AverageDuration(ss) == "5s"
  {
    var f := ss[0];
    assert ss[..0] == [] && f.pages[..0] == [];
    assert BouncedCount(ss) == 1;
    assert PagesTime(f.pages) == 5;
    assert TotalTime(ss) == 5;
    assert RoundDiv(100, 1) == 100 && RoundDiv(5, 1) == 5;
    HundredPercent();
    assert NatToString(5) == "5";
  }

  /** Storing the patched session after one page view of five seconds
      leaves one bounced session of five seconds. */
  lemma ViewThenClose(r: Record, id: string, load: PageLoad, closedAt: int)
    requires r.sessions == []
    requires closedAt == load.now + 5000
    ensures var ss := FinalizeStored(PageView(r, id, load.path, load.now, load.width, load.documentReferrer), id, closedAt).sessions;
      |ss| == 1 && ss[0].bounced && |ss[0].pages| == 1 && ss[0].pages[0].timeOnPage == 5
  {
    var viewed := PageView(r, id, load.path, load.now, load.width, load.documentReferrer);
    FirstPageView(r, id, load);
    FinalizeSingle(viewed, id, closedAt);
    FinalizeFiveSeconds(viewed.sessions[0], closedAt);
  }

  /** Finalizing the only stored session. */
  lemma FinalizeSingle(r: Record, id: string, now: int)
    requires |r.sessions| == 1 && r.sessions[0].sessionId == id
    ensures FinalizeStored(r, id, now).sessions == [Finalize(r.sessions[0], now)]
  {
    assert FindSession(r.sessions, id) == Some(0);
  }

  /** A one-page session closed five seconds after its view is bounced with
      five seconds on page. */
  lemma FinalizeFiveSeconds(s: Session, now: int)
    requires |s.pages| == 1 && now == s.pages[0].viewTime + 5000
    ensures var f := Finalize(s, now); f.bounced && |f.pages| == 1 && f.pages[0].timeOnPage == 5
  {
  }

  /** One page viewed for five seconds in a new session, then the tab
      closed. As written, closing stores the record as it was after the view
      (`viewed`), which still reads "0%" and "0s"; storing the patched session
      (`closed`) reads the bounce ("100%") and the duration ("5s"). */
  lemma OneBouncedVisit(r: Record, viewed: Record, closed: Record, id: string, load: PageLoad, closedAt: int)
    requires r.sessions == []
    requires closedAt == load.now + 5000
    requires viewed == PageView(r, id, load.path, load.now, load.width, load.documentReferrer)
    requires closed == FinalizeStored(viewed, id, closedAt)
    ensures BounceRate(viewed.sessions) == "0%" && AverageDuration(viewed.sessions) == "0s"
    ensures BounceRate(closed.sessions) == "100%" && AverageDuration(closed.sessions) == "5s"
  {
    OneVisitAsWritten(r, viewed, id, load);
    OneVisitPatched(r, viewed, closed, id, load, closedAt);
  }

  lemma OneVisitAsWritten(r: Record, viewed: Record, id: string, load: PageLoad)
    requires r.sessions == []
    requires viewed == PageView(r, id, load.path, load.now, load.width, load.documentReferrer)
    ensures BounceRate(viewed.sessions) == "0%" && AverageDuration(viewed.sessions) == "0s"
  {
    FirstViewUnfinalized(r, viewed, id, load);
    UnfinalizedRates(viewed.sessions);
  }

  lemma FirstViewUnfinalized(r: Record, viewed: Record, id: string, load: PageLoad)
    requires r.sessions == []
    requires viewed == PageView(r, id, load.path, load.now, load.width, load.documentReferrer)
    ensures Unfinalized(viewed.sessions)
  {
    PageViewKeepsUnfinalized(r, id, load.path, load.now, load.width, load.documentReferrer);
  }

  lemma OneVisitPatched(r: Record, viewed: Record, closed: Record, id: string, load: PageLoad, closedAt: int)
    requires r.sessions == []
    requires closedAt == load.now + 5000
    requires viewed == PageView(r, id, load.path, load.now, load.width, load.documentReferrer)
    requires closed == FinalizeStored(viewed, id, closedAt)
    ensures BounceRate(closed.sessions) == "100%" && AverageDuration(closed.sessions) == "5s"
  {
    ViewThenClose(r, id, load, closedAt);
    OneBouncedSessionRates(closed.sessions);
  }
}
