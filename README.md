# Visitor analytics: a Dafny model

This project models the two pieces of bookkeeping in a small personal web
site's analytics.

- **The browser-side aggregator** (`analytics.js`). One stored record sits in
  `localStorage['analytics']`. It holds `totalVisitors`, `pageViews`, a
  `pageStats` map keyed by page name, and the list of sessions. Each session
  has an identifier, a start time, its pages, a device class, a referrer and
  a `bounced` flag. The tab's session identifier sits in
  `sessionStorage['sessionId']`.
  - On page load the tracker reuses or creates the tab's session, appends
    the page, counts a view for the page's display name and recomputes both
    totals.
  - On unload it patches the session: it backfills the last page's time on
    page and marks a one-page session as bounced.
  - Read-only summaries derive the bounce rate, the average session
    duration, the device and traffic-source breakdowns, and formatted
    numbers.
- **The counter service** (`backend.py`). One record of site-wide counters
  (visitors, page views, clicks, per-page views) is kept in a data file.
  There are handlers for a visitor (capped at 1000), a page view (defaulting
  to page `home`), a click, and a reset. Loading falls back to the initial
  record when there is no usable file.

Files:

- `wrappers.dfy` holds `Option`.
- `strings.dfy` holds the string built-ins the code relies on, defined on
  `seq<char>`: `toString`, `includes`/`indexOf`, `replace` of a substring,
  `split`/`pop`, and `toUpperCase` of one character.
- `sums.dfy` holds the sum of a map's values and its lemmas.
- `analytics.dfy` (module `Analytics`) holds the aggregator's data model as
  values: the page-view update, the unload patch, and the summaries with
  their reference definitions and lemmas.
- `tracker.dfy` (module `AnalyticsTracker`) holds the class `Tracker`. Its
  two fields are the two storage slots. Its methods are the handlers and the
  loop-based summaries, each proved against the functions of `Analytics`.
- `backend.dfy` (module `Backend`) holds the counter transitions as
  functions, a request replay with the sum invariant, and the class
  `CounterStore`. Its field is the data file, and its handlers load, update
  and save it.

Inputs the code takes from its environment are parameters of the model:

- the clock (`Date.now()`), read once per page load: the source reads it
  twice (for a new session's `startTime` and for the page's `viewTime`), and
  the model gives both the same value;
- the freshly generated session identifier;
- the viewport width;
- `document.referrer`;
- the request's `page` field.

An empty `localStorage` or `sessionStorage` slot, and a data file that is missing or cannot be read, is `None`.

## Model

| member | source | states |
|---|---|---|
| Strings.NatToString | analytics.js:165 | the decimal text of a natural is a canonical numeral denoting exactly that number |
| Strings.NatToStringOfValue | analytics.js:170-173 | every canonical numeral is the text of its own value, so conversion and evaluation are inverse |
| Strings.IntToString | analytics.js:170 | a non-negative integer prints as its numeral; a negative one prints as "-" followed by the numeral of its magnitude |
| Strings.IndexOfFrom | analytics.js:122 | the result is the first index at or after the start where the pattern occurs, and none means it occurs nowhere from there on |
| Strings.IncludesIff | analytics.js:216-221 | `includes` holds exactly when the pattern occurs at some index |
| Strings.RemoveFirst | analytics.js:122 | without an occurrence the text is unchanged; otherwise the result is the text before the first occurrence followed by the text after it |
| Strings.Split | analytics.js:121 | there is at least one piece, no piece contains the separator, and joining the pieces with it gives back the text |
| Strings.LastPieceIsSuffix | analytics.js:121 | the last piece is the suffix after the last separator, or the whole text when there is none |
| Strings.SplitAround | analytics.js:121 | splitting a concatenation around a separator concatenates the two splits |
| Strings.ToUpper | analytics.js:122 | a lower-case ASCII letter maps to its capital and every other character is unchanged |
| Strings.Capitalize | analytics.js:122 | the length is kept, the first character is upper-cased and the rest are unchanged |
| Analytics.DeviceType | analytics.js:112-117 | Mobile exactly for widths up to 768, Tablet exactly for 769 to 1024, Desktop exactly above 1024 |
| Analytics.StoredReferrer | analytics.js:43 | an empty document referrer is stored as "direct"; a non-empty one is kept as it is |
| Analytics.TrafficSource | analytics.js:215-226 | first match in the order google, linkedin, github, then exactly "direct", else referral, each as an if-and-only-if |
| Analytics.NoReferrerIsDirect | analytics.js:43 | a session opened without a referrer counts as direct traffic |
| Analytics.PageName | analytics.js:120-123 | an empty last segment gives "Home", and a name never contains "/" |
| Analytics.PageNameOfSegment | analytics.js:120-123 | for any directory and any non-empty last segment without "/", the name is the segment with its first ".html" removed and its first character upper-cased |
| Analytics.PageNameOfFile | analytics.js:120-123 | a page `dir/base.html` and the same page without the extension are both named after `base`, capitalised |
| Analytics.ExtensionFoundAtEnd | analytics.js:122 | in `base + ".html"`, with no ".html" in `base`, the first ".html" is the appended one and removing it gives `base` |
| Analytics.RootPageName | analytics.js:121-122 | the root path "/" is named "Home" |
| Analytics.AboutPageName | analytics.js:120-123 | the path "/about.html" is named "About" |
| Analytics.InnerExtensionPageName | analytics.js:122 | only the first ".html" is removed, wherever it is: "/old.html.bak" is named "Old.bak" |
| Analytics.InnerExtensionRemoved | analytics.js:122 | removing the first ".html" from "old.html.bak" gives "old.bak" |
| Analytics.EmptyRecord | analytics.js:126-135 | the default record has no sessions, no per-page counters and zero totals, and is consistent |
| Analytics.FindSession | analytics.js:35 | the index found is the first session with the identifier, and none is found exactly when no session has it |
| Analytics.TotalPagesUpdate | analytics.js:72 | replacing one session changes the page total by the difference in page counts |
| Analytics.DistinctIdsCount | analytics.js:71 | with distinct identifiers, the number of distinct identifiers is the number of sessions |
| Analytics.AddPageView | analytics.js:33-54 | a new session is created only when none has the identifier; exactly one page `{path, now, 0}` is appended to that session; all other sessions are unchanged; identifiers stay distinct; the page total grows by one |
| Analytics.CountView | analytics.js:56-68 | the page's entry gains exactly one view; a missing entry starts with zero views, zero time and this path; an existing entry keeps its path; other entries are unchanged; the sum of views grows by one |
| Analytics.PageView | analytics.js:30-81 | `totalVisitors` is the number of distinct identifiers, which is also the session count; `pageViews` is the page total and grows by one; the session now exists; the sum of per-page views grows by one |
| Analytics.PageViewFields | analytics.js:70-77 | a record whose sessions, counters and both totals are recomputed as a page view does it is that page view's record, and is consistent when the record read was |
| Analytics.PageViewConsistent | analytics.js:70-77 | a page view keeps the record consistent: distinct identifiers, visitors equal to sessions, page views equal to the page total and to the sum of per-page views |
| Analytics.OneSessionViews | analytics.js:9-22 | N page loads in one session, starting from nothing stored, give one session of N pages, one visitor and N page views |
| Analytics.RoundDiv | analytics.js:99 | `Math.round(a / b)` for a positive divisor: the nearest integer, with halves rounded up |
| Analytics.Finalize | analytics.js:97-105 | only the last page changes; its time on page becomes the elapsed milliseconds rounded to whole seconds; the session is bounced exactly when it already was or has exactly one page; identity and page count are kept |
| Analytics.BouncedCount | analytics.js:164 | the bounced count never exceeds the number of sessions |
| Analytics.BounceRate | analytics.js:158-166 | "0%" without sessions; otherwise a numeral p ≤ 100 followed by "%", where p is 100·bounced/n rounded to the nearest integer |
| Analytics.FormatSeconds | analytics.js:169-174 | under a minute "Ns"; otherwise "Mm Ss" with M·60 + S equal to the seconds and S below 60 |
| Analytics.AverageDuration | analytics.js:138-155 | "0s" without sessions; otherwise the formatted nearest integer to the summed time on page divided by the number of sessions |
| Analytics.DeviceCountsTotal | analytics.js:200-203 | the three device counts add up to the number of sessions |
| Analytics.SourceCountsTotal | analytics.js:213-227 | the five source counts add up to the number of sessions |
| Analytics.DeviceBreakdownTotal | analytics.js:196-206 | a device breakdown holding every class's count sums to the number of sessions |
| Analytics.SourceBreakdownTotal | analytics.js:209-230 | a traffic breakdown holding every source's count, a missing key meaning zero, sums to the number of sessions |
| Analytics.GroupThousands | analytics.js:178 | removing the commas gives back the digits; the first group has 1 to 3 digits and every later one exactly 3 |
| Analytics.FormatNumber | analytics.js:177-179 | removing the commas from the formatted natural gives its decimal numeral; the first group has 1 to 3 digits and every later one exactly 3 |
| Analytics.FinalizeStored | analytics.js:93-108 | (corrected) the stored record gets the patched session in place of the one read; without such a session nothing changes; consistency is kept |
| Analytics.AddPageViewKeepsUnfinalized | analytics.js:37-54 | page views add only unbounced sessions and pages with zero time on page |
| Analytics.PageViewKeepsUnfinalized | analytics.js:30-81 | a page view keeps a record in which nothing is finalized that way |
| Analytics.UnfinalizedCounts | analytics.js:145-164 | with nothing finalized, no session counts as bounced and the summed time on page is zero |
| Analytics.UnfinalizedRates | analytics.js:138-166 | with nothing finalized, the bounce rate is "0%" and the average duration "0s" |
| Analytics.ReplayConsistent | analytics.js:30-108 | any sequence of page loads and tab closes keeps the stored record consistent, with the unload both as written and as intended |
| Analytics.AsWrittenRatesStayZero | analytics.js:107 | (as written) from a store with nothing finalized, the bounce rate stays "0%" and the average "0s" after any page loads and tab closes |
| Analytics.FirstPageView | analytics.js:37-54 | the first page view into a store without sessions opens one session holding one page with zero time |
| Analytics.OneBouncedSessionRates | analytics.js:153-165 | one bounced session with five seconds on its only page reads "100%" and "5s" |
| Analytics.OneBouncedVisit | analytics.js:93-108 | one page viewed for five seconds and then closed reads "0%" and "0s" as written, and "100%" and "5s" when the patch is stored |
| AnalyticsTracker.Tracker.Data | analytics.js:126-135 | an empty storage slot reads as the default record; a valid store reads as a consistent record |
| AnalyticsTracker.Tracker.InitializeTracking | analytics.js:9-22 | a missing or empty tab identifier is replaced by the fresh one, otherwise it is kept; the stored record becomes the page-view update of the old one; the unload handler is armed; validity is kept |
| AnalyticsTracker.Tracker.TrackPageView | analytics.js:30-81 | the in-place steps (push the page, bump the page's counter, recompute the totals) store exactly `Analytics.PageView` of what was read (the default record when nothing is stored); the tab identifier is kept; validity is kept |
| AnalyticsTracker.RecordPageView | analytics.js:33-77 | pushing the page, counting the view and recomputing both totals gives exactly `Analytics.PageView` of the record read, and keeps it consistent |
| AnalyticsTracker.PushPage | analytics.js:33-54 | finding or appending the session and pushing the page onto it gives `Analytics.AddPageView` of the sessions read |
| AnalyticsTracker.CountPageView | analytics.js:57-68 | creating a missing counter and adding one view gives `Analytics.CountView` of the counters read |
| AnalyticsTracker.SumPageCounts | analytics.js:72 | the `reduce` over the sessions adds up exactly their page counts |
| AnalyticsTracker.Tracker.TrackSessionDuration | analytics.js:84-91 | the unload handler is armed exactly when the stored record holds the tab's session |
| AnalyticsTracker.Tracker.BeforeUnload | analytics.js:93-108 | (as written) the patched copy is `Finalize` of the stored session, but the stored record and the tab identifier are left as they were; nothing is patched without such a session |
| AnalyticsTracker.Tracker.BeforeUnloadStoringPatch | analytics.js:93-108 | (corrected) the stored record becomes `FinalizeStored`, with the patched session in place; without such a session nothing changes; validity is kept |
| AnalyticsTracker.Tracker.ClearAnalytics | analytics.js:233-240 | both storage slots are emptied, so the record reads as the default one |
| AnalyticsTracker.Tracker.AverageSessionDuration | analytics.js:138-155 | the nested loops compute `Analytics.AverageDuration` of the stored sessions |
| AnalyticsTracker.Tracker.DeviceBreakdown | analytics.js:196-206 | all three device classes are keys; each holds its count; the counts sum to the number of sessions |
| AnalyticsTracker.CountDevices | analytics.js:200-203 | the loop leaves exactly the three device classes as keys, each holding its number of sessions |
| AnalyticsTracker.CountSources | analytics.js:213-227 | the loop leaves each source that occurs as a key holding its (positive) number of sessions, and no other key |
| AnalyticsTracker.Tracker.TrafficSources | analytics.js:209-230 | a source is a key exactly when it occurs; each key holds its count; the counts sum to the number of sessions |
| Backend.Initial | backend.py:28-36 | every counter is zero and there are no pages, so the sum invariant holds |
| Backend.Visitor | backend.py:52-57 | the visitor count grows by one below the cap and is 1000 at or above it, never exceeding 1000; every other counter is unchanged |
| Backend.RequestedPage | backend.py:63 | a request without a page counts toward "home"; otherwise the named page is counted |
| Backend.PageView | backend.py:59-74 | the page-view total and the page's own count each grow by exactly one, a missing page starting at zero; other pages and the other counters are unchanged; the sum of per-page views grows by one |
| Backend.Click | backend.py:76-82 | the click count grows by exactly one and nothing else changes |
| Backend.ResetForgets | backend.py:84-89 | after a reset the counters are the initial ones, whatever came before |
| Backend.HandleKeepsInvariant | backend.py:52-89 | every request keeps the per-page sum equal to the page-view total and the visitor count within the cap |
| Backend.ReplayKeepsInvariant | backend.py:28-89 | from the initial record, after any sequence of requests the per-page views add up to the page-view total and there are at most 1000 visitors |
| Backend.CounterStore.Load | backend.py:18-26 | a missing or unreadable file loads as the initial record; otherwise its content loads; a valid store loads consistent counters |
| Backend.CounterStore.Save | backend.py:38-43 | the file holds exactly the saved counters |
| Backend.CounterStore.GetAnalytics | backend.py:45-49 | the summary is the loaded counters, and nothing is changed |
| Backend.CounterStore.TrackVisitor | backend.py:52-57 | the file holds `Visitor` of the loaded counters and the new visitor count is returned; validity is kept |
| Backend.CounterStore.TrackPageview | backend.py:59-74 | the file holds `PageView` of the loaded counters for the requested page and the new total is returned; validity is kept |
| Backend.CounterStore.TrackClick | backend.py:76-82 | the file holds `Click` of the loaded counters and the new click count is returned; validity is kept |
| Backend.CounterStore.ResetAnalytics | backend.py:84-89 | the file holds the initial counters, whatever it held before |

## Left out

- `script.js` is page decoration with no data model: scrolling, animations and typewriter effects. `wsgi.py` only sets up deployment paths. Neither is part of this model.
- `getRealAnalyticsData` and `exportAnalytics` only gather values already modelled, plus a Blob download. They are not modelled.
- Timestamps written for display (`lastUpdated`, `exportDate`) are dropped, and so is `save_analytics`'s update of `lastUpdated`.
- `confirm`, `alert` and `location.reload` around `clearAnalytics` are left out. `ClearAnalytics` is the confirmed branch: both stores are emptied.
- Storage I/O is left out: the JSON parsing and serialisation of `localStorage`, the data file, Flask routing, CORS and `jsonify`. A storage slot is an `Option` field, and saving is an assignment.
- `generateSessionId` uses the clock and a random number, so the fresh identifier is an input. The clock, the viewport width and the document referrer are inputs too.
- An `analytics` slot whose text does not parse is not modelled. `getAnalyticsData` parses without a `try` (`analytics.js:127`), so the page-view, unload and summary handlers then throw, nothing is stored, and the bad slot stays until `clearAnalytics`. The model has no state for such a slot.
- Concurrency is left out: several tabs writing `localStorage` (last writer wins) and concurrent requests to the service.
- Analytics.BounceRate: computed with exact rational rounding, where the source rounds a floating-point quotient. The two can differ in rare exact-half cases.
- Analytics.AverageDuration: computed with exact rational rounding, where the source divides in floating point. It also sums every page's time, where the source sums only truthy ones; the two are equal for the integers modelled here.
- Analytics.Page: `timeOnPage` is an integer. The floating-point and non-numeric values a hand-edited store could hold are not modelled.
- Strings.ToUpper: upper-cases ASCII letters only, where `toUpperCase` covers all of Unicode.
- Analytics.FormatNumber: takes a natural number and groups all of its digits. JavaScript numbers are IEEE doubles: from 10^21 on `toString` gives exponent notation ("1e+21"), which the regular expression leaves alone, and integers are exact only up to 2^53. The source's regular expression also applies to negative numbers and to numbers with a fractional part.
- Analytics.CountView: creates and counts an entry for every page name. The source keeps `pageStats` in a plain object, so a name that is a member of `Object.prototype` and that capitalisation leaves unchanged (`__proto__`, `__defineGetter__`, `__lookupSetter__` and the like, from a path such as "/__proto__.html") finds an inherited value at `analytics.js:60`; no entry is created, the increment at line 68 lands on the inherited value and is dropped when the record is serialised. For such names the source records no per-page view, and its sum of per-page views then falls behind `pageViews`; the model's sum invariant does not describe that case.
- Analytics.PageName: its own contract gives only the empty-segment case and that no name contains "/". The name of a non-empty last segment is stated by `PageNameOfSegment`.
- AnalyticsTracker.Tracker.TrackPageView: requires that the tab has a session identifier. Its only caller stores one first; without one, the source would record a session with a null identifier.
- AnalyticsTracker.Tracker.BeforeUnload: the source dereferences the missing session at `analytics.js:103` and throws. The model returns `None` and stores nothing, which is what the throw leaves behind; it does not have a precondition.
- Backend.CounterStore.TrackPageview: a request without a JSON body, or with an explicit `null` page, is not modelled. Such a request fails in Flask or counts under a `None` key.
- Backend.CounterStore.Load: a data file that parses but lacks a counter is not modelled; the source then fails with a `KeyError` in the handler.
- Backend.Counters: a per-page entry `{'views': n}` is modelled as the bare count `n`.
- The service's client-side heuristics are not modelled, because no client of `backend.py` is among the modelled files.
- The unload handler patches the last page and marks a one-page session (comments at `analytics.js:92` and `:102`), but line 107 stores a fresh re-read (see Findings). `BeforeUnload` follows the code.
- The code never clears `bounced`, and `Finalize` follows the code: a session stays bounced once marked.

## Findings

| source | as written | input that shows it | evidently intended | confidence | as-written member | corrected member |
|---|---|---|---|---|---|---|
| analytics.js:107 | the unload handler patches a freshly parsed copy of the session, then stores another fresh read of `localStorage`, so the patch is discarded: no stored session ever has a time on page or a bounce mark, and the bounce rate and average duration always read "0%" and "0s" | an empty store, one page load at time t, then the tab closed at t + 5000 | store the patched record, so the same visit reads "100%" and "5s" | not executed | Analytics.AsWrittenRatesStayZero | Analytics.FinalizeStored |
