# ics-webuntis in Dafny

ics-webuntis is a small web server. It logs into WebUntis with the users in its
configuration, fetches each user's timetable and serves it as an iCalendar
(`.ics`) document. This project models the core of that server and proves
properties of the model:

- **Lesson merger** (`mergeLessons`). Lessons are clamped to the school day
  and grouped by identity (date, subject, teacher, room and class). Within a
  group, a lesson that starts within one time unit of the previous one's end
  is fused with it. The result is sorted by date and start time. `MergeSpec`
  states the algorithm as functions. `Merge.MergeLessons` is the source's
  loops, proved to compute `MergeSpec.Merged`. `MergeProperties` proves what
  the merger promises. `LessonOrder` models the stable library sort on
  sequences.
- **Document cache** (`CacheHandler`). A class over a map from cache key to a
  time-stamped document. A stale entry is reported as absent and deleted when
  read, and the cleanup sweep deletes every stale entry. The clock is a
  parameter (`now`).
- **WebUntis session cache and timetable normalisation** (`getUntisSession`,
  `fetchTimetable`). Sessions are reused for five minutes. Raw entries are
  filtered and mapped to lessons. When the fetch or the normalisation fails,
  the session is logged out and forgotten, unless the logout itself throws. A
  failed login stores no session.
- **`parseUntisDate`**: the `YYYYMMDD` integer turned back into a date, done
  by slicing its decimal text. The model includes JavaScript's
  `Number.prototype.toString`, `String.prototype.slice` and `parseInt`.
- **`lessonsToIcs`**: one calendar event per lesson, with its summary and
  description texts.
- **Access gate** (`accessHandler`), as an Allow/Deny decision.
- **Request handlers** (`GET /timetable/:name` and
  `GET /timetable/:name/:type/:id`). They normalise the route parameters,
  look up the user, apply the type whitelist and the `cancelledDisplay`
  fallback, build the cache key, and take the hit, miss or empty path.

Modules: `Base` (Option, Result, min/max); `Text` (the JavaScript string
built-ins the source uses); `Types` (src/types.ts); `LessonOrder`;
`MergeSpec`; `MergeProperties`; `Merge`; `Cache`; `Utils`; `Untis`; `Ics`;
`Access`; `Server`.

Where the source is inconsistent or surprising, the model follows the code:

- The cache treats an entry as stale when `now - timestamp > ttl`, so an
  entry exactly `ttl` old is still served (src/cacheHandler.ts:16, 30).
- If `logout()` throws inside the catch of `fetchTimetable`, the session is
  not deleted and the logout error propagates (src/webuntis.ts:72-76).
- `fetchTimetable` builds `teacher` and `class` as single strings
  (src/webuntis.ts:62-67). The `Lesson` type declares string arrays
  (src/types.ts:20-30), and `lessonsToIcs` treats them as arrays. The model
  keeps the two shapes apart: `Untis.UntisLesson` holds strings,
  `Types.Lesson` holds sequences.
- `mergeLessons` declares three parameters (src/merge.ts:5-9), but
  src/webuntis.ts:71 calls it with one.
- `lessonsToIcs` and `fetchTimetable` declare three parameters, but
  src/index.ts:78-84, 146-152 and 160-166 call them with five.

## Model

| member | source | states |
|---|---|---|
| Merge.MergeLessons | src/merge.ts:5-55 | the clamp, the grouping loop, the per-group fuse loop and the final sort compute exactly `Merged`; empty input gives empty output, the output is no longer than the input, it is sorted by (date, start time) and every lesson lies inside the school day |
| Merge.GroupLessons | src/merge.ts:23-31 | the grouping loop yields the keys in order of first appearance, and maps each key seen to that key's lessons in input order, never empty |
| Merge.FuseSorted | src/merge.ts:38-47 | the running-lesson loop over one start-sorted group produces exactly the fused runs `Fuse(group)` |
| MergeSpec.Clamp | src/merge.ts:12-21 | clamping never adds lessons, and every lesson it keeps lies within the school day with its start before its end |
| MergeSpec.ClampContents | src/merge.ts:12-21 | every input lesson with time left inside the school day survives, cut to the school day, and every kept lesson is such a cut of an input lesson |
| MergeSpec.ClampAppend | src/merge.ts:12-21 | the clamp works lesson by lesson: clamping a concatenation clamps each part, so order and multiplicity are kept |
| MergeSpec.Merged | src/merge.ts:10-53 | definition, no contract: clamp, group by key, sort each group by start, fuse, and sort the result |
| MergeSpec.FuseRun | src/merge.ts:38-47 | definition, no contract: the running-lesson fuse over one start-sorted group |
| MergeSpec.FuseAll | src/merge.ts:35-48 | definition, no contract: the fused runs of every group, in the map's key order |
| MergeSpec.KeysInOrder | src/merge.ts:23-31 | the Map's key order lists each key once |
| MergeSpec.KeysInOrderMembers | src/merge.ts:25-31 | a key is among the map's keys exactly when some clamped lesson has it |
| MergeProperties.MergedProvenance | src/merge.ts:35-48 | every output lesson is a clamped input lesson whose end is taken from a clamped lesson of the same key that starts and ends no earlier |
| MergeProperties.MergedWithinSchoolDay | src/merge.ts:12-21 | every output lesson starts at or after the school start, ends at or before the school end, and starts before it ends |
| MergeProperties.MergedSorted | src/merge.ts:50-53 | the output is sorted by date, then by start time |
| MergeProperties.MergedNoGrowth | src/merge.ts:5-55 | the output has at most as many lessons as the input |
| MergeProperties.MergedCoversInput | src/merge.ts:35-48 | every clamped input lesson lies inside an output lesson of the same key: nothing scheduled is lost |
| MergeProperties.MergedPerKey | src/merge.ts:23-53 | the output lessons of one key are exactly that key's clamped lessons, sorted by start and fused, in that order |
| MergeProperties.MergedSeparated | src/merge.ts:38-47 | output lessons of one key are pairwise more than the merge gap apart, so none overlap or touch |
| MergeProperties.MergedDegenerateBounds | src/merge.ts:14-17 | a school day that ends no later than it starts drops every lesson |
| MergeProperties.MergedIdempotent | src/merge.ts:5-55 | merging the output again with the same bounds gives the same multiset of lessons |
| MergeProperties.FuseRunCovers | src/merge.ts:38-47 | every lesson of a start-sorted group of one key lies inside one of the fused lessons |
| MergeProperties.FuseRunSeparated | src/merge.ts:38-47 | the runs of a start-sorted group are pairwise more than the gap apart, and none starts before the first lesson |
| MergeProperties.FuseOfSeparated | src/merge.ts:38-47 | fusing lessons that are already separated changes nothing |
| MergeProperties.ConcatOfKeysPartition | src/merge.ts:23-31 | the groups together are a permutation of the clamped lessons |
| LessonOrder.SortSorted | src/merge.ts:36 | the library sort's result is sorted under its comparator |
| LessonOrder.Sort | src/merge.ts:50-53 | the sort returns a permutation of its input |
| LessonOrder.SortOfKey | src/merge.ts:50-53 | sorting by (date, start) keeps the relative order of each key's lessons, because the sort is stable |
| LessonOrder.SortOfSorted | src/merge.ts:36 | sorting an already sorted sequence returns it unchanged |
| LessonOrder.LeTotal | src/merge.ts:50-53 | any two lessons are ordered one way or the other by the comparator |
| LessonOrder.LeTransitive | src/merge.ts:50-53 | the comparator's order is transitive |
| Cache.Find | src/cacheHandler.ts:12-21 | `get` returns the entry exactly when the key is present and the entry is not older than the time-to-live |
| Cache.AfterGet | src/cacheHandler.ts:12-21 | after `get`, only a stale entry at the requested key has been deleted; all other entries are unchanged |
| Cache.Sweep | src/cacheHandler.ts:27-34 | after cleanup, exactly the non-stale entries remain, unchanged |
| Cache.CacheHandler.constructor | src/cacheHandler.ts:7-10 | the cache starts empty with a time-to-live of `ttlSeconds * 1000` ms |
| Cache.CacheHandler.Get | src/cacheHandler.ts:12-21 | returns `Find` of the old map and leaves `AfterGet` of it |
| Cache.CacheHandler.Set | src/cacheHandler.ts:23-25 | the key now maps to the document stamped with `now`; nothing else changes |
| Cache.CacheHandler.Cleanup | src/cacheHandler.ts:27-34 | the loop over the entries leaves exactly `Sweep` of the old map |
| Cache.FindNeverStale | src/cacheHandler.ts:16 | an entry handed out is never older than the time-to-live |
| Cache.FindAfterSet | src/cacheHandler.ts:12-25 | right after `set` at time t, `get` finds the document exactly while `now - t <= ttl` |
| Cache.FindAfterSetOther | src/cacheHandler.ts:23-25 | `set` on one key does not change what `get` returns for another |
| Cache.AfterGetInvisible | src/cacheHandler.ts:16-18 | the deletion on `get` changes no later `get` answer for any key |
| Cache.SweepInvisible | src/cacheHandler.ts:27-34 | cleanup changes no later `get` answer for any key |
| Cache.SweepIdempotent | src/cacheHandler.ts:27-34 | two cleanups at the same time leave the same map as one |
| Cache.SweepAfterGet | src/cacheHandler.ts:12-34 | a `get` followed by a cleanup leaves the same map as the cleanup alone |
| Untis.StripScheme | src/webuntis.ts:22 | one leading `http://` or `https://` is removed; any other URL is kept unchanged |
| Untis.StripSchemeOnce | src/webuntis.ts:22 | a scheme is removed once only, not repeatedly |
| Untis.SessionCache.constructor | src/webuntis.ts:11 | the session cache starts empty |
| Untis.SessionCache.GetUntisSession | src/webuntis.ts:14-34 | a cached session younger than five minutes is returned without a login; otherwise a login is attempted with the user's credentials and the scheme-stripped URL, and on success the session is stored with `now`, while on failure nothing is stored |
| Untis.SessionCache.FetchTimetable | src/webuntis.ts:36-77 | a failed login fails the fetch with the cache untouched; a successful fetch returns the normalised lessons; a failed fetch or normalisation deletes the user's session and rethrows, unless the logout itself throws, in which case the session stays and the logout error propagates |
| Untis.SessionWindow | src/webuntis.ts:12-18 | a session stored at time t is reused exactly while `now - t < 300000`, and storing one user's session does not affect another's |
| Untis.Kept | src/webuntis.ts:49-57 | the filter keeps exactly the entries that pass `Keep`, and never adds any |
| Untis.KeptAppend | src/webuntis.ts:49-57 | the filter works entry by entry: filtering a concatenation filters each part, so kept entries stay in input order |
| Untis.KeptCount | src/webuntis.ts:49-57 | an entry that passes the filter occurs in the result as often as in the input; any other entry does not occur |
| Untis.Keep | src/webuntis.ts:50-56 | definition, no contract: the filter's test on one raw entry |
| Untis.LessonOf | src/webuntis.ts:58-69 | definition, no contract: the map's lesson for one raw entry with a date |
| Untis.ClassName | src/webuntis.ts:64-67 | definition, no contract: the class text chosen from the class references |
| Untis.TimetableOf | src/webuntis.ts:49-69 | definition, no contract: the fetched entries filtered and mapped, or the error |
| Untis.DroppedEntries | src/webuntis.ts:50-56 | cancelled entries, and entries whose subject long name or teacher name lower-cases to a string starting with "eva", are dropped |
| Untis.OrDefault | src/webuntis.ts:61-63 | `value \|\| fallback`: a non-empty value wins; otherwise the fallback is used |
| Untis.ClassNamePreference | src/webuntis.ts:64-67 | the class is the second class's long name, else the first's, else "Unknown Class" |
| Untis.MapEntry | src/webuntis.ts:58-69 | mapping an entry throws exactly when it has no date |
| Untis.MapAll | src/webuntis.ts:58-69 | the map fails exactly when some kept entry has no date; otherwise lesson i is the mapping of entry i |
| Untis.NormaliseFailsOnlyOnKept | src/webuntis.ts:49-69 | normalisation fails exactly when an entry that passes the filter lacks a date; dropped entries never cause a failure |
| Untis.NormalisedLessons | src/webuntis.ts:49-69 | each lesson comes from the kept entry at the same index, keeps its times and parsed date, and has non-empty subject, teacher, room and class |
| Utils.Slice | src/utils.ts:3-5 | `slice` returns the substring when the bounds fit, the rest of the string when only the end is past it, and the empty string when the start is past the end or not before the end |
| Utils.ParseUntisDate | src/utils.ts:1-7 | definition, no contract: the date read back from the number's decimal text |
| Utils.DateOfText | src/utils.ts:2-6 | definition, no contract: the three slices 0-4, 4-6 and 6-8 parsed as decimal integers |
| Utils.DateOfFields | src/utils.ts:3-6 | definition, no contract: an Invalid Date when one field does not parse; otherwise (year, month - 1, day) |
| Utils.ParseUntisDateRoundTrip | src/utils.ts:1-7 | for years 1000-9999, months 1-12 and days 1-31, `YYYYMMDD` is parsed back to (year, month - 1, day) |
| Utils.ParseUntisDateEightDigits | src/utils.ts:1-7 | any eight-digit number is read as year = first four digits, month = next two minus one, day = last two |
| Utils.EncodedFields | src/utils.ts:1-7 | an eight-digit number with the given digit fields parses to exactly that date |
| Utils.ParseUntisDateShort | src/utils.ts:1-7 | a number of at most six digits yields an Invalid Date, because the day slice is empty |
| Utils.ParseUntisDateExtraDigits | src/utils.ts:1-7 | digits beyond the eighth are ignored: the result equals that of the number without its last digit |
| Text.ParseIntOfIntToString | src/utils.ts:2-5 | `parseInt` of an integer's decimal text gives the integer back |
| Text.ParseIntOfDigits | src/utils.ts:3-5 | `parseInt` of a non-empty digit string is its decimal value |
| Ics.Minute | src/ics.ts:13 | JavaScript's `%`: the minute lies strictly between -100 and 100, and is non-negative for a non-negative time |
| Ics.TimeSplit | src/ics.ts:12-15 | for a non-negative HHMM time, hour and minute give the time back, with the minute below 100 |
| Ics.LessonsToIcs | src/ics.ts:4-65 | the calendar is named "WebUntis Timetable", has the given time zone, and event i is built from lesson i |
| Ics.EventFields | src/ics.ts:41-61 | each event starts and ends on its lesson's day, is located in its room and has status CONFIRMED |
| Ics.NameSummaryShort | src/ics.ts:17-27 | up to three names are shown in full |
| Ics.NameSummaryLong | src/ics.ts:17-27 | with more than three names, the summary is the first three as the full list shows them, then ` ...+` and a non-empty run of digits, nothing else, that reads back as the count left out |
| Ics.NameSummary | src/ics.ts:17-27 | definition, no contract: up to three names joined by `, `, and ` ...+` with the count left out beyond that |
| Ics.Summary | src/ics.ts:33 | definition, no contract: the title, then the teacher part and the class part, each dropped for its placeholder |
| Ics.Description | src/ics.ts:34-38 | definition, no contract: subject, all teachers, room, all classes, the requested timetable and the status, one per line |
| Ics.EventOf | src/ics.ts:41-61 | definition, no contract: the event built from one lesson |
| Ics.CalendarOf | src/ics.ts:9-62 | definition, no contract: the calendar with one event per lesson, in order |
| Ics.DescriptionListsAll | src/ics.ts:34-38 | the description contains every teacher and every class, untruncated |
| Ics.SummaryOfPlaceholders | src/ics.ts:33 | each placeholder is dropped on its own: the sole teacher "Unknown Teacher" removes the teacher part, the sole class "Unknown Class" removes the class part, and both leave only the title |
| Ics.SummaryOfSingleNames | src/ics.ts:33 | one teacher and one class give `title (teacher) - (class)` |
| Access.FindUser | src/accessHandler.ts:16-18 | the first user whose lower-cased friendly name equals the name; None exactly when no user matches |
| Access.RouteName | src/accessHandler.ts:6-10 | definition, no contract: the route name, or its first element, lower-cased but not trimmed |
| Access.TokenOf | src/accessHandler.ts:40 | definition, no contract: a repeated value's first element, else the value; None when that is missing or empty |
| Access.AllowedTokens | src/accessHandler.ts:30-32 | definition, no contract: a token list as it is, a single token as a one-element list |
| Access.PresentedToken | src/accessHandler.ts:34-40 | the presented token is never the empty string |
| Access.DenyMessage | src/accessHandler.ts:43-48 | the deny text is non-empty: a non-empty translation, else the default text |
| Access.Check | src/accessHandler.ts:12-53 | the request is denied with 401 exactly when the name finds a user whose token is configured and the presented token is not one of the allowed ones |
| Access.AccessDecision | src/accessHandler.ts:5-54 | the gate as written: a deny is always a 401 with the deny message, and an empty route name always passes |
| Access.UnguardedAllowed | src/accessHandler.ts:12-28 | no name, an unknown user, or a user without a configured token lets the request pass |
| Access.RouteNameIgnoresCase | src/accessHandler.ts:6-18 | the gate's decision does not depend on the case of the route name |
| Access.TokenPrecedence | src/accessHandler.ts:34-38 | the query `access_token`, the query `accessToken`, the `x-access-token` header and the `authorization` header are consulted in that order, each only when all before it are falsy |
| Access.RepeatedTokenFirst | src/accessHandler.ts:40 | of a repeated value, the first element is the token, and an empty repetition presents none |
| Access.AuthorizationVerbatim | src/accessHandler.ts:38-42 | for any user whose token is `t`, the `authorization` header `Bearer t` is refused and the bare `t` is accepted: the header is compared verbatim |
| Access.EmptyTokenListDeniesAll | src/accessHandler.ts:26-32 | a configured empty token list is truthy and admits no request |
| Access.DenyMessageFallback | src/accessHandler.ts:45-48 | a missing or empty translation falls back to the default text |
| Server.Normalize | src/index.ts:35-38 | the normalised text has no surrounding white space and no upper-case letter |
| Server.NormalizeContents | src/index.ts:35-38 | the normalised text is the lower-cased stretch of the input between a white-space prefix and a white-space suffix |
| Server.NormalizeUnpadded | src/index.ts:35-38 | a text with no white space at either end is only lower-cased |
| Text.TrimStart | src/index.ts:35-38 | the result is a suffix of the input, what was cut is all white space, and the result does not start with white space |
| Text.TrimEnd | src/index.ts:35-38 | the result is a prefix of the input, what was cut is all white space, and the result does not end with white space |
| Text.TrimContents | src/index.ts:35-38 | `trim` keeps a contiguous stretch of the input, with only white space cut on either side |
| Text.TrimUnpadded | src/index.ts:35-38 | a text with no white space at either end is its own `trim` |
| Server.NormalizeParam | src/index.ts:31-39 | undefined and an empty array give ""; a string, or an array's first element, is trimmed and lower-cased |
| Server.NormalizeParamIdempotent | src/index.ts:31-39 | normalising a normalised parameter changes nothing |
| Server.ServedIgnoresCaseAndPadding | src/index.ts:43-47 | route names that differ only in case, or in any white space before and any white space after them, select the same user |
| Server.LookupKeyNormalised | src/index.ts:100-107 | lower-casing the normalised name again, as the typed route does, changes nothing |
| Server.Served | src/index.ts:43-47 | definition, no contract: the first user whose lower-cased friendly name equals the normalised route name |
| Server.Gate | src/accessHandler.ts:5-54 | definition, no contract: the corrected gate, the access check run on the normalised route name |
| Server.Language | src/index.ts:49-51 | a query `lang` keeps the detected language; without one, a user's non-empty language replaces it; a user without a language keeps the detected one |
| Server.DisplayFallback | src/index.ts:56-59 | the query value, else the user's setting, else "mark" |
| Server.ResolveType | src/index.ts:116-120 | the type is kept exactly when it is "class", "room", "teacher" or "subject" |
| Server.ResolveId | src/index.ts:122 | an empty id becomes undefined; any other id is kept |
| Server.ResolvedTypes | src/index.ts:116-128 | every resolved type is one of the four kinds, and the key segment is "own" exactly when none is resolved |
| Server.FetchFailure | src/index.ts:89-95 | an error with code 404 is answered 404 with its own message; any other is answered 500 with the generic fetch error |
| Server.AfterFetch | src/index.ts:74-88 | a document is rendered and stored exactly when the fetch succeeded with lessons; an empty timetable gives 404; a thrown error goes to `FetchFailure` |
| Server.OwnTimetable | src/index.ts:41-96 | behind the gate as src/accessHandler.ts writes it (`Access.AccessDecision`), denied requests get 401, and unknown users get 404, without a fetch; on a cache hit under `username:lang:display` the cached document is sent without a fetch; on a miss the fetch outcome decides the response and what is stored |
| Server.TypedTimetable | src/index.ts:98-182 | as the own route, behind the same as-written gate, with the key `username:type:id:lang:display`; a hit is sent as `HitFilename` (`name-type`), a miss as `MissFilename` (`name-type-id`) |
| Server.OwnKey | src/index.ts:60 | definition, no contract: the own route's key `username:lang:display` |
| Server.TypedKey | src/index.ts:128 | definition, no contract: the typed route's key `username:type:id:lang:display`, with "own" and "" for a missing type and id |
| Server.HitFilename | src/index.ts:131 | definition, no contract: `name-type`, with "own" for a missing type |
| Server.MissFilename | src/index.ts:170-174 | definition, no contract: the hit name, `-` and the lower-cased id ("" when none) |
| Server.Respond | src/index.ts:74-88 | the miss path: the response and the new cache are those `AfterFetch` describes |
| Server.OwnKeyInjective | src/index.ts:60 | with colon-free user name and language, different requests get different own-route keys |
| Server.TypedKeyInjective | src/index.ts:116-128 | with colon-free user name, id and language, different resolved requests get different typed-route keys |
| Server.OwnAndTypedKeysDiffer | src/index.ts:60-128 | an own-route key never equals a typed-route key, not even that of the `own` type |
| Server.TypedFilenamesDiffer | src/index.ts:129-174 | for every request, the typed route's hit name differs from its miss name, which extends it by `-` and the id; the hit name ignores the id, while miss names of ids differing after lower-casing differ |
| Server.PaddedNameBypassesGate | src/accessHandler.ts:6-18 | the as-written gate lets `" alice"` through with no token, although the route then serves Alice, whose token is configured |
| Server.PaddedNameServed | src/index.ts:41-88 | through the route as written: with an empty cache, a request for `" alice"` without a token is answered with Alice's calendar, although her token is configured |
| Server.GateGuardsServedUser | src/index.ts:43-47 | the corrected gate, run on the normalised name, admits a request for a user with a configured token exactly when it presents an allowed token, and otherwise answers 401 |

## Left out

- HTTP, Express, the `sendIcs` headers, `console` output and the listening port: I/O. A route's outcome is a `Response` value.
- Translation (i18next): the detected language, the translated messages and the `req.t` text of the deny message are inputs.
- Loading the configuration: it is an input record (users and time zone).
- The WebUntis client library: the login outcome, the raw timetable and the logout error are parameters of `FetchTimetable`, and a session handle is an opaque number.
- The route handlers do not call `FetchTimetable`. They take the fetch's outcome (`fetched`) as a parameter, so the session cache and the handlers are modelled separately.
- Dates: `new Date()`, `setDate` and the `daysBefore`/`daysAfter` range are not modelled. A date is a (year, month index, day) triple, with no normalisation of out-of-range fields, and `Date.getTime()` is compared as that triple.
- The calendar library (ical-generator): `Ics.Calendar` is the record of name, time zone and events. Its text (`cal.toString()`) is a parameter, `serialise`, of the route handlers.
- Cache.CacheHandler.constructor: the time-to-live and the timestamps are integers; a fractional `cacheDuration` is not modelled.
- The `setInterval` cleanup timer: the caller calls `Cleanup` with the time.
- Concurrency: the awaits are sequential here, and interleaved requests are not modelled.
- `toLowerCase` and `trim` are modelled on ASCII letters and the usual JavaScript white-space characters; full Unicode case mapping is left out.
- `Array.prototype.sort` is modelled as a stable insertion sort on sequences, not as an in-place array sort.
- Merge.MergeLessons: takes the school-day bounds as arguments, as src/merge.ts:5-9 declares. The only call, at src/webuntis.ts:71, passes none, so at run time every clamped time is NaN; that call is not modelled.
- Untis.SessionCache.FetchTimetable: on success it returns the normalised list that src/webuntis.ts:71 hands to `mergeLessons`; the merge itself is not applied there, because that call has no bounds (see Merge.MergeLessons).
- MergeSpec.Clamp: its own contract gives only the length bound and the school-day range; which lessons survive, and in what order, is stated by MergeSpec.ClampContents and MergeSpec.ClampAppend, so that proofs using the clamp do not carry those quantifiers.
- Untis.Kept: its own contract gives membership only; order and multiplicity are stated by Untis.KeptAppend and Untis.KeptCount.
- The typed route passes `type` and `id` to `fetchTimetable` and `req.t` and `cancelledDisplay` to `lessonsToIcs`. Neither function declares these parameters, and the model leaves them out.
- Server.OwnKeyInjective, Server.TypedKeyInjective and Server.OwnAndTypedKeysDiffer assume that user names, ids, languages and `cancelledDisplay` values contain no colon; with colons, two requests can share a key.
- LessonOrder.KeyOf: the merge key is the tuple (date, subject, teacher, room, class). It is not the `|`-joined string, which would also collide for texts containing `|`, and for teacher or class arrays whose comma-joined texts agree: `["a,b"]` against `["a", "b"]`, and `[]` against `[""]` (src/merge.ts:25-28).
- Untis.UntisLesson: the normalised lesson has no `lstext` or `status`, as in the source. `lessonsToIcs` reads those from `Types.Lesson`.
- Invalid Dates from `parseUntisDate` are `None`; JavaScript would carry a NaN date on into the merger and the calendar.

## Findings

| source | as written | input that shows it | evidently intended | confidence | as-written member | corrected member |
|---|---|---|---|---|---|---|
| src/accessHandler.ts:6-18 against src/index.ts:31-47 | the gate lower-cases the route name but does not trim it, while the route trims and lower-cases it before the user lookup | user "Alice" with access token "secret"; request `/timetable/%20alice` with no token: the gate finds no user for " alice" and passes it, and the route serves Alice's timetable | the gate checks the same user the route serves, so a request for a token-protected user needs a valid token | not executed | Server.PaddedNameServed | Server.GateGuardsServedUser |

The routes model the gate as the code writes it, so `Server.PaddedNameServed`
exhibits the bypass through `Server.OwnTimetable` itself, and
`Server.PaddedNameBypassesGate` shows it on the gate alone. The corrected gate
is `Server.Gate`, which reads the route name through `normalizeParam`:
`Server.GateGuardsServedUser` proves that it guards exactly the user the route
serves.
