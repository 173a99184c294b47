/**
  The timetable client (src/webuntis.ts): a per-user session cache with a
  five-minute window, and `fetchTimetable`, which filters and normalises the
  raw entries of the timetable service and, when anything fails after the
  session was obtained, logs out and forgets that user's session.

  The WebUntis library is foreign: a login is an abstract outcome (a fresh
  handle or a failure), the raw timetable an abstract result, a logout an
  optional error.
*/
module Untis {
  import opened Base
  import opened Text
  import opened Types
  import opened Utils

  /** SESSION_TTL_MS: five minutes. */
  const SessionTtlMs := 5 * 60 * 1000

  /** A logged-in WebUntis client object. */
  datatype Handle = Handle(id: nat)

  datatype SessionEntry = SessionEntry(untis: Handle, timestamp: int)

  /** The arguments of `new WebUntis(school, username, password, baseUrl)`. */
  datatype Credentials = Credentials(school: string, username: string, password: string, baseUrl: string)

  /** `baseurl.replace(/^https?:\/\//, "")`. */
  function StripScheme(url: string): (r: string)
    ensures r == url || url == "http://" + r || url == "https://" + r
    ensures StartsWith(url, "https://") ==> url == "https://" + r
    ensures StartsWith(url, "http://") ==> url == "http://" + r
    ensures !StartsWith(url, "http://") && !StartsWith(url, "https://") ==> r == url
  {
    if StartsWith(url, "https://") then
      assert url == url[..8] + url[8..];
      assert url[..8][4] == 's' && url[..7][4] == url[..8][4];
      url[8..]
    else if StartsWith(url, "http://") then
      assert url == url[..7] + url[7..];
      url[7..]
    else url
  }

  function CredentialsOf(user: User): Credentials
  {
    Credentials(user.school, user.username, user.password, StripScheme(user.baseurl))
  }

  /** A cached session that is still inside the window: `now - timestamp < SESSION_TTL_MS`. */
  predicate Reusable(sessions: map<string, SessionEntry>, username: string, now: int)
  {
    username in sessions && now - sessions[username].timestamp < SessionTtlMs
  }

  /** The module-level `sessionCache` Map. */
  class SessionCache {
    var sessions: map<string, SessionEntry>

    constructor()
      ensures sessions == map[]
    {
      sessions := map[];
    }

    /**
      `getUntisSession(user)` at time `now`. `login` is what constructing the
      client and awaiting `login()` yields: a handle, or None when it throws.
      `attempted` holds the credentials a login was attempted with, if any.
    */
    method GetUntisSession(user: User, now: int, login: Option<Handle>)
      returns (r: Result<Handle, string>, attempted: Option<Credentials>)
      modifies this
      ensures Reusable(old(sessions), user.username, now) ==>
        r == Success(old(sessions)[user.username].untis) && attempted == None && sessions == old(sessions)
      ensures !Reusable(old(sessions), user.username, now) ==> attempted == Some(CredentialsOf(user))
      ensures !Reusable(old(sessions), user.username, now) && login.None? ==>
        r.Failure? && sessions == old(sessions)
      ensures !Reusable(old(sessions), user.username, now) && login.Some? ==>
        r == Success(login.value) &&
        sessions == old(sessions)[user.username := SessionEntry(login.value, now)]
    {
      if user.username in sessions {
        var cached := sessions[user.username];
        if now - cached.timestamp < SessionTtlMs {
          return Success(cached.untis), None;
        }
      }
      attempted := Some(CredentialsOf(user));
      if login.None? {
        return Failure("login failed"), attempted;
      }
      sessions := sessions[user.username := SessionEntry(login.value, now)];
      r := Success(login.value);
    }

    /**
      `fetchTimetable(user, startDate, endDate)`. `raw` is the outcome of
      `getOwnTimetableForRange`, `logoutError` the error `logout()` throws, if
      any. On success the result is the normalised list, the argument of the
      `mergeLessons` call at src/webuntis.ts:71. That call passes no school-day
      bounds although `mergeLessons` requires them (src/merge.ts:5-9), so the
      clamp compares against `undefined`; it is not modelled.
    */
    method FetchTimetable(user: User, now: int, login: Option<Handle>,
                          raw: Result<seq<RawEntry>, string>, logoutError: Option<string>)
      returns (r: Result<seq<UntisLesson>, string>)
      modifies this
      ensures var loginNeeded := !Reusable(old(sessions), user.username, now);
        loginNeeded && login.None? ==> r.Failure? && sessions == old(sessions)
      ensures var session := Reusable(old(sessions), user.username, now) || login.Some?;
        var afterLogin := if Reusable(old(sessions), user.username, now) || login.None? then old(sessions)
                          else old(sessions)[user.username := SessionEntry(login.value, now)];
        session ==> match TimetableOf(raw)
          case Success(lessons) => r == Success(lessons) && sessions == afterLogin
          case Failure(e) =>
            if logoutError.None? then r == Failure(e) && sessions == afterLogin - {user.username}
            else r == Failure(logoutError.value) && sessions == afterLogin
    {
      var session, _ := GetUntisSession(user, now, login);
      if session.Failure? {
        return Failure(session.error);
      }
      var outcome := TimetableOf(raw);
      if outcome.Success? {
        return outcome;
      }
      // catch: `await untis.logout()` runs first; when it throws, the delete is skipped
      if logoutError.Some? {
        return Failure(logoutError.value);
      }
      sessions := sessions - {user.username};
      r := Failure(outcome.error);
    }
  }

  // ---------------------------------------------------------------- raw entries

  /**
    A subject, teacher, room or class reference of a raw entry; None is a
    missing field. The fields are taken to be strings or missing: a
    non-string would make `toLowerCase` throw in the filter
    (src/webuntis.ts:51-52), and a truthy non-string would be kept by `||` in
    the map, and neither is modelled.
  */
  datatype ElementRef = ElementRef(name: Option<string>, longname: Option<string>)

  /**
    One entry of `getOwnTimetableForRange`. A missing element list and an empty
    one behave alike under `?.[0]`, so both are the empty sequence; a missing
    `date` is None.
  */
  datatype RawEntry = RawEntry(
    date: Option<int>,
    startTime: int,
    endTime: int,
    su: seq<ElementRef>,
    te: seq<ElementRef>,
    ro: seq<ElementRef>,
    kl: seq<ElementRef>,
    code: Option<string>)

  /**
    The record the `map` builds. It holds single teacher and class strings and
    no `lstext`/`status`, whereas the `Lesson` type (src/types.ts:20-30)
    declares string arrays and both fields. `date` is None for an Invalid Date.
  */
  datatype UntisLesson = UntisLesson(
    startTime: int,
    endTime: int,
    subject: string,
    teacher: string,
    room: string,
    schoolClass: string,
    date: Option<Date>)

  /** `xs?.[i]?.<field>?.toLowerCase() ?? ""` for `field` the long name or the name. */
  function LowerOrEmpty(field: Option<string>): string
  {
    if field.Some? then Lower(field.value) else ""
  }

  function FirstLongname(xs: seq<ElementRef>): Option<string>
  {
    if xs == [] then None else xs[0].longname
  }

  function FirstName(xs: seq<ElementRef>): Option<string>
  {
    if xs == [] then None else xs[0].name
  }

  /** The filter of `fetchTimetable`. */
  predicate Keep(e: RawEntry)
  {
    e.code != Some("cancelled") &&
    !StartsWith(LowerOrEmpty(FirstLongname(e.su)), "eva") &&
    !StartsWith(LowerOrEmpty(FirstName(e.te)), "eva")
  }

  /** `value || fallback` for an optional string: undefined and "" are falsy. */
  function OrDefault(value: Option<string>, fallback: string): (r: string)
    ensures fallback != "" ==> r != ""
    ensures value.Some? && value.value != "" ==> r == value.value
    ensures (value.None? || value.value == "") ==> r == fallback
  {
    if value.Some? && value.value != "" then value.value else fallback
  }

  /** `kl?.[1]?.longname || kl?.[0]?.longname || "Unknown Class"`. */
  function ClassName(kl: seq<ElementRef>): string
  {
    var second := if |kl| >= 2 then kl[1].longname else None;
    OrDefault(second, OrDefault(FirstLongname(kl), "Unknown Class"))
  }

  /** The `map` callback; reading the date of an entry without one throws. */
  function MapEntry(e: RawEntry): (r: Result<UntisLesson, string>)
    ensures r.Failure? <==> e.date.None?
  {
    if e.date.None? then Failure("TypeError: cannot read the date") else Success(LessonOf(e))
  }

  /** The lesson the callback builds from an entry that has a date. */
  function LessonOf(e: RawEntry): UntisLesson
    requires e.date.Some?
  {
    UntisLesson(
      e.startTime,
      e.endTime,
      OrDefault(FirstName(e.su), "Event"),
      OrDefault(FirstName(e.te), "Unknown Teacher"),
      OrDefault(FirstName(e.ro), "Unknown Room"),
      ClassName(e.kl),
      ParseUntisDate(e.date.value))
  }

  /** `raw.filter(keep)`. */
  function Kept(raw: seq<RawEntry>): (r: seq<RawEntry>)
    ensures |r| <= |raw|
    ensures forall e :: e in r <==> e in raw && Keep(e)
  {
    if raw == [] then []
    else (if Keep(raw[0]) then [raw[0]] else []) + Kept(raw[1..])
  }

  /**
    The filter works entry by entry: filtering a concatenation filters each
    part, so kept entries keep their order and their multiplicity.
  */
  lemma {:induction false} KeptAppend(a: seq<RawEntry>, b: seq<RawEntry>)
    ensures Kept(a + b) == Kept(a) + Kept(b)
  {
    if a == [] {
      assert a + b == b;
    } else {
      assert (a + b)[0] == a[0] && (a + b)[1..] == a[1..] + b;
      KeptAppend(a[1..], b);
    }
  }

  /** An entry that passes the filter appears once in the result for each time it appears in the input; others do not appear. */
  lemma {:induction false} KeptCount(raw: seq<RawEntry>, e: RawEntry)
    ensures multiset(Kept(raw))[e] == if Keep(e) then multiset(raw)[e] else 0
  {
    if raw != [] {
      assert raw == [raw[0]] + raw[1..];
      KeptCount(raw[1..], e);
    }
  }

  /** `.map(callback)`: the first throwing entry aborts the whole map. */
  function MapAll(kept: seq<RawEntry>): (r: Result<seq<UntisLesson>, string>)
    ensures r.Failure? <==> exists e :: e in kept && e.date.None?
    ensures r.Success? ==> |r.value| == |kept|
    ensures r.Success? ==> forall i :: 0 <= i < |kept| ==> MapEntry(kept[i]) == Success(r.value[i])
  {
    if kept == [] then Success([])
    else
      var head := MapEntry(kept[0]);
      var tail := MapAll(kept[1..]);
      HeadAndTail(kept);
      if head.Failure? then Failure(head.error)
      else if tail.Failure? then Failure(tail.error)
      else
        MapCons(MapEntry, kept, head.value, tail.value);
        Success([head.value] + tail.value)
  }

  /** Mapping the tail and prepending the mapped head maps the whole sequence, for any callback `f`. */
  lemma MapCons<T, U>(f: T -> Result<U, string>, kept: seq<T>, first: U, others: seq<U>)
    requires kept != [] && f(kept[0]) == Success(first) && |others| == |kept| - 1
    requires forall i :: 0 <= i < |kept[1..]| ==> f(kept[1..][i]) == Success(others[i])
    ensures forall i :: 0 <= i < |kept| ==> f(kept[i]) == Success(([first] + others)[i])
  {
    forall i | 0 <= i < |kept|
      ensures f(kept[i]) == Success(([first] + others)[i])
    {
      if i > 0 {
        assert kept[i] == kept[1..][i - 1];
      }
    }
  }

  lemma HeadAndTail(s: seq<RawEntry>)
    requires s != []
    ensures forall x :: x in s <==> x == s[0] || x in s[1..]
  {
    assert s == [s[0]] + s[1..];
  }

  /** The body of the `try`: the fetched entries, filtered, then mapped. */
  function TimetableOf(raw: Result<seq<RawEntry>, string>): Result<seq<UntisLesson>, string>
  {
    match raw
    case Failure(e) => Failure(e)
    case Success(entries) => MapAll(Kept(entries))
  }

  // ---------------------------------------------------------------- properties

  /**
    A session stored at time `t` is reused by later calls exactly while less
    than SESSION_TTL_MS has passed; at exactly five minutes a new login happens.
    Storing it does not change whether another user's session is reused.
  */
  lemma SessionWindow(sessions: map<string, SessionEntry>, username: string, other: string,
                      untis: Handle, t: int, now: int)
    ensures Reusable(sessions[username := SessionEntry(untis, t)], username, now) <==> now - t < 300000
    ensures other != username ==>
      (Reusable(sessions[username := SessionEntry(untis, t)], other, now) <==> Reusable(sessions, other, now))
  {
  }

  /** A single scheme prefix is removed; a second one stays. */
  lemma StripSchemeOnce(rest: string)
    ensures StripScheme("https://" + rest) == rest
    ensures StripScheme("http://" + rest) == rest
  {
    assert StartsWith("https://" + rest, "https://") by {
      assert ("https://" + rest)[..8] == "https://";
    }
    assert StartsWith("http://" + rest, "http://") by {
      assert ("http://" + rest)[..7] == "http://";
    }
    assert !StartsWith("http://" + rest, "https://") by {
      assert ("http://" + rest)[4] == ':';
    }
  }

  /**
    Because the filter runs first, a normalisation fails exactly when some
    entry that passes the filter has no date; dropped entries never fail it.
  */
  lemma NormaliseFailsOnlyOnKept(entries: seq<RawEntry>)
    ensures TimetableOf(Success(entries)).Failure? <==> exists e :: e in entries && Keep(e) && e.date.None?
  {
    var kept := Kept(entries);
    if TimetableOf(Success(entries)).Failure? {
      var e :| e in kept && e.date.None?;
      assert e in entries && Keep(e);
    } else {
      forall e | e in entries && Keep(e) ensures e.date.Some? {
        assert e in kept;
      }
    }
  }

  /** Every normalised lesson comes from a kept entry, and its names are never empty. */
  lemma NormalisedLessons(entries: seq<RawEntry>)
    requires TimetableOf(Success(entries)).Success?
    ensures var lessons := TimetableOf(Success(entries)).value;
      |lessons| == |Kept(entries)| &&
      forall i :: 0 <= i < |lessons| ==>
        Keep(Kept(entries)[i]) && Kept(entries)[i] in entries &&
        lessons[i].subject != "" && lessons[i].teacher != "" &&
        lessons[i].room != "" && lessons[i].schoolClass != "" &&
        lessons[i].startTime == Kept(entries)[i].startTime &&
        lessons[i].endTime == Kept(entries)[i].endTime &&
        lessons[i].date == ParseUntisDate(Kept(entries)[i].date.value)
  {
    var kept := Kept(entries);
    var lessons := TimetableOf(Success(entries)).value;
    forall i | 0 <= i < |lessons|
      ensures Keep(kept[i]) && kept[i] in entries &&
        lessons[i].subject != "" && lessons[i].teacher != "" &&
        lessons[i].room != "" && lessons[i].schoolClass != "" &&
        lessons[i].startTime == kept[i].startTime &&
        lessons[i].endTime == kept[i].endTime &&
        lessons[i].date == ParseUntisDate(kept[i].date.value)
    {
      assert kept[i] in kept;
      assert MapEntry(kept[i]) == Success(lessons[i]);
    }
  }

  /** The class name prefers the second class's long name, then the first's, then the default. */
  lemma ClassNamePreference(kl: seq<ElementRef>)
    ensures |kl| >= 2 && kl[1].longname.Some? && kl[1].longname.value != "" ==>
      ClassName(kl) == kl[1].longname.value
    ensures ((|kl| < 2 || kl[1].longname.None? || kl[1].longname.value == "") &&
             kl != [] && kl[0].longname.Some? && kl[0].longname.value != "") ==>
      ClassName(kl) == kl[0].longname.value
    ensures ((|kl| < 2 || kl[1].longname.None? || kl[1].longname.value == "") &&
             (kl == [] || kl[0].longname.None? || kl[0].longname.value == "")) ==>
      ClassName(kl) == "Unknown Class"
  {
  }

  /** Entries marked cancelled and "eva" (self-study) entries are dropped, whatever their case. */
  lemma DroppedEntries(e: RawEntry)
    ensures e.code == Some("cancelled") ==> !Keep(e)
    ensures e.su != [] && e.su[0].longname.Some? && StartsWith(Lower(e.su[0].longname.value), "eva") ==> !Keep(e)
    ensures e.te != [] && e.te[0].name.Some? && StartsWith(Lower(e.te[0].name.value), "eva") ==> !Keep(e)
  {
  }
}
