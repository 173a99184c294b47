/**
  The two timetable routes (src/index.ts): `/timetable/:name` serves a user's
  own timetable, `/timetable/:name/:type/:id` a class, room, teacher or subject
  timetable. Each route runs the access gate, finds the user, composes a cache
  key, answers from the cache on a hit and otherwise fetches, renders and
  stores the calendar.

  The foreign parts are inputs: the fetched lessons (or the error thrown by the
  fetch), the calendar serialiser, the translated error texts, the language the
  i18n middleware detected, and the clock (`now` for the cache lookup,
  `renderedAt` for the store).
*/
module Server {
  import opened Base
  import opened Text
  import opened Types
  import opened Access
  import Ics
  import Cache

  /** What a route sends: a calendar attachment or an error status with its text. */
  datatype Response = Document(filename: string, ics: string) | Error(status: int, message: string)

  /** What a failed fetch throws: an optional numeric `code` and a message. */
  datatype FetchError = FetchError(code: Option<int>, message: string)

  /** The translations of `errors.user_not_found`, `errors.no_timetable` and `errors.fetch_error`. */
  datatype Messages = Messages(userNotFound: string, noTimetable: string, fetchError: string)

  /** The configured users and time zone ("" when none is configured). */
  datatype Config = Config(users: seq<User>, timezone: string)

  const TimetableTypes: seq<string> := ["class", "room", "teacher", "subject"]

  // ---------------------------------------------------------------- request helpers

  /** `s.trim().toLowerCase()`. */
  function Normalize(s: string): (r: string)
    ensures r == [] || (!IsJsWhitespace(r[0]) && !IsJsWhitespace(r[|r| - 1]))
    ensures forall i :: 0 <= i < |r| ==> !IsUpper(r[i])
  {
    TrimmedEnds(s);
    Lower(Trim(s))
  }

  /** What `normalizeParam` keeps: the lower-cased stretch between leading and trailing white space. */
  lemma NormalizeContents(s: string)
    ensures exists i, j | 0 <= i <= j <= |s| :: AllWhitespace(s[..i]) && AllWhitespace(s[j..]) && Normalize(s) == Lower(s[i..j])
  {
    var i, j := TrimContents(s);
    assert Normalize(s) == Lower(s[i..j]);
  }

  /** A name without surrounding white space is only lower-cased. */
  lemma NormalizeUnpadded(s: string)
    requires s == [] || (!IsJsWhitespace(s[0]) && !IsJsWhitespace(s[|s| - 1]))
    ensures Normalize(s) == Lower(s)
  {
    TrimUnpadded(s);
  }

  lemma TrimmedEnds(s: string)
    ensures var t := Trim(s); t == [] || (!IsJsWhitespace(t[0]) && !IsJsWhitespace(t[|t| - 1]))
    ensures var t := Trim(s); forall i :: 0 <= i < |t| ==> IsJsWhitespace(Lower(t)[i]) == IsJsWhitespace(t[i])
  {
    TrimEndKeepsStart(TrimStart(s));
    var t := Trim(s);
    forall i | 0 <= i < |t| ensures IsJsWhitespace(Lower(t)[i]) == IsJsWhitespace(t[i]) {
      LowerKeepsWhitespace(t[i]);
    }
  }

  /** `normalizeParam`: undefined, the empty string and an empty array give "". */
  function NormalizeParam(param: Param): (r: string)
    ensures param.Absent? || param == Arr([]) ==> r == ""
    ensures param.Str? ==> r == Normalize(param.s)
    ensures param.Arr? && param.items != [] ==> r == Normalize(param.items[0])
  {
    match param
    case Absent => ""
    case Str(s) => if s == "" then "" else Normalize(s)
    case Arr(items) => if items == [] then "" else Normalize(items[0])
  }

  /** The user a route serves: the lookup key is the normalised route name. */
  function Served(users: seq<User>, rawName: Param): Option<User>
  {
    FindUser(users, NormalizeParam(rawName))
  }

  /**
    The corrected access gate: it decides for the user the route will serve,
    by reading the route name as `normalizeParam` does. The routes run the gate
    as src/accessHandler.ts writes it (`Access.AccessDecision`), which
    lower-cases the name without trimming it.
  */
  function Gate(rawName: Param, users: seq<User>, query: map<string, Param>,
                headers: map<string, Param>, translated: Option<string>): Decision
  {
    Check(NormalizeParam(rawName), users, query, headers, translated)
  }

  /** The language after the middleware: the user's setting replaces the detected one unless the query names a language. */
  function Language(user: User, query: map<string, Param>, detected: string): (lang: string)
    ensures Truthy(Lookup(query, "lang")) ==> lang == detected
    ensures !Truthy(Lookup(query, "lang")) && user.language.Some? && user.language.value != "" ==>
      lang == user.language.value
    ensures user.language.None? || user.language.value == "" ==> lang == detected
  {
    if user.language.Some? && user.language.value != "" && !Truthy(Lookup(query, "lang"))
    then user.language.value else detected
  }

  /** A query value as a template string renders it; a repeated value is comma-joined. */
  function ParamText(p: Param): string
  {
    match p
    case Absent => "undefined"
    case Str(s) => s
    case Arr(items) => Join(items, ",")
  }

  /** `query.cancelledDisplay || user.cancelledDisplay || "mark"`. */
  function DisplayFallback(query: Param, setting: Option<string>): (display: string)
    ensures Truthy(query) ==> display == ParamText(query)
    ensures !Truthy(query) && setting.Some? && setting.value != "" ==> display == setting.value
    ensures !Truthy(query) && (setting.None? || setting.value == "") ==> display == "mark"
  {
    if Truthy(query) then ParamText(query)
    else if setting.Some? && setting.value != "" then setting.value
    else "mark"
  }

  /** The type whitelist: anything else becomes undefined. */
  function ResolveType(rawType: string): (t: Option<string>)
    ensures t.Some? <==> rawType in TimetableTypes
    ensures t.Some? ==> t.value == rawType
  {
    if rawType in TimetableTypes then Some(rawType) else None
  }

  /** `rawId ? String(rawId) : undefined`. */
  function ResolveId(rawId: string): (id: Option<string>)
    ensures id.Some? ==> id.value != "" && id.value == rawId
    ensures id.None? <==> rawId == ""
  {
    if rawId == "" then None else Some(rawId)
  }

  function TypeOrOwn(t: Option<string>): string
  {
    if t.Some? then t.value else "own"
  }

  function IdOrEmpty(id: Option<string>): string
  {
    if id.Some? then id.value else ""
  }

  /** `configManager.config.timezone || "Europe/Berlin"`. */
  function Timezone(config: Config): string
  {
    if config.timezone != "" then config.timezone else "Europe/Berlin"
  }

  /** The cache key of the own-timetable route: `username:lang:display`. */
  function OwnKey(username: string, lang: string, display: string): string
  {
    username + ":" + lang + ":" + display
  }

  /** The cache key of the typed route: `username:(type|own):(id|""):lang:display`. */
  function TypedKey(username: string, t: Option<string>, id: Option<string>, lang: string, display: string): string
  {
    username + ":" + TypeOrOwn(t) + ":" + IdOrEmpty(id) + ":" + lang + ":" + display
  }

  /** The typed route's download name on a cache hit: `name-type`, with `own` for no type. */
  function HitFilename(name: string, t: Option<string>): string
  {
    name + "-" + TypeOrOwn(t)
  }

  /** The typed route's download name after a fetch: the hit name, `-` and the lower-cased id. */
  function MissFilename(name: string, t: Option<string>, id: Option<string>): string
  {
    HitFilename(name, t) + "-" + Lower(IdOrEmpty(id))
  }

  /** The display setting a request asks for. */
  function Display(user: User, query: map<string, Param>): string
  {
    DisplayFallback(Lookup(query, "cancelledDisplay"), user.cancelledDisplay)
  }

  /** The reply to a thrown fetch error: its own message for code 404, the generic error otherwise. */
  function FetchFailure(err: FetchError, messages: Messages): (r: Response)
    ensures err.code == Some(404) ==> r == Error(404, err.message)
    ensures err.code != Some(404) ==> r == Error(500, messages.fetchError)
  {
    if err.code == Some(404) then Error(404, err.message) else Error(500, messages.fetchError)
  }

  /**
    After a cache miss: the reply, and the rendered document to store (None
    when nothing is stored). An empty lesson list is a 404 and is not cached.
  */
  function AfterFetch(fetched: Result<seq<Lesson>, FetchError>, messages: Messages, filename: string,
                      timezone: string, requestedTimetable: string, serialise: Ics.Calendar -> string)
    : (r: (Response, Option<string>))
    ensures r.1.Some? <==> fetched.Success? && fetched.value != []
    ensures r.1.Some? ==>
      r.0 == Document(filename, r.1.value) &&
      r.1.value == serialise(Ics.CalendarOf(fetched.value, timezone, requestedTimetable))
    ensures fetched.Success? && fetched.value == [] ==> r.0 == Error(404, messages.noTimetable)
    ensures fetched.Failure? ==> r.0 == FetchFailure(fetched.error, messages)
  {
    match fetched
    case Failure(err) => (FetchFailure(err, messages), None)
    case Success(lessons) =>
      if lessons == [] then (Error(404, messages.noTimetable), None)
      else
        var ics := serialise(Ics.CalendarOf(lessons, timezone, requestedTimetable));
        (Document(filename, ics), Some(ics))
  }

  /** The cache after a miss: what `get` left, plus the stored document if there is one. */
  function Stored(cache: map<string, CacheEntry>, key: string, stored: Option<string>, renderedAt: int)
    : map<string, CacheEntry>
  {
    if stored.Some? then cache[key := CacheEntry(renderedAt, stored.value)] else cache
  }

  // ---------------------------------------------------------------- the routes

  /**
    `GET /timetable/:name` behind `accessHandler` as written (`Access.AccessDecision`).
    `fetched` is what `fetchTimetable` returns or throws for the user.
  */
  method OwnTimetable(icsCache: Cache.CacheHandler, config: Config, rawName: Param,
                      query: map<string, Param>, headers: map<string, Param>,
                      translated: Option<string>, messages: Messages, detected: string,
                      now: int, fetched: Result<seq<Lesson>, FetchError>,
                      serialise: Ics.Calendar -> string, renderedAt: int)
    returns (response: Response, fetchCalled: bool)
    modifies icsCache
    ensures AccessDecision(rawName, config.users, query, headers, translated).Deny? ==>
      response == Error(401, DenyMessage(translated)) && !fetchCalled &&
      icsCache.cache == old(icsCache.cache)
    ensures AccessDecision(rawName, config.users, query, headers, translated).Allow? &&
            Served(config.users, rawName).None? ==>
      response == Error(404, messages.userNotFound) && !fetchCalled &&
      icsCache.cache == old(icsCache.cache)
    ensures AccessDecision(rawName, config.users, query, headers, translated).Allow? &&
            Served(config.users, rawName).Some? ==>
      var user := Served(config.users, rawName).value;
      var key := OwnKey(user.username, Language(user, query, detected), Display(user, query));
      var hit := Cache.Find(old(icsCache.cache), key, now, icsCache.ttlMs);
      var after := AfterFetch(fetched, messages, user.friendlyName, Timezone(config),
                              user.friendlyName, serialise);
      (hit.Some? ==>
        response == Document(user.friendlyName, hit.value.ics) && !fetchCalled &&
        icsCache.cache == old(icsCache.cache)) &&
      (hit.None? ==>
        fetchCalled && response == after.0 &&
        icsCache.cache == Stored(Cache.AfterGet(old(icsCache.cache), key, now, icsCache.ttlMs),
                                 key, after.1, renderedAt))
  {
    var decision := AccessDecision(rawName, config.users, query, headers, translated);
    if decision.Deny? {
      return Error(decision.status, decision.message), false;
    }
    var found := FindUser(config.users, NormalizeParam(rawName));
    if found.None? {
      return Error(404, messages.userNotFound), false;
    }
    var user := found.value;
    var lang := Language(user, query, detected);
    var display := DisplayFallback(Lookup(query, "cancelledDisplay"), user.cancelledDisplay);
    var cacheKey := OwnKey(user.username, lang, display);
    var entry := icsCache.Get(cacheKey, now);
    if entry.Some? {
      return Document(user.friendlyName, entry.value.ics), false;
    }
    response, fetchCalled := Respond(icsCache, cacheKey, fetched, messages, user.friendlyName,
                                     Timezone(config), user.friendlyName, serialise, renderedAt);
  }

  /** `GET /timetable/:name/:type/:id`. `fetched` is the fetch's outcome for this type and id. */
  method TypedTimetable(icsCache: Cache.CacheHandler, config: Config, rawName: Param,
                        typeParam: Param, idParam: Param,
                        query: map<string, Param>, headers: map<string, Param>,
                        translated: Option<string>, messages: Messages, detected: string,
                        now: int, fetched: Result<seq<Lesson>, FetchError>,
                        serialise: Ics.Calendar -> string, renderedAt: int)
    returns (response: Response, fetchCalled: bool)
    modifies icsCache
    ensures AccessDecision(rawName, config.users, query, headers, translated).Deny? ==>
      response == Error(401, DenyMessage(translated)) && !fetchCalled &&
      icsCache.cache == old(icsCache.cache)
    ensures AccessDecision(rawName, config.users, query, headers, translated).Allow? &&
            Served(config.users, rawName).None? ==>
      response == Error(404, messages.userNotFound) && !fetchCalled &&
      icsCache.cache == old(icsCache.cache)
    ensures AccessDecision(rawName, config.users, query, headers, translated).Allow? &&
            Served(config.users, rawName).Some? ==>
      var user := Served(config.users, rawName).value;
      var name := NormalizeParam(rawName);
      var t := ResolveType(NormalizeParam(typeParam));
      var id := ResolveId(NormalizeParam(idParam));
      var key := TypedKey(user.username, t, id, Language(user, query, detected), Display(user, query));
      var hit := Cache.Find(old(icsCache.cache), key, now, icsCache.ttlMs);
      var after := AfterFetch(fetched, messages, MissFilename(name, t, id),
                              Timezone(config),
                              user.friendlyName + " - " + TypeOrOwn(t) + " " + IdOrEmpty(id), serialise);
      (hit.Some? ==>
        response == Document(HitFilename(name, t), hit.value.ics) && !fetchCalled &&
        icsCache.cache == old(icsCache.cache)) &&
      (hit.None? ==>
        fetchCalled && response == after.0 &&
        icsCache.cache == Stored(Cache.AfterGet(old(icsCache.cache), key, now, icsCache.ttlMs),
                                 key, after.1, renderedAt))
  {
    var decision := AccessDecision(rawName, config.users, query, headers, translated);
    if decision.Deny? {
      return Error(decision.status, decision.message), false;
    }
    var name := NormalizeParam(rawName);
    var rawType := NormalizeParam(typeParam);
    var rawId := NormalizeParam(idParam);
    var found := FindUser(config.users, Lower(name));
    LookupKeyNormalised(rawName);
    if found.None? {
      return Error(404, messages.userNotFound), false;
    }
    var user := found.value;
    var lang := Language(user, query, detected);
    var t := ResolveType(rawType);
    var id := ResolveId(rawId);
    var display := DisplayFallback(Lookup(query, "cancelledDisplay"), user.cancelledDisplay);
    var cacheKey := TypedKey(user.username, t, id, lang, display);
    var entry := icsCache.Get(cacheKey, now);
    if entry.Some? {
      return Document(HitFilename(name, t), entry.value.ics), false;
    }
    response, fetchCalled := Respond(icsCache, cacheKey, fetched, messages,
                                     MissFilename(name, t, id),
                                     Timezone(config),
                                     user.friendlyName + " - " + TypeOrOwn(t) + " " + IdOrEmpty(id),
                                     serialise, renderedAt);
  }

  /** The miss path shared by both routes: fetch outcome, empty check, render, store. */
  method Respond(icsCache: Cache.CacheHandler, cacheKey: string, fetched: Result<seq<Lesson>, FetchError>,
                 messages: Messages, filename: string, timezone: string, requestedTimetable: string,
                 serialise: Ics.Calendar -> string, renderedAt: int)
    returns (response: Response, fetchCalled: bool)
    modifies icsCache
    ensures var after := AfterFetch(fetched, messages, filename, timezone, requestedTimetable, serialise);
      fetchCalled && response == after.0 &&
      icsCache.cache == Stored(old(icsCache.cache), cacheKey, after.1, renderedAt)
  {
    fetchCalled := true;
    match fetched
    case Failure(err) =>
      response := FetchFailure(err, messages);
    case Success(lessons) =>
      if |lessons| == 0 {
        response := Error(404, messages.noTimetable);
      } else {
        var cal := Ics.LessonsToIcs(lessons, timezone, requestedTimetable);
        var ics := serialise(cal);
        icsCache.Set(cacheKey, ics, renderedAt);
        response := Document(filename, ics);
      }
  }

  // ---------------------------------------------------------------- properties

  /** The typed route lower-cases the normalised name once more, which changes nothing. */
  lemma LookupKeyNormalised(rawName: Param)
    ensures Lower(NormalizeParam(rawName)) == NormalizeParam(rawName)
  {
    match rawName
    case Absent =>
    case Str(s) => if s != "" { LowerIdempotent(Trim(s)); }
    case Arr(items) => if items != [] { LowerIdempotent(Trim(items[0])); }
  }

  /** `normalizeParam` applied to its own output gives that output back. */
  lemma NormalizeParamIdempotent(param: Param)
    ensures NormalizeParam(Str(NormalizeParam(param))) == NormalizeParam(param)
  {
    match param
    case Absent =>
    case Str(s) => if s != "" { NormalizeTwice(s); }
    case Arr(items) => if items != [] { NormalizeTwice(items[0]); }
  }

  lemma NormalizeTwice(s: string)
    ensures Normalize(Normalize(s)) == Normalize(s)
  {
    var t := Trim(s);
    TrimLowerCommute(t);
    TrimIdempotent(s);
    LowerIdempotent(t);
  }

  /** Route names differing only in case or in the white space before and after them select the same user. */
  lemma ServedIgnoresCaseAndPadding(users: seq<User>, pre: string, s: string, post: string)
    requires AllWhitespace(pre) && AllWhitespace(post)
    ensures Served(users, Str(pre + s + post)) == Served(users, Str(Lower(s)))
  {
    NormalizePadded(pre, s, post);
    NormalizeLowered(s);
  }

  lemma NormalizePadded(pre: string, s: string, post: string)
    requires AllWhitespace(pre) && AllWhitespace(post)
    ensures NormalizeParam(Str(pre + s + post)) == NormalizeParam(Str(s))
  {
    TrimPadded(pre, s, post);
  }

  lemma NormalizeLowered(s: string)
    ensures NormalizeParam(Str(Lower(s))) == NormalizeParam(Str(s))
  {
    TrimLowerCommute(s);
    LowerIdempotent(Trim(s));
  }

  /** Every resolved type is one of the four timetable kinds; spelling an unknown kind falls back to the own timetable. */
  lemma ResolvedTypes(p: Param)
    ensures var t := ResolveType(NormalizeParam(p));
      t.None? || t.value == "class" || t.value == "room" || t.value == "teacher" || t.value == "subject"
    ensures TypeOrOwn(ResolveType(NormalizeParam(p))) != "own" <==> ResolveType(NormalizeParam(p)).Some?
  {
  }

  predicate NoColon(s: string)
  {
    ':' !in s
  }

  /** A string with no colon, a colon, and the rest: the first colon marks the split. */
  lemma SplitAtColon(a: string, b: string, a': string, b': string)
    requires NoColon(a) && NoColon(a')
    requires a + ":" + b == a' + ":" + b'
    ensures a == a' && b == b'
  {
    var s := a + ":" + b;
    FirstColon(a, b);
    FirstColon(a', b');
    assert |a| == |a'|;
    assert a == s[..|a|];
    assert a' == (a' + ":" + b')[..|a'|];
    assert b == s[|a| + 1..];
    assert b' == (a' + ":" + b')[|a'| + 1..];
  }

  lemma FirstColon(a: string, b: string)
    requires NoColon(a)
    ensures (a + ":" + b)[|a|] == ':'
    ensures forall k :: 0 <= k < |a| ==> (a + ":" + b)[k] != ':'
  {
    forall k | 0 <= k < |a| ensures (a + ":" + b)[k] != ':' {
      assert (a + ":" + b)[k] == a[k];
    }
  }

  /** Own-route keys tell requests apart, as long as user name and language contain no colon. */
  lemma OwnKeyInjective(u: string, l: string, d: string, u': string, l': string, d': string)
    requires NoColon(u) && NoColon(l) && NoColon(u') && NoColon(l')
    requires OwnKey(u, l, d) == OwnKey(u', l', d')
    ensures u == u' && l == l' && d == d'
  {
    assert OwnKey(u, l, d) == u + ":" + (l + ":" + d);
    assert OwnKey(u', l', d') == u' + ":" + (l' + ":" + d');
    SplitAtColon(u, l + ":" + d, u', l' + ":" + d');
    SplitAtColon(l, d, l', d');
  }

  /** Typed-route keys tell resolved requests apart, as long as user name, id and language contain no colon. */
  lemma TypedKeyInjective(u: string, t: Option<string>, id: Option<string>, l: string, d: string,
                          u': string, t': Option<string>, id': Option<string>, l': string, d': string)
    requires NoColon(u) && NoColon(IdOrEmpty(id)) && NoColon(l)
    requires NoColon(u') && NoColon(IdOrEmpty(id')) && NoColon(l')
    requires t.None? || t.value in TimetableTypes
    requires t'.None? || t'.value in TimetableTypes
    requires id.None? || id.value != ""
    requires id'.None? || id'.value != ""
    requires TypedKey(u, t, id, l, d) == TypedKey(u', t', id', l', d')
    ensures u == u' && t == t' && id == id' && l == l' && d == d'
  {
    var ty, ty', i, i' := TypeOrOwn(t), TypeOrOwn(t'), IdOrEmpty(id), IdOrEmpty(id');
    TypeNameNoColon(t);
    TypeNameNoColon(t');
    TypedKeyShape(u, t, id, l, d);
    TypedKeyShape(u', t', id', l', d');
    SplitAtColon(u, ty + ":" + (i + ":" + (l + ":" + d)), u', ty' + ":" + (i' + ":" + (l' + ":" + d')));
    SplitAtColon(ty, i + ":" + (l + ":" + d), ty', i' + ":" + (l' + ":" + d'));
    SplitAtColon(i, l + ":" + d, i', l' + ":" + d');
    SplitAtColon(l, d, l', d');
  }

  lemma TypedKeyShape(u: string, t: Option<string>, id: Option<string>, l: string, d: string)
    ensures TypedKey(u, t, id, l, d) == u + ":" + (TypeOrOwn(t) + ":" + (IdOrEmpty(id) + ":" + (l + ":" + d)))
  {
    var ty, i := TypeOrOwn(t), IdOrEmpty(id);
    assert u + ":" + ty + ":" + i + ":" + l + ":" + d == u + ":" + (ty + ":" + (i + ":" + (l + ":" + d)));
  }

  lemma TypeNameNoColon(t: Option<string>)
    requires t.None? || t.value in TimetableTypes
    ensures NoColon(TypeOrOwn(t))
    ensures t.Some? ==> TypeOrOwn(t) != "own"
  {
  }

  /** The number of colons in a string. */
  function Colons(s: string): nat
  {
    multiset(s)[':']
  }

  /** With colon-free parts, an own-route key never equals a typed-route key, not even that of the `own` type. */
  lemma OwnAndTypedKeysDiffer(u: string, l: string, d: string,
                              u': string, t': Option<string>, id': Option<string>, l': string, d': string)
    requires NoColon(u) && NoColon(l) && NoColon(d)
    ensures OwnKey(u, l, d) != TypedKey(u', t', id', l', d')
  {
    var own := OwnKey(u, l, d);
    assert multiset(own) == multiset(u) + multiset(":") + multiset(l) + multiset(":") + multiset(d);
    assert Colons(own) == 2;
    var typed := TypedKey(u', t', id', l', d');
    assert multiset(typed) == multiset(u') + multiset(":") + multiset(TypeOrOwn(t')) + multiset(":") +
      multiset(IdOrEmpty(id')) + multiset(":") + multiset(l') + multiset(":") + multiset(d');
    assert Colons(typed) >= 4;
  }

  /**
    The typed route names one request's download differently on a hit and on a
    miss: the miss name extends the hit name by `-` and the id. The hit name
    does not depend on the id, while miss names of ids that differ after
    lower-casing differ.
  */
  lemma TypedFilenamesDiffer(name: string, t: Option<string>, id: Option<string>, id': Option<string>)
    ensures HitFilename(name, t) != MissFilename(name, t, id)
    ensures StartsWith(MissFilename(name, t, id), HitFilename(name, t) + "-")
    ensures Lower(IdOrEmpty(id)) != Lower(IdOrEmpty(id')) ==> MissFilename(name, t, id) != MissFilename(name, t, id')
  {
    var h := HitFilename(name, t) + "-";
    var m, m' := MissFilename(name, t, id), MissFilename(name, t, id');
    assert m == h + Lower(IdOrEmpty(id)) && m' == h + Lower(IdOrEmpty(id'));
    assert m[..|h|] == h;
    assert m[|h|..] == Lower(IdOrEmpty(id)) && m'[|h|..] == Lower(IdOrEmpty(id'));
  }

  // ---------------------------------------------------------------- the access gate and the served user

  /**
    As src/accessHandler.ts reads the route name, a padded name passes the gate
    unchecked: `" alice"` finds no user there, while the route trims it and
    serves Alice, whose timetable needs a token.
  */
  lemma PaddedNameBypassesGate()
    ensures var alice := User("school", "alice", "pw", "https://example.org", "Alice", None, None, Token("secret"));
      AccessDecision(Str(" alice"), [alice], map[], map[], None) == Allow &&
      Served([alice], Str(" alice")) == Some(alice) && Configured(alice.accessToken)
  {
    var alice := User("school", "alice", "pw", "https://example.org", "Alice", None, None, Token("secret"));
    LowerSamples();
    assert FindUser([alice], " alice") == None;
    TrimmedSample();
    assert FindUser([alice], "alice") == Some(alice);
  }

  /**
    The same request at route level: with an empty cache, `GET /timetable/%20alice`
    without a token is answered with Alice's calendar, although her token is
    configured.
  */
  method PaddedNameServed(lessons: seq<Lesson>, messages: Messages, serialise: Ics.Calendar -> string)
    returns (response: Response)
    requires lessons != []
    ensures response == Document("Alice", serialise(Ics.CalendarOf(lessons, "Europe/Berlin", "Alice")))
  {
    var alice := User("school", "alice", "pw", "https://example.org", "Alice", None, None, Token("secret"));
    var icsCache := new Cache.CacheHandler(60);
    PaddedNameBypassesGate();
    var fetchCalled;
    response, fetchCalled := OwnTimetable(icsCache, Config([alice], ""), Str(" alice"), map[], map[], None,
                                          messages, "en", 0, Success(lessons), serialise, 0);
  }

  lemma LowerSamples()
    ensures Lower(" alice") == " alice" && Lower("Alice") == "alice" && Lower("alice") == "alice"
  {
    assert Lower(" alice") == [LowerChar(' '), LowerChar('a'), LowerChar('l'), LowerChar('i'), LowerChar('c'), LowerChar('e')];
    assert Lower("Alice") == [LowerChar('A'), LowerChar('l'), LowerChar('i'), LowerChar('c'), LowerChar('e')];
    assert Lower("alice") == [LowerChar('a'), LowerChar('l'), LowerChar('i'), LowerChar('c'), LowerChar('e')];
  }

  lemma TrimmedSample()
    ensures NormalizeParam(Str(" alice")) == "alice"
  {
    TrimSample();
    LowerSamples();
  }

  lemma TrimSample()
    ensures Trim(" alice") == "alice"
  {
    TrimStartSample();
    TrimEndSample();
  }

  lemma TrimStartSample()
    ensures TrimStart(" alice") == "alice"
  {
    assert " alice" == " " + "alice";
    TrimStartPadded(" ", "alice");
    TrimStartOfLetter("alice");
  }

  lemma TrimStartOfLetter(s: string)
    requires s != [] && s[0] == 'a'
    ensures TrimStart(s) == s
  {
  }

  lemma TrimEndSample()
    ensures TrimEnd("alice") == "alice"
  {
  }

  /**
    The gate the routes run checks exactly the user the route serves: when
    that user has a truthy token configured, the request passes only with one
    of the allowed tokens.
  */
  lemma GateGuardsServedUser(rawName: Param, users: seq<User>, query: map<string, Param>,
                             headers: map<string, Param>, translated: Option<string>, user: User)
    requires Served(users, rawName) == Some(user) && user.friendlyName != ""
    requires Configured(user.accessToken)
    ensures Gate(rawName, users, query, headers, translated) == Allow
        <==> Admits(user, PresentedToken(query, headers))
    ensures Gate(rawName, users, query, headers, translated) != Allow ==>
      Gate(rawName, users, query, headers, translated) == Deny(401, DenyMessage(translated))
  {
    assert |Lower(user.friendlyName)| == |user.friendlyName|;
  }
}
