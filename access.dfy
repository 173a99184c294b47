/**
  `accessHandler` (src/accessHandler.ts): the gate in front of both timetable
  routes. A route whose user has an access token configured is served only
  when the request presents one of the configured tokens; every other request
  passes through. The decision is a value: `Allow` for `next()`, `Deny` for the
  401 reply. The translation of the deny message is an input (`None` when the
  request carries no translation function).
*/
module Access {
  import opened Base
  import opened Text
  import opened Types

  datatype Decision = Allow | Deny(status: int, message: string)

  const DefaultDenyMessage := "Invalid or missing access token"

  /** The route name as the gate reads it: lower-cased, not trimmed; "" for undefined and for the empty name. */
  function RouteName(rawName: Param): string
  {
    match rawName
    case Absent => ""
    case Str(s) => Lower(s)
    case Arr(items) => if items == [] then "" else Lower(items[0])
  }

  /** The first user whose lower-cased friendly name is `name`. */
  function FindUser(users: seq<User>, name: string): (r: Option<User>)
    ensures r.None? <==> forall i :: 0 <= i < |users| ==> Lower(users[i].friendlyName) != name
    ensures r.Some? ==>
      exists i :: (0 <= i < |users| && users[i] == r.value && Lower(users[i].friendlyName) == name &&
                   forall j :: 0 <= j < i ==> Lower(users[j].friendlyName) != name)
  {
    if |users| == 0 then None
    else if Lower(users[0].friendlyName) == name then Some(users[0])
    else
      var r := FindUser(users[1..], name);
      assert forall i :: 1 <= i < |users| ==> users[i] == users[1..][i - 1];
      r
  }

  /** JavaScript truthiness of the configured token: a non-empty string, or any array (even an empty one). */
  predicate Configured(token: AccessToken)
  {
    match token
    case NoToken => false
    case Token(value) => value != ""
    case TokenList(_) => true
  }

  /** The configured array, or the singleton of the configured string. */
  function AllowedTokens(token: AccessToken): seq<string>
  {
    match token
    case NoToken => []
    case Token(value) => [value]
    case TokenList(values) => values
  }

  /** JavaScript `a || b`. */
  function Or(a: Param, b: Param): Param
  {
    if Truthy(a) then a else b
  }

  /** A raw token value: its first element when repeated; None when what remains is falsy. */
  function TokenOf(raw: Param): Option<string>
  {
    match raw
    case Absent => None
    case Str(s) => if s == "" then None else Some(s)
    case Arr(items) => if items == [] || items[0] == "" then None else Some(items[0])
  }

  /** The token a request presents: query `access_token`, query `accessToken`, header `x-access-token`, header `authorization`, the first truthy one winning. */
  function PresentedToken(query: map<string, Param>, headers: map<string, Param>): (t: Option<string>)
    ensures t.Some? ==> t.value != ""
  {
    TokenOf(Or(Or(Or(Lookup(query, "access_token"), Lookup(query, "accessToken")),
                  Lookup(headers, "x-access-token")),
               Lookup(headers, "authorization")))
  }

  /** The translated message when there is a non-empty one, else the default text. */
  function DenyMessage(translated: Option<string>): (m: string)
    ensures m != ""
    ensures m == DefaultDenyMessage || Some(m) == translated
  {
    if translated.Some? && translated.value != "" then translated.value else DefaultDenyMessage
  }

  /** The route names a user whose configured token is truthy: only such requests are checked. */
  predicate Guarded(users: seq<User>, name: string)
  {
    name != "" && FindUser(users, name).Some? && Configured(FindUser(users, name).value.accessToken)
  }

  /** The presented token is literally one of the user's allowed tokens. */
  predicate Admits(user: User, token: Option<string>)
  {
    token.Some? && token.value in AllowedTokens(user.accessToken)
  }

  /** The decision for an already normalised route name. */
  function Check(name: string, users: seq<User>, query: map<string, Param>, headers: map<string, Param>,
                 translated: Option<string>): (d: Decision)
    ensures d == Allow || d == Deny(401, DenyMessage(translated))
    ensures d.Deny? <==>
      Guarded(users, name) && !Admits(FindUser(users, name).value, PresentedToken(query, headers))
  {
    if name == "" then Allow
    else
      match FindUser(users, name)
      case None => Allow
      case Some(user) =>
        if !Configured(user.accessToken) then Allow
        else
          var token := PresentedToken(query, headers);
          if token.None? || token.value !in AllowedTokens(user.accessToken) then
            Deny(401, DenyMessage(translated))
          else Allow
  }

  /** The gate as src/accessHandler.ts writes it: the route name is lower-cased but not trimmed. */
  function AccessDecision(rawName: Param, users: seq<User>, query: map<string, Param>,
                          headers: map<string, Param>, translated: Option<string>): (d: Decision)
    ensures d.Deny? ==> d == Deny(401, DenyMessage(translated))
    ensures RouteName(rawName) == "" ==> d == Allow
  {
    Check(RouteName(rawName), users, query, headers, translated)
  }

  // ---------------------------------------------------------------- properties

  /** No name, an unknown user, or a user without a truthy token: the request passes. */
  lemma UnguardedAllowed(name: string, users: seq<User>, query: map<string, Param>,
                         headers: map<string, Param>, translated: Option<string>)
    requires name == "" || FindUser(users, name).None? ||
             !Configured(FindUser(users, name).value.accessToken)
    ensures Check(name, users, query, headers, translated) == Allow
  {
  }

  /** The user is looked up by friendly name regardless of case. */
  lemma RouteNameIgnoresCase(s: string, users: seq<User>, query: map<string, Param>,
                             headers: map<string, Param>, translated: Option<string>)
    ensures AccessDecision(Str(s), users, query, headers, translated)
         == AccessDecision(Str(Lower(s)), users, query, headers, translated)
  {
    LowerIdempotent(s);
  }

  /** The four token sources in order: each is consulted only when all before it are falsy. */
  lemma TokenPrecedence(query: map<string, Param>, headers: map<string, Param>)
    ensures Truthy(Lookup(query, "access_token")) ==>
      PresentedToken(query, headers) == TokenOf(Lookup(query, "access_token"))
    ensures !Truthy(Lookup(query, "access_token")) && Truthy(Lookup(query, "accessToken")) ==>
      PresentedToken(query, headers) == TokenOf(Lookup(query, "accessToken"))
    ensures (!Truthy(Lookup(query, "access_token")) && !Truthy(Lookup(query, "accessToken")) &&
             Truthy(Lookup(headers, "x-access-token"))) ==>
      PresentedToken(query, headers) == TokenOf(Lookup(headers, "x-access-token"))
    ensures (!Truthy(Lookup(query, "access_token")) && !Truthy(Lookup(query, "accessToken")) &&
             !Truthy(Lookup(headers, "x-access-token"))) ==>
      PresentedToken(query, headers) == TokenOf(Lookup(headers, "authorization"))
  {
  }

  /** Of a repeated value, the first element is the token; an empty repetition presents none. */
  lemma RepeatedTokenFirst(items: seq<string>)
    ensures items != [] && items[0] != "" ==> TokenOf(Arr(items)) == Some(items[0])
    ensures items == [] ==> TokenOf(Arr(items)) == None
  {
  }

  /**
    The `authorization` header is compared verbatim: for a user whose token is
    `t`, the header `Bearer t` is refused and the bare `t` is accepted.
  */
  lemma AuthorizationVerbatim(name: string, users: seq<User>, t: string, translated: Option<string>)
    requires name != "" && FindUser(users, name).Some?
    requires FindUser(users, name).value.accessToken == Token(t) && t != ""
    ensures Check(name, users, map[], map["authorization" := Str("Bearer " + t)], translated)
         == Deny(401, DenyMessage(translated))
    ensures Check(name, users, map[], map["authorization" := Str(t)], translated) == Allow
  {
    assert |"Bearer " + t| != |t|;
  }

  /** A configured empty token list is truthy, so it admits no request at all. */
  lemma EmptyTokenListDeniesAll(name: string, users: seq<User>, query: map<string, Param>,
                                headers: map<string, Param>, translated: Option<string>)
    requires name != "" && FindUser(users, name).Some?
    requires FindUser(users, name).value.accessToken == TokenList([])
    ensures Check(name, users, query, headers, translated) == Deny(401, DenyMessage(translated))
  {
  }

  /** The translated message wins unless it is missing or empty. */
  lemma DenyMessageFallback(s: string)
    ensures DenyMessage(None) == DefaultDenyMessage
    ensures DenyMessage(Some("")) == DefaultDenyMessage
    ensures s != "" ==> DenyMessage(Some(s)) == s
  {
  }
}
