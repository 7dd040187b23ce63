/**
 * The authentication middleware `verifyToken`: it finds a token in the
 * `jwt` cookie or, failing that, in a `Bearer` Authorization header, and
 * either answers 401 or 403 or records the verified payload on the request
 * and passes it on. Signature checking is an oracle `verify` that returns
 * the payload of a valid token and nothing for an invalid one.
 */
module Auth {
  import opened Js

  /** The claims of a verified token. */
  type Payload = map<string, JsValue>

  const BearerPrefix: string := "Bearer "

  /** What the middleware does with the request. */
  datatype AuthOutcome =
    | Reply(status: int, message: string)
    | Next(payload: Payload)

  const NotAuthenticated: AuthOutcome := Reply(401, "You are not authenticated!")
  const InvalidToken: AuthOutcome := Reply(403, "Token is not valid!")

  /** The token after the `Bearer ` prefix of an Authorization header, if it has that prefix. */
  function HeaderToken(header: Option<string>): (token: Option<string>)
    ensures token.Some? <==> header.Some? && StartsWith(header.value, BearerPrefix)
    ensures token.Some? ==> header.value == BearerPrefix + token.value
  {
    if header.Some? && StartsWith(header.value, BearerPrefix) then
      var t := header.value[|BearerPrefix|..];
      assert header.value == header.value[..|BearerPrefix|] + t;
      Some(t)
    else None
  }

  /**
   * The token the middleware goes on with: the cookie when it is a
   * non-empty string, otherwise the header token when that is non-empty.
   * An empty string is falsy, so it counts as no token at all.
   */
  function SelectToken(cookie: Option<string>, header: Option<string>): (token: Option<string>)
    ensures token.Some? ==> token.value != ""
    ensures cookie.Some? && cookie.value != "" ==> token == cookie
    ensures (cookie.None? || cookie.value == "") ==>
      (token.Some? <==> header.Some? && StartsWith(header.value, BearerPrefix) && |header.value| > |BearerPrefix|)
    ensures (cookie.None? || cookie.value == "") && token.Some? ==> header.value == BearerPrefix + token.value
  {
    if cookie.Some? && cookie.value != "" then cookie
    else
      var h := HeaderToken(header);
      if h.Some? && h.value != "" then h else None
  }

  /** `req.userId = payload.userId`: a claim that is absent reads as undefined. */
  function UserIdOf(payload: Payload): (id: JsValue)
    ensures "userId" !in payload ==> id == Undefined
    ensures "userId" in payload ==> id == payload["userId"]
  {
    if "userId" in payload then payload["userId"] else Undefined
  }

  /** The outcome for a request with the given cookie and header. */
  function Authenticate(cookie: Option<string>, header: Option<string>, verify: string -> Option<Payload>): (outcome: AuthOutcome)
    ensures outcome == NotAuthenticated <==> SelectToken(cookie, header) == None
    ensures outcome == InvalidToken <==> SelectToken(cookie, header).Some? && verify(SelectToken(cookie, header).value) == None
    ensures outcome.Next? <==> SelectToken(cookie, header).Some? && verify(SelectToken(cookie, header).value).Some?
    ensures outcome.Next? ==> outcome.payload == verify(SelectToken(cookie, header).value).value
  {
    var token := SelectToken(cookie, header);
    if token.None? then NotAuthenticated
    else
      var payload := verify(token.value);
      if payload.None? then InvalidToken else Next(payload.value)
  }

  /** The part of an incoming request the middleware reads and writes. */
  class Request {
    /** `req.cookies.jwt`. */
    const cookieJwt: Option<string>
    /** `req.headers.authorization`. */
    const authorization: Option<string>
    /** `req.userId`, undefined until the middleware sets it. */
    var userId: JsValue
    /** `req.user`, absent until the middleware sets it. */
    var user: Option<Payload>

    constructor (cookieJwt: Option<string>, authorization: Option<string>)
      ensures this.cookieJwt == cookieJwt && this.authorization == authorization
      ensures userId == Undefined && user == None
    {
      this.cookieJwt := cookieJwt;
      this.authorization := authorization;
      userId := Undefined;
      user := None;
    }

    /**
     * `verifyToken`. A refusal leaves the request as it was; passing the
     * request on records the payload and its `userId` claim on it.
     */
    method VerifyToken(verify: string -> Option<Payload>) returns (outcome: AuthOutcome)
      modifies this
      ensures outcome == Authenticate(cookieJwt, authorization, verify)
      ensures outcome.Reply? ==> userId == old(userId) && user == old(user)
      ensures outcome.Next? ==> userId == UserIdOf(outcome.payload) && user == Some(outcome.payload)
    {
      var token := cookieJwt;
      if token.None? || token.value == "" {
        var authHeader := authorization;
        if authHeader.Some? && authHeader.value != "" && StartsWith(authHeader.value, BearerPrefix) {
          token := Some(authHeader.value[|BearerPrefix|..]);
        }
      }
      if token.None? || token.value == "" {
        return NotAuthenticated;
      }
      var payload := verify(token.value);
      if payload.None? {
        return InvalidToken;
      }
      userId := UserIdOf(payload.value);
      user := Some(payload.value);
      outcome := Next(payload.value);
    }
  }

  /** A refusal is always a 401 or a 403, and only a passed request carries a payload. */
  lemma RefusalStatuses(cookie: Option<string>, header: Option<string>, verify: string -> Option<Payload>)
    ensures var outcome := Authenticate(cookie, header, verify);
      outcome.Reply? ==> outcome.status == 401 || outcome.status == 403
  {
  }

  /** A non-empty cookie wins: the Authorization header is then never looked at. */
  lemma CookieWins(cookie: string, h1: Option<string>, h2: Option<string>, verify: string -> Option<Payload>)
    requires cookie != ""
    ensures Authenticate(Some(cookie), h1, verify) == Authenticate(Some(cookie), h2, verify)
    ensures Authenticate(Some(cookie), h1, verify) == if verify(cookie).Some? then Next(verify(cookie).value) else InvalidToken
  {
  }

  /** An empty cookie is falsy, so a `Bearer` header is used instead. */
  lemma EmptyCookieFallsBack(t: string, verify: string -> Option<Payload>)
    requires t != ""
    ensures SelectToken(Some(""), Some(BearerPrefix + t)) == Some(t)
    ensures SelectToken(None, Some(BearerPrefix + t)) == Some(t)
  {
    assert (BearerPrefix + t)[|BearerPrefix|..] == t;
  }

  /** The prefix test is case-sensitive: a `bearer ` header gives no token and a 401. */
  lemma LowercaseBearerRefused(t: string, verify: string -> Option<Payload>)
    ensures Authenticate(None, Some("bearer " + t), verify) == NotAuthenticated
  {
    assert ("bearer " + t)[0] == 'b';
  }

  /** A header holding nothing but the prefix gives an empty, hence missing, token. */
  lemma BarePrefixRefused(cookie: Option<string>, verify: string -> Option<Payload>)
    requires cookie.None? || cookie.value == ""
    ensures Authenticate(cookie, Some(BearerPrefix), verify) == NotAuthenticated
  {
  }

  /** A token without the prefix, as a raw header value, is not accepted either. */
  lemma RawTokenRefused(t: string, verify: string -> Option<Payload>)
    requires t != [] && t[0] != 'B'
    ensures Authenticate(None, Some(t), verify) == NotAuthenticated
  {
    assert BearerPrefix[0] == 'B';
  }
}
