/** Request authentication and role gating. The token comes from a `Bearer`
    authorization header or, failing that, from the `token` cookie; the token
    verifiers (an identity-provider token or a server-signed token) are given
    as a map from token to user id. */
module AuthMiddleware {
  import opened Wrappers
  import opened Domain

  /** The stored user document, as field name to value. */
  type Fields = map<string, string>

  /** The parts of the incoming request that authentication reads. */
  datatype Request = Request(authorization: Option<string>, cookieToken: Option<string>)

  predicate StartsWith(s: string, prefix: string) {
    |prefix| <= |s| && s[..|prefix|] == prefix
  }

  /** Index of the first `c` in `s`. */
  function IndexOf(s: string, c: char): (r: Option<nat>)
    ensures r.None? <==> c !in s
    ensures r.Some? ==> r.value < |s| && s[r.value] == c && c !in s[..r.value]
  {
    if |s| == 0 then None
    else if s[0] == c then Some(0)
    else
      match IndexOf(s[1..], c)
      case None => None
      case Some(i) =>
        assert s[..i + 1] == [s[0]] + s[1..][..i];
        Some(i + 1)
  }

  /** `s.split(" ")[1]`: the text between the first and the second space, or
      after the first space when there is no second; undefined without a space. */
  function SecondField(s: string): (r: Option<string>)
    ensures r.None? <==> ' ' !in s
    ensures r.Some? ==> ' ' !in r.value
  {
    match IndexOf(s, ' ')
    case None => None
    case Some(i) =>
      var rest := s[i + 1..];
      match IndexOf(rest, ' ')
      case None => Some(rest)
      case Some(j) => Some(rest[..j])
  }

  /** The token `protect` uses: from the header when it is present and starts
      with `Bearer`, otherwise from the cookie. A missing or empty token is
      `None`; the cookie is not consulted once the header starts with `Bearer`. */
  function ExtractToken(req: Request): (t: Option<string>)
    ensures t.Some? ==> |t.value| > 0
    ensures Truthy(req.authorization) && StartsWith(req.authorization.value, "Bearer") ==>
      (t.Some? <==> Truthy(SecondField(req.authorization.value)))
    ensures !(Truthy(req.authorization) && StartsWith(req.authorization.value, "Bearer")) ==>
      (t.Some? <==> Truthy(req.cookieToken)) && (t.Some? ==> t == req.cookieToken)
  {
    var raw :=
      if Truthy(req.authorization) && StartsWith(req.authorization.value, "Bearer")
      then SecondField(req.authorization.value)
      else req.cookieToken;
    if Truthy(raw) then raw else None
  }

  /** A header `Bearer <t>` yields `t` for any non-empty `t` without spaces,
      whatever the cookie holds. */
  lemma BearerRoundTrip(t: string, cookie: Option<string>)
    requires |t| > 0 && ' ' !in t
    ensures ExtractToken(Request(Some("Bearer " + t), cookie)) == Some(t)
  {
    var s := "Bearer " + t;
    assert s[..6] == "Bearer";
    assert IndexOf(s, ' ') == Some(6) by {
      assert s[6] == ' ';
      assert ' ' !in s[..6];
    }
    assert s[7..] == t;
  }

  /** A header that is exactly `Bearer` yields no token even when a cookie is set. */
  lemma BareBearerIgnoresCookie(cookie: Option<string>)
    ensures ExtractToken(Request(Some("Bearer"), cookie)) == None
  {
    assert ' ' !in "Bearer";
  }

  /** `protect`: no token answers 401, a token no verifier accepts answers 401,
      a verified id with no user document answers 401. Otherwise the request
      user is `{ uid, ...document }`: the document's own fields, including a
      stored `uid`, override the verified one. */
  function Protect(req: Request, verify: map<string, Id>, users: map<Id, Fields>): (r: Result<Fields, HttpError>)
    ensures r.Failure? ==> r.error == Unauthorized
    ensures r.Success? <==>
      ExtractToken(req).Some? && ExtractToken(req).value in verify && verify[ExtractToken(req).value] in users
    ensures r.Success? ==>
      var uid := verify[ExtractToken(req).value];
      && (forall k :: k in users[uid] ==> k in r.value && r.value[k] == users[uid][k])
      && ("uid" !in users[uid] ==> "uid" in r.value && r.value["uid"] == uid)
      && r.value.Keys == users[uid].Keys + {"uid"}
  {
    match ExtractToken(req)
    case None => Failure(Unauthorized)
    case Some(token) =>
      if token !in verify then Failure(Unauthorized)
      else
        var uid := verify[token];
        if uid !in users then Failure(Unauthorized)
        else Success(map["uid" := uid] + users[uid])
  }

  /** `authorize(...roles)`: passes iff the user's `role` field names one of
      the listed roles; anything else, an absent role included, answers 403. */
  function Authorize(allowed: seq<Role>, user: Fields): (r: Result<Role, HttpError>)
    ensures r.Failure? ==> r.error == Forbidden
    ensures r.Success? <==> "role" in user && exists k :: k in allowed && RoleName(k) == user["role"]
    ensures r.Success? ==> r.value in allowed && RoleName(r.value) == user["role"]
  {
    if "role" !in user then Failure(Forbidden)
    else
      match ParseRole(user["role"])
      case None => Failure(Forbidden)
      case Some(k) => if k in allowed then Success(k) else Failure(Forbidden)
  }
}
