/** The guard in front of the HTTP routes
    (backend/src/common/auth/jwt.guard.ts). */
module HttpGuard {
  import opened Common
  import opened Text
  import opened Tokens

  /** The token of an `Authorization` header: everything after "Bearer ",
      untrimmed; nothing when the header is missing or lacks the prefix. */
  function BearerToken(header: Option<string>): (r: Option<string>)
    ensures r.Some? <==> header.Some? && StartsWith(header.value, BEARER)
    ensures r.Some? ==> header.value == BEARER + r.value
  {
    if header.None? || header.value == "" || !StartsWith(header.value, BEARER) then None
    else
      assert header.value == header.value[..7] + header.value[7..];
      Some(header.value[7..])
  }

  /** Whatever follows "Bearer " is the token, white space included. */
  lemma {:induction false} BearerTokenRoundTrip(t: string)
    ensures BearerToken(Some(BEARER + t)) == Some(t)
  {
    assert StartsWith(BEARER + t, BEARER);
  }

  /** The guard's decision: 'No token' without a bearer header, 'Bad token'
      when verification fails, the payload otherwise. */
  function HttpVerdict(header: Option<string>, jwt: string -> Option<Payload>): (r: Result<Payload>)
    ensures BearerToken(header).None? ==> r == Err(Unauthorized("No token"))
    ensures BearerToken(header).Some? ==>
      r == (if jwt(BearerToken(header).value).Some?
            then Ok(jwt(BearerToken(header).value).value)
            else Err(Unauthorized("Bad token")))
  {
    match BearerToken(header)
    case None => Err(Unauthorized("No token"))
    case Some(token) =>
      match jwt(token)
      case None => Err(Unauthorized("Bad token"))
      case Some(payload) => Ok(payload)
  }

  /** Unlike the WebSocket guard, the HTTP guard does not look at `typ`: a
      verified payload passes whatever its `typ`. */
  lemma HttpGuardIgnoresTyp(t: string, jwt: string -> Option<Payload>)
    requires jwt(t).Some?
    ensures HttpVerdict(Some(BEARER + t), jwt) == Ok(jwt(t).value)
  {
    BearerTokenRoundTrip(t);
  }

  /** The request as the guard sees it. */
  class Request {
    const authorization: Option<string>
    var user: Option<Payload>

    constructor (authorization: Option<string>)
      ensures this.authorization == authorization && this.user == None
    {
      this.authorization := authorization;
      this.user := None;
    }
  }

  class JwtGuard {
    const jwt: string -> Option<Payload>

    constructor (jwt: string -> Option<Payload>)
      ensures this.jwt == jwt
    {
      this.jwt := jwt;
    }

    /** `canActivate`: on success `req.user` is the payload and the result
        is true; on failure the request is untouched. */
    method CanActivate(req: Request) returns (r: Result<bool>)
      modifies req
      ensures HttpVerdict(req.authorization, jwt).Err? ==>
        r == Err(HttpVerdict(req.authorization, jwt).failure) && req.user == old(req.user)
      ensures HttpVerdict(req.authorization, jwt).Ok? ==>
        r == Ok(true) && req.user == Some(HttpVerdict(req.authorization, jwt).value)
    {
      var auth := req.authorization;
      if auth.None? || auth.value == "" || !StartsWith(auth.value, BEARER) {
        return Err(Unauthorized("No token"));
      }
      var token := auth.value[7..];
      var payload := jwt(token);
      if payload.None? {
        return Err(Unauthorized("Bad token"));
      }
      req.user := payload;
      return Ok(true);
    }
  }
}
