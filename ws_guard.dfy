/** The guard in front of every WebSocket message handler
    (backend/src/common/auth/ws-jwt.guard.ts). */
module WsGuard {
  import opened Common
  import opened Tokens

  /** The guard's decision for a handshake: the verified payload, or the
      error it throws. `jwt` is the signature check (`JwtService.verify`),
      which yields the payload of a valid token. */
  function GuardVerdict(h: Handshake, jwt: string -> Option<Payload>): (r: Result<Payload>)
    ensures ExtractToken(h).None? ==> r == Err(Unauthorized("Missing token"))
    ensures r.Ok? <==>
      ExtractToken(h).Some? && jwt(ExtractToken(h).value).Some?
      && AcceptsTyp(jwt(ExtractToken(h).value).value)
    ensures r.Ok? ==> r.value == jwt(ExtractToken(h).value).value
    ensures r.Err? && ExtractToken(h).Some? ==> r == Err(Unauthorized("Invalid token"))
  {
    match ExtractToken(h)
    case None => Err(Unauthorized("Missing token"))
    case Some(token) =>
      match jwt(token)
      case None => Err(Unauthorized("Invalid token"))
      case Some(payload) =>
        if !AcceptsTyp(payload) then Err(Unauthorized("Invalid token")) else Ok(payload)
  }

  /** A token whose `typ` is 'refresh' never passes, whatever the handshake;
      a verified token without `typ` always does. */
  lemma RefreshTokensRejected(h: Handshake, jwt: string -> Option<Payload>)
    requires ExtractToken(h).Some?
    ensures jwt(ExtractToken(h).value).Some? && jwt(ExtractToken(h).value).value.typ == Some("refresh")
      ==> GuardVerdict(h, jwt) == Err(Unauthorized("Invalid token"))
    ensures jwt(ExtractToken(h).value).Some? && jwt(ExtractToken(h).value).value.typ == None
      ==> GuardVerdict(h, jwt) == Ok(jwt(ExtractToken(h).value).value)
  {
  }

  /** `client.data`: the user the guard stores, next to whatever else the
      socket carries. */
  datatype SocketData = SocketData(user: Option<Payload>, rest: map<string, Json>)

  /** The guard's view of a socket. */
  class WsClient {
    const handshake: Handshake
    var user: Option<Payload>
    var data: Option<SocketData>

    constructor (handshake: Handshake, data: Option<SocketData>)
      ensures this.handshake == handshake && this.user == None && this.data == data
    {
      this.handshake := handshake;
      this.user := None;
      this.data := data;
    }
  }

  class WsJwtGuard {
    const jwt: string -> Option<Payload>

    constructor (jwt: string -> Option<Payload>)
      ensures this.jwt == jwt
    {
      this.jwt := jwt;
    }

    /** `canActivate`: on success the payload is stored both as
        `client.user` and as `client.data.user`, the rest of `client.data`
        is kept, and the result is true; on failure the client is left as
        it was and the verdict's error is thrown. */
    method CanActivate(client: WsClient) returns (r: Result<bool>)
      modifies client
      ensures GuardVerdict(client.handshake, jwt).Err? ==>
        && r == Err(GuardVerdict(client.handshake, jwt).failure)
        && client.user == old(client.user) && client.data == old(client.data)
      ensures GuardVerdict(client.handshake, jwt).Ok? ==>
        var payload := GuardVerdict(client.handshake, jwt).value;
        && r == Ok(true)
        && client.user == Some(payload)
        && client.data == Some(old(client.data).GetOr(SocketData(None, map[])).(user := Some(payload)))
    {
      var verdict := GuardVerdict(client.handshake, jwt);
      if verdict.Err? {
        return Err(verdict.failure);
      }
      var payload := verdict.value;
      client.user := Some(payload);
      var data := if client.data.Some? then client.data.value else SocketData(None, map[]);
      client.data := Some(data.(user := Some(payload)));
      return Ok(true);
    }
  }
}
