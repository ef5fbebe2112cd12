/** Bearer tokens as the WebSocket side finds them in a connection's
    handshake, and the JWT payload fields the code reads. */
module Tokens {
  import opened Common
  import opened Text

  /** The claims of a verified JWT that the code looks at. */
  datatype Payload = Payload(sub: Option<string>, email: Option<string>, typ: Option<string>)

  /** A handshake field: missing, one string, or an array of strings (a
      repeated header or query parameter). */
  datatype Field = Missing | Str(s: string) | Strs(items: seq<string>)

  /** The three places a client may put its token. */
  datatype Handshake = Handshake(authorization: Field, authToken: Field, queryToken: Field)

  /** JavaScript truthiness of a field: a non-empty string or any array. */
  predicate Truthy(f: Field)
    ensures f.Missing? ==> !Truthy(f)
    ensures f.Strs? ==> Truthy(f)
    ensures f == Str("") ==> !Truthy(f)
  {
    match f
    case Missing => false
    case Str(s) => s != ""
    case Strs(_) => true
  }

  const BEARER: string := "Bearer "

  /** A "Bearer " prefix is cut off and the rest trimmed; any other value is
      taken as it is. */
  function StripBearer(raw: string): (r: string)
    ensures !StartsWith(raw, BEARER) ==> r == raw
    ensures StartsWith(raw, BEARER) ==> |r| <= |raw| - |BEARER| && Trim(r) == r
  {
    if StartsWith(raw, BEARER) then
      TrimIdempotent(raw[|BEARER|..]);
      Trim(raw[|BEARER|..])
    else raw
  }

  /** The token one field yields on its own: its string, or its array's
      first element, unless that is missing or empty. */
  function TokenFrom(f: Field): (r: Option<string>)
    ensures !Truthy(f) ==> r.None?
    ensures f.Str? ==> (r.Some? <==> Truthy(f)) && (r.Some? ==> r.value == StripBearer(f.s))
    ensures f.Strs? ==> (r.Some? <==> |f.items| > 0 && f.items[0] != "")
    ensures f.Strs? && r.Some? ==> r.value == StripBearer(f.items[0])
  {
    match f
    case Str(s) => if s != "" then Some(StripBearer(s)) else None
    case Strs(xs) => if |xs| > 0 && xs[0] != "" then Some(StripBearer(xs[0])) else None
    case Missing => None
  }

  /** `extractToken`: the header wins, then `auth.token`, then
      `query.token`; only the first field that is truthy is looked at. */
  function ExtractToken(h: Handshake): (r: Option<string>)
    ensures Truthy(h.authorization) ==> r == TokenFrom(h.authorization)
    ensures !Truthy(h.authorization) && Truthy(h.authToken) ==> r == TokenFrom(h.authToken)
    ensures !Truthy(h.authorization) && !Truthy(h.authToken) ==> r == TokenFrom(h.queryToken)
  {
    var authHeader :=
      if Truthy(h.authorization) then h.authorization
      else if Truthy(h.authToken) then h.authToken
      else h.queryToken;
    var raw: Option<string> :=
      match authHeader
      case Strs(xs) => if |xs| > 0 then Some(xs[0]) else None
      case Str(s) => Some(s)
      case Missing => None;
    if raw.None? || raw.value == "" then None
    else if StartsWith(raw.value, BEARER) then Some(Trim(raw.value[7..]))
    else Some(raw.value)
  }

  /** A bearer value round-trips: "Bearer " followed by an already trimmed
      token gives that token back; a value without the prefix is kept whole. */
  lemma {:induction false} StripBearerRoundTrip(t: string, raw: string)
    ensures Trim(t) == t ==> StripBearer(BEARER + t) == t
    ensures !StartsWith(raw, BEARER) ==> StripBearer(raw) == raw
  {
    assert (BEARER + t)[|BEARER|..] == t;
  }

  /** A handshake that carries nothing gives no token. */
  lemma NoFieldNoToken(h: Handshake)
    requires !Truthy(h.authorization) && !Truthy(h.authToken)
    requires h.queryToken == Missing || h.queryToken == Str("") || h.queryToken == Strs([])
    ensures ExtractToken(h) == None
  {
  }

  /** JavaScript truthiness of the optional `typ` claim is checked before
      comparing it: a missing or empty `typ` is accepted like 'access'. */
  predicate AcceptsTyp(p: Payload)
    ensures p.typ.None? || p.typ == Some("") || p.typ == Some("access") ==> AcceptsTyp(p)
    ensures p.typ == Some("refresh") ==> !AcceptsTyp(p)
  {
    !(p.typ.Some? && p.typ.value != "") || p.typ.value == "access"
  }

  /** `payload.sub` when it is truthy. */
  function Subject(p: Payload): (r: Option<UserId>)
    ensures r.Some? <==> p.sub.Some? && p.sub.value != ""
    ensures r.Some? ==> r == p.sub
  {
    if p.sub.Some? && p.sub.value != "" then p.sub else None
  }
}
