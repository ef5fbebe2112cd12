/** Accounts and token rotation (backend/src/common/auth/auth.service.ts):
    registration, login, refresh and logout over the refresh-token table.
    Signing and checking a JWT are the oracles `sign` and `verify`; the
    argon2 hash is the one-way `Digest` of the store. Times are in
    milliseconds. */
module Auth {
  import opened Common
  import opened Text
  import opened Store
  import opened Listing
  import opened Tokens

  const ACCESS_TTL_DEFAULT: int := 900
  const REFRESH_TTL_DEFAULT: int := 1209600
  /** How many of the newest live refresh tokens `refresh` looks through. */
  const REFRESH_SCAN: nat := 20
  const DEFAULT_NICKNAME: string := "Busya"

  /** The claims of an access token: no `typ`, so the WebSocket guard lets
      it through and reads its subject. */
  function AccessClaims(userId: UserId, email: string): (r: Payload)
    ensures AcceptsTyp(r) && r.typ.None?
    ensures r.sub == Some(userId) && r.email == Some(email)
    ensures userId != "" ==> Subject(r) == Some(userId)
  {
    Payload(Some(userId), Some(email), None)
  }

  /** The claims of a refresh token: `typ` is 'refresh', which the
      WebSocket guard refuses. */
  function RefreshClaims(userId: UserId, email: string): (r: Payload)
    ensures !AcceptsTyp(r) && r.typ == Some("refresh")
    ensures r.sub == Some(userId) && r.email == Some(email)
  {
    Payload(Some(userId), Some(email), Some("refresh"))
  }

  /** `nickname?.trim() ? nickname.trim() : 'Busya'`. */
  function Nickname(nickname: Option<string>): (r: string)
    ensures r != []
    ensures nickname.Some? && Trim(nickname.value) != [] ==> r == Trim(nickname.value)
    ensures nickname.None? || Trim(nickname.value) == [] ==> r == DEFAULT_NICKNAME
  {
    if nickname.Some? && Trim(nickname.value) != [] then Trim(nickname.value) else DEFAULT_NICKNAME
  }

  /** The refresh tokens `refresh` may accept for the user: not revoked and
      expiring strictly after now. */
  function Live(tokens: map<TokenId, RefreshToken>, userId: UserId, now: Time): (r: set<TokenId>)
    ensures forall t :: t in r <==>
      t in tokens && tokens[t].userId == userId && tokens[t].revokedAt.None? && tokens[t].expiresAt > now
  {
    set t | t in tokens && tokens[t].userId == userId && tokens[t].revokedAt.None? && tokens[t].expiresAt > now
  }

  function NewestTokenFirst(tokens: map<TokenId, RefreshToken>): TokenId -> int {
    t => if t in tokens then -tokens[t].createdAt else 0
  }

  /** `refreshToken.updateMany` setting `revokedAt` on every unrevoked token
      of the user: afterwards the user has no unrevoked token, earlier
      revocations keep their time, and other users' tokens are untouched. */
  function RevokeAll(tokens: map<TokenId, RefreshToken>, userId: UserId, now: Time): (r: map<TokenId, RefreshToken>)
    ensures r.Keys == tokens.Keys
    ensures forall t :: t in r && r[t].userId == userId ==> r[t].revokedAt.Some?
    ensures forall t :: t in r && (tokens[t].userId != userId || tokens[t].revokedAt.Some?) ==> r[t] == tokens[t]
    ensures forall t :: t in r && tokens[t].userId == userId && tokens[t].revokedAt.None? ==>
      r[t] == tokens[t].(revokedAt := Some(now))
  {
    map t | t in tokens ::
      if tokens[t].userId == userId && tokens[t].revokedAt.None? then tokens[t].(revokedAt := Some(now)) else tokens[t]
  }

  /** After a logout, or the revocation step of a login, no token of the
      user can be refreshed any more, at any later time. */
  lemma {:induction false} RevokeAllLeavesNothingLive(tokens: map<TokenId, RefreshToken>, userId: UserId,
                                                      now: Time, later: Time)
    ensures Live(RevokeAll(tokens, userId, now), userId, later) == {}
  {
  }

  /** Adding a user whose email is not in use keeps emails unique, and so
      keeps the store consistent. */
  lemma {:induction false} NewUserConsistent(db: Db, userId: UserId, user: User)
    requires Consistent(db) && userId !in db.users
    requires forall u :: u in db.users ==> db.users[u].email != user.email
    ensures Consistent(db.(users := db.users[userId := user]))
  {
    var r := db.(users := db.users[userId := user]);
    assert UniqueEmails(r) by {
      assert UniqueEmails(db);
    }
  }

  /** Rewriting the refresh-token table leaves every other table, and so
      the store's consistency, as it was. */
  lemma {:induction false} TokensKeepConsistent(db: Db, tokens: map<TokenId, RefreshToken>)
    requires Consistent(db)
    ensures Consistent(db.(refreshTokens := tokens))
  {
    var r := db.(refreshTokens := tokens);
    CoreTablesKeepConsistent(db, r);
    assert PostsAnchored(r) by {
      assert PostsAnchored(db);
    }
  }

  /** `page` is what `refresh` looks through: the user's live tokens,
      newest first, at most `REFRESH_SCAN` of them. */
  ghost predicate Scanned(tokens: map<TokenId, RefreshToken>, userId: UserId, now: Time, page: seq<TokenId>) {
    FirstBy(Live(tokens, userId, now), NewestTokenFirst(tokens), REFRESH_SCAN, page)
  }

  /** A secret setting `if (!s) throw` lets through: present and not the
      empty string. */
  predicate Configured(secret: Option<string>) {
    secret.Some? && secret.value != ""
  }

  /** `page[i]` is the first token of `page` whose hash matches
      `refreshToken`: the one the loop of `refresh` stops at. */
  ghost predicate FirstMatch(tokens: map<TokenId, RefreshToken>, page: seq<TokenId>, refreshToken: string, i: int) {
    && 0 <= i < |page|
    && page[i] in tokens
    && HashMatches(tokens[page[i]].tokenHash, refreshToken)
    && forall j :: 0 <= j < i ==> page[j] in tokens && !HashMatches(tokens[page[j]].tokenHash, refreshToken)
  }

  /** The access and refresh token a user is given. */
  datatype TokenPair = TokenPair(accessToken: string, refreshToken: string)

  /** What `login` and `register` return: the user's id and the tokens. */
  datatype Session = Session(userId: UserId, tokens: TokenPair)

  class AuthService {
    const prisma: Database
    /** `JwtService.signAsync(claims, { secret, expiresIn })`. */
    const sign: (Payload, string, int) -> string
    /** `JwtService.verify(token, { secret })`: the claims of a token signed
        with that secret and not expired. */
    const verify: (string, string) -> Option<Payload>
    const accessSecret: Option<string>
    const refreshSecret: Option<string>
    const accessTtl: int
    const refreshTtl: int
    /** The status a new user row gets from the schema's default. */
    const defaultStatus: string

    /** The TTLs come from configuration, 900 s and 1209600 s (14 days)
        when unset. */
    constructor (prisma: Database, sign: (Payload, string, int) -> string, verify: (string, string) -> Option<Payload>,
                 accessSecret: Option<string>, refreshSecret: Option<string>,
                 accessTtlSetting: Option<int>, refreshTtlSetting: Option<int>, defaultStatus: string)
      ensures this.prisma == prisma && this.sign == sign && this.verify == verify
      ensures this.accessSecret == accessSecret && this.refreshSecret == refreshSecret
      ensures accessTtl == accessTtlSetting.GetOr(ACCESS_TTL_DEFAULT)
      ensures refreshTtl == refreshTtlSetting.GetOr(REFRESH_TTL_DEFAULT)
      ensures this.defaultStatus == defaultStatus
    {
      this.prisma := prisma;
      this.sign := sign;
      this.verify := verify;
      this.accessSecret := accessSecret;
      this.refreshSecret := refreshSecret;
      this.accessTtl := accessTtlSetting.GetOr(ACCESS_TTL_DEFAULT);
      this.refreshTtl := refreshTtlSetting.GetOr(REFRESH_TTL_DEFAULT);
      this.defaultStatus := defaultStatus;
    }

    /** `signTokens`: an access token with the access claims under the
        access secret, and a refresh token with the refresh claims under the
        refresh secret; a missing or empty secret is an error. */
    function SignTokens(userId: UserId, email: string): (r: Result<TokenPair>)
      ensures !Configured(accessSecret) ==> r == Err(PlainError("JWT_ACCESS_SECRET missing"))
      ensures Configured(accessSecret) && !Configured(refreshSecret) ==> r == Err(PlainError("JWT_REFRESH_SECRET missing"))
      ensures r.Ok? <==> Configured(accessSecret) && Configured(refreshSecret)
      ensures r.Ok? ==>
        && r.value.accessToken == sign(AccessClaims(userId, email), accessSecret.value, accessTtl)
        && r.value.refreshToken == sign(RefreshClaims(userId, email), refreshSecret.value, refreshTtl)
    {
      if !Configured(accessSecret) then Err(PlainError("JWT_ACCESS_SECRET missing"))
      else if !Configured(refreshSecret) then Err(PlainError("JWT_REFRESH_SECRET missing"))
      else Ok(TokenPair(sign(AccessClaims(userId, email), accessSecret.value, accessTtl),
                        sign(RefreshClaims(userId, email), refreshSecret.value, refreshTtl)))
    }

    /** The refresh-token row `saveRefreshToken` writes. */
    function Record(userId: UserId, refreshToken: string, now: Time): (r: RefreshToken)
      ensures r.userId == userId && HashMatches(r.tokenHash, refreshToken) && r.revokedAt.None?
      ensures r.expiresAt == now + refreshTtl * 1000 && r.createdAt == now
    {
      RefreshToken(userId, Digest(refreshToken), now + refreshTtl * 1000, None, now)
    }

    /** `saveRefreshToken`: stores the hash of the token, expiring after the
        refresh TTL. */
    method SaveRefreshToken(userId: UserId, refreshToken: string, tokenId: TokenId, now: Time)
      requires Consistent(prisma.db)
      modifies prisma
      ensures Consistent(prisma.db)
      ensures prisma.db == old(prisma.db).(refreshTokens := old(prisma.db.refreshTokens)[tokenId := Record(userId, refreshToken, now)])
    {
      TokensKeepConsistent(prisma.db, prisma.db.refreshTokens[tokenId := Record(userId, refreshToken, now)]);
      prisma.db := prisma.db.(refreshTokens := prisma.db.refreshTokens[tokenId := Record(userId, refreshToken, now)]);
    }

    /** `refreshToken.update({ data: { revokedAt: new Date() } })` on one
        stored token. */
    method RevokeToken(t: TokenId, now: Time)
      requires Consistent(prisma.db) && t in prisma.db.refreshTokens
      modifies prisma
      ensures Consistent(prisma.db)
      ensures prisma.db == old(prisma.db).(refreshTokens :=
        old(prisma.db.refreshTokens)[t := old(prisma.db.refreshTokens)[t].(revokedAt := Some(now))])
    {
      TokensKeepConsistent(prisma.db, prisma.db.refreshTokens[t := prisma.db.refreshTokens[t].(revokedAt := Some(now))]);
      prisma.db := prisma.db.(refreshTokens := prisma.db.refreshTokens[t := prisma.db.refreshTokens[t].(revokedAt := Some(now))]);
    }

    /** `user.findUnique({ where: { email } })`. */
    method FindUserByEmail(email: string) returns (r: Option<UserId>)
      requires UniqueEmails(prisma.db)
      ensures r.None? <==> forall u :: u in prisma.db.users ==> prisma.db.users[u].email != email
      ensures r.Some? ==> r.value in prisma.db.users && prisma.db.users[r.value].email == email
      ensures r.Some? ==> forall u :: u in prisma.db.users && prisma.db.users[u].email == email ==> u == r.value
    {
      var users := prisma.db.users;
      var found := set u | u in users && users[u].email == email;
      assert forall u :: u in users && users[u].email == email ==> u in found;
      if found == {} {
        return None;
      }
      var u :| u in found;
      return Some(u);
    }

    /** `register`: a used email is refused; the user row (password hashed,
        nickname trimmed or 'Busya') is written before the tokens are
        signed, so a missing secret leaves the user without a refresh
        token; otherwise one refresh token is stored. */
    method Register(email: string, password: string, nickname: Option<string>, userId: UserId, tokenId: TokenId, now: Time)
      returns (r: Result<Session>)
      requires Consistent(prisma.db) && userId !in prisma.db.users && tokenId !in prisma.db.refreshTokens
      modifies prisma
      ensures Consistent(prisma.db)
      ensures (exists u :: u in old(prisma.db.users) && old(prisma.db.users)[u].email == email) ==>
        r == Err(BadRequest("Email already used")) && prisma.db == old(prisma.db)
      ensures (forall u :: u in old(prisma.db.users) ==> old(prisma.db.users)[u].email != email) ==>
        var created := old(prisma.db).(users := old(prisma.db.users)[userId :=
                         User(email, Digest(password), Nickname(nickname), defaultStatus)]);
        && (SignTokens(userId, email).Err? ==> r == Err(SignTokens(userId, email).failure) && prisma.db == created)
        && (SignTokens(userId, email).Ok? ==>
              && r == Ok(Session(userId, SignTokens(userId, email).value))
              && prisma.db == created.(refreshTokens := created.refreshTokens[tokenId :=
                                Record(userId, SignTokens(userId, email).value.refreshToken, now)]))
    {
      var existing := FindUserByEmail(email);
      if existing.Some? {
        return Err(BadRequest("Email already used"));
      }
      var user := User(email, Digest(password), Nickname(nickname), defaultStatus);
      NewUserConsistent(prisma.db, userId, user);
      prisma.db := prisma.db.(users := prisma.db.users[userId := user]);
      var tokens := SignTokens(userId, email);
      if tokens.Err? {
        return Err(tokens.failure);
      }
      SaveRefreshToken(userId, tokens.value.refreshToken, tokenId, now);
      return Ok(Session(userId, tokens.value));
    }

    /** `login`: an unknown email and a wrong password give the same error;
        then the tokens are signed, every unrevoked refresh token of the
        user is revoked and exactly one new one is stored. */
    method Login(email: string, password: string, tokenId: TokenId, now: Time) returns (r: Result<Session>)
      requires Consistent(prisma.db) && tokenId !in prisma.db.refreshTokens
      modifies prisma
      ensures Consistent(prisma.db)
      ensures (forall u :: u in old(prisma.db.users) && old(prisma.db.users)[u].email == email ==>
                 !HashMatches(old(prisma.db.users)[u].passwordHash, password)) ==>
        r == Err(Unauthorized("Invalid credentials")) && prisma.db == old(prisma.db)
      ensures r.Ok? ==>
        && r.value.userId in old(prisma.db.users)
        && old(prisma.db.users)[r.value.userId].email == email
        && HashMatches(old(prisma.db.users)[r.value.userId].passwordHash, password)
        && SignTokens(r.value.userId, email) == Ok(r.value.tokens)
        && prisma.db == old(prisma.db).(refreshTokens :=
             RevokeAll(old(prisma.db.refreshTokens), r.value.userId, now)[tokenId :=
               Record(r.value.userId, r.value.tokens.refreshToken, now)])
      ensures r.Err? ==> prisma.db == old(prisma.db)
      ensures forall u :: u in old(prisma.db.users) && old(prisma.db.users)[u].email == email
                          && HashMatches(old(prisma.db.users)[u].passwordHash, password) ==>
        (r.Ok? <==> SignTokens(u, email).Ok?)
      ensures forall u :: u in old(prisma.db.users) && old(prisma.db.users)[u].email == email
                          && HashMatches(old(prisma.db.users)[u].passwordHash, password)
                          && SignTokens(u, email).Err? ==>
        r == Err(SignTokens(u, email).failure)
    {
      var found := FindUserByEmail(email);
      if found.None? {
        return Err(Unauthorized("Invalid credentials"));
      }
      var userId := found.value;
      var user := prisma.db.users[userId];
      if !HashMatches(user.passwordHash, password) {
        return Err(Unauthorized("Invalid credentials"));
      }
      var tokens := SignTokens(userId, user.email);
      if tokens.Err? {
        return Err(tokens.failure);
      }
      TokensKeepConsistent(prisma.db, RevokeAll(prisma.db.refreshTokens, userId, now));
      prisma.db := prisma.db.(refreshTokens := RevokeAll(prisma.db.refreshTokens, userId, now));
      SaveRefreshToken(userId, tokens.value.refreshToken, tokenId, now);
      return Ok(Session(userId, tokens.value));
    }

    /** The claims `refresh` needs from a verified token: a truthy `sub` and
        a truthy `email`. A missing or empty refresh secret throws inside the
        `try`, so it too gives 'Invalid refresh token'. */
    function RefreshIdentity(refreshToken: string): (r: Result<(UserId, string)>)
      ensures !Configured(refreshSecret) || verify(refreshToken, refreshSecret.value).None? ==>
        r == Err(Unauthorized("Invalid refresh token"))
      ensures r.Ok? <==>
        && Configured(refreshSecret)
        && var p := verify(refreshToken, refreshSecret.value);
        && p.Some? && Subject(p.value).Some? && p.value.email.Some? && p.value.email.value != ""
      ensures r.Ok? ==> var p := verify(refreshToken, refreshSecret.value).value;
        r.value == (p.sub.value, p.email.value)
      ensures r.Err? ==> r == Err(Unauthorized("Invalid refresh token"))
    {
      if !Configured(refreshSecret) then Err(Unauthorized("Invalid refresh token"))
      else
        match verify(refreshToken, refreshSecret.value)
        case None => Err(Unauthorized("Invalid refresh token"))
        case Some(p) =>
          if Subject(p).None? || p.email.None? || p.email.value == "" then Err(Unauthorized("Invalid refresh token"))
          else Ok((p.sub.value, p.email.value))
    }

    /** The search of `refresh`: the user's 20 newest live refresh tokens,
        newest first, and the first of them whose hash matches the
        presented token. */
    method FindRecord(userId: UserId, refreshToken: string, now: Time)
      returns (records: seq<TokenId>, matched: Option<TokenId>, ghost at: int)
      ensures FirstBy(Live(prisma.db.refreshTokens, userId, now), NewestTokenFirst(prisma.db.refreshTokens), REFRESH_SCAN, records)
      ensures matched.None? <==> forall t :: t in records ==> !HashMatches(prisma.db.refreshTokens[t].tokenHash, refreshToken)
      ensures matched.Some? ==> FirstMatch(prisma.db.refreshTokens, records, refreshToken, at) && matched.value == records[at]
    {
      var tokens := prisma.db.refreshTokens;
      records := OrderByTake(Live(tokens, userId, now), NewestTokenFirst(tokens), REFRESH_SCAN);
      matched, at := None, 0;
      var i := 0;
      while i < |records|
        invariant 0 <= i <= |records|
        invariant forall j :: 0 <= j < i ==> !HashMatches(tokens[records[j]].tokenHash, refreshToken)
      {
        if HashMatches(tokens[records[i]].tokenHash, refreshToken) {
          matched, at := Some(records[i]), i;
          return;
        }
        i := i + 1;
      }
    }

    /** The part of `refresh` after the claims are read: `page` is the
        user's 20 newest live refresh tokens, and when none of them matches
        the token nothing changes. Otherwise the first match, and no other
        token, is revoked; then new tokens are signed (a missing access
        secret fails here, after the revocation) and one new refresh token
        is stored. */
    method Rotate(userId: UserId, email: string, refreshToken: string, tokenId: TokenId, now: Time)
      returns (r: Result<TokenPair>, ghost page: seq<TokenId>)
      requires Consistent(prisma.db) && tokenId !in prisma.db.refreshTokens
      modifies prisma
      ensures Consistent(prisma.db)
      ensures Scanned(old(prisma.db.refreshTokens), userId, now, page)
      ensures r == Err(Unauthorized("Refresh token not found")) <==>
        forall t :: t in page && t in old(prisma.db.refreshTokens) ==>
          !HashMatches(old(prisma.db.refreshTokens)[t].tokenHash, refreshToken)
      ensures r == Err(Unauthorized("Refresh token not found")) ==> prisma.db == old(prisma.db)
      ensures r.Err? ==> r == Err(Unauthorized("Refresh token not found")) || r.failure.PlainError?
      ensures r.Ok? || r.failure.PlainError? ==>
        exists i :: FirstMatch(old(prisma.db.refreshTokens), page, refreshToken, i)
          && var t := page[i];
          && var revoked := old(prisma.db.refreshTokens)[t := old(prisma.db.refreshTokens)[t].(revokedAt := Some(now))];
          if r.Ok? then
            && SignTokens(userId, email) == Ok(r.value)
            && prisma.db == old(prisma.db).(refreshTokens := revoked[tokenId := Record(userId, r.value.refreshToken, now)])
          else
            && SignTokens(userId, email) == Err(r.failure)
            && prisma.db == old(prisma.db).(refreshTokens := revoked)
    {
      var records, matched, i := FindRecord(userId, refreshToken, now);
      page := records;
      if matched.None? {
        return Err(Unauthorized("Refresh token not found")), page;
      }
      var t := matched.value;
      RevokeToken(t, now);
      var tokens := SignTokens(userId, email);
      if tokens.Err? {
        return Err(tokens.failure), page;
      }
      SaveRefreshToken(userId, tokens.value.refreshToken, tokenId, now);
      return Ok(tokens.value), page;
    }

    /** `refresh`: the token must verify under the refresh secret and name
        a user and an email; then `Rotate` looks for it among the user's
        live tokens and rotates it. */
    method Refresh(refreshToken: string, tokenId: TokenId, now: Time) returns (r: Result<TokenPair>, ghost page: seq<TokenId>)
      requires Consistent(prisma.db) && tokenId !in prisma.db.refreshTokens
      modifies prisma
      ensures Consistent(prisma.db)
      ensures RefreshIdentity(refreshToken).Err? ==>
        r == Err(Unauthorized("Invalid refresh token")) && prisma.db == old(prisma.db)
      ensures RefreshIdentity(refreshToken).Ok? ==>
        Scanned(old(prisma.db.refreshTokens), RefreshIdentity(refreshToken).value.0, now, page)
      ensures r == Err(Unauthorized("Refresh token not found")) <==>
        && RefreshIdentity(refreshToken).Ok?
        && forall t :: t in page && t in old(prisma.db.refreshTokens) ==>
             !HashMatches(old(prisma.db.refreshTokens)[t].tokenHash, refreshToken)
      ensures r == Err(Unauthorized("Refresh token not found")) ==> prisma.db == old(prisma.db)
      ensures RefreshIdentity(refreshToken).Ok? && Live(old(prisma.db.refreshTokens), RefreshIdentity(refreshToken).value.0, now) == {} ==>
        r == Err(Unauthorized("Refresh token not found"))
      ensures RefreshIdentity(refreshToken).Ok? &&
              (exists t :: t in page && t in old(prisma.db.refreshTokens) && HashMatches(old(prisma.db.refreshTokens)[t].tokenHash, refreshToken)) ==>
        r.Ok? || r.failure.PlainError?
      ensures r.Err? ==>
        r.failure in {Unauthorized("Invalid refresh token"), Unauthorized("Refresh token not found")} || r.failure.PlainError?
      ensures r.Ok? || (r.Err? && r.failure.PlainError?) ==>
        && RefreshIdentity(refreshToken).Ok?
        && var (userId, email) := RefreshIdentity(refreshToken).value;
        && exists i :: FirstMatch(old(prisma.db.refreshTokens), page, refreshToken, i)
             && var t := page[i];
             && var revoked := old(prisma.db.refreshTokens)[t := old(prisma.db.refreshTokens)[t].(revokedAt := Some(now))];
             if r.Ok? then
               && SignTokens(userId, email) == Ok(r.value)
               && prisma.db == old(prisma.db).(refreshTokens := revoked[tokenId := Record(userId, r.value.refreshToken, now)])
             else
               && SignTokens(userId, email) == Err(r.failure)
               && prisma.db == old(prisma.db).(refreshTokens := revoked)
    {
      var identity := RefreshIdentity(refreshToken);
      if identity.Err? {
        return Err(identity.failure), [];
      }
      var (userId, email) := identity.value;
      r, page := Rotate(userId, email, refreshToken, tokenId, now);
    }

    /** `logout`: every unrevoked refresh token of the user is revoked. */
    method Logout(userId: UserId, now: Time)
      requires Consistent(prisma.db)
      modifies prisma
      ensures Consistent(prisma.db)
      ensures prisma.db == old(prisma.db).(refreshTokens := RevokeAll(old(prisma.db.refreshTokens), userId, now))
    {
      TokensKeepConsistent(prisma.db, RevokeAll(prisma.db.refreshTokens, userId, now));
      prisma.db := prisma.db.(refreshTokens := RevokeAll(prisma.db.refreshTokens, userId, now));
    }
  }
}
