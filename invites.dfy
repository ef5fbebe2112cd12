/** Invite codes (backend/src/invites/invites.service.ts). */
module Invites {
  import opened Common
  import opened Permissions
  import opened Store
  import opened Listing
  import opened Servers
  import opened Realtime

  /** How many codes `generateUniqueCode` tries before giving up. */
  const CODE_ATTEMPTS: nat := 5

  /** The stored `maxUses`: a positive limit, or none for a missing, zero
      or negative one. */
  function UsesLimit(maxUses: Option<int>): (r: Option<int>)
    ensures r.Some? <==> maxUses.Some? && maxUses.value > 0
    ensures r.Some? ==> r == maxUses && r.value >= 1
  {
    if maxUses.Some? && maxUses.value > 0 then maxUses else None
  }

  /** The checks of `join`, in the code's order: a missing or revoked
      invite, an expired one (strictly before now), an exhausted one, a
      banned user, an existing member. */
  function JoinCheck(db: Db, code: string, userId: UserId, now: Time): (r: Result<Invite>)
    ensures code !in db.invites || db.invites[code].revoked ==> r == Err(NotFound("Invite not found"))
    ensures r.Ok? <==>
      && code in db.invites
      && !db.invites[code].revoked
      && !(db.invites[code].expiresAt.Some? && db.invites[code].expiresAt.value < now)
      && (db.invites[code].maxUses.None? || db.invites[code].uses < db.invites[code].maxUses.value)
      && (db.invites[code].serverId, userId) !in db.bans
      && (db.invites[code].serverId, userId) !in db.members
    ensures r.Ok? ==> r.value == db.invites[code]
    ensures code in db.invites && db.invites[code].maxUses.None? ==> r != Err(Forbidden("Invite exhausted"))
    ensures code in db.invites && !db.invites[code].revoked
            && db.invites[code].expiresAt.Some? && db.invites[code].expiresAt.value < now ==>
      r == Err(Forbidden("Invite expired"))
    ensures code in db.invites && !db.invites[code].revoked
            && !(db.invites[code].expiresAt.Some? && db.invites[code].expiresAt.value < now)
            && db.invites[code].maxUses.Some? && db.invites[code].uses >= db.invites[code].maxUses.value ==>
      r == Err(Forbidden("Invite exhausted"))
    ensures code in db.invites && !db.invites[code].revoked
            && !(db.invites[code].expiresAt.Some? && db.invites[code].expiresAt.value < now)
            && (db.invites[code].maxUses.None? || db.invites[code].uses < db.invites[code].maxUses.value)
            && (db.invites[code].serverId, userId) in db.bans ==>
      r == Err(Forbidden("Banned from server"))
    ensures code in db.invites && !db.invites[code].revoked
            && !(db.invites[code].expiresAt.Some? && db.invites[code].expiresAt.value < now)
            && (db.invites[code].maxUses.None? || db.invites[code].uses < db.invites[code].maxUses.value)
            && (db.invites[code].serverId, userId) !in db.bans
            && (db.invites[code].serverId, userId) in db.members ==>
      r == Err(BadRequest("Already a member"))
    ensures code in db.invites && db.invites[code].expiresAt == Some(now) ==> r != Err(Forbidden("Invite expired"))
  {
    if code !in db.invites || db.invites[code].revoked then Err(NotFound("Invite not found"))
    else
      var invite := db.invites[code];
      if invite.expiresAt.Some? && invite.expiresAt.value < now then Err(Forbidden("Invite expired"))
      else if invite.maxUses.Some? && invite.uses >= invite.maxUses.value then Err(Forbidden("Invite exhausted"))
      else if (invite.serverId, userId) in db.bans then Err(Forbidden("Banned from server"))
      else if (invite.serverId, userId) in db.members then Err(BadRequest("Already a member"))
      else Ok(invite)
  }

  /** Storing an invite for an existing server keeps the database
      consistent. */
  lemma {:induction false} PutInviteConsistent(db: Db, code: string, invite: Invite)
    requires Consistent(db) && invite.serverId in db.servers
    ensures Consistent(db.(invites := db.invites[code := invite]))
  {
    var r := db.(invites := db.invites[code := invite]);
    assert ServerRowsAnchored(r) by {
      assert ServerRowsAnchored(db);
    }
  }

  /** The database after a successful `join`: the new MEMBER row and one
      more use of the invite. */
  function AfterJoin(db: Db, code: string, userId: UserId, now: Time): (r: Db)
    requires code in db.invites
    ensures (db.invites[code].serverId, userId) in r.members
    ensures r.members[(db.invites[code].serverId, userId)] == Member(MEMBER, now)
    ensures code in r.invites && r.invites[code] == db.invites[code].(uses := db.invites[code].uses + 1)
    ensures r.(members := db.members, invites := db.invites) == db
  {
    var invite := db.invites[code];
    db.(members := db.members[(invite.serverId, userId) := Member(MEMBER, now)],
        invites := db.invites[code := invite.(uses := invite.uses + 1)])
  }

  lemma {:induction false} AfterJoinConsistent(db: Db, code: string, userId: UserId, now: Time)
    requires Consistent(db) && code in db.invites
    requires (db.invites[code].serverId, userId) !in db.bans && (db.invites[code].serverId, userId) !in db.members
    ensures Consistent(AfterJoin(db, code, userId, now))
  {
    AfterJoinMembers(db, code, userId, now);
    var r := AfterJoin(db, code, userId, now);
    assert PostsAnchored(r) by {
      assert PostsAnchored(db);
    }
    assert UniqueEmails(r) by {
      assert UniqueEmails(db);
    }
  }

  /** `join` adds exactly one membership and touches no other invite; every
      earlier membership keeps its value. */
  lemma {:induction false} AfterJoinWrites(db: Db, code: string, userId: UserId, now: Time)
    requires code in db.invites
    ensures var r := AfterJoin(db, code, userId, now);
      && r.members.Keys == db.members.Keys + {(db.invites[code].serverId, userId)}
      && r.invites.Keys == db.invites.Keys
      && (forall k :: k in db.members && k != (db.invites[code].serverId, userId) ==> r.members[k] == db.members[k])
      && (forall c :: c in db.invites && c != code ==> r.invites[c] == db.invites[c])
  {
  }

  /** The new MEMBER row of `join` is anchored to the invite's server, is
      not banned, and is not an OWNER row. */
  lemma {:induction false} AfterJoinMembers(db: Db, code: string, userId: UserId, now: Time)
    requires Consistent(db) && code in db.invites
    requires (db.invites[code].serverId, userId) !in db.bans && (db.invites[code].serverId, userId) !in db.members
    ensures ServerRowsAnchored(AfterJoin(db, code, userId, now))
    ensures BansExcludeMembers(AfterJoin(db, code, userId, now))
    ensures OwnersConsistent(AfterJoin(db, code, userId, now))
  {
    var r := AfterJoin(db, code, userId, now);
    assert ServerRowsAnchored(r) by {
      assert ServerRowsAnchored(db);
    }
    assert BansExcludeMembers(r) by {
      assert BansExcludeMembers(db);
    }
    assert OwnersConsistent(r) by {
      assert OwnersConsistent(db);
    }
  }

  function NewestFirst(db: Db): string -> int {
    code => if code in db.invites then -db.invites[code].createdAt else 0
  }

  class InvitesService {
    const prisma: Database
    const realtime: Gateway

    constructor (prisma: Database, realtime: Gateway)
      ensures this.prisma == prisma && this.realtime == realtime
    {
      this.prisma := prisma;
      this.realtime := realtime;
    }

    /** `generateUniqueCode`: the first of at most CODE_ATTEMPTS drawn codes
        that no invite uses yet. `draw(i)` is the code drawn at attempt i. */
    method GenerateUniqueCode(draw: nat -> string) returns (r: Result<string>)
      ensures r.Ok? ==>
        && r.value !in prisma.db.invites
        && exists i :: 0 <= i < CODE_ATTEMPTS && draw(i) == r.value
                       && forall j :: 0 <= j < i ==> draw(j) in prisma.db.invites
      ensures r.Err? ==>
        && r == Err(BadRequest("Could not generate invite code"))
        && forall i :: 0 <= i < CODE_ATTEMPTS ==> draw(i) in prisma.db.invites
    {
      var i: nat := 0;
      while i < CODE_ATTEMPTS
        invariant i <= CODE_ATTEMPTS
        invariant forall j :: 0 <= j < i ==> draw(j) in prisma.db.invites
      {
        var code := draw(i);
        if code !in prisma.db.invites {
          return Ok(code);
        }
        i := i + 1;
      }
      return Err(BadRequest("Could not generate invite code"));
    }

    /** `createInvite`: MOD or higher may invite; the invite is stored
        under the first free drawn code, unused and unrevoked, with a
        positive limit or none and the given expiry; the code and the
        invite are returned. */
    method CreateInvite(serverId: ServerId, userId: UserId, maxUses: Option<int>, expiresAt: Option<Time>,
                        draw: nat -> string, inviteId: InviteId, now: Time)
      returns (r: Result<(string, Invite)>)
      requires Consistent(prisma.db)
      modifies prisma
      ensures Consistent(prisma.db)
      ensures EnsureMinRole(old(prisma.db), serverId, userId, MOD).Err? ==>
        r == Err(EnsureMinRole(old(prisma.db), serverId, userId, MOD).failure) && prisma.db == old(prisma.db)
      ensures r.Ok? <==>
        EnsureMinRole(old(prisma.db), serverId, userId, MOD).Ok?
        && exists i :: 0 <= i < CODE_ATTEMPTS && draw(i) !in old(prisma.db.invites)
      ensures EnsureMinRole(old(prisma.db), serverId, userId, MOD).Ok? && r.Err? ==>
        r == Err(BadRequest("Could not generate invite code"))
      ensures r.Err? ==> prisma.db == old(prisma.db)
      ensures r.Ok? ==>
        && r.value.1 == Invite(inviteId, serverId, userId, UsesLimit(maxUses), 0, expiresAt, false, now)
        && r.value.0 !in old(prisma.db.invites)
        && (exists i :: 0 <= i < CODE_ATTEMPTS && draw(i) == r.value.0
                        && forall j :: 0 <= j < i ==> draw(j) in old(prisma.db.invites))
        && prisma.db == old(prisma.db).(invites := old(prisma.db.invites)[r.value.0 := r.value.1])
    {
      var check := EnsureMinRole(prisma.db, serverId, userId, MOD);
      if check.Err? {
        return Err(check.failure);
      }
      var code := GenerateUniqueCode(draw);
      if code.Err? {
        return Err(code.failure);
      }
      var invite := Invite(inviteId, serverId, userId, UsesLimit(maxUses), 0, expiresAt, false, now);
      assert serverId in prisma.db.servers by {
        assert ServerRowsAnchored(prisma.db);
      }
      PutInviteConsistent(prisma.db, code.value, invite);
      prisma.db := prisma.db.(invites := prisma.db.invites[code.value := invite]);
      return Ok((code.value, invite));
    }

    /** `listInvites`: with MANAGE_SERVER, the server's unrevoked invites,
        newest first. */
    method ListInvites(serverId: ServerId, userId: UserId) returns (r: Result<seq<string>>)
      ensures EnsurePermission(prisma.db, serverId, userId, MANAGE_SERVER).Err? ==>
        r == Err(EnsurePermission(prisma.db, serverId, userId, MANAGE_SERVER).failure)
      ensures EnsurePermission(prisma.db, serverId, userId, MANAGE_SERVER).Ok? ==>
        && r.Ok?
        && Distinct(r.value)
        && SortedBy(r.value, NewestFirst(prisma.db))
        && forall code :: code in r.value <==>
             code in prisma.db.invites && prisma.db.invites[code].serverId == serverId && !prisma.db.invites[code].revoked
    {
      var db := prisma.db;
      var check := EnsurePermission(db, serverId, userId, MANAGE_SERVER);
      if check.Err? {
        return Err(check.failure);
      }
      var selected := set code | code in db.invites && db.invites[code].serverId == serverId && !db.invites[code].revoked;
      var ordered := OrderBy(selected, NewestFirst(db));
      return Ok(ordered);
    }

    /** `revoke`: a missing invite is NotFound; with MANAGE_SERVER on its
        server the invite is marked revoked and nothing else changes. */
    method Revoke(code: string, userId: UserId) returns (r: Result<Unit>)
      requires Consistent(prisma.db)
      modifies prisma
      ensures Consistent(prisma.db)
      ensures code !in old(prisma.db.invites) ==> r == Err(NotFound("Invite not found"))
      ensures r.Ok? <==>
        code in old(prisma.db.invites)
        && EnsurePermission(old(prisma.db), old(prisma.db.invites)[code].serverId, userId, MANAGE_SERVER).Ok?
      ensures r.Err? ==> prisma.db == old(prisma.db)
      ensures code in old(prisma.db.invites) && r.Err? ==>
        r == Err(EnsurePermission(old(prisma.db), old(prisma.db.invites)[code].serverId, userId, MANAGE_SERVER).failure)
      ensures r.Ok? ==>
        prisma.db == old(prisma.db).(invites := old(prisma.db.invites)[code := old(prisma.db.invites)[code].(revoked := true)])
    {
      if code !in prisma.db.invites {
        return Err(NotFound("Invite not found"));
      }
      var invite := prisma.db.invites[code];
      var check := EnsurePermission(prisma.db, invite.serverId, userId, MANAGE_SERVER);
      if check.Err? {
        return Err(check.failure);
      }
      assert invite.serverId in prisma.db.servers by {
        assert ServerRowsAnchored(prisma.db);
      }
      PutInviteConsistent(prisma.db, code, invite.(revoked := true));
      prisma.db := prisma.db.(invites := prisma.db.invites[code := invite.(revoked := true)]);
      return Ok(Unit);
    }

    /** `join`: after `JoinCheck`, exactly one MEMBER membership is created,
        the user's sockets join the server room, the invite's use count
        goes up by one, and the server is answered with role MEMBER. */
    method Join(code: string, userId: UserId, now: Time) returns (r: Result<ServerView>)
      requires Consistent(prisma.db) && realtime.Valid()
      modifies prisma, realtime`rooms
      ensures Consistent(prisma.db) && realtime.Valid()
      ensures JoinCheck(old(prisma.db), code, userId, now).Err? ==>
        && r == Err(JoinCheck(old(prisma.db), code, userId, now).failure)
        && prisma.db == old(prisma.db) && realtime.rooms == old(realtime.rooms)
      ensures JoinCheck(old(prisma.db), code, userId, now).Ok? ==>
        var invite := old(prisma.db.invites)[code];
        && invite.serverId in old(prisma.db.servers)
        && r == Ok(ServerView(invite.serverId, old(prisma.db.servers)[invite.serverId], MEMBER))
        && prisma.db == AfterJoin(old(prisma.db), code, userId, now)
        && realtime.rooms == JoinAll(old(realtime.rooms), UserRoom(userId), ServerRoom(invite.serverId))
    {
      var check := JoinCheck(prisma.db, code, userId, now);
      if check.Err? {
        return Err(check.failure);
      }
      var invite := check.value;
      var db := prisma.db;
      assert invite.serverId in db.servers by {
        assert ServerRowsAnchored(db);
      }
      AfterJoinConsistent(db, code, userId, now);
      prisma.db := db.(members := db.members[(invite.serverId, userId) := Member(MEMBER, now)]);
      realtime.JoinServerRoomForUser(userId, invite.serverId);
      prisma.db := AfterJoin(db, code, userId, now);
      var server := db.servers[invite.serverId];
      return Ok(ServerView(invite.serverId, server, MEMBER));
    }
  }
}
