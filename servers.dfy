/** Servers, memberships, roles and bans
    (backend/src/servers/servers.service.ts). The membership and permission
    checks the other services share are functions of the database; the
    operations that write are methods of `ServersService`. */
module Servers {
  import opened Common
  import opened Text
  import opened Permissions
  import opened Store
  import opened Realtime

  /** `ensureNotBanned`. */
  function EnsureNotBanned(db: Db, serverId: ServerId, userId: UserId): (r: Result<Unit>)
    ensures r.Ok? <==> (serverId, userId) !in db.bans
    ensures r.Err? ==> r == Err(Forbidden("Banned from server"))
  {
    if (serverId, userId) in db.bans then Err(Forbidden("Banned from server")) else Ok(Unit)
  }

  /** `ensureMember`: the ban is looked at before the membership, so a
      banned user is refused as banned even if a membership row exists. */
  function EnsureMember(db: Db, serverId: ServerId, userId: UserId): (r: Result<Member>)
    ensures r.Ok? <==> (serverId, userId) !in db.bans && (serverId, userId) in db.members
    ensures r.Ok? ==> r.value == db.members[(serverId, userId)]
    ensures (serverId, userId) in db.bans ==> r == Err(Forbidden("Banned from server"))
    ensures (serverId, userId) !in db.bans && (serverId, userId) !in db.members ==>
      r == Err(Forbidden("Not a server member"))
  {
    match EnsureNotBanned(db, serverId, userId)
    case Err(f) => Err(f)
    case Ok(_) =>
      if (serverId, userId) in db.members then Ok(db.members[(serverId, userId)])
      else Err(Forbidden("Not a server member"))
  }

  /** While the database is consistent, the ban check never decides
      anything: membership alone does. */
  lemma {:induction false} MembershipDecides(db: Db, serverId: ServerId, userId: UserId)
    requires Consistent(db)
    ensures EnsureMember(db, serverId, userId).Ok? <==> (serverId, userId) in db.members
  {
    if (serverId, userId) in db.bans {
      assert (serverId, userId) !in db.members;
    }
  }

  /** `ensurePermission`. */
  function EnsurePermission(db: Db, serverId: ServerId, userId: UserId, permission: Permission): (r: Result<Member>)
    ensures r.Ok? <==>
      EnsureMember(db, serverId, userId).Ok? && RoleHasPermission(db.members[(serverId, userId)].role, permission)
    ensures r.Ok? || EnsureMember(db, serverId, userId).Err? ==> r == EnsureMember(db, serverId, userId)
    ensures EnsureMember(db, serverId, userId).Ok? && r.Err? ==> r == Err(Forbidden("Insufficient permissions"))
  {
    match EnsureMember(db, serverId, userId)
    case Err(f) => Err(f)
    case Ok(member) =>
      if !RoleHasPermission(member.role, permission) then Err(Forbidden("Insufficient permissions"))
      else Ok(member)
  }

  /** Of two members of a server, the one with the higher role passes every
      permission check the other passes. */
  lemma {:induction false} PermissionFollowsRank(db: Db, serverId: ServerId, low: UserId, high: UserId, p: Permission)
    requires EnsurePermission(db, serverId, low, p).Ok?
    requires EnsureMember(db, serverId, high).Ok?
    requires HasAtLeastRole(db.members[(serverId, high)].role, db.members[(serverId, low)].role)
    ensures EnsurePermission(db, serverId, high, p).Ok?
  {
    PermissionUpward(db.members[(serverId, low)].role, db.members[(serverId, high)].role, p);
  }

  /** `ensureMinRole`. */
  function EnsureMinRole(db: Db, serverId: ServerId, userId: UserId, minRole: Role): (r: Result<Member>)
    ensures r.Ok? <==>
      EnsureMember(db, serverId, userId).Ok? && HasAtLeastRole(db.members[(serverId, userId)].role, minRole)
    ensures r.Ok? || EnsureMember(db, serverId, userId).Err? ==> r == EnsureMember(db, serverId, userId)
    ensures EnsureMember(db, serverId, userId).Ok? && r.Err? ==> r == Err(Forbidden("Insufficient role"))
  {
    match EnsureMember(db, serverId, userId)
    case Err(f) => Err(f)
    case Ok(member) =>
      if !HasAtLeastRole(member.role, minRole) then Err(Forbidden("Insufficient role"))
      else Ok(member)
  }

  /** `getMember`: the membership row, with no ban check. */
  function GetMember(db: Db, serverId: ServerId, userId: UserId): (r: Result<Member>)
    ensures r.Ok? <==> (serverId, userId) in db.members
    ensures r.Ok? ==> r.value == db.members[(serverId, userId)]
    ensures r.Err? ==> r == Err(NotFound("Member not found"))
  {
    if (serverId, userId) in db.members then Ok(db.members[(serverId, userId)])
    else Err(NotFound("Member not found"))
  }

  /** The checks of `updateMemberRole`, in the order the code makes them. */
  function RoleChangeCheck(db: Db, serverId: ServerId, userId: UserId, targetUserId: UserId, role: Role): (r: Result<Unit>)
    ensures EnsurePermission(db, serverId, userId, MANAGE_ROLES).Err? ==>
      r == Err(EnsurePermission(db, serverId, userId, MANAGE_ROLES).failure)
    ensures EnsurePermission(db, serverId, userId, MANAGE_ROLES).Ok? && role == OWNER ==>
      r == Err(BadRequest("Owner role cannot be assigned"))
    ensures EnsurePermission(db, serverId, userId, MANAGE_ROLES).Ok? && role != OWNER
            && (serverId, targetUserId) !in db.members ==>
      r == Err(NotFound("Member not found"))
    ensures EnsurePermission(db, serverId, userId, MANAGE_ROLES).Ok? && role != OWNER
            && (serverId, targetUserId) in db.members && db.members[(serverId, targetUserId)].role == OWNER ==>
      r == Err(Forbidden("Cannot change owner role"))
    ensures EnsurePermission(db, serverId, userId, MANAGE_ROLES).Ok? && role != OWNER
            && (serverId, targetUserId) in db.members && db.members[(serverId, targetUserId)].role != OWNER ==>
      r == (if db.members[(serverId, userId)].role == MOD then Err(Forbidden("Mods cannot manage roles")) else Ok(Unit))
  {
    match EnsurePermission(db, serverId, userId, MANAGE_ROLES)
    case Err(f) => Err(f)
    case Ok(_) =>
      if role == OWNER then Err(BadRequest("Owner role cannot be assigned"))
      else
        match GetMember(db, serverId, userId)
        case Err(f) => Err(f)
        case Ok(actor) =>
          match GetMember(db, serverId, targetUserId)
          case Err(f) => Err(f)
          case Ok(target) =>
            if target.role == OWNER then Err(Forbidden("Cannot change owner role"))
            else if actor.role == MOD then Err(Forbidden("Mods cannot manage roles"))
            else Ok(Unit)
  }

  /** A role change goes through exactly when the actor may manage roles,
      the new role is not OWNER, and the target is a member who is not the
      owner. The 'Mods cannot manage roles' branch never fires: MANAGE_ROLES
      already excludes MODs. Nothing stops an ADMIN from changing another
      ADMIN's role or their own. */
  lemma {:induction false} RoleChangeAllowed(db: Db, serverId: ServerId, userId: UserId, targetUserId: UserId, role: Role)
    ensures RoleChangeCheck(db, serverId, userId, targetUserId, role).Ok? <==>
      && EnsurePermission(db, serverId, userId, MANAGE_ROLES).Ok?
      && role != OWNER
      && (serverId, targetUserId) in db.members
      && db.members[(serverId, targetUserId)].role != OWNER
    ensures RoleChangeCheck(db, serverId, userId, targetUserId, role) != Err(Forbidden("Mods cannot manage roles"))
  {
    if EnsurePermission(db, serverId, userId, MANAGE_ROLES).Ok? {
      AdministrativePermissions(db.members[(serverId, userId)].role);
    }
  }

  /** The checks `kickMember` and `banMember` share, with the verb of their
      messages ("kick" or "ban"). */
  function ModerationCheck(db: Db, serverId: ServerId, userId: UserId, targetUserId: UserId,
                           permission: Permission, verb: string): (r: Result<Unit>)
    ensures EnsurePermission(db, serverId, userId, permission).Err? ==>
      r == Err(EnsurePermission(db, serverId, userId, permission).failure)
    ensures EnsurePermission(db, serverId, userId, permission).Ok? && userId == targetUserId ==>
      r == Err(BadRequest("Cannot " + verb + " yourself"))
    ensures EnsurePermission(db, serverId, userId, permission).Ok? && userId != targetUserId
            && (serverId, targetUserId) !in db.members ==>
      r == Err(NotFound("Member not found"))
    ensures EnsurePermission(db, serverId, userId, permission).Ok? && userId != targetUserId
            && (serverId, targetUserId) in db.members && db.members[(serverId, targetUserId)].role == OWNER ==>
      r == Err(Forbidden("Cannot " + verb + " owner"))
    ensures EnsurePermission(db, serverId, userId, permission).Ok? && userId != targetUserId
            && (serverId, targetUserId) in db.members && db.members[(serverId, targetUserId)].role != OWNER
            && !IsHigherRole(db.members[(serverId, userId)].role, db.members[(serverId, targetUserId)].role) ==>
      r == Err(Forbidden("Insufficient role"))
  {
    match EnsurePermission(db, serverId, userId, permission)
    case Err(f) => Err(f)
    case Ok(_) =>
      if userId == targetUserId then Err(BadRequest("Cannot " + verb + " yourself"))
      else
        match GetMember(db, serverId, userId)
        case Err(f) => Err(f)
        case Ok(actor) =>
          match GetMember(db, serverId, targetUserId)
          case Err(f) => Err(f)
          case Ok(target) =>
            if target.role == OWNER then Err(Forbidden("Cannot " + verb + " owner"))
            else if !IsHigherRole(actor.role, target.role) then Err(Forbidden("Insufficient role"))
            else Ok(Unit)
  }

  /** A kick or ban goes through exactly when the actor holds the
      permission, the target is someone else, a member, and strictly below
      the actor; the owner can therefore never be removed. */
  lemma {:induction false} ModerationAllowed(db: Db, serverId: ServerId, userId: UserId, targetUserId: UserId,
                                             permission: Permission, verb: string)
    ensures ModerationCheck(db, serverId, userId, targetUserId, permission, verb).Ok? <==>
      && EnsurePermission(db, serverId, userId, permission).Ok?
      && userId != targetUserId
      && (serverId, targetUserId) in db.members
      && IsHigherRole(db.members[(serverId, userId)].role, db.members[(serverId, targetUserId)].role)
    ensures ModerationCheck(db, serverId, userId, targetUserId, permission, verb).Ok? ==>
      db.members[(serverId, targetUserId)].role != OWNER
  {
  }

  /** A server row and everything that belongs to it (memberships, bans,
      channels, invites and the channels' messages) are gone; every other
      row is kept with its values, and the other tables are as they were. */
  function WithoutServer(db: Db, serverId: ServerId): (r: Db)
    ensures forall s :: s in r.servers <==> s in db.servers && s != serverId
    ensures forall k :: k in r.members <==> k in db.members && k.0 != serverId
    ensures forall k :: k in r.bans <==> k in db.bans && k.0 != serverId
    ensures forall c :: c in r.channels <==> c in db.channels && db.channels[c].serverId != serverId
    ensures forall code :: code in r.invites <==> code in db.invites && db.invites[code].serverId != serverId
    ensures forall m :: m in r.messages <==>
      && m in db.messages && db.messages[m].container in db.channels
      && db.channels[db.messages[m].container].serverId != serverId
    ensures forall s :: s in r.servers ==> r.servers[s] == db.servers[s]
    ensures forall k :: k in r.members ==> r.members[k] == db.members[k]
    ensures forall k :: k in r.bans ==> r.bans[k] == db.bans[k]
    ensures forall c :: c in r.channels ==> r.channels[c] == db.channels[c]
    ensures forall code :: code in r.invites ==> r.invites[code] == db.invites[code]
    ensures forall m :: m in r.messages ==> r.messages[m] == db.messages[m]
    ensures r.users == db.users && r.threads == db.threads && r.directMessages == db.directMessages
    ensures r.attachments == db.attachments && r.refreshTokens == db.refreshTokens
  {
    var channels := map c | c in db.channels && db.channels[c].serverId != serverId :: db.channels[c];
    db.(servers := db.servers - {serverId},
        members := map k | k in db.members && k.0 != serverId :: db.members[k],
        bans := map k | k in db.bans && k.0 != serverId :: db.bans[k],
        channels := channels,
        invites := map code | code in db.invites && db.invites[code].serverId != serverId :: db.invites[code],
        messages := map m | m in db.messages && db.messages[m].container in channels :: db.messages[m])
  }

  /** Deleting a server with everything it owns keeps the database
      consistent. */
  lemma {:induction false} WithoutServerConsistent(db: Db, serverId: ServerId)
    requires Consistent(db)
    ensures Consistent(WithoutServer(db, serverId))
  {
    var r := WithoutServer(db, serverId);
    WithoutServerMemberRows(db, serverId);
    WithoutServerChannelRows(db, serverId);
    WithoutServerPosts(db, serverId);
    assert ServerRowsAnchored(r);
    assert UniqueEmails(r) by {
      assert UniqueEmails(db);
    }
  }

  lemma {:induction false} WithoutServerMemberRows(db: Db, serverId: ServerId)
    requires Consistent(db)
    ensures forall k :: k in WithoutServer(db, serverId).members ==> k.0 in WithoutServer(db, serverId).servers
    ensures forall k :: k in WithoutServer(db, serverId).bans ==> k.0 in WithoutServer(db, serverId).servers
    ensures BansExcludeMembers(WithoutServer(db, serverId))
  {
    var r := WithoutServer(db, serverId);
    assert ServerRowsAnchored(db) && BansExcludeMembers(db);
  }

  lemma {:induction false} WithoutServerChannelRows(db: Db, serverId: ServerId)
    requires Consistent(db)
    ensures forall c :: c in WithoutServer(db, serverId).channels ==>
      WithoutServer(db, serverId).channels[c].serverId in WithoutServer(db, serverId).servers
    ensures forall code :: code in WithoutServer(db, serverId).invites ==>
      WithoutServer(db, serverId).invites[code].serverId in WithoutServer(db, serverId).servers
  {
    var r := WithoutServer(db, serverId);
    assert ServerRowsAnchored(db);
  }

  lemma {:induction false} WithoutServerPosts(db: Db, serverId: ServerId)
    requires Consistent(db)
    ensures PostsAnchored(WithoutServer(db, serverId)) && OwnersConsistent(WithoutServer(db, serverId))
  {
    var r := WithoutServer(db, serverId);
    assert PostsAnchored(r) by {
      assert PostsAnchored(db);
    }
    assert OwnersConsistent(r) by {
      assert OwnersConsistent(db);
    }
  }

  /** The rows `createServer` writes: the server, its owner's membership
      and its first channel. */
  function WithNewServer(db: Db, serverId: ServerId, server: Server, now: Time, channelId: ChannelId, channel: Channel): (r: Db)
    ensures serverId in r.servers && r.servers[serverId] == server
    ensures (serverId, server.ownerId) in r.members && r.members[(serverId, server.ownerId)] == Member(OWNER, now)
    ensures channelId in r.channels && r.channels[channelId] == channel
    ensures r.(servers := db.servers, members := db.members, channels := db.channels) == db
  {
    db.(servers := db.servers[serverId := server],
        members := db.members[(serverId, server.ownerId) := Member(OWNER, now)],
        channels := db.channels[channelId := channel])
  }

  /** `createServer` adds exactly three rows, its server, the owner's
      membership and the first channel, and every earlier row keeps its
      value. */
  lemma {:induction false} NewServerWrites(db: Db, serverId: ServerId, server: Server, now: Time, channelId: ChannelId, channel: Channel)
    ensures var r := WithNewServer(db, serverId, server, now, channelId, channel);
      && r.servers.Keys == db.servers.Keys + {serverId}
      && r.members.Keys == db.members.Keys + {(serverId, server.ownerId)}
      && r.channels.Keys == db.channels.Keys + {channelId}
      && (forall s :: s in db.servers && s != serverId ==> r.servers[s] == db.servers[s])
      && (forall k :: k in db.members && k != (serverId, server.ownerId) ==> r.members[k] == db.members[k])
      && (forall c :: c in db.channels && c != channelId ==> r.channels[c] == db.channels[c])
  {
  }

  /** A new server with its owner's membership and a first channel keeps
      the database consistent. */
  lemma {:induction false} NewServerConsistent(db: Db, serverId: ServerId, server: Server, now: Time, channelId: ChannelId, channel: Channel)
    requires Consistent(db)
    requires serverId !in db.servers && channelId !in db.channels && channel.serverId == serverId
    ensures Consistent(db.(servers := db.servers[serverId := server],
                           members := db.members[(serverId, server.ownerId) := Member(OWNER, now)],
                           channels := db.channels[channelId := channel]))
  {
    NewServerRows(db, serverId, server, now, channelId, channel);
    NewServerOwners(db, serverId, server, now, channelId, channel);
    NewServerPosts(db, serverId, server, now, channelId, channel);
  }

  lemma {:induction false} NewServerRows(db: Db, serverId: ServerId, server: Server, now: Time, channelId: ChannelId, channel: Channel)
    requires Consistent(db)
    requires serverId !in db.servers && channelId !in db.channels && channel.serverId == serverId
    ensures ServerRowsAnchored(WithNewServer(db, serverId, server, now, channelId, channel))
    ensures BansExcludeMembers(WithNewServer(db, serverId, server, now, channelId, channel))
  {
    var r := WithNewServer(db, serverId, server, now, channelId, channel);
    assert ServerRowsAnchored(r) by {
      assert ServerRowsAnchored(db);
    }
    assert BansExcludeMembers(r) by {
      assert ServerRowsAnchored(db) && BansExcludeMembers(db);
    }
  }

  lemma {:induction false} NewServerOwners(db: Db, serverId: ServerId, server: Server, now: Time, channelId: ChannelId, channel: Channel)
    requires Consistent(db)
    requires serverId !in db.servers && channelId !in db.channels && channel.serverId == serverId
    ensures OwnersConsistent(WithNewServer(db, serverId, server, now, channelId, channel))
  {
    var r := WithNewServer(db, serverId, server, now, channelId, channel);
    assert OwnersConsistent(r) by {
      assert OwnersConsistent(db) && ServerRowsAnchored(db);
    }
  }

  lemma {:induction false} NewServerPosts(db: Db, serverId: ServerId, server: Server, now: Time, channelId: ChannelId, channel: Channel)
    requires Consistent(db)
    requires serverId !in db.servers && channelId !in db.channels && channel.serverId == serverId
    ensures PostsAnchored(WithNewServer(db, serverId, server, now, channelId, channel))
    ensures UniqueEmails(WithNewServer(db, serverId, server, now, channelId, channel))
  {
    var r := WithNewServer(db, serverId, server, now, channelId, channel);
    assert PostsAnchored(r) by {
      assert PostsAnchored(db);
    }
    assert UniqueEmails(r) by {
      assert UniqueEmails(db);
    }
  }

  /** The `serverBan.upsert` of `banMember`: a new ban row, or the existing
      one with the new reason. */
  function UpsertBan(bans: map<(ServerId, UserId), Ban>, key: (ServerId, UserId), reason: string, createdById: UserId)
    : (r: map<(ServerId, UserId), Ban>)
    ensures r.Keys == bans.Keys + {key}
    ensures key in bans ==> r[key] == bans[key].(reason := reason)
    ensures key !in bans ==> r[key] == Ban(reason, createdById)
    ensures forall k :: k in bans && k != key ==> r[k] == bans[k]
  {
    if key in bans then bans[key := bans[key].(reason := reason)] else bans[key := Ban(reason, createdById)]
  }

  /** What `createServer` and `invites.join` answer: the server and the
      caller's role in it. */
  datatype ServerView = ServerView(id: ServerId, server: Server, role: Role)

  class ServersService {
    const prisma: Database
    const realtime: Gateway

    constructor (prisma: Database, realtime: Gateway)
      ensures this.prisma == prisma && this.realtime == realtime
    {
      this.prisma := prisma;
      this.realtime := realtime;
    }

    /** `createServer`: a trimmed name shorter than two characters is
        refused. Otherwise the server, the caller's OWNER membership and a
        TEXT channel 'general' open to MEMBER at position 0 are created, the
        caller's sockets join the server room, and the caller is answered
        as OWNER. `serverId`, `channelId` and `now` are what the database
        generates. */
    method CreateServer(userId: UserId, name: string, iconUrl: Option<string>,
                        serverId: ServerId, channelId: ChannelId, now: Time)
      returns (r: Result<ServerView>)
      requires Consistent(prisma.db) && realtime.Valid()
      requires serverId !in prisma.db.servers && channelId !in prisma.db.channels
      modifies prisma, realtime`rooms
      ensures Consistent(prisma.db) && realtime.Valid()
      ensures |Trim(name)| < 2 ==>
        && r == Err(BadRequest("Server name too short"))
        && prisma.db == old(prisma.db) && realtime.rooms == old(realtime.rooms)
      ensures |Trim(name)| >= 2 ==>
        var server := Server(Trim(name), if iconUrl.Some? then Trim(iconUrl.value) else "", userId);
        && r == Ok(ServerView(serverId, server, OWNER))
        && prisma.db == old(prisma.db).(
             servers := old(prisma.db.servers)[serverId := server],
             members := old(prisma.db.members)[(serverId, userId) := Member(OWNER, now)],
             channels := old(prisma.db.channels)[channelId := Channel(serverId, "general", TEXT, MEMBER, 0)])
        && realtime.rooms == JoinAll(old(realtime.rooms), UserRoom(userId), ServerRoom(serverId))
    {
      var clean := Trim(name);
      if |clean| < 2 {
        return Err(BadRequest("Server name too short"));
      }
      var server := Server(clean, if iconUrl.Some? then Trim(iconUrl.value) else "", userId);
      var db := prisma.db;
      NewServerConsistent(db, serverId, server, now, channelId, Channel(serverId, "general", TEXT, MEMBER, 0));
      prisma.db := db.(
        servers := db.servers[serverId := server],
        members := db.members[(serverId, userId) := Member(OWNER, now)],
        channels := db.channels[channelId := Channel(serverId, "general", TEXT, MEMBER, 0)]);
      realtime.JoinServerRoomForUser(userId, serverId);
      return Ok(ServerView(serverId, server, OWNER));
    }

    /** `renameServer`: the name is checked before the permission; with
        MANAGE_SERVER the server gets the trimmed name and `server.updated`
        goes to its room. */
    method RenameServer(serverId: ServerId, userId: UserId, name: string) returns (r: Result<Server>)
      requires Consistent(prisma.db)
      modifies prisma, realtime`log
      ensures Consistent(prisma.db)
      ensures |Trim(name)| < 2 ==>
        r == Err(BadRequest("Server name too short")) && prisma.db == old(prisma.db) && realtime.log == old(realtime.log)
      ensures |Trim(name)| >= 2 && EnsurePermission(old(prisma.db), serverId, userId, MANAGE_SERVER).Err? ==>
        && r == Err(EnsurePermission(old(prisma.db), serverId, userId, MANAGE_SERVER).failure)
        && prisma.db == old(prisma.db) && realtime.log == old(realtime.log)
      ensures |Trim(name)| >= 2 && EnsurePermission(old(prisma.db), serverId, userId, MANAGE_SERVER).Ok? ==>
        && serverId in old(prisma.db.servers)
        && r == Ok(old(prisma.db.servers)[serverId].(name := Trim(name)))
        && prisma.db == old(prisma.db).(servers := old(prisma.db.servers)[serverId := r.value])
        && realtime.log == old(realtime.log) + [Emission(ServerRoom(serverId), Forwarded(ServerUpdated, Row(serverId)),
                                                         InRoom(realtime.rooms, ServerRoom(serverId)))]
    {
      var clean := Trim(name);
      if |clean| < 2 {
        return Err(BadRequest("Server name too short"));
      }
      var check := EnsurePermission(prisma.db, serverId, userId, MANAGE_SERVER);
      if check.Err? {
        return Err(check.failure);
      }
      var db := prisma.db;
      var server := db.servers[serverId].(name := clean);
      prisma.db := db.(servers := db.servers[serverId := server]);
      realtime.EmitDomain(ServerUpdated, serverId, Row(serverId));
      return Ok(server);
    }

    /** `deleteServer`: only a member whose role is OWNER may delete; the
        server goes together with its memberships, bans, channels, invites
        and channel messages, and a removal notice goes to its room. */
    method DeleteServer(serverId: ServerId, userId: UserId) returns (r: Result<Unit>)
      requires Consistent(prisma.db)
      modifies prisma, realtime`log
      ensures Consistent(prisma.db)
      ensures GetMember(old(prisma.db), serverId, userId).Err? ==>
        r == Err(NotFound("Member not found")) && prisma.db == old(prisma.db) && realtime.log == old(realtime.log)
      ensures GetMember(old(prisma.db), serverId, userId).Ok? && old(prisma.db.members)[(serverId, userId)].role != OWNER ==>
        r == Err(Forbidden("Only owner can delete server")) && prisma.db == old(prisma.db) && realtime.log == old(realtime.log)
      ensures r.Ok? <==> (serverId, userId) in old(prisma.db.members) && old(prisma.db.members)[(serverId, userId)].role == OWNER
      ensures r.Ok? ==>
        && old(prisma.db.servers)[serverId].ownerId == userId
        && prisma.db == WithoutServer(old(prisma.db), serverId)
        && realtime.log == old(realtime.log) + [Emission(ServerRoom(serverId), Forwarded(ServerUpdated, Removed(serverId)),
                                                         InRoom(realtime.rooms, ServerRoom(serverId)))]
    {
      var member := GetMember(prisma.db, serverId, userId);
      if member.Err? {
        return Err(member.failure);
      }
      if member.value.role != OWNER {
        return Err(Forbidden("Only owner can delete server"));
      }
      WithoutServerConsistent(prisma.db, serverId);
      prisma.db := WithoutServer(prisma.db, serverId);
      realtime.EmitDomain(ServerUpdated, serverId, Removed(serverId));
      return Ok(Unit);
    }

    /** `updateMemberRole`: after `RoleChangeCheck`, only the target's role
        changes. */
    method UpdateMemberRole(serverId: ServerId, userId: UserId, targetUserId: UserId, role: Role) returns (r: Result<Member>)
      requires Consistent(prisma.db)
      modifies prisma
      ensures Consistent(prisma.db)
      ensures RoleChangeCheck(old(prisma.db), serverId, userId, targetUserId, role).Err? ==>
        && r == Err(RoleChangeCheck(old(prisma.db), serverId, userId, targetUserId, role).failure)
        && prisma.db == old(prisma.db)
      ensures RoleChangeCheck(old(prisma.db), serverId, userId, targetUserId, role).Ok? ==>
        && r == Ok(old(prisma.db.members)[(serverId, targetUserId)].(role := role))
        && prisma.db == old(prisma.db).(members := old(prisma.db.members)[(serverId, targetUserId) := r.value])
    {
      var check := RoleChangeCheck(prisma.db, serverId, userId, targetUserId, role);
      if check.Err? {
        return Err(check.failure);
      }
      RoleChangeAllowed(prisma.db, serverId, userId, targetUserId, role);
      var db := prisma.db;
      var updated := db.members[(serverId, targetUserId)].(role := role);
      prisma.db := db.(members := db.members[(serverId, targetUserId) := updated]);
      return Ok(updated);
    }

    /** `kickMember`: after the shared checks, only the target's membership
        is removed; the target's sockets stay in the server room. */
    method KickMember(serverId: ServerId, userId: UserId, targetUserId: UserId) returns (r: Result<Unit>)
      requires Consistent(prisma.db)
      modifies prisma
      ensures Consistent(prisma.db)
      ensures var check := ModerationCheck(old(prisma.db), serverId, userId, targetUserId, KICK_MEMBERS, "kick");
        && (check.Err? ==> r == check && prisma.db == old(prisma.db))
        && (check.Ok? ==> r == Ok(Unit) && prisma.db == old(prisma.db).(members := old(prisma.db.members) - {(serverId, targetUserId)}))
    {
      var check := ModerationCheck(prisma.db, serverId, userId, targetUserId, KICK_MEMBERS, "kick");
      if check.Err? {
        return check;
      }
      ModerationAllowed(prisma.db, serverId, userId, targetUserId, KICK_MEMBERS, "kick");
      var db := prisma.db;
      prisma.db := db.(members := db.members - {(serverId, targetUserId)});
      return Ok(Unit);
    }

    /** `banMember`: after the shared checks, the ban is upserted (an
        existing ban only gets the new reason) and then the target's
        membership is removed. */
    method BanMember(serverId: ServerId, userId: UserId, targetUserId: UserId, reason: Option<string>) returns (r: Result<Unit>)
      requires Consistent(prisma.db)
      modifies prisma
      ensures Consistent(prisma.db)
      ensures var check := ModerationCheck(old(prisma.db), serverId, userId, targetUserId, BAN_MEMBERS, "ban");
        var why := if reason.Some? then Trim(reason.value) else "";
        var key := (serverId, targetUserId);
        && (check.Err? ==> r == check && prisma.db == old(prisma.db))
        && (check.Ok? ==>
              && r == Ok(Unit)
              && prisma.db == old(prisma.db).(
                   bans := UpsertBan(old(prisma.db.bans), key, why, userId),
                   members := old(prisma.db.members) - {key}))
      ensures r.Ok? ==> EnsureMember(prisma.db, serverId, targetUserId) == Err(Forbidden("Banned from server"))
    {
      var check := ModerationCheck(prisma.db, serverId, userId, targetUserId, BAN_MEMBERS, "ban");
      if check.Err? {
        return check;
      }
      ModerationAllowed(prisma.db, serverId, userId, targetUserId, BAN_MEMBERS, "ban");
      var why := if reason.Some? then Trim(reason.value) else "";
      var key := (serverId, targetUserId);
      var db := prisma.db;
      prisma.db := db.(bans := UpsertBan(db.bans, key, why, userId));
      db := prisma.db;
      prisma.db := db.(members := db.members - {key});
      return Ok(Unit);
    }
  }
}
