/** Channels of a server (backend/src/channels/channels.service.ts). */
module Channels {
  import opened Common
  import opened Text
  import opened Permissions
  import opened Store
  import opened Listing
  import opened Servers
  import opened Realtime

  /** `allowedRoles`: the minimum roles a member of the given role may see,
      from MEMBER up to the role itself. */
  function AllowedRoles(role: Role): (r: seq<Role>)
    ensures forall m :: m in r <==> HasAtLeastRole(role, m)
    ensures |r| == Priority(role) + 1
  {
    match role
    case OWNER => [MEMBER, MOD, ADMIN, OWNER]
    case ADMIN => [MEMBER, MOD, ADMIN]
    case MOD => [MEMBER, MOD]
    case MEMBER => [MEMBER]
  }

  /** The channel and the membership that `ensureChannelAccess` returns. */
  datatype Access = Access(channel: Channel, member: Member)

  /** `ensureChannelAccess`: the channel must exist, the user must pass
      `ensureMember` (bans included) and hold the channel's minimum role;
      with `requireSend` the role must also grant SEND_MESSAGES. */
  function EnsureChannelAccess(db: Db, channelId: ChannelId, userId: UserId, requireSend: bool): (r: Result<Access>)
    ensures channelId !in db.channels ==> r == Err(NotFound("Channel not found"))
    ensures r.Ok? <==>
      && channelId in db.channels
      && EnsureMember(db, db.channels[channelId].serverId, userId).Ok?
      && HasAtLeastRole(db.members[(db.channels[channelId].serverId, userId)].role, db.channels[channelId].minRole)
    ensures r.Ok? ==>
      r.value == Access(db.channels[channelId], db.members[(db.channels[channelId].serverId, userId)])
    ensures channelId in db.channels && EnsureMember(db, db.channels[channelId].serverId, userId).Err? ==>
      r == Err(EnsureMember(db, db.channels[channelId].serverId, userId).failure)
    ensures channelId in db.channels && EnsureMember(db, db.channels[channelId].serverId, userId).Ok?
      && !HasAtLeastRole(db.members[(db.channels[channelId].serverId, userId)].role, db.channels[channelId].minRole)
      ==> r == Err(Forbidden("Insufficient role"))
  {
    if channelId !in db.channels then Err(NotFound("Channel not found"))
    else
      var channel := db.channels[channelId];
      match EnsureMember(db, channel.serverId, userId)
      case Err(f) => Err(f)
      case Ok(member) =>
        if !HasAtLeastRole(member.role, channel.minRole) then Err(Forbidden("Insufficient role"))
        else if requireSend && !RoleHasPermission(member.role, SEND_MESSAGES) then Err(Forbidden("Insufficient permissions"))
        else Ok(Access(channel, member))
  }

  /** The `requireSend` check never changes the outcome: every role may
      send. */
  lemma {:induction false} RequireSendNeverFires(db: Db, channelId: ChannelId, userId: UserId)
    ensures EnsureChannelAccess(db, channelId, userId, true) == EnsureChannelAccess(db, channelId, userId, false)
  {
    if channelId in db.channels && EnsureMember(db, db.channels[channelId].serverId, userId).Ok? {
      EveryRoleViewsAndSends(db.members[(db.channels[channelId].serverId, userId)].role);
    }
  }

  /** The gateway's own access check admits exactly the users this one
      admits while the database is consistent (banned users hold no
      membership); only the error values differ. */
  lemma {:induction false} GatewayAgreesWithService(db: Db, channelId: ChannelId, userId: UserId)
    requires Consistent(db)
    ensures GatewayChannelAccess(db, channelId, userId).Ok? <==> EnsureChannelAccess(db, channelId, userId, false).Ok?
  {
    if channelId in db.channels {
      MembershipDecides(db, db.channels[channelId].serverId, userId);
    }
  }

  /** The channels of a server that a member of `role` sees. */
  ghost predicate Visible(db: Db, serverId: ServerId, role: Role, c: ChannelId) {
    c in db.channels && db.channels[c].serverId == serverId && db.channels[c].minRole in AllowedRoles(role)
  }

  function PositionOf(db: Db): ChannelId -> int {
    c => if c in db.channels then db.channels[c].position else 0
  }

  /** Every channel `list` shows is one the member may open, and every
      channel of the server the member may open is shown. */
  lemma {:induction false} VisibleIffAccessible(db: Db, serverId: ServerId, userId: UserId, c: ChannelId)
    requires EnsureMember(db, serverId, userId).Ok?
    requires c in db.channels && db.channels[c].serverId == serverId
    ensures Visible(db, serverId, db.members[(serverId, userId)].role, c) <==> EnsureChannelAccess(db, c, userId, false).Ok?
  {
  }

  /** A channel and its messages are gone; every other channel and message
      keeps its values, and the other tables are as they were. */
  function WithoutChannel(db: Db, channelId: ChannelId): (r: Db)
    ensures channelId !in r.channels
    ensures forall c :: c in r.channels <==> c in db.channels && c != channelId
    ensures forall m :: m in r.messages <==> m in db.messages && db.messages[m].container != channelId
    ensures forall c :: c in r.channels ==> r.channels[c] == db.channels[c]
    ensures forall m :: m in r.messages ==> r.messages[m] == db.messages[m]
    ensures r.users == db.users && r.servers == db.servers && r.members == db.members && r.bans == db.bans
    ensures r.invites == db.invites && r.threads == db.threads && r.directMessages == db.directMessages
    ensures r.attachments == db.attachments && r.refreshTokens == db.refreshTokens
  {
    db.(channels := db.channels - {channelId},
        messages := map m | m in db.messages && db.messages[m].container != channelId :: db.messages[m])
  }

  lemma {:induction false} WithoutChannelConsistent(db: Db, channelId: ChannelId)
    requires Consistent(db)
    ensures Consistent(WithoutChannel(db, channelId))
  {
    var r := WithoutChannel(db, channelId);
    assert ServerRowsAnchored(r) by {
      assert ServerRowsAnchored(db);
    }
    assert PostsAnchored(r) by {
      assert PostsAnchored(db);
    }
  }

  /** Adding or replacing a channel of an existing server keeps the database
      consistent. */
  lemma {:induction false} PutChannelConsistent(db: Db, channelId: ChannelId, channel: Channel)
    requires Consistent(db) && channel.serverId in db.servers
    ensures Consistent(db.(channels := db.channels[channelId := channel]))
  {
    var r := db.(channels := db.channels[channelId := channel]);
    assert ServerRowsAnchored(r) by {
      assert ServerRowsAnchored(db);
    }
    assert PostsAnchored(r) by {
      assert PostsAnchored(db);
    }
  }

  class ChannelsService {
    const prisma: Database
    const realtime: Gateway

    constructor (prisma: Database, realtime: Gateway)
      ensures this.prisma == prisma && this.realtime == realtime
    {
      this.prisma := prisma;
      this.realtime := realtime;
    }

    /** Stores the channel row and tells the server room. */
    method PutChannel(channelId: ChannelId, channel: Channel, kind: DomainEvent)
      requires Consistent(prisma.db) && channel.serverId in prisma.db.servers
      requires kind == ChannelCreated || kind == ChannelUpdated
      modifies prisma, realtime`log
      ensures Consistent(prisma.db)
      ensures prisma.db == old(prisma.db).(channels := old(prisma.db.channels)[channelId := channel])
      ensures realtime.log == old(realtime.log) + [Emission(ServerRoom(channel.serverId), Forwarded(kind, Row(channelId)),
                                                            InRoom(realtime.rooms, ServerRoom(channel.serverId)))]
    {
      PutChannelConsistent(prisma.db, channelId, channel);
      prisma.db := prisma.db.(channels := prisma.db.channels[channelId := channel]);
      realtime.EmitDomain(kind, channel.serverId, Row(channelId));
    }

    /** `list`: after `ensureMember`, the server's channels whose minimum
        role the member reaches, in ascending position. */
    method List(serverId: ServerId, userId: UserId) returns (r: Result<seq<ChannelId>>)
      ensures EnsureMember(prisma.db, serverId, userId).Err? ==>
        r == Err(EnsureMember(prisma.db, serverId, userId).failure)
      ensures EnsureMember(prisma.db, serverId, userId).Ok? ==>
        && r.Ok?
        && SortedBy(r.value, PositionOf(prisma.db))
        && Distinct(r.value)
        && (forall c :: c in r.value <==> Visible(prisma.db, serverId, prisma.db.members[(serverId, userId)].role, c))
    {
      var db := prisma.db;
      var member := EnsureMember(db, serverId, userId);
      if member.Err? {
        return Err(member.failure);
      }
      var allowed := AllowedRoles(member.value.role);
      var selected := set c | c in db.channels && db.channels[c].serverId == serverId && db.channels[c].minRole in allowed;
      var ordered := OrderBy(selected, PositionOf(db));
      return Ok(ordered);
    }

    /** The `findFirst` ordered by descending position: the largest position
        among the server's channels, if it has any. */
    method LastPosition(serverId: ServerId) returns (last: Option<int>)
      ensures last.None? <==> forall c :: c in prisma.db.channels ==> prisma.db.channels[c].serverId != serverId
      ensures last.Some? ==>
        && (exists c :: c in prisma.db.channels && prisma.db.channels[c].serverId == serverId
                        && prisma.db.channels[c].position == last.value)
        && (forall c :: c in prisma.db.channels && prisma.db.channels[c].serverId == serverId ==>
                        prisma.db.channels[c].position <= last.value)
    {
      var db := prisma.db;
      var todo := set c | c in db.channels && db.channels[c].serverId == serverId;
      ghost var all := todo;
      last := None;
      while todo != {}
        invariant todo <= all
        invariant last.None? <==> all - todo == {}
        invariant last.Some? ==> exists c :: c in all - todo && db.channels[c].position == last.value
        invariant forall c :: c in all - todo ==> db.channels[c].position <= last.value
        decreases todo
      {
        var c :| c in todo;
        if last.None? || db.channels[c].position > last.value {
          last := Some(db.channels[c].position);
        }
        todo := todo - {c};
      }
    }

    /** `create`: the permission is checked before the name (the reverse of
        `renameServer`); the channel goes after every existing channel of
        the server, TEXT and open to MEMBER unless told otherwise, and
        `channel.created` goes to the server room. */
    method Create(serverId: ServerId, userId: UserId, name: string, minRole: Option<Role>, kind: Option<ChannelType>,
                  channelId: ChannelId) returns (r: Result<Channel>)
      requires Consistent(prisma.db) && channelId !in prisma.db.channels
      modifies prisma, realtime`log
      ensures Consistent(prisma.db)
      ensures EnsurePermission(old(prisma.db), serverId, userId, MANAGE_CHANNELS).Err? ==>
        && r == Err(EnsurePermission(old(prisma.db), serverId, userId, MANAGE_CHANNELS).failure)
        && prisma.db == old(prisma.db) && realtime.log == old(realtime.log)
      ensures EnsurePermission(old(prisma.db), serverId, userId, MANAGE_CHANNELS).Ok? && Trim(name) == [] ==>
        r == Err(BadRequest("Channel name too short")) && prisma.db == old(prisma.db) && realtime.log == old(realtime.log)
      ensures r.Ok? ==>
        && Trim(name) != []
        && r.value.serverId == serverId && r.value.name == Trim(name)
        && r.value.kind == kind.GetOr(TEXT) && r.value.minRole == minRole.GetOr(MEMBER)
        && (forall c :: c in old(prisma.db.channels) && old(prisma.db.channels)[c].serverId == serverId ==>
              old(prisma.db.channels)[c].position < r.value.position)
        && ((forall c :: c in old(prisma.db.channels) ==> old(prisma.db.channels)[c].serverId != serverId) ==>
              r.value.position == 1)
        && ((exists c :: c in old(prisma.db.channels) && old(prisma.db.channels)[c].serverId == serverId) ==>
              exists c :: c in old(prisma.db.channels) && old(prisma.db.channels)[c].serverId == serverId
                          && r.value.position == old(prisma.db.channels)[c].position + 1)
        && prisma.db == old(prisma.db).(channels := old(prisma.db.channels)[channelId := r.value])
        && realtime.log == old(realtime.log) + [Emission(ServerRoom(serverId), Forwarded(ChannelCreated, Row(channelId)),
                                                         InRoom(realtime.rooms, ServerRoom(serverId)))]
      ensures r.Ok? <==> EnsurePermission(old(prisma.db), serverId, userId, MANAGE_CHANNELS).Ok? && Trim(name) != []
    {
      var check := EnsurePermission(prisma.db, serverId, userId, MANAGE_CHANNELS);
      if check.Err? {
        return Err(check.failure);
      }
      var clean := Trim(name);
      if |clean| < 1 {
        return Err(BadRequest("Channel name too short"));
      }
      var last := LastPosition(serverId);
      var position := (if last.Some? then last.value else 0) + 1;
      var channel := Channel(serverId, clean, kind.GetOr(TEXT), minRole.GetOr(MEMBER), position);
      assert serverId in prisma.db.servers by {
        assert ServerRowsAnchored(prisma.db);
      }
      PutChannel(channelId, channel, ChannelCreated);
      return Ok(channel);
    }

    /** `rename`: a missing channel is NotFound before any permission check;
        the minimum role is kept unless a new one is given. */
    method Rename(channelId: ChannelId, userId: UserId, name: string, minRole: Option<Role>) returns (r: Result<Channel>)
      requires Consistent(prisma.db)
      modifies prisma, realtime`log
      ensures Consistent(prisma.db)
      ensures channelId !in old(prisma.db.channels) ==>
        r == Err(NotFound("Channel not found")) && prisma.db == old(prisma.db) && realtime.log == old(realtime.log)
      ensures r.Ok? <==>
        && channelId in old(prisma.db.channels)
        && EnsurePermission(old(prisma.db), old(prisma.db.channels)[channelId].serverId, userId, MANAGE_CHANNELS).Ok?
        && Trim(name) != []
      ensures r.Err? ==> prisma.db == old(prisma.db) && realtime.log == old(realtime.log)
      ensures r.Ok? ==>
        var before := old(prisma.db.channels)[channelId];
        && r.value == before.(name := Trim(name), minRole := minRole.GetOr(before.minRole))
        && prisma.db == old(prisma.db).(channels := old(prisma.db.channels)[channelId := r.value])
        && realtime.log == old(realtime.log) + [Emission(ServerRoom(before.serverId), Forwarded(ChannelUpdated, Row(channelId)),
                                                         InRoom(realtime.rooms, ServerRoom(before.serverId)))]
    {
      if channelId !in prisma.db.channels {
        return Err(NotFound("Channel not found"));
      }
      var channel := prisma.db.channels[channelId];
      var check := EnsurePermission(prisma.db, channel.serverId, userId, MANAGE_CHANNELS);
      if check.Err? {
        return Err(check.failure);
      }
      var clean := Trim(name);
      if |clean| < 1 {
        return Err(BadRequest("Channel name too short"));
      }
      var updated := channel.(name := clean, minRole := minRole.GetOr(channel.minRole));
      assert channel.serverId in prisma.db.servers by {
        assert ServerRowsAnchored(prisma.db);
      }
      PutChannel(channelId, updated, ChannelUpdated);
      return Ok(updated);
    }

    /** `remove`: the channel goes, with its messages, and a removal notice
        goes to the server room. */
    method Remove(channelId: ChannelId, userId: UserId) returns (r: Result<Unit>)
      requires Consistent(prisma.db)
      modifies prisma, realtime`log
      ensures Consistent(prisma.db)
      ensures channelId !in old(prisma.db.channels) ==>
        r == Err(NotFound("Channel not found")) && prisma.db == old(prisma.db) && realtime.log == old(realtime.log)
      ensures r.Ok? <==>
        && channelId in old(prisma.db.channels)
        && EnsurePermission(old(prisma.db), old(prisma.db.channels)[channelId].serverId, userId, MANAGE_CHANNELS).Ok?
      ensures r.Err? ==> prisma.db == old(prisma.db) && realtime.log == old(realtime.log)
      ensures r.Ok? ==>
        var serverId := old(prisma.db.channels)[channelId].serverId;
        && prisma.db == WithoutChannel(old(prisma.db), channelId)
        && realtime.log == old(realtime.log) + [Emission(ServerRoom(serverId), Forwarded(ChannelDeleted, Removed(channelId)),
                                                         InRoom(realtime.rooms, ServerRoom(serverId)))]
    {
      if channelId !in prisma.db.channels {
        return Err(NotFound("Channel not found"));
      }
      var channel := prisma.db.channels[channelId];
      var check := EnsurePermission(prisma.db, channel.serverId, userId, MANAGE_CHANNELS);
      if check.Err? {
        return Err(check.failure);
      }
      WithoutChannelConsistent(prisma.db, channelId);
      prisma.db := WithoutChannel(prisma.db, channelId);
      realtime.EmitDomain(ChannelDeleted, channel.serverId, Removed(channelId));
      return Ok(Unit);
    }
  }
}
