/** The realtime gateway (backend/src/realtime/realtime.gateway.ts): it
    authenticates sockets, subscribes them to rooms, keeps the typing
    timers, relays voice signalling and fans out the services' events.

    The socket.io server is represented by the gateway's own state: which
    sockets are open and what each one's `client.data.user` is (`sockets`),
    which rooms each socket is in (`rooms`), and every event emitted so far
    together with the sockets it reached (`log`). `setTimeout` becomes a
    deadline on a logical clock that `Advance` moves and `ExpireTyping`
    checks. */
module Realtime {
  import opened Common
  import opened Permissions
  import opened Store
  import opened Text
  import opened Tokens
  import opened WsGuard

  type ConnId = nat

  datatype Room =
    | ServerRoom(serverId: ServerId)
    | ChannelRoom(channelId: ChannelId)
    | DirectRoom(threadId: ThreadId)
    | UserRoom(userId: UserId)
    | VoiceRoom(channelId: ChannelId)

  /** The room's name on the wire. */
  function RoomKey(r: Room): string {
    match r
    case ServerRoom(id) => "server:" + id
    case ChannelRoom(id) => "channel:" + id
    case DirectRoom(id) => "direct:" + id
    case UserRoom(id) => "user:" + id
    case VoiceRoom(id) => "voice:" + id
  }

  /** Distinct rooms have distinct names: the five prefixes start with
      different letters and a shared prefix leaves equal ids. */
  lemma {:induction false} RoomKeyInjective(a: Room, b: Room)
    requires RoomKey(a) == RoomKey(b)
    ensures a == b
  {
    assert RoomKey(a)[0] == RoomKey(b)[0];
    match a
    case ServerRoom(x) => assert ("server:" + x)[|"server:"|..] == x;
    case ChannelRoom(x) => assert ("channel:" + x)[|"channel:"|..] == x;
    case DirectRoom(x) => assert ("direct:" + x)[|"direct:"|..] == x;
    case UserRoom(x) => assert ("user:" + x)[|"user:"|..] == x;
    case VoiceRoom(x) => assert ("voice:" + x)[|"voice:"|..] == x;
  }

  /** The key of a typing timer: "<channelId>:<userId>". */
  function TypingKey(channelId: ChannelId, userId: UserId): string {
    channelId + ":" + userId
  }

  /** The first ':' of a key sits right after its channel id. */
  lemma {:induction false} TypingKeyFirstColon(channelId: ChannelId, userId: UserId, i: nat)
    requires ':' !in channelId
    requires i < |TypingKey(channelId, userId)| && TypingKey(channelId, userId)[i] == ':'
    ensures |channelId| <= i
  {
    assert forall j :: 0 <= j < |channelId| ==> TypingKey(channelId, userId)[j] == channelId[j];
  }

  /** Keys of different (channel, user) pairs never collide when channel ids
      hold no ':' (user ids may). */
  lemma {:induction false} TypingKeyInjective(c1: ChannelId, u1: UserId, c2: ChannelId, u2: UserId)
    requires ':' !in c1 && ':' !in c2
    requires TypingKey(c1, u1) == TypingKey(c2, u2)
    ensures c1 == c2 && u1 == u2
  {
    var k := TypingKey(c1, u1);
    assert k[|c1|] == ':';
    assert TypingKey(c2, u2)[|c2|] == ':';
    TypingKeyFirstColon(c1, u1, |c2|);
    TypingKeyFirstColon(c2, u2, |c1|);
    assert c1 == k[..|c1|] && c2 == k[..|c2|];
    assert u1 == k[|c1| + 1..] && u2 == k[|c2| + 1..];
  }

  /** How long a typing indicator lives without another `typing_start`. */
  const TYPING_QUIET_MS: int := 7000

  datatype Presence = ONLINE | OFFLINE

  /** The events the services ask the gateway to forward. */
  datatype DomainEvent =
    | ServerUpdated | ChannelCreated | ChannelUpdated | ChannelDeleted
    | MessageCreated | MessageUpdated | MessageDeleted | ReactionAdded | ReactionRemoved
    | DirectMessageCreated | DirectMessageUpdated | DirectMessageDeleted
    | DirectReactionAdded | DirectReactionRemoved | DirectThreadCreated

  /** What a forwarded payload tells its receivers: which row it shows, or
      that a row is gone. */
  datatype Notice = Row(id: string) | Removed(id: string)

  datatype Event =
    | PresenceUpdate(userId: UserId, status: Presence)
    | TypingStarted(channelId: ChannelId, userId: UserId)
    | TypingStopped(channelId: ChannelId, userId: UserId)
    | VoiceJoined(channelId: ChannelId, userId: UserId)
    | VoiceLeft(channelId: ChannelId, userId: UserId)
    | VoiceSignalled(channelId: ChannelId, from: UserId, data: Option<Json>)
    | Forwarded(kind: DomainEvent, notice: Notice)

  /** One `server.to(room).emit(...)`: the event and the sockets that were
      in the room at that moment. */
  datatype Emission = Emission(room: Room, event: Event, recipients: set<ConnId>)

  /** An open socket: its handshake and `client.data.user`. */
  datatype Session = Session(handshake: Handshake, user: Option<Payload>)

  /** A pending typing timer and the moment it fires. */
  datatype Timer = Timer(channelId: ChannelId, userId: UserId, deadline: Time)

  /** A message body: `channelId` and, for signalling, `data`. */
  datatype Body = Body(channelId: Option<string>, data: Option<Json>)

  /** What a handler answers: an acknowledgement, the voice roster, or the
      error it throws. */
  datatype Reply = Ack(ok: bool) | Joined(users: set<UserId>) | Thrown(failure: Failure)

  /** The event's name on the wire. The gateway's own events never share a
      name with a forwarded domain event. */
  function EventName(e: Event): (r: string)
    ensures e.Forwarded? ==> r == DomainEventName(e.kind)
    ensures !e.Forwarded? ==> forall k :: r != DomainEventName(k)
  {
    match e
    case PresenceUpdate(_, _) => "presence.update"
    case TypingStarted(_, _) => "typing.start"
    case TypingStopped(_, _) => "typing.stop"
    case VoiceJoined(_, _) => "voice.joined"
    case VoiceLeft(_, _) => "voice.left"
    case VoiceSignalled(_, _, _) => "voice.signal"
    case Forwarded(kind, _) => DomainEventName(kind)
  }

  /** The name of a domain event: the direct-message events, and only
      they, are named `direct.…`. */
  function DomainEventName(k: DomainEvent): (r: string)
    ensures |r| > 0 && (r[0] == 'd' <==>
      k in {DirectMessageCreated, DirectMessageUpdated, DirectMessageDeleted,
            DirectReactionAdded, DirectReactionRemoved, DirectThreadCreated})
    ensures StartsWith(r, "direct.") <==>
      k in {DirectMessageCreated, DirectMessageUpdated, DirectMessageDeleted,
            DirectReactionAdded, DirectReactionRemoved, DirectThreadCreated}
  {
    match k
    case ServerUpdated => "server.updated"
    case ChannelCreated => "channel.created"
    case ChannelUpdated => "channel.updated"
    case ChannelDeleted => "channel.deleted"
    case MessageCreated => "message.created"
    case MessageUpdated => "message.updated"
    case MessageDeleted => "message.deleted"
    case ReactionAdded => "reaction.added"
    case ReactionRemoved => "reaction.removed"
    case DirectMessageCreated => "direct.message.created"
    case DirectMessageUpdated => "direct.message.updated"
    case DirectMessageDeleted => "direct.message.deleted"
    case DirectReactionAdded => "direct.reaction.added"
    case DirectReactionRemoved => "direct.reaction.removed"
    case DirectThreadCreated => "direct.thread.created"
  }

  /** The id a room is named after. */
  function RoomId(r: Room): string {
    match r
    case ServerRoom(id) => id
    case ChannelRoom(id) => id
    case DirectRoom(id) => id
    case UserRoom(id) => id
    case VoiceRoom(id) => id
  }

  /** The room an `emit*` method sends to: the server, channel or thread
      room of the id it is given, and the user room for a new thread. */
  function DomainRoom(k: DomainEvent, id: string): (r: Room)
    ensures RoomId(r) == id && !r.VoiceRoom?
    ensures r.ServerRoom? <==> k in {ServerUpdated, ChannelCreated, ChannelUpdated, ChannelDeleted}
    ensures r.UserRoom? <==> k == DirectThreadCreated
    ensures r.DirectRoom? <==> k in {DirectMessageCreated, DirectMessageUpdated, DirectMessageDeleted,
                                     DirectReactionAdded, DirectReactionRemoved}
  {
    match k
    case ServerUpdated => ServerRoom(id)
    case ChannelCreated => ServerRoom(id)
    case ChannelUpdated => ServerRoom(id)
    case ChannelDeleted => ServerRoom(id)
    case MessageCreated => ChannelRoom(id)
    case MessageUpdated => ChannelRoom(id)
    case MessageDeleted => ChannelRoom(id)
    case ReactionAdded => ChannelRoom(id)
    case ReactionRemoved => ChannelRoom(id)
    case DirectMessageCreated => DirectRoom(id)
    case DirectMessageUpdated => DirectRoom(id)
    case DirectMessageDeleted => DirectRoom(id)
    case DirectReactionAdded => DirectRoom(id)
    case DirectReactionRemoved => DirectRoom(id)
    case DirectThreadCreated => UserRoom(id)
  }

  /** The sockets in `room`. */
  function InRoom(rooms: map<ConnId, set<Room>>, room: Room): (r: set<ConnId>)
    ensures forall c :: c in r <==> c in rooms && room in rooms[c]
  {
    set c | c in rooms && room in rooms[c]
  }

  /** The user a session is signed in as: the truthy `sub` of its payload. */
  function UserOf(s: Session): Option<UserId> {
    if s.user.Some? then Subject(s.user.value) else None
  }

  /** Who a connecting socket is, if the connection is kept: the token must
      be present and non-empty once "Bearer " is stripped (unlike the guard,
      `handleConnection` drops an empty one before verifying), verify, not be
      a refresh token, and carry a `sub`. */
  datatype Identity = Identity(payload: Payload, userId: UserId)

  function ConnectingUser(h: Handshake, jwt: string -> Option<Payload>): (r: Option<Identity>)
    ensures ExtractToken(h) == Some("") ==> r.None?
    ensures r.Some? <==>
      && ExtractToken(h) != Some("")
      && GuardVerdict(h, jwt).Ok? && Subject(GuardVerdict(h, jwt).value).Some?
    ensures r.Some? ==>
      r.value.payload == GuardVerdict(h, jwt).value
      && Some(r.value.userId) == Subject(r.value.payload)
  {
    match ExtractToken(h)
    case None => None
    case Some(token) =>
      if token == "" then None
      else
      match jwt(token)
      case None => None
      case Some(payload) =>
        if payload.typ.Some? && payload.typ.value != "" && payload.typ.value != "access" then None
        else
          match Subject(payload)
          case None => None
          case Some(userId) => Some(Identity(payload, userId))
  }

  /** The rooms a kept connection is in once `handleConnection` is done. */
  function ConnectRooms(db: Db, userId: UserId): (r: set<Room>)
    ensures forall room :: room in r <==>
      || (room.ServerRoom? && (room.serverId, userId) in db.members)
      || room == UserRoom(userId)
      || (room.DirectRoom? && room.threadId in db.threads && userId in db.threads[room.threadId].members)
  {
    (set s | s in MemberServers(db, userId) :: ServerRoom(s))
    + {UserRoom(userId)}
    + (set t | t in UserThreads(db, userId) :: DirectRoom(t))
  }

  /** The emissions of one presence broadcast: one `presence.update` per
      server, to that server's room, each reaching the sockets in it. */
  ghost predicate PresenceBurst(
    burst: seq<Emission>, servers: set<ServerId>, userId: UserId, status: Presence,
    rooms: map<ConnId, set<Room>>)
  {
    && BurstItems(burst, servers, userId, status, rooms)
    && BurstRoomsDistinct(burst)
    && BurstCovers(burst, servers)
  }

  ghost predicate BurstItems(
    burst: seq<Emission>, servers: set<ServerId>, userId: UserId, status: Presence,
    rooms: map<ConnId, set<Room>>)
  {
    forall i :: 0 <= i < |burst| ==>
      && burst[i].room.ServerRoom? && burst[i].room.serverId in servers
      && burst[i].event == PresenceUpdate(userId, status)
      && burst[i].recipients == InRoom(rooms, burst[i].room)
  }

  ghost predicate BurstRoomsDistinct(burst: seq<Emission>) {
    forall i, j :: 0 <= i < j < |burst| ==> burst[i].room != burst[j].room
  }

  ghost predicate BurstCovers(burst: seq<Emission>, servers: set<ServerId>) {
    forall s :: s in servers ==> exists i :: 0 <= i < |burst| && burst[i].room == ServerRoom(s)
  }

  /** One more server's update extends a burst over the servers done so far. */
  lemma {:induction false} BurstStep(
    burst: seq<Emission>, done: set<ServerId>, s: ServerId, userId: UserId, status: Presence,
    rooms: map<ConnId, set<Room>>)
    requires PresenceBurst(burst, done, userId, status, rooms) && s !in done
    ensures PresenceBurst(burst + [Emission(ServerRoom(s), PresenceUpdate(userId, status), InRoom(rooms, ServerRoom(s)))],
                          done + {s}, userId, status, rooms)
  {
    var e := Emission(ServerRoom(s), PresenceUpdate(userId, status), InRoom(rooms, ServerRoom(s)));
    var after := burst + [e];
    assert BurstItems(after, done + {s}, userId, status, rooms) by {
      assert BurstItems(burst, done, userId, status, rooms);
      assert forall i :: 0 <= i < |burst| ==> after[i] == burst[i];
    }
    assert BurstRoomsDistinct(after) by {
      assert BurstItems(burst, done, userId, status, rooms);
      assert BurstRoomsDistinct(burst);
      assert forall i :: 0 <= i < |burst| ==> after[i] == burst[i];
    }
    assert BurstCovers(after, done + {s}) by {
      assert BurstCovers(burst, done);
      forall s' | s' in done + {s} ensures exists i :: 0 <= i < |after| && after[i].room == ServerRoom(s') {
        if s' == s {
          assert after[|burst|].room == ServerRoom(s);
        } else {
          var i :| 0 <= i < |burst| && burst[i].room == ServerRoom(s');
          assert after[i] == burst[i];
        }
      }
    }
  }

  /** Every timer is filed under the key of its own channel and user. */
  ghost predicate TimersKeyed(timers: map<string, Timer>) {
    forall k :: k in timers ==> k == TypingKey(timers[k].channelId, timers[k].userId)
  }

  /** How a guarded handler starts: the guard's error, `{ ok: false }` for a
      missing channel id or subject, or the channel and user to act on. */
  datatype Admission =
    | Refused(failure: Failure)
    | Declined(payload: Payload)
    | Admitted(payload: Payload, channelId: ChannelId, userId: UserId)

  function Admit(h: Handshake, jwt: string -> Option<Payload>, body: Body): (r: Admission)
    ensures r.Refused? <==> GuardVerdict(h, jwt).Err?
    ensures r.Refused? ==> r.failure == GuardVerdict(h, jwt).failure
    ensures !r.Refused? ==> r.payload == GuardVerdict(h, jwt).value
    ensures r.Admitted? ==> body.channelId == Some(r.channelId) && Subject(r.payload) == Some(r.userId)
    ensures r.Declined? ==> body.channelId.GetOr("") == "" || Subject(r.payload).None?
  {
    match GuardVerdict(h, jwt)
    case Err(failure) => Refused(failure)
    case Ok(payload) =>
      var channelId := body.channelId.GetOr("");
      if channelId == "" then Declined(payload)
      else
        match Subject(payload)
        case None => Declined(payload)
        case Some(userId) => Admitted(payload, channelId, userId)
  }

  /** The sessions once the guard has run for socket `c`: a refused socket
      is left alone, any other has the verified payload stored as its user. */
  function Stamped(sockets: map<ConnId, Session>, c: ConnId, a: Admission): map<ConnId, Session>
    requires c in sockets
  {
    if a.Refused? then sockets else sockets[c := sockets[c].(user := Some(a.payload))]
  }

  /** The gateway's own `ensureChannelAccess`: the channel must exist, the
      user must be a member of its server and hold at least its minimum
      role. It throws plain errors and does not look at bans. */
  function GatewayChannelAccess(db: Db, channelId: ChannelId, userId: UserId): (r: Result<Channel>)
    ensures r.Ok? <==>
      && channelId in db.channels
      && (db.channels[channelId].serverId, userId) in db.members
      && HasAtLeastRole(db.members[(db.channels[channelId].serverId, userId)].role, db.channels[channelId].minRole)
    ensures r.Ok? ==> r.value == db.channels[channelId]
    ensures channelId !in db.channels ==> r == Err(PlainError("Channel not found"))
    ensures channelId in db.channels && (db.channels[channelId].serverId, userId) !in db.members
      ==> r == Err(PlainError("Not a member"))
    ensures channelId in db.channels && (db.channels[channelId].serverId, userId) in db.members
      && !HasAtLeastRole(db.members[(db.channels[channelId].serverId, userId)].role, db.channels[channelId].minRole)
      ==> r == Err(PlainError("Insufficient role"))
    ensures r.Err? ==> r.failure.PlainError?
  {
    if channelId !in db.channels then Err(PlainError("Channel not found"))
    else
      var channel := db.channels[channelId];
      if (channel.serverId, userId) !in db.members then Err(PlainError("Not a member"))
      else if !HasAtLeastRole(db.members[(channel.serverId, userId)].role, channel.minRole) then
        Err(PlainError("Insufficient role"))
      else Ok(channel)
  }

  /** The users of the sockets in a voice room (the answer to `voice.join`):
      a user is listed exactly when one of its authenticated sockets is in
      the room. */
  function Roster(sockets: map<ConnId, Session>, rooms: map<ConnId, set<Room>>, channelId: ChannelId): (r: set<UserId>)
    ensures forall u :: u in r <==>
      exists c :: c in rooms && VoiceRoom(channelId) in rooms[c] && c in sockets && UserOf(sockets[c]) == Some(u)
  {
    set c | c in rooms && VoiceRoom(channelId) in rooms[c] && c in sockets && UserOf(sockets[c]).Some?
      :: UserOf(sockets[c]).value
  }

  /** `server.in(from).socketsJoin(to)`. */
  function JoinAll(rooms: map<ConnId, set<Room>>, from: Room, to: Room): (r: map<ConnId, set<Room>>)
    ensures r.Keys == rooms.Keys
    ensures forall c :: c in r ==> (to in r[c] <==> to in rooms[c] || from in rooms[c])
    ensures forall c :: c in r ==> rooms[c] <= r[c] && r[c] <= rooms[c] + {to}
  {
    map c | c in rooms :: if from in rooms[c] then rooms[c] + {to} else rooms[c]
  }

  class Gateway {
    const jwt: string -> Option<Payload>
    const prisma: Database
    var sockets: map<ConnId, Session>
    var rooms: map<ConnId, set<Room>>
    var typingTimers: map<string, Timer>
    var clock: Time
    var log: seq<Emission>

    ghost predicate Valid()
      reads this
    {
      sockets.Keys == rooms.Keys && TimersKeyed(typingTimers)
    }

    constructor (jwt: string -> Option<Payload>, prisma: Database)
      ensures this.jwt == jwt && this.prisma == prisma
      ensures sockets == map[] && rooms == map[] && typingTimers == map[] && clock == 0 && log == []
      ensures Valid()
    {
      this.jwt := jwt;
      this.prisma := prisma;
      sockets := map[];
      rooms := map[];
      typingTimers := map[];
      clock := 0;
      log := [];
    }

    /** Emits `presence.update` with `status` once to the room of every
        server in `servers`. */
    method BroadcastPresence(userId: UserId, status: Presence, servers: set<ServerId>)
      modifies this`log
      ensures |old(log)| <= |log| && log[..|old(log)|] == old(log)
      ensures PresenceBurst(log[|old(log)|..], servers, userId, status, rooms)
    {
      var todo := servers;
      while todo != {}
        invariant todo <= servers
        invariant |old(log)| <= |log| && log[..|old(log)|] == old(log)
        invariant PresenceBurst(log[|old(log)|..], servers - todo, userId, status, rooms)
        decreases todo
      {
        var s :| s in todo;
        var e := Emission(ServerRoom(s), PresenceUpdate(userId, status), InRoom(rooms, ServerRoom(s)));
        ghost var before := log[|old(log)|..];
        BurstStep(before, servers - todo, s, userId, status, rooms);
        log := log + [e];
        assert log[|old(log)|..] == before + [e];
        assert servers - (todo - {s}) == (servers - todo) + {s};
        todo := todo - {s};
      }
      assert servers - todo == servers;
    }

    /** `rs.forEach((r) => client.join(r))`: the socket joins each room of
        `rs`, one at a time. */
    method JoinEach(c: ConnId, rs: set<Room>)
      requires c in rooms
      modifies this`rooms
      ensures rooms == old(rooms)[c := old(rooms)[c] + rs]
    {
      var todo := rs;
      assert old(rooms)[c] + (rs - todo) == old(rooms)[c];
      assert rooms == old(rooms)[c := old(rooms)[c]];
      while todo != {}
        invariant todo <= rs
        invariant c in rooms && rooms == old(rooms)[c := old(rooms)[c] + (rs - todo)]
        decreases todo
      {
        var r :| r in todo;
        assert old(rooms)[c] + (rs - (todo - {r})) == rooms[c] + {r};
        rooms := rooms[c := rooms[c] + {r}];
        todo := todo - {r};
      }
      assert rs - todo == rs;
    }

    /** `handleConnection`: a socket without a token, with a token that does
        not verify or is a refresh token, or without a subject is dropped
        before it joins any room. A kept socket joins its servers' rooms,
        its user room and its threads' rooms, and its user is announced
        ONLINE in every server room. */
    method HandleConnection(c: ConnId, h: Handshake) returns (accepted: bool)
      requires Valid() && c !in sockets
      modifies this`sockets, this`rooms, this`log
      ensures Valid()
      ensures accepted <==> ConnectingUser(h, jwt).Some?
      ensures !accepted ==> sockets == old(sockets) && rooms == old(rooms) && log == old(log)
      ensures accepted ==>
        var who := ConnectingUser(h, jwt).value;
        && sockets == old(sockets)[c := Session(h, Some(who.payload))]
        && rooms == old(rooms)[c := ConnectRooms(prisma.db, who.userId)]
        && |old(log)| <= |log| && log[..|old(log)|] == old(log)
        && PresenceBurst(log[|old(log)|..], MemberServers(prisma.db, who.userId), who.userId, ONLINE, rooms)
    {
      var token := ExtractToken(h);
      if token.None? || token.value == "" {
        return false;
      }
      var payload := jwt(token.value);
      if payload.None? || (payload.value.typ.Some? && payload.value.typ.value != "" && payload.value.typ.value != "access") {
        return false;
      }
      var userId := Subject(payload.value);
      if userId.None? {
        return false;
      }
      var uid := userId.value;
      assert ConnectingUser(h, jwt) == Some(Identity(payload.value, uid));
      sockets := sockets[c := Session(h, payload)];
      JoinConnectRooms(c, uid);
      BroadcastPresence(uid, ONLINE, MemberServers(prisma.db, uid));
      return true;
    }

    /** The joins of `handleConnection`: the socket's room set starts empty,
        then takes its servers' rooms, its user room and its threads' rooms. */
    method JoinConnectRooms(c: ConnId, uid: UserId)
      modifies this`rooms
      ensures rooms == old(rooms)[c := ConnectRooms(prisma.db, uid)]
    {
      var memberships := MemberServers(prisma.db, uid);
      var serverRooms := set s | s in memberships :: ServerRoom(s);
      rooms := rooms[c := {}];
      JoinEach(c, serverRooms);
      assert rooms[c] == serverRooms;
      rooms := rooms[c := rooms[c] + {UserRoom(uid)}];
      var direct := UserThreads(prisma.db, uid);
      JoinEach(c, set t | t in direct :: DirectRoom(t));
      assert rooms == old(rooms)[c := ConnectRooms(prisma.db, uid)];
    }

    /** `handleDisconnect`, after socket.io has taken the socket out of all
        its rooms: a signed-in user is announced OFFLINE in the room of every
        server they are a member of now; a socket without a user emits
        nothing. Typing timers and voice rooms are left as they are. */
    method HandleDisconnect(c: ConnId)
      requires Valid() && c in sockets
      modifies this`sockets, this`rooms, this`log
      ensures Valid()
      ensures sockets == old(sockets) - {c} && rooms == old(rooms) - {c}
      ensures UserOf(old(sockets)[c]).None? ==> log == old(log)
      ensures UserOf(old(sockets)[c]).Some? ==>
        var userId := UserOf(old(sockets)[c]).value;
        && |old(log)| <= |log| && log[..|old(log)|] == old(log)
        && PresenceBurst(log[|old(log)|..], MemberServers(prisma.db, userId), userId, OFFLINE, rooms)
    {
      var session := sockets[c];
      sockets := sockets - {c};
      rooms := rooms - {c};
      var userId := UserOf(session);
      if userId.None? {
        return;
      }
      BroadcastPresence(userId.value, OFFLINE, MemberServers(prisma.db, userId.value));
    }

    /** `WsJwtGuard` followed by the handlers' common opening: the guard
        stores the payload on the socket; a missing channel id or subject
        answers `{ ok: false }`. */
    method Authenticate(c: ConnId, body: Body) returns (a: Admission)
      requires Valid() && c in sockets
      modifies this`sockets
      ensures Valid()
      ensures a == Admit(old(sockets)[c].handshake, jwt, body)
      ensures a.Refused? ==> sockets == old(sockets)
      ensures !a.Refused? ==> sockets == old(sockets)[c := old(sockets)[c].(user := Some(a.payload))]
      ensures sockets == Stamped(old(sockets), c, a)
    {
      a := Admit(sockets[c].handshake, jwt, body);
      if !a.Refused? {
        sockets := sockets[c := sockets[c].(user := Some(a.payload))];
      }
    }

    /** `channel_join`: the socket joins the channel's room only once the
        gateway's access check passes. */
    method ChannelJoin(c: ConnId, body: Body) returns (r: Reply)
      requires Valid() && c in sockets
      modifies this`sockets, this`rooms
      ensures Valid()
      ensures sockets == Stamped(old(sockets), c, Admit(old(sockets)[c].handshake, jwt, body))
      ensures var a := Admit(old(sockets)[c].handshake, jwt, body);
        && (a.Refused? ==> r == Thrown(a.failure) && rooms == old(rooms))
        && (a.Declined? ==> r == Ack(false) && rooms == old(rooms))
        && (a.Admitted? ==>
              var access := GatewayChannelAccess(prisma.db, a.channelId, a.userId);
              && (access.Err? ==> r == Thrown(access.failure) && rooms == old(rooms))
              && (access.Ok? ==>
                    r == Ack(true) && rooms == old(rooms)[c := old(rooms)[c] + {ChannelRoom(a.channelId)}]))
    {
      var a := Authenticate(c, body);
      if a.Refused? {
        return Thrown(a.failure);
      } else if a.Declined? {
        return Ack(false);
      }
      var access := GatewayChannelAccess(prisma.db, a.channelId, a.userId);
      if access.Err? {
        return Thrown(access.failure);
      }
      rooms := rooms[c := rooms[c] + {ChannelRoom(a.channelId)}];
      return Ack(true);
    }

    /** `typing_start`: after the access check, `typing.start` goes to the
        channel room and the user's timer for that channel is (re)set to fire
        TYPING_QUIET_MS from now; any earlier timer for the key is replaced. */
    method TypingStart(c: ConnId, body: Body) returns (r: Reply)
      requires Valid() && c in sockets
      modifies this`sockets, this`typingTimers, this`log
      ensures Valid()
      ensures sockets == Stamped(old(sockets), c, Admit(old(sockets)[c].handshake, jwt, body))
      ensures var a := Admit(old(sockets)[c].handshake, jwt, body);
        && (a.Refused? ==> r == Thrown(a.failure) && typingTimers == old(typingTimers) && log == old(log))
        && (a.Declined? ==> r == Ack(false) && typingTimers == old(typingTimers) && log == old(log))
        && (a.Admitted? ==>
              var access := GatewayChannelAccess(prisma.db, a.channelId, a.userId);
              var room := ChannelRoom(a.channelId);
              && (access.Err? ==> r == Thrown(access.failure) && typingTimers == old(typingTimers) && log == old(log))
              && (access.Ok? ==>
                    && r == Ack(true)
                    && log == old(log) + [Emission(room, TypingStarted(a.channelId, a.userId), InRoom(rooms, room))]
                    && typingTimers == old(typingTimers)[TypingKey(a.channelId, a.userId) :=
                         Timer(a.channelId, a.userId, clock + TYPING_QUIET_MS)]))
    {
      var a := Authenticate(c, body);
      if a.Refused? {
        return Thrown(a.failure);
      } else if a.Declined? {
        return Ack(false);
      }
      var access := GatewayChannelAccess(prisma.db, a.channelId, a.userId);
      if access.Err? {
        return Thrown(access.failure);
      }
      var key := TypingKey(a.channelId, a.userId);
      var room := ChannelRoom(a.channelId);
      log := log + [Emission(room, TypingStarted(a.channelId, a.userId), InRoom(rooms, room))];
      typingTimers := typingTimers[key := Timer(a.channelId, a.userId, clock + TYPING_QUIET_MS)];
      return Ack(true);
    }

    /** `typing_stop`: no access check; the timer is dropped and
        `typing.stop` goes to the channel room in every case. */
    method TypingStop(c: ConnId, body: Body) returns (r: Reply)
      requires Valid() && c in sockets
      modifies this`sockets, this`typingTimers, this`log
      ensures Valid()
      ensures sockets == Stamped(old(sockets), c, Admit(old(sockets)[c].handshake, jwt, body))
      ensures var a := Admit(old(sockets)[c].handshake, jwt, body);
        && (a.Refused? ==> r == Thrown(a.failure) && typingTimers == old(typingTimers) && log == old(log))
        && (a.Declined? ==> r == Ack(false) && typingTimers == old(typingTimers) && log == old(log))
        && (a.Admitted? ==>
              var room := ChannelRoom(a.channelId);
              && r == Ack(true)
              && typingTimers == old(typingTimers) - {TypingKey(a.channelId, a.userId)}
              && log == old(log) + [Emission(room, TypingStopped(a.channelId, a.userId), InRoom(rooms, room))])
    {
      var a := Authenticate(c, body);
      if a.Refused? {
        return Thrown(a.failure);
      } else if a.Declined? {
        return Ack(false);
      }
      var key := TypingKey(a.channelId, a.userId);
      typingTimers := typingTimers - {key};
      var room := ChannelRoom(a.channelId);
      log := log + [Emission(room, TypingStopped(a.channelId, a.userId), InRoom(rooms, room))];
      return Ack(true);
    }

    /** The logical clock moves forward. */
    method Advance(t: Time)
      requires t >= clock
      modifies this`clock
      ensures clock == t
    {
      clock := t;
    }

    /** A typing timer's callback: once its deadline has come, the key is
        dropped and `typing.stop` goes to the channel room, exactly as an
        explicit `typing_stop` would. A replaced or cleared timer never
        fires. */
    method ExpireTyping(key: string) returns (fired: bool)
      requires Valid()
      modifies this`typingTimers, this`log
      ensures Valid()
      ensures fired <==> key in old(typingTimers) && old(typingTimers)[key].deadline <= clock
      ensures !fired ==> typingTimers == old(typingTimers) && log == old(log)
      ensures fired ==>
        var t := old(typingTimers)[key];
        && key == TypingKey(t.channelId, t.userId)
        && typingTimers == old(typingTimers) - {key}
        && log == old(log) + [Emission(ChannelRoom(t.channelId), TypingStopped(t.channelId, t.userId),
                                       InRoom(rooms, ChannelRoom(t.channelId)))]
    {
      if key !in typingTimers || typingTimers[key].deadline > clock {
        return false;
      }
      var t := typingTimers[key];
      typingTimers := typingTimers - {key};
      log := log + [Emission(ChannelRoom(t.channelId), TypingStopped(t.channelId, t.userId),
                             InRoom(rooms, ChannelRoom(t.channelId)))];
      return true;
    }

    /** `voice.join`: after the access check, a channel that is not VOICE
        answers `{ ok: false }` without joining; otherwise the socket joins
        the voice room, `voice.joined` reaches everyone in it (the caller
        too), and the answer lists the users of every socket in the room,
        the caller's own user included. */
    method VoiceJoin(c: ConnId, body: Body) returns (r: Reply)
      requires Valid() && c in sockets
      modifies this`sockets, this`rooms, this`log
      ensures Valid()
      ensures sockets == Stamped(old(sockets), c, Admit(old(sockets)[c].handshake, jwt, body))
      ensures var a := Admit(old(sockets)[c].handshake, jwt, body);
        && (a.Refused? ==> r == Thrown(a.failure) && rooms == old(rooms) && log == old(log))
        && (a.Declined? ==> r == Ack(false) && rooms == old(rooms) && log == old(log))
        && (a.Admitted? ==>
              var access := GatewayChannelAccess(prisma.db, a.channelId, a.userId);
              var room := VoiceRoom(a.channelId);
              && (access.Err? ==> r == Thrown(access.failure) && rooms == old(rooms) && log == old(log))
              && (access.Ok? && access.value.kind != VOICE ==>
                    r == Ack(false) && rooms == old(rooms) && log == old(log))
              && (access.Ok? && access.value.kind == VOICE ==>
                    && rooms == old(rooms)[c := old(rooms)[c] + {room}]
                    && log == old(log) + [Emission(room, VoiceJoined(a.channelId, a.userId), InRoom(rooms, room))]
                    && c in InRoom(rooms, room)
                    && r == Joined(Roster(Stamped(old(sockets), c, a), rooms, a.channelId))
                    && a.userId in r.users))
    {
      var a := Authenticate(c, body);
      if a.Refused? {
        return Thrown(a.failure);
      } else if a.Declined? {
        return Ack(false);
      }
      var access := GatewayChannelAccess(prisma.db, a.channelId, a.userId);
      if access.Err? {
        return Thrown(access.failure);
      }
      if access.value.kind != VOICE {
        return Ack(false);
      }
      var room := VoiceRoom(a.channelId);
      rooms := rooms[c := rooms[c] + {room}];
      log := log + [Emission(room, VoiceJoined(a.channelId, a.userId), InRoom(rooms, room))];
      var users := Roster(sockets, rooms, a.channelId);
      assert UserOf(sockets[c]) == Some(a.userId);
      return Joined(users);
    }

    /** `voice.leave`: no access check; the socket leaves the voice room
        first, so `voice.left` reaches the others but not the leaver. */
    method VoiceLeave(c: ConnId, body: Body) returns (r: Reply)
      requires Valid() && c in sockets
      modifies this`sockets, this`rooms, this`log
      ensures Valid()
      ensures sockets == Stamped(old(sockets), c, Admit(old(sockets)[c].handshake, jwt, body))
      ensures var a := Admit(old(sockets)[c].handshake, jwt, body);
        && (a.Refused? ==> r == Thrown(a.failure) && rooms == old(rooms) && log == old(log))
        && (a.Declined? ==> r == Ack(false) && rooms == old(rooms) && log == old(log))
        && (a.Admitted? ==>
              var room := VoiceRoom(a.channelId);
              && r == Ack(true)
              && rooms == old(rooms)[c := old(rooms)[c] - {room}]
              && log == old(log) + [Emission(room, VoiceLeft(a.channelId, a.userId), InRoom(rooms, room))]
              && c !in InRoom(rooms, room))
    {
      var a := Authenticate(c, body);
      if a.Refused? {
        return Thrown(a.failure);
      } else if a.Declined? {
        return Ack(false);
      }
      var room := VoiceRoom(a.channelId);
      rooms := rooms[c := rooms[c] - {room}];
      log := log + [Emission(room, VoiceLeft(a.channelId, a.userId), InRoom(rooms, room))];
      return Ack(true);
    }

    /** `voice.signal`: the data is relayed unchanged to the voice room,
        tagged with the sender; the sender need not be in the room. */
    method VoiceSignal(c: ConnId, body: Body) returns (r: Reply)
      requires Valid() && c in sockets
      modifies this`sockets, this`log
      ensures Valid()
      ensures sockets == Stamped(old(sockets), c, Admit(old(sockets)[c].handshake, jwt, body))
      ensures var a := Admit(old(sockets)[c].handshake, jwt, body);
        && (a.Refused? ==> r == Thrown(a.failure) && log == old(log))
        && (a.Declined? ==> r == Ack(false) && log == old(log))
        && (a.Admitted? ==>
              var room := VoiceRoom(a.channelId);
              && r == Ack(true)
              && log == old(log) + [Emission(room, VoiceSignalled(a.channelId, a.userId, body.data), InRoom(rooms, room))])
    {
      var a := Authenticate(c, body);
      if a.Refused? {
        return Thrown(a.failure);
      } else if a.Declined? {
        return Ack(false);
      }
      var room := VoiceRoom(a.channelId);
      log := log + [Emission(room, VoiceSignalled(a.channelId, a.userId, body.data), InRoom(rooms, room))];
      return Ack(true);
    }

    /** The fifteen `emit*` methods: the payload goes unchanged to the room
        `DomainRoom` picks for the event. */
    method EmitDomain(kind: DomainEvent, id: string, notice: Notice)
      modifies this`log
      ensures log == old(log) + [Emission(DomainRoom(kind, id), Forwarded(kind, notice), InRoom(rooms, DomainRoom(kind, id)))]
    {
      var room := DomainRoom(kind, id);
      log := log + [Emission(room, Forwarded(kind, notice), InRoom(rooms, room))];
    }

    /** `joinDirectRoomForUser`: every socket in the user's room joins the
        thread's room. */
    method JoinDirectRoomForUser(userId: UserId, threadId: ThreadId)
      requires Valid()
      modifies this`rooms
      ensures Valid()
      ensures rooms == JoinAll(old(rooms), UserRoom(userId), DirectRoom(threadId))
    {
      rooms := JoinAll(rooms, UserRoom(userId), DirectRoom(threadId));
    }

    /** `joinServerRoomForUser`: every socket in the user's room joins the
        server's room. */
    method JoinServerRoomForUser(userId: UserId, serverId: ServerId)
      requires Valid()
      modifies this`rooms
      ensures Valid()
      ensures rooms == JoinAll(old(rooms), UserRoom(userId), ServerRoom(serverId))
    {
      rooms := JoinAll(rooms, UserRoom(userId), ServerRoom(serverId));
    }
  }
}
