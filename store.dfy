/** The relational store the services query and update (the PrismaService),
    as one record of tables held by a `Database` object. Each table maps a
    row's unique key to the row. */
module Store {
  import opened Common
  import opened Permissions

  datatype ChannelType = TEXT | VOICE

  /** An argon2 hash. Hashing is salted and one-way; the model keeps only
      what the code relies on: `argon2.verify(hash, x)` holds exactly when
      `hash` was made from `x`. */
  datatype Digest = Digest(secret: string)

  predicate HashMatches(d: Digest, plain: string)
    ensures HashMatches(d, plain) <==> d == Digest(plain)
  {
    d.secret == plain
  }

  datatype User = User(email: string, passwordHash: Digest, nickname: string, status: string)

  datatype Server = Server(name: string, iconUrl: string, ownerId: UserId)

  datatype Member = Member(role: Role, joinedAt: Time)

  datatype Ban = Ban(reason: string, createdById: UserId)

  datatype Channel = Channel(
    serverId: ServerId,
    name: string,
    kind: ChannelType,
    minRole: Role,
    position: int)

  datatype Invite = Invite(
    id: InviteId,
    serverId: ServerId,
    createdById: UserId,
    maxUses: Option<int>,
    uses: int,
    expiresAt: Option<Time>,
    revoked: bool,
    createdAt: Time)

  /** A channel message or a direct message: `container` is the channel id
      or the thread id. */
  datatype Post = Post(
    container: string,
    authorId: UserId,
    content: string,
    createdAt: Time,
    editedAt: Option<Time>,
    deletedAt: Option<Time>)

  /** The `DirectMember` rows of a thread, in the order they were created. */
  datatype Thread = Thread(members: seq<UserId>, createdAt: Time)

  datatype Attachment = Attachment(
    uploaderId: UserId,
    messageId: Option<MessageId>,
    directMessageId: Option<MessageId>)

  datatype RefreshToken = RefreshToken(
    userId: UserId,
    tokenHash: Digest,
    expiresAt: Time,
    revokedAt: Option<Time>,
    createdAt: Time)

  datatype Db = Db(
    users: map<UserId, User>,
    servers: map<ServerId, Server>,
    members: map<(ServerId, UserId), Member>,
    bans: map<(ServerId, UserId), Ban>,
    channels: map<ChannelId, Channel>,
    invites: map<string, Invite>,
    messages: map<MessageId, Post>,
    threads: map<ThreadId, Thread>,
    directMessages: map<MessageId, Post>,
    attachments: map<AttachmentId, Attachment>,
    refreshTokens: map<TokenId, RefreshToken>)

  /** The database the services share. */
  class Database {
    var db: Db

    constructor (initial: Db)
      ensures db == initial
    {
      db := initial;
    }
  }

  /** The servers `userId` holds a membership row in. */
  function MemberServers(db: Db, userId: UserId): (r: set<ServerId>)
    ensures forall s :: s in r <==> (s, userId) in db.members
  {
    set k | k in db.members && k.1 == userId :: k.0
  }

  /** The direct threads `userId` holds a `DirectMember` row in. */
  function UserThreads(db: Db, userId: UserId): (r: set<ThreadId>)
    ensures forall t :: t in r <==> t in db.threads && userId in db.threads[t].members
  {
    set t | t in db.threads && userId in db.threads[t].members
  }

  /** Every server has its owner as an OWNER member, and OWNER members are
      exactly the owners. */
  ghost predicate OwnersConsistent(db: Db) {
    && (forall s :: s in db.servers ==>
          (s, db.servers[s].ownerId) in db.members
          && db.members[(s, db.servers[s].ownerId)].role == OWNER)
    && (forall k :: k in db.members && db.members[k].role == OWNER ==>
          k.0 in db.servers && db.servers[k.0].ownerId == k.1)
  }

  /** No two users share an email (the unique index on `User.email`). */
  ghost predicate UniqueEmails(db: Db) {
    forall u, v :: u in db.users && v in db.users && db.users[u].email == db.users[v].email ==> u == v
  }

  /** Memberships, bans, channels and invites belong to existing servers. */
  ghost predicate ServerRowsAnchored(db: Db) {
    && (forall k :: k in db.members ==> k.0 in db.servers)
    && (forall k :: k in db.bans ==> k.0 in db.servers)
    && (forall c :: c in db.channels ==> db.channels[c].serverId in db.servers)
    && (forall code :: code in db.invites ==> db.invites[code].serverId in db.servers)
  }

  /** A banned user holds no membership in the server. */
  ghost predicate BansExcludeMembers(db: Db) {
    forall k :: k in db.bans ==> k !in db.members
  }

  /** Messages belong to existing channels and threads. */
  ghost predicate PostsAnchored(db: Db) {
    && (forall m :: m in db.messages ==> db.messages[m].container in db.channels)
    && (forall m :: m in db.directMessages ==> db.directMessages[m].container in db.threads)
  }

  /** The invariants the services keep: rows refer to existing parents, a
      banned user holds no membership, emails are unique and the owners are
      consistent. */
  ghost predicate Consistent(db: Db) {
    && ServerRowsAnchored(db)
    && BansExcludeMembers(db)
    && PostsAnchored(db)
    && UniqueEmails(db)
    && OwnersConsistent(db)
  }

  /** A write that leaves the servers, members, bans, channels, invites
      and users as they were keeps every invariant except the anchoring of
      messages. */
  lemma {:induction false} CoreTablesKeepConsistent(db: Db, r: Db)
    requires Consistent(db)
    requires r.servers == db.servers && r.members == db.members && r.bans == db.bans
    requires r.channels == db.channels && r.invites == db.invites && r.users == db.users
    ensures ServerRowsAnchored(r) && BansExcludeMembers(r) && UniqueEmails(r) && OwnersConsistent(r)
  {
    assert ServerRowsAnchored(r) by {
      assert ServerRowsAnchored(db);
    }
    assert BansExcludeMembers(r) by {
      assert BansExcludeMembers(db);
    }
    assert UniqueEmails(r) by {
      assert UniqueEmails(db);
    }
    assert OwnersConsistent(r) by {
      assert OwnersConsistent(db);
    }
  }
}
