/** Direct threads between users (backend/src/direct/direct.service.ts):
    starting a thread, thread summaries, and the direct counterparts of
    message history, search, sending, editing and deletion. */
module Direct {
  import opened Common
  import opened Text
  import opened Store
  import opened Listing
  import opened Posts
  import opened Realtime

  /** `ensureThreadMember`: the caller holds a `DirectMember` row of the
      thread. A missing thread is refused the same way. */
  function EnsureThreadMember(db: Db, threadId: ThreadId, userId: UserId): (r: Result<Thread>)
    ensures r.Ok? <==> threadId in db.threads && userId in db.threads[threadId].members
    ensures r.Ok? ==> r.value == db.threads[threadId]
    ensures r.Err? ==> r == Err(Forbidden("Not a member"))
  {
    if threadId in db.threads && userId in db.threads[threadId].members then Ok(db.threads[threadId])
    else Err(Forbidden("Not a member"))
  }

  /** Two members that include two different users are exactly those two. */
  lemma {:induction false} PairIsBoth(members: seq<UserId>, userId: UserId, otherUserId: UserId)
    requires |members| == 2
    ensures userId in members && otherUserId in members && userId != otherUserId ==>
      multiset(members) == multiset{userId, otherUserId}
  {
    assert members == [members[0], members[1]];
  }

  /** The test `findThreadBetween` applies: a thread of exactly two members
      that include both users, so that for two different users its members
      are those two. */
  predicate Between(db: Db, threadId: ThreadId, userId: UserId, otherUserId: UserId)
    ensures Between(db, threadId, userId, otherUserId) && userId != otherUserId ==>
      threadId in db.threads && multiset(db.threads[threadId].members) == multiset{userId, otherUserId}
  {
    if threadId in db.threads && |db.threads[threadId].members| == 2 then
      PairIsBoth(db.threads[threadId].members, userId, otherUserId);
      userId in db.threads[threadId].members && otherUserId in db.threads[threadId].members
    else false
  }

  /** The members of a thread other than `userId`, in row order. */
  function Others(members: seq<UserId>, userId: UserId): (r: seq<UserId>)
    ensures forall u :: u in r <==> u in members && u != userId
    ensures |r| <= |members|
    ensures userId !in members ==> r == members
  {
    if members == [] then []
    else (if members[0] != userId then [members[0]] else []) + Others(members[1..], userId)
  }

  /** In a thread of two, each side sees exactly the other. */
  lemma {:induction false} PairSeesTheOther(u: UserId, v: UserId)
    requires u != v
    ensures Others([u, v], u) == [v] && Others([u, v], v) == [u]
  {
    assert [u, v][1..] == [v];
    assert [v][1..] == [];
  }

  /** All messages of a thread, deleted ones included. */
  function ThreadPosts(posts: map<MessageId, Post>, threadId: ThreadId): (r: set<MessageId>)
    ensures forall m :: m in r <==> m in posts && posts[m].container == threadId
  {
    set m | m in posts && posts[m].container == threadId
  }

  /** What a thread summary shows to `userId`. */
  datatype Summary = Summary(id: ThreadId, users: seq<UserId>, lastMessage: Option<MessageId>)

  function AsPage(m: Option<MessageId>): seq<MessageId> {
    if m.None? then [] else [m.value]
  }

  /** `s` summarises the thread for `userId`: the other members, and the
      newest message of the thread (with `messages: { orderBy: { createdAt:
      'desc' }, take: 1 }`, so possibly a deleted one), if any. */
  ghost predicate SummaryOf(db: Db, threadId: ThreadId, userId: UserId, s: Summary) {
    && threadId in db.threads
    && s.id == threadId
    && s.users == Others(db.threads[threadId].members, userId)
    && NewestOf(db.directMessages, ThreadPosts(db.directMessages, threadId), 1, AsPage(s.lastMessage))
  }

  /** A summary's last message is absent exactly when the thread has no
      message at all, and is otherwise one of its messages, deleted or not,
      that no other message of the thread is newer than. */
  lemma {:induction false} LastMessageIsNewest(db: Db, threadId: ThreadId, userId: UserId, s: Summary)
    requires SummaryOf(db, threadId, userId, s)
    ensures s.lastMessage.None? <==> ThreadPosts(db.directMessages, threadId) == {}
    ensures s.lastMessage.Some? ==>
      && s.lastMessage.value in db.directMessages
      && db.directMessages[s.lastMessage.value].container == threadId
      && forall k :: k in db.directMessages && db.directMessages[k].container == threadId ==>
           db.directMessages[k].createdAt <= db.directMessages[s.lastMessage.value].createdAt
  {
    var page := AsPage(s.lastMessage);
    var selected := ThreadPosts(db.directMessages, threadId);
    if s.lastMessage.Some? {
      var m := s.lastMessage.value;
      assert m in page;
      forall k | k in db.directMessages && db.directMessages[k].container == threadId
        ensures db.directMessages[k].createdAt <= db.directMessages[m].createdAt
      {
        assert k in selected;
        if k != m {
          assert k !in page;
          assert NewestFirst(db.directMessages)(m) <= NewestFirst(db.directMessages)(k);
        }
      }
    } else {
      assert |page| < 1;
    }
  }

  /** Who may edit or delete a direct message: it must exist and not be
      deleted, the caller must be a member of its thread, and only its
      author may go on; membership of any rank gives no such right. */
  function ManageCheck(db: Db, messageId: MessageId, userId: UserId, verb: string): (r: Result<Post>)
    ensures messageId !in db.directMessages || db.directMessages[messageId].deletedAt.Some? ==>
      r == Err(NotFound("Message not found"))
    ensures messageId in db.directMessages && db.directMessages[messageId].deletedAt.None?
            && EnsureThreadMember(db, db.directMessages[messageId].container, userId).Err? ==>
      r == Err(Forbidden("Not a member"))
    ensures messageId in db.directMessages && db.directMessages[messageId].deletedAt.None?
            && EnsureThreadMember(db, db.directMessages[messageId].container, userId).Ok?
            && db.directMessages[messageId].authorId != userId ==>
      r == Err(Forbidden("Cannot " + verb + " message"))
    ensures r.Ok? <==>
      && messageId in db.directMessages && db.directMessages[messageId].deletedAt.None?
      && EnsureThreadMember(db, db.directMessages[messageId].container, userId).Ok?
      && db.directMessages[messageId].authorId == userId
    ensures r.Ok? ==> r.value == db.directMessages[messageId]
  {
    if messageId !in db.directMessages || db.directMessages[messageId].deletedAt.Some? then
      Err(NotFound("Message not found"))
    else
      var msg := db.directMessages[messageId];
      var member := EnsureThreadMember(db, msg.container, userId);
      if member.Err? then Err(member.failure)
      else if msg.authorId != userId then Err(Forbidden("Cannot " + verb + " message"))
      else Ok(msg)
  }

  /** The checks of direct `send`, in order: the empty-message rule,
      thread membership, the attachment check. The result is the set of
      attachments to link. */
  function SendCheck(db: Db, threadId: ThreadId, userId: UserId, content: string,
                     attachmentIds: Option<seq<AttachmentId>>): (r: Result<set<AttachmentId>>)
    ensures !SendsSomething(content, attachmentIds) ==> r == Err(BadRequest("Empty message"))
    ensures SendsSomething(content, attachmentIds) && EnsureThreadMember(db, threadId, userId).Err? ==>
      r == Err(Forbidden("Not a member"))
    ensures SendsSomething(content, attachmentIds) && EnsureThreadMember(db, threadId, userId).Ok?
            && attachmentIds.Some? && |attachmentIds.value| > 0
            && !AttachmentsValid(db, userId, attachmentIds.value) ==>
      r == Err(BadRequest("Invalid attachments"))
    ensures r.Ok? <==>
      && SendsSomething(content, attachmentIds)
      && EnsureThreadMember(db, threadId, userId).Ok?
      && (attachmentIds.Some? && |attachmentIds.value| > 0 ==> AttachmentsValid(db, userId, attachmentIds.value))
    ensures r.Ok? ==> threadId in db.threads
    ensures r.Ok? ==> forall a :: a in r.value <==> attachmentIds.Some? && a in attachmentIds.value
  {
    if !SendsSomething(content, attachmentIds) then Err(BadRequest("Empty message"))
    else
      var member := EnsureThreadMember(db, threadId, userId);
      if member.Err? then Err(member.failure)
      else if attachmentIds.None? || |attachmentIds.value| == 0 then Ok({})
      else if !AttachmentsValid(db, userId, attachmentIds.value) then Err(BadRequest("Invalid attachments"))
      else Ok(set a | a in attachmentIds.value)
  }

  /** Storing a direct message in an existing thread, and relinking
      attachments, keeps the store consistent. */
  lemma {:induction false} PutDirectMessageConsistent(db: Db, messageId: MessageId, post: Post,
                                                      attachments: map<AttachmentId, Attachment>)
    requires Consistent(db) && post.container in db.threads
    ensures Consistent(db.(directMessages := db.directMessages[messageId := post], attachments := attachments))
  {
    var r := db.(directMessages := db.directMessages[messageId := post], attachments := attachments);
    CoreTablesKeepConsistent(db, r);
    assert PostsAnchored(r) by {
      assert PostsAnchored(db);
    }
  }

  /** A new thread keeps the store consistent. */
  lemma {:induction false} NewThreadConsistent(db: Db, threadId: ThreadId, thread: Thread)
    requires Consistent(db)
    ensures Consistent(db.(threads := db.threads[threadId := thread]))
  {
    var r := db.(threads := db.threads[threadId := thread]);
    CoreTablesKeepConsistent(db, r);
    assert PostsAnchored(r) by {
      assert PostsAnchored(db);
    }
  }

  /** No message, deleted or not, belongs to the thread. */
  ghost predicate NoPostsIn(db: Db, threadId: ThreadId) {
    forall m :: m in db.directMessages ==> db.directMessages[m].container != threadId
  }

  /** The summary of a thread just opened between two users: the other
      user, and no last message. */
  lemma {:induction false} NewThreadSummary(db: Db, threadId: ThreadId, userId: UserId, otherUserId: UserId,
                                            now: Time, s: Summary)
    requires userId != otherUserId && NoPostsIn(db, threadId)
    requires threadId in db.threads && db.threads[threadId] == Thread([userId, otherUserId], now)
    requires SummaryOf(db, threadId, userId, s)
    ensures s == Summary(threadId, [otherUserId], None)
    ensures Between(db, threadId, userId, otherUserId)
  {
    PairSeesTheOther(userId, otherUserId);
    LastMessageIsNewest(db, threadId, userId, s);
  }

  /** `r` holds exactly one summary for each thread of `done`. */
  ghost predicate Listed(db: Db, userId: UserId, r: seq<Summary>, done: set<ThreadId>) {
    && (forall s :: s in r ==> s.id in done && SummaryOf(db, s.id, userId, s))
    && (forall t :: t in done ==> exists s :: s in r && s.id == t)
    && (forall i, j :: 0 <= i < j < |r| ==> r[i].id != r[j].id)
  }

  /** One more thread's summary extends a listing of the threads done so far. */
  lemma ListedStep(db: Db, userId: UserId, r: seq<Summary>, done: set<ThreadId>, s: Summary)
    requires Listed(db, userId, r, done) && s.id !in done && SummaryOf(db, s.id, userId, s)
    ensures Listed(db, userId, r + [s], done + {s.id})
  {
    var r' := r + [s];
    assert forall x :: x in r' ==> x in r || x == s;
    forall u | u in done + {s.id} ensures exists x :: x in r' && x.id == u {
      if u == s.id {
        assert r'[|r|] in r';
      } else {
        var w :| w in r && w.id == u;
        assert w in r';
      }
    }
  }

  class DirectService {
    const prisma: Database
    const realtime: Gateway

    constructor (prisma: Database, realtime: Gateway)
      ensures this.prisma == prisma && this.realtime == realtime
    {
      this.prisma := prisma;
      this.realtime := realtime;
    }

    /** `threadSummary`: NotFound for a missing thread, otherwise the
        summary of the thread for `userId`. */
    method ThreadSummary(threadId: ThreadId, userId: UserId) returns (r: Result<Summary>)
      ensures threadId !in prisma.db.threads ==> r == Err(NotFound("Thread not found"))
      ensures threadId in prisma.db.threads ==> r.Ok? && SummaryOf(prisma.db, threadId, userId, r.value)
    {
      var db := prisma.db;
      if threadId !in db.threads {
        return Err(NotFound("Thread not found"));
      }
      var last := OrderByTake(ThreadPosts(db.directMessages, threadId), NewestFirst(db.directMessages), 1);
      var lastMessage := if last == [] then None else Some(last[0]);
      assert AsPage(lastMessage) == last;
      return Ok(Summary(threadId, Others(db.threads[threadId].members, userId), lastMessage));
    }

    /** `findThreadBetween`: some two-member thread holding both users, if
        there is one (which one, when several, the database decides). */
    method FindThreadBetween(userId: UserId, otherUserId: UserId) returns (r: Option<ThreadId>)
      ensures r.Some? ==> Between(prisma.db, r.value, userId, otherUserId)
      ensures r.None? <==> forall t :: !Between(prisma.db, t, userId, otherUserId)
    {
      var db := prisma.db;
      var found := set t | t in db.threads && Between(db, t, userId, otherUserId);
      assert forall t :: Between(db, t, userId, otherUserId) ==> t in found;
      if found == {} {
        return None;
      }
      var t :| t in found;
      return Some(t);
    }

    /** `listThreads`: one summary for each thread the user belongs to. */
    method ListThreads(userId: UserId) returns (r: seq<Summary>)
      ensures forall s :: s in r ==> s.id in UserThreads(prisma.db, userId) && SummaryOf(prisma.db, s.id, userId, s)
      ensures forall t :: t in UserThreads(prisma.db, userId) ==> exists s :: s in r && s.id == t
      ensures forall i, j :: 0 <= i < j < |r| ==> r[i].id != r[j].id
    {
      var db := prisma.db;
      var todo := UserThreads(db, userId);
      ghost var all := todo;
      r := [];
      while todo != {}
        invariant todo <= all
        invariant Listed(db, userId, r, all - todo)
        decreases todo
      {
        var t :| t in todo;
        var s := ThreadSummary(t, userId);
        ListedStep(db, userId, r, all - todo, s.value);
        assert all - (todo - {t}) == (all - todo) + {t};
        r := r + [s.value];
        todo := todo - {t};
      }
      assert all - todo == all;
      assert Listed(db, userId, r, all);
    }

    /** The creating half of `startThread`: a thread of exactly the two
        users, every socket of either user joins its room, and each user's
        room is told. */
    method OpenThread(userId: UserId, otherUserId: UserId, threadId: ThreadId, now: Time)
      requires Consistent(prisma.db) && realtime.Valid()
      modifies prisma, realtime`rooms, realtime`log
      ensures Consistent(prisma.db) && realtime.Valid()
      ensures prisma.db == old(prisma.db).(threads := old(prisma.db.threads)[threadId := Thread([userId, otherUserId], now)])
      ensures realtime.rooms == JoinAll(JoinAll(old(realtime.rooms), UserRoom(userId), DirectRoom(threadId)),
                                        UserRoom(otherUserId), DirectRoom(threadId))
      ensures realtime.log == old(realtime.log) + [
        Emission(UserRoom(userId), Forwarded(DirectThreadCreated, Row(threadId)), InRoom(realtime.rooms, UserRoom(userId))),
        Emission(UserRoom(otherUserId), Forwarded(DirectThreadCreated, Row(threadId)),
                 InRoom(realtime.rooms, UserRoom(otherUserId)))]
    {
      NewThreadConsistent(prisma.db, threadId, Thread([userId, otherUserId], now));
      prisma.db := prisma.db.(threads := prisma.db.threads[threadId := Thread([userId, otherUserId], now)]);
      realtime.JoinDirectRoomForUser(userId, threadId);
      realtime.JoinDirectRoomForUser(otherUserId, threadId);
      realtime.EmitDomain(DirectThreadCreated, userId, Row(threadId));
      realtime.EmitDomain(DirectThreadCreated, otherUserId, Row(threadId));
    }

    /** `startThread`: a user cannot message themself; an existing
        two-member thread with both users is reused unchanged; otherwise
        `OpenThread`. Either way the caller gets the summary of a thread
        that a second call would find. */
    method StartThread(userId: UserId, otherUserId: UserId, threadId: ThreadId, now: Time) returns (r: Result<Summary>)
      requires Consistent(prisma.db) && threadId !in prisma.db.threads && realtime.Valid()
      modifies prisma, realtime`rooms, realtime`log
      ensures Consistent(prisma.db) && realtime.Valid()
      ensures userId == otherUserId ==>
        && r == Err(BadRequest("Cannot DM yourself"))
        && prisma.db == old(prisma.db) && realtime.rooms == old(realtime.rooms) && realtime.log == old(realtime.log)
      ensures userId != otherUserId ==>
        && r.Ok?
        && Between(prisma.db, r.value.id, userId, otherUserId)
        && SummaryOf(prisma.db, r.value.id, userId, r.value)
      ensures userId != otherUserId && (exists t :: Between(old(prisma.db), t, userId, otherUserId)) ==>
        && prisma.db == old(prisma.db) && realtime.rooms == old(realtime.rooms) && realtime.log == old(realtime.log)
      ensures userId != otherUserId && (forall t :: !Between(old(prisma.db), t, userId, otherUserId)) ==>
        && r == Ok(Summary(threadId, [otherUserId], None))
        && prisma.db == old(prisma.db).(threads := old(prisma.db.threads)[threadId := Thread([userId, otherUserId], now)])
        && realtime.rooms == JoinAll(JoinAll(old(realtime.rooms), UserRoom(userId), DirectRoom(threadId)),
                                     UserRoom(otherUserId), DirectRoom(threadId))
        && realtime.log == old(realtime.log) + [
             Emission(UserRoom(userId), Forwarded(DirectThreadCreated, Row(threadId)), InRoom(realtime.rooms, UserRoom(userId))),
             Emission(UserRoom(otherUserId), Forwarded(DirectThreadCreated, Row(threadId)),
                      InRoom(realtime.rooms, UserRoom(otherUserId)))]
    {
      if userId == otherUserId {
        return Err(BadRequest("Cannot DM yourself"));
      }
      var existing := FindThreadBetween(userId, otherUserId);
      if existing.Some? {
        r := ThreadSummary(existing.value, userId);
        return;
      }
      assert NoPostsIn(prisma.db, threadId) by {
        assert PostsAnchored(prisma.db);
      }
      OpenThread(userId, otherUserId, threadId, now);
      r := ThreadSummary(threadId, userId);
      NewThreadSummary(prisma.db, threadId, userId, otherUserId, now, r.value);
    }

    /** Direct `history`: after `ensureThreadMember`, as channel history
        over the thread's messages. */
    method History(threadId: ThreadId, userId: UserId, cursor: Option<string>, limit: Option<int>,
                   parseDate: string -> Option<Time>) returns (r: Result<seq<MessageId>>)
      ensures EnsureThreadMember(prisma.db, threadId, userId).Err? ==> r == Err(Forbidden("Not a member"))
      ensures EnsureThreadMember(prisma.db, threadId, userId).Ok? ==>
        && r.Ok?
        && NewestOf(prisma.db.directMessages,
                    HistorySet(prisma.db.directMessages, threadId, CursorBound(prisma.db.directMessages, cursor, parseDate)),
                    ClampTake(limit.GetOr(HISTORY_DEFAULT), HISTORY_MAX), r.value)
    {
      var db := prisma.db;
      var member := EnsureThreadMember(db, threadId, userId);
      if member.Err? {
        return Err(member.failure);
      }
      var take := ClampTake(limit.GetOr(HISTORY_DEFAULT), HISTORY_MAX);
      var before := CursorBound(db.directMessages, cursor, parseDate);
      var page := OrderByTake(HistorySet(db.directMessages, threadId, before), NewestFirst(db.directMessages), take);
      return Ok(page);
    }

    /** Direct `search`: after `ensureThreadMember`, as channel search over
        the thread's messages. */
    method Search(threadId: ThreadId, userId: UserId, query: string, limit: Option<int>,
                  matches: (string, string) -> bool) returns (r: Result<seq<MessageId>>)
      ensures EnsureThreadMember(prisma.db, threadId, userId).Err? ==> r == Err(Forbidden("Not a member"))
      ensures EnsureThreadMember(prisma.db, threadId, userId).Ok? && Trim(query) == [] ==> r == Ok([])
      ensures EnsureThreadMember(prisma.db, threadId, userId).Ok? && Trim(query) != [] ==>
        && r.Ok?
        && NewestOf(prisma.db.directMessages, SearchSet(prisma.db.directMessages, threadId, Trim(query), matches),
                    ClampTake(limit.GetOr(SEARCH_DEFAULT), SEARCH_MAX), r.value)
    {
      var db := prisma.db;
      var member := EnsureThreadMember(db, threadId, userId);
      if member.Err? {
        return Err(member.failure);
      }
      var take := ClampTake(limit.GetOr(SEARCH_DEFAULT), SEARCH_MAX);
      var clean := Trim(query);
      if clean == [] {
        return Ok([]);
      }
      var page := OrderByTake(SearchSet(db.directMessages, threadId, clean, matches), NewestFirst(db.directMessages), take);
      return Ok(page);
    }

    /** Stores a new direct message, links the claimed attachments to it
        and tells the thread room. */
    method Publish(messageId: MessageId, msg: Post, claimed: set<AttachmentId>)
      requires Consistent(prisma.db) && msg.container in prisma.db.threads
      modifies prisma, realtime`log
      ensures Consistent(prisma.db)
      ensures prisma.db == old(prisma.db).(
        directMessages := old(prisma.db.directMessages)[messageId := msg],
        attachments := Link(old(prisma.db.attachments), claimed, DirectMessage(messageId)))
      ensures realtime.log == old(realtime.log) + [Emission(DirectRoom(msg.container), Forwarded(DirectMessageCreated, Row(messageId)),
                                                            InRoom(realtime.rooms, DirectRoom(msg.container)))]
    {
      var linked := Link(prisma.db.attachments, claimed, DirectMessage(messageId));
      PutDirectMessageConsistent(prisma.db, messageId, msg, linked);
      prisma.db := prisma.db.(directMessages := prisma.db.directMessages[messageId := msg], attachments := linked);
      realtime.EmitDomain(DirectMessageCreated, msg.container, Row(messageId));
    }

    /** Direct `send`: after `SendCheck`, the trimmed content is stored,
        the attachments are linked and `direct.message.created` goes to the
        thread room. */
    method Send(threadId: ThreadId, userId: UserId, content: string, attachmentIds: Option<seq<AttachmentId>>,
                messageId: MessageId, now: Time) returns (r: Result<Post>)
      requires Consistent(prisma.db) && messageId !in prisma.db.directMessages
      modifies prisma, realtime`log
      ensures Consistent(prisma.db)
      ensures var check := SendCheck(old(prisma.db), threadId, userId, content, attachmentIds);
        && (check.Err? ==> r == Err(check.failure) && prisma.db == old(prisma.db) && realtime.log == old(realtime.log))
        && (check.Ok? ==>
              && r == Ok(Post(threadId, userId, Trim(content), now, None, None))
              && prisma.db == old(prisma.db).(
                   directMessages := old(prisma.db.directMessages)[messageId := r.value],
                   attachments := Link(old(prisma.db.attachments), check.value, DirectMessage(messageId)))
              && realtime.log == old(realtime.log) + [Emission(DirectRoom(threadId), Forwarded(DirectMessageCreated, Row(messageId)),
                                                               InRoom(realtime.rooms, DirectRoom(threadId)))])
    {
      var check := SendCheck(prisma.db, threadId, userId, content, attachmentIds);
      if check.Err? {
        return Err(check.failure);
      }
      var msg := Post(threadId, userId, Trim(content), now, None, None);
      Publish(messageId, msg, check.value);
      return Ok(msg);
    }

    /** Direct `edit`: an empty trimmed text is refused first; then
        `ManageCheck`; the trimmed text replaces the content, the edit time
        is set and `direct.message.updated` goes to the thread room. */
    method Edit(messageId: MessageId, userId: UserId, content: string, now: Time) returns (r: Result<Post>)
      requires Consistent(prisma.db)
      modifies prisma, realtime`log
      ensures Consistent(prisma.db)
      ensures Trim(content) == [] ==> r == Err(BadRequest("Empty message"))
      ensures Trim(content) != [] && ManageCheck(old(prisma.db), messageId, userId, "edit").Err? ==>
        r == Err(ManageCheck(old(prisma.db), messageId, userId, "edit").failure)
      ensures r.Ok? <==> Trim(content) != [] && ManageCheck(old(prisma.db), messageId, userId, "edit").Ok?
      ensures r.Err? ==> prisma.db == old(prisma.db) && realtime.log == old(realtime.log)
      ensures r.Ok? ==>
        var before := old(prisma.db.directMessages)[messageId];
        && r.value == Edited(before, Trim(content), now)
        && prisma.db == old(prisma.db).(directMessages := old(prisma.db.directMessages)[messageId := r.value])
        && realtime.log == old(realtime.log) + [Emission(DirectRoom(before.container), Forwarded(DirectMessageUpdated, Row(messageId)),
                                                         InRoom(realtime.rooms, DirectRoom(before.container)))]
    {
      var clean := Trim(content);
      if clean == [] {
        return Err(BadRequest("Empty message"));
      }
      var db := prisma.db;
      var check := ManageCheck(db, messageId, userId, "edit");
      if check.Err? {
        return Err(check.failure);
      }
      var updated := Edited(check.value, clean, now);
      PutDirectMessageConsistent(db, messageId, updated, db.attachments);
      prisma.db := db.(directMessages := db.directMessages[messageId := updated]);
      realtime.EmitDomain(DirectMessageUpdated, check.value.container, Row(messageId));
      return Ok(updated);
    }

    /** Direct `remove`: after `ManageCheck`, a soft delete and
        `direct.message.deleted` to the thread room. */
    method Remove(messageId: MessageId, userId: UserId, now: Time) returns (r: Result<Unit>)
      requires Consistent(prisma.db)
      modifies prisma, realtime`log
      ensures Consistent(prisma.db)
      ensures ManageCheck(old(prisma.db), messageId, userId, "delete").Err? ==>
        r == Err(ManageCheck(old(prisma.db), messageId, userId, "delete").failure)
      ensures r.Ok? <==> ManageCheck(old(prisma.db), messageId, userId, "delete").Ok?
      ensures r.Err? ==> prisma.db == old(prisma.db) && realtime.log == old(realtime.log)
      ensures r.Ok? ==>
        var before := old(prisma.db.directMessages)[messageId];
        && prisma.db == old(prisma.db).(directMessages := old(prisma.db.directMessages)[messageId := SoftDeleted(before, now)])
        && realtime.log == old(realtime.log) + [Emission(DirectRoom(before.container), Forwarded(DirectMessageDeleted, Removed(messageId)),
                                                         InRoom(realtime.rooms, DirectRoom(before.container)))]
    {
      var db := prisma.db;
      var check := ManageCheck(db, messageId, userId, "delete");
      if check.Err? {
        return Err(check.failure);
      }
      var deleted := SoftDeleted(check.value, now);
      PutDirectMessageConsistent(db, messageId, deleted, db.attachments);
      prisma.db := db.(directMessages := db.directMessages[messageId := deleted]);
      realtime.EmitDomain(DirectMessageDeleted, check.value.container, Removed(messageId));
      return Ok(Unit);
    }
  }
}
