/** Channel messages (backend/src/messages/messages.service.ts): history
    pages, search, sending with attachments, editing and soft deletion. */
module Messages {
  import opened Common
  import opened Text
  import opened Permissions
  import opened Store
  import opened Listing
  import opened Servers
  import opened Channels
  import opened Posts
  import opened Realtime

  /** Who may edit or delete a channel message: it must exist and not be
      deleted, the caller must pass `ensureMember` on the channel's server,
      and be its author or at least MOD. The channel's minimum role is not
      consulted. */
  function ManageCheck(db: Db, messageId: MessageId, userId: UserId, verb: string): (r: Result<Post>)
    requires PostsAnchored(db)
    ensures messageId !in db.messages || db.messages[messageId].deletedAt.Some? ==>
      r == Err(NotFound("Message not found"))
    ensures r.Ok? <==>
      && messageId in db.messages && db.messages[messageId].deletedAt.None?
      && var serverId := db.channels[db.messages[messageId].container].serverId;
      && EnsureMember(db, serverId, userId).Ok?
      && (db.messages[messageId].authorId == userId
          || HasAtLeastRole(EnsureMember(db, serverId, userId).value.role, MOD))
    ensures r.Ok? ==> r.value == db.messages[messageId]
    ensures messageId in db.messages && db.messages[messageId].deletedAt.None? ==>
      var member := EnsureMember(db, db.channels[db.messages[messageId].container].serverId, userId);
      && (member.Err? ==> r == Err(member.failure))
      && (member.Ok? && db.messages[messageId].authorId != userId && !HasAtLeastRole(member.value.role, MOD) ==>
            r == Err(Forbidden("Cannot " + verb + " message")))
  {
    if messageId !in db.messages || db.messages[messageId].deletedAt.Some? then
      Err(NotFound("Message not found"))
    else
      var msg := db.messages[messageId];
      var member := EnsureMember(db, db.channels[msg.container].serverId, userId);
      if member.Err? then Err(member.failure)
      else if !(msg.authorId == userId || HasAtLeastRole(member.value.role, MOD)) then
        Err(Forbidden("Cannot " + verb + " message"))
      else Ok(msg)
  }

  /** An author who is still a member may edit and delete their message in
      any channel of the server, even one whose minimum role they no longer
      reach. */
  lemma {:induction false} AuthorsManageRegardlessOfChannelRole(db: Db, messageId: MessageId, verb: string)
    requires Consistent(db) && messageId in db.messages && db.messages[messageId].deletedAt.None?
    requires (db.channels[db.messages[messageId].container].serverId, db.messages[messageId].authorId) in db.members
    ensures ManageCheck(db, messageId, db.messages[messageId].authorId, verb).Ok?
  {
    var serverId := db.channels[db.messages[messageId].container].serverId;
    MembershipDecides(db, serverId, db.messages[messageId].authorId);
  }

  /** A moderator manages every live message of the server's channels. */
  lemma {:induction false} ModeratorsManageEveryMessage(db: Db, messageId: MessageId, userId: UserId, verb: string)
    requires Consistent(db) && messageId in db.messages && db.messages[messageId].deletedAt.None?
    requires var key := (db.channels[db.messages[messageId].container].serverId, userId);
      key in db.members && HasAtLeastRole(db.members[key].role, MOD)
    ensures ManageCheck(db, messageId, userId, verb).Ok?
  {
    var serverId := db.channels[db.messages[messageId].container].serverId;
    MembershipDecides(db, serverId, userId);
  }

  /** Storing a message in an existing channel, and relinking attachments,
      keeps the store consistent. */
  lemma {:induction false} PutMessageConsistent(db: Db, messageId: MessageId, post: Post,
                                                attachments: map<AttachmentId, Attachment>)
    requires Consistent(db) && post.container in db.channels
    ensures Consistent(db.(messages := db.messages[messageId := post], attachments := attachments))
  {
    var r := db.(messages := db.messages[messageId := post], attachments := attachments);
    CoreTablesKeepConsistent(db, r);
    assert PostsAnchored(r) by {
      assert PostsAnchored(db);
    }
  }

  /** Once removed, a message cannot be edited or removed again. */
  lemma {:induction false} RemovedStaysRemoved(db: Db, messageId: MessageId, now: Time, userId: UserId, verb: string)
    requires PostsAnchored(db) && messageId in db.messages
    ensures var after := db.(messages := db.messages[messageId := SoftDeleted(db.messages[messageId], now)]);
      PostsAnchored(after) && ManageCheck(after, messageId, userId, verb) == Err(NotFound("Message not found"))
  {
    var after := db.(messages := db.messages[messageId := SoftDeleted(db.messages[messageId], now)]);
    assert after.messages[messageId].deletedAt.Some?;
  }

  /** The checks of `send`, in order: the empty-message rule (before any
      access check), `ensureChannelAccess` asking for the right to send, and
      the attachment check. The result is the set of attachments to link. */
  function SendCheck(db: Db, channelId: ChannelId, userId: UserId, content: string,
                     attachmentIds: Option<seq<AttachmentId>>): (r: Result<set<AttachmentId>>)
    ensures !SendsSomething(content, attachmentIds) ==> r == Err(BadRequest("Empty message"))
    ensures SendsSomething(content, attachmentIds) && EnsureChannelAccess(db, channelId, userId, true).Err? ==>
      r == Err(EnsureChannelAccess(db, channelId, userId, true).failure)
    ensures SendsSomething(content, attachmentIds) && EnsureChannelAccess(db, channelId, userId, true).Ok?
            && attachmentIds.Some? && |attachmentIds.value| > 0
            && !AttachmentsValid(db, userId, attachmentIds.value) ==>
      r == Err(BadRequest("Invalid attachments"))
    ensures r.Ok? <==>
      && SendsSomething(content, attachmentIds)
      && EnsureChannelAccess(db, channelId, userId, true).Ok?
      && (attachmentIds.Some? && |attachmentIds.value| > 0 ==> AttachmentsValid(db, userId, attachmentIds.value))
    ensures r.Ok? ==> channelId in db.channels
    ensures r.Ok? ==> forall a :: a in r.value <==> attachmentIds.Some? && a in attachmentIds.value
  {
    if !SendsSomething(content, attachmentIds) then Err(BadRequest("Empty message"))
    else
      var access := EnsureChannelAccess(db, channelId, userId, true);
      if access.Err? then Err(access.failure)
      else if attachmentIds.None? || |attachmentIds.value| == 0 then Ok({})
      else if !AttachmentsValid(db, userId, attachmentIds.value) then Err(BadRequest("Invalid attachments"))
      else Ok(set a | a in attachmentIds.value)
  }

  class MessagesService {
    const prisma: Database
    const realtime: Gateway

    constructor (prisma: Database, realtime: Gateway)
      ensures this.prisma == prisma && this.realtime == realtime
    {
      this.prisma := prisma;
      this.realtime := realtime;
    }

    /** Stores a new message, links the claimed attachments to it and
        tells the channel room. */
    method Publish(messageId: MessageId, msg: Post, claimed: set<AttachmentId>)
      requires Consistent(prisma.db) && msg.container in prisma.db.channels
      modifies prisma, realtime`log
      ensures Consistent(prisma.db)
      ensures prisma.db == old(prisma.db).(
        messages := old(prisma.db.messages)[messageId := msg],
        attachments := Link(old(prisma.db.attachments), claimed, ChannelMessage(messageId)))
      ensures realtime.log == old(realtime.log) + [Emission(ChannelRoom(msg.container), Forwarded(MessageCreated, Row(messageId)),
                                                            InRoom(realtime.rooms, ChannelRoom(msg.container)))]
    {
      var linked := Link(prisma.db.attachments, claimed, ChannelMessage(messageId));
      PutMessageConsistent(prisma.db, messageId, msg, linked);
      prisma.db := prisma.db.(messages := prisma.db.messages[messageId := msg], attachments := linked);
      realtime.EmitDomain(MessageCreated, msg.container, Row(messageId));
    }

    /** `history`: after `ensureChannelAccess`, the newest `take` live
        messages of the channel created strictly before the cursor, where
        `take` is the limit (50 by default) clamped to [1, 100]. */
    method History(channelId: ChannelId, userId: UserId, cursor: Option<string>, limit: Option<int>,
                   parseDate: string -> Option<Time>) returns (r: Result<seq<MessageId>>)
      ensures EnsureChannelAccess(prisma.db, channelId, userId, false).Err? ==>
        r == Err(EnsureChannelAccess(prisma.db, channelId, userId, false).failure)
      ensures EnsureChannelAccess(prisma.db, channelId, userId, false).Ok? ==>
        && r.Ok?
        && NewestOf(prisma.db.messages,
                    HistorySet(prisma.db.messages, channelId, CursorBound(prisma.db.messages, cursor, parseDate)),
                    ClampTake(limit.GetOr(HISTORY_DEFAULT), HISTORY_MAX), r.value)
    {
      var db := prisma.db;
      var access := EnsureChannelAccess(db, channelId, userId, false);
      if access.Err? {
        return Err(access.failure);
      }
      var take := ClampTake(limit.GetOr(HISTORY_DEFAULT), HISTORY_MAX);
      var before := CursorBound(db.messages, cursor, parseDate);
      var page := OrderByTake(HistorySet(db.messages, channelId, before), NewestFirst(db.messages), take);
      return Ok(page);
    }

    /** `search`: after `ensureChannelAccess`, an empty trimmed query finds
        nothing; otherwise the newest `take` live messages of the channel
        containing it, `take` being the limit (20 by default) clamped to
        [1, 50]. */
    method Search(channelId: ChannelId, userId: UserId, query: string, limit: Option<int>,
                  matches: (string, string) -> bool) returns (r: Result<seq<MessageId>>)
      ensures EnsureChannelAccess(prisma.db, channelId, userId, false).Err? ==>
        r == Err(EnsureChannelAccess(prisma.db, channelId, userId, false).failure)
      ensures EnsureChannelAccess(prisma.db, channelId, userId, false).Ok? && Trim(query) == [] ==> r == Ok([])
      ensures EnsureChannelAccess(prisma.db, channelId, userId, false).Ok? && Trim(query) != [] ==>
        && r.Ok?
        && NewestOf(prisma.db.messages, SearchSet(prisma.db.messages, channelId, Trim(query), matches),
                    ClampTake(limit.GetOr(SEARCH_DEFAULT), SEARCH_MAX), r.value)
    {
      var db := prisma.db;
      var access := EnsureChannelAccess(db, channelId, userId, false);
      if access.Err? {
        return Err(access.failure);
      }
      var take := ClampTake(limit.GetOr(SEARCH_DEFAULT), SEARCH_MAX);
      var clean := Trim(query);
      if clean == [] {
        return Ok([]);
      }
      var page := OrderByTake(SearchSet(db.messages, channelId, clean, matches), NewestFirst(db.messages), take);
      return Ok(page);
    }

    /** `send`: after `SendCheck`, the trimmed content is stored, the
        attachments are linked to the new message and `message.created`
        goes to the channel room. */
    method Send(channelId: ChannelId, userId: UserId, content: string, attachmentIds: Option<seq<AttachmentId>>,
                messageId: MessageId, now: Time) returns (r: Result<Post>)
      requires Consistent(prisma.db) && messageId !in prisma.db.messages
      modifies prisma, realtime`log
      ensures Consistent(prisma.db)
      ensures var check := SendCheck(old(prisma.db), channelId, userId, content, attachmentIds);
        && (check.Err? ==> r == Err(check.failure) && prisma.db == old(prisma.db) && realtime.log == old(realtime.log))
        && (check.Ok? ==>
              && r == Ok(Post(channelId, userId, Trim(content), now, None, None))
              && prisma.db == old(prisma.db).(
                   messages := old(prisma.db.messages)[messageId := r.value],
                   attachments := Link(old(prisma.db.attachments), check.value, ChannelMessage(messageId)))
              && realtime.log == old(realtime.log) + [Emission(ChannelRoom(channelId), Forwarded(MessageCreated, Row(messageId)),
                                                               InRoom(realtime.rooms, ChannelRoom(channelId)))])
    {
      var check := SendCheck(prisma.db, channelId, userId, content, attachmentIds);
      if check.Err? {
        return Err(check.failure);
      }
      var msg := Post(channelId, userId, Trim(content), now, None, None);
      Publish(messageId, msg, check.value);
      return Ok(msg);
    }

    /** `edit`: an empty trimmed text is refused first; then `ManageCheck`;
        the trimmed text replaces the content, the edit time is set and
        `message.updated` goes to the channel room. */
    method Edit(messageId: MessageId, userId: UserId, content: string, now: Time) returns (r: Result<Post>)
      requires Consistent(prisma.db)
      modifies prisma, realtime`log
      ensures Consistent(prisma.db)
      ensures Trim(content) == [] ==> r == Err(BadRequest("Empty message"))
      ensures Trim(content) != [] && ManageCheck(old(prisma.db), messageId, userId, "edit").Err? ==>
        r == Err(ManageCheck(old(prisma.db), messageId, userId, "edit").failure)
      ensures r.Ok? <==> Trim(content) != [] && ManageCheck(old(prisma.db), messageId, userId, "edit").Ok?
      ensures r.Err? ==> prisma.db == old(prisma.db) && realtime.log == old(realtime.log)
      ensures r.Ok? ==>
        var before := old(prisma.db.messages)[messageId];
        && r.value == Edited(before, Trim(content), now)
        && prisma.db == old(prisma.db).(messages := old(prisma.db.messages)[messageId := r.value])
        && realtime.log == old(realtime.log) + [Emission(ChannelRoom(before.container), Forwarded(MessageUpdated, Row(messageId)),
                                                         InRoom(realtime.rooms, ChannelRoom(before.container)))]
    {
      var clean := Trim(content);
      if clean == [] {
        return Err(BadRequest("Empty message"));
      }
      var db := prisma.db;
      assert PostsAnchored(db);
      var check := ManageCheck(db, messageId, userId, "edit");
      if check.Err? {
        return Err(check.failure);
      }
      var updated := Edited(check.value, clean, now);
      PutMessageConsistent(db, messageId, updated, db.attachments);
      prisma.db := db.(messages := db.messages[messageId := updated]);
      realtime.EmitDomain(MessageUpdated, check.value.container, Row(messageId));
      return Ok(updated);
    }

    /** `remove`: after `ManageCheck`, a soft delete (the row stays with
        empty content and a deletion time) and `message.deleted` to the
        channel room. */
    method Remove(messageId: MessageId, userId: UserId, now: Time) returns (r: Result<Unit>)
      requires Consistent(prisma.db)
      modifies prisma, realtime`log
      ensures Consistent(prisma.db)
      ensures ManageCheck(old(prisma.db), messageId, userId, "delete").Err? ==>
        r == Err(ManageCheck(old(prisma.db), messageId, userId, "delete").failure)
      ensures r.Ok? <==> ManageCheck(old(prisma.db), messageId, userId, "delete").Ok?
      ensures r.Err? ==> prisma.db == old(prisma.db) && realtime.log == old(realtime.log)
      ensures r.Ok? ==>
        var before := old(prisma.db.messages)[messageId];
        && prisma.db == old(prisma.db).(messages := old(prisma.db.messages)[messageId := SoftDeleted(before, now)])
        && realtime.log == old(realtime.log) + [Emission(ChannelRoom(before.container), Forwarded(MessageDeleted, Removed(messageId)),
                                                         InRoom(realtime.rooms, ChannelRoom(before.container)))]
    {
      var db := prisma.db;
      assert PostsAnchored(db);
      var check := ManageCheck(db, messageId, userId, "delete");
      if check.Err? {
        return Err(check.failure);
      }
      var deleted := SoftDeleted(check.value, now);
      PutMessageConsistent(db, messageId, deleted, db.attachments);
      prisma.db := db.(messages := db.messages[messageId := deleted]);
      realtime.EmitDomain(MessageDeleted, check.value.container, Removed(messageId));
      return Ok(Unit);
    }
  }
}
