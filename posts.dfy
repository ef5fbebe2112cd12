/** What channel messages (backend/src/messages/messages.service.ts) and
    direct messages (backend/src/direct/direct.service.ts) share: page
    sizes, the history cursor, newest-first pages, attachment claims, edits
    and soft deletion. */
module Posts {
  import opened Common
  import opened Text
  import opened Store
  import opened Listing

  const HISTORY_DEFAULT: int := 50
  const HISTORY_MAX: int := 100
  const SEARCH_DEFAULT: int := 20
  const SEARCH_MAX: int := 50

  /** `Math.min(Math.max(limit, 1), cap)`. */
  function ClampTake(limit: int, cap: int): (r: nat)
    requires cap >= 1
    ensures 1 <= r <= cap
    ensures 1 <= limit <= cap ==> r == limit
    ensures limit < 1 ==> r == 1
    ensures limit > cap ==> r == cap
  {
    if limit < 1 then 1 else if limit > cap then cap else limit
  }

  /** The history cursor: the creation time of the message whose id it is
      (any message of the table, deleted or not, in any channel or thread),
      otherwise the date it parses as, otherwise nothing. An empty cursor is
      no cursor. `parseDate` is `new Date(cursor)` with NaN as None. */
  function CursorBound(posts: map<MessageId, Post>, cursor: Option<string>, parseDate: string -> Option<Time>)
    : (r: Option<Time>)
    ensures cursor.None? || cursor == Some("") ==> r.None?
    ensures cursor.Some? && cursor.value != "" && cursor.value in posts ==> r == Some(posts[cursor.value].createdAt)
    ensures cursor.Some? && cursor.value != "" && cursor.value !in posts ==> r == parseDate(cursor.value)
  {
    if cursor.None? || cursor.value == "" then None
    else if cursor.value in posts then Some(posts[cursor.value].createdAt)
    else parseDate(cursor.value)
  }

  /** A message a history page may show: in the container, not deleted,
      and strictly older than the bound if there is one. */
  predicate InHistory(posts: map<MessageId, Post>, container: string, before: Option<Time>, m: MessageId) {
    && m in posts
    && posts[m].container == container
    && posts[m].deletedAt.None?
    && (before.Some? ==> posts[m].createdAt < before.value)
  }

  /** A message a search may find: in the container, not deleted, and
      containing the query (`matches` is the case-insensitive `contains`). */
  predicate InSearch(posts: map<MessageId, Post>, container: string, query: string,
                           matches: (string, string) -> bool, m: MessageId) {
    && m in posts
    && posts[m].container == container
    && posts[m].deletedAt.None?
    && matches(posts[m].content, query)
  }

  function NewestFirst(posts: map<MessageId, Post>): MessageId -> int {
    m => if m in posts then -posts[m].createdAt else 0
  }

  /** The messages a history page chooses from. */
  function HistorySet(posts: map<MessageId, Post>, container: string, before: Option<Time>): (r: set<MessageId>)
    ensures forall m :: m in r <==> InHistory(posts, container, before, m)
  {
    set m | m in posts && InHistory(posts, container, before, m)
  }

  /** The messages a search chooses from. */
  function SearchSet(posts: map<MessageId, Post>, container: string, query: string,
                     matches: (string, string) -> bool): (r: set<MessageId>)
    ensures forall m :: m in r <==> InSearch(posts, container, query, matches, m)
  {
    set m | m in posts && InSearch(posts, container, query, matches, m)
  }

  /** `r` is what `findMany` with `orderBy: { createdAt: 'desc' }, take`
      returns from `selected`: at most `take` distinct messages, newest
      first, all of them when there are fewer, and none left out that is
      newer than one kept. */
  ghost predicate NewestOf(posts: map<MessageId, Post>, selected: set<MessageId>, take: nat, r: seq<MessageId>) {
    FirstBy(selected, NewestFirst(posts), take, r)
  }

  /** The rows `attachment.findMany` returns: the listed attachments that
      the sender uploaded and that no message holds yet. */
  function Claimable(db: Db, userId: UserId, ids: seq<AttachmentId>): set<AttachmentId> {
    set a | a in ids && a in db.attachments && db.attachments[a].uploaderId == userId
                    && db.attachments[a].messageId.None? && db.attachments[a].directMessageId.None?
  }

  ghost predicate Usable(db: Db, userId: UserId, a: AttachmentId) {
    a in db.attachments && db.attachments[a].uploaderId == userId
    && db.attachments[a].messageId.None? && db.attachments[a].directMessageId.None?
  }

  lemma {:induction false} FoundAtMostListed<T>(ids: seq<T>, ok: set<T>)
    ensures |set a | a in ids && a in ok| <= |ids|
    decreases |ids|
  {
    if ids != [] {
      var rest := ids[1..];
      FoundAtMostListed(rest, ok);
      assert ids == [ids[0]] + rest;
      assert (set a | a in ids && a in ok)
          == (set a | a in rest && a in ok) + (if ids[0] in ok then {ids[0]} else {});
    }
  }

  /** Found rows number as many as the listed ids exactly when the ids are
      distinct and every one of them is found. */
  lemma {:induction false} FoundAllIff<T>(ids: seq<T>, ok: set<T>)
    ensures |set a | a in ids && a in ok| == |ids| <==> Distinct(ids) && forall a :: a in ids ==> a in ok
    decreases |ids|
  {
    if ids != [] {
      var x, rest := ids[0], ids[1..];
      assert ids == [x] + rest;
      var found := set a | a in ids && a in ok;
      var foundRest := set a | a in rest && a in ok;
      FoundAllIff(rest, ok);
      FoundAtMostListed(rest, ok);
      DistinctUncons(ids);
      assert found == foundRest + (if x in ok then {x} else {});
      if x in ok && x in rest {
        assert x in foundRest;
      }
    }
  }

  /** The attachment check of `send`: as many claimable rows as listed ids.
      It passes exactly when the ids are distinct and each names an
      attachment the sender uploaded that no message holds, so a repeated
      id is refused. */
  function AttachmentsValid(db: Db, userId: UserId, ids: seq<AttachmentId>): (r: bool)
    ensures r <==> Distinct(ids) && forall a :: a in ids ==> Usable(db, userId, a)
  {
    ghost var ok := set a | a in db.attachments && Usable(db, userId, a);
    assert Claimable(db, userId, ids) == set a | a in ids && a in ok;
    FoundAllIff(ids, ok);
    |Claimable(db, userId, ids)| == |ids|
  }

  /** The message an attachment is linked to: a channel message or a
      direct message. */
  datatype Holder = ChannelMessage(id: MessageId) | DirectMessage(id: MessageId)

  /** `attachment.updateMany`: each claimed attachment now points at the
      new message, the others are untouched. */
  function Link(attachments: map<AttachmentId, Attachment>, claimed: set<AttachmentId>, holder: Holder)
    : (r: map<AttachmentId, Attachment>)
    ensures r.Keys == attachments.Keys
    ensures forall a :: a in r && a !in claimed ==> r[a] == attachments[a]
    ensures forall a :: a in r && a in claimed ==>
      && r[a].uploaderId == attachments[a].uploaderId
      && (if holder.ChannelMessage? then
            r[a].messageId == Some(holder.id) && r[a].directMessageId == attachments[a].directMessageId
          else
            r[a].directMessageId == Some(holder.id) && r[a].messageId == attachments[a].messageId)
  {
    map a | a in attachments ::
      if a !in claimed then attachments[a]
      else if holder.ChannelMessage? then attachments[a].(messageId := Some(holder.id))
      else attachments[a].(directMessageId := Some(holder.id))
  }

  /** The empty-message rule of `send`: trimmed content may be empty only
      when attachments are listed. */
  predicate SendsSomething(content: string, attachmentIds: Option<seq<AttachmentId>>)
    ensures !AllSpace(content) ==> SendsSomething(content, attachmentIds)
    ensures attachmentIds.Some? && attachmentIds.value != [] ==> SendsSomething(content, attachmentIds)
    ensures AllSpace(content) && (attachmentIds.None? || attachmentIds.value == []) ==> !SendsSomething(content, attachmentIds)
  {
    TrimEmptyIff(content);
    Trim(content) != [] || (attachmentIds.Some? && |attachmentIds.value| > 0)
  }

  /** An edit: the trimmed content and the edit time. */
  function Edited(p: Post, clean: string, now: Time): (r: Post)
    ensures r.content == clean && r.editedAt == Some(now)
    ensures r.container == p.container && r.authorId == p.authorId && r.createdAt == p.createdAt
    ensures r.deletedAt == p.deletedAt
  {
    p.(content := clean, editedAt := Some(now))
  }

  /** A soft delete: the row stays, its content is emptied and it is marked
      deleted, so no history page or search shows it again. */
  function SoftDeleted(p: Post, now: Time): (r: Post)
    ensures r.content == "" && r.deletedAt == Some(now)
    ensures r.container == p.container && r.authorId == p.authorId && r.createdAt == p.createdAt
  {
    p.(content := "", deletedAt := Some(now))
  }

  lemma {:induction false} SoftDeletedLeavesListings(posts: map<MessageId, Post>, m: MessageId, now: Time,
                                                     before: Option<Time>, query: string, matches: (string, string) -> bool)
    requires m in posts
    ensures !InHistory(posts[m := SoftDeleted(posts[m], now)], posts[m].container, before, m)
    ensures !InSearch(posts[m := SoftDeleted(posts[m], now)], posts[m].container, query, matches, m)
  {
    assert posts[m := SoftDeleted(posts[m], now)][m].deletedAt.Some?;
  }
}
