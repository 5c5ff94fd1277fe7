/** Channel messages over HTTP: history pages, threads, editing, deletion,
    reactions and search within a workspace
    (backend/src/controllers/messageController.ts). */
module MessageController {
  import opened Common
  import opened Sequences
  import opened Store

  /** The `createdAt` bound of the `where` clause. */
  datatype Window = Before(t: Time) | After(t: Time) | Unbounded
  {
    predicate Admits(time: Time) {
      match this
      case Before(t) => time < t
      case After(t) => time > t
      case Unbounded => true
    }
  }

  /** The messages `getMessages` selects before ordering and taking. */
  predicate InPage(m: Message, channelId: Id, w: Window) {
    m.channelId == channelId && m.parentId.None? && w.Admits(m.createdAt)
  }

  /** `getMessages`' answer: the `limit` newest top-level messages of the
      channel inside the window, oldest first. */
  function MessagePage(messages: seq<Message>, channelId: Id, w: Window, limit: nat): seq<Message> {
    Reverse(Newest(Filter(messages, PageFilter(channelId, w)), MessageTime, limit))
  }

  function PageFilter(channelId: Id, w: Window): Message -> bool {
    m => InPage(m, channelId, w)
  }

  /** At most `limit` messages, all top-level messages of the channel inside the
      window, in ascending time, and none left out that is newer than one
      returned. */
  lemma MessagePageSpec(messages: seq<Message>, channelId: Id, w: Window, limit: nat)
    ensures |MessagePage(messages, channelId, w, limit)| <= limit
    ensures SortedAsc(MessagePage(messages, channelId, w, limit), MessageTime)
    ensures forall m :: m in MessagePage(messages, channelId, w, limit) ==> m in messages && InPage(m, channelId, w)
    ensures forall m, n ::
      (m in messages && InPage(m, channelId, w) && m !in MessagePage(messages, channelId, w, limit) &&
       n in MessagePage(messages, channelId, w, limit)) ==>
      m.createdAt <= n.createdAt
  {
    var p := PageFilter(channelId, w);
    var r := MessagePage(messages, channelId, w, limit);
    NewestWhereReversed(messages, p, MessageTime, limit);
    assert r == Reverse(Newest(Filter(messages, p), MessageTime, limit));
    forall m | m in r
      ensures m in messages && InPage(m, channelId, w)
    {
      assert p(m);
    }
    forall m, n | m in messages && InPage(m, channelId, w) && m !in r && n in r
      ensures m.createdAt <= n.createdAt
    {
      assert p(m);
      assert MessageTime(m) <= MessageTime(n);
    }
  }

  /** `getMessages`: members only; the read moves the caller's `lastReadAt`.
      `before` wins over `after` when both are given. */
  method GetMessages(db: Db, caller: Id, channelId: Id, limit: Option<nat>,
                     before: Option<Time>, after: Option<Time>, now: Time)
    returns (r: Response<seq<Message>>)
    requires db.Valid()
    modifies db
    ensures db.Valid()
    ensures (caller, channelId) !in old(db.channelMembers) ==>
      r == Err(403, "You do not have access to this channel") && db.Snapshot() == old(db.Snapshot())
    ensures (caller, channelId) in old(db.channelMembers) ==>
      var w := if before.Some? then Before(before.value) else if after.Some? then After(after.value) else Unbounded;
      r == Ok(200, MessagePage(old(db.messages), channelId, w, LimitOf(limit))) &&
      db.Snapshot() == old(db.Snapshot()).(channelMembers := old(db.channelMembers)[
        (caller, channelId) := old(db.channelMembers)[(caller, channelId)].(lastReadAt := now)])
  {
    if (caller, channelId) !in db.channelMembers {
      return Err(403, "You do not have access to this channel");
    }
    var w := Unbounded;
    if before.Some? {
      w := Before(before.value);
    } else if after.Some? {
      w := After(after.value);
    }
    var page := Newest(Filter(db.messages, PageFilter(channelId, w)), MessageTime, LimitOf(limit));
    var sent := ReverseFetched(page);
    db.SetLastRead(caller, channelId, now);
    r := Ok(200, sent);
  }

  /** The replies of one message. */
  function RepliesTo(messageId: Id): Message -> bool {
    (m: Message) => m.parentId == Some(messageId)
  }

  /** `getThreadReplies`: every reply of a message, oldest first, to members of
      its channel. */
  method GetThreadReplies(db: Db, caller: Id, messageId: Id) returns (r: Response<seq<Message>>)
    requires db.Valid()
    ensures !db.HasMessage(messageId) ==> r == Err(404, "Message not found")
    ensures db.HasMessage(messageId) && (caller, Find(db.messages, MessageKey, messageId).value.channelId) !in db.channelMembers ==>
      r == Err(403, "You do not have access to this channel")
    ensures r.Ok? ==>
      r.status == 200 && db.HasMessage(messageId) &&
      (caller, Find(db.messages, MessageKey, messageId).value.channelId) in db.channelMembers &&
      SortedAsc(r.value, MessageTime) &&
      forall m :: m in r.value <==> m in db.messages && m.parentId == Some(messageId)
    ensures r.Ok? ==> multiset(r.value) == multiset(Filter(db.messages, RepliesTo(messageId)))
    ensures r.Ok? || r.Code() in {403, 404}
  {
    var parent := Find(db.messages, MessageKey, messageId);
    if parent.None? {
      return Err(404, "Message not found");
    }
    if (caller, parent.value.channelId) !in db.channelMembers {
      return Err(403, "You do not have access to this channel");
    }
    r := Ok(200, SortAsc(Filter(db.messages, RepliesTo(messageId)), MessageTime));
  }

  /** The row `updateMessage` writes: the new content, and `edited` set. */
  function Edited(m: Message, content: string): (v: Message)
    ensures v.edited && v.content == content
    ensures v.(content := m.content, edited := m.edited) == m
  {
    m.(content := content, edited := true)
  }

  /** `updateMessage`: authors only. A `content` left out of the body keeps
      the old text; a null one violates the column's not-null constraint. */
  method UpdateMessage(db: Db, caller: Id, messageId: Id, content: Field<Option<string>>)
    returns (r: Response<Message>)
    requires db.Valid()
    modifies db
    ensures db.Valid()
    ensures !old(db.HasMessage(messageId)) ==> r == Err(404, "Message not found") && db.Snapshot() == old(db.Snapshot())
    ensures old(db.HasMessage(messageId)) ==>
      var m := Find(old(db.messages), MessageKey, messageId).value;
      if m.authorId != caller then
        r == Err(403, "You can only edit your own messages") && db.Snapshot() == old(db.Snapshot())
      else if content == Present(None) then
        r == Err(500, "Failed to update message") && db.Snapshot() == old(db.Snapshot())
      else
        var v := Edited(m, if content.Present? then content.value.value else m.content);
        r == Ok(200, v) &&
        db.Snapshot() == old(db.Snapshot()).(messages := MapWhere(old(db.messages), (x: Message) => x.id == messageId,
                                             (x: Message) => v))
  {
    var found := Find(db.messages, MessageKey, messageId);
    if found.None? {
      return Err(404, "Message not found");
    }
    var m := found.value;
    if m.authorId != caller {
      return Err(403, "You can only edit your own messages");
    }
    if content == Present(None) {
      return Err(500, "Failed to update message");
    }
    var v := Edited(m, if content.Present? then content.value.value else m.content);
    var sel := (x: Message) => x.id == messageId;
    var f := (x: Message) => v;
    MapWhereKeepsKeys(db.messages, sel, f, MessageKey);
    db.messages := MapWhere(db.messages, sel, f);
    r := Ok(200, v);
  }

  /** `deleteMessage`: authors only; exactly that row goes (`WithoutKeySpec`). */
  method DeleteMessage(db: Db, caller: Id, messageId: Id) returns (r: Response<string>)
    requires db.Valid()
    modifies db
    ensures db.Valid()
    ensures !old(db.HasMessage(messageId)) ==> r == Err(404, "Message not found") && db.Snapshot() == old(db.Snapshot())
    ensures old(db.HasMessage(messageId)) ==>
      if Find(old(db.messages), MessageKey, messageId).value.authorId != caller then
        r == Err(403, "You can only delete your own messages") && db.Snapshot() == old(db.Snapshot())
      else
        r == Ok(200, "Message deleted successfully") &&
        db.Snapshot() == old(db.Snapshot()).(messages := WithoutKey(old(db.messages), MessageKey, messageId))
  {
    var found := Find(db.messages, MessageKey, messageId);
    if found.None? {
      return Err(404, "Message not found");
    }
    if found.value.authorId != caller {
      return Err(403, "You can only delete your own messages");
    }
    WithoutKeySpec(db.messages, MessageKey, messageId);
    db.messages := WithoutKey(db.messages, MessageKey, messageId);
    r := Ok(200, "Message deleted successfully");
  }

  /** `addReaction`. The reaction table's key makes a second identical
      reaction impossible. */
  method AddReaction(db: Db, caller: Id, messageId: Id, emoji: Option<string>) returns (r: Response<Reaction>)
    requires db.Valid()
    modifies db
    ensures db.Valid()
    ensures !Given(emoji) ==> r == Err(400, "Emoji is required") && db.Snapshot() == old(db.Snapshot())
    ensures Given(emoji) && (caller, messageId, emoji.value) in old(db.reactions) ==>
      r == Err(400, "Reaction already exists") && db.Snapshot() == old(db.Snapshot())
    ensures Given(emoji) && (caller, messageId, emoji.value) !in old(db.reactions) ==>
      if old(db.HasUser(caller)) && old(db.HasMessage(messageId)) then
        r == Ok(201, (caller, messageId, emoji.value)) &&
        db.Snapshot() == old(db.Snapshot()).(reactions := old(db.reactions) + {(caller, messageId, emoji.value)})
      else
        r == Err(500, "Failed to add reaction") && db.Snapshot() == old(db.Snapshot())
  {
    if !Given(emoji) {
      return Err(400, "Emoji is required");
    }
    var t := (caller, messageId, emoji.value);
    if t in db.reactions {
      return Err(400, "Reaction already exists");
    }
    if !db.CanAddReaction(t) {
      return Err(500, "Failed to add reaction");
    }
    db.reactions := db.reactions + {t};
    r := Ok(201, t);
  }

  /** `removeReaction`: deleting a reaction that is not there fails. */
  method RemoveReaction(db: Db, caller: Id, messageId: Id, emoji: Option<string>) returns (r: Response<string>)
    requires db.Valid()
    modifies db
    ensures db.Valid()
    ensures emoji.Some? && (caller, messageId, emoji.value) in old(db.reactions) ==>
      r == Ok(200, "Reaction removed successfully") &&
      db.Snapshot() == old(db.Snapshot()).(reactions := old(db.reactions) - {(caller, messageId, emoji.value)})
    ensures !(emoji.Some? && (caller, messageId, emoji.value) in old(db.reactions)) ==>
      r == Err(500, "Failed to remove reaction") && db.Snapshot() == old(db.Snapshot())
  {
    if emoji.None? || (caller, messageId, emoji.value) !in db.reactions {
      return Err(500, "Failed to remove reaction");
    }
    db.reactions := db.reactions - {(caller, messageId, emoji.value)};
    r := Ok(200, "Reaction removed successfully");
  }

  /** A message `searchMessages` may return. */
  predicate SearchHit(channels: seq<Channel>, channelMembers: map<(Id, Id), ChannelMembership>,
                      userId: Id, workspaceId: Id, q: string, m: Message) {
    InMemberChannel(channels, channelMembers, userId, workspaceId, m) && ContainsInsensitive(m.content, q)
  }

  function SearchFilter(channels: seq<Channel>, channelMembers: map<(Id, Id), ChannelMembership>,
                        userId: Id, workspaceId: Id, q: string): Message -> bool {
    m => SearchHit(channels, channelMembers, userId, workspaceId, q, m)
  }

  /** The `limit` newest messages `searchMessages` may return. */
  function WorkspaceSearch(messages: seq<Message>, channels: seq<Channel>, channelMembers: map<(Id, Id), ChannelMembership>,
                           userId: Id, workspaceId: Id, q: string, limit: nat): seq<Message> {
    Newest(Filter(messages, SearchFilter(channels, channelMembers, userId, workspaceId, q)), MessageTime, limit)
  }

  /** At most `limit` hits, newest first, and no hit left out newer than one returned. */
  lemma WorkspaceSearchSpec(messages: seq<Message>, channels: seq<Channel>, channelMembers: map<(Id, Id), ChannelMembership>,
                            userId: Id, workspaceId: Id, q: string, limit: nat)
    ensures var r := WorkspaceSearch(messages, channels, channelMembers, userId, workspaceId, q, limit);
      |r| <= limit && SortedDesc(r, MessageTime) &&
      (forall m :: m in r ==> m in messages && SearchHit(channels, channelMembers, userId, workspaceId, q, m)) &&
      (forall m, n ::
        (m in messages && SearchHit(channels, channelMembers, userId, workspaceId, q, m) && m !in r && n in r) ==>
        m.createdAt <= n.createdAt)
  {
    var p := SearchFilter(channels, channelMembers, userId, workspaceId, q);
    var r := WorkspaceSearch(messages, channels, channelMembers, userId, workspaceId, q, limit);
    NewestWhere(messages, p, MessageTime, limit);
    assert r == Newest(Filter(messages, p), MessageTime, limit);
    forall m | m in r
      ensures m in messages && SearchHit(channels, channelMembers, userId, workspaceId, q, m)
    {
      assert p(m);
    }
    forall m, n | m in messages && SearchHit(channels, channelMembers, userId, workspaceId, q, m) && m !in r && n in r
      ensures m.createdAt <= n.createdAt
    {
      assert p(m);
      assert MessageTime(m) <= MessageTime(n);
    }
  }

  /** `searchMessages`: the `limit` newest messages of the caller's channels in
      the workspace whose content contains the query, ignoring case. A query
      given several times passes the truthiness check but is not a string, and
      the store rejects the filter. */
  method SearchMessages(db: Db, caller: Id, workspaceId: Id, query: Param, limit: Option<nat>)
    returns (r: Response<seq<Message>>)
    ensures query.Missing? || query == Single("") ==> r == Err(400, "Search query is required")
    ensures query.Repeated? ==> r == Err(500, "Failed to search messages")
    ensures query.Single? && query.text != "" <==> r.Ok?
    ensures r.Ok? ==>
      r.status == 200 && query.Single? &&
      r.value == WorkspaceSearch(db.messages, db.channels, db.channelMembers, caller, workspaceId, query.text, LimitOf(limit))
  {
    if query.Missing? || query == Single("") {
      return Err(400, "Search query is required");
    }
    if query.Repeated? {
      return Err(500, "Failed to search messages");
    }
    r := Ok(200, WorkspaceSearch(db.messages, db.channels, db.channelMembers, caller, workspaceId, query.text, LimitOf(limit)));
  }
}
