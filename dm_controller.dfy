/** Direct-message conversations and their messages
    (backend/src/controllers/dmController.ts). */
module DmController {
  import opened Common
  import opened Sequences
  import opened Store

  predicate Participates(participants: map<(Id, Id), Time>, userId: Id, c: Conversation) {
    (userId, c.id) in participants
  }

  /** A conversation as listed: its row, at most its single newest message, and
      its number of messages. */
  datatype ConversationView = ConversationView(conversation: Conversation, lastMessage: seq<DirectMessage>, messageCount: nat)

  function OfConversation(directMessages: seq<DirectMessage>, conversationId: Id): seq<DirectMessage> {
    Filter(directMessages, (d: DirectMessage) => d.conversationId == conversationId)
  }

  function View(directMessages: seq<DirectMessage>, c: Conversation): ConversationView {
    var own := OfConversation(directMessages, c.id);
    ConversationView(c, Newest(own, DirectMessageTime, 1), |own|)
  }

  /** The newest-message preview holds no message when the conversation has
      none, and otherwise one of that conversation's messages that no other
      message of it postdates. */
  lemma ViewSpec(directMessages: seq<DirectMessage>, c: Conversation)
    ensures var v := View(directMessages, c);
      v.conversation == c &&
      |v.lastMessage| == (if v.messageCount == 0 then 0 else 1) &&
      (v.lastMessage != [] ==>
        v.lastMessage[0] in directMessages && v.lastMessage[0].conversationId == c.id &&
        forall d :: d in directMessages && d.conversationId == c.id ==> d.createdAt <= v.lastMessage[0].createdAt)
  {
    var own := OfConversation(directMessages, c.id);
    NewestSpec(own, DirectMessageTime, 1);
  }

  /** `getConversations`: the caller's conversations, most recently active first. */
  method GetConversations(db: Db, caller: Id) returns (r: Response<seq<ConversationView>>)
    ensures r.Ok? && r.status == 200
    ensures forall i :: 0 <= i < |r.value| ==> r.value[i] == View(db.directMessages, r.value[i].conversation)
    ensures forall c :: (exists i :: 0 <= i < |r.value| && r.value[i].conversation == c) <==>
      c in db.conversations && Participates(db.participants, caller, c)
    ensures forall i, j :: 0 <= i < j < |r.value| ==> r.value[i].conversation.updatedAt >= r.value[j].conversation.updatedAt
    ensures multiset(ConversationsOf(r.value)) == multiset(Filter(db.conversations, Mine(db.participants, caller)))
  {
    var ordered := Listing(db.conversations, db.participants, caller);
    ListingSpec(db.conversations, db.participants, caller);
    var dms := db.directMessages;
    var views := seq(|ordered|, k requires 0 <= k < |ordered| => View(dms, ordered[k]));
    forall c | c in db.conversations && Participates(db.participants, caller, c)
      ensures exists k :: 0 <= k < |views| && views[k].conversation == c
    {
      var k :| 0 <= k < |ordered| && ordered[k] == c;
      assert views[k].conversation == c;
    }
    assert ConversationsOf(views) == ordered;
    SortPermutes(Filter(db.conversations, Mine(db.participants, caller)), ConversationTime);
    r := Ok(200, views);
  }

  /** The conversations of a list of views, in its order. */
  function ConversationsOf(vs: seq<ConversationView>): (cs: seq<Conversation>)
    ensures |cs| == |vs| && forall i :: 0 <= i < |vs| ==> cs[i] == vs[i].conversation
  {
    seq(|vs|, i requires 0 <= i < |vs| => vs[i].conversation)
  }

  /** The caller's conversations in `getConversations` order. */
  function Listing(conversations: seq<Conversation>, participants: map<(Id, Id), Time>, userId: Id): seq<Conversation> {
    SortDesc(Filter(conversations, Mine(participants, userId)), ConversationTime)
  }

  function Mine(participants: map<(Id, Id), Time>, userId: Id): Conversation -> bool {
    c => Participates(participants, userId, c)
  }

  /** The listing holds exactly the user's conversations, latest activity first. */
  lemma ListingSpec(conversations: seq<Conversation>, participants: map<(Id, Id), Time>, userId: Id)
    ensures forall c :: c in Listing(conversations, participants, userId) <==>
      c in conversations && Participates(participants, userId, c)
    ensures SortedDesc(Listing(conversations, participants, userId), ConversationTime)
  {
    var p := Mine(participants, userId);
    SortMembers(Filter(conversations, p), ConversationTime);
    forall c
      ensures c in Filter(conversations, p) <==> c in conversations && Participates(participants, userId, c)
    {
      assert p(c) == Participates(participants, userId, c);
    }
  }

  /** A non-group conversation both users take part in. */
  predicate OneToOne(participants: map<(Id, Id), Time>, a: Id, b: Id, c: Conversation) {
    !c.isGroup && (a, c.id) in participants && (b, c.id) in participants
  }

  /** `isGroup || false` and `!isGroup` on the optional body field. */
  function IsGroup(isGroup: Option<bool>): bool {
    isGroup == Some(true)
  }

  /** The participant rows a new conversation creates, one per id, each last
      read at creation time. */
  function ParticipantRows(ids: seq<Id>, conversationId: Id, now: Time): (rows: map<(Id, Id), Time>)
    ensures forall k :: k in rows <==> k.1 == conversationId && k.0 in ids
    ensures forall k :: k in rows ==> rows[k] == now
  {
    map u | u in ids :: (u, conversationId) := now
  }

  /** The conversation can be created: a fresh id, existing users, and no user
      listed twice (the participant table's key is the pair). */
  predicate CanCreate(db: Db, all: seq<Id>, conversationId: Id)
    reads db
  {
    !db.HasConversation(conversationId) &&
    (forall k :: 0 <= k < |all| ==> db.HasUser(all[k])) &&
    (forall i, j :: 0 <= i < j < |all| ==> all[i] != all[j])
  }

  /** `createConversation`. A 1:1 request reuses some existing non-group
      conversation of the two users; anything else creates one, with the
      caller added in front of the listed participants. */
  method CreateConversation(db: Db, caller: Id, participantIds: Option<seq<Id>>, isGroup: Option<bool>,
                            name: Option<string>, newId: Id, now: Time)
    returns (r: Response<Conversation>)
    requires db.Valid()
    modifies db
    ensures db.Valid()
    ensures participantIds.None? || participantIds == Some([]) ==>
      r == Err(400, "At least one participant is required") && db.Snapshot() == old(db.Snapshot())
    ensures r.Ok? && r.status == 200 ==>
      participantIds.Some? && |participantIds.value| == 1 && !IsGroup(isGroup) &&
      r.value in old(db.conversations) && OneToOne(old(db.participants), caller, participantIds.value[0], r.value) &&
      db.Snapshot() == old(db.Snapshot())
    ensures participantIds.Some? && |participantIds.value| == 1 && !IsGroup(isGroup) &&
            (exists c :: c in old(db.conversations) && OneToOne(old(db.participants), caller, participantIds.value[0], c)) ==>
      r.Ok? && r.status == 200
    ensures r.Err? && r.status == 500 ==> db.Snapshot() == old(db.Snapshot())
    ensures participantIds.Some? && participantIds.value != [] &&
            !(|participantIds.value| == 1 && !IsGroup(isGroup) &&
              exists c :: c in old(db.conversations) && OneToOne(old(db.participants), caller, participantIds.value[0], c)) ==>
      (r.Ok? <==> old(CanCreate(db, [caller] + participantIds.value, newId)))
    ensures r.Ok? && r.status == 201 ==>
      participantIds.Some? && participantIds.value != [] &&
      r.value == Conversation(newId, IsGroup(isGroup), OrNull(name), now, now) &&
      db.Snapshot() == old(db.Snapshot()).(
        conversations := old(db.conversations) + [r.value],
        participants := old(db.participants) + ParticipantRows([caller] + participantIds.value, newId, now)) &&
      (|participantIds.value| == 1 && !IsGroup(isGroup) ==> OneToOne(db.participants, caller, participantIds.value[0], r.value))
    ensures r.Ok? || r.Code() in {400, 500}
  {
    if participantIds.None? || participantIds.value == [] {
      return Err(400, "At least one participant is required");
    }
    var ids := participantIds.value;
    if !IsGroup(isGroup) && |ids| == 1 {
      var participants := db.participants;
      if exists c :: c in db.conversations && OneToOne(participants, caller, ids[0], c) {
        var existing :| existing in db.conversations && OneToOne(participants, caller, ids[0], existing);
        return Ok(200, existing);
      }
    }
    var all := [caller] + ids;
    if !CanCreate(db, all, newId) {
      return Err(500, "Failed to create conversation");
    }
    var c := Conversation(newId, IsGroup(isGroup), OrNull(name), now, now);
    db.AddConversation(c, ParticipantRows(all, newId, now));
    assert all[0] == caller;
    r := Ok(201, c);
  }

  /** `getConversation`: only to its participants. */
  method GetConversation(db: Db, caller: Id, conversationId: Id) returns (r: Response<Conversation>)
    ensures r.Ok? <==> db.HasConversation(conversationId) && (caller, conversationId) in db.participants
    ensures r.Err? ==> r == Err(404, "Conversation not found")
    ensures r.Ok? ==> r.status == 200 && r.value in db.conversations && r.value.id == conversationId
  {
    var found := Find(db.conversations, ConversationKey, conversationId);
    if found.None? || (caller, conversationId) !in db.participants {
      return Err(404, "Conversation not found");
    }
    r := Ok(200, found.value);
  }

  predicate InDmPage(d: DirectMessage, conversationId: Id, before: Option<Time>) {
    d.conversationId == conversationId && (before.Some? ==> d.createdAt < before.value)
  }

  /** `getDMMessages`' answer: the `limit` newest messages of the conversation,
      optionally before a time, oldest first. */
  function DmPage(directMessages: seq<DirectMessage>, conversationId: Id, before: Option<Time>, limit: nat): seq<DirectMessage> {
    Reverse(Newest(Filter(directMessages, DmPageFilter(conversationId, before)), DirectMessageTime, limit))
  }

  function DmPageFilter(conversationId: Id, before: Option<Time>): DirectMessage -> bool {
    d => InDmPage(d, conversationId, before)
  }

  lemma DmPageSpec(directMessages: seq<DirectMessage>, conversationId: Id, before: Option<Time>, limit: nat)
    ensures |DmPage(directMessages, conversationId, before, limit)| <= limit
    ensures SortedAsc(DmPage(directMessages, conversationId, before, limit), DirectMessageTime)
    ensures forall d :: d in DmPage(directMessages, conversationId, before, limit) ==>
      d in directMessages && InDmPage(d, conversationId, before)
    ensures forall d, e ::
      (d in directMessages && InDmPage(d, conversationId, before) && d !in DmPage(directMessages, conversationId, before, limit) &&
       e in DmPage(directMessages, conversationId, before, limit)) ==>
      d.createdAt <= e.createdAt
  {
    var p := DmPageFilter(conversationId, before);
    var r := DmPage(directMessages, conversationId, before, limit);
    NewestWhereReversed(directMessages, p, DirectMessageTime, limit);
    assert r == Reverse(Newest(Filter(directMessages, p), DirectMessageTime, limit));
    forall d | d in r
      ensures d in directMessages && InDmPage(d, conversationId, before)
    {
      assert p(d);
    }
    forall d, e | d in directMessages && InDmPage(d, conversationId, before) && d !in r && e in r
      ensures d.createdAt <= e.createdAt
    {
      assert p(d);
      assert DirectMessageTime(d) <= DirectMessageTime(e);
    }
  }

  /** `getDMMessages`: participants only; the read moves the caller's `lastReadAt`. */
  method GetDmMessages(db: Db, caller: Id, conversationId: Id, limit: Option<nat>, before: Option<Time>, now: Time)
    returns (r: Response<seq<DirectMessage>>)
    requires db.Valid()
    modifies db
    ensures db.Valid()
    ensures (caller, conversationId) !in old(db.participants) ==>
      r == Err(403, "You do not have access to this conversation") && db.Snapshot() == old(db.Snapshot())
    ensures (caller, conversationId) in old(db.participants) ==>
      r == Ok(200, DmPage(old(db.directMessages), conversationId, before, LimitOf(limit))) &&
      db.Snapshot() == old(db.Snapshot()).(participants := old(db.participants)[(caller, conversationId) := now])
  {
    if (caller, conversationId) !in db.participants {
      return Err(403, "You do not have access to this conversation");
    }
    var page := Newest(Filter(db.directMessages, DmPageFilter(conversationId, before)), DirectMessageTime, LimitOf(limit));
    var sent := ReverseFetched(page);
    db.SetDmLastRead(caller, conversationId, now);
    r := Ok(200, sent);
  }

  /** The conversation table once a message is sent at `now`. */
  function Bumped(conversations: seq<Conversation>, conversationId: Id, now: Time): (r: seq<Conversation>)
    ensures |r| == |conversations|
    ensures forall j :: 0 <= j < |r| ==>
      r[j] == if conversations[j].id == conversationId then conversations[j].(updatedAt := now) else conversations[j]
  {
    MapWhere(conversations, (c: Conversation) => c.id == conversationId, (c: Conversation) => c.(updatedAt := now))
  }

  lemma BumpedKeepsKeys(conversations: seq<Conversation>, conversationId: Id, now: Time)
    requires KeysDistinct(conversations, ConversationKey)
    ensures KeysDistinct(Bumped(conversations, conversationId, now), ConversationKey)
    ensures forall k :: HasKey(Bumped(conversations, conversationId, now), ConversationKey, k) <==>
      HasKey(conversations, ConversationKey, k)
  {
    MapWhereKeepsKeys(conversations, (c: Conversation) => c.id == conversationId,
                      (c: Conversation) => c.(updatedAt := now), ConversationKey);
    MapWhereKeepsHasKey(conversations, (c: Conversation) => c.id == conversationId,
                        (c: Conversation) => c.(updatedAt := now), ConversationKey);
  }

  /** Any row of the bumped table other than the bumped one is as it was. */
  lemma BumpedOther(conversations: seq<Conversation>, conversationId: Id, now: Time, i: nat, j: nat)
    requires KeysDistinct(conversations, ConversationKey)
    requires i < |conversations| && j < |conversations| && conversations[i].id == conversationId
    requires Bumped(conversations, conversationId, now)[j] != Bumped(conversations, conversationId, now)[i]
    ensures Bumped(conversations, conversationId, now)[j] == conversations[j]
  {
    assert i != j;
    if i < j {
      assert ConversationKey(conversations[i]) != ConversationKey(conversations[j]);
    } else {
      assert ConversationKey(conversations[j]) != ConversationKey(conversations[i]);
    }
  }

  /** `sendDMMessage`: participants only. The message is created, with
      `attachments || null` as its attachments, and the conversation's
      `updatedAt` moves to the send time. */
  method SendDmMessage(db: Db, caller: Id, conversationId: Id, content: Option<string>, attachments: Field<Json>,
                       newId: Id, now: Time)
    returns (r: Response<DirectMessage>)
    requires db.Valid()
    modifies db
    ensures db.Valid()
    ensures (caller, conversationId) !in old(db.participants) ==>
      r == Err(403, "You do not have access to this conversation") && db.Snapshot() == old(db.Snapshot())
    ensures (caller, conversationId) in old(db.participants) ==>
      if content.None? || old(db.HasDirectMessage(newId)) then
        r == Err(500, "Failed to send message") && db.Snapshot() == old(db.Snapshot())
      else
        r == Ok(201, DirectMessage(newId, conversationId, caller, content.value, JsonOrNull(attachments), false, now)) &&
        db.Snapshot() == old(db.Snapshot()).(
          directMessages := old(db.directMessages) + [r.value],
          conversations := Bumped(old(db.conversations), conversationId, now))
  {
    if (caller, conversationId) !in db.participants {
      return Err(403, "You do not have access to this conversation");
    }
    var d := DirectMessage(newId, conversationId, caller, if content.Some? then content.value else "",
                           JsonOrNull(attachments), false, now);
    if content.None? || db.HasDirectMessage(newId) {
      return Err(500, "Failed to send message");
    }
    db.AddDirectMessage(d);
    BumpedKeepsKeys(db.conversations, conversationId, now);
    db.SetConversations(Bumped(db.conversations, conversationId, now));
    r := Ok(201, d);
  }

  /** A message sent later than every conversation's last activity puts its
      conversation at the front of the sender's list. */
  lemma SendMovesToFront(conversations: seq<Conversation>, participants: map<(Id, Id), Time>, userId: Id,
                         conversationId: Id, now: Time)
    requires KeysDistinct(conversations, ConversationKey)
    requires HasKey(conversations, ConversationKey, conversationId)
    requires (userId, conversationId) in participants
    requires forall c :: c in conversations ==> c.updatedAt < now
    ensures var l := Listing(Bumped(conversations, conversationId, now), participants, userId);
      l != [] && l[0].id == conversationId && l[0].updatedAt == now
  {
    var b := Bumped(conversations, conversationId, now);
    var i :| 0 <= i < |conversations| && conversations[i].id == conversationId;
    var x := b[i];
    var p := Mine(participants, userId);
    var mine := Filter(b, p);
    assert p(x);
    assert x in mine;
    forall y | y in mine && y != x
      ensures ConversationTime(y) < ConversationTime(x)
    {
      var j :| 0 <= j < |b| && b[j] == y;
      BumpedOther(conversations, conversationId, now, i, j);
      assert conversations[j] in conversations;
    }
    LargestFirst(mine, ConversationTime, x);
  }

  /** `updateDMMessage`: senders only. */
  method UpdateDmMessage(db: Db, caller: Id, messageId: Id, content: Field<Option<string>>)
    returns (r: Response<DirectMessage>)
    requires db.Valid()
    modifies db
    ensures db.Valid()
    ensures !old(db.HasDirectMessage(messageId)) ==> r == Err(404, "Message not found") && db.Snapshot() == old(db.Snapshot())
    ensures old(db.HasDirectMessage(messageId)) ==>
      var d := Find(old(db.directMessages), DirectMessageKey, messageId).value;
      if d.senderId != caller then
        r == Err(403, "You can only edit your own messages") && db.Snapshot() == old(db.Snapshot())
      else if content == Present(None) then
        r == Err(500, "Failed to update message") && db.Snapshot() == old(db.Snapshot())
      else
        var v := d.(content := if content.Present? then content.value.value else d.content, edited := true);
        r == Ok(200, v) && v.edited &&
        db.Snapshot() == old(db.Snapshot()).(directMessages := MapWhere(old(db.directMessages),
                                               (x: DirectMessage) => x.id == messageId, (x: DirectMessage) => v))
  {
    var found := Find(db.directMessages, DirectMessageKey, messageId);
    if found.None? {
      return Err(404, "Message not found");
    }
    var d := found.value;
    if d.senderId != caller {
      return Err(403, "You can only edit your own messages");
    }
    if content == Present(None) {
      return Err(500, "Failed to update message");
    }
    var v := d.(content := if content.Present? then content.value.value else d.content, edited := true);
    var sel := (x: DirectMessage) => x.id == messageId;
    var f := (x: DirectMessage) => v;
    MapWhereKeepsKeys(db.directMessages, sel, f, DirectMessageKey);
    db.directMessages := MapWhere(db.directMessages, sel, f);
    r := Ok(200, v);
  }

  /** `deleteDMMessage`: senders only; exactly that row goes. */
  method DeleteDmMessage(db: Db, caller: Id, messageId: Id) returns (r: Response<string>)
    requires db.Valid()
    modifies db
    ensures db.Valid()
    ensures !old(db.HasDirectMessage(messageId)) ==> r == Err(404, "Message not found") && db.Snapshot() == old(db.Snapshot())
    ensures old(db.HasDirectMessage(messageId)) ==>
      if Find(old(db.directMessages), DirectMessageKey, messageId).value.senderId != caller then
        r == Err(403, "You can only delete your own messages") && db.Snapshot() == old(db.Snapshot())
      else
        r == Ok(200, "Message deleted successfully") &&
        db.Snapshot() == old(db.Snapshot()).(directMessages := WithoutKey(old(db.directMessages), DirectMessageKey, messageId))
  {
    var found := Find(db.directMessages, DirectMessageKey, messageId);
    if found.None? {
      return Err(404, "Message not found");
    }
    if found.value.senderId != caller {
      return Err(403, "You can only delete your own messages");
    }
    WithoutKeySpec(db.directMessages, DirectMessageKey, messageId);
    db.directMessages := WithoutKey(db.directMessages, DirectMessageKey, messageId);
    r := Ok(200, "Message deleted successfully");
  }
}
