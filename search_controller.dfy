/** Full-text search over channel messages and direct messages
    (backend/src/controllers/searchController.ts). */
module SearchController {
  import opened Common
  import opened Sequences
  import opened Store

  /** Search results and their number. */
  datatype Results<T> = Results(items: seq<T>, count: nat)

  /** The search text the guard admits: a single string whose trimmed form has
      a `length` of at least two, counted in UTF-16 code units. */
  predicate ValidQuery(query: Param) {
    query.Single? && Utf16Length(Trim(query.text)) >= 2
  }

  /** One emoji outside the Basic Multilingual Plane is a surrogate pair, so
      it passes the two-unit guard on its own. */
  lemma EmojiQueryAdmitted()
    ensures ValidQuery(Single("\U{1F600}"))
  {
    var e := "\U{1F600}";
    assert !IsSpace(e[0]) && !IsSpace(e[|e| - 1]);
    assert TrimStart(e) == e;
    assert TrimEnd(e) == e;
    assert e[1..] == [];
  }

  /** One letter between blanks does not pass. */
  lemma PaddedLetterRefused()
    ensures !ValidQuery(Single(" a "))
  {
    var s := " a ";
    assert IsSpace(s[0]) && s[1..] == "a ";
    assert !IsSpace("a "[0]);
    assert TrimStart(s) == "a ";
    assert IsSpace("a "[1]) && "a "[..1] == "a";
    assert !IsSpace("a"[0]);
    assert TrimEnd("a ") == "a";
    assert "a"[1..] == [];
  }

  /** A query-string value JavaScript treats as true: given, and not empty. */
  predicate GivenParam(p: Param) {
    p.Repeated? || (p.Single? && p.text != "")
  }

  /** The channels a message search looks in, as the `where` clause narrows them. */
  datatype Scope = InChannel(channelId: Id) | InWorkspace(workspaceId: Id) | Anywhere

  predicate InScope(channels: seq<Channel>, channelMembers: map<(Id, Id), ChannelMembership>,
                    userId: Id, scope: Scope, m: Message) {
    match scope
    case InChannel(id) => m.channelId == id
    case InWorkspace(ws) => InMemberChannel(channels, channelMembers, userId, ws, m)
    case Anywhere => (userId, m.channelId) in channelMembers
  }

  predicate MessageHit(channels: seq<Channel>, channelMembers: map<(Id, Id), ChannelMembership>,
                       userId: Id, scope: Scope, q: string, m: Message) {
    InScope(channels, channelMembers, userId, scope, m) && ContainsInsensitive(m.content, q)
  }

  function Hits(channels: seq<Channel>, channelMembers: map<(Id, Id), ChannelMembership>,
                userId: Id, scope: Scope, q: string): Message -> bool {
    m => MessageHit(channels, channelMembers, userId, scope, q, m)
  }

  /** The `limit` newest messages in the scope whose content holds `q`. */
  function MessageSearch(messages: seq<Message>, channels: seq<Channel>, channelMembers: map<(Id, Id), ChannelMembership>,
                         userId: Id, scope: Scope, q: string, limit: nat): seq<Message> {
    Newest(Filter(messages, Hits(channels, channelMembers, userId, scope, q)), MessageTime, limit)
  }

  /** At most `limit` hits, newest first, and no hit left out newer than one returned. */
  lemma MessageSearchSpec(messages: seq<Message>, channels: seq<Channel>, channelMembers: map<(Id, Id), ChannelMembership>,
                          userId: Id, scope: Scope, q: string, limit: nat)
    ensures var r := MessageSearch(messages, channels, channelMembers, userId, scope, q, limit);
      |r| <= limit && SortedDesc(r, MessageTime) &&
      (forall m :: m in r ==> m in messages && MessageHit(channels, channelMembers, userId, scope, q, m)) &&
      (forall m, n ::
        (m in messages && MessageHit(channels, channelMembers, userId, scope, q, m) && m !in r && n in r) ==>
        m.createdAt <= n.createdAt)
  {
    var p := Hits(channels, channelMembers, userId, scope, q);
    var r := MessageSearch(messages, channels, channelMembers, userId, scope, q, limit);
    NewestWhere(messages, p, MessageTime, limit);
    assert r == Newest(Filter(messages, p), MessageTime, limit);
    forall m | m in r
      ensures m in messages && MessageHit(channels, channelMembers, userId, scope, q, m)
    {
      assert p(m);
    }
    forall m, n | m in messages && MessageHit(channels, channelMembers, userId, scope, q, m) && m !in r && n in r
      ensures m.createdAt <= n.createdAt
    {
      assert p(m);
      assert MessageTime(m) <= MessageTime(n);
    }
  }

  /** `searchMessages`. `channelId` wins over `workspaceId`; a channel needs the
      caller's membership, a workspace the caller's workspace membership, and
      without either the search covers every channel the caller belongs to. A
      scope parameter given several times is handed to the store as a list,
      which rejects it. */
  method SearchMessages(db: Db, caller: Id, query: Param, channelId: Param, workspaceId: Param, limit: Option<nat>)
    returns (r: Response<Results<Message>>)
    ensures !ValidQuery(query) ==> r == Err(400, "Search query must be at least 2 characters")
    ensures ValidQuery(query) && channelId.Single? && channelId.text != "" && (caller, channelId.text) !in db.channelMembers ==>
      r == Err(403, "You do not have access to this channel")
    ensures ValidQuery(query) && !GivenParam(channelId) && workspaceId.Single? && workspaceId.text != "" &&
            (caller, workspaceId.text) !in db.workspaceMembers ==>
      r == Err(403, "You are not a member of this workspace")
    ensures ValidQuery(query) && (channelId.Repeated? || (!GivenParam(channelId) && workspaceId.Repeated?)) ==>
      r == Err(500, "Failed to search messages")
    ensures r.Ok? <==>
      ValidQuery(query) && !channelId.Repeated? &&
      (GivenParam(channelId) ==> (caller, channelId.text) in db.channelMembers) &&
      (!GivenParam(channelId) ==> !workspaceId.Repeated? && (GivenParam(workspaceId) ==> (caller, workspaceId.text) in db.workspaceMembers))
    ensures r.Ok? ==>
      var scope :=
        if GivenParam(channelId) then InChannel(channelId.text)
        else if GivenParam(workspaceId) then InWorkspace(workspaceId.text)
        else Anywhere;
      var q := Trim(query.text);
      ValidQuery(query) && r.status == 200 &&
      (scope.InChannel? ==> (caller, scope.channelId) in db.channelMembers) &&
      (scope.InWorkspace? ==> (caller, scope.workspaceId) in db.workspaceMembers) &&
      r.value.count == |r.value.items| &&
      r.value.items == MessageSearch(db.messages, db.channels, db.channelMembers, caller, scope, q, LimitOf(limit))
    ensures r.Ok? || r.Code() in {400, 403, 500}
  {
    if !ValidQuery(query) {
      return Err(400, "Search query must be at least 2 characters");
    }
    var q := Trim(query.text);
    var scope := Anywhere;
    if GivenParam(channelId) {
      if channelId.Repeated? {
        return Err(500, "Failed to search messages");
      }
      if (caller, channelId.text) !in db.channelMembers {
        return Err(403, "You do not have access to this channel");
      }
      scope := InChannel(channelId.text);
    } else if GivenParam(workspaceId) {
      if workspaceId.Repeated? {
        return Err(500, "Failed to search messages");
      }
      if (caller, workspaceId.text) !in db.workspaceMembers {
        return Err(403, "You are not a member of this workspace");
      }
      scope := InWorkspace(workspaceId.text);
    }
    var found := MessageSearch(db.messages, db.channels, db.channelMembers, caller, scope, q, LimitOf(limit));
    r := Ok(200, Results(found, |found|));
  }

  /** The conversations a DM search looks in: the one named, or every one the
      caller takes part in. */
  datatype DmScope = InConversation(conversationId: Id) | Joined

  predicate DmHit(participants: map<(Id, Id), Time>, userId: Id, scope: DmScope, q: string, d: DirectMessage) {
    (match scope
     case InConversation(id) => d.conversationId == id
     case Joined => (userId, d.conversationId) in participants) &&
    ContainsInsensitive(d.content, q)
  }

  function DmHits(participants: map<(Id, Id), Time>, userId: Id, scope: DmScope, q: string): DirectMessage -> bool {
    d => DmHit(participants, userId, scope, q, d)
  }

  function DmSearch(directMessages: seq<DirectMessage>, participants: map<(Id, Id), Time>, userId: Id,
                    scope: DmScope, q: string, limit: nat): seq<DirectMessage> {
    Newest(Filter(directMessages, DmHits(participants, userId, scope, q)), DirectMessageTime, limit)
  }

  lemma DmSearchSpec(directMessages: seq<DirectMessage>, participants: map<(Id, Id), Time>, userId: Id,
                     scope: DmScope, q: string, limit: nat)
    ensures var r := DmSearch(directMessages, participants, userId, scope, q, limit);
      |r| <= limit && SortedDesc(r, DirectMessageTime) &&
      (forall d :: d in r ==> d in directMessages && DmHit(participants, userId, scope, q, d)) &&
      (forall d, e :: (d in directMessages && DmHit(participants, userId, scope, q, d) && d !in r && e in r) ==>
        d.createdAt <= e.createdAt)
  {
    var p := DmHits(participants, userId, scope, q);
    var r := DmSearch(directMessages, participants, userId, scope, q, limit);
    NewestWhere(directMessages, p, DirectMessageTime, limit);
    assert r == Newest(Filter(directMessages, p), DirectMessageTime, limit);
    forall d | d in r
      ensures d in directMessages && DmHit(participants, userId, scope, q, d)
    {
      assert p(d);
    }
    forall d, e | d in directMessages && DmHit(participants, userId, scope, q, d) && d !in r && e in r
      ensures d.createdAt <= e.createdAt
    {
      assert p(d);
      assert DirectMessageTime(d) <= DirectMessageTime(e);
    }
  }

  /** `searchDMs`. A named conversation is searched whether or not the caller
      takes part in it. */
  method SearchDms(db: Db, caller: Id, query: Param, conversationId: Param, limit: Option<nat>)
    returns (r: Response<Results<DirectMessage>>)
    ensures !ValidQuery(query) ==> r == Err(400, "Search query must be at least 2 characters")
    ensures ValidQuery(query) && conversationId.Repeated? ==> r == Err(500, "Failed to search direct messages")
    ensures r.Ok? <==> ValidQuery(query) && !conversationId.Repeated?
    ensures r.Ok? ==>
      var scope := if GivenParam(conversationId) then InConversation(conversationId.text) else Joined;
      var q := Trim(query.text);
      r.status == 200 && r.value.count == |r.value.items| &&
      r.value.items == DmSearch(db.directMessages, db.participants, caller, scope, q, LimitOf(limit))
  {
    if !ValidQuery(query) {
      return Err(400, "Search query must be at least 2 characters");
    }
    var q := Trim(query.text);
    if conversationId.Repeated? {
      return Err(500, "Failed to search direct messages");
    }
    var scope := if GivenParam(conversationId) then InConversation(conversationId.text) else Joined;
    var found := DmSearch(db.directMessages, db.participants, caller, scope, q, LimitOf(limit));
    r := Ok(200, Results(found, |found|));
  }
}
