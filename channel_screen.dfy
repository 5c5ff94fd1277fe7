/** The mobile client's channel screen: the chat list it keeps for one
    channel and the socket events it emits
    (FlowChatMobile/src/screens/ChannelScreen.tsx). */
module ChannelScreen {
  import opened Common
  import opened Sequences

  /** The author block of a message as the server sends it. */
  datatype Author = Author(id: string, username: string, firstName: Option<string>, avatar: Option<string>)

  /** A channel message as the server sends it, over HTTP or the socket. */
  datatype ServerMessage = ServerMessage(id: string, content: string, channelId: string, createdAt: int, author: Author)

  /** The chat widget's message (`IMessage`): `_id`, `text`, `createdAt`, `user`. */
  datatype ChatUser = ChatUser(id: string, name: string, avatar: Option<string>)
  datatype ChatMessage = ChatMessage(id: string, text: string, createdAt: int, user: ChatUser)

  /** What the screen emits on the socket. */
  datatype Emit = JoinChannel(channelId: string) | LeaveChannel(channelId: string) | SendMessage(channelId: string, content: string)

  /** The name shown for an author: the first name when it is non-empty, the user name otherwise. */
  function DisplayName(a: Author): (name: string)
    ensures Given(a.firstName) ==> name == a.firstName.value
    ensures !Given(a.firstName) ==> name == a.username
    ensures name == "" ==> a.username == ""
  {
    if Given(a.firstName) then a.firstName.value else a.username
  }

  /** `formatMessage`. */
  function FormatMessage(m: ServerMessage): (c: ChatMessage)
    ensures c.id == m.id && c.text == m.content && c.createdAt == m.createdAt
    ensures c.user == ChatUser(m.author.id, DisplayName(m.author), m.author.avatar)
  {
    ChatMessage(m.id, m.content, m.createdAt, ChatUser(m.author.id, DisplayName(m.author), m.author.avatar))
  }

  function FormatAll(s: seq<ServerMessage>): (r: seq<ChatMessage>)
    ensures |r| == |s|
    ensures forall i :: 0 <= i < |s| ==> r[i] == FormatMessage(s[i])
  {
    seq(|s|, i requires 0 <= i < |s| => FormatMessage(s[i]))
  }

  function ChatTime(c: ChatMessage): int {
    c.createdAt
  }

  function ServerTime(m: ServerMessage): int {
    m.createdAt
  }

  /** The server pages oldest first; the loaded chat list is newest first, as
      the inverted chat widget expects. */
  lemma LoadedNewestFirst(list: seq<ServerMessage>)
    requires SortedAsc(list, ServerTime)
    ensures SortedDesc(FormatAll(Reverse(list)), ChatTime)
  {
    var r := FormatAll(Reverse(list));
    forall i, j | 0 <= i < j < |r|
      ensures ChatTime(r[i]) >= ChatTime(r[j])
    {
      assert r[i] == FormatMessage(list[|list| - 1 - i]);
      assert r[j] == FormatMessage(list[|list| - 1 - j]);
    }
  }

  /** `GiftedChat.append(previous, [m])`: the new message goes in front. */
  function Prepended(list: seq<ChatMessage>, m: ServerMessage): (r: seq<ChatMessage>)
    ensures |r| == |list| + 1 && r[0] == FormatMessage(m) && r[1..] == list
  {
    [FormatMessage(m)] + list
  }

  /** The `message:updated` reducer: every entry with the message's id is
      replaced by the reformatted message; nothing else moves. */
  function Updated(list: seq<ChatMessage>, m: ServerMessage): (r: seq<ChatMessage>)
    ensures |r| == |list|
    ensures forall i :: 0 <= i < |list| && list[i].id != m.id ==> r[i] == list[i]
    ensures forall i :: 0 <= i < |list| && list[i].id == m.id ==> r[i] == FormatMessage(m)
  {
    MapWhere(list, (c: ChatMessage) => c.id == m.id, (c: ChatMessage) => FormatMessage(m))
  }

  /** The `message:deleted` reducer. */
  function Deleted(list: seq<ChatMessage>, messageId: string): (r: seq<ChatMessage>)
    ensures |r| <= |list|
    ensures forall c :: c in r <==> c in list && c.id != messageId
  {
    Filter(list, (c: ChatMessage) => c.id != messageId)
  }

  function Ids(list: seq<ChatMessage>): seq<string> {
    seq(|list|, i requires 0 <= i < |list| => list[i].id)
  }

  /** An update keeps the ids, and so the set of messages shown, as they were. */
  lemma UpdatedKeepsIds(list: seq<ChatMessage>, m: ServerMessage)
    ensures Ids(Updated(list, m)) == Ids(list)
  {
  }

  /** Applying the same update twice is applying it once. */
  lemma UpdatedIdempotent(list: seq<ChatMessage>, m: ServerMessage)
    ensures Updated(Updated(list, m), m) == Updated(list, m)
  {
    var once := Updated(list, m);
    var twice := Updated(once, m);
    forall i | 0 <= i < |list|
      ensures twice[i] == once[i]
    {
      if list[i].id == m.id {
        assert once[i] == FormatMessage(m);
      }
    }
  }

  /** An update for a message that is not in the list changes nothing. */
  lemma UpdateOfAbsent(list: seq<ChatMessage>, m: ServerMessage)
    requires forall i :: 0 <= i < |list| ==> list[i].id != m.id
    ensures Updated(list, m) == list
  {
  }

  /** Deleting a message that just arrived gives back the list it arrived in,
      when that list did not already show it. */
  lemma DeleteUndoesNew(list: seq<ChatMessage>, m: ServerMessage)
    requires forall i :: 0 <= i < |list| ==> list[i].id != m.id
    ensures Deleted(Prepended(list, m), m.id) == list
  {
    var p := (c: ChatMessage) => c.id != m.id;
    FilterAll(list, p);
    assert Prepended(list, m) == [FormatMessage(m)] + list;
    FilterConcat([FormatMessage(m)], list, p);
    assert Filter([FormatMessage(m)], p) == [];
  }

  /** Deleting keeps the survivors in their order: it distributes over a split of the list. */
  lemma DeletedKeepsOrder(a: seq<ChatMessage>, b: seq<ChatMessage>, messageId: string)
    ensures Deleted(a + b, messageId) == Deleted(a, messageId) + Deleted(b, messageId)
  {
    FilterConcat(a, b, (c: ChatMessage) => c.id != messageId);
  }

  /** The chat list of one open channel screen. */
  class ChannelScreenState {
    const channelId: string
    var messages: seq<ChatMessage>

    constructor (channelId: string)
      ensures this.channelId == channelId && messages == []
    {
      this.channelId := channelId;
      messages := [];
    }

    /** Mount emits `channel:join` and unmount `channel:leave`, for this channel. */
    function Mount(): (e: seq<Emit>)
      ensures e == [JoinChannel(channelId)]
    {
      [JoinChannel(channelId)]
    }

    function Unmount(): (e: seq<Emit>)
      ensures e == [LeaveChannel(channelId)]
    {
      [LeaveChannel(channelId)]
    }

    /** `loadMessages`: `reply` is the fetched page, `None` when the request
        failed; the page is reversed in place and formatted. */
    method LoadMessages(reply: Option<seq<ServerMessage>>)
      modifies this
      ensures reply.None? ==> messages == old(messages)
      ensures reply.Some? ==> messages == FormatAll(Reverse(reply.value))
    {
      if reply.None? {
        return;
      }
      var list := reply.value;
      var a := new ServerMessage[|list|](i requires 0 <= i < |list| => list[i]);
      assert a[..] == list;
      ReverseInPlace(a);
      messages := FormatAll(a[..]);
    }

    /** `handleNewMessage`: only this channel's messages are shown. */
    method HandleNewMessage(m: ServerMessage)
      modifies this
      ensures messages == if m.channelId == channelId then Prepended(old(messages), m) else old(messages)
    {
      if m.channelId == channelId {
        messages := Prepended(messages, m);
      }
    }

    /** `handleMessageUpdated`. */
    method HandleMessageUpdated(m: ServerMessage)
      modifies this
      ensures messages == if m.channelId == channelId then Updated(old(messages), m) else old(messages)
    {
      if m.channelId == channelId {
        messages := Updated(messages, m);
      }
    }

    /** `handleMessageDeleted`. */
    method HandleMessageDeleted(messageId: string, eventChannelId: string)
      modifies this
      ensures messages == if eventChannelId == channelId then Deleted(old(messages), messageId) else old(messages)
    {
      if eventChannelId == channelId {
        messages := Deleted(messages, messageId);
      }
    }

    /** `onSend`: the first pending message's text is sent to this channel;
        with nothing pending, reading `text` throws and nothing is sent. */
    function OnSend(pending: seq<ChatMessage>): (e: seq<Emit>)
      ensures pending == [] <==> e == []
      ensures pending != [] ==> e == [SendMessage(channelId, pending[0].text)]
    {
      if pending == [] then [] else [SendMessage(channelId, pending[0].text)]
    }
  }

  /** Mounting and unmounting a screen join and leave the same channel. */
  lemma MountUnmountPair(s: ChannelScreenState)
    ensures |s.Mount()| == |s.Unmount()| == 1
    ensures s.Mount()[0].JoinChannel? && s.Unmount()[0].LeaveChannel?
    ensures s.Mount()[0].channelId == s.Unmount()[0].channelId == s.channelId
  {
  }
}
