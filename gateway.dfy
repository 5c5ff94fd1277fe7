/** The realtime gateway: the handshake check, what a new connection
    subscribes to, and every event handler, each as one atomic step that
    returns the events it causes (backend/src/socket/index.ts). */
module Gateway {
  import opened Common
  import opened Sequences
  import opened Store
  import opened Credentials
  import MessageController

  /** A socket id. */
  type ConnId = string

  /** `workspace:<id>` and `channel:<id>`. */
  datatype Room = WorkspaceRoom(id: Id) | ChannelRoom(id: Id)

  datatype Event =
    | UserStatus(userId: Id, status: Presence)
    | MessageNew(message: Message)
    | MessageUpdated(message: Message)
    | MessageDeleted(messageId: Id, channelId: Id)
    | ReactionAdded(messageId: Id, reaction: Reaction)
    | ReactionRemoved(messageId: Id, userId: Id, emoji: string)
    | TypingUser(userId: Id, channelId: Id, typing: bool)
    | Error(reason: string)

  /** One `emit`: the connections it reaches and what they receive. */
  datatype Delivery = Delivery(recipients: set<ConnId>, event: Event)

  /** A live connection: its user, its rooms, and the workspace ids loaded when
      it connected. */
  datatype Connection = Connection(userId: Id, rooms: set<Room>, workspaces: seq<Id>)

  /** The outcome of a connection attempt: refused by the handshake, set up,
      or accepted by the handshake but abandoned because the user row is
      missing (no handler is ever registered for it). */
  datatype ConnectOutcome = Refused(message: string) | Connected(userId: Id) | Abandoned(userId: Id)

  /** `io.to(room)`: every connection subscribed to the room. */
  function InRoom(connections: map<ConnId, Connection>, room: Room): (r: set<ConnId>)
    ensures forall c :: c in r <==> c in connections && room in connections[c].rooms
  {
    set c | c in connections.Keys && room in connections[c].rooms
  }

  /** `socket.to(room)`: the same, less the sending connection. */
  function InRoomExcept(connections: map<ConnId, Connection>, room: Room, sender: ConnId): (r: set<ConnId>)
    ensures forall c :: c in r <==> c in connections && room in connections[c].rooms && c != sender
  {
    InRoom(connections, room) - {sender}
  }

  /** A room a new connection of `userId` joins, given the workspaces it is a
      member of: each such workspace, and each channel of them it is a member of. */
  predicate InitialRoom(workspaces: seq<Workspace>, channels: seq<Channel>,
                        channelMembers: map<(Id, Id), ChannelMembership>, userId: Id, room: Room) {
    match room
    case WorkspaceRoom(id) => exists w :: w in workspaces && w.id == id
    case ChannelRoom(id) => exists c :: c in channels && c.id == id && (userId, id) in channelMembers && OfWorkspaces(workspaces, c)
  }

  predicate OfWorkspaces(workspaces: seq<Workspace>, c: Channel) {
    exists w :: w in workspaces && w.id == c.workspaceId
  }

  /** The workspaces the connection handler loads, in table order. */
  function MemberWorkspaces(workspaces: seq<Workspace>, workspaceMembers: map<(Id, Id), WorkspaceRole>, userId: Id): seq<Workspace> {
    Filter(workspaces, (w: Workspace) => (userId, w.id) in workspaceMembers)
  }

  function Ids(ws: seq<Workspace>): (ids: seq<Id>)
    ensures |ids| == |ws| && forall i :: 0 <= i < |ws| ==> ids[i] == ws[i].id
  {
    seq(|ws|, i requires 0 <= i < |ws| => ws[i].id)
  }

  /** `user:status` to every loaded workspace's room but the sender. */
  function StatusDeliveries(connections: map<ConnId, Connection>, workspaces: seq<Id>, sender: ConnId,
                            userId: Id, status: Presence): (out: seq<Delivery>)
    ensures |out| == |workspaces|
    ensures forall i :: 0 <= i < |out| ==>
      out[i] == Delivery(InRoomExcept(connections, WorkspaceRoom(workspaces[i]), sender), UserStatus(userId, status))
  {
    seq(|workspaces|, i requires 0 <= i < |workspaces| =>
      Delivery(InRoomExcept(connections, WorkspaceRoom(workspaces[i]), sender), UserStatus(userId, status)))
  }

  /** The two nested `forEach` loops of the connection handler that join the rooms. */
  method JoinInitialRooms(ws: seq<Workspace>, channels: seq<Channel>, channelMembers: map<(Id, Id), ChannelMembership>,
                          userId: Id)
    returns (rooms: set<Room>)
    ensures forall room :: room in rooms <==> InitialRoom(ws, channels, channelMembers, userId, room)
  {
    rooms := {};
    var i := 0;
    while i < |ws|
      invariant 0 <= i <= |ws|
      invariant forall room :: room in rooms <==> InitialRoom(ws[..i], channels, channelMembers, userId, room)
    {
      var own := Filter(channels, (c: Channel) => c.workspaceId == ws[i].id && (userId, c.id) in channelMembers);
      rooms := JoinWorkspace(rooms, ws[i], own);
      InitialRoomStep(ws, i, channels, channelMembers, userId, own);
      i := i + 1;
    }
    assert ws[..i] == ws;
  }

  /** One turn of the outer loop: the workspace's room, then each of its
      channels the user belongs to. */
  method JoinWorkspace(rooms: set<Room>, w: Workspace, own: seq<Channel>) returns (joined: set<Room>)
    ensures forall room :: room in joined <==>
      room in rooms || room == WorkspaceRoom(w.id) || exists k :: 0 <= k < |own| && room == ChannelRoom(own[k].id)
  {
    joined := rooms + {WorkspaceRoom(w.id)};
    var j := 0;
    while j < |own|
      invariant 0 <= j <= |own|
      invariant forall room :: room in joined <==>
        room in rooms || room == WorkspaceRoom(w.id) || exists k :: 0 <= k < j && room == ChannelRoom(own[k].id)
    {
      joined := joined + {ChannelRoom(own[j].id)};
      j := j + 1;
    }
  }

  /** Adding a workspace's room and its member channels' rooms extends the
      rooms of a prefix of the workspace list by one workspace. */
  lemma InitialRoomStep(ws: seq<Workspace>, i: nat, channels: seq<Channel>,
                        channelMembers: map<(Id, Id), ChannelMembership>, userId: Id, own: seq<Channel>)
    requires i < |ws|
    requires own == Filter(channels, (c: Channel) => c.workspaceId == ws[i].id && (userId, c.id) in channelMembers)
    ensures forall room ::
      InitialRoom(ws[..i + 1], channels, channelMembers, userId, room) <==>
      InitialRoom(ws[..i], channels, channelMembers, userId, room) || room == WorkspaceRoom(ws[i].id) ||
      exists k :: 0 <= k < |own| && room == ChannelRoom(own[k].id)
  {
    var pre, ext := ws[..i], ws[..i + 1];
    assert ext == pre + [ws[i]];
    forall room | InitialRoom(ext, channels, channelMembers, userId, room)
      ensures InitialRoom(pre, channels, channelMembers, userId, room) || room == WorkspaceRoom(ws[i].id) ||
              exists k :: 0 <= k < |own| && room == ChannelRoom(own[k].id)
    {
      if room.ChannelRoom? {
        var c :| c in channels && c.id == room.id && (userId, room.id) in channelMembers && OfWorkspaces(ext, c);
        var w :| w in ext && w.id == c.workspaceId;
        if w !in pre {
          assert w == ws[i];
          assert c in own;
          var k :| 0 <= k < |own| && own[k] == c;
        }
      }
    }
    forall room | exists k :: 0 <= k < |own| && room == ChannelRoom(own[k].id)
      ensures InitialRoom(ext, channels, channelMembers, userId, room)
    {
      var k :| 0 <= k < |own| && room == ChannelRoom(own[k].id);
      assert own[k] in own;
      assert ws[i] in ext;
    }
    forall room | InitialRoom(pre, channels, channelMembers, userId, room)
      ensures InitialRoom(ext, channels, channelMembers, userId, room)
    {
      if room.ChannelRoom? {
        var c :| c in channels && c.id == room.id && (userId, room.id) in channelMembers && OfWorkspaces(pre, c);
        var w :| w in pre && w.id == c.workspaceId;
        assert w in ext;
      } else {
        var w :| w in pre && w.id == room.id;
        assert w in ext;
      }
    }
    assert ws[i] in ext;
  }

  /** The socket server: its live connections and the `user:<id>:socketId`
      keys. Presence lives in the users table. */
  class Server {
    var connections: map<ConnId, Connection>
    var socketKeys: map<Id, ConnId>

    constructor ()
      ensures connections == map[] && socketKeys == map[]
    {
      connections, socketKeys := map[], map[];
    }

    /** The handshake middleware followed by the connection handler. The new
        connection joins its rooms and announces the user online to the other
        members of each of its workspaces. */
    method Connect(db: Db, sid: ConnId, token: Option<string>, now: Time)
      returns (outcome: ConnectOutcome, out: seq<Delivery>)
      requires db.Valid()
      requires sid !in connections
      modifies this, db
      ensures db.Valid()
      ensures !Given(token) ==> outcome == Refused("Authentication required")
      ensures Given(token) && VerifyToken(token.value).None? ==> outcome == Refused("Invalid token")
      ensures outcome.Connected? || outcome.Abandoned? ==> Given(token) && VerifyToken(token.value) == Some(outcome.userId)
      ensures !outcome.Connected? ==>
        out == [] && db.Snapshot() == old(db.Snapshot()) && connections == old(connections) && socketKeys == old(socketKeys)
      ensures outcome.Abandoned? <==> Given(token) && VerifyToken(token.value).Some? && !old(db.HasUser(VerifyToken(token.value).value))
      ensures outcome.Connected? ==>
        var u := outcome.userId;
        var ws := MemberWorkspaces(old(db.workspaces), old(db.workspaceMembers), u);
        db.Snapshot() == old(db.Snapshot()).(users := SetPresence(old(db.users), u, Online, now)) &&
        socketKeys == old(socketKeys)[u := sid] &&
        sid in connections && connections == old(connections)[sid := connections[sid]] &&
        connections[sid].userId == u && connections[sid].workspaces == Ids(ws) &&
        (forall room :: room in connections[sid].rooms <==> InitialRoom(ws, old(db.channels), old(db.channelMembers), u, room)) &&
        out == StatusDeliveries(connections, Ids(ws), sid, u, Online)
    {
      if !Given(token) {
        return Refused("Authentication required"), [];
      }
      var verified := VerifyToken(token.value);
      if verified.None? {
        return Refused("Invalid token"), [];
      }
      var u := verified.value;
      if !db.HasUser(u) {
        return Abandoned(u), [];
      }
      SetPresenceValid(db.users, u, Online, now);
      db.users := SetPresence(db.users, u, Online, now);
      socketKeys := socketKeys[u := sid];
      var ws := MemberWorkspaces(db.workspaces, db.workspaceMembers, u);
      var rooms := JoinInitialRooms(ws, db.channels, db.channelMembers, u);
      connections := connections[sid := Connection(u, rooms, Ids(ws))];
      outcome := Connected(u);
      out := StatusDeliveries(connections, Ids(ws), sid, u, Online);
    }

    /** `message:send`: channel members only; the new message goes to the
        whole channel room, sender included. */
    method SendMessage(db: Db, sid: ConnId, channelId: Id, content: Option<string>, parentId: Option<Id>,
                       newId: Id, now: Time)
      returns (out: seq<Delivery>)
      requires db.Valid()
      modifies db
      ensures db.Valid()
      ensures sid !in connections ==> out == [] && db.Snapshot() == old(db.Snapshot())
      ensures sid in connections ==>
        var u := connections[sid].userId;
        var m := Message(newId, channelId, u, OrNull(parentId), Text(content), false, now);
        if (u, channelId) !in old(db.channelMembers) then
          out == [Delivery({sid}, Error("No access to this channel"))] && db.Snapshot() == old(db.Snapshot())
        else if content.None? || !old(db.CanAddMessage(m)) then
          out == [Delivery({sid}, Error("Failed to send message"))] && db.Snapshot() == old(db.Snapshot())
        else
          out == [Delivery(InRoom(connections, ChannelRoom(channelId)), MessageNew(m))] &&
          db.Snapshot() == old(db.Snapshot()).(messages := old(db.messages) + [m])
    {
      if sid !in connections {
        return [];
      }
      var u := connections[sid].userId;
      if (u, channelId) !in db.channelMembers {
        return [Delivery({sid}, Error("No access to this channel"))];
      }
      var m := Message(newId, channelId, u, OrNull(parentId), Text(content), false, now);
      if content.None? || !db.CanAddMessage(m) {
        return [Delivery({sid}, Error("Failed to send message"))];
      }
      db.AddMessage(m);
      out := [Delivery(InRoom(connections, ChannelRoom(channelId)), MessageNew(m))];
    }

    /** `typing:start` / `typing:stop`: to the channel room, sender excluded. */
    method Typing(sid: ConnId, channelId: Id, typing: bool) returns (out: seq<Delivery>)
      ensures sid !in connections ==> out == []
      ensures sid in connections ==>
        |out| == 1 && out[0].event == TypingUser(connections[sid].userId, channelId, typing) &&
        sid !in out[0].recipients &&
        forall c :: c in out[0].recipients <==> c in connections && ChannelRoom(channelId) in connections[c].rooms && c != sid
    {
      if sid !in connections {
        return [];
      }
      out := [Delivery(InRoomExcept(connections, ChannelRoom(channelId), sid), TypingUser(connections[sid].userId, channelId, typing))];
    }

    /** `message:update`: authors only. The broadcast goes to the room of the
        channel the stored message belongs to. */
    method UpdateMessage(db: Db, sid: ConnId, messageId: Id, content: Field<Option<string>>) returns (out: seq<Delivery>)
      requires db.Valid()
      modifies db
      ensures db.Valid()
      ensures sid !in connections ==> out == [] && db.Snapshot() == old(db.Snapshot())
      ensures sid in connections ==>
        var u := connections[sid].userId;
        var found := Find(old(db.messages), MessageKey, messageId);
        if found.None? || found.value.authorId != u then
          out == [Delivery({sid}, Error("Cannot edit this message"))] && db.Snapshot() == old(db.Snapshot())
        else if content == Present(None) then
          out == [Delivery({sid}, Error("Failed to update message"))] && db.Snapshot() == old(db.Snapshot())
        else
          var v := MessageController.Edited(found.value, if content.Present? then content.value.value else found.value.content);
          out == [Delivery(InRoom(connections, ChannelRoom(found.value.channelId)), MessageUpdated(v))] &&
          db.Snapshot() == old(db.Snapshot()).(messages := MapWhere(old(db.messages), (x: Message) => x.id == messageId,
                                               (x: Message) => v))
    {
      if sid !in connections {
        return [];
      }
      var u := connections[sid].userId;
      var found := Find(db.messages, MessageKey, messageId);
      if found.None? || found.value.authorId != u {
        return [Delivery({sid}, Error("Cannot edit this message"))];
      }
      if content == Present(None) {
        return [Delivery({sid}, Error("Failed to update message"))];
      }
      var m := found.value;
      var v := MessageController.Edited(m, if content.Present? then content.value.value else m.content);
      var sel := (x: Message) => x.id == messageId;
      var f := (x: Message) => v;
      MapWhereKeepsKeys(db.messages, sel, f, MessageKey);
      db.messages := MapWhere(db.messages, sel, f);
      out := [Delivery(InRoom(connections, ChannelRoom(m.channelId)), MessageUpdated(v))];
    }

    /** `message:delete`: authors only; announced to the stored message's channel room. */
    method DeleteMessage(db: Db, sid: ConnId, messageId: Id) returns (out: seq<Delivery>)
      requires db.Valid()
      modifies db
      ensures db.Valid()
      ensures sid !in connections ==> out == [] && db.Snapshot() == old(db.Snapshot())
      ensures sid in connections ==>
        var found := Find(old(db.messages), MessageKey, messageId);
        if found.None? || found.value.authorId != connections[sid].userId then
          out == [Delivery({sid}, Error("Cannot delete this message"))] && db.Snapshot() == old(db.Snapshot())
        else
          out == [Delivery(InRoom(connections, ChannelRoom(found.value.channelId)), MessageDeleted(messageId, found.value.channelId))] &&
          db.Snapshot() == old(db.Snapshot()).(messages := WithoutKey(old(db.messages), MessageKey, messageId))
    {
      if sid !in connections {
        return [];
      }
      var found := Find(db.messages, MessageKey, messageId);
      if found.None? || found.value.authorId != connections[sid].userId {
        return [Delivery({sid}, Error("Cannot delete this message"))];
      }
      var channelId := found.value.channelId;
      WithoutKeySpec(db.messages, MessageKey, messageId);
      db.messages := WithoutKey(db.messages, MessageKey, messageId);
      out := [Delivery(InRoom(connections, ChannelRoom(channelId)), MessageDeleted(messageId, channelId))];
    }

    /** `reaction:add`: a failed insert (a duplicate triple, a missing message)
        is only logged. */
    method AddReaction(db: Db, sid: ConnId, messageId: Id, emoji: Option<string>) returns (out: seq<Delivery>)
      requires db.Valid()
      modifies db
      ensures db.Valid()
      ensures sid !in connections || emoji.None? || !old(db.CanAddReaction((connections[sid].userId, messageId, emoji.value))) ==>
        out == [] && db.Snapshot() == old(db.Snapshot())
      ensures sid in connections && emoji.Some? && old(db.CanAddReaction((connections[sid].userId, messageId, emoji.value))) ==>
        var t := (connections[sid].userId, messageId, emoji.value);
        out == [Delivery(InRoom(connections, ChannelRoom(Find(old(db.messages), MessageKey, messageId).value.channelId)),
                         ReactionAdded(messageId, t))] &&
        db.Snapshot() == old(db.Snapshot()).(reactions := old(db.reactions) + {t})
    {
      if sid !in connections || emoji.None? {
        return [];
      }
      var t := (connections[sid].userId, messageId, emoji.value);
      if !db.CanAddReaction(t) {
        return [];
      }
      db.reactions := db.reactions + {t};
      var m := Find(db.messages, MessageKey, messageId);
      out := [Delivery(InRoom(connections, ChannelRoom(m.value.channelId)), ReactionAdded(messageId, t))];
    }

    /** `reaction:remove`: acts only when the caller's triple exists. */
    method RemoveReaction(db: Db, sid: ConnId, messageId: Id, emoji: Option<string>) returns (out: seq<Delivery>)
      requires db.Valid()
      modifies db
      ensures db.Valid()
      ensures sid !in connections || emoji.None? || (connections[sid].userId, messageId, emoji.value) !in old(db.reactions) ||
              !old(db.HasMessage(messageId)) ==>
        out == [] && db.Snapshot() == old(db.Snapshot())
      ensures sid in connections && emoji.Some? && (connections[sid].userId, messageId, emoji.value) in old(db.reactions) &&
              old(db.HasMessage(messageId)) ==>
        var u := connections[sid].userId;
        out == [Delivery(InRoom(connections, ChannelRoom(Find(old(db.messages), MessageKey, messageId).value.channelId)),
                         ReactionRemoved(messageId, u, emoji.value))] &&
        db.Snapshot() == old(db.Snapshot()).(reactions := old(db.reactions) - {(u, messageId, emoji.value)})
    {
      if sid !in connections || emoji.None? {
        return [];
      }
      var u := connections[sid].userId;
      var t := (u, messageId, emoji.value);
      var m := Find(db.messages, MessageKey, messageId);
      if t !in db.reactions || m.None? {
        return [];
      }
      db.reactions := db.reactions - {t};
      out := [Delivery(InRoom(connections, ChannelRoom(m.value.channelId)), ReactionRemoved(messageId, u, emoji.value))];
    }

    /** `channel:join`: subscribes this connection, with no membership check. */
    method JoinChannel(sid: ConnId, channelId: Id)
      modifies this
      ensures socketKeys == old(socketKeys)
      ensures sid !in old(connections) ==> connections == old(connections)
      ensures sid in old(connections) ==>
        connections == old(connections)[sid := old(connections)[sid].(rooms := old(connections)[sid].rooms + {ChannelRoom(channelId)})]
    {
      if sid in connections {
        var c := connections[sid];
        connections := connections[sid := c.(rooms := c.rooms + {ChannelRoom(channelId)})];
      }
    }

    /** `channel:leave`: unsubscribes this connection; memberships are untouched. */
    method LeaveChannel(sid: ConnId, channelId: Id)
      modifies this
      ensures socketKeys == old(socketKeys)
      ensures sid !in old(connections) ==> connections == old(connections)
      ensures sid in old(connections) ==>
        connections == old(connections)[sid := old(connections)[sid].(rooms := old(connections)[sid].rooms - {ChannelRoom(channelId)})]
    {
      if sid in connections {
        var c := connections[sid];
        connections := connections[sid := c.(rooms := c.rooms - {ChannelRoom(channelId)})];
      }
    }

    /** `disconnect`: the connection leaves every room, the user goes offline,
        the user's socket key is deleted whichever connection wrote it, and the
        other members of the workspaces loaded at connect time are told. */
    method Disconnect(db: Db, sid: ConnId, now: Time) returns (out: seq<Delivery>)
      requires db.Valid()
      modifies this, db
      ensures db.Valid()
      ensures sid !in old(connections) ==>
        out == [] && connections == old(connections) && socketKeys == old(socketKeys) && db.Snapshot() == old(db.Snapshot())
      ensures sid in old(connections) ==>
        var c := old(connections)[sid];
        connections == old(connections) - {sid} &&
        if !old(db.HasUser(c.userId)) then
          out == [] && socketKeys == old(socketKeys) && db.Snapshot() == old(db.Snapshot())
        else
          db.Snapshot() == old(db.Snapshot()).(users := SetPresence(old(db.users), c.userId, Offline, now)) &&
          socketKeys == old(socketKeys) - {c.userId} &&
          out == StatusDeliveries(connections, c.workspaces, sid, c.userId, Offline)
    {
      if sid !in connections {
        return [];
      }
      var c := connections[sid];
      connections := connections - {sid};
      if !db.HasUser(c.userId) {
        return [];
      }
      SetPresenceValid(db.users, c.userId, Offline, now);
      db.users := SetPresence(db.users, c.userId, Offline, now);
      socketKeys := socketKeys - {c.userId};
      out := StatusDeliveries(connections, c.workspaces, sid, c.userId, Offline);
    }
  }
}
