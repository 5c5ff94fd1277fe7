/** The relational store behind the controllers and the gateway, as in-memory
    tables. Entity tables are sequences of rows in table order (the order a
    query without `orderBy` returns them in); join tables are maps keyed by the
    pair of ids that forms their composite primary key; reactions are a set of
    `(userId, messageId, emoji)` triples, the composite key of that table. */
module Store {
  import opened Common
  import opened Sequences

  type Id = string

  datatype Presence = Online | Offline
  datatype WorkspaceRole = Owner | Admin | Member
  datatype ChannelRole = ChannelAdmin | ChannelMember

  /** Times (`createdAt`, `lastReadAt`, …) are instants given as natural numbers. */
  type Time = nat

  datatype User = User(
    id: Id, email: string, username: string, password: Option<string>,
    firstName: Option<string>, lastName: Option<string>, avatar: Option<string>,
    customStatus: Option<string>, status: Presence, lastSeenAt: Option<Time>, createdAt: Time)

  datatype Workspace = Workspace(
    id: Id, name: string, slug: string, description: Option<string>,
    avatar: Option<string>, inviteOnly: bool, createdAt: Time)

  datatype Channel = Channel(
    id: Id, workspaceId: Id, name: string, description: Option<string>,
    isPrivate: bool, archived: bool, createdAt: Time)

  datatype Message = Message(
    id: Id, channelId: Id, authorId: Id, parentId: Option<Id>,
    content: string, edited: bool, createdAt: Time)

  /** A row of the channel member table (its key is `(userId, channelId)`). */
  datatype ChannelMembership = ChannelMembership(role: ChannelRole, lastReadAt: Time)

  datatype Conversation = Conversation(
    id: Id, isGroup: bool, name: Option<string>, createdAt: Time, updatedAt: Time)

  /** `attachments` is the JSON column as written, `None` for a database null. */
  datatype DirectMessage = DirectMessage(
    id: Id, conversationId: Id, senderId: Id, content: string, attachments: Option<Json>,
    edited: bool, createdAt: Time)

  /** `(userId, messageId, emoji)`: the reaction table's unique key. */
  type Reaction = (Id, Id, string)

  function UserKey(u: User): Id { u.id }
  function UserEmail(u: User): string { u.email }
  function UserName(u: User): string { u.username }
  function WorkspaceKey(w: Workspace): Id { w.id }
  function WorkspaceSlug(w: Workspace): string { w.slug }
  function ChannelKey(c: Channel): Id { c.id }
  /** Channel names are unique within a workspace. */
  function ChannelPlace(c: Channel): (Id, string) { (c.workspaceId, c.name) }
  function MessageKey(m: Message): Id { m.id }
  function MessageTime(m: Message): int { m.createdAt }
  function ConversationKey(c: Conversation): Id { c.id }
  function ConversationTime(c: Conversation): int { c.updatedAt }
  function DirectMessageKey(d: DirectMessage): Id { d.id }
  function DirectMessageTime(d: DirectMessage): int { d.createdAt }
  function ChannelTime(c: Channel): int { c.createdAt }

  /** A channel is listed to a user when it is public or the user is one of its members. */
  predicate VisibleTo(channelMembers: map<(Id, Id), ChannelMembership>, userId: Id, c: Channel) {
    !c.isPrivate || (userId, c.id) in channelMembers
  }

  /** A message in one of the channels of the workspace the user is a member
      of, archived or not. */
  predicate InMemberChannel(channels: seq<Channel>, channelMembers: map<(Id, Id), ChannelMembership>,
                            userId: Id, workspaceId: Id, m: Message) {
    exists c :: c in channels && c.id == m.channelId && c.workspaceId == workspaceId && (userId, c.id) in channelMembers
  }

  /** Every table at one instant, so that a contract can say which tables an
      operation changed and that the others are as they were. */
  datatype Tables = Tables(
    users: seq<User>,
    workspaces: seq<Workspace>,
    workspaceMembers: map<(Id, Id), WorkspaceRole>,
    channels: seq<Channel>,
    channelMembers: map<(Id, Id), ChannelMembership>,
    messages: seq<Message>,
    reactions: set<Reaction>,
    conversations: seq<Conversation>,
    participants: map<(Id, Id), Time>,
    directMessages: seq<DirectMessage>)

  /** The database. The unique constraints and foreign keys the handlers rely on are its invariant. */
  class Db {
    var users: seq<User>
    var workspaces: seq<Workspace>
    /** `(userId, workspaceId)` to role. */
    var workspaceMembers: map<(Id, Id), WorkspaceRole>
    var channels: seq<Channel>
    /** `(userId, channelId)` to role and last read time. */
    var channelMembers: map<(Id, Id), ChannelMembership>
    var messages: seq<Message>
    var reactions: set<Reaction>
    var conversations: seq<Conversation>
    /** `(userId, conversationId)` to last read time. */
    var participants: map<(Id, Id), Time>
    var directMessages: seq<DirectMessage>

    ghost predicate Valid()
      reads this
    {
      KeysDistinct(users, UserKey) && KeysDistinct(users, UserEmail) && KeysDistinct(users, UserName) &&
      KeysDistinct(workspaces, WorkspaceKey) && KeysDistinct(workspaces, WorkspaceSlug) &&
      KeysDistinct(channels, ChannelKey) && KeysDistinct(channels, ChannelPlace) &&
      KeysDistinct(messages, MessageKey) &&
      KeysDistinct(conversations, ConversationKey) &&
      KeysDistinct(directMessages, DirectMessageKey) &&
      Linked()
    }

    /** The foreign keys of the tables no handler deletes from: every channel
        belongs to a stored workspace, and every row of a membership table
        names a stored user and a stored workspace, channel or conversation. */
    ghost predicate Linked()
      reads this
    {
      (forall i :: 0 <= i < |channels| ==> HasKey(workspaces, WorkspaceKey, channels[i].workspaceId)) &&
      (forall k :: k in workspaceMembers ==> HasKey(users, UserKey, k.0) && HasKey(workspaces, WorkspaceKey, k.1)) &&
      (forall k :: k in channelMembers ==> HasKey(users, UserKey, k.0) && HasKey(channels, ChannelKey, k.1)) &&
      (forall k :: k in participants ==> HasKey(users, UserKey, k.0) && HasKey(conversations, ConversationKey, k.1))
    }

    ghost function Snapshot(): Tables
      reads this
    {
      Tables(users, workspaces, workspaceMembers, channels, channelMembers,
             messages, reactions, conversations, participants, directMessages)
    }

    constructor ()
      ensures Valid()
      ensures Snapshot() == Tables([], [], map[], [], map[], [], {}, [], map[], [])
    {
      users, workspaces, workspaceMembers := [], [], map[];
      channels, channelMembers, messages, reactions := [], map[], [], {};
      conversations, participants, directMessages := [], map[], [];
    }

    predicate HasUser(id: Id)
      reads this
    {
      HasKey(users, UserKey, id)
    }

    predicate HasWorkspace(id: Id)
      reads this
    {
      HasKey(workspaces, WorkspaceKey, id)
    }

    predicate HasChannel(id: Id)
      reads this
    {
      HasKey(channels, ChannelKey, id)
    }

    predicate HasMessage(id: Id)
      reads this
    {
      HasKey(messages, MessageKey, id)
    }

    predicate HasConversation(id: Id)
      reads this
    {
      HasKey(conversations, ConversationKey, id)
    }

    predicate HasDirectMessage(id: Id)
      reads this
    {
      HasKey(directMessages, DirectMessageKey, id)
    }

    /** The workspace roles that may administer a workspace. */
    predicate IsWorkspaceAdmin(userId: Id, workspaceId: Id)
      reads this
    {
      (userId, workspaceId) in workspaceMembers && workspaceMembers[(userId, workspaceId)] in {Owner, Admin}
    }

    predicate IsChannelAdmin(userId: Id, channelId: Id)
      reads this
    {
      (userId, channelId) in channelMembers && channelMembers[(userId, channelId)].role == ChannelAdmin
    }

    /** Inserting these rows violates no unique constraint and no foreign key. */
    predicate CanAddUser(u: User)
      reads this
    {
      !HasUser(u.id) && !HasKey(users, UserEmail, u.email) && !HasKey(users, UserName, u.username)
    }

    predicate CanAddChannel(c: Channel)
      reads this
    {
      !HasChannel(c.id) && HasWorkspace(c.workspaceId) && !HasKey(channels, ChannelPlace, ChannelPlace(c))
    }

    predicate CanAddChannelMember(userId: Id, channelId: Id)
      reads this
    {
      (userId, channelId) !in channelMembers && HasUser(userId) && HasChannel(channelId)
    }

    predicate CanAddWorkspaceMember(userId: Id, workspaceId: Id)
      reads this
    {
      (userId, workspaceId) !in workspaceMembers && HasUser(userId) && HasWorkspace(workspaceId)
    }

    predicate CanAddMessage(m: Message)
      reads this
    {
      !HasMessage(m.id) && HasChannel(m.channelId) && HasUser(m.authorId) &&
      (m.parentId.Some? ==> HasMessage(m.parentId.value))
    }

    predicate CanAddReaction(t: Reaction)
      reads this
    {
      t !in reactions && HasUser(t.0) && HasMessage(t.1)
    }

    predicate CanAddDirectMessage(d: DirectMessage)
      reads this
    {
      !HasDirectMessage(d.id) && HasConversation(d.conversationId) && HasUser(d.senderId)
    }

    method AddUser(u: User)
      requires Valid()
      requires CanAddUser(u)
      modifies this
      ensures Valid()
      ensures Snapshot() == old(Snapshot()).(users := old(users) + [u])
    {
      AppendKeepsKeys(users, u, UserKey);
      AppendKeepsKeys(users, u, UserEmail);
      AppendKeepsKeys(users, u, UserName);
      AppendHasKey(users, u, UserKey);
      users := users + [u];
    }

    method AddChannel(c: Channel)
      requires Valid()
      requires CanAddChannel(c)
      modifies this
      ensures Valid()
      ensures Snapshot() == old(Snapshot()).(channels := old(channels) + [c])
      ensures HasChannel(c.id)
    {
      AppendKeepsKeys(channels, c, ChannelKey);
      AppendKeepsKeys(channels, c, ChannelPlace);
      AppendHasKey(channels, c, ChannelKey);
      channels := channels + [c];
      assert ChannelKey(channels[|channels| - 1]) == c.id;
    }

    /** An update of channel rows that keeps every id and every workspace. */
    method SetChannels(cs: seq<Channel>)
      requires Valid()
      requires KeysDistinct(cs, ChannelKey) && KeysDistinct(cs, ChannelPlace)
      requires forall k :: HasKey(cs, ChannelKey, k) <==> HasKey(channels, ChannelKey, k)
      requires forall i :: 0 <= i < |cs| ==> HasKey(workspaces, WorkspaceKey, cs[i].workspaceId)
      modifies this
      ensures Valid()
      ensures Snapshot() == old(Snapshot()).(channels := cs)
    {
      channels := cs;
    }

    /** By the foreign keys, no row names a workspace or channel id that is not stored. */
    lemma UnusedIds(workspaceId: Id, channelId: Id)
      requires Valid()
      requires !HasWorkspace(workspaceId) && !HasChannel(channelId)
      ensures forall k :: k in workspaceMembers ==> k.1 != workspaceId
      ensures forall i :: 0 <= i < |channels| ==> channels[i].workspaceId != workspaceId
      ensures forall k :: k in channelMembers ==> k.1 != channelId
    {
    }

    /** The three nested creates of a new workspace, written together. */
    method AddWorkspace(w: Workspace, owner: Id, general: Channel, now: Time)
      requires Valid()
      requires !HasWorkspace(w.id) && !HasKey(workspaces, WorkspaceSlug, w.slug)
      requires general.workspaceId == w.id && !HasChannel(general.id) && !HasKey(channels, ChannelPlace, ChannelPlace(general))
      requires HasUser(owner)
      modifies this
      ensures Valid()
      ensures Snapshot() == old(Snapshot()).(
        workspaces := old(workspaces) + [w],
        workspaceMembers := old(workspaceMembers)[(owner, w.id) := Owner],
        channels := old(channels) + [general],
        channelMembers := old(channelMembers)[(owner, general.id) := ChannelMembership(ChannelAdmin, now)])
      // Every row of the new workspace is one of the rows written here.
      ensures forall k :: k in workspaceMembers && k.1 == w.id ==> k == (owner, w.id)
      ensures forall c :: c in channels && c.workspaceId == w.id ==> c == general
      ensures forall k :: k in channelMembers && k.1 == general.id ==> k == (owner, general.id)
    {
      UnusedIds(w.id, general.id);
      AddWorkspaceRow(w);
      AddWorkspaceMember(owner, w.id, Owner);
      AddChannel(general);
      AddChannelMember(owner, general.id, ChannelAdmin, now);
    }

    method AddWorkspaceRow(w: Workspace)
      requires Valid()
      requires !HasWorkspace(w.id) && !HasKey(workspaces, WorkspaceSlug, w.slug)
      modifies this
      ensures Valid()
      ensures Snapshot() == old(Snapshot()).(workspaces := old(workspaces) + [w])
      ensures HasWorkspace(w.id)
    {
      AppendKeepsKeys(workspaces, w, WorkspaceKey);
      AppendKeepsKeys(workspaces, w, WorkspaceSlug);
      AppendHasKey(workspaces, w, WorkspaceKey);
      workspaces := workspaces + [w];
      assert WorkspaceKey(workspaces[|workspaces| - 1]) == w.id;
    }

    method AddWorkspaceMember(userId: Id, workspaceId: Id, role: WorkspaceRole)
      requires Valid()
      requires CanAddWorkspaceMember(userId, workspaceId)
      modifies this
      ensures Valid()
      ensures Snapshot() == old(Snapshot()).(workspaceMembers := old(workspaceMembers)[(userId, workspaceId) := role])
    {
      workspaceMembers := workspaceMembers[(userId, workspaceId) := role];
    }

    /** An update of workspace rows that keeps every id and every slug. */
    method SetWorkspaces(ws: seq<Workspace>)
      requires Valid()
      requires KeysDistinct(ws, WorkspaceKey) && KeysDistinct(ws, WorkspaceSlug)
      requires forall k :: HasKey(ws, WorkspaceKey, k) <==> HasKey(workspaces, WorkspaceKey, k)
      modifies this
      ensures Valid()
      ensures Snapshot() == old(Snapshot()).(workspaces := ws)
    {
      workspaces := ws;
    }

    method AddChannelMember(userId: Id, channelId: Id, role: ChannelRole, now: Time)
      requires Valid()
      requires CanAddChannelMember(userId, channelId)
      modifies this
      ensures Valid()
      ensures Snapshot() == old(Snapshot()).(channelMembers := old(channelMembers)[(userId, channelId) := ChannelMembership(role, now)])
    {
      channelMembers := channelMembers[(userId, channelId) := ChannelMembership(role, now)];
    }

    /** Moves a member's `lastReadAt` to `now`. */
    method SetLastRead(userId: Id, channelId: Id, now: Time)
      requires Valid()
      requires (userId, channelId) in channelMembers
      modifies this
      ensures Valid()
      ensures Snapshot() == old(Snapshot()).(channelMembers := old(channelMembers)[
        (userId, channelId) := old(channelMembers)[(userId, channelId)].(lastReadAt := now)])
    {
      channelMembers := channelMembers[(userId, channelId) := channelMembers[(userId, channelId)].(lastReadAt := now)];
    }

    /** Moves a participant's `lastReadAt` to `now`. */
    method SetDmLastRead(userId: Id, conversationId: Id, now: Time)
      requires Valid()
      requires (userId, conversationId) in participants
      modifies this
      ensures Valid()
      ensures Snapshot() == old(Snapshot()).(participants := old(participants)[(userId, conversationId) := now])
    {
      participants := participants[(userId, conversationId) := now];
    }

    /** A new conversation with its participant rows. */
    method AddConversation(c: Conversation, rows: map<(Id, Id), Time>)
      requires Valid()
      requires !HasConversation(c.id)
      requires forall k :: k in rows ==> k.1 == c.id && HasUser(k.0)
      modifies this
      ensures Valid()
      ensures Snapshot() == old(Snapshot()).(conversations := old(conversations) + [c], participants := old(participants) + rows)
    {
      AppendKeepsKeys(conversations, c, ConversationKey);
      AppendHasKey(conversations, c, ConversationKey);
      conversations := conversations + [c];
      participants := participants + rows;
    }

    /** An update of conversation rows that keeps every id. */
    method SetConversations(cs: seq<Conversation>)
      requires Valid()
      requires KeysDistinct(cs, ConversationKey)
      requires forall k :: HasKey(cs, ConversationKey, k) <==> HasKey(conversations, ConversationKey, k)
      modifies this
      ensures Valid()
      ensures Snapshot() == old(Snapshot()).(conversations := cs)
    {
      conversations := cs;
    }

    method AddMessage(m: Message)
      requires Valid()
      requires !HasMessage(m.id)
      modifies this
      ensures Valid()
      ensures Snapshot() == old(Snapshot()).(messages := old(messages) + [m])
    {
      AppendKeepsKeys(messages, m, MessageKey);
      messages := messages + [m];
    }

    method AddDirectMessage(d: DirectMessage)
      requires Valid()
      requires !HasDirectMessage(d.id)
      modifies this
      ensures Valid()
      ensures Snapshot() == old(Snapshot()).(directMessages := old(directMessages) + [d])
    {
      AppendKeepsKeys(directMessages, d, DirectMessageKey);
      directMessages := directMessages + [d];
    }
  }

  /** Sets the presence and last-seen time of the user with that id. */
  function SetPresence(users: seq<User>, id: Id, status: Presence, now: Time): (r: seq<User>)
    ensures |r| == |users|
    ensures forall i :: 0 <= i < |users| ==>
      r[i] == if users[i].id == id then users[i].(status := status, lastSeenAt := Some(now)) else users[i]
  {
    MapWhere(users, (u: User) => u.id == id, (u: User) => u.(status := status, lastSeenAt := Some(now)))
  }

  /** Presence changes touch neither the id nor the unique columns. */
  lemma SetPresenceValid(users: seq<User>, id: Id, status: Presence, now: Time)
    requires KeysDistinct(users, UserKey) && KeysDistinct(users, UserEmail) && KeysDistinct(users, UserName)
    ensures KeysDistinct(SetPresence(users, id, status, now), UserKey)
    ensures KeysDistinct(SetPresence(users, id, status, now), UserEmail)
    ensures KeysDistinct(SetPresence(users, id, status, now), UserName)
    ensures forall k :: HasKey(SetPresence(users, id, status, now), UserKey, k) <==> HasKey(users, UserKey, k)
  {
    var sel := (u: User) => u.id == id;
    var f := (u: User) => u.(status := status, lastSeenAt := Some(now));
    MapWhereKeepsHasKey(users, sel, f, UserKey);
    MapWhereKeepsKeys(users, sel, f, UserKey);
    MapWhereKeepsKeys(users, sel, f, UserEmail);
    MapWhereKeepsKeys(users, sel, f, UserName);
  }
}
