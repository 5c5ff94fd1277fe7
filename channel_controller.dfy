/** Channels of a workspace: creation, listing, settings, joining and leaving
    (backend/src/controllers/channelController.ts). */
module ChannelController {
  import opened Common
  import opened Sequences
  import opened Store

  /** A character of `[a-z0-9-_]`. */
  predicate IsChannelNameChar(c: char) {
    ('a' <= c <= 'z') || ('0' <= c <= '9') || c == '-' || c == '_'
  }

  /** `/^[a-z0-9-_]+$/`. */
  predicate IsChannelNameText(n: string) {
    |n| >= 1 && forall k :: 0 <= k < |n| ==> IsChannelNameChar(n[k])
  }

  /** `createChannelValidation`: the messages of the failing checks on `name`. */
  function CreateChannelErrors(name: Option<string>): (errs: seq<string>)
    ensures errs == [] <==>
      1 <= ValidatorLength(Text(name)) <= 80 && IsChannelNameText(Text(name))
  {
    var n := Text(name);
    Check(1 <= ValidatorLength(n) <= 80, "Name must be between 1 and 80 characters") +
    Check(IsChannelNameText(n), "Name can only contain lowercase letters, numbers, hyphens, and underscores")
  }

  /** `createChannel`. `channelId` and `now` are the store-assigned id and creation time. */
  method CreateChannel(db: Db, caller: Id, workspaceId: Id, name: Option<string>, description: Option<string>,
                       isPrivate: Field<bool>, channelId: Id, now: Time)
    returns (r: Response<Channel>)
    requires db.Valid()
    modifies db
    ensures db.Valid()
    ensures CreateChannelErrors(name) != [] ==> r == Invalid(CreateChannelErrors(name)) && db.Snapshot() == old(db.Snapshot())
    ensures CreateChannelErrors(name) == [] ==> ChannelCreated(old(db.Snapshot()), db.Snapshot(), r, caller, workspaceId,
      Text(name), description, isPrivate, channelId, now)
  {
    var errs := CreateChannelErrors(name);
    if errs != [] {
      return Invalid(errs);
    }
    r := CreateNamedChannel(db, caller, workspaceId, Text(name), description, isPrivate, channelId, now);
  }

  /** What `createChannel` does with a valid name: a non-member is refused, a
      name the workspace already has is refused, and otherwise the channel is
      stored with the caller as its admin. */
  ghost predicate ChannelCreated(before: Tables, after: Tables, r: Response<Channel>, caller: Id, workspaceId: Id,
                                 name: string, description: Option<string>, isPrivate: Field<bool>, channelId: Id, now: Time) {
    ((caller, workspaceId) !in before.workspaceMembers ==>
      r == Err(403, "You are not a member of this workspace") && after == before) &&
    ((caller, workspaceId) in before.workspaceMembers && HasKey(before.channels, ChannelPlace, (workspaceId, name)) ==>
      r == Err(400, "Channel name already exists") && after == before) &&
    ((caller, workspaceId) in before.workspaceMembers && !HasKey(before.channels, ChannelPlace, (workspaceId, name)) ==>
      (r.Ok? <==> !HasKey(before.channels, ChannelKey, channelId))) &&
    (r.Err? && r.status == 500 ==> r.message == "Failed to create channel" && after == before) &&
    (r.Ok? ==>
      r.status == 201 &&
      r.value == Channel(channelId, workspaceId, name, if description.Some? then Some(Trim(description.value)) else None,
                         isPrivate == Present(true), false, now) &&
      after == before.(
        channels := before.channels + [r.value],
        channelMembers := before.channelMembers[(caller, channelId) := ChannelMembership(ChannelAdmin, now)])) &&
    (r.Ok? || r.Code() in {400, 403, 500})
  }

  method CreateNamedChannel(db: Db, caller: Id, workspaceId: Id, name: string, description: Option<string>,
                            isPrivate: Field<bool>, channelId: Id, now: Time)
    returns (r: Response<Channel>)
    requires db.Valid()
    modifies db
    ensures db.Valid()
    ensures ChannelCreated(old(db.Snapshot()), db.Snapshot(), r, caller, workspaceId, name, description, isPrivate, channelId, now)
  {
    if (caller, workspaceId) !in db.workspaceMembers {
      return Err(403, "You are not a member of this workspace");
    }
    if HasKey(db.channels, ChannelPlace, (workspaceId, name)) {
      return Err(400, "Channel name already exists");
    }
    var c := Channel(channelId, workspaceId, name, if description.Some? then Some(Trim(description.value)) else None,
                     isPrivate == Present(true), false, now);
    if db.HasChannel(channelId) {
      return Err(500, "Failed to create channel");
    }
    db.AddChannel(c);
    db.AddChannelMember(caller, channelId, ChannelAdmin, now);
    r := Ok(201, c);
  }

  /** The channels `getChannels` lists: open ones of the workspace that the user may see. */
  function OpenIn(channelMembers: map<(Id, Id), ChannelMembership>, userId: Id, workspaceId: Id): Channel -> bool {
    (c: Channel) => c.workspaceId == workspaceId && !c.archived && VisibleTo(channelMembers, userId, c)
  }

  /** `getChannels`: the open channels of the workspace the caller may see,
      oldest first, each as often as the table holds it. */
  method GetChannels(db: Db, caller: Id, workspaceId: Id) returns (r: Response<seq<Channel>>)
    ensures (caller, workspaceId) !in db.workspaceMembers <==> r.Err?
    ensures r.Err? ==> r == Err(403, "You are not a member of this workspace")
    ensures r.Ok? ==>
      r.status == 200 && SortedAsc(r.value, ChannelTime) &&
      forall c :: c in r.value <==>
        c in db.channels && c.workspaceId == workspaceId && !c.archived && VisibleTo(db.channelMembers, caller, c)
    ensures r.Ok? ==> multiset(r.value) == multiset(Filter(db.channels, OpenIn(db.channelMembers, caller, workspaceId)))
  {
    if (caller, workspaceId) !in db.workspaceMembers {
      return Err(403, "You are not a member of this workspace");
    }
    var listed := Filter(db.channels, OpenIn(db.channelMembers, caller, workspaceId));
    r := Ok(200, SortAsc(listed, ChannelTime));
  }

  /** `getChannel`: a public channel, or a private one the caller belongs to;
      neither workspace membership nor the archived flag is consulted. */
  method GetChannel(db: Db, caller: Id, channelId: Id) returns (r: Response<Channel>)
    requires db.Valid()
    ensures r.Err? <==> !exists c :: c in db.channels && c.id == channelId && VisibleTo(db.channelMembers, caller, c)
    ensures r.Err? ==> r == Err(404, "Channel not found")
    ensures r.Ok? ==> r.status == 200 && r.value in db.channels && r.value.id == channelId
  {
    var found := Find(db.channels, ChannelKey, channelId);
    if found.None? || !VisibleTo(db.channelMembers, caller, found.value) {
      if found.Some? {
        forall c | c in db.channels && c.id == channelId
          ensures c == found.value
        {
          FindUnique(db.channels, ChannelKey, channelId, c);
        }
      }
      return Err(404, "Channel not found");
    }
    r := Ok(200, found.value);
  }

  function PatchChannel(c: Channel, name: Field<string>, description: Field<Option<string>>, archived: Field<bool>): (v: Channel)
    ensures v.id == c.id && v.workspaceId == c.workspaceId && v.isPrivate == c.isPrivate && v.createdAt == c.createdAt
    ensures name.Absent? ==> v.name == c.name
    ensures description.Absent? ==> v.description == c.description
    ensures archived.Absent? ==> v.archived == c.archived
    ensures name.Present? ==> v.name == name.value
    ensures description.Present? ==> v.description == description.value
    ensures archived.Present? ==> v.archived == archived.value
  {
    c.(name := Assign(c.name, name), description := Assign(c.description, description), archived := Assign(c.archived, archived))
  }

  /** Some other channel of the same workspace already has the name of `v`. */
  predicate PlaceTaken(channels: seq<Channel>, channelId: Id, v: Channel) {
    exists d :: d in channels && d.id != channelId && ChannelPlace(d) == ChannelPlace(v)
  }

  /** The channel table once the row with that id is patched. */
  function PatchedChannels(channels: seq<Channel>, channelId: Id, name: Field<string>, description: Field<Option<string>>,
                           archived: Field<bool>): seq<Channel> {
    MapWhere(channels, (c: Channel) => c.id == channelId, (c: Channel) => PatchChannel(c, name, description, archived))
  }

  /** Patching one row whose new name is free keeps the table's unique
      constraints, its ids and the workspace of every row. */
  lemma PatchedChannelsValid(channels: seq<Channel>, channelId: Id, name: Field<string>, description: Field<Option<string>>,
                             archived: Field<bool>)
    requires KeysDistinct(channels, ChannelKey) && KeysDistinct(channels, ChannelPlace)
    requires HasKey(channels, ChannelKey, channelId)
    requires !PlaceTaken(channels, channelId, PatchChannel(Find(channels, ChannelKey, channelId).value, name, description, archived))
    ensures KeysDistinct(PatchedChannels(channels, channelId, name, description, archived), ChannelKey)
    ensures KeysDistinct(PatchedChannels(channels, channelId, name, description, archived), ChannelPlace)
    ensures forall k :: HasKey(PatchedChannels(channels, channelId, name, description, archived), ChannelKey, k) <==>
      HasKey(channels, ChannelKey, k)
    ensures forall i :: 0 <= i < |channels| ==>
      PatchedChannels(channels, channelId, name, description, archived)[i].workspaceId == channels[i].workspaceId
  {
    var found := Find(channels, ChannelKey, channelId).value;
    var sel := (c: Channel) => c.id == channelId;
    var f := (c: Channel) => PatchChannel(c, name, description, archived);
    MapWhereKeepsKeys(channels, sel, f, ChannelKey);
    forall x | x in channels && sel(x)
      ensures x == found
    {
      FindUnique(channels, ChannelKey, channelId, x);
    }
    MapWhereNewKey(channels, sel, f, ChannelPlace);
    MapWhereKeepsHasKey(channels, sel, f, ChannelKey);
  }

  /** `updateChannel`: channel admins only. The new name is not validated; a
      name another channel of the workspace already has breaks the unique
      constraint and fails. */
  method UpdateChannel(db: Db, caller: Id, channelId: Id, name: Field<string>, description: Field<Option<string>>,
                       archived: Field<bool>)
    returns (r: Response<Channel>)
    requires db.Valid()
    modifies db
    ensures db.Valid()
    ensures !old(db.IsChannelAdmin(caller, channelId)) ==>
      r == Err(403, "Only channel admins can update channel") && db.Snapshot() == old(db.Snapshot())
    ensures r.Err? && r.status == 500 ==> db.Snapshot() == old(db.Snapshot())
    ensures r.Ok? ==>
      r.status == 200 && old(db.IsChannelAdmin(caller, channelId)) && old(db.HasChannel(channelId)) &&
      r.value == PatchChannel(Find(old(db.channels), ChannelKey, channelId).value, name, description, archived) &&
      db.Snapshot() == old(db.Snapshot()).(channels := PatchedChannels(old(db.channels), channelId, name, description, archived))
    ensures old(db.IsChannelAdmin(caller, channelId)) && old(db.HasChannel(channelId)) &&
            !PlaceTaken(old(db.channels), channelId,
                        PatchChannel(Find(old(db.channels), ChannelKey, channelId).value, name, description, archived)) ==>
      r.Ok?
    ensures r.Ok? || r.Code() in {403, 500}
  {
    if !db.IsChannelAdmin(caller, channelId) {
      return Err(403, "Only channel admins can update channel");
    }
    assert db.HasChannel(channelId);
    var found := Find(db.channels, ChannelKey, channelId);
    var v := PatchChannel(found.value, name, description, archived);
    if PlaceTaken(db.channels, channelId, v) {
      return Err(500, "Failed to update channel");
    }
    PatchedChannelsValid(db.channels, channelId, name, description, archived);
    db.SetChannels(PatchedChannels(db.channels, channelId, name, description, archived));
    r := Ok(200, v);
  }

  datatype Membership = Membership(userId: Id, channelId: Id, role: ChannelRole)

  /** `joinChannel`: any member of the workspace may join any of its channels,
      private or not. */
  method JoinChannel(db: Db, caller: Id, channelId: Id, now: Time) returns (r: Response<Membership>)
    requires db.Valid()
    modifies db
    ensures db.Valid()
    ensures !old(db.HasChannel(channelId)) ==> r == Err(404, "Channel not found") && db.Snapshot() == old(db.Snapshot())
    ensures old(db.HasChannel(channelId)) ==>
      var c := Find(old(db.channels), ChannelKey, channelId).value;
      if (caller, c.workspaceId) !in old(db.workspaceMembers) then
        r == Err(403, "You are not a member of this workspace") && db.Snapshot() == old(db.Snapshot())
      else if (caller, channelId) in old(db.channelMembers) then
        r == Err(400, "Already a member of this channel") && db.Snapshot() == old(db.Snapshot())
      else
        r == Ok(201, Membership(caller, channelId, ChannelMember)) &&
        db.Snapshot() == old(db.Snapshot()).(channelMembers := old(db.channelMembers)[(caller, channelId) := ChannelMembership(ChannelMember, now)])
  {
    var found := Find(db.channels, ChannelKey, channelId);
    if found.None? {
      return Err(404, "Channel not found");
    }
    if (caller, found.value.workspaceId) !in db.workspaceMembers {
      return Err(403, "You are not a member of this workspace");
    }
    if (caller, channelId) in db.channelMembers {
      return Err(400, "Already a member of this channel");
    }
    db.AddChannelMember(caller, channelId, ChannelMember, now);
    r := Ok(201, Membership(caller, channelId, ChannelMember));
  }

  /** `leaveChannel`: the `general` channel cannot be left. */
  method LeaveChannel(db: Db, caller: Id, channelId: Id) returns (r: Response<string>)
    requires db.Valid()
    modifies db
    ensures db.Valid()
    ensures !old(db.HasChannel(channelId)) ==> r == Err(404, "Channel not found") && db.Snapshot() == old(db.Snapshot())
    ensures old(db.HasChannel(channelId)) ==>
      var c := Find(old(db.channels), ChannelKey, channelId).value;
      if c.name == "general" then
        r == Err(400, "Cannot leave general channel") && db.Snapshot() == old(db.Snapshot())
      else if (caller, channelId) !in old(db.channelMembers) then
        r == Err(500, "Failed to leave channel") && db.Snapshot() == old(db.Snapshot())
      else
        r == Ok(200, "Left channel successfully") &&
        db.Snapshot() == old(db.Snapshot()).(channelMembers := old(db.channelMembers) - {(caller, channelId)})
  {
    var found := Find(db.channels, ChannelKey, channelId);
    if found.None? {
      return Err(404, "Channel not found");
    }
    if found.value.name == "general" {
      return Err(400, "Cannot leave general channel");
    }
    if (caller, channelId) !in db.channelMembers {
      return Err(500, "Failed to leave channel");
    }
    db.channelMembers := db.channelMembers - {(caller, channelId)};
    r := Ok(200, "Left channel successfully");
  }
}
