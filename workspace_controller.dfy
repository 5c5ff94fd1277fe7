/** Workspaces: creation with their owner and `general` channel, listing,
    settings and invitations (backend/src/controllers/workspaceController.ts). */
module WorkspaceController {
  import opened Common
  import opened Sequences
  import opened Store

  /** `/^[a-z0-9-]+$/`. */
  predicate IsSlug(s: string) {
    |s| >= 1 && forall k :: 0 <= k < |s| ==> ('a' <= s[k] <= 'z') || ('0' <= s[k] <= '9') || s[k] == '-'
  }

  /** `createWorkspaceValidation`. */
  function CreateWorkspaceErrors(name: Option<string>, slug: Option<string>): (errs: seq<string>)
    ensures errs == [] <==> 1 <= ValidatorLength(Text(name)) <= 100 && IsSlug(Text(slug))
    ensures |errs| <= 2
  {
    (if 1 <= ValidatorLength(Text(name)) <= 100 then [] else ["Name must be between 1 and 100 characters"]) +
    (if IsSlug(Text(slug)) then [] else ["Slug can only contain lowercase letters, numbers, and hyphens"])
  }

  /** A name made of presentation selectors only, such as a lone U+FE0F, is
      refused as too short, whatever its count of characters. */
  lemma SelectorsOnlyNameRefused(name: string, slug: Option<string>)
    requires forall k :: 0 <= k < |name| ==> IsPresentationSelector(name[k])
    ensures CreateWorkspaceErrors(Some(name), slug) != []
    ensures CreateWorkspaceErrors(Some(name), slug)[0] == "Name must be between 1 and 100 characters"
  {
    SelectorsHaveNoLength(name);
  }

  /** The channel `createWorkspace` creates with every workspace. */
  function GeneralChannel(id: Id, workspaceId: Id, now: Time): Channel {
    Channel(id, workspaceId, "general", Some("General discussion"), false, false, now)
  }

  /** `createWorkspace`. `workspaceId` and `channelId` are the ids the store
      assigns to the new rows, `now` their creation time. */
  method CreateWorkspace(db: Db, caller: Id, name: Option<string>, slug: Option<string>,
                         description: Option<string>, inviteOnly: Field<bool>,
                         workspaceId: Id, channelId: Id, now: Time)
    returns (r: Response<Workspace>)
    requires db.Valid()
    modifies db
    ensures db.Valid()
    ensures CreateWorkspaceErrors(name, slug) != [] ==>
      r == Invalid(CreateWorkspaceErrors(name, slug)) && db.Snapshot() == old(db.Snapshot())
    ensures CreateWorkspaceErrors(name, slug) == [] && old(HasKey(db.workspaces, WorkspaceSlug, Text(slug))) ==>
      r == Err(400, "Workspace slug already taken") && db.Snapshot() == old(db.Snapshot())
    ensures CreateWorkspaceErrors(name, slug) == [] && !old(HasKey(db.workspaces, WorkspaceSlug, Text(slug))) ==>
      (r.Ok? <==> !old(db.HasWorkspace(workspaceId)) && old(db.HasUser(caller)) && !old(db.HasChannel(channelId)))
    ensures r.Err? && r.status == 500 ==> db.Snapshot() == old(db.Snapshot())
    ensures r.Ok? ==>
      r.status == 201 &&
      r.value == Workspace(workspaceId, Text(name), Text(slug), if description.Some? then Some(Trim(description.value)) else None,
                           None, inviteOnly == Present(true), now) &&
      db.Snapshot() == old(db.Snapshot()).(
        workspaces := old(db.workspaces) + [r.value],
        workspaceMembers := old(db.workspaceMembers)[(caller, workspaceId) := Owner],
        channels := old(db.channels) + [GeneralChannel(channelId, workspaceId, now)],
        channelMembers := old(db.channelMembers)[(caller, channelId) := ChannelMembership(ChannelAdmin, now)])
    ensures r.Ok? || r.Invalid? || r == Err(400, "Workspace slug already taken") || r == Err(500, "Failed to create workspace")
    // The new workspace has the caller as its one member, an owner, and the
    // general channel as its one channel, with the caller as its one member, an admin.
    ensures r.Ok? ==> forall k :: k in db.workspaceMembers && k.1 == workspaceId ==>
      k == (caller, workspaceId) && db.workspaceMembers[k] == Owner
    ensures r.Ok? ==> forall c :: c in db.channels && c.workspaceId == workspaceId ==> c == GeneralChannel(channelId, workspaceId, now)
    ensures r.Ok? ==> forall k :: k in db.channelMembers && k.1 == channelId ==>
      k == (caller, channelId) && db.channelMembers[k].role == ChannelAdmin
  {
    var errs := CreateWorkspaceErrors(name, slug);
    if errs != [] {
      return Invalid(errs);
    }
    if HasKey(db.workspaces, WorkspaceSlug, Text(slug)) {
      return Err(400, "Workspace slug already taken");
    }
    var w := Workspace(workspaceId, Text(name), Text(slug), if description.Some? then Some(Trim(description.value)) else None,
                       None, inviteOnly == Present(true), now);
    var general := GeneralChannel(channelId, workspaceId, now);
    if db.HasWorkspace(workspaceId) || !db.HasUser(caller) || db.HasChannel(channelId) {
      return Err(500, "Failed to create workspace");
    }
    db.AddWorkspace(w, caller, general, now);
    r := Ok(201, w);
  }

  /** A workspace as listed: the row with the channels its caller may see. */
  datatype WorkspaceView = WorkspaceView(workspace: Workspace, channels: seq<Channel>)

  /** The channels of one workspace that `userId` may see, in table order. */
  function ListedChannels(channels: seq<Channel>, channelMembers: map<(Id, Id), ChannelMembership>,
                          userId: Id, workspaceId: Id): (r: seq<Channel>)
    ensures forall c :: c in r <==> c in channels && c.workspaceId == workspaceId && VisibleTo(channelMembers, userId, c)
  {
    Filter(channels, (c: Channel) => c.workspaceId == workspaceId && VisibleTo(channelMembers, userId, c))
  }

  /** The workspaces of a list of views, in its order. */
  function WorkspacesOf(vs: seq<WorkspaceView>): (ws: seq<Workspace>)
    ensures |ws| == |vs| && forall i :: 0 <= i < |vs| ==> ws[i] == vs[i].workspace
  {
    seq(|vs|, i requires 0 <= i < |vs| => vs[i].workspace)
  }

  /** The workspaces the user has a membership row in. */
  function HasMember(workspaceMembers: map<(Id, Id), WorkspaceRole>, userId: Id): Workspace -> bool {
    (w: Workspace) => (userId, w.id) in workspaceMembers
  }

  /** `getWorkspaces`: one view per workspace the caller is a member of. */
  method GetWorkspaces(db: Db, caller: Id) returns (r: Response<seq<WorkspaceView>>)
    ensures r.Ok? && r.status == 200
    ensures forall w :: w in db.workspaces && (caller, w.id) in db.workspaceMembers <==>
      exists v :: v in r.value && v.workspace == w
    ensures multiset(WorkspacesOf(r.value)) == multiset(Filter(db.workspaces, HasMember(db.workspaceMembers, caller)))
    ensures forall v :: v in r.value ==>
      forall c :: c in v.channels <==>
        c in db.channels && c.workspaceId == v.workspace.id && VisibleTo(db.channelMembers, caller, c)
  {
    var wm, cm, channels := db.workspaceMembers, db.channelMembers, db.channels;
    var mine := Filter(db.workspaces, HasMember(wm, caller));
    var views := seq(|mine|, i requires 0 <= i < |mine| => WorkspaceView(mine[i], ListedChannels(channels, cm, caller, mine[i].id)));
    forall w | w in db.workspaces && (caller, w.id) in wm
      ensures exists v :: v in views && v.workspace == w
    {
      var i :| 0 <= i < |mine| && mine[i] == w;
      assert views[i].workspace == w;
    }
    assert WorkspacesOf(views) == mine;
    r := Ok(200, views);
  }

  /** `getWorkspace`: only members of the workspace see it. */
  method GetWorkspace(db: Db, caller: Id, workspaceId: Id) returns (r: Response<WorkspaceView>)
    ensures r.Err? <==> !(db.HasWorkspace(workspaceId) && (caller, workspaceId) in db.workspaceMembers)
    ensures r.Err? ==> r == Err(404, "Workspace not found")
    ensures r.Ok? ==>
      r.status == 200 && r.value.workspace in db.workspaces && r.value.workspace.id == workspaceId &&
      forall c :: c in r.value.channels <==>
        c in db.channels && c.workspaceId == workspaceId && VisibleTo(db.channelMembers, caller, c)
  {
    var found := Find(db.workspaces, WorkspaceKey, workspaceId);
    if found.None? || (caller, workspaceId) !in db.workspaceMembers {
      return Err(404, "Workspace not found");
    }
    r := Ok(200, WorkspaceView(found.value, ListedChannels(db.channels, db.channelMembers, caller, workspaceId)));
  }

  function PatchWorkspace(w: Workspace, name: Field<string>, description: Field<Option<string>>,
                          avatar: Field<Option<string>>, inviteOnly: Field<bool>): (v: Workspace)
    ensures v.id == w.id && v.slug == w.slug && v.createdAt == w.createdAt
    ensures name.Absent? ==> v.name == w.name
    ensures description.Absent? ==> v.description == w.description
    ensures avatar.Absent? ==> v.avatar == w.avatar
    ensures inviteOnly.Absent? ==> v.inviteOnly == w.inviteOnly
    ensures name.Present? ==> v.name == name.value
    ensures description.Present? ==> v.description == description.value
    ensures avatar.Present? ==> v.avatar == avatar.value
    ensures inviteOnly.Present? ==> v.inviteOnly == inviteOnly.value
  {
    w.(name := Assign(w.name, name), description := Assign(w.description, description),
       avatar := Assign(w.avatar, avatar), inviteOnly := Assign(w.inviteOnly, inviteOnly))
  }

  /** The workspace table once the row with that id is patched. */
  function PatchedWorkspaces(workspaces: seq<Workspace>, workspaceId: Id, name: Field<string>, description: Field<Option<string>>,
                             avatar: Field<Option<string>>, inviteOnly: Field<bool>): seq<Workspace> {
    MapWhere(workspaces, (w: Workspace) => w.id == workspaceId, (w: Workspace) => PatchWorkspace(w, name, description, avatar, inviteOnly))
  }

  /** Patching rows keeps the ids and slugs of the workspace table. */
  lemma PatchedWorkspacesValid(workspaces: seq<Workspace>, workspaceId: Id, name: Field<string>, description: Field<Option<string>>,
                               avatar: Field<Option<string>>, inviteOnly: Field<bool>)
    requires KeysDistinct(workspaces, WorkspaceKey) && KeysDistinct(workspaces, WorkspaceSlug)
    ensures KeysDistinct(PatchedWorkspaces(workspaces, workspaceId, name, description, avatar, inviteOnly), WorkspaceKey)
    ensures KeysDistinct(PatchedWorkspaces(workspaces, workspaceId, name, description, avatar, inviteOnly), WorkspaceSlug)
    ensures forall k :: HasKey(PatchedWorkspaces(workspaces, workspaceId, name, description, avatar, inviteOnly), WorkspaceKey, k) <==>
      HasKey(workspaces, WorkspaceKey, k)
  {
    var sel := (w: Workspace) => w.id == workspaceId;
    var f := (w: Workspace) => PatchWorkspace(w, name, description, avatar, inviteOnly);
    MapWhereKeepsKeys(workspaces, sel, f, WorkspaceKey);
    MapWhereKeepsKeys(workspaces, sel, f, WorkspaceSlug);
    MapWhereKeepsHasKey(workspaces, sel, f, WorkspaceKey);
  }

  /** `updateWorkspace`: owners and admins only; the slug never changes. */
  method UpdateWorkspace(db: Db, caller: Id, workspaceId: Id, name: Field<string>, description: Field<Option<string>>,
                         avatar: Field<Option<string>>, inviteOnly: Field<bool>)
    returns (r: Response<Workspace>)
    requires db.Valid()
    modifies db
    ensures db.Valid()
    ensures !old(db.IsWorkspaceAdmin(caller, workspaceId)) ==>
      r == Err(403, "Only admins and owners can update workspace") && db.Snapshot() == old(db.Snapshot())
    ensures old(db.IsWorkspaceAdmin(caller, workspaceId)) ==> r.Ok?
    ensures r.Ok? ==>
      r.status == 200 && old(db.IsWorkspaceAdmin(caller, workspaceId)) && old(db.HasWorkspace(workspaceId)) &&
      r.value == PatchWorkspace(Find(old(db.workspaces), WorkspaceKey, workspaceId).value, name, description, avatar, inviteOnly) &&
      db.Snapshot() == old(db.Snapshot()).(workspaces := PatchedWorkspaces(old(db.workspaces), workspaceId, name, description, avatar, inviteOnly))
  {
    if !db.IsWorkspaceAdmin(caller, workspaceId) {
      return Err(403, "Only admins and owners can update workspace");
    }
    assert db.HasWorkspace(workspaceId);
    var found := Find(db.workspaces, WorkspaceKey, workspaceId);
    PatchedWorkspacesValid(db.workspaces, workspaceId, name, description, avatar, inviteOnly);
    db.SetWorkspaces(PatchedWorkspaces(db.workspaces, workspaceId, name, description, avatar, inviteOnly));
    r := Ok(200, PatchWorkspace(found.value, name, description, avatar, inviteOnly));
  }

  /** `role || 'MEMBER'` as the role column receives it: a value outside the
      enumeration makes the store refuse the row. */
  function InviteRole(role: Option<string>): (r: Option<WorkspaceRole>)
    ensures role.None? || role == Some("") ==> r == Some(Member)
    ensures r == Some(Owner) <==> role == Some("OWNER")
    ensures r == Some(Admin) <==> role == Some("ADMIN")
    ensures r.None? <==> role.Some? && role.value !in {"", "MEMBER", "ADMIN", "OWNER"}
  {
    match role
    case None => Some(Member)
    case Some(s) =>
      if s == "" || s == "MEMBER" then Some(Member)
      else if s == "ADMIN" then Some(Admin)
      else if s == "OWNER" then Some(Owner)
      else None
  }

  datatype Invitation = Invitation(userId: Id, workspaceId: Id, role: WorkspaceRole)

  /** What `inviteToWorkspace` does, case by case: `admin` says whether the
      caller owns or administers the workspace. The member row is written
      before the general channel is looked up, so a failure of the
      channel-member insert leaves the new member row behind. */
  ghost predicate Invited(before: Tables, after: Tables, r: Response<Invitation>, admin: bool, workspaceId: Id,
                          userEmail: Option<string>, role: Option<string>, now: Time) {
    (!admin ==> r == Err(403, "Only admins can invite users") && after == before) &&
    (admin && userEmail.None? ==> r == Err(500, "Failed to invite user") && after == before) &&
    (admin && userEmail.Some? && !HasKey(before.users, UserEmail, userEmail.value) ==>
      r == Err(404, "User not found") && after == before) &&
    (admin && userEmail.Some? && HasKey(before.users, UserEmail, userEmail.value) ==>
      var u := Find(before.users, UserEmail, userEmail.value).value;
      var general := Find(before.channels, ChannelPlace, (workspaceId, "general"));
      u in before.users && u.email == userEmail.value &&
      ((u.id, workspaceId) in before.workspaceMembers ==> r == Err(400, "User is already a member") && after == before) &&
      ((u.id, workspaceId) !in before.workspaceMembers && InviteRole(role).None? ==>
        r == Err(500, "Failed to invite user") && after == before) &&
      ((u.id, workspaceId) !in before.workspaceMembers && InviteRole(role).Some? ==>
        MemberAdded(before, after, r, u.id, workspaceId, InviteRole(role).value, now)))
  }

  /** The writes of `inviteToWorkspace` once every check has passed: the
      workspace member row, then the member row of the general channel, if
      the workspace has one. */
  ghost predicate MemberAdded(before: Tables, after: Tables, r: Response<Invitation>, userId: Id, workspaceId: Id,
                              role: WorkspaceRole, now: Time) {
    var joined := before.(workspaceMembers := before.workspaceMembers[(userId, workspaceId) := role]);
    var general := Find(before.channels, ChannelPlace, (workspaceId, "general"));
    if general.Some? && (userId, general.value.id) in before.channelMembers then
      r == Err(500, "Failed to invite user") && after == joined
    else
      r == Ok(201, Invitation(userId, workspaceId, role)) &&
      after == joined.(channelMembers :=
        if general.Some? then before.channelMembers[(userId, general.value.id) := ChannelMembership(ChannelMember, now)]
        else before.channelMembers)
  }

  /** `inviteToWorkspace`. */
  method InviteToWorkspace(db: Db, caller: Id, workspaceId: Id, userEmail: Option<string>, role: Option<string>, now: Time)
    returns (r: Response<Invitation>)
    requires db.Valid()
    modifies db
    ensures db.Valid()
    ensures Invited(old(db.Snapshot()), db.Snapshot(), r, old(db.IsWorkspaceAdmin(caller, workspaceId)), workspaceId,
                    userEmail, role, now)
  {
    if !db.IsWorkspaceAdmin(caller, workspaceId) {
      return Err(403, "Only admins can invite users");
    }
    if userEmail.None? {
      return Err(500, "Failed to invite user");
    }
    var found := Find(db.users, UserEmail, userEmail.value);
    if found.None? {
      return Err(404, "User not found");
    }
    var invited := found.value;
    if (invited.id, workspaceId) in db.workspaceMembers {
      return Err(400, "User is already a member");
    }
    var memberRole := InviteRole(role);
    if memberRole.None? {
      return Err(500, "Failed to invite user");
    }
    assert db.HasUser(invited.id) by {
      var i :| 0 <= i < |db.users| && db.users[i] == invited;
    }
    r := AddInvitedMember(db, invited.id, workspaceId, memberRole.value, now);
  }

  method AddInvitedMember(db: Db, userId: Id, workspaceId: Id, role: WorkspaceRole, now: Time)
    returns (r: Response<Invitation>)
    requires db.Valid()
    requires db.CanAddWorkspaceMember(userId, workspaceId)
    modifies db
    ensures db.Valid()
    ensures MemberAdded(old(db.Snapshot()), db.Snapshot(), r, userId, workspaceId, role, now)
  {
    db.AddWorkspaceMember(userId, workspaceId, role);
    var general := Find(db.channels, ChannelPlace, (workspaceId, "general"));
    if general.Some? {
      assert db.HasChannel(general.value.id) by {
        var i :| 0 <= i < |db.channels| && db.channels[i] == general.value;
      }
      if (userId, general.value.id) in db.channelMembers {
        return Err(500, "Failed to invite user");
      }
      db.AddChannelMember(userId, general.value.id, ChannelMember, now);
    }
    r := Ok(201, Invitation(userId, workspaceId, role));
  }
}
