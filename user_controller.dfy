/** Looking up other users (backend/src/controllers/userController.ts). */
module UserController {
  import opened Common
  import opened Sequences
  import opened Store

  /** The columns both handlers select: never the password hash. */
  datatype PublicUser = PublicUser(
    id: Id, username: string, email: string, firstName: Option<string>, lastName: Option<string>,
    avatar: Option<string>, status: Presence)

  function Public(u: User): PublicUser {
    PublicUser(u.id, u.username, u.email, u.firstName, u.lastName, u.avatar, u.status)
  }

  function PublicAll(users: seq<User>): (r: seq<PublicUser>)
    ensures |r| == |users|
    ensures forall i :: 0 <= i < |users| ==> r[i] == Public(users[i])
  {
    seq(|users|, i requires 0 <= i < |users| => Public(users[i]))
  }

  /** `searchUsers` caps its answer at ten users. */
  const SearchCap: nat := 10

  /** Some name column of the user contains the query, ignoring case. */
  predicate NameMatches(u: User, q: string) {
    ContainsInsensitive(u.username, q) || ContainsInsensitive(u.email, q) ||
    ColumnMatches(u.firstName, q) || ColumnMatches(u.lastName, q)
  }

  predicate UserHit(workspaceMembers: map<(Id, Id), WorkspaceRole>, caller: Id, workspace: Option<Id>, q: string, u: User) {
    NameMatches(u, q) && u.id != caller && (workspace.Some? ==> (u.id, workspace.value) in workspaceMembers)
  }

  /** `searchUsers` (`UserSearchSpec`): other users whose username, e-mail or names contain the
      query, members of the workspace when one is given; the first ten in table
      order. */
  method SearchUsers(db: Db, caller: Id, query: Param, workspaceId: Param) returns (r: Response<seq<PublicUser>>)
    ensures !(query.Single? && query.text != "") ==> r == Err(400, "Search query is required")
    ensures query.Single? && query.text != "" && workspaceId.Repeated? ==> r == Err(500, "Failed to search users")
    ensures r.Ok? <==> query.Single? && query.text != "" && !workspaceId.Repeated?
    ensures r.Ok? ==>
      var workspace := if workspaceId.Single? && workspaceId.text != "" then Some(workspaceId.text) else None;
      r == Ok(200, PublicAll(UserSearch(db.users, db.workspaceMembers, caller, workspace, query.text)))
  {
    if !(query.Single? && query.text != "") {
      return Err(400, "Search query is required");
    }
    var workspace: Option<Id> := None;
    if workspaceId.Repeated? {
      return Err(500, "Failed to search users");
    } else if workspaceId.Single? && workspaceId.text != "" {
      workspace := Some(workspaceId.text);
    }
    r := Ok(200, PublicAll(UserSearch(db.users, db.workspaceMembers, caller, workspace, query.text)));
  }

  /** The users `searchUsers` selects: the first ten matches in table order. */
  function UserSearch(users: seq<User>, workspaceMembers: map<(Id, Id), WorkspaceRole>, caller: Id,
                      workspace: Option<Id>, q: string): seq<User> {
    Take(Filter(users, u => UserHit(workspaceMembers, caller, workspace, q, u)), SearchCap)
  }

  /** At most ten users, each matching the query, none the caller, all members
      of the workspace when one is given; and when fewer than ten come back,
      every matching user is among them. */
  lemma UserSearchSpec(users: seq<User>, workspaceMembers: map<(Id, Id), WorkspaceRole>, caller: Id,
                       workspace: Option<Id>, q: string)
    ensures var hits := UserSearch(users, workspaceMembers, caller, workspace, q);
      |hits| <= SearchCap &&
      (forall u :: u in hits ==>
        u in users && NameMatches(u, q) && u.id != caller && (workspace.Some? ==> (u.id, workspace.value) in workspaceMembers)) &&
      (|hits| < SearchCap ==> forall u :: u in users && UserHit(workspaceMembers, caller, workspace, q, u) ==> u in hits)
  {
    var all := Filter(users, u => UserHit(workspaceMembers, caller, workspace, q, u));
    var hits := Take(all, SearchCap);
    forall u | u in hits
      ensures u in all
    {
      var i :| 0 <= i < |hits| && hits[i] == u;
      assert all[i] == u;
    }
  }

  /** The users with a membership row for the workspace. */
  function MemberOf(workspaceMembers: map<(Id, Id), WorkspaceRole>, workspaceId: Id): User -> bool {
    (u: User) => (u.id, workspaceId) in workspaceMembers
  }

  /** `getUsers`: every member of the workspace, whoever asks. */
  method GetUsers(db: Db, workspaceId: Param) returns (r: Response<seq<PublicUser>>)
    ensures !(workspaceId.Repeated? || (workspaceId.Single? && workspaceId.text != "")) ==>
      r == Err(400, "Workspace ID is required")
    ensures workspaceId.Repeated? ==> r == Err(500, "Failed to fetch users")
    ensures r.Ok? <==> workspaceId.Single? && workspaceId.text != ""
    ensures r.Ok? ==>
      r.status == 200 && workspaceId.Single? &&
      forall p :: p in r.value <==> exists u :: u in db.users && (u.id, workspaceId.text) in db.workspaceMembers && p == Public(u)
    ensures r.Ok? ==> multiset(r.value) == multiset(PublicAll(Filter(db.users, MemberOf(db.workspaceMembers, workspaceId.text))))
  {
    if workspaceId.Missing? || workspaceId == Single("") {
      return Err(400, "Workspace ID is required");
    }
    if workspaceId.Repeated? {
      return Err(500, "Failed to fetch users");
    }
    var members, w := db.workspaceMembers, workspaceId.text;
    var found := Filter(db.users, MemberOf(members, w));
    var out := PublicAll(found);
    forall p | p in out
      ensures exists u :: u in db.users && (u.id, w) in members && p == Public(u)
    {
      var i :| 0 <= i < |out| && out[i] == p;
      assert found[i] in found;
    }
    forall u | u in db.users && (u.id, w) in members
      ensures Public(u) in out
    {
      var i :| 0 <= i < |found| && found[i] == u;
      assert out[i] == Public(u);
    }
    r := Ok(200, out);
  }
}
