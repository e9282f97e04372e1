/**
 * The views about the caller's own account and workspaces:
 * `switch_workspace`, the permission rule of `UserViewSet.update` and
 * `UserWorkspacesListView`.
 */
module AccountApi {
  import opened Common
  import opened Seqs
  import opened Store
  import opened Tokens
  import opened AuthSerializers
  import opened WorkspaceSerializers
  import opened Gate
  import opened Endpoints

  const SwitchFields := ["workspace_id"]

  // ---------------------------------------------------------------------
  // switch_workspace

  datatype SwitchError =
    | SwitchMissing(fields: seq<string>)
    /** NotFound "Workspace not found or the user doesn't belongs to it" (404). */
    | WorkspaceNotFound
    /** The endpoint allows anonymous callers, whose lookup raises (500). */
    | AnonymousCaller

  datatype SwitchData = SwitchData(tokens: TokenPair, user: UserView, workspace: Workspace)

  /** `switch_workspace` for the caller `caller` (None when anonymous). */
  function SwitchWorkspace(db: Store, caller: Option<User>, data: Payload): (r: Result<SwitchData, SwitchError>)
    ensures MissingOf(data, SwitchFields) != [] ==> r == Err(SwitchMissing(MissingOf(data, SwitchFields)))
    ensures MissingOf(data, SwitchFields) == [] && caller.None? ==> r == Err(AnonymousCaller)
    ensures caller.Some? && "workspace_id" in data && data["workspace_id"].Str? && data["workspace_id"].s != "" ==>
      (r.Ok? <==> IsMember(db, data["workspace_id"].s, caller.value.id))
    ensures r.Ok? ==>
      && caller.Some? && "workspace_id" in data && data["workspace_id"] == Str(r.value.workspace.id)
      && r.value.workspace in db.workspaces && OwnsOrStaffs(db, r.value.workspace, caller.value.id)
      && JwtTokens(db, caller.value, Some(r.value.workspace.id)) == Ok(r.value.tokens)
      && Claim(r.value.tokens.access, WorkspaceIdClaim) == Some(r.value.workspace.id)
      && r.value.user == UserSerializerView(caller.value)
  {
    var missing := MissingOf(data, SwitchFields);
    if missing != [] then Err(SwitchMissing(missing))
    else if caller.None? then Err(AnonymousCaller)
    else
      assert "workspace_id" in SwitchFields;
      var requested := IdInput(data["workspace_id"]);
      if requested.None? then Err(WorkspaceNotFound)
      else match MemberWorkspace(db, requested.value, caller.value.id)
        case None => Err(WorkspaceNotFound)
        case Some(w) =>
          var tokens := JwtTokens(db, caller.value, Some(w.id));
          Ok(SwitchData(tokens.value, UserSerializerView(caller.value), w))
  }

  /** `switch_workspace` on the caller's user object, which `generate_jwt_token` scopes to the new workspace. */
  method SwitchWorkspaceEndpoint(db: Store, caller: UserObject, data: Payload) returns (r: Result<SwitchData, SwitchError>)
    modifies caller
    ensures caller.row == old(caller.row)
    ensures r == SwitchWorkspace(db, Some(caller.row), data)
    ensures r.Ok? ==> caller.workspaceAttr == Set(Some(r.value.workspace.id))
    ensures r.Err? ==> caller.workspaceAttr == old(caller.workspaceAttr)
  {
    var missing := CollectMissing(data, SwitchFields);
    if |missing| > 0 {
      return Err(SwitchMissing(missing));
    }
    assert "workspace_id" in SwitchFields;
    var requested := IdInput(data["workspace_id"]);
    var found := if requested.Some? then MemberWorkspace(db, requested.value, caller.row.id) else None;
    if found.None? {
      return Err(WorkspaceNotFound);
    }
    var tokens := caller.GenerateJwtToken(db, Some(found.value.id));
    r := Ok(SwitchData(tokens.value, UserSerializerView(caller.row), found.value));
  }

  /** A staff member of `w` may switch to it although it owns nothing there. */
  lemma StaffMaySwitch(db: Store, u: User, x: Workspace)
    requires x in db.workspaces && x.id != "" && HasStaffRow(db, x.id, u.id)
    ensures SwitchWorkspace(db, Some(u), map["workspace_id" := Str(x.id)]).Ok?
    ensures Claim(SwitchWorkspace(db, Some(u), map["workspace_id" := Str(x.id)]).value.tokens.access, WorkspaceIdClaim)
         == Some(x.id)
  {
    assert IsMember(db, x.id, u.id);
  }

  function SwitchErrorStatus(e: SwitchError): int
  {
    match e
    case SwitchMissing(_) => BadRequest400
    case WorkspaceNotFound => NotFound404
    case AnonymousCaller => ServerError500
  }

  // ---------------------------------------------------------------------
  // UserViewSet.update

  datatype UpdateError =
    /** PermissionDenied "Request's User is not a staff member" (403). */
    | RequesterNotStaff
    /** PermissionDenied "User doesn't belongs to the Workspace" (403). */
    | TargetNotInWorkspace

  /** `instance.workspace_set.filter(id=workspace_id).exists()`: the target OWNS the named workspace. */
  predicate OwnsNamedWorkspace(db: Store, target: UserId, workspace: Value)
  {
    workspace.Str? && exists x | x in db.workspaces :: x.id == workspace.s && x.owner == Some(target)
  }

  /**
   * The permission rule `UserViewSet.update` applies before it saves: a
   * superuser may update anyone, a user itself; any other requester must be
   * staff, and the target must own the workspace named in the body. Whether
   * the requester belongs to that workspace is not asked.
   */
  function UpdatePermission(db: Store, requester: User, target: User, data: Payload): (r: Result<(), UpdateError>)
    ensures r.Ok? <==>
      requester.isSuperuser || requester.id == target.id
      || (requester.isStaff && OwnsNamedWorkspace(db, target.id, Get(data, "workspace")))
    ensures r == Err(RequesterNotStaff) <==> !requester.isSuperuser && requester.id != target.id && !requester.isStaff
  {
    if requester.isSuperuser || requester.id == target.id then Ok(())
    else if !requester.isStaff then Err(RequesterNotStaff)
    else if !OwnsNamedWorkspace(db, target.id, Get(data, "workspace")) then Err(TargetNotInWorkspace)
    else Ok(())
  }

  /**
   * A staff requester with no tie to a workspace may update any user who
   * owns it, by naming it in the body.
   */
  lemma StaffNeedNotBelong(db: Store, requester: User, target: User, x: Workspace)
    requires x in db.workspaces && x.owner == Some(target.id) && requester.id != target.id
    requires requester.isStaff && !requester.isSuperuser
    requires !IsMember(db, x.id, requester.id)
    ensures UpdatePermission(db, requester, target, map["workspace" := Str(x.id)]).Ok?
  {
    assert Get(map["workspace" := Str(x.id)], "workspace") == Str(x.id);
  }

  /** A workspace the target only staffs does not let anyone else update the target. */
  lemma StaffedWorkspaceDoesNotCount(db: Store, requester: User, target: User, x: Workspace)
    requires UniqueWorkspaces(db.workspaces)
    requires x in db.workspaces && x.owner != Some(target.id) && HasStaffRow(db, x.id, target.id)
    requires requester.id != target.id && !requester.isSuperuser
    ensures UpdatePermission(db, requester, target, map["workspace" := Str(x.id)]).Err?
  {
    var d := map["workspace" := Str(x.id)];
    assert Get(d, "workspace") == Str(x.id);
  }

  // ---------------------------------------------------------------------
  // UserWorkspacesListView

  /**
   * `get_queryset`: the workspaces the caller owns or staffs, in table order.
   * A workspace has at most one staff row, so the join lists none twice.
   */
  function UserWorkspaces(db: Store, u: UserId): (r: seq<Workspace>)
    ensures forall x | x in r :: x in db.workspaces && OwnsOrStaffs(db, x, u)
    ensures forall x | x in db.workspaces && OwnsOrStaffs(db, x, u) :: x in r
  {
    Where(db.workspaces, (x: Workspace) => OwnsOrStaffs(db, x, u))
  }

  /** Every listed workspace is one the caller may switch to, and the switch names that very workspace. */
  lemma ListedWorkspacesAreSwitchable(db: Store, u: User, x: Workspace)
    requires Valid(db) && x in UserWorkspaces(db, u.id)
    ensures var r := SwitchWorkspace(db, Some(u), map["workspace_id" := Str(x.id)]);
      r.Ok? && r.value.workspace == x
  {
    var data := map["workspace_id" := Str(x.id)];
    assert Get(data, "workspace_id") == Str(x.id);
    assert IsMember(db, x.id, u.id);
    var w := MemberWorkspace(db, x.id, u.id).value;
    assert w == x;
  }

  /** Every listed workspace passes the query gate for a token scoped to it. */
  lemma ListedWorkspacesPassGate<T>(db: Store, u: User, x: Workspace, rows: seq<T>, wsOf: T -> WorkspaceId)
    requires Valid(db) && x in UserWorkspaces(db, u.id)
    ensures GetQueryset(rows, wsOf, db, u, Set(Some(x.id))).Ok?
  {
    assert IsMember(db, x.id, u.id);
  }
}
