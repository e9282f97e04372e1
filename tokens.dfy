/**
 * Token issuing for a user: the default workspace (`get_default_workspace_id`),
 * the claims a refresh token carries (`get_token`) and `generate_jwt_token`,
 * which attaches a workspace id to the in-memory user object and signs a
 * token pair for it. Signing is left abstract: a token is its claims map.
 */
module Tokens {
  import opened Common
  import opened Store

  /** The earliest-created workspace `u` owns; among equal times, the first in table order. */
  function EarliestOwned(ws: seq<Workspace>, u: UserId): (r: Option<Workspace>)
    ensures r.None? <==> forall x | x in ws :: x.owner != Some(u)
    ensures r.Some? ==> r.value in ws && r.value.owner == Some(u)
    ensures r.Some? ==> forall x | x in ws && x.owner == Some(u) :: r.value.createdAt <= x.createdAt
  {
    if ws == [] then None
    else
      var rest := EarliestOwned(ws[1..], u);
      if ws[0].owner != Some(u) then rest
      else if rest.Some? && rest.value.createdAt < ws[0].createdAt then rest
      else Some(ws[0])
  }

  /**
   * `get_default_workspace_id`: None for a superuser; otherwise the id of the
   * earliest-created workspace the user OWNS (`workspace_set` is the reverse
   * of `Workspace.owner`), or None when it owns none.
   */
  function DefaultWorkspaceId(db: Store, u: User): (r: Option<WorkspaceId>)
    ensures u.isSuperuser ==> r.None?
    ensures !u.isSuperuser ==> (r.None? <==> forall x | x in db.workspaces :: x.owner != Some(u.id))
    ensures r.Some? ==> exists x | x in db.workspaces ::
      && x.id == r.value && x.owner == Some(u.id)
      && forall y | y in db.workspaces && y.owner == Some(u.id) :: x.createdAt <= y.createdAt
  {
    if u.isSuperuser then None
    else
      var w := EarliestOwned(db.workspaces, u.id);
      if w.Some? then Some(w.value.id) else None
  }

  /** Staff memberships play no part in the default workspace. */
  lemma DefaultIgnoresStaff(db: Store, u: User, staff: seq<StaffRow>)
    ensures DefaultWorkspaceId(db.(staff := staff), u) == DefaultWorkspaceId(db, u)
  {
  }

  /** The claim names `get_token` writes. */
  const UserIdClaim := "user_id"
  const WorkspaceIdClaim := "workspace_id"

  /**
   * `CustomTokenObtainPairSerializer.get_token`: the user's claims plus a
   * `workspace_id` claim exactly when the user object carries the attribute,
   * with the attribute's value even when that is None.
   */
  function GetToken(u: User, attr: WorkspaceAttr): (c: Claims)
    ensures Claim(c, UserIdClaim) == Some(u.id)
    ensures WorkspaceIdClaim in c <==> attr.Set?
    ensures attr.Set? ==> c[WorkspaceIdClaim] == attr.value
    ensures c.Keys <= {UserIdClaim, WorkspaceIdClaim}
  {
    var base := map[UserIdClaim := Some(u.id)];
    if attr.Set? then base[WorkspaceIdClaim := attr.value] else base
  }

  /** The `{'refresh': ..., 'access': ...}` pair; the access token copies the refresh token's claims. */
  datatype TokenPair = TokenPair(refresh: Claims, access: Claims)

  function PairFor(c: Claims): TokenPair
  {
    TokenPair(c, c)
  }

  /** `Exception("User doesn't belong to any Workspace")`. */
  datatype TokenError = NoWorkspace

  /**
   * The workspace `generate_jwt_token(workspace_id)` embeds: a truthy explicit
   * id as it is, with no membership check; otherwise the default workspace,
   * and an error when there is none (always the case for a superuser).
   */
  function TokenWorkspace(db: Store, u: User, workspaceId: Option<string>): (r: Result<WorkspaceId, TokenError>)
    ensures TruthyId(workspaceId) ==> r == Ok(workspaceId.value)
    ensures !TruthyId(workspaceId) && u.isSuperuser ==> r == Err(NoWorkspace)
    ensures !TruthyId(workspaceId) && r.Ok? ==>
      r.value != "" && !u.isSuperuser && DefaultWorkspaceId(db, u) == Some(r.value)
    ensures !TruthyId(workspaceId) && (forall x | x in db.workspaces :: x.owner != Some(u.id)) ==>
      r == Err(NoWorkspace)
    ensures !TruthyId(workspaceId) && !u.isSuperuser && TruthyId(DefaultWorkspaceId(db, u)) ==>
      r == Ok(DefaultWorkspaceId(db, u).value)
  {
    if TruthyId(workspaceId) then Ok(workspaceId.value)
    else
      var d := DefaultWorkspaceId(db, u);
      if TruthyId(d) then Ok(d.value) else Err(NoWorkspace)
  }

  /** The token pair `generate_jwt_token(workspace_id)` returns, or its error. */
  function JwtTokens(db: Store, u: User, workspaceId: Option<string>): (r: Result<TokenPair, TokenError>)
    ensures r.Ok? <==> TokenWorkspace(db, u, workspaceId).Ok?
    ensures r.Ok? ==> Claim(r.value.access, WorkspaceIdClaim) == Some(TokenWorkspace(db, u, workspaceId).value)
    ensures r.Ok? ==> Claim(r.value.access, UserIdClaim) == Some(u.id) && r.value.refresh == r.value.access
  {
    match TokenWorkspace(db, u, workspaceId)
    case Ok(w) => Ok(PairFor(GetToken(u, Set(Some(w)))))
    case Err(e) => Err(e)
  }

  /** The user object a request or a login works on: a stored row plus the run-time attribute. */
  class UserObject {
    var row: User
    var workspaceAttr: WorkspaceAttr

    constructor (row: User)
      ensures this.row == row && workspaceAttr == Unset
    {
      this.row := row;
      workspaceAttr := Unset;
    }

    /**
     * `generate_jwt_token`: sets `self.workspace_id` to the argument, replaces
     * it by the default workspace when the argument is falsy, and signs the
     * claims `get_token` reads back from the object.
     */
    method GenerateJwtToken(db: Store, workspaceId: Option<string>) returns (r: Result<TokenPair, TokenError>)
      modifies this
      ensures row == old(row)
      ensures r == JwtTokens(db, row, workspaceId)
      ensures r.Ok? ==> workspaceAttr == Set(Some(TokenWorkspace(db, row, workspaceId).value))
      ensures r.Err? ==> workspaceAttr == Set(workspaceId)
    {
      workspaceAttr := Set(workspaceId);
      if !TruthyId(workspaceId) {
        var defaultId := DefaultWorkspaceId(db, row);
        if !TruthyId(defaultId) {
          return Err(NoWorkspace);
        }
        workspaceAttr := Set(defaultId);
      }
      var refresh := GetToken(row, workspaceAttr);
      r := Ok(PairFor(refresh));
    }
  }

  /** A user who only staffs workspaces, owning none, cannot get a token without an explicit id. */
  lemma StaffOnlyUserHasNoDefault(db: Store, u: User, w: WorkspaceId)
    requires HasStaffRow(db, w, u.id)
    requires forall x | x in db.workspaces :: x.owner != Some(u.id)
    ensures JwtTokens(db, u, None) == Err(NoWorkspace)
    ensures JwtTokens(db, u, Some(w)).Ok? <==> w != ""
  {
  }

  /** The default workspace of a user who owns a single workspace is that workspace. */
  lemma SoleOwnedIsDefault(ws: seq<Workspace>, u: UserId, w: Workspace)
    requires w in ws && w.owner == Some(u)
    requires forall x | x in ws && x.owner == Some(u) :: x == w
    ensures EarliestOwned(ws, u) == Some(w)
  {
  }
}
