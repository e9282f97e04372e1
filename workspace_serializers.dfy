/**
 * The workspace serializers: `WorkspaceSerializer` validating the data of a
 * new workspace, and `StaffInvitationSerializer`, whose field checks and
 * `validate` decide whether an invitation may be stored.
 */
module WorkspaceSerializers {
  import opened Common
  import opened Store
  import opened Fields

  const MaxWorkspaceNameLength := 50
  const MaxInvitationEmailLength := 256
  const MaxCodeLength := 32

  /** The text of the `name` value, when the `CharField` accepts it. */
  function NameInput(d: Payload): Option<string>
  {
    if "name" in d then CharInput(d["name"]) else None
  }

  /** The organization type a workspace payload names: absent or null is None. */
  function OrganizationTypeInput(d: Payload): Option<int>
  {
    if "organization_type" in d then KeyInput(d["organization_type"]) else None
  }

  /** `WorkspaceSerializer(data=d).is_valid()` for the fields a new workspace is given. */
  predicate WorkspaceDataValid(db: Store, d: Payload)
  {
    && NameInput(d).Some? && NameInput(d).value != ""
    && |NameInput(d).value| <= MaxWorkspaceNameLength
    && !NameTaken(db, NameInput(d).value)
    && ("organization_type" !in d || d["organization_type"].Null?
        || (OrganizationTypeInput(d).Some? && OrganizationTypeInput(d).value in db.organizationTypes))
  }

  /** The row `WorkspaceSerializer.save()` inserts: no owner yet, created at `now`. */
  function CreatedWorkspace(d: Payload, id: WorkspaceId, now: int): Workspace
    requires NameInput(d).Some?
  {
    Workspace(id, NameInput(d).value, None, OrganizationTypeInput(d), now)
  }

  // ---------------------------------------------------------------------
  // StaffInvitationSerializer

  /** The validated fields of an invitation, with the workspace resolved to its row. */
  datatype InvitationAttrs = InvitationAttrs(
    code: Option<string>,
    email: string,
    createdBy: Option<UserId>,
    workspace: Workspace)

  /** A primary-key value naming a row by its text id; anything else names none. */
  function IdInput(v: Value): Option<string>
  {
    if v.Str? then Some(v.s) else None
  }

  /**
   * The field checks of `StaffInvitationSerializer`: an optional code that
   * no invitation uses yet, a non-empty email, an optional (nullable)
   * existing creator and a required existing workspace. A related field
   * reads an empty string as null, so `created_by: ""` is no creator. None
   * stands for a `ValidationError` (400).
   */
  function InvitationFields(db: Store, d: Payload): (r: Option<InvitationAttrs>)
    ensures r.Some? ==> r.value.workspace in db.workspaces
    ensures r.Some? ==> r.value.createdBy.Some? ==> r.value.createdBy.value in UserIds(db)
    ensures r.Some? ==> "workspace" in d && d["workspace"] == Str(r.value.workspace.id)
    ensures r.Some? && "created_by" in d && d["created_by"].Str? && d["created_by"].s != "" ==>
      r.value.createdBy == Some(d["created_by"].s)
    ensures r.Some? && "created_by" in d && (d["created_by"] == Null || d["created_by"] == Str("")) ==>
      r.value.createdBy == None
    ensures r.Some? ==> "email" in d && CharInput(d["email"]) == Some(r.value.email) && r.value.email != ""
    ensures r.Some? ==> r.value.code == (if "code" in d then CharInput(d["code"]) else None)
  {
    var codeOk := "code" !in d || (CharInput(d["code"]).Some? && CharInput(d["code"]).value != ""
                    && |CharInput(d["code"]).value| <= MaxCodeLength
                    && forall i | i in db.invitations :: i.code != CharInput(d["code"]).value);
    var email := if "email" in d then CharInput(d["email"]) else None;
    var creatorNull := "created_by" !in d || d["created_by"] == Null || d["created_by"] == Str("");
    var creator := if !creatorNull && d["created_by"].Str? then FindUser(db, d["created_by"].s) else None;
    var creatorOk := creatorNull || creator.Some?;
    var workspace := if "workspace" in d && d["workspace"].Str? then FindWorkspace(db, d["workspace"].s) else None;
    if codeOk && email.Some? && email.value != "" && |email.value| <= MaxInvitationEmailLength
       && creatorOk && workspace.Some? then
      Some(InvitationAttrs(
        if "code" in d then CharInput(d["code"]) else None,
        email.value,
        if creator.Some? then Some(creator.value.id) else None,
        workspace.value))
    else None
  }

  datatype InvitationError =
    /** ValidationError 'Only Workspace owners can invite Staff' (400). */
    | NotOwner
    /** `workspace.workspace_staff.fitler(...)`: an AttributeError nothing catches (500). */
    | StaffAccessorTypo

  function InvitationErrorStatus(e: InvitationError): int
  {
    if e.NotOwner? then BadRequest400 else ServerError500
  }

  /** The workspace already has its (single) staff row. */
  predicate HasStaff(db: Store, w: WorkspaceId)
  {
    exists s | s in db.staff :: s.workspace == w
  }

  /**
   * `StaffInvitationSerializer.validate`: the creator must be the workspace
   * owner (a missing creator matches a missing owner); reading the reverse
   * one-to-one `workspace_staff` raises ObjectDoesNotExist, which is caught,
   * when the workspace has no staff row, and otherwise reaches the
   * misspelt `fitler`, which raises.
   */
  function ValidateInvitation(db: Store, attrs: InvitationAttrs): (r: Result<InvitationAttrs, InvitationError>)
    ensures attrs.createdBy != attrs.workspace.owner ==> r == Err(NotOwner)
    ensures attrs.createdBy == attrs.workspace.owner && HasStaff(db, attrs.workspace.id) ==> r == Err(StaffAccessorTypo)
    ensures r.Ok? <==> attrs.createdBy == attrs.workspace.owner && !HasStaff(db, attrs.workspace.id)
    ensures r.Ok? ==> r.value == attrs
  {
    if attrs.createdBy != attrs.workspace.owner then Err(NotOwner)
    else if HasStaff(db, attrs.workspace.id) then Err(StaffAccessorTypo)
    else Ok(attrs)
  }
}
