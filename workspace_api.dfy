/**
 * `StaffInvitationViewSet.create`: the body's `created_by` defaults to the
 * requesting user, the tenant base class then defaults its `workspace`, and
 * the invitation serializer decides whether the row is stored. A code the
 * client omits is `generate_random_code()` of a fresh UUID.
 */
module InvitationApi {
  import opened Common
  import opened Store
  import opened Codes
  import opened Http
  import opened Gate
  import opened WorkspaceSerializers

  const CreatedByField := "created_by"

  /** The body the serializer sees: `created_by` defaulted first, then `workspace`. */
  function InvitationPayload(data: Payload, attr: WorkspaceAttr, requester: UserId): (d: Payload)
    ensures CreatedByField in d && d[CreatedByField] == if CreatedByField in data then data[CreatedByField] else Str(requester)
    ensures attr.Set? && WorkspaceField !in data ==> WorkspaceField in d && d[WorkspaceField] == IdValue(attr.value)
    ensures attr.Unset? && WorkspaceField !in data ==> WorkspaceField !in d
    ensures forall k | k in data :: k in d && d[k] == data[k]
    ensures d.Keys <= data.Keys + {CreatedByField, WorkspaceField}
  {
    var withCreator := SetDefault(data, CreatedByField, Str(requester));
    if attr.Set? then SetDefault(withCreator, WorkspaceField, IdValue(attr.value)) else withCreator
  }

  datatype CreateError =
    /** A field check failed (400). */
    | InvalidFields
    /** `validate` refused the invitation. */
    | Refused(reason: InvitationError)
    /** The generated code is already a primary key: the insert fails (500). */
    | CodeCollision

  function CreateErrorStatus(e: CreateError): int
  {
    match e
    case InvalidFields => BadRequest400
    case Refused(reason) => InvitationErrorStatus(reason)
    case CodeCollision => ServerError500
  }

  /** The code the row gets: the client's when it sent one, otherwise the generated one. */
  function ChosenCode(attrs: InvitationAttrs, generatedCode: string): string
  {
    if attrs.code.Some? then attrs.code.value else generatedCode
  }

  /**
   * The outcome of the serializer on body `d`: the row to insert, with the
   * client's code or the generated one, or the error.
   */
  function CreateOutcome(db: Store, d: Payload, generatedCode: string, now: int): (r: Result<Invitation, CreateError>)
    ensures r.Ok? ==> InvitationFields(db, d).Some? && ValidateInvitation(db, InvitationFields(db, d).value).Ok?
    ensures r.Ok? ==> exists w | w in db.workspaces ::
      w.id == r.value.workspace && w.owner == r.value.createdBy && !HasStaff(db, w.id)
    ensures r.Ok? ==> r.value.createdBy.Some? ==> r.value.createdBy.value in UserIds(db)
    ensures r.Ok? ==> forall i | i in db.invitations :: i.code != r.value.code
    ensures r.Ok? ==> r.value.createdAt == now && InvitationIsValid(r.value, now)
    ensures InvitationFields(db, d).None? ==> r == Err(InvalidFields)
    ensures InvitationFields(db, d).Some? && ValidateInvitation(db, InvitationFields(db, d).value).Err? ==>
      r == Err(Refused(ValidateInvitation(db, InvitationFields(db, d).value).error))
    ensures r.Ok? ==>
      var attrs := InvitationFields(db, d).value;
      && r.value.code == ChosenCode(attrs, generatedCode) && r.value.email == attrs.email
      && r.value.createdBy == attrs.createdBy && r.value.workspace == attrs.workspace.id
    ensures InvitationFields(db, d).Some? && ValidateInvitation(db, InvitationFields(db, d).value).Ok? ==>
      (r.Ok? <==> forall i | i in db.invitations :: i.code != ChosenCode(InvitationFields(db, d).value, generatedCode))
  {
    match InvitationFields(db, d)
    case None => Err(InvalidFields)
    case Some(attrs) =>
      match ValidateInvitation(db, attrs)
      case Err(e) => Err(Refused(e))
      case Ok(valid) =>
        var code := ChosenCode(valid, generatedCode);
        if exists i | i in db.invitations :: i.code == code then Err(CodeCollision)
        else Ok(Invitation(code, valid.email, valid.createdBy, valid.workspace.id, now))
  }

  /** The create endpoint, on the request and the database. */
  method CreateInvitation(db: Database, request: Request, requester: User, uuidText: string, now: int)
      returns (r: Result<Invitation, CreateError>)
    modifies db, request
    ensures request.workspaceAttr == old(request.workspaceAttr)
    ensures request.data == InvitationPayload(old(request.data), request.workspaceAttr, requester.id)
    ensures r == CreateOutcome(old(db.state), request.data, GenerateRandomCode(uuidText), now)
    ensures r.Ok? ==> db.state == old(db.state).(invitations := old(db.state).invitations + [r.value])
    ensures r.Err? ==> db.state == old(db.state)
  {
    request.data := SetDefault(request.data, CreatedByField, Str(requester.id));
    PrepareCreate(request);
    r := CreateOutcome(db.state, request.data, GenerateRandomCode(uuidText), now);
    if r.Ok? {
      db.state := db.state.(invitations := db.state.invitations + [r.value]);
    }
  }

  /** When the body omits `created_by`, only the workspace's owner can invite (user ids are never empty). */
  lemma OmittedCreatorMustOwn(db: Store, data: Payload, attr: WorkspaceAttr, requester: UserId, generatedCode: string, now: int)
    requires CreatedByField !in data && requester != ""
    requires CreateOutcome(db, InvitationPayload(data, attr, requester), generatedCode, now).Ok?
    ensures var inv := CreateOutcome(db, InvitationPayload(data, attr, requester), generatedCode, now).value;
      inv.createdBy == Some(requester)
      && exists w | w in db.workspaces :: w.id == inv.workspace && w.owner == Some(requester)
  {
  }

  /**
   * A body that names its own `created_by` gets the same answer whoever
   * sends it: the owner check compares the body's creator, not the caller.
   */
  lemma CallerIsNotChecked(db: Store, data: Payload, attr: WorkspaceAttr, caller: UserId, other: UserId,
                           generatedCode: string, now: int)
    requires CreatedByField in data
    ensures CreateOutcome(db, InvitationPayload(data, attr, caller), generatedCode, now)
         == CreateOutcome(db, InvitationPayload(data, attr, other), generatedCode, now)
  {
    var a := InvitationPayload(data, attr, caller);
    var b := InvitationPayload(data, attr, other);
    assert a.Keys == b.Keys;
    assert a == b;
  }

  /** Storing an accepted invitation keeps the store's constraints. */
  lemma CreateKeepsValid(db: Store, d: Payload, generatedCode: string, now: int)
    requires Valid(db)
    requires CreateOutcome(db, d, generatedCode, now).Ok?
    ensures Valid(db.(invitations := db.invitations + [CreateOutcome(db, d, generatedCode, now).value]))
  {
    var inv := CreateOutcome(db, d, generatedCode, now).value;
    var r := db.(invitations := db.invitations + [inv]);
    assert inv.workspace in WorkspaceIds(db);
    forall a, b | a in r.invitations && b in r.invitations && a != b
      ensures a.code != b.code
    {
      if a != inv && b != inv {
        assert a in db.invitations && b in db.invitations;
      }
    }
  }
}
