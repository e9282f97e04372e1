/**
 * The account serializers: `UserSerializer` (validation of a new user's
 * fields and `create`, which hashes a given password), the two user views
 * a response embeds, and `CustomTokenObtainPairSerializer.validate`, which
 * chooses the workspace a login token is scoped to. Credential checking by
 * the parent serializer is not modelled: `validate` starts from the user it
 * authenticated.
 */
module AuthSerializers {
  import opened Common
  import opened Store
  import opened Tokens
  import opened Fields

  const MaxEmailLength := 254
  const MaxPasswordLength := 128
  const MaxNameLength := 30
  const MaxPhoneLength := 30

  /** The text the `email` value names, both for the serializer and for an `email=` filter. */
  function EmailInput(d: Payload): Option<string>
  {
    if "email" in d then CharInput(d["email"]) else None
  }

  /** `UserSerializer(data=d).is_valid()`: the fields the serializer declares, checked against the store. */
  predicate UserDataValid(db: Store, d: Payload)
  {
    && EmailInput(d).Some? && EmailInput(d).value != ""
    && |EmailInput(d).value| <= MaxEmailLength
    && !EmailTaken(db, EmailInput(d).value)
    && OptionalCharOk(d, "password", MaxPasswordLength)
    && OptionalCharOk(d, "first_name", MaxNameLength)
    && OptionalCharOk(d, "last_name", MaxNameLength)
    && OptionalCharOk(d, "phone", MaxPhoneLength)
    && OptionalBoolOk(d, "is_active")
  }

  /**
   * The row `UserSerializer.create` leaves, as written: the serializer has no
   * `is_staff` field, so an `is_staff` in the data is dropped.
   */
  function CreatedUserAsWritten(d: Payload, id: UserId, hash: string -> string): (u: User)
    requires EmailInput(d).Some?
    ensures u.id == id && u.email == EmailInput(d).value
    ensures !u.isStaff && !u.isSuperuser && u.lastLogin.None?
    ensures CharOrBlank(d, "password") != "" ==> u.password == Hashed(hash(CharOrBlank(d, "password")))
    ensures CharOrBlank(d, "password") == "" ==> u.password == Raw("")
    ensures u.isActive <==> "is_active" in d && d["is_active"] == Bool(true)
  {
    var password := CharOrBlank(d, "password");
    User(id, EmailInput(d).value, CharOrBlank(d, "first_name"), CharOrBlank(d, "last_name"),
         if password != "" then Hashed(hash(password)) else Raw(password),
         BoolOrFalse(d, "is_active"), false, false, CharOrBlank(d, "phone"), None)
  }

  /** The same row with `is_staff` among the serializer's fields, as the sign-up endpoint intends. */
  function CreatedUser(d: Payload, id: UserId, hash: string -> string): (u: User)
    requires EmailInput(d).Some?
    ensures u == CreatedUserAsWritten(d, id, hash).(isStaff := u.isStaff)
    ensures u.isStaff <==> "is_staff" in d && d["is_staff"] == Bool(true)
  {
    CreatedUserAsWritten(d, id, hash).(isStaff := BoolOrFalse(d, "is_staff"))
  }

  /** An `is_staff: True` in the data is lost as written and kept once the field is declared. */
  lemma StaffFlagDroppedAsWritten(d: Payload, id: UserId, hash: string -> string)
    requires EmailInput(d).Some? && "is_staff" in d && d["is_staff"] == Bool(true)
    ensures !CreatedUserAsWritten(d, id, hash).isStaff
    ensures CreatedUser(d, id, hash).isStaff
  {
  }

  datatype SerializerError = InvalidData

  /** `users` with the row of `id` replaced by `row` (a `save()` of an existing instance). */
  function Replaced(users: seq<User>, id: UserId, row: User): seq<User>
  {
    seq(|users|, k requires 0 <= k < |users| => if users[k].id == id then row else users[k])
  }

  /** Replacing a user's row by one with the same id and email keeps every position's id and email. */
  lemma ReplacedSameKeys(users: seq<User>, u: User, row: User)
    requires UniqueUsers(users) && u in users && row.id == u.id && row.email == u.email
    ensures forall k | 0 <= k < |users| ::
      Replaced(users, u.id, row)[k].id == users[k].id && Replaced(users, u.id, row)[k].email == users[k].email
  {
    forall k | 0 <= k < |users|
      ensures Replaced(users, u.id, row)[k].id == users[k].id && Replaced(users, u.id, row)[k].email == users[k].email
    {
      if users[k].id == u.id {
        assert users[k] in users;
      }
    }
  }

  /** Replacing a user's row by one with the same id and email keeps ids and emails unique. */
  lemma ReplacedKeepsUnique(users: seq<User>, u: User, row: User)
    requires UniqueUsers(users) && u in users && row.id == u.id && row.email == u.email
    ensures UniqueUsers(Replaced(users, u.id, row))
  {
    var r := Replaced(users, u.id, row);
    ReplacedSameKeys(users, u, row);
    forall a, b | a in r && b in r && a != b
      ensures a.id != b.id && a.email != b.email
    {
      var i :| 0 <= i < |r| && r[i] == a;
      var j :| 0 <= j < |r| && r[j] == b;
      assert users[i] in users && users[j] in users;
    }
  }

  /** Replacing a user's row by one with the same id keeps the set of user ids. */
  lemma ReplacedKeepsIds(db: Store, u: User, row: User)
    requires UniqueUsers(db.users) && u in db.users && row.id == u.id && row.email == u.email
    ensures UserIds(db.(users := Replaced(db.users, u.id, row))) == UserIds(db)
  {
    var r := Replaced(db.users, u.id, row);
    ReplacedSameKeys(db.users, u, row);
    forall x | x in db.users
      ensures x.id in UserIds(db.(users := r))
    {
      var k :| 0 <= k < |db.users| && db.users[k] == x;
      assert r[k] in r;
    }
    forall x | x in r
      ensures x.id in UserIds(db)
    {
      var k :| 0 <= k < |r| && r[k] == x;
      assert db.users[k] in db.users;
    }
  }

  /**
   * `is_valid(raise_exception=True)` then `save()`: `create` first inserts
   * the row with the password text as given, then, when that text is
   * non-empty, hashes it and saves the row again.
   */
  method CreateUser(db: Database, d: Payload, id: UserId, hash: string -> string) returns (r: Result<User, SerializerError>)
    modifies db
    requires id !in UserIds(db.state)
    ensures r.Ok? <==> UserDataValid(old(db.state), d)
    ensures r.Ok? ==> r.value == CreatedUser(d, id, hash)
    ensures r.Ok? ==> db.state == old(db.state).(users := old(db.state).users + [r.value])
    ensures r.Err? ==> db.state == old(db.state)
  {
    if !UserDataValid(db.state, d) {
      return Err(InvalidData);
    }
    var password := CharOrBlank(d, "password");
    var row := User(id, EmailInput(d).value, CharOrBlank(d, "first_name"), CharOrBlank(d, "last_name"),
                    Raw(password), BoolOrFalse(d, "is_active"), BoolOrFalse(d, "is_staff"), false,
                    CharOrBlank(d, "phone"), None);
    var before := db.state.users;
    db.state := db.state.(users := before + [row]);
    if password != "" {
      row := row.(password := Hashed(hash(password)));
      forall k | 0 <= k < |before| ensures before[k].id != id
      {
        assert before[k] in before;
      }
      db.state := db.state.(users := Replaced(db.state.users, id, row));
      assert db.state.users == before + [row];
    }
    r := Ok(row);
  }

  /** A created user with a fresh id and an unused email keeps the store's constraints. */
  lemma CreateUserKeepsValid(db: Store, d: Payload, id: UserId, hash: string -> string)
    requires Valid(db) && UserDataValid(db, d) && id !in UserIds(db)
    ensures Valid(db.(users := db.users + [CreatedUser(d, id, hash)]))
  {
    AddUserKeepsValid(db, CreatedUser(d, id, hash));
  }

  /** A user as a response embeds it: `UserSerializer` includes the stored password, `_UserSerializer` does not. */
  datatype UserView = UserView(
    id: UserId,
    email: string,
    firstName: string,
    lastName: string,
    phone: string,
    isActive: bool,
    password: Option<Credential>)

  function UserSerializerView(u: User): UserView
  {
    UserView(u.id, u.email, u.firstName, u.lastName, u.phone, u.isActive, Some(u.password))
  }

  function PublicUserView(u: User): UserView
  {
    UserView(u.id, u.email, u.firstName, u.lastName, u.phone, u.isActive, None)
  }

  // ---------------------------------------------------------------------
  // CustomTokenObtainPairSerializer.validate

  datatype LoginError =
    /** NotFound 'Invalid Workspace ID' (404). */
    | InvalidWorkspaceId
    /** PermissionDenied 'User is not allowed to login on this Workspace' (403). */
    | NotAllowedOnWorkspace
    /** NotFound 'Workspace ID is required' (404). */
    | WorkspaceIdRequired

  function LoginErrorStatus(e: LoginError): int
  {
    match e
    case InvalidWorkspaceId => NotFound404
    case NotAllowedOnWorkspace => Forbidden403
    case WorkspaceIdRequired => NotFound404
  }

  /** The response body of a login: the token pair, the user, and the workspace when one was chosen. */
  datatype LoginData = LoginData(tokens: TokenPair, user: UserView, workspace: Option<Workspace>)

  /** What a successful `validate` leaves on the user object, and what it answers. */
  datatype LoginSuccess = LoginSuccess(attr: WorkspaceAttr, data: LoginData)

  /** The login check: a superuser, the owner, or a user with a staff row for the workspace. */
  predicate MayLoginTo(db: Store, u: User, w: Workspace)
  {
    u.isSuperuser || w.owner == Some(u.id) || HasStaffRow(db, w.id, u.id)
  }

  function LoginWith(u: User, attr: WorkspaceAttr, workspace: Option<Workspace>): LoginSuccess
  {
    LoginSuccess(attr, LoginData(PairFor(GetToken(u, attr)), PublicUserView(u), workspace))
  }

  /**
   * The outcome of `validate` for the authenticated user `u` whose object
   * carries `prior`, given the optional `workspace_id` of the login form.
   */
  function LoginOutcome(db: Store, u: User, prior: WorkspaceAttr, supplied: Option<string>): (r: Result<LoginSuccess, LoginError>)
    ensures TruthyId(supplied) && supplied.value !in WorkspaceIds(db) ==> r == Err(InvalidWorkspaceId)
    ensures TruthyId(supplied) && supplied.value in WorkspaceIds(db) ==>
      && (r.Ok? <==> MayLoginTo(db, u, FindWorkspace(db, supplied.value).value))
      && (r.Err? ==> r.error == NotAllowedOnWorkspace)
      && (r.Ok? ==> r.value.attr == Set(supplied) && r.value.data.workspace == FindWorkspace(db, supplied.value))
    ensures !TruthyId(supplied) && !u.isSuperuser ==>
      && ((forall x | x in db.workspaces :: x.owner != Some(u.id)) ==> r == Err(WorkspaceIdRequired))
      && (r.Err? ==> r.error == WorkspaceIdRequired)
      && (r.Ok? <==> TruthyId(DefaultWorkspaceId(db, u)))
      && (r.Ok? ==> r.value.attr == Set(DefaultWorkspaceId(db, u)))
      && (r.Ok? ==> r.value.data.workspace.Some?)
      && (r.Ok? ==> r.value.data.workspace.value.id == DefaultWorkspaceId(db, u).value)
    ensures !TruthyId(supplied) && u.isSuperuser ==>
      r.Ok? && r.value.attr == prior && r.value.data.workspace.None?
    ensures r.Ok? ==> r.value.data.tokens == PairFor(GetToken(u, r.value.attr))
    ensures r.Ok? ==> r.value.data.user == PublicUserView(u) && r.value.data.user.password.None?
  {
    if TruthyId(supplied) then
      match FindWorkspace(db, supplied.value)
      case None => Err(InvalidWorkspaceId)
      case Some(w) =>
        if MayLoginTo(db, u, w) then Ok(LoginWith(u, Set(supplied), Some(w)))
        else Err(NotAllowedOnWorkspace)
    else if !u.isSuperuser then
      var d := DefaultWorkspaceId(db, u);
      if TruthyId(d) then
        var found := FindWorkspace(db, d.value);
        assert found.Some? by {
          var x :| x in db.workspaces && x.id == d.value && x.owner == Some(u.id)
            && forall y | y in db.workspaces && y.owner == Some(u.id) :: x.createdAt <= y.createdAt;
          assert d.value in WorkspaceIds(db);
        }
        Ok(LoginWith(u, Set(d), found))
      else Err(WorkspaceIdRequired)
    else Ok(LoginWith(u, prior, None))
  }

  /** The users after `update_last_login`: the row of `id` gets the login time. */
  function WithLastLogin(users: seq<User>, id: UserId, now: int): seq<User>
  {
    seq(|users|, k requires 0 <= k < |users| =>
      if users[k].id == id then users[k].(lastLogin := Some(now)) else users[k])
  }

  /** Recording the same login time twice leaves the table as recording it once. */
  lemma WithLastLoginTwice(users: seq<User>, id: UserId, now: int)
    ensures WithLastLogin(WithLastLogin(users, id, now), id, now) == WithLastLogin(users, id, now)
  {
    var once := WithLastLogin(users, id, now);
    var twice := WithLastLogin(once, id, now);
    assert |twice| == |once|;
    forall k | 0 <= k < |once| ensures twice[k] == once[k] {
    }
  }

  /**
   * `validate`, on the authenticated user's object. The parent
   * `TokenObtainPairSerializer.validate` it calls first records the login
   * time when `UPDATE_LAST_LOGIN` is set, before any of the workspace
   * checks can refuse; then it may attach a workspace id to the object,
   * answers the login data, and on success records the login time again.
   */
  method Validate(db: Database, user: UserObject, supplied: Option<string>, updateLastLogin: bool, now: int)
      returns (r: Result<LoginData, LoginError>)
    modifies db, user
    ensures var outcome := LoginOutcome(old(db.state), old(user.row), old(user.workspaceAttr), supplied);
      && (r.Ok? <==> outcome.Ok?)
      && (r.Ok? ==> r.value == outcome.value.data && user.workspaceAttr == outcome.value.attr)
      && (r.Err? ==> r.error == outcome.error && user.workspaceAttr == old(user.workspaceAttr))
    ensures updateLastLogin ==>
      && user.row == old(user.row).(lastLogin := Some(now))
      && db.state == old(db.state).(users := WithLastLogin(old(db.state).users, old(user.row).id, now))
    ensures !updateLastLogin ==> user.row == old(user.row) && db.state == old(db.state)
  {
    if updateLastLogin {
      user.row := user.row.(lastLogin := Some(now));
      db.state := db.state.(users := WithLastLogin(db.state.users, user.row.id, now));
    }
    var workspaceId := supplied;
    var workspace: Option<Workspace> := None;
    if TruthyId(workspaceId) {
      var found := FindWorkspace(db.state, workspaceId.value);
      if found.None? {
        return Err(InvalidWorkspaceId);
      }
      workspace := found;
      if !user.row.isSuperuser && found.value.owner != Some(user.row.id)
        && !HasStaffRow(db.state, found.value.id, user.row.id) {
        return Err(NotAllowedOnWorkspace);
      }
      user.workspaceAttr := Set(workspaceId);
    }
    if !user.row.isSuperuser && !TruthyId(workspaceId) {
      workspaceId := DefaultWorkspaceId(db.state, user.row);
      workspace := if workspaceId.Some? then FindWorkspace(db.state, workspaceId.value) else None;
      if !TruthyId(workspaceId) {
        return Err(WorkspaceIdRequired);
      }
      user.workspaceAttr := Set(workspaceId);
    }
    var refresh := GetToken(user.row, user.workspaceAttr);
    var data := LoginData(PairFor(refresh), PublicUserView(user.row), if TruthyId(workspaceId) then workspace else None);
    if updateLastLogin {
      WithLastLoginTwice(old(db.state).users, user.row.id, now);
      user.row := user.row.(lastLogin := Some(now));
      db.state := db.state.(users := WithLastLogin(db.state.users, user.row.id, now));
    }
    r := Ok(data);
  }

  /**
   * Wherever a login scopes its token to a workspace, the token is the one
   * `generate_jwt_token` issues for the same request.
   */
  lemma LoginAgreesWithGenerateJwtToken(db: Store, u: User, prior: WorkspaceAttr, supplied: Option<string>)
    requires LoginOutcome(db, u, prior, supplied).Ok?
    requires TruthyId(supplied) || !u.isSuperuser
    ensures JwtTokens(db, u, supplied) == Ok(LoginOutcome(db, u, prior, supplied).value.data.tokens)
  {
  }
}
