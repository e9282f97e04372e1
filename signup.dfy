/**
 * `sign_up` and `social_sign_up`: required fields, duplicate checks, then a
 * user and the workspace it owns created all or nothing, and a token pair
 * scoped to that workspace.
 */
module SignUpApi {
  import opened Common
  import opened Seqs
  import opened Store
  import opened Tokens
  import opened Fields
  import opened AuthSerializers
  import opened WorkspaceSerializers
  import opened OAuth
  import opened Endpoints

  // ---------------------------------------------------------------------
  // sign_up and social_sign_up

  /** The required fields of each view. */
  const SignUpFields := ["email", "password", "workspace_name", "organization_type"]
  const SocialSignUpFields := ["first_name", "last_name", "email", "workspace_name",
                               "organization_type", "phone_number", "social_provider", "social_token"]

  datatype SignUpError =
    | MissingRequired(fields: seq<string>)
    | EmailInUse
    | WorkspaceNameInUse
    /** The user serializer refused its data (ValidationError, 400). */
    | InvalidUserData
    /** The workspace serializer refused its data (ValidationError, 400). */
    | InvalidWorkspaceData
    /** Google verification or the issuer check raised (500). */
    | GoogleRefused(reason: ClaimsError)
    /** `set_password` was given a value that is not text (TypeError, 500). */
    | PasswordNotText
    /** `generate_jwt_token` raised after the transaction committed (500). */
    | TokenNotIssued

  function SignUpErrorStatus(e: SignUpError): int
  {
    if e.GoogleRefused? || e.PasswordNotText? || e.TokenNotIssued? then ServerError500 else BadRequest400
  }

  /** The 201 body: the token pair and `UserSerializer`'s view of the new user. */
  datatype SignUpData = SignUpData(tokens: TokenPair, user: UserView)

  /** `User.objects.filter(email=v).exists()`: a value no `CharField` reads matches no row. */
  predicate EmailInUseBy(db: Store, v: Value)
  {
    CharInput(v).Some? && EmailTaken(db, CharInput(v).value)
  }

  predicate NameInUseBy(db: Store, v: Value)
  {
    CharInput(v).Some? && NameTaken(db, CharInput(v).value)
  }

  /** The `user_data` of `sign_up`. */
  function SignUpUserData(data: Payload): Payload
  {
    map["email" := Get(data, "email"),
        "password" := if "password" in data then data["password"] else Str(""),
        "is_active" := Bool(true),
        "is_staff" := Bool(true)]
  }

  /** The `workspace_data` of both sign-up endpoints. */
  function SignUpWorkspaceData(data: Payload): Payload
  {
    map["name" := Get(data, "workspace_name"), "organization_type" := Get(data, "organization_type")]
  }

  /** The store after the new workspace of `user` has been saved and given its owner. */
  function WithOwnedWorkspace(db: Store, user: User, wsData: Payload, workspaceId: WorkspaceId, now: int): (r: Store)
    requires NameInput(wsData).Some?
    ensures r == db.(workspaces := db.workspaces + [CreatedWorkspace(wsData, workspaceId, now).(owner := Some(user.id))])
  {
    db.(workspaces := db.workspaces + [CreatedWorkspace(wsData, workspaceId, now).(owner := Some(user.id))])
  }

  /** The transaction's workspace half and the token issued after it, for a user already saved in `db1`. */
  function FinishSignUp(db: Store, db1: Store, user: User, wsData: Payload, workspaceId: WorkspaceId, now: int)
      : (r: Outcome<SignUpData, SignUpError>)
    ensures !WorkspaceDataValid(db1, wsData) ==> r == Outcome(db, Err(InvalidWorkspaceData))
    ensures WorkspaceDataValid(db1, wsData) ==> r.store == WithOwnedWorkspace(db1, user, wsData, workspaceId, now)
    ensures r.response.Ok? ==> JwtTokens(r.store, user, None) == Ok(r.response.value.tokens)
    ensures r.response.Ok? ==> r.response.value.user == UserSerializerView(user)
  {
    if !WorkspaceDataValid(db1, wsData) then Outcome(db, Err(InvalidWorkspaceData))
    else
      var db2 := WithOwnedWorkspace(db1, user, wsData, workspaceId, now);
      match JwtTokens(db2, user, None)
      case Err(_) => Outcome(db2, Err(TokenNotIssued))
      case Ok(tokens) => Outcome(db2, Ok(SignUpData(tokens, UserSerializerView(user))))
  }

  /** `sign_up`, with the fresh ids, the time and the password hasher as inputs. */
  function SignUp(db: Store, data: Payload, userId: UserId, workspaceId: WorkspaceId, now: int, hash: string -> string)
      : (r: Outcome<SignUpData, SignUpError>)
    ensures MissingOf(data, SignUpFields) != [] ==> r == Outcome(db, Err(MissingRequired(MissingOf(data, SignUpFields))))
    ensures MissingOf(data, SignUpFields) == [] && EmailInUseBy(db, Get(data, "email")) ==> r == Outcome(db, Err(EmailInUse))
    ensures (MissingOf(data, SignUpFields) == [] && !EmailInUseBy(db, Get(data, "email"))
             && NameInUseBy(db, Get(data, "workspace_name"))) ==> r == Outcome(db, Err(WorkspaceNameInUse))
    ensures r.response.Err? && !r.response.error.TokenNotIssued? ==> r.store == db
    ensures r.response.Ok? || r.response == Err(TokenNotIssued) ==>
      && UserDataValid(db, SignUpUserData(data))
      && var user := CreatedUser(SignUpUserData(data), userId, hash);
      && WorkspaceDataValid(db.(users := db.users + [user]), SignUpWorkspaceData(data))
      && r.store == WithOwnedWorkspace(db.(users := db.users + [user]), user, SignUpWorkspaceData(data), workspaceId, now)
    ensures r.response.Ok? ==>
      var user := CreatedUser(SignUpUserData(data), userId, hash);
      JwtTokens(r.store, user, None) == Ok(r.response.value.tokens) && r.response.value.user == UserSerializerView(user)
  {
    var missing := MissingOf(data, SignUpFields);
    if missing != [] then Outcome(db, Err(MissingRequired(missing)))
    else if EmailInUseBy(db, Get(data, "email")) then Outcome(db, Err(EmailInUse))
    else if NameInUseBy(db, Get(data, "workspace_name")) then Outcome(db, Err(WorkspaceNameInUse))
    else
      var userData := SignUpUserData(data);
      if !UserDataValid(db, userData) then Outcome(db, Err(InvalidUserData))
      else
        var user := CreatedUser(userData, userId, hash);
        FinishSignUp(db, db.(users := db.users + [user]), user, SignUpWorkspaceData(data), workspaceId, now)
  }

  /** `sign_up` on the database: the checks, then the transaction, rolled back on any error inside it. */
  method SignUpEndpoint(db: Database, data: Payload, userId: UserId, workspaceId: WorkspaceId, now: int, hash: string -> string)
      returns (response: Result<SignUpData, SignUpError>)
    modifies db
    requires userId !in UserIds(db.state)
    ensures db.state == SignUp(old(db.state), data, userId, workspaceId, now, hash).store
    ensures response == SignUp(old(db.state), data, userId, workspaceId, now, hash).response
  {
    var missing := CollectMissing(data, SignUpFields);
    if |missing| > 0 {
      return Err(MissingRequired(missing));
    }
    if EmailInUseBy(db.state, Get(data, "email")) {
      return Err(EmailInUse);
    }
    if NameInUseBy(db.state, Get(data, "workspace_name")) {
      return Err(WorkspaceNameInUse);
    }
    var userData := SignUpUserData(data);
    var workspaceData := SignUpWorkspaceData(data);
    // transaction.atomic()
    var savepoint := db.state;
    var created := CreateUser(db, userData, userId, hash);
    if created.Err? {
      db.state := savepoint;
      return Err(InvalidUserData);
    }
    response := SaveOwnedWorkspace(db, savepoint, created.value, workspaceData, workspaceId, now);
  }

  /**
   * The rest of either sign-up once its user row is saved: the workspace is
   * created, then given its owner, all inside the transaction begun at
   * `savepoint`; then the token is issued for the new user.
   */
  method SaveOwnedWorkspace(db: Database, savepoint: Store, user: User, wsData: Payload, workspaceId: WorkspaceId, now: int)
      returns (response: Result<SignUpData, SignUpError>)
    modifies db
    requires db.state == savepoint.(users := savepoint.users + [user])
    ensures db.state == FinishSignUp(savepoint, old(db.state), user, wsData, workspaceId, now).store
    ensures response == FinishSignUp(savepoint, old(db.state), user, wsData, workspaceId, now).response
  {
    if !WorkspaceDataValid(db.state, wsData) {
      db.state := savepoint;
      return Err(InvalidWorkspaceData);
    }
    var workspace := CreatedWorkspace(wsData, workspaceId, now);
    var withoutWorkspace := db.state.workspaces;
    db.state := db.state.(workspaces := withoutWorkspace + [workspace]);
    workspace := workspace.(owner := Some(user.id));
    db.state := db.state.(workspaces := withoutWorkspace + [workspace]);
    // end of the transaction
    var userObject := new UserObject(user);
    var tokens := userObject.GenerateJwtToken(db.state, None);
    if tokens.Err? {
      return Err(TokenNotIssued);
    }
    response := Ok(SignUpData(tokens.value, UserSerializerView(user)));
  }

  /** The ids a successful sign-up is given are unused (uuid4), and the workspace id is not empty. */
  predicate FreshIds(db: Store, userId: UserId, workspaceId: WorkspaceId)
  {
    userId !in UserIds(db) && workspaceId !in WorkspaceIds(db) && workspaceId != ""
  }

  /** Every successful or token-failing sign-up keeps the store's constraints. */
  lemma SignUpKeepsValid(db: Store, data: Payload, userId: UserId, workspaceId: WorkspaceId, now: int, hash: string -> string)
    requires Valid(db) && FreshIds(db, userId, workspaceId)
    ensures Valid(SignUp(db, data, userId, workspaceId, now, hash).store)
  {
    var r := SignUp(db, data, userId, workspaceId, now, hash);
    if r.store != db {
      var userData := SignUpUserData(data);
      var user := CreatedUser(userData, userId, hash);
      var db1 := db.(users := db.users + [user]);
      CreateUserKeepsValid(db, userData, userId, hash);
      NewOwnedWorkspaceKeepsValid(db1, user, SignUpWorkspaceData(data), workspaceId, now);
    }
  }

  lemma SocialSignUpKeepsValid(db: Store, data: Payload, verify: Value -> Option<GoogleClaims>, userId: UserId,
                               workspaceId: WorkspaceId, now: int, hash: string -> string)
    requires Valid(db) && FreshIds(db, userId, workspaceId)
    ensures Valid(SocialSignUp(db, data, verify, userId, workspaceId, now, hash).store)
  {
    var r := SocialSignUp(db, data, verify, userId, workspaceId, now, hash);
    if r.store != db {
      var user := SocialUser(db, Get(data, "social_token"), Get(data, "password"), Get(data, "phone_number"),
                             verify, userId, hash).value;
      AddUserKeepsValid(db, user);
      NewOwnedWorkspaceKeepsValid(db.(users := db.users + [user]), user, SignUpWorkspaceData(data), workspaceId, now);
    }
  }

  lemma NewOwnedWorkspaceKeepsValid(db1: Store, user: User, wsData: Payload, workspaceId: WorkspaceId, now: int)
    requires Valid(db1) && user in db1.users && workspaceId !in WorkspaceIds(db1) && workspaceId != ""
    requires WorkspaceDataValid(db1, wsData)
    ensures Valid(WithOwnedWorkspace(db1, user, wsData, workspaceId, now))
  {
    var w := CreatedWorkspace(wsData, workspaceId, now).(owner := Some(user.id));
    var r := WithOwnedWorkspace(db1, user, wsData, workspaceId, now);
    assert WorkspaceIds(r) == WorkspaceIds(db1) + {workspaceId};
    forall a, b | a in r.workspaces && b in r.workspaces && a != b
      ensures a.id != b.id && a.name != b.name
    {
      if a == w || b == w {
        var other := if a == w then b else a;
        assert other in db1.workspaces;
      }
    }
  }

  /** The rows a sign-up that reached its commit added: the new user and the workspace it owns. */
  lemma SignedUpRows(db: Store, data: Payload, userId: UserId, workspaceId: WorkspaceId, now: int, hash: string -> string)
      returns (user: User, w: Workspace)
    requires Valid(db) && FreshIds(db, userId, workspaceId)
    requires SignUp(db, data, userId, workspaceId, now, hash).response.Ok?
          || SignUp(db, data, userId, workspaceId, now, hash).response == Err(TokenNotIssued)
    ensures var r := SignUp(db, data, userId, workspaceId, now, hash);
      && r.store.users == db.users + [user] && r.store.workspaces == db.workspaces + [w]
      && user == CreatedUser(SignUpUserData(data), userId, hash)
      && user.id == userId && user.isActive && user.isStaff && !user.isSuperuser
      && w.id == workspaceId && w.owner == Some(userId)
  {
    user := CreatedUser(SignUpUserData(data), userId, hash);
    w := CreatedWorkspace(SignUpWorkspaceData(data), workspaceId, now).(owner := Some(userId));
    var r := SignUp(db, data, userId, workspaceId, now, hash);
    assert r.store == WithOwnedWorkspace(db.(users := db.users + [user]), user, SignUpWorkspaceData(data), workspaceId, now);
    assert SignUpUserData(data)["is_staff"] == Bool(true) && SignUpUserData(data)["is_active"] == Bool(true);
  }

  /** A user that owned nothing and is given one workspace has that workspace as its default. */
  lemma NewOwnerDefault(ws: seq<Workspace>, user: User, w: Workspace)
    requires forall x | x in ws :: x.owner != Some(user.id)
    requires w.owner == Some(user.id) && !user.isSuperuser
    ensures DefaultWorkspaceId(Store([], ws + [w], [], [], [], [], {}, [], [], [], [], []), user) == Some(w.id)
  {
    SoleOwnedIsDefault(ws + [w], user.id, w);
  }

  /**
   * The token at the end of a sign-up: a user who owned nothing before owns
   * exactly the new workspace, so `generate_jwt_token()` finds it as the
   * default and scopes the token to it.
   */
  lemma FinishSignUpScopesToken(db: Store, db1: Store, user: User, wsData: Payload, workspaceId: WorkspaceId, now: int)
    requires !user.isSuperuser && workspaceId != ""
    requires forall x | x in db1.workspaces :: x.owner != Some(user.id)
    ensures var r := FinishSignUp(db, db1, user, wsData, workspaceId, now);
      && r.response != Err(TokenNotIssued)
      && (r.response.Ok? ==> Claim(r.response.value.tokens.access, WorkspaceIdClaim) == Some(workspaceId))
  {
    if WorkspaceDataValid(db1, wsData) {
      var w := CreatedWorkspace(wsData, workspaceId, now).(owner := Some(user.id));
      var db2 := WithOwnedWorkspace(db1, user, wsData, workspaceId, now);
      NewOwnerDefault(db1.workspaces, user, w);
      DefaultDependsOnWorkspaces(db2, user);
    }
  }

  /** Sign-up never fails after committing: with fresh ids the new owner always has a default workspace. */
  lemma SignUpTokenNeverFails(db: Store, data: Payload, userId: UserId, workspaceId: WorkspaceId, now: int, hash: string -> string)
    requires Valid(db) && FreshIds(db, userId, workspaceId)
    ensures SignUp(db, data, userId, workspaceId, now, hash).response != Err(TokenNotIssued)
  {
    var userData := SignUpUserData(data);
    if UserDataValid(db, userData) {
      var user := CreatedUser(userData, userId, hash);
      FinishSignUpScopesToken(db, db.(users := db.users + [user]), user, SignUpWorkspaceData(data), workspaceId, now);
    }
  }

  /** The default workspace depends on the workspace table only. */
  lemma DefaultDependsOnWorkspaces(db: Store, u: User)
    ensures DefaultWorkspaceId(db, u) == DefaultWorkspaceId(Store([], db.workspaces, [], [], [], [], {}, [], [], [], [], []), u)
  {
  }

  /**
   * A sign-up that commits answers 201 with a token scoped to the new
   * workspace, which the new user owns, and that user is active and staff.
   */
  lemma SignUpTokenScopesNewWorkspace(db: Store, data: Payload, userId: UserId, workspaceId: WorkspaceId, now: int,
                                      hash: string -> string)
    requires Valid(db) && FreshIds(db, userId, workspaceId)
    ensures var r := SignUp(db, data, userId, workspaceId, now, hash);
      r.response.Ok? ==>
        && Claim(r.response.value.tokens.access, WorkspaceIdClaim) == Some(workspaceId)
        && IsMember(r.store, workspaceId, userId)
        && exists u | u in r.store.users :: u.id == userId && u.isActive && u.isStaff
  {
    var r := SignUp(db, data, userId, workspaceId, now, hash);
    if r.response.Ok? {
      var user, w := SignedUpRows(db, data, userId, workspaceId, now, hash);
      FinishSignUpScopesToken(db, db.(users := db.users + [user]), user, SignUpWorkspaceData(data), workspaceId, now);
      assert w in r.store.workspaces && user in r.store.users;
    }
  }

  /** The social sign-up token is never refused, and names the new workspace. */
  lemma SocialSignUpTokenScopesNewWorkspace(db: Store, data: Payload, verify: Value -> Option<GoogleClaims>,
                                            userId: UserId, workspaceId: WorkspaceId, now: int, hash: string -> string)
    requires Valid(db) && FreshIds(db, userId, workspaceId)
    ensures var r := SocialSignUp(db, data, verify, userId, workspaceId, now, hash);
      && r.response != Err(TokenNotIssued)
      && (r.response.Ok? ==> Claim(r.response.value.tokens.access, WorkspaceIdClaim) == Some(workspaceId))
  {
    if MissingOf(data, SocialSignUpFields) == [] && !EmailInUseBy(db, Get(data, "email"))
       && !NameInUseBy(db, Get(data, "workspace_name")) {
      var user := SocialUser(db, Get(data, "social_token"), Get(data, "password"), Get(data, "phone_number"),
                             verify, userId, hash);
      assert SocialSignUp(db, data, verify, userId, workspaceId, now, hash)
          == SignUpTransaction(db, user, SignUpWorkspaceData(data), workspaceId, now);
      if user.Ok? {
        FinishSignUpScopesToken(db, db.(users := db.users + [user.value]), user.value, SignUpWorkspaceData(data),
                                workspaceId, now);
      }
    }
  }

  /** The password `social_sign_up` sets after the user is created: none, a hash of the text, or a TypeError. */
  function SocialPassword(user: User, password: Value, hash: string -> string): Result<User, SignUpError>
  {
    if !Truthy(password) then Ok(user)
    else if password.Str? then Ok(user.(password := Hashed(hash(password.s))))
    else Err(PasswordNotText)
  }

  /** The transaction of a sign-up whose user row `user` has been built, or refused with a rollback. */
  function SignUpTransaction(db: Store, user: Result<User, SignUpError>, wsData: Payload, workspaceId: WorkspaceId,
                             now: int): (r: Outcome<SignUpData, SignUpError>)
    requires user.Err? ==> user.error != TokenNotIssued
    ensures user.Err? ==> r == Outcome(db, Err(user.error))
    ensures r.response.Err? && r.response.error != TokenNotIssued ==> r.store == db
    ensures r.response.Ok? || r.response == Err(TokenNotIssued) ==>
      && user.Ok? && WorkspaceDataValid(db.(users := db.users + [user.value]), wsData)
      && r.store == WithOwnedWorkspace(db.(users := db.users + [user.value]), user.value, wsData, workspaceId, now)
      && (r.response.Ok? ==> JwtTokens(r.store, user.value, None) == Ok(r.response.value.tokens))
  {
    match user
    case Err(e) => Outcome(db, Err(e))
    case Ok(u) => FinishSignUp(db, db.(users := db.users + [u]), u, wsData, workspaceId, now)
  }

  /**
   * The user `social_sign_up` saves inside its transaction: built from the
   * verified Google claims (the request's own `email` plays no part), then
   * given the request's password when one is supplied.
   */
  function SocialUser(db: Store, token: Value, password: Value, phone: Value, verify: Value -> Option<GoogleClaims>,
                      userId: UserId, hash: string -> string): (r: Result<User, SignUpError>)
    ensures VerifiedClaims(token, verify).Err? ==> r == Err(GoogleRefused(VerifiedClaims(token, verify).error))
    ensures r.Ok? ==>
      && VerifiedClaims(token, verify).Ok? && Some(r.value.email) == VerifiedClaims(token, verify).value.email
      && r.value.id == userId && r.value.isActive && !r.value.isStaff && !r.value.isSuperuser
      && !EmailTaken(db, r.value.email)
    ensures r.Ok? && Truthy(password) ==> password.Str? && r.value.password == Hashed(hash(password.s))
    ensures r.Err? ==> r.error.GoogleRefused? || r.error == InvalidUserData || r.error == PasswordNotText
  {
    match VerifiedClaims(token, verify)
    case Err(e) => Err(GoogleRefused(e))
    case Ok(claims) =>
      var userData := GoogleUserData(claims, phone, Null);
      if !UserDataValid(db, userData) then Err(InvalidUserData)
      else SocialPassword(CreatedUser(userData, userId, hash), password, hash)
  }

  /**
   * `social_sign_up`: the same checks as `sign_up` on its own field list,
   * then, in one transaction, the Google user and its owned workspace.
   */
  function SocialSignUp(db: Store, data: Payload, verify: Value -> Option<GoogleClaims>, userId: UserId,
                        workspaceId: WorkspaceId, now: int, hash: string -> string): (r: Outcome<SignUpData, SignUpError>)
    ensures r.response.Err? && r.response.error != TokenNotIssued ==> r.store == db
    ensures r.response.Ok? || r.response == Err(TokenNotIssued) ==>
      && var user := SocialUser(db, Get(data, "social_token"), Get(data, "password"), Get(data, "phone_number"),
                                verify, userId, hash);
      && user.Ok?
      && WorkspaceDataValid(db.(users := db.users + [user.value]), SignUpWorkspaceData(data))
      && r.store == WithOwnedWorkspace(db.(users := db.users + [user.value]), user.value, SignUpWorkspaceData(data),
                                       workspaceId, now)
      && (r.response.Ok? ==> JwtTokens(r.store, user.value, None) == Ok(r.response.value.tokens))
  {
    var missing := MissingOf(data, SocialSignUpFields);
    if missing != [] then Outcome(db, Err(MissingRequired(missing)))
    else if EmailInUseBy(db, Get(data, "email")) then Outcome(db, Err(EmailInUse))
    else if NameInUseBy(db, Get(data, "workspace_name")) then Outcome(db, Err(WorkspaceNameInUse))
    else
      var user := SocialUser(db, Get(data, "social_token"), Get(data, "password"), Get(data, "phone_number"),
                             verify, userId, hash);
      SignUpTransaction(db, user, SignUpWorkspaceData(data), workspaceId, now)
  }

  /** `social_sign_up` refuses a body with a missing field, and then an email already in use, before it writes. */
  lemma SocialSignUpChecksFirst(db: Store, data: Payload, verify: Value -> Option<GoogleClaims>, userId: UserId,
                                workspaceId: WorkspaceId, now: int, hash: string -> string)
    ensures var r := SocialSignUp(db, data, verify, userId, workspaceId, now, hash);
      && (MissingOf(data, SocialSignUpFields) != [] ==>
            r == Outcome(db, Err(MissingRequired(MissingOf(data, SocialSignUpFields)))))
      && (MissingOf(data, SocialSignUpFields) == [] && EmailInUseBy(db, Get(data, "email")) ==>
            r == Outcome(db, Err(EmailInUse)))
  {
  }

  /** `social_sign_up` on the database, rolled back on any error inside the transaction. */
  method SocialSignUpEndpoint(db: Database, data: Payload, verify: Value -> Option<GoogleClaims>, userId: UserId,
                              workspaceId: WorkspaceId, now: int, hash: string -> string)
      returns (response: Result<SignUpData, SignUpError>)
    modifies db
    requires userId !in UserIds(db.state)
    ensures db.state == SocialSignUp(old(db.state), data, verify, userId, workspaceId, now, hash).store
    ensures response == SocialSignUp(old(db.state), data, verify, userId, workspaceId, now, hash).response
  {
    var missing := CollectMissing(data, SocialSignUpFields);
    if |missing| > 0 {
      return Err(MissingRequired(missing));
    }
    if EmailInUseBy(db.state, Get(data, "email")) {
      return Err(EmailInUse);
    }
    if NameInUseBy(db.state, Get(data, "workspace_name")) {
      return Err(WorkspaceNameInUse);
    }
    // transaction.atomic()
    var savepoint := db.state;
    var created := CreateUserWithGoogle(db, Get(data, "social_token"), Get(data, "phone_number"), Null, verify, userId, hash);
    if created.Err? {
      db.state := savepoint;
      match created.error
      case ClaimsRefused(reason) => return Err(GoogleRefused(reason));
      case UserDataRefused => return Err(InvalidUserData);
    }
    var user := created.value;
    var password := Get(data, "password");
    if Truthy(password) {
      if !password.Str? {
        db.state := savepoint;
        return Err(PasswordNotText);
      }
      user := user.(password := Hashed(hash(password.s)));
      db.state := savepoint.(users := savepoint.users + [user]);
    }
    assert Ok(user) == SocialUser(savepoint, Get(data, "social_token"), password, Get(data, "phone_number"),
                                  verify, userId, hash);
    response := SaveOwnedWorkspace(db, savepoint, user, SignUpWorkspaceData(data), workspaceId, now);
  }
}
