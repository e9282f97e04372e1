/**
 * Google sign-in after the ID token has been verified: `login_with_google`
 * (issuer check, user lookup by email, the workspace gate and a
 * default-workspace token) and `create_user_with_google`, which builds a
 * user from the token's claims. Verification itself is the `verify`
 * parameter, which answers None where `verify_oauth2_token` raises.
 */
module OAuth {
  import opened Common
  import opened Store
  import Seqs
  import opened Tokens
  import opened AuthSerializers

  /** The verified claims of a Google ID token; a claim the token lacks is None. */
  datatype GoogleClaims = GoogleClaims(
    iss: string,
    email: Option<string>,
    givenName: Option<string>,
    familyName: Option<string>)

  /** The issuers both functions accept. */
  predicate TrustedIssuer(iss: string)
  {
    iss == "accounts.google.com" || iss == "https://accounts.google.com"
  }

  /** The claims, or why reading them raised: verification failed or the issuer is wrong (ValueError). */
  datatype ClaimsError = VerificationFailed | WrongIssuer

  function VerifiedClaims(token: Value, verify: Value -> Option<GoogleClaims>): (r: Result<GoogleClaims, ClaimsError>)
    ensures verify(token).None? ==> r == Err(VerificationFailed)
    ensures verify(token).Some? ==> (r.Ok? <==> TrustedIssuer(verify(token).value.iss))
    ensures r.Ok? ==> r.value == verify(token).value
  {
    match verify(token)
    case None => Err(VerificationFailed)
    case Some(claims) => if TrustedIssuer(claims.iss) then Ok(claims) else Err(WrongIssuer)
  }

  datatype GoogleLoginError =
    /** `request.data['code']` is absent (KeyError, 500). */
    | CodeMissing
    /** Verification or the issuer check raised (500). */
    | BadToken(reason: ClaimsError)
    /** The claims have no `email` (KeyError, 500). */
    | EmailClaimMissing
    /** 'User not found' (401). */
    | UserNotFound
    /** 'User is not associated to any Workspace' (403). */
    | NotAssociated
    /** `generate_jwt_token` raised: the user owns no workspace (500). */
    | TokenFailed

  function GoogleLoginStatus(e: GoogleLoginError): int
  {
    match e
    case UserNotFound => Unauthorized401
    case NotAssociated => Forbidden403
    case _ => ServerError500
  }

  datatype GoogleLogin = GoogleLogin(tokens: TokenPair, user: UserView)

  predicate OwnsSome(db: Store, u: UserId)
  {
    exists x | x in db.workspaces :: x.owner == Some(u)
  }

  predicate StaffsSome(db: Store, u: UserId)
  {
    exists x | x in db.workspaces :: HasStaffRow(db, x.id, u)
  }

  /** `login_with_google` for the request body `data`. */
  function LoginWithGoogle(db: Store, data: Payload, verify: Value -> Option<GoogleClaims>): (r: Result<GoogleLogin, GoogleLoginError>)
    ensures "code" !in data ==> r == Err(CodeMissing)
    ensures "code" in data && VerifiedClaims(data["code"], verify).Err? ==>
      r == Err(BadToken(VerifiedClaims(data["code"], verify).error))
    ensures "code" in data && VerifiedClaims(data["code"], verify).Ok? ==>
      var claims := VerifiedClaims(data["code"], verify).value;
      && (claims.email.None? ==> r == Err(EmailClaimMissing))
      && (claims.email.Some? && (forall u | u in db.users :: u.email != claims.email.value) ==> r == Err(UserNotFound))
      && (claims.email.Some? && FindUserByEmail(db, claims.email.value).Some? ==>
            var u := FindUserByEmail(db, claims.email.value).value;
            && (!OwnsSome(db, u.id) && !StaffsSome(db, u.id) ==> r == Err(NotAssociated))
            && (!OwnsSome(db, u.id) && StaffsSome(db, u.id) ==> r == Err(TokenFailed))
            && (OwnsSome(db, u.id) || StaffsSome(db, u.id) ==> (r.Ok? <==> TruthyId(DefaultWorkspaceId(db, u))))
            && ((OwnsSome(db, u.id) || StaffsSome(db, u.id)) && u.isSuperuser ==> r == Err(TokenFailed))
            && (r.Ok? ==> JwtTokens(db, u, None) == Ok(r.value.tokens) && r.value.user == UserSerializerView(u)))
    ensures r.Ok? ==> exists u | u in db.users ::
      (&& OwnsSome(db, u.id) && !u.isSuperuser
       && Claim(r.value.tokens.access, UserIdClaim) == Some(u.id)
       && Claim(r.value.tokens.access, WorkspaceIdClaim) == DefaultWorkspaceId(db, u))
  {
    if "code" !in data then Err(CodeMissing)
    else match VerifiedClaims(data["code"], verify)
      case Err(e) => Err(BadToken(e))
      case Ok(claims) =>
        if claims.email.None? then Err(EmailClaimMissing)
        else match FindUserByEmail(db, claims.email.value)
          case None => Err(UserNotFound)
          case Some(u) =>
            if !OwnsSome(db, u.id) && !StaffsSome(db, u.id) then Err(NotAssociated)
            else match JwtTokens(db, u, None)
              case Err(_) => Err(TokenFailed)
              case Ok(tokens) => Ok(GoogleLogin(tokens, UserSerializerView(u)))
  }

  /**
   * On a consistent database, a Google token whose email is that of a
   * non-superuser who owns a workspace logs that user in, scoped to the
   * default workspace.
   */
  lemma OwnerLogsInWithGoogle(db: Store, data: Payload, verify: Value -> Option<GoogleClaims>, u: User)
    requires Valid(db) && u in db.users && OwnsSome(db, u.id) && !u.isSuperuser
    requires "code" in data && VerifiedClaims(data["code"], verify).Ok?
    requires VerifiedClaims(data["code"], verify).value.email == Some(u.email)
    ensures LoginWithGoogle(db, data, verify).Ok?
    ensures Claim(LoginWithGoogle(db, data, verify).value.tokens.access, UserIdClaim) == Some(u.id)
    ensures Claim(LoginWithGoogle(db, data, verify).value.tokens.access, WorkspaceIdClaim) == DefaultWorkspaceId(db, u)
    ensures LoginWithGoogle(db, data, verify).value.user == UserSerializerView(u)
  {
    Seqs.FirstWhereUnique(db.users, (x: User) => x.email == u.email, u);
    var d := DefaultWorkspaceId(db, u);
    var x :| x in db.workspaces && x.id == d.value && x.owner == Some(u.id);
    assert TruthyId(d);
  }

  /** The `user_data` of `create_user_with_google`: names and email from the claims, phone from the argument. */
  function GoogleUserData(claims: GoogleClaims, phone: Value, password: Value): (d: Payload)
    ensures {"first_name", "last_name", "email", "phone", "is_active"} <= d.Keys
    ensures d["first_name"] == IdValue(claims.givenName) && d["last_name"] == IdValue(claims.familyName)
    ensures d["email"] == IdValue(claims.email) && d["phone"] == phone && d["is_active"] == Bool(true)
    ensures "password" in d <==> Truthy(password)
    ensures "password" in d ==> d["password"] == password
    ensures "is_staff" !in d
  {
    var base := map["first_name" := IdValue(claims.givenName), "last_name" := IdValue(claims.familyName),
                    "email" := IdValue(claims.email), "phone" := phone, "is_active" := Bool(true)];
    if Truthy(password) then base["password" := password] else base
  }

  /** A user built from claims carries the claimed names and email and is active, never staff. */
  lemma GoogleUserFromClaims(claims: GoogleClaims, phone: string, password: Value, id: UserId, hash: string -> string)
    requires claims.email.Some? && claims.givenName.Some? && claims.familyName.Some?
    ensures var u := CreatedUser(GoogleUserData(claims, Str(phone), password), id, hash);
      && u.email == claims.email.value && u.firstName == claims.givenName.value
      && u.lastName == claims.familyName.value && u.phone == phone
      && u.isActive && !u.isStaff && !u.isSuperuser
  {
  }

  /** A token without a given or family name yields data the serializer refuses (null name). */
  lemma MissingNameRefused(db: Store, claims: GoogleClaims, phone: Value, password: Value)
    requires claims.givenName.None? || claims.familyName.None?
    ensures !UserDataValid(db, GoogleUserData(claims, phone, password))
  {
  }

  datatype GoogleUserError = ClaimsRefused(reason: ClaimsError) | UserDataRefused

  /** `create_user_with_google(token, phone, password)`. */
  method CreateUserWithGoogle(db: Database, token: Value, phone: Value, password: Value,
                              verify: Value -> Option<GoogleClaims>, id: UserId, hash: string -> string)
      returns (r: Result<User, GoogleUserError>)
    modifies db
    requires id !in UserIds(db.state)
    ensures VerifiedClaims(token, verify).Err? ==>
      r == Err(ClaimsRefused(VerifiedClaims(token, verify).error)) && db.state == old(db.state)
    ensures VerifiedClaims(token, verify).Ok? ==>
      var d := GoogleUserData(VerifiedClaims(token, verify).value, phone, password);
      && (r.Ok? <==> UserDataValid(old(db.state), d))
      && (r.Ok? ==> (r.value == CreatedUser(d, id, hash)
                     && db.state == old(db.state).(users := old(db.state).users + [r.value])))
      && (r.Err? ==> r == Err(UserDataRefused) && db.state == old(db.state))
  {
    var claims := VerifiedClaims(token, verify);
    if claims.Err? {
      return Err(ClaimsRefused(claims.error));
    }
    var userData := GoogleUserData(claims.value, phone, password);
    var created := CreateUser(db, userData, id, hash);
    if created.Err? {
      return Err(UserDataRefused);
    }
    r := Ok(created.value);
  }
}
