/**
 * The password-reset pair: `create_password_reset_token` replaces the
 * user's token by a new one, `reset_password` uses a token once.
 */
module PasswordResetApi {
  import opened Common
  import opened Seqs
  import opened Store
  import opened AuthSerializers
  import opened Endpoints

  // ---------------------------------------------------------------------
  // create_password_reset_token

  /** `timedelta(hours=1)`, with times in seconds. */
  const ResetTokenLifetime := 60 * 60

  datatype ResetRequestError =
    | ResetRequestNotAllowed
    | EmailRequired
    | NoUserWithEmail
    /** The INSERT of a token without `valid_through` breaks its NOT NULL constraint. */
    | TokenNotSaved

  function ResetRequestErrorStatus(e: ResetRequestError): int
  {
    match e
    case ResetRequestNotAllowed => MethodNotAllowed405
    case EmailRequired => BadRequest400
    case NoUserWithEmail => NotFound404
    case TokenNotSaved => ServerError500
  }

  /** The user whose token `create_password_reset_token` replaces, or the response that ends it first. */
  function ResetRequestUser(db: Store, httpMethod: string, body: Payload): (r: Result<User, ResetRequestError>)
    ensures httpMethod != "POST" ==> r == Err(ResetRequestNotAllowed)
    ensures httpMethod == "POST" && !Truthy(Get(body, "email")) ==> r == Err(EmailRequired)
    ensures r.Ok? ==> r.value in db.users && Get(body, "email") == Str(r.value.email)
    ensures httpMethod == "POST" && Truthy(Get(body, "email")) ==>
      (r == Err(NoUserWithEmail) <==> forall u | u in db.users :: Get(body, "email") != Str(u.email))
  {
    if httpMethod != "POST" then Err(ResetRequestNotAllowed)
    else
      var email := Get(body, "email");
      if !Truthy(email) then Err(EmailRequired)
      else if !email.Str? then Err(NoUserWithEmail)
      else match FindUserByEmail(db, email.s)
        case None => Err(NoUserWithEmail)
        case Some(u) => Ok(u)
  }

  /** The row `PasswordResetTokenSerializer(data).save()` inserts as written: `user` is its only field. */
  function SerializedResetTokenAsWritten(tokenId: string, u: UserId): ResetToken
  {
    ResetToken(tokenId, u, None)
  }

  /** The row the view means to insert: valid for one hour from `now`. */
  function IssuedResetToken(tokenId: string, u: UserId, now: int): ResetToken
  {
    ResetToken(tokenId, u, Some(now + ResetTokenLifetime))
  }

  /** Selects the reset tokens of user `u`. */
  function OfUser(u: UserId): ResetToken -> bool
  {
    (t: ResetToken) => t.user == u
  }

  /** Selects the reset tokens of every other user. */
  function NotOfUser(u: UserId): ResetToken -> bool
  {
    (t: ResetToken) => t.user != u
  }

  /**
   * `filter(user=user).delete()` then the INSERT of `row`, outside any
   * transaction: a row without `valid_through` is refused by the database,
   * and the deletion stays.
   */
  function ReplaceResetToken(db: Store, row: ResetToken): (r: Outcome<(), ResetRequestError>)
    ensures r.response.Ok? <==> row.validThrough.Some?
    ensures r.response.Err? ==> r.response.error == TokenNotSaved
    ensures r.store == db.(resetTokens := Where(db.resetTokens, NotOfUser(row.user)) + if r.response.Ok? then [row] else [])
    ensures Where(r.store.resetTokens, NotOfUser(row.user)) == Where(db.resetTokens, NotOfUser(row.user))
    ensures Where(r.store.resetTokens, OfUser(row.user)) == if r.response.Ok? then [row] else []
  {
    var cleared := Where(db.resetTokens, NotOfUser(row.user));
    KeptTokens(db.resetTokens, row);
    if row.validThrough.Some? then Outcome(db.(resetTokens := cleared + [row]), Ok(()))
    else Outcome(db.(resetTokens := cleared), Err(TokenNotSaved))
  }

  /** What the two selectors keep of the cleared table, with and without the new row. */
  lemma KeptTokens(ts: seq<ResetToken>, row: ResetToken)
    ensures var cleared := Where(ts, NotOfUser(row.user));
      && Where(cleared, NotOfUser(row.user)) == cleared
      && Where(cleared + [row], NotOfUser(row.user)) == cleared
      && Where(cleared, OfUser(row.user)) == []
      && Where(cleared + [row], OfUser(row.user)) == [row]
  {
    var cleared := Where(ts, NotOfUser(row.user));
    WhereIdempotent(ts, NotOfUser(row.user));
    WhereAppend(cleared, [row], NotOfUser(row.user));
    WhereAppend(cleared, [row], OfUser(row.user));
    WhereNone(cleared, OfUser(row.user));
    assert Where([row], NotOfUser(row.user)) == [];
    assert Where([row], OfUser(row.user)) == [row];
  }

  /** `create_password_reset_token` as written: the token is saved without `valid_through`. */
  function RequestResetTokenAsWritten(db: Store, httpMethod: string, body: Payload, tokenId: string)
      : (r: Outcome<(), ResetRequestError>)
    ensures ResetRequestUser(db, httpMethod, body).Err? ==>
      r == Outcome(db, Err(ResetRequestUser(db, httpMethod, body).error))
    ensures ResetRequestUser(db, httpMethod, body).Ok? ==>
      r == ReplaceResetToken(db, SerializedResetTokenAsWritten(tokenId, ResetRequestUser(db, httpMethod, body).value.id))
  {
    match ResetRequestUser(db, httpMethod, body)
    case Err(e) => Outcome(db, Err(e))
    case Ok(u) => ReplaceResetToken(db, SerializedResetTokenAsWritten(tokenId, u.id))
  }

  /** The one user a request naming the email of `u` finds. */
  lemma RequestFindsUser(db: Store, u: User)
    requires u in db.users && UniqueUsers(db.users) && u.email != ""
    ensures ResetRequestUser(db, "POST", map["email" := Str(u.email)]) == Ok(u)
  {
    var body := map["email" := Str(u.email)];
    assert Get(body, "email") == Str(u.email);
    var found := FindUserByEmail(db, u.email);
    assert found.Some?;
  }

  /**
   * As written, every request for a registered email fails with a server
   * error after it has deleted that user's existing tokens.
   */
  lemma ResetRequestAsWrittenLosesTokens(db: Store, u: User, tokenId: string)
    requires u in db.users && UniqueUsers(db.users) && u.email != ""
    ensures var r := RequestResetTokenAsWritten(db, "POST", map["email" := Str(u.email)], tokenId);
      && r.response == Err(TokenNotSaved)
      && Where(r.store.resetTokens, OfUser(u.id)) == []
  {
    RequestFindsUser(db, u);
  }

  /** `create_password_reset_token` with the `valid_through` the view computes saved on the token. */
  function RequestResetToken(db: Store, httpMethod: string, body: Payload, tokenId: string, now: int)
      : (r: Outcome<(), ResetRequestError>)
    ensures r.response.Ok? <==> ResetRequestUser(db, httpMethod, body).Ok?
    ensures r.response.Err? ==>
      && r.store == db && ResetRequestUser(db, httpMethod, body).Err?
      && r.response.error == ResetRequestUser(db, httpMethod, body).error
    ensures r.response.Ok? ==>
      var u := ResetRequestUser(db, httpMethod, body).value.id;
      && r.store == db.(resetTokens := Where(db.resetTokens, NotOfUser(u)) + [IssuedResetToken(tokenId, u, now)])
      && Where(r.store.resetTokens, OfUser(u)) == [IssuedResetToken(tokenId, u, now)]
      && Where(r.store.resetTokens, NotOfUser(u)) == Where(db.resetTokens, NotOfUser(u))
  {
    match ResetRequestUser(db, httpMethod, body)
    case Err(e) => Outcome(db, Err(e))
    case Ok(u) => ReplaceResetToken(db, IssuedResetToken(tokenId, u.id, now))
  }

  /** `create_password_reset_token` on the database; the email is sent after the save and is not modelled. */
  method CreatePasswordResetToken(db: Database, httpMethod: string, body: Payload, tokenId: string, now: int)
      returns (response: Result<(), ResetRequestError>)
    modifies db
    ensures db.state == RequestResetToken(old(db.state), httpMethod, body, tokenId, now).store
    ensures response == RequestResetToken(old(db.state), httpMethod, body, tokenId, now).response
  {
    if httpMethod != "POST" {
      return Err(ResetRequestNotAllowed);
    }
    var email := Get(body, "email");
    if !Truthy(email) {
      return Err(EmailRequired);
    }
    var user := if email.Str? then FindUserByEmail(db.state, email.s) else None;
    if user.None? {
      return Err(NoUserWithEmail);
    }
    var row := IssuedResetToken(tokenId, user.value.id, now);
    db.state := db.state.(resetTokens := Where(db.state.resetTokens, NotOfUser(user.value.id)));
    db.state := db.state.(resetTokens := db.state.resetTokens + [row]);
    response := Ok(());
  }

  predicate TokenIdFree(db: Store, tokenId: string)
  {
    forall t | t in db.resetTokens :: t.id != tokenId
  }

  lemma RequestResetTokenKeepsValid(db: Store, httpMethod: string, body: Payload, tokenId: string, now: int)
    requires Valid(db) && TokenIdFree(db, tokenId)
    ensures Valid(RequestResetToken(db, httpMethod, body, tokenId, now).store)
  {
    var r := RequestResetToken(db, httpMethod, body, tokenId, now);
    if r.response.Ok? {
      var u := ResetRequestUser(db, httpMethod, body).value.id;
      assert UserIds(r.store) == UserIds(db);
    }
  }

  // ---------------------------------------------------------------------
  // reset_password

  datatype ResetError =
    | ResetNotAllowed
    | TokenNotFound
    | NewPasswordRequired
    /** `set_password` of a value that is not text raises (500). */
    | NewPasswordNotText
    /** `token.user` of a token whose user row is gone raises (500); the foreign key rules it out. */
    | TokenUserMissing

  function ResetErrorStatus(e: ResetError): int
  {
    match e
    case ResetNotAllowed => MethodNotAllowed405
    case TokenNotFound => NotFound404
    case NewPasswordRequired => BadRequest400
    case _ => ServerError500
  }

  datatype ResetReply = TokenExists | PasswordSet

  predicate HasResetToken(db: Store, tokenId: string)
  {
    exists t | t in db.resetTokens :: t.id == tokenId
  }

  /** Selects the reset token `tokenId`. */
  function NamedToken(tokenId: string): ResetToken -> bool
  {
    (t: ResetToken) => t.id == tokenId
  }

  /** Selects every reset token but `tokenId`. */
  function OtherToken(tokenId: string): ResetToken -> bool
  {
    (t: ResetToken) => t.id != tokenId
  }

  /** The store after `token.user.set_password(...)`, `save()` and `token.delete()`. */
  function WithNewPassword(db: Store, u: User, tokenId: string, password: Credential): (r: Store)
    ensures !HasResetToken(r, tokenId)
    ensures forall t :: t in r.resetTokens <==> t in db.resetTokens && t.id != tokenId
    ensures r.users == Replaced(db.users, u.id, u.(password := password))
    ensures |r.users| == |db.users|
    ensures forall k | 0 <= k < |db.users| && db.users[k].id != u.id :: r.users[k] == db.users[k]
    ensures forall k | 0 <= k < |db.users| && db.users[k].id == u.id :: r.users[k].password == password
    ensures r == db.(users := r.users, resetTokens := r.resetTokens)
  {
    var rest := Where(db.resetTokens, OtherToken(tokenId));
    db.(users := Replaced(db.users, u.id, u.(password := password)), resetTokens := rest)
  }

  /**
   * `reset_password(token_id)`: GET answers whether the token exists; POST
   * sets the new password of the token's user and deletes the token. The
   * token's `valid_through` is never read, so an expired token still works.
   */
  function ResetPassword(db: Store, httpMethod: string, tokenId: string, body: Payload, hash: string -> string)
      : (r: Outcome<ResetReply, ResetError>)
    ensures httpMethod != "GET" && httpMethod != "POST" ==> r == Outcome(db, Err(ResetNotAllowed))
    ensures (httpMethod == "GET" || httpMethod == "POST") && !HasResetToken(db, tokenId) ==>
      r == Outcome(db, Err(TokenNotFound))
    ensures httpMethod == "GET" && HasResetToken(db, tokenId) ==> r == Outcome(db, Ok(TokenExists))
    ensures httpMethod == "POST" && HasResetToken(db, tokenId) && !Truthy(Get(body, "new_password")) ==>
      r == Outcome(db, Err(NewPasswordRequired))
    ensures (httpMethod == "POST" && HasResetToken(db, tokenId) && Truthy(Get(body, "new_password"))
             && !Get(body, "new_password").Str?) ==> r == Outcome(db, Err(NewPasswordNotText))
    ensures (httpMethod == "POST" && HasResetToken(db, tokenId) && Get(body, "new_password").Str?
             && Get(body, "new_password").s != ""
             && (forall t | t in db.resetTokens && t.id == tokenId :: t.user in UserIds(db))) ==>
      r.response == Ok(PasswordSet)
    ensures r.response != Ok(PasswordSet) ==> r.store == db
    ensures r.response == Ok(PasswordSet) ==>
      && httpMethod == "POST" && Get(body, "new_password").Str?
      && exists t, u | t in db.resetTokens && u in db.users && t.id == tokenId && u.id == t.user ::
           r.store == WithNewPassword(db, u, tokenId, Hashed(hash(Get(body, "new_password").s)))
  {
    if httpMethod != "GET" && httpMethod != "POST" then Outcome(db, Err(ResetNotAllowed))
    else match FirstWhere(db.resetTokens, NamedToken(tokenId))
      case None => Outcome(db, Err(TokenNotFound))
      case Some(token) =>
        if httpMethod == "GET" then Outcome(db, Ok(TokenExists))
        else
          var password := Get(body, "new_password");
          if !Truthy(password) then Outcome(db, Err(NewPasswordRequired))
          else if !password.Str? then Outcome(db, Err(NewPasswordNotText))
          else match FindUser(db, token.user)
            case None => Outcome(db, Err(TokenUserMissing))
            case Some(u) => Outcome(WithNewPassword(db, u, tokenId, Hashed(hash(password.s))), Ok(PasswordSet))
  }

  /** `reset_password` on the database. */
  method ResetPasswordEndpoint(db: Database, httpMethod: string, tokenId: string, body: Payload, hash: string -> string)
      returns (response: Result<ResetReply, ResetError>)
    modifies db
    ensures db.state == ResetPassword(old(db.state), httpMethod, tokenId, body, hash).store
    ensures response == ResetPassword(old(db.state), httpMethod, tokenId, body, hash).response
  {
    if httpMethod != "GET" && httpMethod != "POST" {
      return Err(ResetNotAllowed);
    }
    var token := FirstWhere(db.state.resetTokens, NamedToken(tokenId));
    if token.None? {
      return Err(TokenNotFound);
    }
    if httpMethod == "GET" {
      return Ok(TokenExists);
    }
    var password := Get(body, "new_password");
    if !Truthy(password) {
      return Err(NewPasswordRequired);
    }
    if !password.Str? {
      return Err(NewPasswordNotText);
    }
    var user := FindUser(db.state, token.value.user);
    if user.None? {
      return Err(TokenUserMissing);
    }
    var row := user.value.(password := Hashed(hash(password.s)));
    db.state := db.state.(users := Replaced(db.state.users, row.id, row));
    db.state := db.state.(resetTokens := Where(db.state.resetTokens, OtherToken(tokenId)));
    response := Ok(PasswordSet);
  }

  /** A token works once: after a successful reset, both GET and POST with it answer 404. */
  lemma ResetTokenSingleUse(db: Store, tokenId: string, body: Payload, hash: string -> string, httpMethod: string,
                            body2: Payload)
    requires ResetPassword(db, "POST", tokenId, body, hash).response == Ok(PasswordSet)
    requires httpMethod == "GET" || httpMethod == "POST"
    ensures ResetPassword(ResetPassword(db, "POST", tokenId, body, hash).store, httpMethod, tokenId, body2, hash).response
         == Err(TokenNotFound)
  {
  }

  /** After a request for `u`, the new token is the only row carrying its id, and the users are as they were. */
  lemma IssuedTokenIsStored(db: Store, u: User, tokenId: string, now: int)
    requires Valid(db) && u in db.users && u.email != "" && TokenIdFree(db, tokenId)
    ensures var issued := RequestResetToken(db, "POST", map["email" := Str(u.email)], tokenId, now);
      && issued.response.Ok?
      && issued.store == db.(resetTokens := issued.store.resetTokens)
      && IssuedResetToken(tokenId, u.id, now) in issued.store.resetTokens
      && forall t | t in issued.store.resetTokens && t.id == tokenId :: t == IssuedResetToken(tokenId, u.id, now)
  {
    RequestFindsUser(db, u);
    var issued := RequestResetToken(db, "POST", map["email" := Str(u.email)], tokenId, now);
    var row := IssuedResetToken(tokenId, u.id, now);
    assert row in Where(issued.store.resetTokens, OfUser(u.id));
  }

  /** A token just issued for a user resets that user's password, and only that user's. */
  lemma IssuedTokenResetsPassword(db: Store, u: User, tokenId: string, now: int, password: string,
                                  hash: string -> string)
    requires Valid(db) && u in db.users && u.email != "" && TokenIdFree(db, tokenId) && password != ""
    ensures var issued := RequestResetToken(db, "POST", map["email" := Str(u.email)], tokenId, now);
      && issued.response.Ok?
      && var reset := ResetPassword(issued.store, "POST", tokenId, map["new_password" := Str(password)], hash);
      && reset.response == Ok(PasswordSet)
      && reset.store.users == Replaced(db.users, u.id, u.(password := Hashed(hash(password))))
  {
    IssuedTokenIsStored(db, u, tokenId, now);
    var issued := RequestResetToken(db, "POST", map["email" := Str(u.email)], tokenId, now);
    var row := IssuedResetToken(tokenId, u.id, now);
    FirstWhereUnique(issued.store.resetTokens, NamedToken(tokenId), row);
    var found := FindUser(issued.store, u.id);
    assert found == Some(u);
    var body := map["new_password" := Str(password)];
    assert Get(body, "new_password") == Str(password);
  }

  /** Replacing one user's password leaves ids and emails as they were, so every constraint still holds. */
  lemma WithNewPasswordKeepsValid(db: Store, u: User, tokenId: string, password: Credential)
    requires Valid(db) && u in db.users
    ensures Valid(WithNewPassword(db, u, tokenId, password))
  {
    var r := WithNewPassword(db, u, tokenId, password);
    ReplacedKeepsUnique(db.users, u, u.(password := password));
    ReplacedKeepsIds(db, u, u.(password := password));
  }

  lemma ResetPasswordKeepsValid(db: Store, httpMethod: string, tokenId: string, body: Payload, hash: string -> string)
    requires Valid(db)
    ensures Valid(ResetPassword(db, httpMethod, tokenId, body, hash).store)
  {
    var r := ResetPassword(db, httpMethod, tokenId, body, hash);
    if r.response == Ok(PasswordSet) {
      var t, u :| t in db.resetTokens && u in db.users && t.id == tokenId && u.id == t.user
        && r.store == WithNewPassword(db, u, tokenId, Hashed(hash(Get(body, "new_password").s)));
      WithNewPasswordKeepsValid(db, u, tokenId, Hashed(hash(Get(body, "new_password").s)));
    }
  }
}
