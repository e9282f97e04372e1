/**
 * The two unauthenticated availability checks a sign-up form calls before it
 * submits: whether an email is free for a new user and whether a workspace
 * name is free. Both read the store only. The query string is a map from
 * parameter name to text.
 */
module PublicApi {
  import opened Common
  import opened Seqs
  import opened Store
  import opened SignUpApi

  type Query = map<string, string>

  /** `request.GET.get(name)`, with an absent parameter read as the falsy empty text. */
  function Param(q: Query, name: string): string
  {
    if name in q then q[name] else ""
  }

  datatype EmailCheck =
    | MissingEmail
    /** The taken address is answered together with its owner's first name. */
    | EmailUsedBy(email: string, firstName: string)
    | EmailAvailable
    /** `User.objects.get` raises MultipleObjectsReturned (500); unique emails rule it out. */
    | EmailAmbiguous

  function EmailCheckStatus(c: EmailCheck): int
  {
    match c
    case MissingEmail => BadRequest400
    case EmailUsedBy(_, _) => BadRequest400
    case EmailAvailable => Accepted202
    case EmailAmbiguous => ServerError500
  }

  /** `PublicCheckEmailAvailability.get`. */
  function CheckEmailAvailability(db: Store, q: Query): (r: EmailCheck)
    ensures r.MissingEmail? <==> Param(q, "email") == ""
    ensures r.EmailAvailable? <==> Param(q, "email") != "" && !EmailTaken(db, Param(q, "email"))
    ensures r.EmailUsedBy? ==> exists u | u in db.users :: u.email == Param(q, "email") && r == EmailUsedBy(u.email, u.firstName)
  {
    var email := Param(q, "email");
    if email == "" then MissingEmail
    else
      var matches := Where(db.users, WithEmail(email));
      if |matches| == 0 then EmailAvailable
      else if |matches| == 1 then
        assert matches[0] in matches;
        EmailUsedBy(matches[0].email, matches[0].firstName)
      else
        assert matches[0] in matches;
        EmailAmbiguous
  }

  /** Selects the users with email `e`. */
  function WithEmail(e: string): User -> bool
  {
    (u: User) => u.email == e
  }

  /** No two positions of the user table hold the same primary key. */
  predicate DistinctIds(us: seq<User>)
  {
    forall i, j | 0 <= i < j < |us| :: us[i].id != us[j].id
  }

  lemma {:induction false} AtMostOneWithEmail(us: seq<User>, e: string)
    requires DistinctIds(us) && UniqueUsers(us)
    ensures |Where(us, WithEmail(e))| <= 1
  {
    if us != [] {
      var rest := us[1..];
      assert DistinctIds(rest) by {
        forall i, j | 0 <= i < j < |rest| ensures rest[i].id != rest[j].id {
          assert rest[i] == us[i + 1] && rest[j] == us[j + 1];
        }
      }
      AtMostOneWithEmail(rest, e);
      if us[0].email == e {
        forall x | x in rest ensures !WithEmail(e)(x) {
          var j :| 0 <= j < |rest| && rest[j] == x;
          assert us[j + 1] == x;
        }
        WhereNone(rest, WithEmail(e));
      }
    }
  }

  /** With emails unique and ids a primary key, a taken email is answered as taken, never as a server error. */
  lemma TakenEmailIsReported(db: Store, u: User)
    requires UniqueUsers(db.users) && DistinctIds(db.users) && u in db.users && u.email != ""
    ensures CheckEmailAvailability(db, map["email" := u.email]) == EmailUsedBy(u.email, u.firstName)
  {
    var q := map["email" := u.email];
    assert Param(q, "email") == u.email;
    var matches := Where(db.users, WithEmail(u.email));
    assert u in matches;
    AtMostOneWithEmail(db.users, u.email);
    assert matches == [u];
  }

  /** An available email passes the duplicate check of both sign-up views. */
  lemma AvailableEmailSignsUp(db: Store, email: string)
    requires CheckEmailAvailability(db, map["email" := email]).EmailAvailable?
    ensures !EmailInUseBy(db, Str(email))
  {
    assert Param(map["email" := email], "email") == email;
  }

  datatype NameCheck = MissingName | NameUsed | NameAvailable

  function NameCheckStatus(c: NameCheck): int
  {
    match c
    case MissingName => BadRequest400
    case NameUsed => NotAcceptable406
    case NameAvailable => Accepted202
  }

  /** `PublicCheckWorkspaceNameAvailability.get`. */
  function CheckWorkspaceNameAvailability(db: Store, q: Query): (r: NameCheck)
    ensures r.MissingName? <==> Param(q, "name") == ""
    ensures r.NameUsed? <==> Param(q, "name") != "" && NameTaken(db, Param(q, "name"))
  {
    var name := Param(q, "name");
    if name == "" then MissingName
    else if NameTaken(db, name) then NameUsed
    else NameAvailable
  }

  /** An available name passes the duplicate check of both sign-up views. */
  lemma AvailableNameSignsUp(db: Store, name: string)
    requires CheckWorkspaceNameAvailability(db, map["name" := name]).NameAvailable?
    ensures !NameInUseBy(db, Str(name))
  {
    assert Param(map["name" := name], "name") == name;
  }
}
