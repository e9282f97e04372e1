/**
 * The persisted tables of the backend (users, workspaces and their staff,
 * athletes and invitations, password-reset tokens, and the feed's posts,
 * comments, activities, images and videos), each kept as a sequence in
 * database order, together with the uniqueness, one-to-one and foreign-key
 * constraints the models declare, the membership relations every
 * authorization decision reads, and the cascading deletes.
 */
module Store {
  import opened Common
  import opened Seqs

  type UserId = string
  type WorkspaceId = string

  /** A stored password: the raw text a serializer saved, or a hash. */
  datatype Credential = Raw(text: string) | Hashed(digest: string)

  datatype User = User(
    id: UserId,
    email: string,
    firstName: string,
    lastName: string,
    password: Credential,
    isActive: bool,
    isStaff: bool,
    isSuperuser: bool,
    phone: string,
    lastLogin: Option<int>)

  /** A tenant. `owner` is optional; `createdAt` is a time in seconds. */
  datatype Workspace = Workspace(
    id: WorkspaceId,
    name: string,
    owner: Option<UserId>,
    organizationType: Option<int>,
    createdAt: int)

  /** A staff membership; `role` is 'C' (coach) or 'A' (assistant). */
  datatype StaffRow = StaffRow(workspace: WorkspaceId, user: UserId, role: char)

  datatype AthleteRow = AthleteRow(workspace: WorkspaceId, user: UserId)

  datatype Invitation = Invitation(
    code: string,
    email: string,
    createdBy: Option<UserId>,
    workspace: WorkspaceId,
    createdAt: int)

  /** `validThrough` is a NOT NULL column; None stands for a row that lacks it. */
  datatype ResetToken = ResetToken(id: string, user: UserId, validThrough: Option<int>)

  datatype Post = Post(
    id: string,
    workspace: WorkspaceId,
    author: UserId,
    content: string,
    createdAt: int)

  datatype Comment = Comment(
    id: string,
    workspace: WorkspaceId,
    author: UserId,
    post: string,
    parent: Option<string>,
    content: string,
    createdAt: int)

  /** A like (the only activity type, 'L') on the object `objectId` of content type `contentType`. */
  datatype Activity = Activity(
    id: string,
    workspace: WorkspaceId,
    user: UserId,
    activityType: char,
    contentType: int,
    objectId: string)

  /** An uploaded image or video; `post` is the nullable link to the post that shows it. */
  datatype Media = Media(id: string, workspace: WorkspaceId, post: Option<string>)

  datatype Store = Store(
    users: seq<User>,
    workspaces: seq<Workspace>,
    staff: seq<StaffRow>,
    athletes: seq<AthleteRow>,
    invitations: seq<Invitation>,
    resetTokens: seq<ResetToken>,
    organizationTypes: set<int>,
    posts: seq<Post>,
    comments: seq<Comment>,
    activities: seq<Activity>,
    images: seq<Media>,
    videos: seq<Media>)

  /** The database an endpoint writes to. */
  class Database {
    var state: Store

    constructor (initial: Store)
      ensures state == initial
    {
      state := initial;
    }
  }

  // ---------------------------------------------------------------------
  // Keys and constraints

  function UserIds(db: Store): set<UserId>
  {
    set u | u in db.users :: u.id
  }

  function WorkspaceIds(db: Store): set<WorkspaceId>
  {
    set w | w in db.workspaces :: w.id
  }

  predicate UniqueUsers(us: seq<User>)
  {
    forall a, b | a in us && b in us && a != b :: a.id != b.id && a.email != b.email
  }

  predicate UniqueWorkspaces(ws: seq<Workspace>)
  {
    forall a, b | a in ws && b in ws && a != b :: a.id != b.id && a.name != b.name
  }

  /** `WorkspaceStaff` is one-to-one on both sides: one row per workspace and one per user. */
  predicate OneToOneStaff(rows: seq<StaffRow>)
  {
    forall a, b | a in rows && b in rows && a != b :: a.workspace != b.workspace && a.user != b.user
  }

  predicate OneToOneAthletes(rows: seq<AthleteRow>)
  {
    forall a, b | a in rows && b in rows && a != b :: a.workspace != b.workspace && a.user != b.user
  }

  predicate UniqueCodes(invs: seq<Invitation>)
  {
    forall a, b | a in invs && b in invs && a != b :: a.code != b.code
  }

  predicate UniqueTokenIds(ts: seq<ResetToken>)
  {
    forall a, b | a in ts && b in ts && a != b :: a.id != b.id
  }

  predicate OwnersExist(db: Store)
  {
    forall w | w in db.workspaces :: w.id != "" && (w.owner.Some? ==> w.owner.value in UserIds(db))
  }

  predicate StaffRefsExist(db: Store)
  {
    forall s | s in db.staff :: s.workspace in WorkspaceIds(db) && s.user in UserIds(db)
  }

  predicate AthleteRefsExist(db: Store)
  {
    forall a | a in db.athletes :: a.workspace in WorkspaceIds(db) && a.user in UserIds(db)
  }

  predicate InvitationRefsExist(db: Store)
  {
    forall i | i in db.invitations ::
      i.workspace in WorkspaceIds(db) && (i.createdBy.Some? ==> i.createdBy.value in UserIds(db))
  }

  predicate TokenRefsExist(db: Store)
  {
    forall t | t in db.resetTokens :: t.user in UserIds(db) && t.validThrough.Some?
  }

  /** The declared constraints of the account and workspace tables. */
  predicate Valid(db: Store)
  {
    && UniqueUsers(db.users)
    && UniqueWorkspaces(db.workspaces)
    && OwnersExist(db)
    && OneToOneStaff(db.staff)
    && StaffRefsExist(db)
    && OneToOneAthletes(db.athletes)
    && AthleteRefsExist(db)
    && UniqueCodes(db.invitations)
    && InvitationRefsExist(db)
    && UniqueTokenIds(db.resetTokens)
    && TokenRefsExist(db)
  }

  // ---------------------------------------------------------------------
  // Lookups and membership

  function FindUser(db: Store, id: UserId): (r: Option<User>)
    ensures r.Some? ==> r.value in db.users && r.value.id == id
    ensures r.None? <==> id !in UserIds(db)
  {
    FirstWhere(db.users, (u: User) => u.id == id)
  }

  /** `User.objects.filter(email=email).first()`. */
  function FindUserByEmail(db: Store, email: string): (r: Option<User>)
    ensures r.Some? ==> r.value in db.users && r.value.email == email
    ensures r.None? <==> forall u | u in db.users :: u.email != email
  {
    FirstWhere(db.users, (u: User) => u.email == email)
  }

  /** `Workspace.objects.filter(pk=id).first()`. */
  function FindWorkspace(db: Store, id: WorkspaceId): (r: Option<Workspace>)
    ensures r.Some? ==> r.value in db.workspaces && r.value.id == id
    ensures r.None? <==> id !in WorkspaceIds(db)
  {
    FirstWhere(db.workspaces, (w: Workspace) => w.id == id)
  }

  predicate EmailTaken(db: Store, email: string)
  {
    exists u | u in db.users :: u.email == email
  }

  /** Saving a user with a fresh id and an unused email keeps every constraint. */
  lemma AddUserKeepsValid(db: Store, u: User)
    requires Valid(db) && u.id !in UserIds(db) && !EmailTaken(db, u.email)
    ensures Valid(db.(users := db.users + [u]))
  {
    var r := db.(users := db.users + [u]);
    assert UserIds(r) == UserIds(db) + {u.id};
    forall a, b | a in r.users && b in r.users && a != b
      ensures a.id != b.id && a.email != b.email
    {
      if a == u || b == u {
        var other := if a == u then b else a;
        assert other in db.users;
      }
    }
  }

  predicate NameTaken(db: Store, name: string)
  {
    exists w | w in db.workspaces :: w.name == name
  }

  /** A `WorkspaceStaff` row links `u` to workspace `w`. */
  predicate HasStaffRow(db: Store, w: WorkspaceId, u: UserId)
  {
    exists s | s in db.staff :: s.workspace == w && s.user == u
  }

  /** `Q(owner=u) | Q(workspace_staff__user=u)` holds of this workspace row. */
  predicate OwnsOrStaffs(db: Store, x: Workspace, u: UserId)
  {
    x.owner == Some(u) || HasStaffRow(db, x.id, u)
  }

  /** Workspace `w` exists and `u` owns it or has a staff row for it. */
  predicate IsMember(db: Store, w: WorkspaceId, u: UserId)
  {
    exists x | x in db.workspaces :: x.id == w && OwnsOrStaffs(db, x, u)
  }

  /** `Workspace.objects.get(Q(id=w) & (Q(owner=u) | Q(workspace_staff__user=u)))`, as an Option. */
  function MemberWorkspace(db: Store, w: WorkspaceId, u: UserId): (r: Option<Workspace>)
    ensures r.Some? ==> r.value in db.workspaces && r.value.id == w && OwnsOrStaffs(db, r.value, u)
    ensures r.Some? <==> IsMember(db, w, u)
  {
    FirstWhere(db.workspaces, (x: Workspace) => x.id == w && OwnsOrStaffs(db, x, u))
  }

  // ---------------------------------------------------------------------
  // StaffInvitation.is_valid

  /** `timedelta(hours=24)` in seconds. */
  const InvitationLifetime := 24 * 60 * 60

  /** `created_at + 24h > now`. */
  function InvitationIsValid(inv: Invitation, now: int): (r: bool)
    ensures r <==> now - inv.createdAt < 86400
  {
    inv.createdAt + InvitationLifetime > now
  }

  /** Exactly 24 hours after creation an invitation is already invalid. */
  lemma InvitationExpiresAtBoundary(inv: Invitation)
    ensures InvitationIsValid(inv, inv.createdAt + 86400 - 1)
    ensures !InvitationIsValid(inv, inv.createdAt + 86400)
  {
  }

  /** Once invalid, an invitation stays invalid as time advances. */
  lemma InvitationStaysInvalid(inv: Invitation, t: int, later: int)
    requires t <= later
    requires !InvitationIsValid(inv, t)
    ensures !InvitationIsValid(inv, later)
  {
  }

  // ---------------------------------------------------------------------
  // Cascading deletes

  /**
   * Deleting a workspace deletes, by CASCADE, its staff rows, athlete rows
   * and invitations, and the feed rows scoped to it.
   */
  function DeleteWorkspace(db: Store, w: WorkspaceId): (r: Store)
    ensures w !in WorkspaceIds(r)
    ensures forall x :: x in r.workspaces <==> x in db.workspaces && x.id != w
    ensures forall s :: s in r.staff <==> s in db.staff && s.workspace != w
    ensures forall a :: a in r.athletes <==> a in db.athletes && a.workspace != w
    ensures forall i :: i in r.invitations <==> i in db.invitations && i.workspace != w
    ensures forall p :: p in r.posts <==> p in db.posts && p.workspace != w
    ensures forall c :: c in r.comments <==> c in db.comments && c.workspace != w
    ensures forall a :: a in r.activities <==> a in db.activities && a.workspace != w
    ensures forall m :: m in r.images <==> m in db.images && m.workspace != w
    ensures forall m :: m in r.videos <==> m in db.videos && m.workspace != w
    ensures r.users == db.users && r.resetTokens == db.resetTokens && r.organizationTypes == db.organizationTypes
  {
    db.(
      workspaces := Where(db.workspaces, (x: Workspace) => x.id != w),
      staff := Where(db.staff, (s: StaffRow) => s.workspace != w),
      athletes := Where(db.athletes, (a: AthleteRow) => a.workspace != w),
      invitations := Where(db.invitations, (i: Invitation) => i.workspace != w),
      posts := Where(db.posts, (p: Post) => p.workspace != w),
      comments := Where(db.comments, (c: Comment) => c.workspace != w),
      activities := Where(db.activities, (a: Activity) => a.workspace != w),
      images := Where(db.images, (m: Media) => m.workspace != w),
      videos := Where(db.videos, (m: Media) => m.workspace != w))
  }

  lemma DeleteWorkspaceKeepsValid(db: Store, w: WorkspaceId)
    requires Valid(db)
    ensures Valid(DeleteWorkspace(db, w))
  {
    var r := DeleteWorkspace(db, w);
    assert WorkspaceIds(r) == WorkspaceIds(db) - {w};
  }

  function Nulled(i: Invitation, u: UserId): Invitation
  {
    if i.createdBy == Some(u) then i.(createdBy := None) else i
  }

  /**
   * Sets `created_by` to NULL on the invitations `u` issued (SET_NULL): no
   * row names `u` afterwards, only `created_by` changes, and the rows `u`
   * did not issue are untouched.
   */
  function NullCreatedBy(invs: seq<Invitation>, u: UserId): (r: seq<Invitation>)
    ensures |r| == |invs|
    ensures forall k | 0 <= k < |invs| :: r[k].createdBy != Some(u) && r[k].(createdBy := invs[k].createdBy) == invs[k]
    ensures forall k | 0 <= k < |invs| && invs[k].createdBy != Some(u) :: r[k] == invs[k]
  {
    seq(|invs|, k requires 0 <= k < |invs| => Nulled(invs[k], u))
  }

  /** The rows of `NullCreatedBy`, by membership: each is an input row, or one `u` issued with the creator cleared. */
  lemma NullCreatedByMembers(invs: seq<Invitation>, u: UserId)
    ensures forall i | i in NullCreatedBy(invs, u) :: i.createdBy != Some(u)
    ensures forall i | i in NullCreatedBy(invs, u) :: i in invs || i.(createdBy := Some(u)) in invs
    ensures forall i | i in invs :: Nulled(i, u) in NullCreatedBy(invs, u)
  {
    var r := NullCreatedBy(invs, u);
    forall i | i in r
      ensures i in invs || i.(createdBy := Some(u)) in invs
    {
      var k :| 0 <= k < |r| && r[k] == i;
      assert invs[k] == i || invs[k] == i.(createdBy := Some(u));
    }
    forall i | i in invs
      ensures Nulled(i, u) in r
    {
      var k :| 0 <= k < |invs| && invs[k] == i;
      assert r[k] == Nulled(i, u);
    }
  }

  /** The workspaces `u` owns. */
  function OwnedIds(db: Store, u: UserId): set<WorkspaceId>
  {
    set x | x in db.workspaces && x.owner == Some(u) :: x.id
  }

  /**
   * Deleting a user: its owned workspaces go by CASCADE on `Workspace.owner`
   * (and with them their staff, athlete and invitation rows), its own staff
   * and athlete rows and reset tokens go by CASCADE, and the invitations it
   * issued only lose their `created_by`.
   */
  function DeleteUser(db: Store, u: UserId): (r: Store)
    ensures u !in UserIds(r)
    ensures forall x :: x in r.users <==> x in db.users && x.id != u
    ensures forall x :: x in r.workspaces <==> x in db.workspaces && x.id !in OwnedIds(db, u)
    ensures forall x | x in r.workspaces :: x.owner != Some(u)
    ensures forall s :: s in r.staff <==> s in db.staff && s.user != u && s.workspace !in OwnedIds(db, u)
    ensures forall a :: a in r.athletes <==> a in db.athletes && a.user != u && a.workspace !in OwnedIds(db, u)
    ensures forall t :: t in r.resetTokens <==> t in db.resetTokens && t.user != u
    ensures |r.invitations| <= |db.invitations|
    ensures forall i | i in r.invitations :: i.createdBy != Some(u) && i.workspace !in OwnedIds(db, u)
    ensures forall i | i in db.invitations && i.workspace !in OwnedIds(db, u) :: Nulled(i, u) in r.invitations
    ensures forall i | i in r.invitations :: i in db.invitations || i.(createdBy := Some(u)) in db.invitations
    ensures r.posts == db.posts && r.comments == db.comments && r.activities == db.activities
    ensures r.images == db.images && r.videos == db.videos && r.organizationTypes == db.organizationTypes
  {
    var gone := OwnedIds(db, u);
    var kept := Where(db.invitations, (i: Invitation) => i.workspace !in gone);
    NullCreatedByMembers(kept, u);
    db.(
      users := Where(db.users, (x: User) => x.id != u),
      workspaces := Where(db.workspaces, (x: Workspace) => x.id !in gone),
      staff := Where(db.staff, (s: StaffRow) => s.user != u && s.workspace !in gone),
      athletes := Where(db.athletes, (a: AthleteRow) => a.user != u && a.workspace !in gone),
      invitations := NullCreatedBy(kept, u),
      resetTokens := Where(db.resetTokens, (t: ResetToken) => t.user != u))
  }

  /** Under unique workspace ids, deleting a user keeps exactly the workspaces it did not own. */
  lemma DeleteUserKeepsOthersWorkspaces(db: Store, u: UserId)
    requires UniqueWorkspaces(db.workspaces)
    ensures forall x :: x in DeleteUser(db, u).workspaces <==> x in db.workspaces && x.owner != Some(u)
  {
  }

  /** An invitation whose issuer is deleted survives, with `created_by` cleared. */
  lemma DeleteUserNullsInviter(db: Store, u: UserId, i: Invitation)
    requires i in db.invitations && i.createdBy == Some(u)
    requires forall x | x in db.workspaces && x.id == i.workspace :: x.owner != Some(u)
    ensures i.(createdBy := None) in DeleteUser(db, u).invitations
  {
    var gone := OwnedIds(db, u);
    var kept := Where(db.invitations, (v: Invitation) => v.workspace !in gone);
    assert i.workspace !in gone;
    assert i in kept;
    var k :| 0 <= k < |kept| && kept[k] == i;
    assert NullCreatedBy(kept, u)[k] == i.(createdBy := None);
  }

  lemma DeleteUserKeepsValid(db: Store, u: UserId)
    requires Valid(db)
    ensures Valid(DeleteUser(db, u))
  {
    var r := DeleteUser(db, u);
    var gone := OwnedIds(db, u);
    assert UserIds(r) == UserIds(db) - {u};
    assert WorkspaceIds(r) == WorkspaceIds(db) - gone;
    DeleteUserKeepsOwners(db, u);
    DeleteUserKeepsInvitations(db, u);
  }

  lemma DeleteUserKeepsOwners(db: Store, u: UserId)
    requires Valid(db)
    ensures OwnersExist(DeleteUser(db, u))
  {
    var r := DeleteUser(db, u);
    var gone := OwnedIds(db, u);
    assert UserIds(r) == UserIds(db) - {u};
    forall x | x in r.workspaces
      ensures x.id != "" && (x.owner.Some? ==> x.owner.value in UserIds(r))
    {
      assert x in db.workspaces;
    }
  }

  lemma DeleteUserKeepsInvitations(db: Store, u: UserId)
    requires UniqueCodes(db.invitations) && InvitationRefsExist(db)
    ensures UniqueCodes(DeleteUser(db, u).invitations)
    ensures InvitationRefsExist(DeleteUser(db, u))
  {
    var gone := OwnedIds(db, u);
    var kept := Where(db.invitations, (v: Invitation) => v.workspace !in gone);
    assert DeleteUser(db, u).invitations == NullCreatedBy(kept, u);
    NullCreatedByKeepsCodes(kept, u);
    DeleteUserKeepsInvitationRefs(db, u);
  }

  /** After deleting a user, every invitation still names an existing workspace and creator. */
  lemma DeleteUserKeepsInvitationRefs(db: Store, u: UserId)
    requires InvitationRefsExist(db)
    ensures InvitationRefsExist(DeleteUser(db, u))
  {
    var r := DeleteUser(db, u);
    var gone := OwnedIds(db, u);
    assert UserIds(r) == UserIds(db) - {u};
    assert WorkspaceIds(r) == WorkspaceIds(db) - gone;
    var kept := Where(db.invitations, (v: Invitation) => v.workspace !in gone);
    assert r.invitations == NullCreatedBy(kept, u);
    forall i | i in r.invitations
      ensures i.workspace in WorkspaceIds(r)
      ensures i.createdBy.Some? ==> i.createdBy.value in UserIds(r)
    {
      var k :| 0 <= k < |kept| && r.invitations[k] == i;
      assert kept[k] in db.invitations;
    }
  }

  lemma NullCreatedByKeepsCodes(invs: seq<Invitation>, u: UserId)
    requires UniqueCodes(invs)
    ensures UniqueCodes(NullCreatedBy(invs, u))
  {
    var r := NullCreatedBy(invs, u);
    forall a, b | a in r && b in r && a != b
      ensures a.code != b.code
    {
      var ka :| 0 <= ka < |invs| && r[ka] == a;
      var kb :| 0 <= kb < |invs| && r[kb] == b;
      assert invs[ka] in invs && invs[kb] in invs;
    }
  }
}
