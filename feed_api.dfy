/**
 * The feed endpoints: creating a post (workspace forced from the request,
 * then the post's images and videos re-linked by id), creating a comment
 * and a like, the likes of a post, and the newest-first lists the
 * tenant gate scopes.
 */
module FeedApi {
  import opened Common
  import opened Seqs
  import opened Store
  import opened Http
  import opened Gate
  import opened Fields
  import opened Endpoints

  datatype FeedError =
    /** `_get_data` raised before the serializer ran (no truthy workspace attribute). */
    | NoWorkspaceData(gate: GateError)
    /** A serializer's `is_valid(raise_exception=True)` refused the body (400). */
    | InvalidPost
    | InvalidComment
    | InvalidActivity
    /** A truthy `image_ids` / `video_ids` that is not a list of ids makes `pk__in` raise (500). */
    | MediaIdsNotList

  function FeedErrorStatus(e: FeedError): int
  {
    match e
    case NoWorkspaceData(g) => GateStatus(g)
    case MediaIdsNotList => ServerError500
    case _ => BadRequest400
  }

  /**
   * A `PrimaryKeyRelatedField` over a UUID key: the text id it names.
   * An empty string reads as null and anything but text names no row.
   */
  function Ref(d: Payload, k: string): Option<string>
  {
    if k in d && d[k].Str? && d[k].s != "" then Some(d[k].s) else None
  }

  function PostIds(db: Store): set<string>
  {
    set p | p in db.posts :: p.id
  }

  function CommentIds(db: Store): set<string>
  {
    set c | c in db.comments :: c.id
  }

  /** A required text field that may not be blank, up to `maxLength` characters when one is given. */
  predicate TextOk(d: Payload, k: string, maxLength: Option<nat>)
  {
    k in d && CharInput(d[k]).Some? && CharInput(d[k]).value != ""
    && (maxLength.Some? ==> |CharInput(d[k]).value| <= maxLength.value)
  }

  // ---------------------------------------------------------------------
  // PostViewset.create

  /** A body a `PostSerializer` could accept, before its lookups. */
  predicate PostDataShape(d: Payload)
  {
    Ref(d, "workspace").Some? && Ref(d, "author").Some? && TextOk(d, "content", None)
  }

  /** `PostSerializer` with every field: an existing workspace and author, and non-blank content. */
  predicate PostDataValid(db: Store, d: Payload)
  {
    && PostDataShape(d)
    && Ref(d, "workspace").value in WorkspaceIds(db)
    && Ref(d, "author").value in UserIds(db)
  }

  /** The row `perform_create` saves; the id and the creation time are the model's defaults. */
  function NewPost(d: Payload, id: string, now: int): Post
    requires PostDataShape(d)
  {
    Post(id, Ref(d, "workspace").value, Ref(d, "author").value, CharInput(d["content"]).value, now)
  }

  /** The ids `pk__in` receives: None where the value is falsy and the relation is left alone. */
  function MediaIds(v: Value): Result<Option<seq<string>>, FeedError>
  {
    if !Truthy(v) then Ok(None)
    else if v.List? then Ok(Some(v.items))
    else Err(MediaIdsNotList)
  }

  /** One row after `post.images.set(...)`: linked to the post exactly when it was named. */
  function Relinked(m: Media, ids: seq<string>, postId: string): (r: Media)
    ensures r.id == m.id && r.workspace == m.workspace
    ensures r.post == Some(postId) <==> m.id in ids
    ensures m.id !in ids && m.post != Some(postId) ==> r == m
  {
    if m.id in ids then m.(post := Some(postId))
    else if m.post == Some(postId) then m.(post := None)
    else m
  }

  /**
   * `post.<relation>.set(Model.objects.filter(pk__in=ids))` over a whole
   * table: every named row, whatever its workspace, is linked to the post;
   * rows linked before but not named are unlinked; all others are untouched.
   */
  function SetRelation(rows: seq<Media>, ids: seq<string>, postId: string): (r: seq<Media>)
    ensures |r| == |rows|
    ensures forall k | 0 <= k < |rows| :: r[k].id == rows[k].id && r[k].workspace == rows[k].workspace
    ensures forall k | 0 <= k < |rows| :: r[k].post == Some(postId) <==> rows[k].id in ids
    ensures forall k | 0 <= k < |rows| :: rows[k].id !in ids && rows[k].post != Some(postId) ==> r[k] == rows[k]
  {
    seq(|rows|, k requires 0 <= k < |rows| => Relinked(rows[k], ids, postId))
  }

  /** Setting the same relation twice is setting it once. */
  lemma SetRelationIdempotent(rows: seq<Media>, ids: seq<string>, postId: string)
    ensures SetRelation(SetRelation(rows, ids, postId), ids, postId) == SetRelation(rows, ids, postId)
  {
    var once := SetRelation(rows, ids, postId);
    var twice := SetRelation(once, ids, postId);
    forall k | 0 <= k < |rows| ensures twice[k] == once[k] {
      assert twice[k] == Relinked(once[k], ids, postId);
    }
  }

  /** The `.set(...)` loop over the table, one row at a time. */
  method RelinkAll(rows: seq<Media>, ids: seq<string>, postId: string) returns (out: seq<Media>)
    ensures out == SetRelation(rows, ids, postId)
  {
    out := [];
    var i := 0;
    while i < |rows|
      invariant 0 <= i <= |rows|
      invariant |out| == i
      invariant forall k | 0 <= k < i :: out[k] == Relinked(rows[k], ids, postId)
    {
      out := out + [Relinked(rows[i], ids, postId)];
      i := i + 1;
    }
  }

  /** The table after the relation step for `key`: re-linked when the ids are a truthy list. */
  function Relinks(rows: seq<Media>, data: Payload, key: string, postId: string): (r: seq<Media>)
    requires MediaIds(Get(data, key)).Ok?
    ensures !Truthy(Get(data, key)) ==> r == rows
    ensures Truthy(Get(data, key)) ==> r == SetRelation(rows, Get(data, key).items, postId)
  {
    match MediaIds(Get(data, key)).value
    case None => rows
    case Some(ids) => SetRelation(rows, ids, postId)
  }

  /** Lines 29-41, after the post is saved: images first, then videos; a failure keeps what was done. */
  function AttachMedia(db: Store, data: Payload, post: Post): (r: Outcome<Post, FeedError>)
    ensures r.response.Ok? <==> MediaIds(Get(data, "image_ids")).Ok? && MediaIds(Get(data, "video_ids")).Ok?
    ensures r.response.Ok? ==> r.response.value == post
    ensures r.response.Err? ==> r.response.error == MediaIdsNotList
    ensures r.store == db.(images := r.store.images, videos := r.store.videos)
    ensures MediaIds(Get(data, "image_ids")).Err? ==> r.store == db
    ensures MediaIds(Get(data, "image_ids")).Ok? ==>
      r.store.images == Relinks(db.images, data, "image_ids", post.id)
    ensures r.response.Ok? ==> r.store.videos == Relinks(db.videos, data, "video_ids", post.id)
    ensures r.response.Err? ==> r.store.videos == db.videos
  {
    if MediaIds(Get(data, "image_ids")).Err? then Outcome(db, Err(MediaIdsNotList))
    else
      var withImages := db.(images := Relinks(db.images, data, "image_ids", post.id));
      if MediaIds(Get(data, "video_ids")).Err? then Outcome(withImages, Err(MediaIdsNotList))
      else Outcome(withImages.(videos := Relinks(db.videos, data, "video_ids", post.id)), Ok(post))
  }

  /**
   * `PostViewset.create`: `_get_data` forces the request's workspace, the
   * serializer validates, the post is saved, and then its images and
   * videos are re-linked. Nothing runs in a transaction, so a bad id list
   * leaves the post saved.
   */
  function CreatePost(db: Store, attr: WorkspaceAttr, data: Payload, postId: string, now: int): (r: Outcome<Post, FeedError>)
    ensures !TruthyId(AttrValue(attr)) ==> r == Outcome(db, Err(NoWorkspaceData(DataUnbound)))
    ensures r.response == Err(InvalidPost) <==>
      TruthyId(AttrValue(attr)) && !PostDataValid(db, GetData(attr, data).value)
    ensures r.response == Err(InvalidPost) ==> r.store == db
    ensures r.response.Ok? <==>
      TruthyId(AttrValue(attr)) && PostDataValid(db, GetData(attr, data).value)
      && MediaIds(Get(data, "image_ids")).Ok? && MediaIds(Get(data, "video_ids")).Ok?
    ensures r.response.Ok? || r.response == Err(MediaIdsNotList) ==>
      && |r.store.posts| == |db.posts| + 1 && r.store.posts[..|db.posts|] == db.posts
      && r.store.posts[|db.posts|].id == postId
      && r.store.posts[|db.posts|].workspace == AttrValue(attr).value
    ensures r.response.Ok? ==>
      var p := r.response.value;
      && r.store.posts == db.posts + [p]
      && p.createdAt == now
      && "author" in data && data["author"] == Str(p.author)
      && "content" in data && CharInput(data["content"]) == Some(p.content)
    ensures r.response.Ok? ==>
      && r.store == db.(posts := r.store.posts, images := r.store.images, videos := r.store.videos)
      && r.store.images == Relinks(db.images, data, "image_ids", postId)
      && r.store.videos == Relinks(db.videos, data, "video_ids", postId)
  {
    match GetData(attr, data)
    case Err(e) => Outcome(db, Err(NoWorkspaceData(e)))
    case Ok(d) =>
      if !PostDataValid(db, d) then Outcome(db, Err(InvalidPost))
      else
        var post := NewPost(d, postId, now);
        AttachMedia(db.(posts := db.posts + [post]), data, post)
  }

  method CreatePostEndpoint(db: Database, request: Request, postId: string, now: int)
    returns (response: Result<Post, FeedError>)
    modifies db
    ensures db.state == CreatePost(old(db.state), request.workspaceAttr, request.data, postId, now).store
    ensures response == CreatePost(old(db.state), request.workspaceAttr, request.data, postId, now).response
  {
    var got := GetData(request.workspaceAttr, request.data);
    if got.Err? {
      return Err(NoWorkspaceData(got.error));
    }
    if !PostDataValid(db.state, got.value) {
      return Err(InvalidPost);
    }
    var post := NewPost(got.value, postId, now);
    db.state := db.state.(posts := db.state.posts + [post]);
    var imageIds := MediaIds(Get(request.data, "image_ids"));
    if imageIds.Err? {
      return Err(MediaIdsNotList);
    }
    if imageIds.value.Some? {
      var images := RelinkAll(db.state.images, imageIds.value.value, postId);
      db.state := db.state.(images := images);
    }
    var videoIds := MediaIds(Get(request.data, "video_ids"));
    if videoIds.Err? {
      return Err(MediaIdsNotList);
    }
    if videoIds.value.Some? {
      var videos := RelinkAll(db.state.videos, videoIds.value.value, postId);
      db.state := db.state.(videos := videos);
    }
    response := Ok(post);
  }

  /** An image of another workspace, named in `image_ids`, ends up shown by the new post. */
  lemma ForeignImageAttached(db: Store, attr: WorkspaceAttr, data: Payload, postId: string, now: int, k: nat)
    requires CreatePost(db, attr, data, postId, now).response.Ok?
    requires k < |db.images| && db.images[k].workspace != AttrValue(attr).value
    requires "image_ids" in data && data["image_ids"].List? && db.images[k].id in data["image_ids"].items
    ensures CreatePost(db, attr, data, postId, now).store.images[k].post == Some(postId)
    ensures CreatePost(db, attr, data, postId, now).store.images[k].workspace != AttrValue(attr).value
  {
  }

  // ---------------------------------------------------------------------
  // CommentViewSet.create

  /** `Comment.content` is a `TextField(max_length=254)`. */
  const MaxCommentLength := 254

  /** `parent` is optional and nullable; an empty string reads as null. */
  predicate ParentShape(d: Payload)
  {
    "parent" !in d || d["parent"].Null? || d["parent"].Str?
  }

  predicate CommentDataShape(d: Payload)
  {
    && Ref(d, "workspace").Some? && Ref(d, "author").Some? && Ref(d, "post").Some?
    && TextOk(d, "content", Some(MaxCommentLength))
    && ParentShape(d)
  }

  /**
   * `CommentSerializer` with every field: the workspace, author, post and
   * (when given) parent must exist. Nothing ties the post or the parent to
   * the request's workspace, or the parent to the same post.
   */
  predicate CommentDataValid(db: Store, d: Payload)
  {
    && CommentDataShape(d)
    && Ref(d, "workspace").value in WorkspaceIds(db)
    && Ref(d, "author").value in UserIds(db)
    && Ref(d, "post").value in PostIds(db)
    && (Ref(d, "parent").Some? ==> Ref(d, "parent").value in CommentIds(db))
  }

  function NewComment(d: Payload, id: string, now: int): Comment
    requires CommentDataShape(d)
  {
    Comment(id, Ref(d, "workspace").value, Ref(d, "author").value, Ref(d, "post").value,
            Ref(d, "parent"), CharInput(d["content"]).value, now)
  }

  /** `CommentViewSet.create`: workspace forced by `_get_data`, then validate and save. */
  function CreateComment(db: Store, attr: WorkspaceAttr, data: Payload, commentId: string, now: int)
    : (r: Outcome<Comment, FeedError>)
    ensures !TruthyId(AttrValue(attr)) ==> r == Outcome(db, Err(NoWorkspaceData(DataUnbound)))
    ensures r.response.Ok? <==> TruthyId(AttrValue(attr)) && CommentDataValid(db, GetData(attr, data).value)
    ensures r.response.Err? ==> r.store == db
    ensures TruthyId(AttrValue(attr)) && r.response.Err? ==> r.response.error == InvalidComment
    ensures r.response.Ok? ==>
      var c := r.response.value;
      && r.store == db.(comments := db.comments + [c])
      && c.id == commentId && c.createdAt == now
      && c.workspace == AttrValue(attr).value
      && data["author"] == Str(c.author) && data["post"] == Str(c.post)
      && c.post in PostIds(db)
      && c.parent == Ref(data, "parent")
      && (c.parent.Some? ==> c.parent.value in CommentIds(db))
      && "content" in data && CharInput(data["content"]) == Some(c.content)
      && c.content != "" && |c.content| <= MaxCommentLength
  {
    match GetData(attr, data)
    case Err(e) => Outcome(db, Err(NoWorkspaceData(e)))
    case Ok(d) =>
      if !CommentDataValid(db, d) then Outcome(db, Err(InvalidComment))
      else
        var c := NewComment(d, commentId, now);
        Outcome(db.(comments := db.comments + [c]), Ok(c))
  }

  method CreateCommentEndpoint(db: Database, request: Request, commentId: string, now: int)
    returns (response: Result<Comment, FeedError>)
    modifies db
    ensures db.state == CreateComment(old(db.state), request.workspaceAttr, request.data, commentId, now).store
    ensures response == CreateComment(old(db.state), request.workspaceAttr, request.data, commentId, now).response
  {
    var got := GetData(request.workspaceAttr, request.data);
    if got.Err? {
      return Err(NoWorkspaceData(got.error));
    }
    if !CommentDataValid(db.state, got.value) {
      return Err(InvalidComment);
    }
    var c := NewComment(got.value, commentId, now);
    db.state := db.state.(comments := db.state.comments + [c]);
    response := Ok(c);
  }

  /**
   * A comment may hang off a post of another workspace and reply to a
   * comment on a different post: neither reference is scoped or matched.
   */
  lemma CommentRefsNotScoped(db: Store, attr: WorkspaceAttr, author: UserId, p: Post, parent: Comment,
                             text: string, commentId: string, now: int)
    requires TruthyId(AttrValue(attr)) && AttrValue(attr).value in WorkspaceIds(db)
    requires author != "" && author in UserIds(db)
    requires p in db.posts && p.id != "" && p.workspace != AttrValue(attr).value
    requires parent in db.comments && parent.id != "" && parent.post != p.id
    requires text != "" && |text| <= MaxCommentLength
    ensures var data := map["author" := Str(author), "post" := Str(p.id), "parent" := Str(parent.id), "content" := Str(text)];
      var r := CreateComment(db, attr, data, commentId, now);
      && r.response.Ok?
      && r.response.value.post == p.id && r.response.value.parent == Some(parent.id)
      && r.response.value.workspace != p.workspace
  {
    var data := map["author" := Str(author), "post" := Str(p.id), "parent" := Str(parent.id), "content" := Str(text)];
    var d := GetData(attr, data).value;
    assert p.id in PostIds(db) && parent.id in CommentIds(db);
    assert Ref(d, "post") == Some(p.id) && Ref(d, "parent") == Some(parent.id);
  }

  // ---------------------------------------------------------------------
  // ActivityViewSet.create and GetPostLikes

  /** `Activity.LIKE`, the only activity type. */
  const LikeType := 'L'

  /** `Activity.object_id` is a `CharField(max_length=36)`. */
  const MaxObjectIdLength := 36

  /** A like by `user` on `objectId`, the key `unique_together` guards. */
  predicate LikeExists(db: Store, objectId: string, user: UserId)
  {
    exists a | a in db.activities :: a.objectId == objectId && a.activityType == LikeType && a.user == user
  }

  predicate ActivityDataShape(d: Payload)
  {
    && Ref(d, "workspace").Some? && Ref(d, "user").Some?
    && "activity_type" in d && d["activity_type"] == Str([LikeType])
    && "content_type" in d && KeyInput(d["content_type"]).Some?
    && TextOk(d, "object_id", Some(MaxObjectIdLength))
  }

  /**
   * `ActivitySerializer` with every field, over the content types that
   * exist: existing workspace and user, the 'L' choice, a known content
   * type, a non-blank object id of at most 36 characters, and the
   * `unique_together` validator on (object id, type, user). The `user` is
   * whoever the body names.
   */
  predicate ActivityDataValid(db: Store, contentTypes: set<int>, d: Payload)
  {
    && ActivityDataShape(d)
    && Ref(d, "workspace").value in WorkspaceIds(db)
    && Ref(d, "user").value in UserIds(db)
    && KeyInput(d["content_type"]).value in contentTypes
    && !LikeExists(db, CharInput(d["object_id"]).value, Ref(d, "user").value)
  }

  function NewActivity(d: Payload, id: string): Activity
    requires ActivityDataShape(d)
  {
    Activity(id, Ref(d, "workspace").value, Ref(d, "user").value, LikeType,
             KeyInput(d["content_type"]).value, CharInput(d["object_id"]).value)
  }

  /** `ActivityViewSet.create`: workspace forced by `_get_data`, then validate and save. */
  function CreateActivity(db: Store, contentTypes: set<int>, attr: WorkspaceAttr, data: Payload, activityId: string)
    : (r: Outcome<Activity, FeedError>)
    ensures !TruthyId(AttrValue(attr)) ==> r == Outcome(db, Err(NoWorkspaceData(DataUnbound)))
    ensures r.response.Ok? <==> TruthyId(AttrValue(attr)) && ActivityDataValid(db, contentTypes, GetData(attr, data).value)
    ensures r.response.Err? ==> r.store == db
    ensures TruthyId(AttrValue(attr)) && r.response.Err? ==> r.response.error == InvalidActivity
    ensures r.response.Ok? ==>
      var a := r.response.value;
      && r.store == db.(activities := db.activities + [a])
      && a.id == activityId && a.activityType == LikeType
      && a.workspace == AttrValue(attr).value
      && data["user"] == Str(a.user)
      && "object_id" in data && CharInput(data["object_id"]) == Some(a.objectId)
      && "content_type" in data && KeyInput(data["content_type"]) == Some(a.contentType)
      && a.contentType in contentTypes
      && !LikeExists(db, a.objectId, a.user)
  {
    match GetData(attr, data)
    case Err(e) => Outcome(db, Err(NoWorkspaceData(e)))
    case Ok(d) =>
      if !ActivityDataValid(db, contentTypes, d) then Outcome(db, Err(InvalidActivity))
      else
        var a := NewActivity(d, activityId);
        Outcome(db.(activities := db.activities + [a]), Ok(a))
  }

  method CreateActivityEndpoint(db: Database, contentTypes: set<int>, request: Request, activityId: string)
    returns (response: Result<Activity, FeedError>)
    modifies db
    ensures db.state == CreateActivity(old(db.state), contentTypes, request.workspaceAttr, request.data, activityId).store
    ensures response == CreateActivity(old(db.state), contentTypes, request.workspaceAttr, request.data, activityId).response
  {
    var got := GetData(request.workspaceAttr, request.data);
    if got.Err? {
      return Err(NoWorkspaceData(got.error));
    }
    if !ActivityDataValid(db.state, contentTypes, got.value) {
      return Err(InvalidActivity);
    }
    var a := NewActivity(got.value, activityId);
    db.state := db.state.(activities := db.state.activities + [a]);
    response := Ok(a);
  }

  /** Two activities differ on the `unique_together` key (object id, type, user). */
  function LikeKeysDiffer(a: Activity, b: Activity): bool
  {
    a.objectId != b.objectId || a.activityType != b.activityType || a.user != b.user
  }

  /** No two rows of the activity table share the `unique_together` key. */
  predicate UniqueLikes(acts: seq<Activity>)
  {
    Pairwise(acts, LikeKeysDiffer)
  }

  /** The serializer's validator keeps the table's `unique_together` constraint. */
  lemma CreateActivityKeepsUniqueLikes(db: Store, contentTypes: set<int>, attr: WorkspaceAttr, data: Payload, activityId: string)
    requires UniqueLikes(db.activities)
    ensures UniqueLikes(CreateActivity(db, contentTypes, attr, data, activityId).store.activities)
  {
    var r := CreateActivity(db, contentTypes, attr, data, activityId);
    if r.response.Ok? {
      var a := r.response.value;
      var acts := r.store.activities;
      forall i, j | 0 <= i < j < |acts| ensures LikeKeysDiffer(acts[i], acts[j]) {
        if j == |db.activities| {
          assert acts[i] in db.activities;
        } else {
          assert acts[i] == db.activities[i] && acts[j] == db.activities[j];
        }
      }
    }
  }

  /** A second like by the same user on the same object is refused. */
  lemma DuplicateLikeRejected(db: Store, contentTypes: set<int>, attr: WorkspaceAttr, data: Payload,
                              activityId: string, existing: Activity)
    requires existing in db.activities && existing.activityType == LikeType
    requires "user" in data && data["user"] == Str(existing.user)
    requires "object_id" in data && CharInput(data["object_id"]) == Some(existing.objectId)
    ensures CreateActivity(db, contentTypes, attr, data, activityId).response.Err?
  {
    if TruthyId(AttrValue(attr)) {
      var d := GetData(attr, data).value;
      assert d["user"] == data["user"] && d["object_id"] == data["object_id"];
    }
  }

  /** `ContentType` id of `Post`, as `GetPostLikes` hard-codes it. */
  const PostContentType := 6

  function IsPostLike(postId: string): Activity -> bool
  {
    (a: Activity) => a.activityType == LikeType && a.objectId == postId && a.contentType == PostContentType
  }

  /**
   * `GetPostLikes.get`: every like of the post, in table order, whatever
   * workspace it was recorded in; no tenant filter applies.
   */
  function PostLikes(db: Store, postId: string): (r: seq<Activity>)
    ensures forall a | a in r :: a in db.activities
    ensures forall a | a in db.activities ::
      a in r <==> a.activityType == LikeType && a.objectId == postId && a.contentType == PostContentType
  {
    Where(db.activities, IsPostLike(postId))
  }

  /** With the `unique_together` constraint held, a post's likes are by distinct users. */
  lemma OneLikePerUser(db: Store, postId: string)
    requires UniqueLikes(db.activities)
    ensures forall i, j | 0 <= i < j < |PostLikes(db, postId)| :: PostLikes(db, postId)[i].user != PostLikes(db, postId)[j].user
  {
    var likes := PostLikes(db, postId);
    WhereKeepsPairwise(db.activities, IsPostLike(postId), LikeKeysDiffer);
    forall i, j | 0 <= i < j < |likes| ensures likes[i].user != likes[j].user {
      assert LikeKeysDiffer(likes[i], likes[j]);
      assert likes[i] in likes && likes[j] in likes;
    }
  }

  // ---------------------------------------------------------------------
  // List ordering

  function PostTime(p: Post): int { p.createdAt }

  function PostWorkspace(p: Post): WorkspaceId { p.workspace }

  function CommentTime(c: Comment): int { c.createdAt }

  function CommentWorkspace(c: Comment): WorkspaceId { c.workspace }

  /**
   * `PostViewset.list`: `Post.objects.all().order_by('-created_at')`
   * through the tenant gate: the workspace's posts, newest first.
   */
  function PostList(db: Store, u: User, attr: WorkspaceAttr): (r: Result<seq<Post>, GateError>)
    ensures r.Ok? <==> TruthyId(AttrValue(attr)) && IsMember(db, AttrValue(attr).value, u.id)
    ensures r.Ok? ==> Descending(r.value, PostTime)
    ensures r.Ok? ==> forall p | p in r.value :: p in db.posts && p.workspace == AttrValue(attr).value
    ensures r.Ok? ==> forall p | p in db.posts && p.workspace == AttrValue(attr).value :: p in r.value
  {
    var sorted := SortDescending(db.posts, PostTime);
    var r := GetQueryset(sorted, PostWorkspace, db, u, attr);
    if r.Ok? then
      InWorkspaceKeepsDescending(sorted, PostWorkspace, AttrValue(attr).value, PostTime);
      SameRows(sorted, db.posts);
      r
    else r
  }

  /** `CommentViewSet.list`: the workspace's comments, newest first. */
  function CommentList(db: Store, u: User, attr: WorkspaceAttr): (r: Result<seq<Comment>, GateError>)
    ensures r.Ok? <==> TruthyId(AttrValue(attr)) && IsMember(db, AttrValue(attr).value, u.id)
    ensures r.Ok? ==> Descending(r.value, CommentTime)
    ensures r.Ok? ==> forall c | c in r.value :: c in db.comments && c.workspace == AttrValue(attr).value
    ensures r.Ok? ==> forall c | c in db.comments && c.workspace == AttrValue(attr).value :: c in r.value
  {
    var sorted := SortDescending(db.comments, CommentTime);
    var r := GetQueryset(sorted, CommentWorkspace, db, u, attr);
    if r.Ok? then
      InWorkspaceKeepsDescending(sorted, CommentWorkspace, AttrValue(attr).value, CommentTime);
      SameRows(sorted, db.comments);
      r
    else r
  }
}
