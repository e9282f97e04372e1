/**
 * The read side of the feed serializers: the author projection, the like
 * flags every post and comment carries for the requesting user, the
 * recursive comment tree and the post view with its top-level comments
 * and comment count.
 */
module FeedViews {
  import opened Common
  import opened Seqs
  import opened Store
  import opened FeedApi

  /** `AuthorSerializer`: only `id`, `first_name` and `last_name` leave the server. */
  datatype AuthorView = AuthorView(id: UserId, firstName: string, lastName: string)

  function AuthorOf(u: User): AuthorView
  {
    AuthorView(u.id, u.firstName, u.lastName)
  }

  /** The author projection shows nothing of the credentials, flags or contact data. */
  lemma AuthorHidesAccount(u: User, v: User)
    requires u.id == v.id && u.firstName == v.firstName && u.lastName == v.lastName
    ensures AuthorOf(u) == AuthorOf(v)
  {
  }

  /** The nested author of a row; None only for a dangling reference, which the foreign key rules out. */
  function AuthorRow(db: Store, id: UserId): (r: Option<AuthorView>)
    ensures r.Some? <==> id in UserIds(db)
    ensures r.Some? ==> r.value.id == id
  {
    match FindUser(db, id)
    case None => None
    case Some(u) => Some(AuthorOf(u))
  }

  /**
   * What the serializer context supplies: the requesting user, when a
   * request is in the context, and the `ContentType` ids of `Post` and
   * `Comment` that their `likes` generic relations filter on.
   */
  datatype ViewContext = ViewContext(requester: Option<UserId>, postType: int, commentType: int)

  function OnObject(contentType: int, objectId: string): Activity -> bool
  {
    (a: Activity) => a.contentType == contentType && a.objectId == objectId
  }

  function ByUser(u: UserId): Activity -> bool
  {
    (a: Activity) => a.user == u
  }

  /** `instance.likes`: the activities on the object, of any type, in table order. */
  function LikesOn(db: Store, contentType: int, objectId: string): (r: seq<Activity>)
    ensures forall a | a in r :: a in db.activities
    ensures forall a | a in db.activities :: a in r <==> a.contentType == contentType && a.objectId == objectId
  {
    Where(db.activities, OnObject(contentType, objectId))
  }

  /** `get_is_liked`: a like by the requester exists; False without a request. */
  function IsLiked(db: Store, requester: Option<UserId>, contentType: int, objectId: string): (r: bool)
    ensures r <==> (requester.Some? &&
      exists a | a in db.activities :: a.contentType == contentType && a.objectId == objectId && a.user == requester.value)
  {
    requester.Some? && FirstWhere(LikesOn(db, contentType, objectId), ByUser(requester.value)).Some?
  }

  /** `get_like_id`: the id of a like by the requester, if there is one; None without a request. */
  function LikeId(db: Store, requester: Option<UserId>, contentType: int, objectId: string): (r: Option<string>)
    ensures requester.None? ==> r.None?
    ensures r.Some? ==> exists a | a in db.activities ::
      a.contentType == contentType && a.objectId == objectId && a.user == requester.value && a.id == r.value
  {
    if requester.None? then None
    else match FirstWhere(LikesOn(db, contentType, objectId), ByUser(requester.value))
      case None => None
      case Some(a) => Some(a.id)
  }

  /** For one request, `is_liked` holds exactly when `like_id` is not None. */
  lemma IsLikedIffLikeId(db: Store, requester: Option<UserId>, contentType: int, objectId: string)
    ensures IsLiked(db, requester, contentType, objectId) <==> LikeId(db, requester, contentType, objectId).Some?
  {
  }

  /**
   * Under the `unique_together` constraint, with every activity a like and
   * with `ContentType` ids telling models apart, `like_id` names the one
   * like the requester holds, whatever order `.first()` uses.
   */
  lemma LikeIdIsTheLike(db: Store, u: UserId, contentType: int, like: Activity)
    requires UniqueLikes(db.activities)
    requires forall a | a in db.activities :: a.activityType == LikeType
    requires like in db.activities && like.contentType == contentType && like.user == u
    requires forall a | a in db.activities && a.objectId == like.objectId :: a.contentType == contentType
    ensures LikeId(db, Some(u), contentType, like.objectId) == Some(like.id)
  {
    var likes := LikesOn(db, contentType, like.objectId);
    forall a | a in likes && ByUser(u)(a) ensures a == like {
      var i :| 0 <= i < |db.activities| && db.activities[i] == a;
      var j :| 0 <= j < |db.activities| && db.activities[j] == like;
      assert !LikeKeysDiffer(db.activities[i], db.activities[j]) && !LikeKeysDiffer(db.activities[j], db.activities[i]);
    }
    FirstWhereUnique(likes, ByUser(u), like);
  }

  // ---------------------------------------------------------------------
  // CommentListSerializer

  datatype CommentView = CommentView(
    id: string,
    author: Option<AuthorView>,
    workspace: WorkspaceId,
    post: string,
    parent: Option<string>,
    content: string,
    createdAt: int,
    likesCount: nat,
    isLiked: bool,
    likeId: Option<string>,
    replies: seq<CommentView>)

  function ChildOf(id: string): Comment -> bool
  {
    (c: Comment) => c.parent == Some(id)
  }

  /** `comment.comment_set.all()`: the direct replies, in table order. */
  function Children(db: Store, id: string): (r: seq<Comment>)
    ensures forall c | c in r :: c in db.comments && c.parent == Some(id)
    ensures forall c | c in db.comments && c.parent == Some(id) :: c in r
  {
    Where(db.comments, ChildOf(id))
  }

  /**
   * `CommentListSerializer(comment, context=...)`: the row with its author,
   * like flags and count, and `get_replies` serializing the direct replies
   * recursively with the same context. `fuel` bounds the depth: with
   * `|db.comments|` it covers every chain of replies that does not loop.
   */
  function CommentTree(db: Store, ctx: ViewContext, c: Comment, fuel: nat): (v: CommentView)
    ensures v.id == c.id && v.post == c.post && v.parent == c.parent && v.workspace == c.workspace
    ensures v.content == c.content && v.createdAt == c.createdAt
    ensures v.likesCount == |LikesOn(db, ctx.commentType, c.id)|
    ensures FlagsAgree(v)
    ensures ctx.requester.None? ==> NothingLiked(v)
    ensures v.author.Some? <==> c.author in UserIds(db)
    ensures v.author == AuthorRow(db, c.author)
    ensures v.isLiked == IsLiked(db, ctx.requester, ctx.commentType, c.id)
    ensures v.likeId == LikeId(db, ctx.requester, ctx.commentType, c.id)
    ensures fuel == 0 ==> v.replies == []
    ensures fuel > 0 ==> |v.replies| == |Children(db, c.id)|
    ensures fuel > 0 ==> forall i | 0 <= i < |v.replies| ::
      v.replies[i].id == Children(db, c.id)[i].id && v.replies[i].parent == Some(c.id)
    decreases fuel
  {
    IsLikedIffLikeId(db, ctx.requester, ctx.commentType, c.id);
    var kids := Children(db, c.id);
    var replies := if fuel == 0 then [] else seq(|kids|, i requires 0 <= i < |kids| => CommentTree(db, ctx, kids[i], fuel - 1));
    assert fuel > 0 ==> forall i | 0 <= i < |kids| :: kids[i] in kids && replies[i].parent == kids[i].parent;
    CommentView(c.id, AuthorRow(db, c.author), c.workspace, c.post, c.parent, c.content, c.createdAt,
                |LikesOn(db, ctx.commentType, c.id)|,
                IsLiked(db, ctx.requester, ctx.commentType, c.id),
                LikeId(db, ctx.requester, ctx.commentType, c.id),
                replies)
  }

  /** `is_liked` and `like_id` agree at every node of a serialized comment tree. */
  predicate FlagsAgree(v: CommentView)
  {
    (v.isLiked <==> v.likeId.Some?) && forall i | 0 <= i < |v.replies| :: FlagsAgree(v.replies[i])
  }

  /** No node of the tree is liked. */
  predicate NothingLiked(v: CommentView)
  {
    !v.isLiked && v.likeId.None? && forall i | 0 <= i < |v.replies| :: NothingLiked(v.replies[i])
  }

  // ---------------------------------------------------------------------
  // PostListSerializer

  datatype PostView = PostView(
    id: string,
    author: Option<AuthorView>,
    workspace: WorkspaceId,
    likesCount: nat,
    isLiked: bool,
    likeId: Option<string>,
    comments: seq<CommentView>,
    commentsCount: nat,
    content: string,
    images: seq<string>,
    videos: seq<string>,
    createdAt: int)

  function OnPost(postId: string): Comment -> bool
  {
    (c: Comment) => c.post == postId
  }

  function IsTopLevel(c: Comment): bool
  {
    c.parent.None?
  }

  function IsReply(c: Comment): bool
  {
    c.parent.Some?
  }

  /** `post.post_comments`: every comment on the post, replies included. */
  function PostComments(db: Store, postId: string): (r: seq<Comment>)
    ensures forall c | c in r :: c in db.comments && c.post == postId
    ensures forall c | c in db.comments && c.post == postId :: c in r
  {
    Where(db.comments, OnPost(postId))
  }

  /** `post_comments.filter(parent=None).order_by('-created_at')`. */
  function TopLevelComments(db: Store, postId: string): (r: seq<Comment>)
    ensures Descending(r, CommentTime)
    ensures forall c | c in r :: c in db.comments && c.post == postId && c.parent.None?
    ensures forall c | c in db.comments && c.post == postId && c.parent.None? :: c in r
  {
    var top := Where(PostComments(db, postId), IsTopLevel);
    var r := SortDescending(top, CommentTime);
    SameRows(r, top);
    r
  }

  /** `post.images` / `post.videos`: the ids of the rows linked to the post, in table order. */
  function MediaOf(rows: seq<Media>, postId: string): (ids: seq<string>)
    ensures forall m | m in rows && m.post == Some(postId) :: m.id in ids
    ensures forall i | 0 <= i < |ids| :: exists m | m in rows :: m.post == Some(postId) && m.id == ids[i]
  {
    if rows == [] then []
    else
      var rest := MediaOf(rows[1..], postId);
      assert forall m | m in rows[1..] :: m in rows;
      (if rows[0].post == Some(postId) then [rows[0].id] else []) + rest
  }

  /**
   * `PostListSerializer(post, context=...)`: the post with its author, like
   * flags and count, its top-level comments newest first (each a full
   * comment tree), the count of all its comments, and its images and videos.
   */
  function PostViewOf(db: Store, ctx: ViewContext, p: Post): (v: PostView)
    ensures v.id == p.id && v.workspace == p.workspace && v.content == p.content && v.createdAt == p.createdAt
    ensures v.likesCount == |LikesOn(db, ctx.postType, p.id)|
    ensures v.author == AuthorRow(db, p.author)
    ensures v.isLiked == IsLiked(db, ctx.requester, ctx.postType, p.id)
    ensures v.likeId == LikeId(db, ctx.requester, ctx.postType, p.id)
    ensures v.isLiked <==> v.likeId.Some?
    ensures ctx.requester.None? ==> !v.isLiked && v.likeId.None?
    ensures v.images == MediaOf(db.images, p.id) && v.videos == MediaOf(db.videos, p.id)
    ensures v.commentsCount == |PostComments(db, p.id)|
    ensures |v.comments| == |TopLevelComments(db, p.id)|
    ensures forall i | 0 <= i < |v.comments| ::
      v.comments[i].id == TopLevelComments(db, p.id)[i].id && v.comments[i].parent.None? && v.comments[i].post == p.id
    ensures forall i | 0 <= i < |v.comments| :: v.comments[i] == CommentTree(db, ctx, TopLevelComments(db, p.id)[i], |db.comments|)
  {
    var top := TopLevelComments(db, p.id);
    IsLikedIffLikeId(db, ctx.requester, ctx.postType, p.id);
    var comments := seq(|top|, i requires 0 <= i < |top| => CommentTree(db, ctx, top[i], |db.comments|));
    assert forall i | 0 <= i < |top| :: top[i] in top;
    PostView(p.id, AuthorRow(db, p.author), p.workspace,
             |LikesOn(db, ctx.postType, p.id)|,
             IsLiked(db, ctx.requester, ctx.postType, p.id),
             LikeId(db, ctx.requester, ctx.postType, p.id),
             comments,
             |PostComments(db, p.id)|,
             p.content, MediaOf(db.images, p.id), MediaOf(db.videos, p.id), p.createdAt)
  }

  /**
   * Every node of a post's serialized comments agrees on `is_liked` and
   * `like_id`, and without a request in the context none is liked.
   */
  lemma PostCommentFlags(db: Store, ctx: ViewContext, p: Post)
    ensures forall v | v in PostViewOf(db, ctx, p).comments :: FlagsAgree(v)
    ensures ctx.requester.None? ==> forall v | v in PostViewOf(db, ctx, p).comments :: NothingLiked(v)
  {
    var top := TopLevelComments(db, p.id);
    var vs := PostViewOf(db, ctx, p).comments;
    forall v | v in vs ensures FlagsAgree(v) && (ctx.requester.None? ==> NothingLiked(v)) {
      var i :| 0 <= i < |vs| && vs[i] == v;
      assert v == CommentTree(db, ctx, top[i], |db.comments|);
    }
  }

  /** `comments_count` counts replies too: it is the top-level comments plus the replies on the post. */
  lemma CommentsCountIncludesReplies(db: Store, ctx: ViewContext, p: Post)
    ensures PostViewOf(db, ctx, p).commentsCount
         == |PostViewOf(db, ctx, p).comments| + |Where(PostComments(db, p.id), IsReply)|
  {
    var all := PostComments(db, p.id);
    WhereSplitCount(all, IsTopLevel, IsReply);
    var top := Where(all, IsTopLevel);
    assert multiset(TopLevelComments(db, p.id)) == multiset(top);
    assert |TopLevelComments(db, p.id)| == |multiset(top)|;
  }

  /**
   * With `Post`'s content type being 6 and every activity a like, a post's
   * `likes_count` is the length of what `GetPostLikes` lists for it.
   */
  lemma LikesCountMatchesLikesList(db: Store, ctx: ViewContext, p: Post)
    requires ctx.postType == PostContentType
    requires forall a | a in db.activities :: a.activityType == LikeType
    ensures PostViewOf(db, ctx, p).likesCount == |PostLikes(db, p.id)|
  {
    WhereSameOn(db.activities, OnObject(PostContentType, p.id), IsPostLike(p.id));
  }

  /**
   * `PostViewset.create` answers with `PostListSerializer(post)` and no
   * request in the context, so the new post is never shown as liked, even
   * when its author has a like on it.
   */
  lemma CreatedPostShownUnliked(db: Store, attr: WorkspaceAttr, data: Payload, postId: string, now: int,
                                postType: int, commentType: int)
    ensures var r := CreatePost(db, attr, data, postId, now);
      r.response.Ok? ==>
        var v := PostViewOf(r.store, ViewContext(None, postType, commentType), r.response.value);
        && v.id == postId && !v.isLiked && v.likeId.None?
  {
  }
}
