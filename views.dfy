/**
 * The listing views of yatube/posts/views.py as functions of the stored
 * tables, and the rules `post_edit` and `add_comment` apply before they
 * write, as functions from the old table to the new one.
 */
module Views {
  import opened Wrappers
  import opened Seqs
  import opened Models
  import opened Paginator
  import opened Follows

  /** What the profile template receives: the author, the page of their
      posts and, for a signed-in viewer, the `following` flag. */
  datatype ProfileContext = ProfileContext(author: UserId, page: Option<Page<Post>>, following: Option<bool>)

  /** `author.posts.all()`. */
  function AuthorPosts(posts: seq<Post>, author: UserId): (r: seq<Post>)
    ensures forall p :: p in r <==> p in posts && p.author == author
  {
    Filter(posts, (p: Post) => p.author == author)
  }

  /** `group.posts.all()`. */
  function GroupPostList(posts: seq<Post>, group: GroupId): (r: seq<Post>)
    ensures forall p :: p in r <==> p in posts && p.group == Some(group)
  {
    Filter(posts, (p: Post) => p.group == Some(group))
  }

  /** `post.comments.all()`. */
  function CommentsOf(comments: seq<Comment>, post: PostId): (r: seq<Comment>)
    ensures forall c :: c in r <==> c in comments && c.post == post
  {
    Filter(comments, (c: Comment) => c.post == post)
  }

  /** `index`: a page of all posts. */
  function Index(posts: seq<Post>, pageNumber: Option<int>): (r: Option<Page<Post>>)
    ensures pageNumber.None? ==> r == Some(PageAt(posts, 1, POSTS_ON_PAGE))
    ensures r.Some? ==> |r.value.items| <= POSTS_ON_PAGE && forall p :: p in r.value.items ==> p in posts
  {
    CastomPaginator(posts, pageNumber)
  }

  /** `group_posts`: a page of the group's posts, and of no other post. */
  function GroupPosts(posts: seq<Post>, group: GroupId, pageNumber: Option<int>): (r: Option<Page<Post>>)
    ensures pageNumber.None? ==> r.Some? && r.value.number == 1
    ensures r.Some? ==> |r.value.items| <= POSTS_ON_PAGE
    ensures r.Some? ==> forall p :: p in r.value.items ==> p in posts && p.group == Some(group)
  {
    CastomPaginator(GroupPostList(posts, group), pageNumber)
  }

  /** `profile`: a page of the author's posts and the `following` flag. */
  function Profile(posts: seq<Post>, rows: seq<Follow>, viewer: Viewer, author: UserId, pageNumber: Option<int>)
    : (ctx: ProfileContext)
    ensures ctx.author == author
    ensures pageNumber.None? ==> ctx.page.Some? && ctx.page.value.number == 1
    ensures ctx.page.Some? ==> forall p :: p in ctx.page.value.items ==> p in posts && p.author == author
    ensures ctx.following.None? <==> viewer.Anonymous?
    ensures viewer.Authenticated? ==>
      (ctx.following == Some(true) <==> viewer.id == author || Follow(viewer.id, author) in rows)
  {
    ProfileContext(author, CastomPaginator(AuthorPosts(posts, author), pageNumber), ProfileFollowing(rows, viewer, author))
  }

  /** `follow_index`: a page of the feed of `user`. */
  function FollowIndex(posts: seq<Post>, rows: seq<Follow>, user: UserId, pageNumber: Option<int>)
    : (r: Option<Page<Post>>)
    ensures pageNumber.None? ==> r.Some? && r.value.number == 1
    ensures r.Some? ==> |r.value.items| <= POSTS_ON_PAGE
    ensures r.Some? ==> forall p :: p in r.value.items ==> p in posts && Follow(user, p.author) in rows
  {
    CastomPaginator(FollowFeed(posts, rows, user), pageNumber)
  }

  /** `get_object_or_404(Post, id=id)`: the position of the first post with
      that primary key, or None (the 404 case). */
  function FindPost(posts: seq<Post>, id: PostId): (r: Option<nat>)
    ensures r.Some? ==> r.value < |posts| && posts[r.value].id == id
    ensures r.None? <==> forall p :: p in posts ==> p.id != id
    decreases |posts|
  {
    if posts == [] then None
    else if posts[0].id == id then Some(0)
    else
      match FindPost(posts[1..], id)
      case None => None
      case Some(i) => Some(i + 1)
  }

  /** Two tables with the same keys in the same places find the same rows. */
  lemma {:induction false} FindPostSameKeys(posts: seq<Post>, posts': seq<Post>, id: PostId)
    requires |posts'| == |posts|
    requires forall i :: 0 <= i < |posts| ==> posts'[i].id == posts[i].id
    ensures FindPost(posts', id) == FindPost(posts, id)
    decreases |posts|
  {
    if posts != [] {
      FindPostSameKeys(posts[1..], posts'[1..], id);
    }
  }

  /** Appending a row does not move the rows already found. */
  lemma {:induction false} FindPostAppend(posts: seq<Post>, p: Post, id: PostId)
    requires FindPost(posts, id).Some?
    ensures FindPost(posts + [p], id) == FindPost(posts, id)
    decreases |posts|
  {
    assert (posts + [p])[0] == posts[0];
    if posts[0].id != id {
      assert (posts + [p])[1..] == posts[1..] + [p];
      FindPostAppend(posts[1..], p, id);
    }
  }

  /** `form.save()` on the post's instance: the form's fields replace the
      post's, the key and the author are kept. */
  function Edited(p: Post, form: PostForm): (q: Post)
    ensures q.id == p.id && q.author == p.author
    ensures q.text == form.text && q.group == form.group && q.image == form.image
  {
    p.(text := form.text, group := form.group, image := form.image)
  }

  /** The posts table after `post_edit`: the post is found (else 404), the
      requester must be its author (else redirect) and the form valid (else
      the form is shown again); only then is the edit saved. */
  function EditAfter(posts: seq<Post>, user: UserId, id: PostId, form: PostForm, valid: bool): (r: seq<Post>)
    ensures |r| == |posts|
    // an edit never changes a key or an authorship
    ensures forall i :: 0 <= i < |posts| ==> r[i].id == posts[i].id && r[i].author == posts[i].author
    // nothing but the edited post changes
    ensures forall i :: 0 <= i < |posts| && posts[i].id != id ==> r[i] == posts[i]
    // only a valid edit by the author is stored
    ensures r != posts ==> valid && exists i :: 0 <= i < |posts| && posts[i].id == id && posts[i].author == user
    ensures FindPost(posts, id).Some? && posts[FindPost(posts, id).value].author == user && valid ==>
      r[FindPost(posts, id).value] == Edited(posts[FindPost(posts, id).value], form)
  {
    match FindPost(posts, id)
    case None => posts
    case Some(i) =>
      if user != posts[i].author then posts
      else if !valid then posts
      else posts[i := Edited(posts[i], form)]
  }

  /** An edit by anybody but the author leaves the table as it was. */
  lemma NonAuthorEditIsIgnored(posts: seq<Post>, user: UserId, id: PostId, form: PostForm, valid: bool)
    requires forall p :: p in posts && p.id == id ==> p.author != user
    ensures EditAfter(posts, user, id, form, valid) == posts
  {
  }

  /** The comments table after `add_comment`: the post is found (else 404)
      and, if the form is valid, the comment is stored with the requester
      as its author and the post as its target. */
  function CommentAfter(posts: seq<Post>, comments: seq<Comment>, user: UserId, id: PostId, text: string, valid: bool)
    : (r: seq<Comment>)
    ensures r == comments || r == comments + [Comment(id, user, text)]
    ensures r != comments <==> valid && exists p :: p in posts && p.id == id
  {
    if FindPost(posts, id).Some? && valid then comments + [Comment(id, user, text)] else comments
  }

  /** A stored comment shows at the end of its post's comments, and the
      comments of every other post stay as they were. */
  lemma CommentListedUnderPost(posts: seq<Post>, comments: seq<Comment>, user: UserId, id: PostId, text: string, valid: bool, other: PostId)
    requires valid && exists p :: p in posts && p.id == id
    requires other != id
    ensures CommentsOf(CommentAfter(posts, comments, user, id, text, valid), id)
      == CommentsOf(comments, id) + [Comment(id, user, text)]
    ensures CommentsOf(CommentAfter(posts, comments, user, id, text, valid), other) == CommentsOf(comments, other)
  {
    var c := Comment(id, user, text);
    FilterAppend(comments, [c], (c: Comment) => c.post == id);
    FilterAppend(comments, [c], (c: Comment) => c.post == other);
  }

  /** A new post shows last on its author's profile, on its group's page
      and in the feed of every follower of its author. */
  lemma CreatedPostListed(posts: seq<Post>, rows: seq<Follow>, p: Post, follower: UserId)
    requires UniquePairs(rows) && Follow(follower, p.author) in rows
    ensures AuthorPosts(posts + [p], p.author) == AuthorPosts(posts, p.author) + [p]
    ensures p.group.Some? ==> GroupPostList(posts + [p], p.group.value) == GroupPostList(posts, p.group.value) + [p]
    ensures FollowFeed(posts + [p], rows, follower) == FollowFeed(posts, rows, follower) + [p]
  {
    FilterAppend(posts, [p], (q: Post) => q.author == p.author);
    if p.group.Some? {
      FilterAppend(posts, [p], (q: Post) => q.group == p.group);
    }
    FeedAppend(posts, p, rows, follower);
    UniqueIffCountsAtMostOne(rows);
    assert Repeat(p, multiset(rows)[Follow(follower, p.author)]) == [p];
  }
}
