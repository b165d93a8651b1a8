/**
 * The tables the posts views change in place, and the views that change
 * them: `profile_follow`, `profile_unfollow`, `add_comment`, `post_create`
 * and `post_edit` (yatube/posts/views.py). Form validity is an input.
 */
module Yatube {
  import opened Wrappers
  import opened Seqs
  import opened Models
  import opened Paginator
  import opened Follows
  import opened Views

  /** How a writing view ended. */
  datatype Outcome =
    | NotFound   // get_object_or_404 found no post
    | NotAuthor  // the requester may not edit the post; redirected
    | NotSaved   // the form was not valid (or not submitted); nothing stored
    | Saved      // the row was stored

  class Store {
    var posts: seq<Post>
    var comments: seq<Comment>
    var follows: seq<Follow>
    var nextPostId: PostId

    /** The database invariants: the `unique_pairs` constraint, primary keys
        handed out in increasing order, and every comment attached to a
        stored post. */
    ghost predicate Valid()
      reads this
    {
      && UniquePairs(follows)
      && (forall i, j :: 0 <= i < j < |posts| ==> posts[i].id < posts[j].id)
      && (forall i :: 0 <= i < |posts| ==> posts[i].id < nextPostId)
      && (forall c :: c in comments ==> FindPost(posts, c.post).Some?)
    }

    /** An empty database; keys start at 1. */
    constructor ()
      ensures Valid()
      ensures posts == [] && comments == [] && follows == [] && nextPostId == 1
    {
      posts, comments, follows, nextPostId := [], [], [], 1;
    }

    /** `profile_follow`: subscribe `user` to `author` unless that is the
        user themselves or the pair is already stored. */
    method ProfileFollow(user: UserId, author: UserId, pageNumber: Option<int>) returns (ctx: ProfileContext)
      requires Valid()
      modifies this`follows
      ensures Valid()
      ensures follows == FollowAfter(old(follows), user, author)
      ensures ctx == ProfileContext(author, CastomPaginator(AuthorPosts(posts, author), pageNumber), Some(true))
    {
      var pair := Follow(user, author);
      if user != author && pair !in follows {
        follows := follows + [pair];
      }
      FollowKeepsUnique(old(follows), user, author);
      ctx := ProfileContext(author, CastomPaginator(AuthorPosts(posts, author), pageNumber), Some(true));
    }

    /** `profile_unfollow`: delete the pair if it is stored. */
    method ProfileUnfollow(user: UserId, author: UserId, pageNumber: Option<int>) returns (ctx: ProfileContext)
      requires Valid()
      modifies this`follows
      ensures Valid()
      ensures follows == UnfollowAfter(old(follows), user, author)
      ensures ctx == ProfileContext(author, CastomPaginator(AuthorPosts(posts, author), pageNumber), Some(false))
    {
      var pair := Follow(user, author);
      if pair in follows {
        follows := Filter(follows, f => f != pair);
      }
      UnfollowKeepsUnique(old(follows), user, author);
      ctx := ProfileContext(author, CastomPaginator(AuthorPosts(posts, author), pageNumber), Some(false));
    }

    /** `add_comment`: store the comment of `user` on post `id` when the
        post exists and the comment form is valid. */
    method AddComment(user: UserId, id: PostId, text: string, valid: bool) returns (outcome: Outcome)
      requires Valid()
      modifies this`comments
      ensures Valid()
      ensures comments == CommentAfter(posts, old(comments), user, id, text, valid)
      ensures outcome == NotFound <==> FindPost(posts, id).None?
      ensures outcome == Saved <==> comments != old(comments)
      ensures outcome in {NotFound, NotSaved, Saved}
    {
      var found := FindPost(posts, id);
      if found.None? {
        return NotFound;
      }
      if valid {
        comments := comments + [Comment(id, user, text)];
        outcome := Saved;
      } else {
        outcome := NotSaved;
      }
    }

    /** `post_create`: on a submitted, valid form store a new post by
        `user` under the next primary key. */
    method PostCreate(user: UserId, submitted: bool, form: PostForm, valid: bool) returns (outcome: Outcome)
      requires Valid()
      modifies this`posts, this`nextPostId
      ensures Valid()
      ensures outcome == Saved <==> submitted && valid
      ensures outcome in {NotSaved, Saved}
      ensures outcome == Saved ==>
        && posts == old(posts) + [Post(old(nextPostId), user, form.text, form.group, form.image)]
        && nextPostId == old(nextPostId) + 1
      ensures outcome == NotSaved ==> posts == old(posts) && nextPostId == old(nextPostId)
    {
      if submitted && valid {
        var p := Post(nextPostId, user, form.text, form.group, form.image);
        forall c | c in comments ensures FindPost(posts + [p], c.post).Some? {
          FindPostAppend(posts, p, c.post);
        }
        posts := posts + [p];
        nextPostId := nextPostId + 1;
        outcome := Saved;
      } else {
        outcome := NotSaved;
      }
    }

    /** `post_edit`: the post must exist, the requester must be its author
        and the form valid; only then are the form's fields saved. */
    method PostEdit(user: UserId, id: PostId, form: PostForm, valid: bool) returns (outcome: Outcome)
      requires Valid()
      modifies this`posts
      ensures Valid()
      ensures posts == EditAfter(old(posts), user, id, form, valid)
      ensures outcome == NotFound <==> FindPost(old(posts), id).None?
      ensures outcome == NotAuthor <==>
        FindPost(old(posts), id).Some? && old(posts)[FindPost(old(posts), id).value].author != user
      ensures outcome == Saved <==>
        FindPost(old(posts), id).Some? && old(posts)[FindPost(old(posts), id).value].author == user && valid
    {
      var found := FindPost(posts, id);
      if found.None? {
        return NotFound;
      }
      var i := found.value;
      if user != posts[i].author {
        return NotAuthor;
      }
      if !valid {
        return NotSaved;
      }
      var edited := posts[i := Edited(posts[i], form)];
      forall c | c in comments ensures FindPost(edited, c.post).Some? {
        FindPostSameKeys(posts, edited, c.post);
      }
      posts := edited;
      outcome := Saved;
    }
  }
}
