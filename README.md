# Yatube posts: follow relation, listings, edit and comment gates, pagination

This project models the business rules of the `posts` app of Yatube, a small
blogging site. Users write posts, optionally in a group. They comment on
posts and follow other authors. The model is an in-memory store with no web
framework around it:

- **Tables.** `posts`, `comments` and `follows` are sequences of rows (`models.dfy`).
  The Follow table is a sequence rather than a set. That way the database's
  `unique_pairs` constraint (`Follows.UniquePairs`) is a real invariant that
  the follow operation has to keep.
- **Follow relation** (`follows.dfy`). `FollowAfter` and `UnfollowAfter` give
  the table after `profile_follow` and `profile_unfollow`. `ProfileFollowing`
  is the `following` flag that `profile` computes. `FollowFeed` is the query
  behind `follow_index`: a join that lists a post once for every Follow row
  that subscribes the user to the post's author. Under the unique-pairs
  constraint that join becomes a plain filter (`FeedUnderUniqueIsFilter`).
- **Listings and write rules** (`views.dfy`). The read-only views (`Index`,
  `GroupPosts`, `Profile`, `FollowIndex`) are functions of the tables.
  `EditAfter` and `CommentAfter` are the gates `post_edit` and `add_comment`
  apply before they write. Form validity is a boolean input, and the form's
  cleaned data is given.
- **The store** (`store.dfy`). `Yatube.Store` is a class holding the tables.
  Its methods are the writing views. Each one keeps `Valid()`: unique pairs,
  increasing primary keys, and every comment attached to a stored post. Each
  one states its new state through the functions above.
- **Pagination** (`paginator.dfy`). `CastomPaginator` cuts a listing into
  pages of `POSTS_ON_PAGE` items. The constant's value is in the settings
  module, which is not part of this model, so the model only knows it is
  positive. With no `page` parameter, the first page is returned.

`profile_follow` always renders `following: True`, and `profile_unfollow`
always renders `following: False`. `FlagAfterFollow` shows that the first
agrees with what `profile` computes afterwards. `FlagAfterUnfollow` shows the
same for the second when the user is not the author. A user who "unfollows"
themselves gets `False` rendered, while `profile` would then show `True`.

## Model

| member | source | states |
|---|---|---|
| `Paginator.NumPages` | yatube/posts/utils.py:7 | there is at least one page, and exactly one for an empty listing; the pages hold all items, and the last page is not empty unless the listing is |
| `Paginator.PageAt` | yatube/posts/utils.py:7-9 | a page is a contiguous slice of the listing, starting at (number-1)·size, with at most `size` items; every page but the last is full and the last holds the remainder |
| `Paginator.GetPage` | yatube/posts/utils.py:8-9 | with no page number the first page is returned; a number is served exactly when it lies in 1..NumPages, and the page has that number |
| `Paginator.CastomPaginator` | yatube/posts/utils.py:6-10 | with no `page` parameter the first page is returned; a page never holds more than `POSTS_ON_PAGE` items, and holds only items of the listing |
| `Paginator.PagesCoverListing` | yatube/posts/utils.py:7-9 | reading the pages 1..NumPages in order gives back the listing exactly |
| `Paginator.FullFirstPage` | yatube/posts/tests/test_views.py:225-227 | with size+3 items the default page is page 1 and holds exactly the first `size` items |
| `Paginator.RemainderPage` | yatube/posts/tests/test_views.py:228-230 | with size+3 items and size ≥ 3 there are two pages, and page 2 holds exactly the last 3 items |
| `Follows.UniqueIffCountsAtMostOne` | yatube/posts/migrations/0006_auto_20230329_2218.py:25-28 | the unique-pairs constraint holds iff no pair is stored more than once (both directions) |
| `Follows.FollowAfter` | yatube/posts/views.py:34-36 | the table changes iff user ≠ author and the pair is absent, and then only by appending the pair; afterwards the pair is stored iff user ≠ author or it was already stored |
| `Follows.UnfollowAfter` | yatube/posts/views.py:50-52 | the pair is gone afterwards; an absent pair leaves the table unchanged; every other pair is stored afterwards iff it was before |
| `Follows.UnfollowKeepsOtherRows` | yatube/posts/views.py:50-52 | unfollowing keeps every other row with its original count |
| `Follows.FollowKeepsUnique` | yatube/posts/views.py:34-36 | `profile_follow` keeps the unique-pairs constraint |
| `Follows.UnfollowKeepsUnique` | yatube/posts/views.py:50-52 | `profile_unfollow` keeps the unique-pairs constraint |
| `Follows.FollowTwiceIsOnce` | yatube/posts/views.py:34-36 | following a second time changes nothing, for every table and every pair, a self-follow included |
| `Follows.FollowTwiceStoresOnce` | yatube/posts/views.py:34-36 | for user ≠ author and a table that keeps the unique-pairs constraint, following twice stores the pair exactly once |
| `Follows.FollowNeverSelf` | yatube/posts/views.py:35 | a pair added by `profile_follow` never has the user as its own author; a table without self-follows keeps that property |
| `Follows.UnfollowKeepsNoSelf` | yatube/posts/views.py:50-52 | unfollowing cannot create a self-follow |
| `Follows.FollowUnfollowRoundTrip` | yatube/posts/views.py:31-60 | for user ≠ author and an absent pair, follow then unfollow restores the table exactly |
| `Follows.UnfollowFollowRoundTrip` | yatube/posts/views.py:31-60 | for user ≠ author and a stored pair, unfollow then follow restores the table's rows, in a possibly different order |
| `Follows.UnfollowIdempotent` | yatube/posts/views.py:50-52 | unfollowing twice is unfollowing once |
| `Follows.ProfileFollowing` | yatube/posts/views.py:79-94 | the flag is absent exactly for an anonymous viewer; for a signed-in viewer it is true iff the viewer is the author or follows the author |
| `Follows.FlagAfterFollow` | yatube/posts/views.py:35-42 | after `profile_follow`, `profile` shows the author as followed, which matches the `following: True` that `profile_follow` renders |
| `Follows.FlagAfterUnfollow` | yatube/posts/views.py:50-58 | after `profile_unfollow` of another user, `profile` shows the author as not followed, which matches the `following: False` that `profile_unfollow` renders |
| `Follows.FollowFeed` | yatube/posts/views.py:23 | a post is in the feed of `user` iff it is stored and `user` follows its author |
| `Follows.FeedUnderUniqueIsFilter` | yatube/posts/views.py:23 | under the unique-pairs constraint the join lists every post of a followed author exactly once, in listing order |
| `Follows.NoFollowsNoFeed` | yatube/posts/tests/test_views.py:169-176 | a user who follows nobody has an empty feed |
| `Follows.FeedAfterFollow` | yatube/posts/tests/test_views.py:165-175 | once user ≠ author follows author, every post of author is in the user's feed |
| `Follows.FeedAfterUnfollow` | yatube/posts/views.py:47-52 | once user unfollows author, no post of author is in the user's feed |
| `Follows.OtherFeedsUnchanged` | yatube/posts/views.py:31-60 | following or unfollowing leaves every other user's feed exactly as it was |
| `Follows.FeedAppend` | yatube/posts/views.py:23 | a new post joins the end of a feed once per row subscribing the user to its author |
| `Views.AuthorPosts` | yatube/posts/views.py:77 | a post is in the author's listing iff it is stored and was written by that author |
| `Views.GroupPostList` | yatube/posts/views.py:66 | a post is in the group's listing iff it is stored and belongs to that group |
| `Views.CommentsOf` | yatube/posts/views.py:113 | a comment is listed under a post iff it is stored and attached to that post |
| `Views.Index` | yatube/posts/views.py:11-18 | the default page is the first page of all posts; a page holds at most `POSTS_ON_PAGE` stored posts |
| `Views.GroupPosts` | yatube/posts/views.py:63-72 | the group page lists only that group's posts, at most `POSTS_ON_PAGE` of them, and the first page by default |
| `Views.Profile` | yatube/posts/views.py:75-95 | the profile page lists only the author's posts; the flag is absent for an anonymous viewer, and otherwise true iff the viewer is the author or follows them |
| `Views.FollowIndex` | yatube/posts/views.py:21-28 | the feed page lists only posts of authors the user follows, at most `POSTS_ON_PAGE` of them |
| `Views.FindPost` | yatube/posts/views.py:100 | the found index holds a post with that key; no index is returned iff no stored post has that key |
| `Views.EditAfter` | yatube/posts/views.py:137-155 | an edit never changes a key or an authorship, or any other post; the table changes only for a valid edit by the post's author, and that edit is saved |
| `Views.NonAuthorEditIsIgnored` | yatube/posts/views.py:150-151 | an edit by anybody but the post's author leaves the table as it was |
| `Views.CommentAfter` | yatube/posts/views.py:98-107 | a comment is stored, with the requester as author and the post as target, iff the form is valid and the post exists; otherwise nothing changes |
| `Views.CommentListedUnderPost` | yatube/posts/views.py:102-106 | a stored comment appears last among that post's comments, and no other post's comments change |
| `Views.CreatedPostListed` | yatube/posts/views.py:129-132 | a new post appears last on its author's profile, on its group's page, and exactly once in each follower's feed |
| `Yatube.Store.ProfileFollow` | yatube/posts/views.py:31-44 | the Follow table becomes `FollowAfter` of the old one and stays unique; the rendered context has the author's first or requested page and `following: True` |
| `Yatube.Store.ProfileUnfollow` | yatube/posts/views.py:47-60 | the Follow table becomes `UnfollowAfter` of the old one and stays unique; the rendered context has `following: False` |
| `Yatube.Store.AddComment` | yatube/posts/views.py:98-107 | the comments table becomes `CommentAfter` of the old one; the outcome is NotFound iff the post is missing and Saved iff a comment was stored |
| `Yatube.Store.PostCreate` | yatube/posts/views.py:122-134 | a post is stored iff the form was submitted and is valid; it gets the next key and has the requester as author; otherwise nothing changes |
| `Yatube.Store.PostEdit` | yatube/posts/views.py:137-155 | the posts table becomes `EditAfter` of the old one; the outcome is NotFound for a missing post, NotAuthor for a requester who is not the author, and Saved iff the author's form is valid |

## Left out

- The 20-second page cache on `index`. It is a time-based library decorator, and its effect depends on wall-clock cache state.
- Template rendering, HTTP status codes, redirect targets, routing and `login_required`. The writing views take the id of a signed-in user. Anonymous requests to them, which are redirected to the login page, are not modelled.
- The user table and the username lookup. Follow and profile views take the author's user id, and a missing user (a 404) is not modelled.
- The group lookup by slug and its 404. `GroupPosts` takes a group id.
- Form internals and image uploads. `is_valid()` is a boolean input, and the form's cleaned text, group and image are given as a `PostForm`.
- `Paginator.GetPage`: the library clamps a page number outside 1..NumPages to the last page and replaces a non-numeric one with page 1. That code is not visible, so such a number yields `None` here, and the page number arrives already parsed to an integer.
- `Paginator.POSTS_ON_PAGE`: its value lives in the settings module, which is not part of this model. Only its positivity is used.
- The model's default ordering (the `Meta` of `Post`) is not part of this model. Every listing keeps storage order, and a new post is appended.
- `Follows.FollowFeed`: the order in which the database returns the join rows is unspecified. Here the copies of one post are adjacent.
- `post_detail` is not modelled, except for its comment query (`Views.CommentsOf`).
- Creation timestamps, cascading deletes when a user is deleted, the nullable Follow foreign keys, `__str__`, `help_text` and `verbose_name`.
- Transactions and concurrent requests. The framework runs each request on its own, and the model treats views as atomic steps.
