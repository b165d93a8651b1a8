/**
 * The Follow table behind `profile_follow`, `profile_unfollow`, the
 * `following` flag of `profile` and the subscription feed of `follow_index`
 * (yatube/posts/views.py), with the table's `unique_pairs` constraint.
 */
module Follows {
  import opened Wrappers
  import opened Seqs
  import opened Models

  /** The `unique_pairs` constraint: no (user, author) pair is stored twice. */
  predicate UniquePairs(rows: seq<Follow>)
  {
    forall i, j :: 0 <= i < j < |rows| ==> rows[i] != rows[j]
  }

  /** Nobody follows themselves (kept by the view, not by the database). */
  predicate NoSelfFollow(rows: seq<Follow>)
  {
    forall f :: f in rows ==> f.user != f.author
  }

  /** The constraint in terms of row counts. */
  lemma {:induction false} UniqueIffCountsAtMostOne(rows: seq<Follow>)
    ensures UniquePairs(rows) <==> forall f :: multiset(rows)[f] <= 1
    decreases |rows|
  {
    if rows != [] {
      var head, tail := rows[0], rows[1..];
      assert rows == [head] + tail;
      UniqueIffCountsAtMostOne(tail);
      if UniquePairs(rows) {
        assert UniquePairs(tail) by {
          forall i, j | 0 <= i < j < |tail| ensures tail[i] != tail[j] {
            assert tail[i] == rows[i + 1] && tail[j] == rows[j + 1];
          }
        }
        assert head !in tail by {
          forall k | 0 <= k < |tail| ensures tail[k] != head {
            assert tail[k] == rows[k + 1];
          }
        }
        forall f ensures multiset(rows)[f] <= 1 {
          assert multiset(rows)[f] == multiset([head])[f] + multiset(tail)[f];
        }
      } else {
        var i, j :| 0 <= i < j < |rows| && rows[i] == rows[j];
        if i == 0 {
          assert head in tail by { assert tail[j - 1] == head; }
          assert multiset(rows)[head] == 1 + multiset(tail)[head];
        } else {
          assert tail[i - 1] == tail[j - 1];
          var g :| multiset(tail)[g] > 1;
          assert multiset(rows)[g] == multiset([head])[g] + multiset(tail)[g];
        }
      }
    }
  }

  /** The table after `profile_follow(user, author)`: the pair is inserted
      only if the user is not the author and the pair is not stored yet. */
  function FollowAfter(rows: seq<Follow>, user: UserId, author: UserId): (r: seq<Follow>)
    ensures r != rows <==> user != author && Follow(user, author) !in rows
    ensures r != rows ==> r == rows + [Follow(user, author)]
    ensures Follow(user, author) in r <==> user != author || Follow(user, author) in rows
  {
    if user != author && Follow(user, author) !in rows then rows + [Follow(user, author)] else rows
  }

  /** The table after `profile_unfollow(user, author)`: every row holding the
      pair is deleted, if there is one; other rows stay as they are. */
  function UnfollowAfter(rows: seq<Follow>, user: UserId, author: UserId): (r: seq<Follow>)
    ensures Follow(user, author) !in r
    ensures Follow(user, author) !in rows ==> r == rows
    ensures forall f :: f != Follow(user, author) ==> (f in r <==> f in rows)
  {
    if Follow(user, author) in rows then Filter(rows, f => f != Follow(user, author)) else rows
  }

  /** Unfollowing leaves every other row with its original count. */
  lemma UnfollowKeepsOtherRows(rows: seq<Follow>, user: UserId, author: UserId, f: Follow)
    requires f != Follow(user, author)
    ensures multiset(UnfollowAfter(rows, user, author))[f] == multiset(rows)[f]
  {
    if Follow(user, author) in rows {
      FilterCount(rows, g => g != Follow(user, author), f);
    }
  }

  lemma FollowKeepsUnique(rows: seq<Follow>, user: UserId, author: UserId)
    requires UniquePairs(rows)
    ensures UniquePairs(FollowAfter(rows, user, author))
  {
  }

  lemma UnfollowKeepsUnique(rows: seq<Follow>, user: UserId, author: UserId)
    requires UniquePairs(rows)
    ensures UniquePairs(UnfollowAfter(rows, user, author))
  {
    var r := UnfollowAfter(rows, user, author);
    UniqueIffCountsAtMostOne(rows);
    forall f ensures multiset(r)[f] <= 1 {
      if f != Follow(user, author) {
        UnfollowKeepsOtherRows(rows, user, author, f);
      }
    }
    UniqueIffCountsAtMostOne(r);
  }

  /** Following the same author a second time changes nothing, for every
      table and every pair, a self-follow included. */
  lemma FollowTwiceIsOnce(rows: seq<Follow>, user: UserId, author: UserId)
    ensures FollowAfter(FollowAfter(rows, user, author), user, author) == FollowAfter(rows, user, author)
  {
  }

  /** Following the same author twice stores the pair exactly once. */
  lemma FollowTwiceStoresOnce(rows: seq<Follow>, user: UserId, author: UserId)
    requires UniquePairs(rows) && user != author
    ensures multiset(FollowAfter(FollowAfter(rows, user, author), user, author))[Follow(user, author)] == 1
  {
    var r := FollowAfter(rows, user, author);
    FollowKeepsUnique(rows, user, author);
    UniqueIffCountsAtMostOne(r);
  }

  /** `profile_follow` never stores a pair whose user is its author. */
  lemma FollowNeverSelf(rows: seq<Follow>, user: UserId, author: UserId)
    ensures forall f :: f in FollowAfter(rows, user, author) && f !in rows ==> f.user != f.author
    ensures NoSelfFollow(rows) ==> NoSelfFollow(FollowAfter(rows, user, author))
  {
  }

  lemma UnfollowKeepsNoSelf(rows: seq<Follow>, user: UserId, author: UserId)
    requires NoSelfFollow(rows)
    ensures NoSelfFollow(UnfollowAfter(rows, user, author))
  {
  }

  /** Following an author one did not follow, then unfollowing, restores
      the table. */
  lemma FollowUnfollowRoundTrip(rows: seq<Follow>, user: UserId, author: UserId)
    requires user != author && Follow(user, author) !in rows
    ensures UnfollowAfter(FollowAfter(rows, user, author), user, author) == rows
  {
    var pair := Follow(user, author);
    var keep := f => f != pair;
    FilterAppend(rows, [pair], keep);
    FilterKeepsAll(rows, keep);
  }

  /** Unfollowing a followed author, then following again, restores the
      table up to the order of its rows. */
  lemma UnfollowFollowRoundTrip(rows: seq<Follow>, user: UserId, author: UserId)
    requires UniquePairs(rows) && user != author && Follow(user, author) in rows
    ensures multiset(FollowAfter(UnfollowAfter(rows, user, author), user, author)) == multiset(rows)
  {
    var pair := Follow(user, author);
    var u := UnfollowAfter(rows, user, author);
    var r := FollowAfter(u, user, author);
    UniqueIffCountsAtMostOne(rows);
    forall f ensures multiset(r)[f] == multiset(rows)[f] {
      if f != pair {
        UnfollowKeepsOtherRows(rows, user, author, f);
      }
    }
  }

  lemma UnfollowIdempotent(rows: seq<Follow>, user: UserId, author: UserId)
    ensures UnfollowAfter(UnfollowAfter(rows, user, author), user, author) == UnfollowAfter(rows, user, author)
  {
  }

  /** The `following` flag `profile` passes to its template: absent for an
      anonymous viewer; otherwise false exactly when the viewer is not the
      author and does not follow them. */
  function ProfileFollowing(rows: seq<Follow>, viewer: Viewer, author: UserId): (r: Option<bool>)
    ensures r.None? <==> viewer.Anonymous?
    ensures viewer.Authenticated? ==>
      (r == Some(true) <==> viewer.id == author || Follow(viewer.id, author) in rows)
  {
    match viewer
    case Anonymous => None
    case Authenticated(user) =>
      if user != author && Follow(user, author) !in rows then Some(false) else Some(true)
  }

  /** After `profile_follow` the profile shows the author as followed, as
      the page `profile_follow` renders says. */
  lemma FlagAfterFollow(rows: seq<Follow>, user: UserId, author: UserId)
    ensures ProfileFollowing(FollowAfter(rows, user, author), Authenticated(user), author) == Some(true)
  {
  }

  /** After `profile_unfollow` of another user the profile shows the author
      as not followed, as the page `profile_unfollow` renders says. */
  lemma FlagAfterUnfollow(rows: seq<Follow>, user: UserId, author: UserId)
    requires user != author
    ensures ProfileFollowing(UnfollowAfter(rows, user, author), Authenticated(user), author) == Some(false)
  {
  }

  /** `Post.objects.filter(author__following__user=user)`: the join of the
      posts with the Follow table lists a post once per row that subscribes
      `user` to its author. */
  function FollowFeed(posts: seq<Post>, rows: seq<Follow>, user: UserId): (r: seq<Post>)
    ensures forall p :: p in r <==> p in posts && Follow(user, p.author) in rows
    decreases |posts|
  {
    if posts == [] then []
    else
      var here := Repeat(posts[0], multiset(rows)[Follow(user, posts[0].author)]);
      assert forall p :: p in here <==> |here| > 0 && p == posts[0] by {
        if |here| > 0 { assert here[0] == posts[0]; }
      }
      here + FollowFeed(posts[1..], rows, user)
  }

  /** Whether the feed of `user` is allowed to show post `p`. */
  function FollowedBy(rows: seq<Follow>, user: UserId): Post -> bool
  {
    (p: Post) => Follow(user, p.author) in rows
  }

  /** Under the unique-pairs constraint the join lists every post of a
      followed author exactly once, in listing order. */
  lemma {:induction false} FeedUnderUniqueIsFilter(posts: seq<Post>, rows: seq<Follow>, user: UserId)
    requires UniquePairs(rows)
    ensures FollowFeed(posts, rows, user) == Filter(posts, FollowedBy(rows, user))
    decreases |posts|
  {
    if posts != [] {
      UniqueIffCountsAtMostOne(rows);
      var n := multiset(rows)[Follow(user, posts[0].author)];
      assert n == 0 || Repeat(posts[0], n) == [posts[0]];
      FeedUnderUniqueIsFilter(posts[1..], rows, user);
    }
  }

  /** A user who follows nobody has an empty feed. */
  lemma {:induction false} NoFollowsNoFeed(posts: seq<Post>, rows: seq<Follow>, user: UserId)
    requires forall f :: f in rows ==> f.user != user
    ensures FollowFeed(posts, rows, user) == []
    decreases |posts|
  {
    if posts != [] {
      assert Follow(user, posts[0].author) !in rows;
      NoFollowsNoFeed(posts[1..], rows, user);
    }
  }

  /** Once `user` follows `author`, every post of `author` is in the feed of `user`. */
  lemma FeedAfterFollow(posts: seq<Post>, rows: seq<Follow>, user: UserId, author: UserId)
    requires user != author
    ensures forall p :: p in posts && p.author == author ==> p in FollowFeed(posts, FollowAfter(rows, user, author), user)
  {
  }

  /** Once `user` unfollows `author`, no post of `author` is in the feed of `user`. */
  lemma FeedAfterUnfollow(posts: seq<Post>, rows: seq<Follow>, user: UserId, author: UserId)
    ensures forall p :: p in FollowFeed(posts, UnfollowAfter(rows, user, author), user) ==> p.author != author
  {
  }

  lemma {:induction false} FeedSameCounts(posts: seq<Post>, rows: seq<Follow>, rows': seq<Follow>, user: UserId)
    requires forall a :: multiset(rows)[Follow(user, a)] == multiset(rows')[Follow(user, a)]
    ensures FollowFeed(posts, rows, user) == FollowFeed(posts, rows', user)
    decreases |posts|
  {
    if posts != [] {
      assert multiset(rows)[Follow(user, posts[0].author)] == multiset(rows')[Follow(user, posts[0].author)];
      FeedSameCounts(posts[1..], rows, rows', user);
    }
  }

  /** Following or unfollowing changes nobody else's feed. */
  lemma OtherFeedsUnchanged(posts: seq<Post>, rows: seq<Follow>, user: UserId, author: UserId, other: UserId)
    requires other != user
    ensures FollowFeed(posts, FollowAfter(rows, user, author), other) == FollowFeed(posts, rows, other)
    ensures FollowFeed(posts, UnfollowAfter(rows, user, author), other) == FollowFeed(posts, rows, other)
  {
    var follow := FollowAfter(rows, user, author);
    forall a ensures multiset(follow)[Follow(other, a)] == multiset(rows)[Follow(other, a)] {
      if follow != rows {
        assert multiset(follow) == multiset(rows) + multiset{Follow(user, author)};
      }
    }
    FeedSameCounts(posts, follow, rows, other);
    forall a ensures multiset(UnfollowAfter(rows, user, author))[Follow(other, a)] == multiset(rows)[Follow(other, a)] {
      UnfollowKeepsOtherRows(rows, user, author, Follow(other, a));
    }
    FeedSameCounts(posts, UnfollowAfter(rows, user, author), rows, other);
  }

  /** A new post joins the end of each feed, once per subscribing row. */
  lemma {:induction false} FeedAppend(posts: seq<Post>, p: Post, rows: seq<Follow>, user: UserId)
    ensures FollowFeed(posts + [p], rows, user)
      == FollowFeed(posts, rows, user) + Repeat(p, multiset(rows)[Follow(user, p.author)])
    decreases |posts|
  {
    if posts == [] {
      assert [] + [p] == [p];
      assert [p][1..] == [];
    } else {
      assert (posts + [p])[0] == posts[0];
      assert (posts + [p])[1..] == posts[1..] + [p];
      FeedAppend(posts[1..], p, rows, user);
    }
  }
}
