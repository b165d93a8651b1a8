/**
 * The page-size rule of `CastomPaginator` (yatube/posts/utils.py): a listing
 * is cut into pages of `POSTS_ON_PAGE` posts and the page named by the
 * request's `page` parameter is returned, the first page when there is none.
 */
module Paginator {
  import opened Wrappers

  /** A page size; the paginator is only ever built with a positive one. */
  type PageSize = n: nat | 0 < n witness 1

  /** The project setting. Its value lives in the settings module, which is
      not part of this model, so only its positivity is known here. */
  const POSTS_ON_PAGE: PageSize

  /** One page of a listing: its 1-based number and the items on it. */
  datatype Page<T> = Page(number: nat, items: seq<T>)

  /** Number of pages for `count` items; an empty listing still has one
      (empty) first page. */
  function NumPages(count: nat, perPage: PageSize): (n: nat)
    ensures 1 <= n
    ensures count == 0 ==> n == 1
    ensures count <= n * perPage
    ensures 0 < count ==> (n - 1) * perPage < count
  {
    var hits := if count == 0 then 1 else count;
    var q := (hits + perPage - 1) / perPage;
    assert q * perPage + (hits + perPage - 1) % perPage == hits + perPage - 1;
    assert (q - 1) * perPage == q * perPage - perPage;
    q
  }

  /** Index of the first item of page `number`. */
  function PageStart(number: nat, perPage: PageSize): nat
    requires 1 <= number
  {
    (number - 1) * perPage
  }

  /** Where page `number` starts, and whether a full page fits after that. */
  lemma StartInRange(count: nat, number: nat, perPage: PageSize)
    requires 1 <= number <= NumPages(count, perPage)
    ensures PageStart(number, perPage) <= count
    ensures number < NumPages(count, perPage) ==> PageStart(number, perPage) + perPage < count
    ensures number == NumPages(count, perPage) ==> count <= PageStart(number, perPage) + perPage
  {
    var n := NumPages(count, perPage);
    MulLe(number - 1, n - 1, perPage);
    if number < n {
      MulLe(number, n - 1, perPage);
    }
  }

  lemma MulLe(a: nat, b: nat, c: nat)
    requires a <= b
    ensures a * c <= b * c
  {
  }

  lemma NextPageStart(number: nat, perPage: PageSize)
    requires 1 <= number
    ensures PageStart(number + 1, perPage) == PageStart(number, perPage) + perPage
  {
  }

  /** Page `number` of `items`. */
  function PageAt<T>(items: seq<T>, number: nat, perPage: PageSize): (p: Page<T>)
    requires 1 <= number <= NumPages(|items|, perPage)
    ensures p.number == number
    ensures |p.items| <= perPage
    ensures PageStart(number, perPage) + |p.items| <= |items|
    ensures p.items == items[PageStart(number, perPage)..PageStart(number, perPage) + |p.items|]
    // every page but the last is full; the last holds the remainder
    ensures number < NumPages(|items|, perPage) ==> |p.items| == perPage
    ensures number == NumPages(|items|, perPage) ==> PageStart(number, perPage) + |p.items| == |items|
  {
    StartInRange(|items|, number, perPage);
    var start := PageStart(number, perPage);
    var end := if start + perPage <= |items| then start + perPage else |items|;
    Page(number, items[start..end])
  }

  /** `paginator.get_page(page_number)`: no page number selects the first
      page; a number outside 1..NumPages yields None (the library's
      clamping of such numbers is not part of this model). */
  function GetPage<T>(items: seq<T>, pageNumber: Option<int>, perPage: PageSize): (r: Option<Page<T>>)
    ensures pageNumber.None? ==> r.Some? && r.value.number == 1
    ensures pageNumber.Some? ==>
      (r.Some? <==> 1 <= pageNumber.value <= NumPages(|items|, perPage))
    ensures pageNumber.Some? && r.Some? ==> r.value.number == pageNumber.value
    ensures r.Some? ==>
      (1 <= r.value.number <= NumPages(|items|, perPage) && r.value == PageAt(items, r.value.number, perPage))
  {
    match pageNumber
    case None => Some(PageAt(items, 1, perPage))
    case Some(k) =>
      if 1 <= k <= NumPages(|items|, perPage) then Some(PageAt(items, k, perPage)) else None
  }

  /** `CastomPaginator(request, posts)`, the request reduced to its `page`
      query parameter (already read as a number). */
  function CastomPaginator<T>(posts: seq<T>, pageNumber: Option<int>): (r: Option<Page<T>>)
    ensures pageNumber.None? ==> r.Some? && r.value.number == 1
    ensures r.Some? ==> |r.value.items| <= POSTS_ON_PAGE
    ensures r.Some? ==> forall x :: x in r.value.items ==> x in posts
  {
    var r := GetPage(posts, pageNumber, POSTS_ON_PAGE);
    assert r.Some? ==> forall x :: x in r.value.items ==> x in posts by {
      if r.Some? {
        var s := PageStart(r.value.number, POSTS_ON_PAGE);
        forall x | x in r.value.items ensures x in posts {
          var i :| 0 <= i < |r.value.items| && r.value.items[i] == x;
          assert posts[s + i] == x;
        }
      }
    }
    r
  }

  /** All pages from `from` on, concatenated. */
  ghost function PagesFrom<T>(items: seq<T>, from: nat, perPage: PageSize): seq<T>
    requires 1 <= from <= NumPages(|items|, perPage) + 1
    decreases NumPages(|items|, perPage) + 1 - from
  {
    if from > NumPages(|items|, perPage) then []
    else PageAt(items, from, perPage).items + PagesFrom(items, from + 1, perPage)
  }

  lemma {:induction false} PagesFromSuffix<T>(items: seq<T>, from: nat, perPage: PageSize)
    requires 1 <= from <= NumPages(|items|, perPage)
    ensures PageStart(from, perPage) <= |items|
    ensures PagesFrom(items, from, perPage) == items[PageStart(from, perPage)..]
    decreases NumPages(|items|, perPage) - from
  {
    StartInRange(|items|, from, perPage);
    var s := PageStart(from, perPage);
    if from == NumPages(|items|, perPage) {
      LastPageIsSuffix(items, from, perPage);
    } else {
      PagesFromSuffix(items, from + 1, perPage);
      var t := FullPageStep(items, from, perPage);
      assert PagesFrom(items, from + 1, perPage) == items[t..];
      SplitSuffix(items, s, t);
    }
  }

  lemma SplitSuffix<T>(xs: seq<T>, s: nat, t: nat)
    requires s <= t <= |xs|
    ensures xs[s..] == xs[s..t] + xs[t..]
  {
  }

  /** The last page runs to the end of the listing, and no page follows it. */
  lemma LastPageIsSuffix<T>(items: seq<T>, from: nat, perPage: PageSize)
    requires 1 <= from == NumPages(|items|, perPage)
    ensures PageStart(from, perPage) <= |items|
    ensures PagesFrom(items, from, perPage) == items[PageStart(from, perPage)..]
  {
    StartInRange(|items|, from, perPage);
    assert PagesFrom(items, from + 1, perPage) == [];
  }

  /** A page before the last is full, and the next page starts right after it. */
  lemma FullPageStep<T>(items: seq<T>, from: nat, perPage: PageSize) returns (t: nat)
    requires 1 <= from < NumPages(|items|, perPage)
    ensures PageStart(from, perPage) <= t <= |items| && t == PageStart(from + 1, perPage)
    ensures PagesFrom(items, from, perPage)
      == items[PageStart(from, perPage)..t] + PagesFrom(items, from + 1, perPage)
  {
    var start := PageStart(from, perPage);
    NextPageStart(from, perPage);
    t := start + perPage;
    var p := PageAt(items, from, perPage);
    assert |p.items| == perPage;
    assert p.items == items[start..t];
    assert PagesFrom(items, from, perPage) == p.items + PagesFrom(items, from + 1, perPage);
  }

  /** The pages partition the listing: read in order they give it back. */
  lemma PagesCoverListing<T>(items: seq<T>, perPage: PageSize)
    ensures PagesFrom(items, 1, perPage) == items
  {
    PagesFromSuffix(items, 1, perPage);
  }

  /** With `perPage + 3` items the default page is the first, and full. */
  lemma FullFirstPage<T>(items: seq<T>, perPage: PageSize)
    requires |items| == perPage + 3
    ensures GetPage(items, None, perPage) == Some(Page(1, items[..perPage]))
  {
  }

  /** With `perPage + 3` items and `perPage >= 3`, page 2 is the last page
      and holds the remaining 3 items. */
  lemma RemainderPage<T>(items: seq<T>, perPage: PageSize)
    requires 3 <= perPage && |items| == perPage + 3
    ensures NumPages(|items|, perPage) == 2
    ensures GetPage(items, Some(2), perPage) == Some(Page(2, items[perPage..]))
    ensures |items[perPage..]| == 3
  {
    assert (2 * perPage + 2) / perPage == 2;
    assert PageStart(2, perPage) == perPage;
    var p := PageAt(items, 2, perPage);
    assert p.items == items[perPage..];
  }
}
