/**
 * The post handlers: four paginated listings (all posts, recent news, text
 * search, top posts of a category), related posts, a post by its slug (which
 * counts the visit), and the newest posts of every category.
 *
 * The listings read a snapshot of the collection; the database's query steps
 * are the functions of PostQuery, and its `$text` search is an abstract
 * predicate `textMatch(q, post)`.
 */
module Posts {
  import opened Wrappers
  import opened ResponseModel
  import opened Pagination
  import opened PostQuery

  /** The fields the by-category listing keeps of each post. */
  datatype Summary = Summary(id: nat, title: string, slug: string, image: Option<string>,
                             description: string, category: string)

  function Summarize(p: Post): Summary {
    Summary(p.id, p.title, p.slug, p.image, p.description, p.category)
  }

  function Summaries(s: seq<Post>): (r: seq<Summary>)
    ensures |r| == |s| && forall k :: 0 <= k < |s| ==> r[k] == Summarize(s[k])
  {
    seq(|s|, k requires 0 <= k < |s| => Summarize(s[k]))
  }

  /** The `data` of a post response. */
  datatype PostsPayload =
    | Page(pagination: PageResult, items: seq<Post>)   // `{...pagination, posts}` or `{...pagination, news}`
    | PagesOnly(totalPages: int)                        // `{totalPages}` beside a range error
    | PostList(posts: seq<Post>)
    | OnePost(post: Post)
    | ByCategory(news: map<string, seq<Summary>>)

  const InternalError := CreateResponse<PostsPayload>(false, 500, "Internal server error")
  const PostNotFound := CreateResponse<PostsPayload>(false, 404, "Post not found")

  predicate IsPublished(p: Post) {
    p.status == PUBLISHED
  }

  function InCategory(c: string): Post -> bool {
    (p: Post) => p.category == c
  }

  function PublishedIn(c: string): Post -> bool {
    (p: Post) => p.category == c && p.status == PUBLISHED
  }

  /**
   * A successful listing answer carries page `p` of `selection` at `l` posts a
   * page: exactly the window of the posts from position `(p - 1) * l` on, `|l|`
   * of them or all that remain (all when `l` is 0), with the total and the
   * page's own count.
   */
  ghost predicate IsPageOf(r: Response<PostsPayload>, selection: seq<Post>, p: int, l: int) {
    r.success ==>
      r.statusCode == 200 && r.data.Some? && r.data.value.Page? &&
      var pg, items := r.data.value.pagination, r.data.value.items;
      (p - 1) * l >= 0 &&
      items == Window(selection, (p - 1) * l, l) &&
      pg.PageInfo? && pg.total == |selection| && pg.currentTotal == |items| &&
      (l != 0 ==> |items| <= Abs(l)) &&
      (forall k :: 0 <= k < |items| ==> (p - 1) * l + k < |selection| && items[k] == selection[(p - 1) * l + k])
  }

  /**
   * The shared body of the paginated handlers: a missing page is 1 and a
   * missing limit the handler's default; a negative skip makes the database
   * fail; a range error from paginate is passed on with the page count.
   */
  function ListPage(selection: seq<Post>, page: Option<int>, limit: Option<int>, defaultLimit: int,
                    baseUrl: string, message: string): (r: Response<PostsPayload>)
    ensures var p, l := page.GetOr(1), limit.GetOr(defaultLimit);
      && IsPageOf(r, selection, p, l)
      && ((p - 1) * l < 0 ==> r == InternalError)
      && (r.success ==> r.message == message && r.data.value.pagination == Paginate(|selection|, |r.data.value.items|, Some(p), Some(l), baseUrl))
      && ((p - 1) * l >= 0 ==>
            var pg := Paginate(|selection|, |Window(selection, (p - 1) * l, l)|, Some(p), Some(l), baseUrl);
            (r.success <==> pg.PageInfo?) &&
            (pg.PageError? ==> r == CreateResponse(false, pg.status, pg.message, Some(PagesOnly(pg.totalPages)))))
  {
    var p, l := page.GetOr(1), limit.GetOr(defaultLimit);
    var skip := (p - 1) * l;
    if skip < 0 then InternalError
    else
      var items := Window(selection, skip, l);
      var pg := Paginate(|selection|, |items|, Some(p), Some(l), baseUrl);
      if pg.PageError? then CreateResponse(false, pg.status, pg.message, Some(PagesOnly(pg.totalPages)))
      else CreateResponse(true, 200, message, Some(Page(pg, items)))
  }

  /** Every post, whatever its status, in collection order; 10 a page by default. */
  function GetAllPosts(posts: seq<Post>, page: Option<int>, limit: Option<int>, postsUrl: string): (r: Response<PostsPayload>)
    ensures IsPageOf(r, posts, page.GetOr(1), limit.GetOr(10))
    ensures r.success ==> r.message == "All posts fetched successfully"
  {
    ListPage(posts, page, limit, 10, postsUrl, "All posts fetched successfully")
  }

  /** What the recent-news listing pages through: published posts, newest first. */
  function RecentSelection(posts: seq<Post>): seq<Post> {
    SortDesc(Filter(posts, IsPublished), ByCreatedAt)
  }

  /** Published posts, newest first; 6 a page by default. */
  function GetRecentPosts(posts: seq<Post>, page: Option<int>, limit: Option<int>, postsUrl: string): (r: Response<PostsPayload>)
    ensures IsPageOf(r, RecentSelection(posts), page.GetOr(1), limit.GetOr(6))
    ensures r.success ==> r.message == "Recent news fetched successfully"
  {
    ListPage(RecentSelection(posts), page, limit, 6, postsUrl + "/recent", "Recent news fetched successfully")
  }

  /** A recent-news page counts the published posts only and holds published posts, newest first. */
  lemma RecentPageIsPublishedNewestFirst(posts: seq<Post>, page: Option<int>, limit: Option<int>, postsUrl: string)
    ensures var r := GetRecentPosts(posts, page, limit, postsUrl);
      r.success ==>
        r.data.value.pagination.total == |Filter(posts, IsPublished)| &&
        SortedDesc(r.data.value.items, ByCreatedAt) &&
        forall x :: x in r.data.value.items ==> x in posts && IsPublished(x)
  {
    var r := GetRecentPosts(posts, page, limit, postsUrl);
    var selection := RecentSelection(posts);
    PageOfSortedIsSorted(r, selection, page.GetOr(1), limit.GetOr(6), ByCreatedAt);
    PageItemsComeFrom(r, selection, page.GetOr(1), limit.GetOr(6));
    SortDescSameMembers(Filter(posts, IsPublished), ByCreatedAt);
  }

  /** What the text search pages through: published posts the search matches, in collection order. */
  function SearchSelection(posts: seq<Post>, q: string, textMatch: (string, Post) -> bool): seq<Post> {
    Filter(posts, (p: Post) => IsPublished(p) && textMatch(q, p))
  }

  /** Published posts the text search matches; an empty query is refused before anything is counted. */
  function SearchNews(posts: seq<Post>, q: string, page: Option<int>, limit: Option<int>, postsUrl: string,
                      textMatch: (string, Post) -> bool): (r: Response<PostsPayload>)
    ensures q == "" ==> r == CreateResponse(false, 400, "Search value is required")
    ensures q != "" ==> IsPageOf(r, SearchSelection(posts, q, textMatch), page.GetOr(1), limit.GetOr(10))
    ensures q != "" && r.success ==>
      r.data.value.pagination == Paginate(|SearchSelection(posts, q, textMatch)|, |r.data.value.items|,
                                          Some(page.GetOr(1)), Some(limit.GetOr(10)), postsUrl + "/search?q=" + q)
  {
    if q == "" then CreateResponse(false, 400, "Search value is required")
    else ListPage(SearchSelection(posts, q, textMatch), page, limit, 10, postsUrl + "/search?q=" + q, "News search results")
  }

  /** Every search hit is a published post the text search matches. */
  lemma SearchHitsMatch(posts: seq<Post>, q: string, page: Option<int>, limit: Option<int>, postsUrl: string,
                        textMatch: (string, Post) -> bool)
    ensures var r := SearchNews(posts, q, page, limit, postsUrl, textMatch);
      r.success ==> forall x :: x in r.data.value.items ==> x in posts && IsPublished(x) && textMatch(q, x)
  {
    if q != "" {
      var r := SearchNews(posts, q, page, limit, postsUrl, textMatch);
      PageItemsComeFrom(r, SearchSelection(posts, q, textMatch), page.GetOr(1), limit.GetOr(10));
    }
  }

  /** What the top-posts listing pages through: published posts of the category, most visited first. */
  function TopSelection(posts: seq<Post>, category: string): seq<Post> {
    SortDesc(Filter(posts, PublishedIn(category)), ByVisitCount)
  }

  /** Published posts of one category, most visited first; 5 a page by default. */
  function GetTopPostsByCategory(posts: seq<Post>, category: string, page: Option<int>, limit: Option<int>,
                                 postsUrl: string): (r: Response<PostsPayload>)
    ensures IsPageOf(r, TopSelection(posts, category), page.GetOr(1), limit.GetOr(5))
    ensures r.success ==> r.message == "Top " + category + " news fetched successfully"
  {
    ListPage(TopSelection(posts, category), page, limit, 5, postsUrl + "/category/" + category + "/top",
             "Top " + category + " news fetched successfully")
  }

  /** A top-posts page counts the category's published posts only and holds them most visited first. */
  lemma TopPageIsPublishedMostVisitedFirst(posts: seq<Post>, category: string, page: Option<int>, limit: Option<int>,
                                           postsUrl: string)
    ensures var r := GetTopPostsByCategory(posts, category, page, limit, postsUrl);
      r.success ==>
        r.data.value.pagination.total == |Filter(posts, PublishedIn(category))| &&
        SortedDesc(r.data.value.items, ByVisitCount) &&
        forall x :: x in r.data.value.items ==> x in posts && IsPublished(x) && x.category == category
  {
    var r := GetTopPostsByCategory(posts, category, page, limit, postsUrl);
    var selection := TopSelection(posts, category);
    PageOfSortedIsSorted(r, selection, page.GetOr(1), limit.GetOr(5), ByVisitCount);
    PageItemsComeFrom(r, selection, page.GetOr(1), limit.GetOr(5));
    SortDescSameMembers(Filter(posts, PublishedIn(category)), ByVisitCount);
  }

  /** The posts a related-posts query may return: published, same category, another id. */
  function RelatedCandidates(posts: seq<Post>, postId: nat, category: string): seq<Post> {
    Filter(posts, (p: Post) => p.id != postId && p.category == category && p.status == PUBLISHED)
  }

  function WithId(posts: seq<Post>, postId: nat): seq<Post> {
    Filter(posts, (p: Post) => p.id == postId)
  }

  /** The related posts of a category: at most four candidates, the newest ones, newest first. */
  ghost predicate IsNewestFour(top: seq<Post>, posts: seq<Post>, postId: nat, category: string) {
    var candidates := RelatedCandidates(posts, postId, category);
    |top| == Min(|candidates|, 4) &&
    multiset(top) <= multiset(candidates) &&
    SortedDesc(top, ByCreatedAt) &&
    (forall x :: x in top ==> x in posts && x.id != postId && x.category == category && IsPublished(x)) &&
    (forall x :: x in multiset(candidates) - multiset(top) ==> |top| > 0 && x.createdAt <= top[|top| - 1].createdAt)
  }

  /**
   * The four newest published posts of the given post's category, the post
   * itself excluded; 404 when no post has the id.
   */
  function GetRelatedPosts(posts: seq<Post>, postId: nat): (r: Response<PostsPayload>)
    ensures (forall x :: x in posts ==> x.id != postId) <==> r == PostNotFound
    ensures r != PostNotFound ==>
      r.success && r.statusCode == 200 && r.message == "Related posts fetched successfully" &&
      r.data.Some? && r.data.value.PostList? &&
      exists x :: x in posts && x.id == postId && IsNewestFour(r.data.value.posts, posts, postId, x.category)
  {
    var found := WithId(posts, postId);
    if found == [] then PostNotFound
    else
      assert found[0] in found;
      var related := SortDesc(RelatedCandidates(posts, postId, found[0].category), ByCreatedAt);
      RelatedAreTheNewestFour(posts, postId, found[0].category);
      CreateResponse(true, 200, "Related posts fetched successfully", Some(PostList(Take(related, 4))))
  }

  /** At most four posts, each published, of the category, not the post itself, newest first; no candidate left out is newer. */
  lemma RelatedAreTheNewestFour(posts: seq<Post>, postId: nat, category: string)
    ensures IsNewestFour(Take(SortDesc(RelatedCandidates(posts, postId, category), ByCreatedAt), 4),
                         posts, postId, category)
  {
    var candidates := RelatedCandidates(posts, postId, category);
    var sorted := SortDesc(candidates, ByCreatedAt);
    var top := Take(sorted, 4);
    TakeIsTop(sorted, 4, ByCreatedAt);
    SortDescSameMembers(candidates, ByCreatedAt);
    forall x | x in top ensures x in posts && x.id != postId && x.category == category && IsPublished(x) {
      assert x in sorted;
      assert x in candidates;
    }
  }

  /** The newest five published posts of a category, as the aggregate groups them. */
  function NewestInCategory(posts: seq<Post>, c: string): seq<Post> {
    Take(Filter(SortDesc(Filter(posts, IsPublished), ByCreatedAt), InCategory(c)), 5)
  }

  /** The category's group, cut from the sorted published posts, is a reordering of its published posts. */
  lemma {:induction false} CategoryGroupIsReordering(posts: seq<Post>, c: string)
    ensures multiset(Filter(SortDesc(Filter(posts, IsPublished), ByCreatedAt), InCategory(c)))
         == multiset(Filter(posts, PublishedIn(c)))
  {
    var published := Filter(posts, IsPublished);
    var sorted := SortDesc(published, ByCreatedAt);
    var group := Filter(sorted, InCategory(c));
    var all := Filter(posts, PublishedIn(c));
    FilterCounts(published, IsPublished);
    FilterCounts(sorted, InCategory(c));
    FilterCounts(posts, IsPublished);
    FilterCounts(posts, PublishedIn(c));
    forall x ensures multiset(group)[x] == multiset(all)[x] {
      assert multiset(sorted)[x] == multiset(published)[x];
    }
  }

  /** The newest five of a category are sorted, published and of that category. */
  lemma {:induction false} NewestInCategoryMembers(posts: seq<Post>, c: string)
    ensures SortedDesc(NewestInCategory(posts, c), ByCreatedAt)
    ensures forall x :: x in NewestInCategory(posts, c) ==> x in posts && IsPublished(x) && x.category == c
  {
    var published := Filter(posts, IsPublished);
    var sorted := SortDesc(published, ByCreatedAt);
    FilterKeepsOrder(sorted, InCategory(c), ByCreatedAt);
    SortDescSameMembers(published, ByCreatedAt);
  }

  /** The group keeps five of the category's published posts, or all when fewer, and no newer one is left out. */
  lemma {:induction false} NewestInCategoryIsTop(posts: seq<Post>, c: string)
    ensures |NewestInCategory(posts, c)| == Min(|Filter(posts, PublishedIn(c))|, 5)
    ensures var newest := NewestInCategory(posts, c);
            forall x :: x in multiset(Filter(posts, PublishedIn(c))) - multiset(newest) ==>
              |newest| > 0 && x.createdAt <= newest[|newest| - 1].createdAt
  {
    var sorted := SortDesc(Filter(posts, IsPublished), ByCreatedAt);
    var group := Filter(sorted, InCategory(c));
    var all := Filter(posts, PublishedIn(c));
    FilterKeepsOrder(sorted, InCategory(c), ByCreatedAt);
    CategoryGroupIsReordering(posts, c);
    assert |group| == |all| by {
      assert |multiset(group)| == |group| && |multiset(all)| == |all|;
    }
    TakeIsTop(group, 5, ByCreatedAt);
  }

  /**
   * The newest five of a category: as many as it has published posts, up to
   * five, sorted newest first, published and of that category, and no
   * published post of the category left out is newer than the last one kept.
   */
  lemma NewestInCategoryIsNewestFive(posts: seq<Post>, c: string)
    ensures var newest, all := NewestInCategory(posts, c), Filter(posts, PublishedIn(c));
            |newest| == Min(|all|, 5) &&
            SortedDesc(newest, ByCreatedAt) &&
            (forall x :: x in newest ==> x in posts && IsPublished(x) && x.category == c) &&
            (forall x :: x in multiset(all) - multiset(newest) ==>
               |newest| > 0 && x.createdAt <= newest[|newest| - 1].createdAt)
  {
    NewestInCategoryMembers(posts, c);
    NewestInCategoryIsTop(posts, c);
  }

  predicate HasPublishedIn(posts: seq<Post>, c: string) {
    exists x :: x in posts && IsPublished(x) && x.category == c
  }

  predicate NamesGroup(groups: seq<(string, seq<Summary>)>, n: nat, c: string) {
    exists i :: 0 <= i < n && i < |groups| && groups[i].0 == c
  }

  /** Looking one group further adds exactly that group's category. */
  lemma NamesOneMoreGroup(groups: seq<(string, seq<Summary>)>, i: nat)
    requires i < |groups|
    ensures forall c :: NamesGroup(groups, i + 1, c) <==> NamesGroup(groups, i, c) || c == groups[i].0
  {
    forall c ensures NamesGroup(groups, i + 1, c) <==> NamesGroup(groups, i, c) || c == groups[i].0 {
      if NamesGroup(groups, i + 1, c) && c != groups[i].0 {
        var j :| 0 <= j < i + 1 && j < |groups| && groups[j].0 == c;
        assert j < i;
      }
    }
  }

  /** The aggregate's groups: one per category with a published post, holding its newest five, projected. */
  function CategoryGroups(posts: seq<Post>): (r: seq<(string, seq<Summary>)>)
    ensures forall i :: 0 <= i < |r| ==> r[i].1 == Summaries(NewestInCategory(posts, r[i].0))
    ensures forall c :: NamesGroup(r, |r|, c) <==> HasPublishedIn(posts, c)
  {
    var published := Filter(posts, IsPublished);
    var cats := CategoriesOf(SortDesc(published, ByCreatedAt));
    var r := seq(|cats|, i requires 0 <= i < |cats| => (cats[i], Summaries(NewestInCategory(posts, cats[i]))));
    GroupsNameThePublishedCategories(posts, cats, r);
    r
  }

  lemma GroupsNameThePublishedCategories(posts: seq<Post>, cats: seq<string>, r: seq<(string, seq<Summary>)>)
    requires cats == CategoriesOf(SortDesc(Filter(posts, IsPublished), ByCreatedAt))
    requires |r| == |cats| && forall i :: 0 <= i < |r| ==> r[i].0 == cats[i]
    ensures forall c :: NamesGroup(r, |r|, c) <==> HasPublishedIn(posts, c)
  {
    var published := Filter(posts, IsPublished);
    SortDescSameMembers(published, ByCreatedAt);
    forall c ensures NamesGroup(r, |r|, c) <==> HasPublishedIn(posts, c) {
      if HasPublishedIn(posts, c) {
        var x :| x in posts && IsPublished(x) && x.category == c;
        assert x in published;
        assert c in cats;
        var i :| 0 <= i < |cats| && cats[i] == c;
        assert r[i].0 == c;
      }
      if NamesGroup(r, |r|, c) {
        var i :| 0 <= i < |r| && i < |r| && r[i].0 == c;
        assert cats[i] in cats;
      }
    }
  }

  /** The distinct categories of a sequence of posts. */
  function CategoriesOf(s: seq<Post>): (r: seq<string>)
    ensures forall c :: c in r <==> exists x :: x in s && x.category == c
  {
    if s == [] then []
    else
      var rest := CategoriesOf(s[1..]);
      assert forall x :: x in s <==> x == s[0] || x in s[1..];
      if s[0].category in rest then rest else [s[0].category] + rest
  }

  /**
   * Every category with a published post, mapped to its newest five posts
   * (projected), one key per category.
   */
  method GetAllNewsByCategory(posts: seq<Post>) returns (r: Response<PostsPayload>)
    ensures r.success && r.statusCode == 200 && r.data.Some? && r.data.value.ByCategory?
    ensures forall c :: c in r.data.value.news <==> HasPublishedIn(posts, c)
    ensures forall c :: c in r.data.value.news ==> r.data.value.news[c] == Summaries(NewestInCategory(posts, c))
  {
    var groups := CategoryGroups(posts);
    var acc: map<string, seq<Summary>> := map[];
    for i := 0 to |groups|
      invariant forall c :: c in acc <==> NamesGroup(groups, i, c)
      invariant forall c :: c in acc ==> acc[c] == Summaries(NewestInCategory(posts, c))
    {
      NamesOneMoreGroup(groups, i);
      assert groups[i].1 == Summaries(NewestInCategory(posts, groups[i].0));
      acc := acc[groups[i].0 := groups[i].1];
    }
    r := CreateResponse(true, 200, "All news by category fetched successfully", Some(ByCategory(acc)));
  }

  /** A page of a sorted selection is sorted. */
  lemma PageOfSortedIsSorted(r: Response<PostsPayload>, selection: seq<Post>, p: int, l: int, k: SortKey)
    requires SortedDesc(selection, k) && IsPageOf(r, selection, p, l)
    ensures r.success ==> SortedDesc(r.data.value.items, k)
  {
  }

  /** A page holds only posts of the selection. */
  lemma PageItemsComeFrom(r: Response<PostsPayload>, selection: seq<Post>, p: int, l: int)
    requires IsPageOf(r, selection, p, l)
    ensures r.success ==> forall x :: x in r.data.value.items ==> x in selection
  {
    if r.success {
      forall x | x in r.data.value.items ensures x in selection {
        var k :| 0 <= k < |r.data.value.items| && r.data.value.items[k] == x;
      }
    }
  }

  /** A search's next link carries the query and then a second `?`, as built. */
  lemma SearchLinksRepeatTheQueryMark(posts: seq<Post>, q: string, page: Option<int>, limit: Option<int>,
                                      postsUrl: string, textMatch: (string, Post) -> bool)
    requires q != ""
    ensures var r := SearchNews(posts, q, page, limit, postsUrl, textMatch);
            r.success && r.data.value.pagination.nextPage.Some? ==>
              var base := postsUrl + "/search?q=" + q;
              ParseLink(r.data.value.pagination.nextPage.value) == Some((base, ParseIntOr(Some(page.GetOr(1)), 1) + 1, ParseIntOr(Some(limit.GetOr(10)), 10)))
  {
  }

  /** The store `getPostBySlug` updates: slugs are unique. */
  class PostStore {
    var posts: seq<Post>

    ghost predicate Valid()
      reads this
    {
      forall i, j :: 0 <= i < j < |posts| ==> posts[i].slug != posts[j].slug
    }

    constructor (posts: seq<Post>)
      requires forall i, j :: 0 <= i < j < |posts| ==> posts[i].slug != posts[j].slug
      ensures this.posts == posts && Valid()
    {
      this.posts := posts;
    }

    /** Counts a visit to the post with this slug (of any status) and answers with the updated post. */
    method GetPostBySlug(slug: string) returns (r: Response<PostsPayload>)
      requires Valid()
      modifies this
      ensures Valid()
      ensures (forall i :: 0 <= i < |old(posts)| ==> old(posts)[i].slug != slug) ==>
                r == PostNotFound && posts == old(posts)
      ensures forall i :: 0 <= i < |old(posts)| && old(posts)[i].slug == slug ==>
                posts == old(posts)[i := old(posts)[i].(visitCount := old(posts)[i].visitCount + 1)] &&
                r == CreateResponse(true, 200, "Post fetched successfully", Some(OnePost(posts[i])))
    {
      if i :| 0 <= i < |posts| && posts[i].slug == slug {
        posts := posts[i := posts[i].(visitCount := posts[i].visitCount + 1)];
        r := CreateResponse(true, 200, "Post fetched successfully", Some(OnePost(posts[i])));
      } else {
        r := PostNotFound;
      }
    }
  }
}
