/**
 * The post collection and the query steps the listing handlers ask the
 * database for: filtering, sorting in descending order of a key, and the
 * skip/limit window.
 */
module PostQuery {
  import opened Wrappers

  datatype Status = DRAFT | PUBLISHED

  datatype Post = Post(
    id: nat,
    title: string,
    slug: string,
    image: Option<string>,
    category: string,
    description: string,
    status: Status,
    visitCount: int,
    createdAt: int)

  /** The fields a sort can be asked for. */
  datatype SortKey = ByCreatedAt | ByVisitCount

  function Key(k: SortKey, p: Post): int {
    match k
    case ByCreatedAt => p.createdAt
    case ByVisitCount => p.visitCount
  }

  /** The posts satisfying `keep`, in collection order. */
  function Filter(s: seq<Post>, keep: Post -> bool): (r: seq<Post>)
    ensures |r| <= |s|
    ensures forall x :: x in r <==> x in s && keep(x)
  {
    if s == [] then []
    else (if keep(s[0]) then [s[0]] else []) + Filter(s[1..], keep)
  }

  predicate SortedDesc(s: seq<Post>, k: SortKey) {
    forall i, j :: 0 <= i < j < |s| ==> Key(k, s[i]) >= Key(k, s[j])
  }

  function Insert(x: Post, s: seq<Post>, k: SortKey): (r: seq<Post>)
    requires SortedDesc(s, k)
    ensures SortedDesc(r, k)
    ensures multiset(r) == multiset(s) + multiset{x}
    ensures forall y :: y in r ==> y in s || y == x
  {
    if s == [] then [x]
    else if Key(k, x) >= Key(k, s[0]) then
      ConsSorted(x, s, k);
      [x] + s
    else
      var rest := Insert(x, s[1..], k);
      assert s == [s[0]] + s[1..];
      ConsSorted(s[0], rest, k);
      [s[0]] + rest
  }

  lemma ConsSorted(h: Post, t: seq<Post>, k: SortKey)
    requires SortedDesc(t, k)
    requires forall y :: y in t ==> Key(k, h) >= Key(k, y)
    ensures SortedDesc([h] + t, k)
  {
    var r := [h] + t;
    forall i, j | 0 <= i < j < |r| ensures Key(k, r[i]) >= Key(k, r[j]) {
      assert r[j] == t[j - 1];
      if i > 0 {
        assert r[i] == t[i - 1];
      } else {
        assert t[j - 1] in t;
      }
    }
  }

  /**
   * `.sort({key: -1})`: the posts in descending order of the key. The database
   * leaves the order of equal keys open; this definition keeps collection order.
   */
  function SortDesc(s: seq<Post>, k: SortKey): (r: seq<Post>)
    ensures SortedDesc(r, k)
    ensures multiset(r) == multiset(s)
    ensures |r| == |s|
  {
    if s == [] then []
    else
      assert s == [s[0]] + s[1..];
      Insert(s[0], SortDesc(s[1..], k), k)
  }

  /** Sorting neither adds nor drops a post. */
  lemma SortDescSameMembers(s: seq<Post>, k: SortKey)
    ensures forall x :: x in SortDesc(s, k) <==> x in s
  {
    var r := SortDesc(s, k);
    forall x ensures x in r <==> x in s {
      assert x in r <==> x in multiset(r);
      assert x in s <==> x in multiset(s);
    }
  }

  /** Filtering keeps every copy of a kept post and no copy of any other. */
  lemma {:induction false} FilterCounts(s: seq<Post>, keep: Post -> bool)
    ensures forall x :: multiset(Filter(s, keep))[x] == if keep(x) then multiset(s)[x] else 0
  {
    if s != [] {
      FilterCounts(s[1..], keep);
      assert s == [s[0]] + s[1..];
    }
  }

  /** Filtering a sorted sequence keeps it sorted. */
  lemma {:induction false} FilterKeepsOrder(s: seq<Post>, keep: Post -> bool, k: SortKey)
    requires SortedDesc(s, k)
    ensures SortedDesc(Filter(s, keep), k)
  {
    if s != [] {
      assert SortedDesc(s[1..], k);
      FilterKeepsOrder(s[1..], keep, k);
      if keep(s[0]) {
        forall y | y in Filter(s[1..], keep) ensures Key(k, s[0]) >= Key(k, y) {
          var j :| 0 <= j < |s[1..]| && s[1..][j] == y;
          assert s[j + 1] == y;
        }
        ConsSorted(s[0], Filter(s[1..], keep), k);
      }
    }
  }

  function Min(a: int, b: int): int {
    if a <= b then a else b
  }

  function Abs(a: int): nat {
    if a < 0 then -a else a
  }

  /**
   * `.skip(skip).limit(limit)`: the posts from position `skip` on, at most
   * `|limit|` of them, and all of them when `limit` is 0.
   */
  function Window<T>(s: seq<T>, skip: nat, limit: int): (r: seq<T>)
    ensures |r| == if skip >= |s| then 0 else if limit == 0 then |s| - skip else Min(|s| - skip, Abs(limit))
    ensures forall k :: 0 <= k < |r| ==> r[k] == s[skip + k]
  {
    if skip >= |s| then []
    else if limit == 0 then s[skip..]
    else s[skip..skip + Min(|s| - skip, Abs(limit))]
  }

  /** `.limit(n)` on its own: the first `n` posts, or all of them when fewer. */
  function Take<T>(s: seq<T>, n: nat): (r: seq<T>)
    ensures |r| == Min(|s|, n) && r == s[..|r|]
  {
    if |s| <= n then s else s[..n]
  }

  /** A window of a sorted sequence is sorted. */
  lemma WindowKeepsOrder(s: seq<Post>, skip: nat, limit: int, k: SortKey)
    requires SortedDesc(s, k)
    ensures SortedDesc(Window(s, skip, limit), k)
  {
  }

  /** With a positive limit, the page at `skip` followed by the next page is the window of twice the size. */
  lemma ConsecutivePagesAdjoin<T>(s: seq<T>, skip: nat, limit: nat)
    requires limit > 0
    ensures Window(s, skip, limit) + Window(s, skip + limit, limit) == Window(s, skip, 2 * limit)
  {
    var a, b, c := Window(s, skip, limit), Window(s, skip + limit, limit), Window(s, skip, 2 * limit);
    assert |a + b| == |c|;
    forall i | 0 <= i < |c| ensures (a + b)[i] == c[i] {
      if i >= |a| {
        assert |a| == limit;
        assert (a + b)[i] == b[i - limit];
      }
    }
  }

  /**
   * With a positive limit, page `p` (counted from 1) holds at least one post
   * exactly when `p` is at most `ceil(n / limit)`.
   */
  lemma PageNonEmptyIffInRange<T>(s: seq<T>, p: nat, limit: nat, pages: int)
    requires p >= 1 && limit > 0
    requires (pages - 1) * limit < |s| <= pages * limit
    ensures |Window(s, (p - 1) * limit, limit)| > 0 <==> p <= pages
  {
    if p <= pages {
      MulLeq(p - 1, pages - 1, limit);
    } else {
      MulLeq(pages, p - 1, limit);
    }
  }

  lemma MulLeq(a: int, b: int, c: nat)
    requires a <= b
    ensures a * c <= b * c
  {
  }

  /**
   * The first `n` posts of a sorted sequence are its top `n`: every post left
   * out has a key no greater than the last one kept.
   */
  lemma TakeIsTop(s: seq<Post>, n: nat, k: SortKey)
    requires SortedDesc(s, k) && 0 < n
    ensures var top := Take(s, n);
            multiset(s) == multiset(top) + multiset(s[|top|..]) &&
            forall x :: x in multiset(s) - multiset(top) ==> |top| > 0 && Key(k, x) <= Key(k, top[|top| - 1])
  {
    var top := Take(s, n);
    assert s == top + s[|top|..];
    forall x | x in multiset(s) - multiset(top)
      ensures |top| > 0 && Key(k, x) <= Key(k, top[|top| - 1])
    {
      assert x in s[|top|..];
      var i :| 0 <= i < |s[|top|..]| && s[|top|..][i] == x;
      assert s[|top| + i] == x;
    }
  }
}
