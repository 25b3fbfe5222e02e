/**
 * The pagination engine shared by every listing endpoint: it reads page and
 * limit with fallbacks, computes the number of pages, rejects a page beyond
 * the last one, and builds the links to the neighbouring pages.
 */
module Pagination {
  import opened Wrappers
  import opened Text

  const OutOfRangeMessage := "Requested page exceeds the total number of pages"

  /** `parseInt(x) || fallback`: a missing value and 0 (falsy) both fall back. */
  function ParseIntOr(x: Option<int>, fallback: int): (r: int)
    ensures x.Some? && x.value != 0 ==> r == x.value
    ensures x.None? || x.value == 0 ==> r == fallback
  {
    if x.None? || x.value == 0 then fallback else x.value
  }

  /** `Math.ceil(a / b)` for a non-zero divisor, characterised without division. */
  function CeilDiv(a: int, b: int): (q: int)
    requires b != 0
    ensures b > 0 ==> (q - 1) * b < a <= q * b
    ensures b < 0 ==> q * b <= a < (q - 1) * b
  {
    if b > 0 then
      var q := (a + b - 1) / b;
      assert (a + b - 1) - b < q * b <= a + b - 1;
      q
    else
      var f := a / -b;
      assert f * -b <= a < f * -b + -b;
      assert -f * b == f * -b;
      assert (-f - 1) * b == f * -b + -b;
      -f
  }

  /**
   * The link to page `n`: the query is appended to `baseUrl` as it stands,
   * `?page=` even when the base URL already holds a `?`.
   */
  function PageLink(baseUrl: string, n: int, limit: int): (link: string)
    ensures |link| > |baseUrl| + 6 && link[..|baseUrl| + 6] == baseUrl + "?page="
  {
    var link := baseUrl + "?page=" + IntToString(n) + "&limit=" + IntToString(limit);
    assert link == (baseUrl + "?page=") + (IntToString(n) + "&limit=" + IntToString(limit));
    link
  }

  predicate IsNumberChar(c: char) {
    IsDigit(c) || c == '-'
  }

  /** Splits off the longest suffix made of digits and minus signs. */
  function TrailingNumber(s: string): (r: (string, string))
    ensures r.0 + r.1 == s
    decreases |s|
  {
    if s != [] && IsNumberChar(s[|s| - 1]) then
      var (p, t) := TrailingNumber(s[..|s| - 1]);
      (p, t + [s[|s| - 1]])
    else
      (s, "")
  }

  /** Reads a link back into its base URL, page number and limit, as a client would. */
  function ParseLink(link: string): Option<(string, int, int)> {
    var (a, lim) := TrailingNumber(link);
    if |a| < 7 || a[|a| - 7..] != "&limit=" then None
    else
      var (b, pg) := TrailingNumber(a[..|a| - 7]);
      if |b| < 6 || b[|b| - 6..] != "?page=" then None
      else
        match (ParseInt(pg), ParseInt(lim))
        case (Some(n), Some(l)) => Some((b[..|b| - 6], n, l))
        case _ => None
  }

  lemma {:induction false} TrailingNumberOf(p: string, t: string)
    requires p == [] || !IsNumberChar(p[|p| - 1])
    requires forall k :: 0 <= k < |t| ==> IsNumberChar(t[k])
    ensures TrailingNumber(p + t) == (p, t)
    decreases |t|
  {
    if t == [] {
      assert p + t == p;
    } else {
      var s := p + t;
      assert s[..|s| - 1] == p + t[..|t| - 1];
      TrailingNumberOf(p, t[..|t| - 1]);
      assert t[..|t| - 1] + [t[|t| - 1]] == t;
    }
  }

  /** Every link built by PageLink reads back to exactly what it was built from. */
  lemma LinkRoundTrip(baseUrl: string, n: int, limit: int)
    ensures ParseLink(PageLink(baseUrl, n, limit)) == Some((baseUrl, n, limit))
  {
    var ns, ls := IntToString(n), IntToString(limit);
    var b := baseUrl + "?page=";
    var a := b + ns + "&limit=";
    assert PageLink(baseUrl, n, limit) == a + ls;
    TrailingNumberOf(a, ls);
    assert a[|a| - 7..] == "&limit=";
    assert a[..|a| - 7] == b + ns;
    TrailingNumberOf(b, ns);
    assert b[|b| - 6..] == "?page=";
    assert b[..|b| - 6] == baseUrl;
    IntRoundTrip(n);
    IntRoundTrip(limit);
  }

  datatype PageResult =
    | PageError(status: int, message: string, totalPages: int)
    | PageInfo(total: int, currentTotal: int, totalPages: int,
               prevPage: Option<string>, nextPage: Option<string>)

  /** `paginate(total, currentTotal, page, limit, baseUrl)`. */
  function Paginate(total: int, currentTotal: int, page: Option<int>, limit: Option<int>,
                    baseUrl: string): (r: PageResult)
    ensures var p, l := ParseIntOr(page, 1), ParseIntOr(limit, 10);
      && l != 0
      && r.totalPages == CeilDiv(total, l)
      && (r.PageError? <==> p > r.totalPages && r.totalPages > 0)
      && (r.PageError? ==> r.status == 400 && r.message == OutOfRangeMessage)
      && (r.PageInfo? ==> r.total == total && r.currentTotal == currentTotal)
      && (r.PageInfo? ==> (r.prevPage.Some? <==> p > 1) && (r.nextPage.Some? <==> p < r.totalPages))
      && (r.PageInfo? && r.prevPage.Some? ==> r.prevPage.value == PageLink(baseUrl, p - 1, l))
      && (r.PageInfo? && r.nextPage.Some? ==> r.nextPage.value == PageLink(baseUrl, p + 1, l))
      && (r.PageInfo? && r.prevPage.Some? ==> ParseLink(r.prevPage.value) == Some((baseUrl, p - 1, l)))
      && (r.PageInfo? && r.nextPage.Some? ==> ParseLink(r.nextPage.value) == Some((baseUrl, p + 1, l)))
  {
    var p := ParseIntOr(page, 1);
    var l := ParseIntOr(limit, 10);
    var totalPages := CeilDiv(total, l);
    if p > totalPages && totalPages > 0 then
      PageError(400, OutOfRangeMessage, totalPages)
    else
      LinkRoundTrip(baseUrl, p - 1, l);
      LinkRoundTrip(baseUrl, p + 1, l);
      var prevPage := if p > 1 then Some(PageLink(baseUrl, p - 1, l)) else None;
      var nextPage := if p < totalPages then Some(PageLink(baseUrl, p + 1, l)) else None;
      PageInfo(total, currentTotal, totalPages, prevPage, nextPage)
  }

  /** With a positive limit the page count is `(total + limit - 1) / limit`. */
  lemma PageCountForPositiveLimit(total: int, currentTotal: int, page: Option<int>, limit: int,
                                  baseUrl: string)
    requires limit > 0
    ensures Paginate(total, currentTotal, page, Some(limit), baseUrl).totalPages
         == (total + limit - 1) / limit
  {
    var q := Paginate(total, currentTotal, page, Some(limit), baseUrl).totalPages;
    var d := (total + limit - 1) / limit;
    assert (q - 1) * limit < total <= q * limit;
    assert (d - 1) * limit < total <= d * limit by {
      assert d * limit <= total + limit - 1 < d * limit + limit;
    }
    if q < d {
      MulMonotone(q, d - 1, limit);
    } else if q > d {
      MulMonotone(d, q - 1, limit);
    }
  }

  lemma MulMonotone(a: int, b: int, c: int)
    requires a <= b && c > 0
    ensures a * c <= b * c
  {
  }

  /** A missing or zero limit is read as 10, whatever default the caller used. */
  lemma FallbackLimitIsTen(total: int, currentTotal: int, page: Option<int>, baseUrl: string)
    ensures Paginate(total, currentTotal, page, None, baseUrl)
         == Paginate(total, currentTotal, page, Some(10), baseUrl)
    ensures Paginate(total, currentTotal, page, Some(0), baseUrl)
         == Paginate(total, currentTotal, page, Some(10), baseUrl)
  {
  }

  /**
   * An empty collection has no pages and is never out of range, whatever the
   * page; a next link still appears for a negative page number.
   */
  lemma EmptyCollectionIsNeverOutOfRange(currentTotal: int, page: Option<int>, limit: Option<int>,
                                         baseUrl: string)
    ensures var r := Paginate(0, currentTotal, page, limit, baseUrl);
      && r.PageInfo? && r.totalPages == 0
      && (r.nextPage.Some? <==> ParseIntOr(page, 1) < 0)
  {
    var l := ParseIntOr(limit, 10);
    var q := CeilDiv(0, l);
    if l > 0 {
      if q > 0 { MulMonotone(1, q - 1, l); }
      if q < 0 { MulMonotone(q, -1, l); }
    } else {
      if q > 0 { MulMonotone(1, q, -l); }
      if q < 0 { MulMonotone(q - 1, -1, -l); }
    }
  }

  /** The two links of the middle-page example, spelled out. */
  lemma ExampleLinks()
    ensures PageLink("/x", 1, 10) == "/x?page=1&limit=10"
    ensures PageLink("/x", 3, 10) == "/x?page=3&limit=10"
  {
    assert DigitChar(1) == '1' && DigitChar(0) == '0' && DigitChar(3) == '3';
    assert IntToString(10) == "10" by {
      assert NatToString(10) == NatToString(1) + [DigitChar(0)];
    }
    assert IntToString(1) == "1" && IntToString(3) == "3";
    assert "/x" + "?page=" == "/x?page=";
    assert "/x?page=" + "1" == "/x?page=1" && "/x?page=" + "3" == "/x?page=3";
    assert "/x?page=1" + "&limit=" == "/x?page=1&limit=" && "/x?page=3" + "&limit=" == "/x?page=3&limit=";
    assert "/x?page=1&limit=" + "10" == "/x?page=1&limit=10";
    assert "/x?page=3&limit=" + "10" == "/x?page=3&limit=10";
  }

  /** A middle page: 25 items, 10 a page, page 2 of 3, with links on both sides. */
  lemma MiddlePageExample()
    ensures Paginate(25, 10, Some(2), Some(10), "/x")
         == PageInfo(25, 10, 3, Some("/x?page=1&limit=10"), Some("/x?page=3&limit=10"))
  {
    assert CeilDiv(25, 10) == 3;
    ExampleLinks();
  }

  /** A page past the end: 100 items, 10 a page, page 11 is out of range. */
  lemma PastTheEndExample()
    ensures Paginate(100, 10, Some(11), Some(10), "/x") == PageError(400, OutOfRangeMessage, 10)
  {
    assert CeilDiv(100, 10) == 10;
  }

  /** An empty collection: no pages, no links. */
  lemma EmptyExample()
    ensures Paginate(0, 0, Some(1), Some(10), "/x") == PageInfo(0, 0, 0, None, None)
  {
    assert CeilDiv(0, 10) == 0;
  }
}
