// The pagination every listing handler repeats: `parseInt(q) || default`
// for `page` and `limit`, `skip = (page - 1) * limit`, a `.skip(skip)
// .limit(limit)` window over the collection, and `Math.ceil(total / limit)`.

module Paging {
  import opened Wrappers

  /**
   * `parseInt(q) || d`. `parsed` is what `parseInt` produced, `None` for
   * NaN; NaN and 0 are falsy, so both fall back to the default.
   */
  function ParamOr(parsed: Option<int>, d: int): (r: int)
    ensures parsed.Some? && parsed.value != 0 ==> r == parsed.value
    ensures parsed.None? || parsed.value == 0 ==> r == d
    ensures d != 0 ==> r != 0
  {
    if parsed.Some? && parsed.value != 0 then parsed.value else d
  }

  /** `Math.ceil(n / d)` for a count `n` and a non-zero divisor of either sign. */
  function CeilDiv(n: nat, d: int): (r: int)
    requires d != 0
    ensures d > 0 ==> (r - 1) * d < n <= r * d
    ensures d < 0 ==> r * d <= n < (r - 1) * d
  {
    if d > 0 then
      var q := (n + d - 1) / d;
      var m := (n + d - 1) % d;
      assert n + d - 1 == q * d + m && 0 <= m < d;
      assert q * d == n + d - 1 - m;
      assert (q - 1) * d == q * d - d;
      q
    else
      var e := -d;
      var q := n / e;
      var m := n % e;
      assert n == q * e + m && 0 <= m < e;
      assert -q * d == q * e;
      assert (-q - 1) * d == q * e + e;
      -q
  }

  /** The number a `Math.ceil` returns is the only one with its bracketing property. */
  lemma CeilDivUnique(n: nat, d: int, r: int)
    requires d > 0 && (r - 1) * d < n <= r * d
    ensures r == CeilDiv(n, d)
  {
    var c := CeilDiv(n, d);
    MulMonotone(r, c - 1, d);
    MulMonotone(c, r - 1, d);
  }

  lemma MulMonotone(a: int, b: int, d: int)
    requires d > 0
    ensures a <= b ==> a * d <= b * d
  {
  }

  /** What a listing answers: one window of documents and the pagination block. */
  datatype Page<T> = Page(docs: seq<T>, total: nat, page: int, limit: int, pages: int)

  function Min(a: int, b: int): int { if a <= b then a else b }

  function Abs(x: int): nat { if x < 0 then -x else x }

  /**
   * `find().skip((page - 1) * limit).limit(limit)` and `countDocuments()`.
   * A negative skip is refused by the store (`None`, answered with 500); a
   * negative limit returns `|limit|` documents.
   */
  function Paginate<T>(docs: seq<T>, page: int, limit: int): (r: Option<Page<T>>)
    requires limit != 0
    ensures r.None? <==> (page - 1) * limit < 0
    ensures r.Some? ==>
      && r.value.total == |docs| && r.value.page == page && r.value.limit == limit
      && r.value.pages == CeilDiv(|docs|, limit)
    ensures r.Some? ==>
      var skip := (page - 1) * limit;
      && |r.value.docs| == (if skip >= |docs| then 0 else Min(Abs(limit), |docs| - skip))
      && forall k :: 0 <= k < |r.value.docs| ==> skip + k < |docs| && r.value.docs[k] == docs[skip + k]
  {
    var skip := (page - 1) * limit;
    if skip < 0 then None
    else
      var from := Min(skip, |docs|);
      var to := Min(skip + Abs(limit), |docs|);
      Some(Page(docs[from..to], |docs|, page, limit, CeilDiv(|docs|, limit)))
  }

  /**
   * With a positive limit every document sits on exactly the page its index
   * says: document `i` is entry `i % limit` of page `i / limit + 1`.
   */
  lemma PageOfIndex<T>(docs: seq<T>, limit: int, i: int)
    requires limit > 0 && 0 <= i < |docs|
    ensures i / limit + 1 >= 1
    ensures var p := Paginate(docs, i / limit + 1, limit);
      && p.Some? && i % limit < |p.value.docs| && p.value.docs[i % limit] == docs[i]
  {
    var page := i / limit + 1;
    assert (page - 1) * limit == (i / limit) * limit;
    assert (i / limit) * limit + i % limit == i;
  }

  /** With a positive limit, page `p >= 1` holds documents exactly when `p <= pages`. */
  lemma NonEmptyPages<T>(docs: seq<T>, page: int, limit: int)
    requires limit > 0 && page >= 1
    ensures var p := Paginate(docs, page, limit);
      p.Some? && (|p.value.docs| > 0 <==> page <= p.value.pages)
  {
    var pages := CeilDiv(|docs|, limit);
    MulMonotone(page - 1, pages - 1, limit);
    MulMonotone(pages, page - 1, limit);
    MulMonotone(0, page - 1, limit);
  }

  /** Fifteen documents, ten a page: two pages, and the second holds five. */
  lemma FifteenByTen<T>(docs: seq<T>)
    requires |docs| == 15
    ensures var p := Paginate(docs, 2, 10);
      p.Some? && p.value.pages == 2 && |p.value.docs| == 5 && p.value.docs == docs[10..]
  {
    CeilDivUnique(15, 10, 2);
  }
}
