/** Page arithmetic of the transaction and case lists, over rows already filtered and ordered. */
module Paging {
  import opened Wrappers

  /** `Math.max(1, Number(page) || 1)`: a page that is absent or 0 is the first. */
  function EffectivePage(page: Option<int>): (p: int)
    ensures 1 <= p
  {
    var n := if page.GetOr(0) == 0 then 1 else page.value;
    if n < 1 then 1 else n
  }

  /** `Math.min(100, Math.max(1, Number(limit) || 20))` */
  function EffectiveLimit(limit: Option<int>): (l: int)
    ensures 1 <= l <= 100
  {
    var n := if limit.GetOr(0) == 0 then 20 else limit.value;
    var atLeastOne := if n < 1 then 1 else n;
    if atLeastOne > 100 then 100 else atLeastOne
  }

  function Min(a: int, b: int): int { if a < b then a else b }

  /** Skip `(page - 1) * limit` rows and take up to `limit`. */
  function PageOf<T>(rows: seq<T>, page: int, limit: int): seq<T>
    requires 1 <= page && 1 <= limit
  {
    var skip := (page - 1) * limit;
    SkipIsNat(page, limit);
    if |rows| <= skip then [] else rows[skip..Min(|rows|, skip + limit)]
  }

  lemma PageIsShort<T>(rows: seq<T>, page: int, limit: int)
    requires 1 <= page && 1 <= limit
    ensures |PageOf(rows, page, limit)| <= limit
  {
    SkipIsNat(page, limit);
  }

  lemma SkipIsNat(page: int, limit: int)
    requires 1 <= page && 1 <= limit
    ensures 0 <= (page - 1) * limit
  {
  }

  /** `Math.ceil(total / limit)` */
  function TotalPages(total: nat, limit: int): nat
    requires 1 <= limit
  {
    (total + limit - 1) / limit
  }

  /** The first `n` pages, one after the other. */
  function FirstPages<T>(rows: seq<T>, n: nat, limit: int): seq<T>
    requires 1 <= limit
  {
    if n == 0 then [] else FirstPages(rows, n - 1, limit) + PageOf(rows, n, limit)
  }

  lemma {:induction false} FirstPagesAreAPrefix<T>(rows: seq<T>, n: nat, limit: int)
    requires 1 <= limit
    ensures 0 <= n * limit
    ensures FirstPages(rows, n, limit) == rows[..Min(|rows|, n * limit)]
  {
    if n > 0 {
      FirstPagesAreAPrefix(rows, n - 1, limit);
      assert n * limit == (n - 1) * limit + limit;
    }
  }

  lemma CeilingBounds(total: nat, limit: int)
    requires 1 <= limit
    ensures total <= TotalPages(total, limit) * limit
    ensures 0 < total ==> (TotalPages(total, limit) - 1) * limit < total
    ensures total == 0 ==> TotalPages(total, limit) == 0
  {
    var q, r := (total + limit - 1) / limit, (total + limit - 1) % limit;
    assert total + limit - 1 == q * limit + r;
    assert (q - 1) * limit == q * limit - limit;
    if total == 0 && q > 0 { Monotone(1, q, limit); }
  }

  /** The pages concatenate to the whole list: nothing is lost, repeated or reordered. */
  lemma PagesAreTheList<T>(rows: seq<T>, limit: int)
    requires 1 <= limit
    ensures FirstPages(rows, TotalPages(|rows|, limit), limit) == rows
  {
    FirstPagesAreAPrefix(rows, TotalPages(|rows|, limit), limit);
    CeilingBounds(|rows|, limit);
  }

  /** The reported number of pages is exact: a page holds rows exactly when its number is not beyond it. */
  lemma PageIsEmptyExactlyBeyondTheLast<T>(rows: seq<T>, page: int, limit: int)
    requires 1 <= page && 1 <= limit
    ensures PageOf(rows, page, limit) != [] <==> page <= TotalPages(|rows|, limit)
  {
    var n := TotalPages(|rows|, limit);
    CeilingBounds(|rows|, limit);
    SkipIsNat(page, limit);
    if page <= n {
      Monotone(page - 1, n - 1, limit);
    } else {
      Monotone(n, page - 1, limit);
    }
  }

  lemma Monotone(a: int, b: int, limit: int)
    requires a <= b && 1 <= limit
    ensures a * limit <= b * limit
  {
    assert 0 <= (b - a) * limit;
  }

  /** Each row stands on one page, at one place: the page and place that division gives. */
  lemma RowStandsOnItsPage<T>(rows: seq<T>, i: nat, limit: int)
    requires 1 <= limit && i < |rows|
    ensures 1 <= i / limit + 1 && i % limit < |PageOf(rows, i / limit + 1, limit)|
    ensures PageOf(rows, i / limit + 1, limit)[i % limit] == rows[i]
  {
    assert i == (i / limit) * limit + i % limit;
    SkipIsNat(i / limit + 1, limit);
  }

  /** The rows from `skip` on, at most `limit` of them, and fewer only where the rows end. */
  ghost predicate IsPage<T>(rows: seq<T>, skip: int, limit: int, items: seq<T>) {
    && 0 <= skip && |items| <= limit
    && (forall i :: 0 <= i < |items| ==> skip + i < |rows| && items[i] == rows[skip + i])
    && (|items| < limit ==> |rows| <= skip + |items|)
  }

  lemma PageInFields<T>(rows: seq<T>, page: int, limit: int)
    requires 1 <= page && 1 <= limit
    ensures IsPage(rows, (page - 1) * limit, limit, PageOf(rows, page, limit))
  {
    SkipIsNat(page, limit);
    PageIsShort(rows, page, limit);
  }

  /** What a list answers for a page and a limit that are in range. */
  lemma AnswerInFields<T>(rows: seq<T>, page: int, limit: int)
    requires 1 <= page && 1 <= limit
    ensures IsPage(rows, (page - 1) * limit, limit, PageOf(rows, page, limit))
    ensures PageOf(rows, page, limit) != [] <==> page <= TotalPages(|rows|, limit)
    ensures |rows| <= TotalPages(|rows|, limit) * limit
    ensures 0 < |rows| ==> (TotalPages(|rows|, limit) - 1) * limit < |rows|
  {
    PageIsEmptyExactlyBeyondTheLast(rows, page, limit);
    CeilingBounds(|rows|, limit);
    PageInFields(rows, page, limit);
  }

  datatype Pagination = Pagination(total: nat, page: int, limit: int, totalPages: nat)

  method ListRows<T>(rows: seq<T>, page: Option<int>, limit: Option<int>) returns (items: seq<T>, p: Pagination)
    ensures p == Pagination(|rows|, EffectivePage(page), EffectiveLimit(limit), TotalPages(|rows|, EffectiveLimit(limit)))
    ensures items == PageOf(rows, p.page, p.limit)
    ensures |items| <= p.limit && (items != [] <==> p.page <= p.totalPages)
    ensures p.total == |rows|
    ensures p.page == if page.None? || page.value < 1 then 1 else page.value
    ensures p.limit == if limit.None? || limit.value == 0 then 20
                       else if limit.value < 1 then 1
                       else if 100 < limit.value then 100
                       else limit.value
    ensures IsPage(rows, (p.page - 1) * p.limit, p.limit, items)
    ensures |rows| <= p.totalPages * p.limit && (0 < |rows| ==> (p.totalPages - 1) * p.limit < |rows|)
  {
    var n := if page.GetOr(0) == 0 then 1 else page.value;
    var thePage := if n < 1 then 1 else n;
    var m := if limit.GetOr(0) == 0 then 20 else limit.value;
    m := if m < 1 then 1 else m;
    var theLimit := if m > 100 then 100 else m;
    items := PageOf(rows, thePage, theLimit);
    p := Pagination(|rows|, thePage, theLimit, TotalPages(|rows|, theLimit));
    AnswerInFields(rows, thePage, theLimit);
  }
}
