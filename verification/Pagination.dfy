/** Pages of a list. */
module Pagination {
  import opened Uint64

  const MAX_INT: int := 0x7FFF_FFFF_FFFF_FFFF

  /** Go's 64-bit int. */
  type Int = x: int | -MAX_INT - 1 <= x <= MAX_INT witness 0

  /** The int that x is stored as: x brought into range in steps of 2^64. */
  function Int64(x: int): Int
    decreases if x > MAX_INT then x - MAX_INT else if x < -MAX_INT - 1 then -x else 0
  {
    if x > MAX_INT then Int64(x - MOD) else if x < -MAX_INT - 1 then Int64(x + MOD) else x
  }

  datatype PageParams = PageParams(pageNumber: int, perPage: int)

  /** A page of the list with the parameters in force, or the slice panic. */
  datatype Paged<T> = Paged(items: seq<T>, params: PageParams, total: nat) | Panic

  /** What a page carries: a list, which has a length, or something that has none. */
  datatype Pageable<T> = Listed(items: seq<T>) | Unlisted(body: T)

  datatype Page<T> = Page(
    results: Pageable<T>, typeName: string, params: PageParams, count: nat, totalPages: int, totalCount: nat)

  function EffectivePerPage(perPage: int): int {
    if perPage == 0 then 10 else if perPage > 5000 then 5000 else perPage
  }

  function EffectivePage(pageNumber: int): int {
    if pageNumber <= 0 then 1 else pageNumber
  }

  /** Where a page begins, before the product wraps around. */
  function Offset(pageNumber: int, perPage: int): int {
    (EffectivePage(pageNumber) - 1) * EffectivePerPage(perPage)
  }

  /** At most per elements of the list, from an offset on. */
  function Slice<T>(items: seq<T>, offset: nat, per: nat): seq<T> {
    if offset >= |items| then [] else if offset + per > |items| then items[offset..] else items[offset..offset + per]
  }

  /** Lists this long never make the end of a page overflow. */
  ghost predicate Fits<T>(items: seq<T>) {
    |items| + 5000 <= MAX_INT
  }

  /** The slice panics for a negative page size, for a page number so large that the
      offset wraps around to a negative one, and where the end of the page overflows. */
  predicate Panics(total: nat, pageNumber: int, perPage: int) {
    var offset := Int64(Offset(pageNumber, perPage));
    perPage < 0 || offset < 0 || (if offset > total then total else offset) + EffectivePerPage(perPage) > MAX_INT
  }

  function PageOf<T>(items: seq<T>, pageNumber: int, perPage: int): Paged<T> {
    if Panics(|items|, pageNumber, perPage) then Panic else
      var params := PageParams(EffectivePage(pageNumber), EffectivePerPage(perPage));
      Paged(Slice(items, Int64(Offset(pageNumber, perPage)), params.perPage), params, |items|)
  }

  method Paginate<T>(items: seq<T>, pageNumber: Int, perPage: Int) returns (page: Paged<T>)
    requires |items| <= MAX_INT
    ensures page == PageOf(items, pageNumber, perPage)
    ensures Fits(items) ==> (page.Panic? <==> perPage < 0 || Int64(Offset(pageNumber, perPage)) < 0)
  {
    var params := PageParams(pageNumber, perPage);
    if params.perPage == 0 {
      params := params.(perPage := 10);
    }
    if params.perPage > 5000 {
      params := params.(perPage := 5000);
    }
    if params.pageNumber <= 0 {
      params := params.(pageNumber := 1);
    }
    var total := |items|;
    var start := Int64((params.pageNumber - 1) * params.perPage);
    if start > total {
      start := total;
    }
    var end := Int64(start + params.perPage);
    assert MAX_INT < start + params.perPage ==> end == Int64(start + params.perPage - MOD) < 0;
    if end > total {
      end := total;
    }
    if 0 <= start <= end {
      return Paged(items[start..end], params, total);
    }
    return Panic;
  }

  // ---------------------------------------------------------- number of pages

  /** The least number of pages that holds a list of the given length; none of a size
      that is not positive. */
  ghost predicate IsPageCount(n: int, total: nat, perPage: int) {
    if perPage <= 0 then n == 0 else
      0 <= n && total <= n * perPage && forall m: nat :: total <= m * perPage ==> n <= m
  }

  /** The smallest integer not below x. */
  function Ceil(x: real): int {
    -((-x).Floor)
  }

  method BuildPage<T>(results: Pageable<T>, params: PageParams, typeName: string, total: nat)
    returns (page: Page<T>)
    ensures page.results == results && page.typeName == typeName
    ensures page.count == if results.Listed? then |results.items| else 0
    ensures page.params == params && page.totalCount == total
    ensures IsPageCount(page.totalPages, total, params.perPage)
  {
    var count := 0;
    if results.Listed? {
      count := |results.items|;
    }
    var totalPages := 0;
    if params.perPage > 0 {
      totalPages := Ceil(total as real / params.perPage as real);
      LeastPages(total, params.perPage);
    }
    page := Page(results, typeName, params, count, totalPages, total);
  }

  /** Rounding the quotient up gives the least number of pages. */
  lemma LeastPages(total: nat, perPage: int)
    requires perPage > 0
    ensures IsPageCount(Ceil(total as real / perPage as real), total, perPage)
  {
    var x, per := total as real / perPage as real, perPage as real;
    var n := Ceil(x);
    CeilBounds(x);
    Quotient(total as real, per);
    BetweenPages(x, per, n as real, total as real);
    assert (n * perPage) as real == n as real * per;
    assert ((n - 1) * perPage) as real == (n as real - 1.0) * per;
    forall m: nat | total <= m * perPage ensures n <= m {
      OffsetOrder(m, n - 1, perPage);
    }
  }

  lemma Quotient(total: real, per: real)
    requires total >= 0.0 && per > 0.0
    ensures total / per >= 0.0 && total / per * per == total
  {}

  lemma BetweenPages(x: real, per: real, n: real, total: real)
    requires x <= n < x + 1.0 && per > 0.0 && x * per == total
    ensures total <= n * per && (n - 1.0) * per < total
  {
    ScaleKeepsOrder(x, n, per);
    var m := n - 1.0;
    assert m < x;
    ScaleKeepsOrder(m, x, per);
    assert m * per < total;
  }

  lemma ScaleKeepsOrder(a: real, b: real, per: real)
    requires per > 0.0
    ensures a <= b ==> a * per <= b * per
    ensures a < b ==> a * per < b * per
  {
    if a < b { assert (b - a) * per > 0.0; }
  }

  lemma CeilBounds(x: real)
    ensures x <= Ceil(x) as real < x + 1.0
  {}

  /** There is one such number, and the page before the last does not end the list. */
  lemma PageCountIsUnique(m: int, n: int, total: nat, perPage: int)
    requires IsPageCount(m, total, perPage) && IsPageCount(n, total, perPage)
    ensures m == n && (perPage > 0 && n > 0 ==> (n - 1) * perPage < total)
  {}

  // ------------------------------------------------------------------ slices

  lemma OffsetNonNegative(pages: nat, per: nat)
    ensures pages * per >= 0
  {}

  lemma OffsetOrder(j: int, k: int, per: int)
    requires per > 0
    ensures j < k ==> j * per + per <= k * per
    ensures j <= k ==> j * per <= k * per
  {
    if j < k {
      OffsetNonNegative(k - j - 1, per);
      assert (k - j - 1) * per == k * per - j * per - per;
    }
  }

  /** The slice taken for a page whose offset does not overflow. */
  lemma PageSlice<T>(items: seq<T>, pageNumber: int, perPage: int)
    requires Fits(items) && perPage >= 0 && Offset(pageNumber, perPage) <= MAX_INT
    ensures 0 <= Offset(pageNumber, perPage) && 1 <= EffectivePerPage(perPage) <= 5000
    ensures PageOf(items, pageNumber, perPage)
         == Paged(Slice(items, Offset(pageNumber, perPage), EffectivePerPage(perPage)),
                  PageParams(EffectivePage(pageNumber), EffectivePerPage(perPage)), |items|)
  {
    OffsetNonNegative(EffectivePage(pageNumber) - 1, EffectivePerPage(perPage));
  }

  /** Pages 1 to k one after the other. */
  function FirstPages<T>(items: seq<T>, perPage: int, k: nat): seq<T> {
    if k == 0 then [] else
      FirstPages(items, perPage, k - 1)
      + match PageOf(items, k, perPage) case Paged(page, _, _) => page case Panic => []
  }

  lemma {:induction false} FirstPagesArePrefix<T>(items: seq<T>, perPage: int, k: nat)
    requires Fits(items) && perPage >= 0
    requires k > 0 ==> (k - 1) * EffectivePerPage(perPage) <= |items|
    ensures FirstPages(items, perPage, k)
         == if k * EffectivePerPage(perPage) <= |items| then items[..k * EffectivePerPage(perPage)] else items
  {
    var per := EffectivePerPage(perPage);
    if k > 0 {
      var offset := (k - 1) * per;
      NextOffset(k - 1, per);
      if k > 1 { NextOffset(k - 2, per); }
      FirstPagesArePrefix(items, perPage, k - 1);
      PageSlice(items, k, perPage);
      PrefixAndSlice(items, offset, per);
    }
  }

  lemma NextOffset(k: int, per: int)
    ensures (k + 1) * per == k * per + per
  {}

  lemma PrefixAndSlice<T>(items: seq<T>, offset: nat, per: nat)
    requires offset <= |items|
    ensures items[..offset] + Slice(items, offset, per)
         == if offset + per <= |items| then items[..offset + per] else items
  {}

  /** The pages partition the list: as many as are announced, one after the other,
      reproduce it exactly. */
  lemma PagesPartition<T>(items: seq<T>, perPage: int, n: nat)
    requires Fits(items) && perPage >= 0 && IsPageCount(n, |items|, EffectivePerPage(perPage))
    ensures FirstPages(items, perPage, n) == items
  {
    var per := EffectivePerPage(perPage);
    PageCountIsUnique(n, n, |items|, per);
    FirstPagesArePrefix(items, perPage, n);
    if n * per == |items| { assert items[..|items|] == items; }
  }

  /** Every page before the last is full and the last is not empty. A later page is
      empty as long as its offset is an int; beyond that it has whatever is at the
      offset that the product wraps around to, or panics. */
  lemma PageSizes<T>(items: seq<T>, perPage: int, k: int, n: int)
    requires Fits(items) && perPage >= 0 && k >= 1 && IsPageCount(n, |items|, EffectivePerPage(perPage))
    ensures var per, page, offset := EffectivePerPage(perPage), PageOf(items, k, perPage), Offset(k, perPage);
            && (k < n ==> page.Paged? && |page.items| == per)
            && (k == n ==> page.Paged? && 1 <= |page.items| <= per)
            && (k > n && offset <= MAX_INT ==> page.Paged? && page.items == [])
            && (page.Panic? <==> Int64(offset) < 0)
            && (page.Paged? ==> (page.items != [] <==> Int64(offset) < |items|))
  {
    var per := EffectivePerPage(perPage);
    PageCountIsUnique(n, n, |items|, per);
    PageOrder(k, n, per, |items|);
    if Offset(k, perPage) <= MAX_INT {
      PageSlice(items, k, perPage);
      SliceSize(items, (k - 1) * per, per);
    }
  }

  /** Which side of the list's end a page begins and ends on. */
  lemma PageOrder(k: int, n: int, per: int, total: int)
    requires k >= 1 && per > 0 && total <= n * per && (n > 0 ==> (n - 1) * per < total)
    ensures k < n ==> (k - 1) * per + per < total
    ensures k == n ==> (k - 1) * per < total <= (k - 1) * per + per
    ensures k > n ==> (k - 1) * per >= total
  {
    NextOffset(n - 1, per);
    OffsetOrder(k - 1, n - 1, per);
    OffsetOrder(n, k - 1, per);
  }

  lemma SliceSize<T>(items: seq<T>, offset: nat, per: nat)
    ensures |Slice(items, offset, per)|
         == if offset >= |items| then 0 else if offset + per > |items| then |items| - offset else per
  {}

  /** Far beyond the end of the list, page 2^62 + 1 of size 4 is page 1 again, and page
      2^61 + 1 of size 5 panics, even on an empty list. */
  lemma HugePageNumbersWrap<T>(items: seq<T>)
    requires Fits(items)
    ensures PageOf(items, 0x4000_0000_0000_0001, 4)
         == Paged(Slice(items, 0, 4), PageParams(0x4000_0000_0000_0001, 4), |items|)
    ensures PageOf(items, 0x2000_0000_0000_0001, 5).Panic?
  {
    assert Int64(Offset(0x4000_0000_0000_0001, 4)) == Int64(0);
    assert Int64(Offset(0x2000_0000_0000_0001, 5)) == Int64(0xA000_0000_0000_0000 - MOD);
  }

  /** Going back to an int changes a number by a multiple of 2^64. */
  lemma {:induction false} Int64IsWord(x: int)
    ensures (x - Int64(x)) % MOD == 0
    decreases if x > MAX_INT then x - MAX_INT else if x < -MAX_INT - 1 then -x else 0
  {
    if x > MAX_INT {
      Int64IsWord(x - MOD);
      MultipleShifted(x - MOD - Int64(x), 1);
    } else if x < -MAX_INT - 1 {
      Int64IsWord(x + MOD);
      MultipleShifted(x + MOD - Int64(x), -1);
    }
  }

  lemma MultipleShifted(y: int, k: int)
    requires y % MOD == 0
    ensures (y + k * MOD) % MOD == 0
  {
    assert y + k * MOD == (y / MOD + k) * MOD;
  }

  /** A page in plain numbers: ten elements unless asked otherwise, 5000 at most, counted
      from page 1, which is also page 0 and all before. */
  lemma PageInPlain<T>(items: seq<T>, pageNumber: int, perPage: int, k: nat)
    requires Fits(items) && perPage >= 0
    requires var per := if perPage == 0 then 10 else if perPage > 5000 then 5000 else perPage;
             var page := if pageNumber < 1 then 1 else pageNumber;
             (page - 1) * per <= MAX_INT
    ensures var per := if perPage == 0 then 10 else if perPage > 5000 then 5000 else perPage;
            var page := if pageNumber < 1 then 1 else pageNumber;
            var start, p := (page - 1) * per, PageOf(items, pageNumber, perPage);
            && p.Paged? && p.params == PageParams(page, per) && p.total == |items|
            && 0 <= start && |p.items| <= per
            && (k < |p.items| <==> k < per && start + k < |items|)
            && (k < |p.items| ==> p.items[k] == items[start + k])
  {
    PageSlice(items, pageNumber, perPage);
  }

}
