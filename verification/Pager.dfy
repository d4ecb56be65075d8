/** The pager the three listings share: pages cut from one ordered listing, counted and clamped. */
module Pager {
  datatype Page<T> = Page(rows: seq<T>, total: int, page: int, pages: int)

  function Max(a: int, b: int): int {
    if a < b then b else a
  }

  function Min(a: int, b: int): int {
    if a < b then a else b
  }

  /** `-(-total // per_page)`: Python's `//` floors, and so does `/` on a positive divisor. */
  function CeilDiv(total: int, perPage: int): int
    requires 0 < perPage
  {
    -((-total) / perPage)
  }

  function Pages(total: int, perPage: int): int {
    Max(1, CeilDiv(total, Max(1, perPage)))
  }

  /** `LIMIT count OFFSET skip`. */
  function Slice<T>(listing: seq<T>, skip: nat, count: nat): seq<T> {
    if |listing| <= skip then [] else if |listing| <= skip + count then listing[skip..] else listing[skip..skip + count]
  }

  function Paginate<T>(listing: seq<T>, page: int, perPage: int): Page<T> {
    var size, total := Max(1, perPage), |listing|;
    var pages := Pages(total, perPage);
    var at := Min(Max(1, page), pages);
    Page(Slice(listing, Offset(at, size), size), total, at, pages)
  }

  function Offset(page: int, size: int): (skip: nat)
    requires 1 <= page && 0 < size
    ensures skip == (page - 1) * size
  {
    var before := page - 1;
    ProductNotNegative(before, size);
    before * size
  }

  lemma ProductNotNegative(a: int, b: int)
    requires 0 <= a && 0 <= b
    ensures 0 <= a * b
  {
  }

  /** The rounded-up quotient: the last page starts before the end of the listing and ends at it or after. */
  lemma CeilDivBounds(total: nat, size: int)
    requires 0 < size
    ensures (CeilDiv(total, size) - 1) * size < total <= CeilDiv(total, size) * size
  {
    var owed: int := total;
    var q := (-owed) / size;
    assert -owed == q * size + (-owed) % size;
    assert (-q - 1) * size == -(q * size) - size;
  }

  lemma PagesBounds(total: nat, perPage: int)
    ensures 1 <= Pages(total, perPage) && total <= Pages(total, perPage) * Max(1, perPage)
    ensures total > 0 ==> (Pages(total, perPage) - 1) * Max(1, perPage) < total
  {
    var size := Max(1, perPage);
    CeilDivBounds(total, size);
    if CeilDiv(total, size) < 1 { assert CeilDiv(total, size) * size <= 0; }
  }

  /** Pages one to `n`, one after another. */
  function FirstPages<T>(listing: seq<T>, perPage: int, n: nat): seq<T> {
    if n == 0 then [] else FirstPages(listing, perPage, n - 1) + Paginate(listing, n, perPage).rows
  }

  lemma {:induction false} FirstPagesArePrefix<T>(listing: seq<T>, perPage: int, n: nat)
    requires n <= Pages(|listing|, perPage)
    ensures 0 <= n * Max(1, perPage)
    ensures FirstPages(listing, perPage, n) == listing[..Min(|listing|, n * Max(1, perPage))]
    decreases n
  {
    var size := Max(1, perPage);
    ProductNotNegative(n, size);
    if n > 0 {
      FirstPagesArePrefix(listing, perPage, n - 1);
      assert n * size == (n - 1) * size + size;
      ProductNotNegative(n - 1, size);
    }
  }

  /** All the pages are the listing: every row on one page, in order, whatever size was asked for. */
  lemma PagesCoverTheListing<T>(listing: seq<T>, perPage: int)
    ensures FirstPages(listing, perPage, Pages(|listing|, perPage)) == listing
  {
    PagesBounds(|listing|, perPage);
    FirstPagesArePrefix(listing, perPage, Pages(|listing|, perPage));
  }

  /** Whatever page is asked for, zero and negatives included, a page that exists is shown, and it has rows unless the
      listing has none. Only the last page can be short. */
  lemma ClampedPageHasRows<T>(listing: seq<T>, page: int, perPage: int)
    ensures var shown := Paginate(listing, page, perPage);
      && 1 <= shown.page <= shown.pages
      && shown.total == |listing| && shown.pages == Pages(|listing|, perPage)
      && (1 <= page <= shown.pages ==> shown.page == page)
      && (page < 1 ==> shown.page == 1) && (shown.pages < page ==> shown.page == shown.pages)
      && (shown.rows == [] <==> listing == [])
      && |shown.rows| <= Max(1, perPage)
      && (shown.page < shown.pages ==> |shown.rows| == Max(1, perPage))
  {
    var size, pages := Max(1, perPage), Pages(|listing|, perPage);
    PagesBounds(|listing|, perPage);
    var at := Min(Max(1, page), pages);
    ProductNotNegative(at - 1, size);
    OneMorePage(at, pages, size);
    assert at * size == (at - 1) * size + size;
  }

  lemma OneMorePage(at: int, pages: int, size: int)
    requires 1 <= at <= pages && 0 < size
    ensures (at - 1) * size <= (pages - 1) * size
    ensures at < pages ==> at * size <= (pages - 1) * size
  {
    ProductNotNegative(pages - at, size);
    assert (pages - at) * size == pages * size - at * size;
    if at < pages {
      ProductNotNegative(pages - 1 - at, size);
      assert (pages - 1 - at) * size == (pages - 1) * size - at * size;
    }
  }

  /** How many rows a page that exists has, from how many are skipped before it. */
  lemma RowsOfAPage<T>(listing: seq<T>, page: int, perPage: int, skip: int)
    requires 1 <= page <= Pages(|listing|, perPage) && skip == (page - 1) * Max(1, perPage)
    ensures |Paginate(listing, page, perPage).rows|
         == if |listing| <= skip then 0 else Min(Max(1, perPage), |listing| - skip)
  {
  }

  lemma ShownOnlyThere<T>(listing: seq<T>, perPage: int, i: nat, page: int, k: nat, skip: int)
    requires i < |listing| && 1 <= page <= Pages(|listing|, perPage) && skip == (page - 1) * Max(1, perPage)
    requires k < |Paginate(listing, page, perPage).rows| && skip + k == i
    ensures page == i / Max(1, perPage) + 1 && k == i % Max(1, perPage)
  {
    RowsOfAPage(listing, page, perPage, skip);
    QuotientIsUnique(i, Max(1, perPage), page - 1, k);
  }

  lemma ShownThere<T>(listing: seq<T>, perPage: int, i: nat, page: int, k: nat, skip: int)
    requires i < |listing| && 1 <= page <= Pages(|listing|, perPage) && skip == (page - 1) * Max(1, perPage)
    requires page == i / Max(1, perPage) + 1 && k == i % Max(1, perPage)
    ensures k < |Paginate(listing, page, perPage).rows| && skip + k == i
  {
    RowsOfAPage(listing, page, perPage, skip);
    Division(i, Max(1, perPage));
  }

  lemma Division(i: int, size: int)
    requires 0 < size
    ensures i == (i / size) * size + i % size && 0 <= i % size < size
  {
  }

  /** The page and the place on it where a row of the listing is shown: there, and nowhere else. */
  lemma EachRowIsOnOnePage<T>(listing: seq<T>, perPage: int, i: nat, page: int, k: nat)
    requires i < |listing| && 1 <= page <= Pages(|listing|, perPage)
    ensures (k < |Paginate(listing, page, perPage).rows| && (page - 1) * Max(1, perPage) + k == i)
       <==> (page == i / Max(1, perPage) + 1 && k == i % Max(1, perPage))
  {
    var skip := (page - 1) * Max(1, perPage);
    if k < |Paginate(listing, page, perPage).rows| && skip + k == i {
      ShownOnlyThere(listing, perPage, i, page, k, skip);
    }
    if page == i / Max(1, perPage) + 1 && k == i % Max(1, perPage) {
      ShownThere(listing, perPage, i, page, k, skip);
    }
  }

  lemma QuotientIsUnique(i: int, size: int, q: int, r: int)
    requires 0 < size && 0 <= r < size && i == q * size + r
    ensures q == i / size && r == i % size
  {
    var d := q - i / size;
    assert d * size == q * size - (i / size) * size;
    assert -size < d * size < size;
    SmallMultipleIsZero(d, size);
  }

  lemma SmallMultipleIsZero(d: int, size: int)
    requires 0 < size && -size < d * size < size
    ensures d == 0
  {
    if d > 0 { ProductNotNegative(d - 1, size); }
    if d < 0 { ProductNotNegative(-d - 1, size); }
  }
}
