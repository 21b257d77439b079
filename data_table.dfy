/**
 * The paginated data table: the rows of the current page, the page count,
 * and the Previous/Next buttons that move between pages.
 */
module DataTable {
  import opened Types
  import opened Numeric

  /** The `pageSize` used when the table is given none. */
  const DefaultPageSize: nat := 50

  /** `s.slice(from, to)` for non-negative bounds: both are clamped to the length, and a reversed range is empty. */
  function JsSlice<T>(s: seq<T>, from: nat, to: nat): (r: seq<T>)
    ensures |r| <= |s|
  {
    var lo := if from < |s| then from else |s|;
    var hi := if to < |s| then to else |s|;
    if hi <= lo then [] else s[lo..hi]
  }

  /** `data.slice(page * pageSize, page * pageSize + pageSize)`: the rows shown on `page`. */
  function PageRows(data: seq<DataPoint>, page: nat, pageSize: nat): seq<DataPoint>
  {
    JsSlice(data, page * pageSize, page * pageSize + pageSize)
  }

  /** A page holds the rows that follow its first index, in order: `pageSize` of them, fewer on the last page, none past the end. */
  lemma PageRowsContent(data: seq<DataPoint>, page: nat, pageSize: nat)
    ensures var start := page * pageSize; var r := PageRows(data, page, pageSize);
      && |r| == (if start >= |data| then 0 else if |data| - start < pageSize then |data| - start else pageSize)
      && |r| <= pageSize
      && forall i :: 0 <= i < |r| ==> r[i] == data[start + i]
  {
  }

  /** `Math.ceil(n / pageSize)`. */
  function TotalPages(n: nat, pageSize: nat): (r: nat)
    requires pageSize > 0
    ensures r * pageSize >= n
    ensures (r - 1) * pageSize < n
  {
    var q := (n + pageSize - 1) / pageSize;
    var rem := (n + pageSize - 1) % pageSize;
    assert n + pageSize - 1 == q * pageSize + rem;
    assert (q - 1) * pageSize == q * pageSize - pageSize;
    q
  }

  /** The page count is the least number of pages of `pageSize` rows that hold `n` rows. */
  lemma TotalPagesLeast(n: nat, pageSize: nat, k: nat)
    requires pageSize > 0 && k * pageSize >= n
    ensures TotalPages(n, pageSize) <= k
  {
    var t := TotalPages(n, pageSize);
    if t > k {
      MulLessEq(k, t - 1, pageSize);
      assert false;
    }
  }

  /** The Previous/Next controls are drawn only when there is more than one page, which is when there are more rows than fit on one. */
  predicate ControlsShown(n: nat, pageSize: nat)
    requires pageSize > 0
  {
    TotalPages(n, pageSize) > 1
  }

  lemma ControlsShownExactly(n: nat, pageSize: nat)
    requires pageSize > 0
    ensures ControlsShown(n, pageSize) <==> n > pageSize
  {
    var t := TotalPages(n, pageSize);
    if n > pageSize {
      if t <= 1 {
        MulLessEq(t, 1, pageSize);
        assert false;
      }
    } else {
      TotalPagesLeast(n, pageSize, 1);
    }
  }

  /** The rows of pages `0 .. k - 1` one after the other. */
  function PagesUpTo(data: seq<DataPoint>, pageSize: nat, k: nat): seq<DataPoint>
  {
    if k == 0 then [] else PagesUpTo(data, pageSize, k - 1) + PageRows(data, k - 1, pageSize)
  }

  /** The first `k` pages together are the first `k * pageSize` rows (all rows once those run out). */
  lemma {:induction false} PagesUpToPrefix(data: seq<DataPoint>, pageSize: nat, k: nat)
    ensures PagesUpTo(data, pageSize, k) == data[..if k * pageSize < |data| then k * pageSize else |data|]
  {
    if k > 0 {
      PagesUpToPrefix(data, pageSize, k - 1);
      var start := (k - 1) * pageSize;
      assert start + pageSize == k * pageSize;
      var lo := if start < |data| then start else |data|;
      var hi := if k * pageSize < |data| then k * pageSize else |data|;
      assert data[..lo] + data[lo..hi] == data[..hi];
    }
  }

  /** Reading every page in turn shows each row exactly once, in order. */
  lemma AllPagesReassemble(data: seq<DataPoint>, pageSize: nat)
    requires pageSize > 0
    ensures PagesUpTo(data, pageSize, TotalPages(|data|, pageSize)) == data
  {
    PagesUpToPrefix(data, pageSize, TotalPages(|data|, pageSize));
  }

  /** Previous: `Math.max(0, page - 1)`. */
  function PreviousPage(page: nat): nat
  {
    if page - 1 > 0 then page - 1 else 0
  }

  /** Next: `Math.min(totalPages - 1, page + 1)`. */
  function NextPage(page: nat, totalPages: nat): int
  {
    if totalPages - 1 < page + 1 then totalPages - 1 else page + 1
  }

  /** Previous and Next keep a page in `0 .. totalPages - 1` there; Next never passes the last page and Previous never goes below the first. */
  lemma PagesStayInRange(page: nat, totalPages: nat)
    requires totalPages >= 1
    ensures 0 <= NextPage(page, totalPages) <= totalPages - 1
    ensures PreviousPage(page) <= page && (page > 0 ==> PreviousPage(page) == page - 1)
    ensures page < totalPages - 1 ==> NextPage(page, totalPages) == page + 1
    ensures page >= totalPages - 1 ==> NextPage(page, totalPages) == totalPages - 1
  {
  }

  /** Next then Previous returns to a page that was not the last; Previous then Next returns to a page that was not the first. */
  lemma NextPreviousInverse(page: nat, totalPages: nat)
    requires page < totalPages
    ensures page < totalPages - 1 ==> PreviousPage(NextPage(page, totalPages) as nat) == page
    ensures page > 0 ==> NextPage(PreviousPage(page), totalPages) == page
  {
  }

  /**
   * The table component: the rows it is given, its page size, and the
   * current page, which starts at 0 and is moved only by the buttons.
   */
  class Table {
    var data: seq<DataPoint>
    const pageSize: nat
    var page: nat

    /** `<DataTable data={data} pageSize={pageSize} />` */
    constructor (data: seq<DataPoint>, pageSize: nat)
      requires pageSize > 0
      ensures this.data == data && this.pageSize == pageSize && page == 0
    {
      this.data := data;
      this.pageSize := pageSize;
      page := 0;
    }

    /** `paginatedData` */
    function Rows(): seq<DataPoint>
      reads this
    {
      PageRows(data, page, pageSize)
    }

    /** New rows from the parent replace `data`; the current page is kept as it is, even past the new last page. */
    method Receive(newData: seq<DataPoint>)
      modifies this
      ensures data == newData && page == old(page)
    {
      data := newData;
    }

    /** The Previous button, present only while the controls are shown. */
    method Previous()
      requires pageSize > 0 && ControlsShown(|data|, pageSize)
      modifies this
      ensures page == PreviousPage(old(page)) && data == old(data)
      ensures page <= old(page) && (old(page) > 0 ==> page == old(page) - 1)
    {
      page := if page - 1 > 0 then page - 1 else 0;
    }

    /** The Next button, present only while the controls are shown: it never moves past the last page. */
    method Next()
      requires pageSize > 0 && ControlsShown(|data|, pageSize)
      modifies this
      ensures page == NextPage(old(page), TotalPages(|data|, pageSize)) && data == old(data)
      ensures page < TotalPages(|data|, pageSize)
    {
      var totalPages := TotalPages(|data|, pageSize);
      page := if totalPages - 1 < page + 1 then totalPages - 1 else page + 1;
    }
  }
}
