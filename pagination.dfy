/** The paginated table view: how many pages a table has, how the stored page
    index is clamped, which rows a page shows, and how the three controls
    (page-size select, previous, next) move the stored index; plus the
    default column alignment of the styled table. */
module Pagination {
  import opened Common

  /** The page sizes offered when the caller passes none. */
  const DefaultPageSizes: seq<int> := [10, 20, 30, 40, 50, 100]

  /** `max(1, ceil(total_rows / page_size))` */
  function TotalPages(totalRows: nat, pageSize: int): (n: nat)
    requires pageSize >= 1
    ensures n >= 1
    ensures totalRows == 0 ==> n == 1
    ensures totalRows > 0 ==> (n - 1) * pageSize < totalRows <= n * pageSize
  {
    var c := (totalRows + pageSize - 1) / pageSize;
    CeilDivBounds(totalRows, pageSize);
    if c < 1 then 1 else c
  }

  lemma CeilDivBounds(t: nat, s: int)
    requires s >= 1
    ensures t > 0 ==> ((t + s - 1) / s - 1) * s < t <= ((t + s - 1) / s) * s
    ensures t == 0 ==> (t + s - 1) / s == 0
  {
    var q := (t + s - 1) / s;
    var r := (t + s - 1) % s;
    assert t + s - 1 == q * s + r && 0 <= r < s;
    assert (q - 1) * s == q * s - s;
  }

  /** The two clamping steps: first down to the last page, then up to 0. */
  function ClampPage(page: int, totalPages: nat): (p: nat)
    requires totalPages >= 1
    ensures p < totalPages
    ensures 0 <= page < totalPages ==> p == page
    ensures page >= totalPages ==> p == totalPages - 1
    ensures page < 0 ==> p == 0
  {
    var q := if page >= totalPages then totalPages - 1 else page;
    if q < 0 then 0 else q
  }

  /** What one pass shows: the page indicator, the disabled state of the two
      buttons, the 1-based row range in the caption, and the slice bounds. */
  datatype PageView = PageView(
    current: nat, totalPages: nat,
    prevDisabled: bool, nextDisabled: bool,
    startRow: nat, endRow: nat,
    startIdx: nat, endIdx: nat)

  function ViewOf(page: nat, pageSize: int, totalRows: nat): (v: PageView)
    requires pageSize >= 1
    requires page < TotalPages(totalRows, pageSize)
    ensures v.current == page && v.totalPages == TotalPages(totalRows, pageSize)
    ensures v.prevDisabled <==> page == 0
    ensures v.nextDisabled <==> page == v.totalPages - 1
    ensures v.startIdx == page * pageSize && v.endIdx == v.startIdx + pageSize
    ensures v.startRow == v.startIdx + 1
    ensures totalRows > 0 ==> v.startRow <= v.endRow <= totalRows
    ensures v.endRow <= v.startIdx + pageSize
  {
    var n := TotalPages(totalRows, pageSize);
    var start := page * pageSize;
    var endRow := if (page + 1) * pageSize <= totalRows then (page + 1) * pageSize else totalRows;
    assert (page + 1) * pageSize == start + pageSize;
    assert totalRows > 0 ==> start < totalRows by {
      if totalRows > 0 {
        assert page <= n - 1;
        MulMonotone(page, n - 1, pageSize);
      }
    }
    PageView(page, n, page == 0, page >= n - 1, start + 1, endRow, start, start + pageSize)
  }

  lemma MulMonotone(a: nat, b: nat, s: int)
    requires a <= b && s >= 1
    ensures a * s <= b * s
  {
  }

  /** `df.iloc[start:end]`: positions past the end are dropped. */
  function PageSlice<T>(rows: seq<T>, page: nat, pageSize: int): (s: seq<T>)
    requires pageSize >= 1
    ensures page * pageSize >= |rows| ==> s == []
    ensures page * pageSize < |rows| ==>
      s == rows[page * pageSize .. if page * pageSize + pageSize <= |rows| then page * pageSize + pageSize else |rows|]
  {
    var start := page * pageSize;
    var stop := start + pageSize;
    var lo := if start <= |rows| then start else |rows|;
    var hi := if stop <= |rows| then stop else |rows|;
    rows[lo..hi]
  }

  /** The caption's row range is exactly the rows the page shows. */
  lemma CaptionMatchesSlice<T>(rows: seq<T>, page: nat, pageSize: int)
    requires pageSize >= 1 && |rows| > 0
    requires page < TotalPages(|rows|, pageSize)
    ensures var v := ViewOf(page, pageSize, |rows|);
      |PageSlice(rows, page, pageSize)| == v.endRow - v.startRow + 1 &&
      forall i :: 0 <= i < |PageSlice(rows, page, pageSize)| ==> PageSlice(rows, page, pageSize)[i] == rows[v.startRow - 1 + i]
  {
    var v := ViewOf(page, pageSize, |rows|);
    assert (page + 1) * pageSize == page * pageSize + pageSize;
  }

  /** The first `n` pages, one after the other. */
  function Pages<T>(rows: seq<T>, pageSize: int, n: nat): seq<T>
    requires pageSize >= 1
  {
    if n == 0 then [] else Pages(rows, pageSize, n - 1) + PageSlice(rows, n - 1, pageSize)
  }

  lemma {:induction false} PagesPrefix<T>(rows: seq<T>, pageSize: int, n: nat)
    requires pageSize >= 1
    ensures Pages(rows, pageSize, n) == rows[..if n * pageSize <= |rows| then n * pageSize else |rows|]
  {
    if n > 0 {
      PagesPrefix(rows, pageSize, n - 1);
      assert n * pageSize == (n - 1) * pageSize + pageSize;
      var a := (n - 1) * pageSize;
      var lo := if a <= |rows| then a else |rows|;
      var hi := if n * pageSize <= |rows| then n * pageSize else |rows|;
      assert rows[..lo] + rows[lo..hi] == rows[..hi];
    }
  }

  /** Paging through every page shows every row once, in order. */
  lemma PagesCoverRows<T>(rows: seq<T>, pageSize: int)
    requires pageSize >= 1
    ensures Pages(rows, pageSize, TotalPages(|rows|, pageSize)) == rows
  {
    var n := TotalPages(|rows|, pageSize);
    PagesPrefix(rows, pageSize, n);
    if |rows| == 0 {
      assert n * pageSize >= |rows|;
    }
    assert rows[..|rows|] == rows;
  }

  /** The option the size box shows: the stored size when it is offered,
      otherwise the first option. */
  function PreselectedSize(sizes: seq<int>, current: int): (s: int)
    requires sizes != []
    ensures s in sizes
    ensures current in sizes ==> s == current
    ensures current !in sizes ==> s == sizes[0]
  {
    sizes[if current in sizes then IndexOf(sizes, current) else 0]
  }

  /** The page index and page size kept in the session under the table's key
      prefix. */
  class Pager {
    var pageSize: int
    var page: int

    /** First pass: the keys are absent and get the default size and page 0. */
    constructor(defaultPageSize: int)
      ensures pageSize == defaultPageSize && page == 0
    {
      pageSize := defaultPageSize;
      page := 0;
    }

    /** The clamping at the start of each pass. */
    method Clamp(totalRows: nat) returns (totalPages: nat)
      requires pageSize >= 1
      modifies this
      ensures pageSize == old(pageSize)
      ensures totalPages == TotalPages(totalRows, pageSize)
      ensures page == ClampPage(old(page), totalPages)
      ensures 0 <= page < totalPages
    {
      totalPages := TotalPages(totalRows, pageSize);
      if page >= totalPages {
        page := totalPages - 1;
      }
      if page < 0 {
        page := 0;
      }
    }

    /** One pass of `paginated_dataframe`: nothing for an empty table;
        otherwise the clamped page's view and rows. */
    method Show<T>(rows: seq<T>) returns (r: Option<(PageView, seq<T>)>)
      requires pageSize >= 1
      modifies this
      ensures rows == [] ==> r.None? && page == old(page)
      ensures pageSize == old(pageSize)
      ensures rows != [] ==> (0 <= page < TotalPages(|rows|, pageSize) &&
        page == ClampPage(old(page), TotalPages(|rows|, pageSize)) &&
        r == Some((ViewOf(page, pageSize, |rows|), PageSlice(rows, page, pageSize))))
    {
      if rows == [] {
        return None;
      }
      var n := Clamp(|rows|);
      var v := ViewOf(page, pageSize, |rows|);
      r := Some((v, rows[v.startIdx..if v.endIdx <= |rows| then v.endIdx else |rows|]));
    }

    /** A different size from the select box stores it and goes back to the
        first page. */
    method SelectSize(newSize: int)
      requires newSize >= 1
      modifies this
      ensures newSize != old(pageSize) ==> pageSize == newSize && page == 0
      ensures newSize == old(pageSize) ==> pageSize == old(pageSize) && page == old(page)
    {
      if newSize != pageSize {
        pageSize := newSize;
        page := 0;
      }
    }

    /** A pass where the size box is left alone: it reports the option it
        shows, so a stored size that is not offered is replaced by the first
        option and the page goes back to the first. */
    method KeepShownSize(sizes: seq<int>)
      requires sizes != [] && forall i :: 0 <= i < |sizes| ==> sizes[i] >= 1
      modifies this
      ensures pageSize in sizes
      ensures old(pageSize) in sizes ==> pageSize == old(pageSize) && page == old(page)
      ensures old(pageSize) !in sizes ==> pageSize == sizes[0] && page == 0
    {
      SelectSize(PreselectedSize(sizes, pageSize));
    }

    /** The previous-page button, which is disabled on the first page. */
    method Prev()
      requires page >= 0
      modifies this
      ensures pageSize == old(pageSize)
      ensures page == if old(page) == 0 then 0 else old(page) - 1
      ensures 0 <= page
    {
      if page != 0 {
        page := page - 1;
      }
    }

    /** The next-page button, which is disabled on the last page. */
    method Next(totalPages: nat)
      requires 0 <= page < totalPages
      modifies this
      ensures pageSize == old(pageSize)
      ensures page == if old(page) >= totalPages - 1 then old(page) else old(page) + 1
      ensures 0 <= page < totalPages
    {
      if !(page >= totalPages - 1) {
        page := page + 1;
      }
    }
  }

  // ---- Column alignment of the styled table ----

  datatype Align = Left | Center | Right

  /** `align_map.get(code, "right")` */
  function AlignOf(code: string): (a: Align)
    ensures a == Left <==> code == "l"
    ensures a == Center <==> code == "c"
  {
    if code == "l" then Left else if code == "c" then Center else Right
  }

  /** `["c"] + ["r"] * (n_cols - 1)` */
  function DefaultAligns(nCols: int): (codes: seq<string>)
    ensures |codes| == if nCols >= 1 then nCols else 1
    ensures codes[0] == "c" && forall i :: 1 <= i < |codes| ==> codes[i] == "r"
  {
    if nCols <= 1 then ["c"] else DefaultAligns(nCols - 1) + ["r"]
  }

  /** The alignment of body cell `ci`: its code when the list has one,
      right otherwise. */
  function CellAlign(colAligns: Option<seq<string>>, nCols: int, ci: nat): (a: Align)
    ensures colAligns.None? ==> a == if ci == 0 then Center else Right
    ensures colAligns.Some? && ci >= |colAligns.value| ==> a == Right
  {
    var codes := if colAligns.None? then DefaultAligns(nCols) else colAligns.value;
    AlignOf(if ci < |codes| then codes[ci] else "r")
  }
}
