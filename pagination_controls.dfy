/** The page bar under the catalog (components/products/PaginationControls.tsx):
    the list of page numbers and ellipses it shows, and the bounds check on a
    page change. */
module PaginationControls {
  import opened ProductSlice
  import opened JsMath

  /** One entry of the bar: a page link or the "ellipsis" marker. */
  datatype PageItem = Page(n: int) | Ellipsis

  /** The links `lo`, `lo + 1`, ..., `hi`; none when `lo > hi`. */
  function Run(lo: int, hi: int): (r: seq<PageItem>)
    ensures |r| == if lo <= hi then hi - lo + 1 else 0
  {
    if lo > hi then [] else seq(hi - lo + 1, k requires 0 <= k <= hi - lo => Page(lo + k))
  }

  /** The `k`-th link of a run is page `lo + k`. */
  lemma RunAt(lo: int, hi: int)
    ensures forall k :: 0 <= k < |Run(lo, hi)| ==> Run(lo, hi)[k] == Page(lo + k)
  {
  }

  /** A run grows by its next page. */
  lemma RunSnoc(lo: int, hi: int)
    requires lo <= hi + 1
    ensures Run(lo, hi + 1) == Run(lo, hi) + [Page(hi + 1)]
  {
    RunAt(lo, hi);
    RunAt(lo, hi + 1);
    assert |Run(lo, hi + 1)| == |Run(lo, hi) + [Page(hi + 1)]|;
  }

  /** The bar `getPageNumbers` builds for `totalPages` pages with
      `currentPage` selected: all pages when there are at most 5; otherwise
      the first page, an ellipsis when the current page is past 3, the window
      `max(2, c - 1) .. min(T - 1, c + 1)`, an ellipsis when the current page
      is before `T - 2`, and the last page. */
  function PageNumbers(totalPages: int, currentPage: int): seq<PageItem> {
    if totalPages <= 5 then Run(1, totalPages)
    else
      [Page(1)]
      + (if currentPage > 3 then [Ellipsis] else [])
      + Run(Max(2, currentPage - 1), Min(totalPages - 1, currentPage + 1))
      + (if currentPage < totalPages - 2 then [Ellipsis] else [])
      + [Page(totalPages)]
  }

  /** The page numbers of the bar strictly increase from left to right. */
  predicate Ascending(r: seq<PageItem>) {
    forall i, j :: 0 <= i < j < |r| && r[i].Page? && r[j].Page? ==> r[i].n < r[j].n
  }

  /** Every page number of the bar lies in `lo..hi`. */
  predicate Within(r: seq<PageItem>, lo: int, hi: int) {
    forall i :: 0 <= i < |r| && r[i].Page? ==> lo <= r[i].n <= hi
  }

  lemma JoinAscending(a: seq<PageItem>, b: seq<PageItem>, lo: int, mid: int, hi: int)
    requires lo <= mid <= hi
    requires Ascending(a) && Ascending(b) && Within(a, lo, mid) && Within(b, mid + 1, hi)
    ensures Ascending(a + b) && Within(a + b, lo, hi)
  {
    var r := a + b;
    forall i, j | 0 <= i < j < |r| && r[i].Page? && r[j].Page?
      ensures r[i].n < r[j].n
    {
      if j < |a| {
        assert r[i] == a[i] && r[j] == a[j];
      } else if i >= |a| {
        assert r[i] == b[i - |a|] && r[j] == b[j - |a|];
      } else {
        assert r[i] == a[i] && r[j] == b[j - |a|];
      }
    }
    forall i | 0 <= i < |r| && r[i].Page?
      ensures lo <= r[i].n <= hi
    {
      if i < |a| {
        assert r[i] == a[i];
      } else {
        assert r[i] == b[i - |a|];
      }
    }
  }

  /** With at most 5 pages the bar is exactly pages 1 to `totalPages`, with no
      ellipsis, and empty when there are no pages. */
  lemma FewPages(totalPages: int, currentPage: int)
    requires totalPages <= 5
    ensures var r := PageNumbers(totalPages, currentPage);
      |r| == Max(totalPages, 0)
      && (forall k :: 0 <= k < |r| ==> r[k] == Page(k + 1))
      && Ellipsis !in r
  {
  }

  /** With more than 5 pages the bar, for any current page, starts with page 1,
      ends with the last page and has at most 7 entries. */
  lemma ManyPagesEnds(totalPages: int, currentPage: int)
    requires totalPages > 5
    ensures var r := PageNumbers(totalPages, currentPage);
      2 <= |r| <= 7 && r[0] == Page(1) && r[|r| - 1] == Page(totalPages)
  {
  }

  /** With more than 5 pages the numbers of the bar, for any current page,
      strictly increase and stay in `1..totalPages`. */
  lemma ManyPagesAscending(totalPages: int, currentPage: int)
    requires totalPages > 5
    ensures Ascending(PageNumbers(totalPages, currentPage))
    ensures Within(PageNumbers(totalPages, currentPage), 1, totalPages)
  {
    var c := currentPage;
    var first := [Page(1)];
    var lead: seq<PageItem> := if c > 3 then [Ellipsis] else [];
    var window := Run(Max(2, c - 1), Min(totalPages - 1, c + 1));
    var trail: seq<PageItem> := if c < totalPages - 2 then [Ellipsis] else [];
    assert Ascending(window) && Within(window, 2, totalPages - 1) by {
      RunAt(Max(2, c - 1), Min(totalPages - 1, c + 1));
    }
    var a1 := first + lead;
    JoinAscending(first, lead, 1, 1, 1);
    var a2 := a1 + window;
    JoinAscending(a1, window, 1, 1, totalPages - 1);
    var a3 := a2 + trail;
    JoinAscending(a2, trail, 1, totalPages - 1, totalPages - 1);
    JoinAscending(a3, [Page(totalPages)], 1, totalPages - 1, totalPages);
    assert PageNumbers(totalPages, c) == a3 + [Page(totalPages)];
  }

  /** Every page of the window `max(2, c - 1) .. min(T - 1, c + 1)` around
      the current page is on the bar. */
  lemma WindowShown(totalPages: int, currentPage: int)
    requires totalPages > 5
    ensures forall k :: Max(2, currentPage - 1) <= k <= Min(totalPages - 1, currentPage + 1) ==>
      Page(k) in PageNumbers(totalPages, currentPage)
  {
    var c := currentPage;
    var window := Run(Max(2, c - 1), Min(totalPages - 1, c + 1));
    RunAt(Max(2, c - 1), Min(totalPages - 1, c + 1));
    forall k | Max(2, c - 1) <= k <= Min(totalPages - 1, c + 1)
      ensures Page(k) in PageNumbers(totalPages, c)
    {
      assert window[k - Max(2, c - 1)] == Page(k);
    }
  }

  /** Whatever the page count, the bar's numbers strictly increase, stay in
      `1..totalPages`, and there are at most 7 entries. */
  lemma BarShape(totalPages: int, currentPage: int)
    ensures var r := PageNumbers(totalPages, currentPage);
      Ascending(r) && Within(r, 1, totalPages) && |r| <= 7
  {
    if totalPages <= 5 {
      FewPages(totalPages, currentPage);
    } else {
      ManyPagesEnds(totalPages, currentPage);
      ManyPagesAscending(totalPages, currentPage);
    }
  }

  /** For a current page in range, a page in range is always on the bar. */
  lemma CurrentPageShown(totalPages: int, currentPage: int)
    requires 1 <= currentPage <= totalPages
    ensures Page(currentPage) in PageNumbers(totalPages, currentPage)
  {
    if totalPages <= 5 {
      assert PageNumbers(totalPages, currentPage)[currentPage - 1] == Page(currentPage);
    } else {
      ManyPagesEnds(totalPages, currentPage);
      WindowShown(totalPages, currentPage);
      var r := PageNumbers(totalPages, currentPage);
      if currentPage == 1 {
        assert r[0] == Page(1);
      } else if currentPage == totalPages {
        assert r[|r| - 1] == Page(totalPages);
      }
    }
  }

  /** For a current page in range and more than 5 pages, the entry after page
      1 is an ellipsis exactly when the current page is past 3, and the entry
      before the last page is one exactly when the current page is before
      `totalPages - 2`. */
  lemma EllipsisPlacement(totalPages: int, currentPage: int)
    requires totalPages > 5 && 1 <= currentPage <= totalPages
    ensures var r := PageNumbers(totalPages, currentPage);
      |r| >= 4
      && (r[1] == Ellipsis <==> currentPage > 3)
      && (r[|r| - 2] == Ellipsis <==> currentPage < totalPages - 2)
  {
    var c := currentPage;
    var lo, hi := Max(2, c - 1), Min(totalPages - 1, c + 1);
    var lead: seq<PageItem> := if c > 3 then [Ellipsis] else [];
    var window := Run(lo, hi);
    var trail: seq<PageItem> := if c < totalPages - 2 then [Ellipsis] else [];
    var r := [Page(1)] + lead + window + trail + [Page(totalPages)];
    assert r == PageNumbers(totalPages, c);
    assert lo <= hi;
    if c <= 3 {
      assert r[1] == window[0];
    }
    if c >= totalPages - 2 {
      assert r[|r| - 2] == window[|window| - 1];
    }
  }

  /** `getPageNumbers`, with the loops of the source. */
  method GetPageNumbers(totalPages: int, currentPage: int) returns (pages: seq<PageItem>)
    ensures pages == PageNumbers(totalPages, currentPage)
    ensures Ascending(pages) && Within(pages, 1, totalPages) && |pages| <= 7
  {
    pages := [];
    if totalPages <= 5 {
      var i := 1;
      while i <= totalPages
        invariant 1 <= i <= Max(totalPages + 1, 1)
        invariant pages == Run(1, i - 1)
      {
        RunSnoc(1, i - 1);
        pages := pages + [Page(i)];
        i := i + 1;
      }
    } else {
      pages := pages + [Page(1)];
      if currentPage > 3 {
        pages := pages + [Ellipsis];
      }
      ghost var lead: seq<PageItem> := if currentPage > 3 then [Ellipsis] else [];
      ghost var head := pages;
      assert head == [Page(1)] + lead;
      var start := Max(2, currentPage - 1);
      var end := Min(totalPages - 1, currentPage + 1);
      var i := start;
      while i <= end
        invariant start <= i <= Max(end + 1, start)
        invariant pages == head + Run(start, i - 1)
      {
        RunSnoc(start, i - 1);
        pages := pages + [Page(i)];
        i := i + 1;
      }
      assert pages == head + Run(start, end);
      ghost var trail: seq<PageItem> := if currentPage < totalPages - 2 then [Ellipsis] else [];
      if currentPage < totalPages - 2 {
        pages := pages + [Ellipsis];
      }
      pages := pages + [Page(totalPages)];
      assert pages == [Page(1)] + lead + Run(start, end) + trail + [Page(totalPages)];
    }
    BarShape(totalPages, currentPage);
  }

  /** `handlePageChange`: a page in `1..totalPages` becomes the current page
      (and the window scrolls to the grid); any other page changes nothing. */
  method HandlePageChange(store: ProductsStore, totalPages: int, page: int) returns (scrolled: bool)
    modifies store
    ensures 1 <= page <= totalPages ==> store.Snapshot() == old(store.Snapshot()).(currentPage := page)
    ensures !(1 <= page <= totalPages) ==> store.Snapshot() == old(store.Snapshot())
    ensures scrolled <==> 1 <= page <= totalPages
    ensures 1 <= old(store.currentPage) <= totalPages ==> 1 <= store.currentPage <= totalPages
  {
    scrolled := false;
    if page >= 1 && page <= totalPages {
      store.SetCurrentPage(page);
      scrolled := true;
    }
  }

  /** `handleViewModeChange`. */
  method HandleViewModeChange(store: ProductsStore, mode: ViewMode)
    modifies store
    ensures store.Snapshot() == old(store.Snapshot()).(viewMode := mode)
  {
    store.SetViewMode(mode);
  }

  /** The previous (`delta` = -1) and next (`delta` = +1) buttons, which call
      `handlePageChange(currentPage - 1)` and `handlePageChange(currentPage + 1)`:
      the current page moves one step when the target is in range and stays
      put otherwise, so a page in `1..totalPages` never leaves that range. */
  method StepPage(store: ProductsStore, totalPages: int, delta: int) returns (scrolled: bool)
    requires delta == 1 || delta == -1
    modifies store
    ensures 1 <= old(store.currentPage) + delta <= totalPages ==>
      store.Snapshot() == old(store.Snapshot()).(currentPage := old(store.currentPage) + delta) && scrolled
    ensures !(1 <= old(store.currentPage) + delta <= totalPages) ==>
      store.Snapshot() == old(store.Snapshot()) && !scrolled
    ensures 1 <= old(store.currentPage) <= totalPages ==> 1 <= store.currentPage <= totalPages
  {
    scrolled := HandlePageChange(store, totalPages, store.currentPage + delta);
  }
}
