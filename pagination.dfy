/**
 * The pager: current page, page count, previous/next availability, the
 * offsets its buttons emit, and the window of page buttons with `...`
 * standing for the pages it leaves out.
 */
module Pagination {
  import opened Types
  import Utils

  /** A token of the page window: a page button or the `...` marker. */
  datatype Token = Page(number: int) | Ellipsis

  /** The window lists every page when there are at most this many. */
  const MaxVisible: int := 5

  /** An offset that starts a page. Every offset the pager emits from an aligned one is aligned. */
  predicate Aligned(offset: int, limit: int)
    requires limit > 0
  {
    offset % limit == 0
  }

  // ---------------------------------------------------------------------------
  // Page position
  // ---------------------------------------------------------------------------

  /** `Math.floor(offset / limit) + 1`: the 1-based page whose records include `offset`. */
  function CurrentPage(offset: int, limit: int): (p: int)
    requires offset >= 0 && limit > 0
    ensures p >= 1
    ensures (p - 1) * limit <= offset < p * limit
  {
    var q := offset / limit;
    assert offset == q * limit + offset % limit;
    assert (q + 1) * limit == q * limit + limit;
    q + 1
  }

  function TotalPages(total: int, limit: int): (n: int)
    requires total >= 0 && limit > 0
    ensures n >= 0
    ensures (n - 1) * limit < total <= n * limit
  {
    Utils.CalculateTotalPages(total, limit)
  }

  function HasPrevious(offset: int): bool
  {
    offset > 0
  }

  function HasNext(total: int, limit: int, offset: int): bool
  {
    offset + limit < total
  }

  /** On an aligned offset, "previous" is available exactly when the current page is not the first. */
  lemma HasPreviousIffNotFirstPage(limit: int, offset: int)
    requires offset >= 0 && limit > 0 && Aligned(offset, limit)
    ensures HasPrevious(offset) <==> CurrentPage(offset, limit) > 1
  {
    var p := CurrentPage(offset, limit);
    assert offset == (p - 1) * limit by {
      assert offset == (offset / limit) * limit + offset % limit;
    }
    if p > 1 {
      Utils.MulMonotone(1, p - 1, limit);
    }
  }

  /**
   * On an aligned offset, "next" is available exactly when the current page
   * is not the last one; past the records both sides are false.
   */
  lemma HasNextIffNotLastPage(total: int, limit: int, offset: int)
    requires total >= 0 && limit > 0 && offset >= 0 && Aligned(offset, limit)
    ensures HasNext(total, limit, offset) <==> CurrentPage(offset, limit) < TotalPages(total, limit)
  {
    var p := CurrentPage(offset, limit);
    var n := TotalPages(total, limit);
    assert offset == (p - 1) * limit by {
      assert offset == (offset / limit) * limit + offset % limit;
    }
    assert offset + limit == p * limit;
    if p < n {
      Utils.MulMonotone(p, n - 1, limit);
    }
    if p >= n {
      Utils.MulMonotone(n, p, limit);
    }
  }

  // ---------------------------------------------------------------------------
  // Button handlers: the offset each one passes to `onPageChange`
  // ---------------------------------------------------------------------------

  /** "Previous": nothing when unavailable, else one page back, floored at 0. */
  function HandlePrevious(limit: int, offset: int): (emitted: Option<int>)
    requires limit > 0 && offset >= 0
    ensures emitted.None? <==> !HasPrevious(offset)
    ensures emitted.Some? ==> 0 <= emitted.value < offset
    ensures emitted.Some? ==>
      CurrentPage(emitted.value, limit) == Utils.Max(1, CurrentPage(offset, limit) - 1)
    ensures emitted.Some? && Aligned(offset, limit) ==> Aligned(emitted.value, limit)
  {
    if HasPrevious(offset) then
      var o := Utils.Max(0, offset - limit);
      var q := offset / limit;
      assert offset == q * limit + offset % limit;
      if offset >= limit then
        Utils.DivUnique(o, limit, q - 1);
        assert (q - 1) * limit == q * limit - limit;
        Some(o)
      else
        Some(o)
    else None
  }

  /** "Next": nothing when unavailable, else one page forward, still inside the records. */
  function HandleNext(total: int, limit: int, offset: int): (emitted: Option<int>)
    requires limit > 0 && offset >= 0
    ensures emitted.None? <==> !HasNext(total, limit, offset)
    ensures emitted.Some? ==> offset < emitted.value < total
    ensures emitted.Some? ==> CurrentPage(emitted.value, limit) == CurrentPage(offset, limit) + 1
    ensures emitted.Some? && Aligned(offset, limit) ==> Aligned(emitted.value, limit)
  {
    if HasNext(total, limit, offset) then
      var q := offset / limit;
      assert offset == q * limit + offset % limit;
      assert (q + 1) * limit == q * limit + limit;
      Utils.DivUnique(offset + limit, limit, q + 1);
      Some(offset + limit)
    else None
  }

  /** A page button: the offset of the first record of that page (not clamped). */
  function HandlePageClick(page: int, limit: int): (newOffset: int)
    requires limit > 0
    ensures page >= 1 ==> newOffset >= 0 && Aligned(newOffset, limit)
    ensures page >= 1 ==> CurrentPage(newOffset, limit) == page
    ensures page < 1 ==> newOffset < 0
  {
    var o := (page - 1) * limit;
    if page >= 1 then
      Utils.MulMonotone(0, page - 1, limit);
      Utils.DivUnique(o, limit, page - 1);
      assert o % limit == o - (page - 1) * limit;
      o
    else
      Utils.MulMonotone(page - 1, -1, limit);
      o
  }

  /** A page in range emits an offset that starts a page holding at least one record. */
  lemma PageClickInRange(total: int, limit: int, page: int)
    requires total >= 0 && limit > 0
    requires 1 <= page <= TotalPages(total, limit)
    ensures 0 <= HandlePageClick(page, limit) <= (TotalPages(total, limit) - 1) * limit
    ensures HandlePageClick(page, limit) < total
  {
    Utils.MulMonotone(page - 1, TotalPages(total, limit) - 1, limit);
  }

  // ---------------------------------------------------------------------------
  // Visibility
  // ---------------------------------------------------------------------------

  /** The pager renders nothing unless there are at least two pages. */
  function Visible(totalPages: int): bool
  {
    totalPages > 1
  }

  /** Two or more pages exist exactly when the records do not fit on one page. */
  lemma VisibleIffMoreThanOnePage(total: int, limit: int)
    requires total >= 0 && limit > 0
    ensures Visible(TotalPages(total, limit)) <==> total > limit
  {
    var n := TotalPages(total, limit);
    if n > 1 {
      Utils.MulMonotone(1, n - 1, limit);
    } else {
      Utils.MulMonotone(n, 1, limit);
    }
  }

  // ---------------------------------------------------------------------------
  // The page window
  // ---------------------------------------------------------------------------

  /** Page buttons `lo..hi`, in order; empty when `hi < lo`. */
  function Pages(lo: int, hi: int): seq<Token>
    decreases hi - lo
  {
    if hi < lo then [] else Pages(lo, hi - 1) + [Page(hi)]
  }

  lemma {:induction false} PagesAt(lo: int, hi: int)
    ensures |Pages(lo, hi)| == if hi < lo then 0 else hi - lo + 1
    ensures forall k :: 0 <= k < |Pages(lo, hi)| ==> Pages(lo, hi)[k] == Page(lo + k)
    decreases hi - lo
  {
    if hi >= lo {
      PagesAt(lo, hi - 1);
    }
  }

  /** The window `getPageNumbers` builds for the current page and page count. */
  function PageWindow(currentPage: int, totalPages: int): seq<Token>
  {
    if totalPages <= MaxVisible then
      Pages(1, totalPages)
    else if currentPage <= 3 then
      Pages(1, 4) + [Ellipsis, Page(totalPages)]
    else if currentPage >= totalPages - 2 then
      [Page(1), Ellipsis] + Pages(totalPages - 3, totalPages)
    else
      [Page(1), Ellipsis] + Pages(currentPage - 1, currentPage + 1) + [Ellipsis, Page(totalPages)]
  }

  /** `getPageNumbers`: pushes the tokens one at a time, as the component does. */
  method GetPageNumbers(currentPage: int, totalPages: nat) returns (pages: seq<Token>)
    ensures pages == PageWindow(currentPage, totalPages)
  {
    pages := [];
    if totalPages <= MaxVisible {
      for i := 1 to totalPages + 1
        invariant pages == Pages(1, i - 1)
      {
        pages := pages + [Page(i)];
      }
    } else {
      if currentPage <= 3 {
        for i := 1 to 5
          invariant pages == Pages(1, i - 1)
        {
          pages := pages + [Page(i)];
        }
        pages := pages + [Ellipsis];
        pages := pages + [Page(totalPages)];
      } else if currentPage >= totalPages - 2 {
        pages := pages + [Page(1)];
        pages := pages + [Ellipsis];
        ghost var head := pages;
        for i := totalPages - 3 to totalPages + 1
          invariant pages == head + Pages(totalPages - 3, i - 1)
        {
          pages := pages + [Page(i)];
        }
      } else {
        pages := pages + [Page(1)];
        pages := pages + [Ellipsis];
        ghost var head := pages;
        for i := currentPage - 1 to currentPage + 2
          invariant pages == head + Pages(currentPage - 1, i - 1)
        {
          pages := pages + [Page(i)];
        }
        pages := pages + [Ellipsis];
        pages := pages + [Page(totalPages)];
      }
    }
  }

  /** Every page button lies in `1..totalPages`. */
  predicate InRange(w: seq<Token>, totalPages: int)
  {
    forall k :: 0 <= k < |w| && w[k].Page? ==> 1 <= w[k].number <= totalPages
  }

  /** Page buttons appear in strictly increasing order, so none repeats. */
  predicate StrictlyIncreasing(w: seq<Token>)
  {
    forall i, j :: 0 <= i < j < |w| && w[i].Page? && w[j].Page? ==> w[i].number < w[j].number
  }

  /** Each `...` sits between two page buttons and stands for at least one page. */
  predicate EllipsesHidePages(w: seq<Token>)
  {
    forall k :: 0 <= k < |w| && w[k].Ellipsis? ==>
      0 < k < |w| - 1 && w[k - 1].Page? && w[k + 1].Page? && w[k + 1].number - w[k - 1].number >= 2
  }

  /** Adjacent page buttons are consecutive pages: pages are left out only where a `...` is. */
  predicate NoSilentGaps(w: seq<Token>)
  {
    forall k :: 0 <= k < |w| - 1 && w[k].Page? && w[k + 1].Page? ==> w[k + 1].number == w[k].number + 1
  }

  predicate WellFormedWindow(w: seq<Token>, totalPages: int)
  {
    && InRange(w, totalPages)
    && StrictlyIncreasing(w)
    && EllipsesHidePages(w)
    && NoSilentGaps(w)
    && (totalPages >= 1 ==> |w| > 0 && w[0] == Page(1) && w[|w| - 1] == Page(totalPages))
  }

  lemma PagesWellFormed(lo: int, hi: int)
    ensures StrictlyIncreasing(Pages(lo, hi)) && EllipsesHidePages(Pages(lo, hi))
    ensures NoSilentGaps(Pages(lo, hi))
  {
    PagesAt(lo, hi);
  }

  /**
   * For every current page and page count, the window's page buttons are
   * in range, strictly increasing, consecutive except across a `...`,
   * each `...` hides at least one page, and the window runs from the first
   * page to the last.
   */
  lemma WindowWellFormed(currentPage: int, totalPages: int)
    ensures WellFormedWindow(PageWindow(currentPage, totalPages), totalPages)
  {
    var w := PageWindow(currentPage, totalPages);
    var t := totalPages;
    var c := currentPage;
    if t <= MaxVisible {
      AllPagesWellFormed(t);
    } else if c <= 3 {
      PagesAt(1, 4);
      assert w == [Page(1), Page(2), Page(3), Page(4), Ellipsis, Page(t)];
      NearStartWellFormed(t);
    } else if c >= t - 2 {
      PagesAt(t - 3, t);
      assert w == [Page(1), Ellipsis, Page(t - 3), Page(t - 2), Page(t - 1), Page(t)];
      NearEndWellFormed(t);
    } else {
      PagesAt(c - 1, c + 1);
      assert w == [Page(1), Ellipsis, Page(c - 1), Page(c), Page(c + 1), Ellipsis, Page(t)];
      MiddleWellFormed(c, t);
    }
  }

  lemma AllPagesWellFormed(t: int)
    ensures WellFormedWindow(Pages(1, t), t)
  {
    PagesAt(1, t);
    PagesWellFormed(1, t);
  }

  lemma NearStartWellFormed(t: int)
    requires t > MaxVisible
    ensures WellFormedWindow([Page(1), Page(2), Page(3), Page(4), Ellipsis, Page(t)], t)
  {
  }

  lemma NearEndWellFormed(t: int)
    requires t > MaxVisible
    ensures WellFormedWindow([Page(1), Ellipsis, Page(t - 3), Page(t - 2), Page(t - 1), Page(t)], t)
  {
  }

  lemma MiddleWellFormed(c: int, t: int)
    requires t > MaxVisible && 3 < c < t - 2
    ensures WellFormedWindow([Page(1), Ellipsis, Page(c - 1), Page(c), Page(c + 1), Ellipsis, Page(t)], t)
  {
  }

  /** A current page in range always has its own button in the window. */
  lemma WindowShowsCurrentPage(currentPage: int, totalPages: int)
    requires 1 <= currentPage <= totalPages
    ensures Page(currentPage) in PageWindow(currentPage, totalPages)
  {
    var w := PageWindow(currentPage, totalPages);
    if totalPages <= MaxVisible {
      PagesAt(1, totalPages);
      assert w[currentPage - 1] == Page(currentPage);
    } else if currentPage <= 3 {
      PagesAt(1, 4);
      assert w[currentPage - 1] == Page(currentPage);
    } else if currentPage >= totalPages - 2 {
      PagesAt(totalPages - 3, totalPages);
      assert w[currentPage - totalPages + 5] == Page(currentPage);
    } else {
      PagesAt(currentPage - 1, currentPage + 1);
      assert w[3] == Page(currentPage);
    }
  }

  /**
   * At most five pages: every page, `1..totalPages` (none for zero pages).
   * More: six tokens near either end and seven in the middle.
   */
  lemma WindowSize(currentPage: int, totalPages: int)
    ensures totalPages <= MaxVisible ==>
      |PageWindow(currentPage, totalPages)| == Utils.Max(0, totalPages) &&
      forall k :: 0 <= k < |PageWindow(currentPage, totalPages)| ==>
        PageWindow(currentPage, totalPages)[k] == Page(k + 1)
    ensures totalPages > MaxVisible && (currentPage <= 3 || currentPage >= totalPages - 2) ==>
      |PageWindow(currentPage, totalPages)| == 6
    ensures totalPages > MaxVisible && 3 < currentPage < totalPages - 2 ==>
      |PageWindow(currentPage, totalPages)| == 7
  {
    if totalPages <= MaxVisible {
      PagesAt(1, totalPages);
    } else if currentPage <= 3 {
      PagesAt(1, 4);
    } else if currentPage >= totalPages - 2 {
      PagesAt(totalPages - 3, totalPages);
    } else {
      PagesAt(currentPage - 1, currentPage + 1);
    }
  }

  /** Page 10 of 20. */
  lemma WindowMiddleExample()
    ensures PageWindow(10, 20) == [Page(1), Ellipsis, Page(9), Page(10), Page(11), Ellipsis, Page(20)]
  {
    PagesAt(9, 11);
  }

  /** Every button of the window emits an offset that starts a page holding records. */
  lemma WindowClicksLandOnRecords(total: int, limit: int, currentPage: int, k: int)
    requires total >= 0 && limit > 0
    requires 0 <= k < |PageWindow(currentPage, TotalPages(total, limit))|
    requires PageWindow(currentPage, TotalPages(total, limit))[k].Page?
    ensures var p := PageWindow(currentPage, TotalPages(total, limit))[k].number;
      0 <= HandlePageClick(p, limit) < total &&
      CurrentPage(HandlePageClick(p, limit), limit) == p
  {
    WindowWellFormed(currentPage, TotalPages(total, limit));
    PageClickInRange(total, limit, PageWindow(currentPage, TotalPages(total, limit))[k].number);
  }
}
