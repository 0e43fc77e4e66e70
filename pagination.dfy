/** The page strip under every paginated list screen: the numbered page
    buttons, the `'...'` markers between them, and the previous/next
    arrows. */
module Pagination {
  import opened Js

  /** One entry of the strip: a page button or the `'...'` marker. */
  datatype PageItem = Page(n: int) | Ellipsis

  /** The part of the pagination record the strip reads. */
  datatype PaginationData = PaginationData(currentPage: int, lastPage: int)

  /** What the component renders when it renders anything. */
  datatype Strip = Strip(pages: seq<PageItem>, previousDisabled: bool, nextDisabled: bool)

  /** Up to this many pages the strip lists every page. */
  const MaxPagesToShow: int := 5

  function Max(a: int, b: int): int { if a >= b then a else b }

  function Min(a: int, b: int): int { if a <= b then a else b }

  /** `Page(lo), Page(lo + 1), ..., Page(hi)`; empty when `lo > hi`. */
  function Run(lo: int, hi: int): (r: seq<PageItem>)
    ensures |r| == Max(0, hi - lo + 1)
    ensures forall k :: 0 <= k < |r| ==> r[k] == Page(lo + k)
  {
    if lo > hi then [] else seq(hi - lo + 1, k => Page(lo + k))
  }

  /** A run grows by one page at its top. */
  lemma RunSnoc(lo: int, hi: int)
    requires lo <= hi + 1
    ensures Run(lo, hi + 1) == Run(lo, hi) + [Page(hi + 1)]
  {
    var a, b := Run(lo, hi + 1), Run(lo, hi) + [Page(hi + 1)];
    assert |a| == |b|;
    forall k | 0 <= k < |a|
      ensures a[k] == b[k]
    {
    }
  }

  /** The strip's entries as one expression: every page when there are few,
      otherwise the first page, a window of at most three pages around the
      current one, the last page, and a marker wherever pages are skipped. */
  function PageList(current: int, last: int): seq<PageItem>
  {
    if last <= MaxPagesToShow then Run(1, last)
    else
      var start := Max(2, current - 1);
      var end := Min(last - 1, current + 1);
      [Page(1)]
      + (if start > 2 then [Ellipsis] else [])
      + Run(start, end)
      + (if end < last - 1 then [Ellipsis] else [])
      + [Page(last)]
  }

  /** A `for (let i = lo; i <= hi; i++) pages.push(i)` loop of
      `getPageNumbers`. */
  method PushRun(pages: seq<PageItem>, lo: int, hi: int) returns (r: seq<PageItem>)
    ensures r == pages + Run(lo, hi)
  {
    r := pages;
    var i := lo;
    while i <= hi
      invariant lo <= i <= Max(lo, hi + 1)
      invariant r == pages + Run(lo, i - 1)
    {
      RunSnoc(lo, i - 1);
      r := r + [Page(i)];
      i := i + 1;
    }
  }

  /** `getPageNumbers`: pushes the entries one at a time. */
  method PageNumbers(current: int, last: int) returns (pages: seq<PageItem>)
    ensures pages == PageList(current, last)
  {
    pages := [];
    if last <= MaxPagesToShow {
      pages := PushRun(pages, 1, last);
    } else {
      var startPage := Max(2, current - 1);
      var endPage := Min(last - 1, current + 1);
      pages := pages + [Page(1)];
      if startPage > 2 {
        pages := pages + [Ellipsis];
      }
      ghost var head := pages;
      assert head == [Page(1)] + (if startPage > 2 then [Ellipsis] else []);
      pages := PushRun(pages, startPage, endPage);
      if endPage < last - 1 {
        pages := pages + [Ellipsis];
      }
      ghost var tail := pages[|head| + |Run(startPage, endPage)|..];
      assert tail == (if endPage < last - 1 then [Ellipsis] else []);
      assert pages == head + Run(startPage, endPage) + tail;
      if last > 1 {
        pages := pages + [Page(last)];
      }
    }
  }

  /** The component: nothing for a single page, otherwise the strip with
      the arrows disabled at either end. */
  method Render(p: PaginationData) returns (strip: Option<Strip>)
    ensures strip.None? <==> p.lastPage <= 1
    ensures strip.Some? ==> strip.value.pages == PageList(p.currentPage, p.lastPage)
    ensures strip.Some? ==> strip.value.previousDisabled == (p.currentPage == 1)
    ensures strip.Some? ==> strip.value.nextDisabled == (p.currentPage == p.lastPage)
  {
    if p.lastPage <= 1 {
      return None;
    }
    var pages := PageNumbers(p.currentPage, p.lastPage);
    strip := Some(Strip(pages, p.currentPage == 1, p.currentPage == p.lastPage));
  }

  // Properties of the strip

  ghost predicate NumbersIncreasing(r: seq<PageItem>)
  {
    forall i, j :: 0 <= i < j < |r| && r[i].Page? && r[j].Page? ==> r[i].n < r[j].n
  }

  ghost predicate NumbersWithin(r: seq<PageItem>, lo: int, hi: int)
  {
    forall i :: 0 <= i < |r| && r[i].Page? ==> lo <= r[i].n <= hi
  }

  /** A marker always stands between two pages that are not neighbours, and
      two adjacent page buttons are always consecutive pages. */
  ghost predicate MarkersExactlyAtGaps(r: seq<PageItem>)
  {
    && (forall i :: 0 <= i < |r| && r[i].Ellipsis? ==>
          0 < i < |r| - 1 && r[i - 1].Page? && r[i + 1].Page? && r[i - 1].n + 1 < r[i + 1].n)
    && (forall i :: 0 <= i < |r| - 1 && r[i].Page? && r[i + 1].Page? ==> r[i + 1].n == r[i].n + 1)
  }

  /** With at most five pages the strip is exactly `1, 2, ..., last`. */
  lemma FewPagesListsAll(current: int, last: int)
    requires last <= MaxPagesToShow
    ensures var r := PageList(current, last);
      |r| == Max(0, last) && forall k :: 0 <= k < |r| ==> r[k] == Page(k + 1)
  {
  }

  /** With more than five pages the strip starts at the first page and ends
      at the last. */
  lemma ManyPagesEndpoints(current: int, last: int)
    requires last > MaxPagesToShow
    ensures var r := PageList(current, last);
      |r| >= 2 && r[0] == Page(1) && r[|r| - 1] == Page(last)
  {
  }

  /** The page numbers go up strictly and never leave `1..last`. */
  lemma NumbersIncreaseWithinRange(current: int, last: int)
    ensures NumbersIncreasing(PageList(current, last))
    ensures NumbersWithin(PageList(current, last), 1, last)
  {
    if last > MaxPagesToShow {
      var start := Max(2, current - 1);
      var end := Min(last - 1, current + 1);
      ManyPagesFramed(current, last);
      FramedNumbers(PageList(current, last), if start > 2 then 1 else 0, Max(0, end - start + 1),
        if end < last - 1 then 1 else 0, start, last);
    }
  }

  /** In a framed strip whose window lies within `2..last - 1`, the page
      numbers go up strictly and stay within `1..last`. */
  lemma FramedNumbers(r: seq<PageItem>, lead: int, w: nat, trail: int, start: int, last: int)
    requires Framed(r, lead, w, trail, start, last)
    requires last >= 2 && start >= 2
    requires w > 0 ==> start + w - 1 <= last - 1
    ensures NumbersIncreasing(r)
    ensures NumbersWithin(r, 1, last)
  {
    assert forall i :: 0 <= i < |r| && r[i].Page? ==>
      (i == 0 && r[i].n == 1)
      || (1 + lead <= i < 1 + lead + w && r[i].n == start + i - 1 - lead)
      || (i == |r| - 1 && r[i].n == last);
  }

  /** A current page inside `1..last` is always shown. */
  lemma ShowsCurrentPage(current: int, last: int)
    requires 1 <= current <= last
    ensures Page(current) in PageList(current, last)
  {
    var r := PageList(current, last);
    if last <= MaxPagesToShow {
      assert r[current - 1] == Page(current);
    } else if current == 1 {
      assert r[0] == Page(1);
    } else if current == last {
      assert r[|r| - 1] == Page(last);
    } else {
      var start := Max(2, current - 1);
      var lead := if start > 2 then 1 else 0;
      assert r[1 + lead + (current - start)] == Page(current);
    }
  }

  /** No marker ever hides nothing and no skipped page goes unmarked, for
      every current page, in range or not. */
  lemma MarkersAtGaps(current: int, last: int)
    ensures MarkersExactlyAtGaps(PageList(current, last))
  {
    if last > MaxPagesToShow {
      var start := Max(2, current - 1);
      var end := Min(last - 1, current + 1);
      var lead := if start > 2 then 1 else 0;
      var trail := if end < last - 1 then 1 else 0;
      var w := Max(0, end - start + 1);
      ManyPagesFramed(current, last);
      FramedMarkersAtGaps(PageList(current, last), lead, w, trail, start, last);
    }
  }

  /** The layout of a strip with more than five pages: the first page, an
      optional marker, `w` consecutive pages from `start`, an optional
      marker, the last page. */
  ghost predicate Framed(r: seq<PageItem>, lead: int, w: nat, trail: int, start: int, last: int)
  {
    && (lead == 0 || lead == 1) && (trail == 0 || trail == 1)
    && |r| == 2 + lead + w + trail
    && r[0] == Page(1) && r[|r| - 1] == Page(last)
    && (lead == 1 ==> r[1] == Ellipsis)
    && (trail == 1 ==> r[|r| - 2] == Ellipsis)
    && forall i :: 1 + lead <= i < 1 + lead + w ==> r[i] == Page(start + i - 1 - lead)
  }

  lemma ManyPagesFramed(current: int, last: int)
    requires last > MaxPagesToShow
    ensures var start := Max(2, current - 1);
      var end := Min(last - 1, current + 1);
      Framed(PageList(current, last), if start > 2 then 1 else 0, Max(0, end - start + 1),
        if end < last - 1 then 1 else 0, start, last)
  {
  }

  /** A framed strip has its markers exactly at the gaps when a marker
      follows page 1 just when the window starts after page 2, one precedes
      the last page just when the window ends before `last - 1`, and an
      empty window leaves exactly one marker. */
  lemma FramedMarkersAtGaps(r: seq<PageItem>, lead: int, w: nat, trail: int, start: int, last: int)
    requires Framed(r, lead, w, trail, start, last)
    requires last > 2 && start >= 2
    requires (lead == 1) == (start > 2)
    requires w > 0 ==> start + w - 1 <= last - 1 && ((trail == 1) == (start + w - 1 < last - 1))
    requires w == 0 ==> lead + trail == 1
    ensures MarkersExactlyAtGaps(r)
  {
    forall i | 0 <= i < |r| && r[i].Ellipsis?
      ensures 0 < i < |r| - 1 && r[i - 1].Page? && r[i + 1].Page? && r[i - 1].n + 1 < r[i + 1].n
    {
      if lead == 1 && i == 1 {
        if w > 0 {
          assert r[2] == Page(start);
        }
      } else {
        assert trail == 1 && i == |r| - 2;
        if w > 0 {
          assert r[i - 1] == Page(start + w - 1);
        }
      }
    }
    forall i | 0 <= i < |r| - 1 && r[i].Page? && r[i + 1].Page?
      ensures r[i + 1].n == r[i].n + 1
    {
      if i == 0 {
        assert lead == 0 && w > 0 && r[1] == Page(start);
      } else if i + 1 == |r| - 1 {
        assert trail == 0 && w > 0 && r[i] == Page(start + w - 1);
      }
    }
  }

  /** For a current page inside `1..last`, the window is never empty, a
      marker follows the first page exactly when the window starts after
      page 2, and one precedes the last page exactly when the window ends
      before page `last - 1`. */
  lemma MarkerPositions(current: int, last: int)
    requires last > MaxPagesToShow
    requires 1 <= current <= last
    ensures var r := PageList(current, last);
      && |r| >= 3
      && (r[1].Ellipsis? <==> Max(2, current - 1) > 2)
      && (r[|r| - 2].Ellipsis? <==> Min(last - 1, current + 1) < last - 1)
  {
    var start := Max(2, current - 1);
    var end := Min(last - 1, current + 1);
    assert start <= end;
  }

  /** For a current page outside `1..last` the window is empty and the strip
      collapses to the first page, one marker and the last page. */
  lemma OutOfRangeCurrentPage(current: int, last: int)
    requires last > MaxPagesToShow
    requires current < 1 || current > last
    ensures PageList(current, last) == [Page(1), Ellipsis, Page(last)]
  {
  }

  /** The strip never has more than seven entries. */
  lemma AtMostSevenEntries(current: int, last: int)
    ensures |PageList(current, last)| <= 7
  {
  }

  /** With more than five pages, the pages shown are exactly the first, the
      last, and those within one of the current page. */
  lemma ManyPagesShowsWindow(current: int, last: int, p: int)
    requires last > MaxPagesToShow
    ensures Page(p) in PageList(current, last) <==>
      (p == 1 || p == last || (1 <= p <= last && current - 1 <= p <= current + 1))
  {
    var r := PageList(current, last);
    var start := Max(2, current - 1);
    var end := Min(last - 1, current + 1);
    var lead := if start > 2 then 1 else 0;
    var w := Max(0, end - start + 1);
    if start <= p <= end {
      assert r[1 + lead + (p - start)] == Page(p);
    }
    if Page(p) in r {
      var i :| 0 <= i < |r| && r[i] == Page(p);
      assert i == 0 || i == |r| - 1 || (1 + lead <= i < 1 + lead + w && p == start + i - 1 - lead);
    }
  }

  /** The current page's button, which the strip highlights, appears once. */
  lemma CurrentPageShownOnce(current: int, last: int, i: int, j: int)
    requires 0 <= i < |PageList(current, last)| && 0 <= j < |PageList(current, last)|
    requires PageList(current, last)[i] == Page(current)
    requires PageList(current, last)[j] == Page(current)
    ensures i == j
  {
    NumbersIncreaseWithinRange(current, last);
  }

  /** An arrow is enabled exactly when the page it moves to has a button in
      the strip: `Render` disables previous exactly when `current == 1` and
      next exactly when `current == last`. */
  lemma ArrowsEnabledExactlyWhenTargetShown(current: int, last: int)
    requires 1 <= current <= last
    ensures current != 1 <==> Page(current - 1) in PageList(current, last)
    ensures current != last <==> Page(current + 1) in PageList(current, last)
  {
    PageShown(current, last, current - 1);
    PageShown(current, last, current + 1);
  }

  /** For a current page in range, a page next to it has a button exactly
      when it lies in `1..last`. */
  lemma PageShown(current: int, last: int, p: int)
    requires 1 <= current <= last
    requires p == current - 1 || p == current + 1
    ensures Page(p) in PageList(current, last) <==> 1 <= p <= last
  {
    if last <= MaxPagesToShow {
      PageShownInRun(current, last, p);
    } else {
      ManyPagesShowsWindow(current, last, p);
    }
  }

  /** With at most five pages, page `p` has a button exactly when it lies in
      `1..last`. */
  lemma PageShownInRun(current: int, last: int, p: int)
    requires last <= MaxPagesToShow
    ensures Page(p) in PageList(current, last) <==> 1 <= p <= last
  {
    var r := PageList(current, last);
    FewPagesListsAll(current, last);
    if 1 <= p <= last {
      assert r[p - 1] == Page(p);
    }
  }
}
