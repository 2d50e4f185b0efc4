/**
 * The page-number strip of the Pagination component: a window of at most five pages
 * around the current one, the first and last pages outside it, and an ellipsis wherever
 * pages are skipped.
 */
module Pagination {
  const MaxPages: int := 5

  datatype PageItem = Num(n: int) | Ellipsis

  function Max(a: int, b: int): int { if a >= b then a else b }
  function Min(a: int, b: int): int { if a <= b then a else b }

  /** First page of the window, after the shift that keeps it five pages wide near the end. */
  function WindowStart(currentPage: int, totalPages: int): int {
    var start := Max(1, currentPage - MaxPages / 2);
    var end := Min(totalPages, start + MaxPages - 1);
    if end - start < MaxPages - 1 then Max(1, end - MaxPages + 1) else start
  }

  /** Last page of the window. */
  function WindowEnd(currentPage: int, totalPages: int): int {
    Min(totalPages, Max(1, currentPage - MaxPages / 2) + MaxPages - 1)
  }

  /** The window holds min(5, totalPages) consecutive pages, the current one among them. */
  lemma WindowFacts(currentPage: int, totalPages: int)
    requires 1 <= currentPage <= totalPages
    ensures var s, e := WindowStart(currentPage, totalPages), WindowEnd(currentPage, totalPages);
      1 <= s <= currentPage <= e <= totalPages && e - s + 1 == Min(MaxPages, totalPages)
  {
  }

  /** The pages `lo..hi` in order. */
  function Run(lo: int, hi: int): (r: seq<PageItem>)
    ensures |r| == if hi < lo then 0 else hi - lo + 1
    ensures forall i :: 0 <= i < |r| ==> r[i] == Num(lo + i)
    decreases hi - lo
  {
    if hi < lo then [] else Run(lo, hi - 1) + [Num(hi)]
  }

  /** What precedes the window: page 1 and, when pages are skipped, an ellipsis. */
  function Lead(start: int): seq<PageItem> {
    if start > 1 then [Num(1)] + (if start > 2 then [Ellipsis] else []) else []
  }

  /** What follows the window: an ellipsis when pages are skipped, then the last page. */
  function Trail(end: int, totalPages: int): seq<PageItem> {
    if end < totalPages then (if end < totalPages - 1 then [Ellipsis] else []) + [Num(totalPages)] else []
  }

  /** The strip as the three parts it is made of. */
  function Strip(currentPage: int, totalPages: int): seq<PageItem> {
    var s, e := WindowStart(currentPage, totalPages), WindowEnd(currentPage, totalPages);
    Lead(s) + Run(s, e) + Trail(e, totalPages)
  }

  /** `getPageNumbers`: pushes the lead, the window in a loop, then the trail. */
  method GetPageNumbers(currentPage: int, totalPages: int) returns (pages: seq<PageItem>)
    ensures pages == Strip(currentPage, totalPages)
  {
    pages := [];
    var startPage := Max(1, currentPage - MaxPages / 2);
    var endPage := Min(totalPages, startPage + MaxPages - 1);
    if endPage - startPage < MaxPages - 1 {
      startPage := Max(1, endPage - MaxPages + 1);
    }
    assert startPage == WindowStart(currentPage, totalPages) && endPage == WindowEnd(currentPage, totalPages);
    if startPage > 1 {
      pages := pages + [Num(1)];
      if startPage > 2 {
        pages := pages + [Ellipsis];
      }
    }
    assert pages == Lead(startPage);
    pages := PushRun(pages, startPage, endPage);
    ghost var body := pages;
    if endPage < totalPages {
      if endPage < totalPages - 1 {
        pages := pages + [Ellipsis];
      }
      pages := pages + [Num(totalPages)];
    }
    assert pages == body + Trail(endPage, totalPages);
  }

  /** The loop of `getPageNumbers`: pushes the pages `lo..hi` in order. */
  method PushRun(pages: seq<PageItem>, lo: int, hi: int) returns (r: seq<PageItem>)
    ensures r == pages + Run(lo, hi)
  {
    r := pages;
    var i := lo;
    while i <= hi
      invariant lo <= i <= Max(lo, hi + 1)
      invariant r == pages + Run(lo, i - 1)
    {
      RunExtend(pages, lo, i);
      r := r + [Num(i)];
      i := i + 1;
    }
    if hi < lo {
      assert Run(lo, i - 1) == [] == Run(lo, hi);
    } else {
      assert i - 1 == hi;
    }
  }

  lemma RunExtend(lead: seq<PageItem>, lo: int, hi: int)
    requires lo <= hi
    ensures (lead + Run(lo, hi - 1)) + [Num(hi)] == lead + Run(lo, hi)
  {
    assert Run(lo, hi) == Run(lo, hi - 1) + [Num(hi)];
  }

  /** The strip has at most nine entries: two before the window, five in it, two after. */
  lemma StripLength(currentPage: int, totalPages: int)
    ensures |Strip(currentPage, totalPages)| <= 9
  {
    var s, e := WindowStart(currentPage, totalPages), WindowEnd(currentPage, totalPages);
    assert |Lead(s)| <= 2 && |Trail(e, totalPages)| <= 2;
    assert |Run(s, e)| <= MaxPages;
  }

  // ---------------------------------------------------------------- shape of the strip

  /** Every page number lies in [1, totalPages]. */
  predicate InRange(p: seq<PageItem>, totalPages: int) {
    forall i :: 0 <= i < |p| && p[i].Num? ==> 1 <= p[i].n <= totalPages
  }

  /** The page numbers strictly increase along the strip. */
  predicate Increasing(p: seq<PageItem>) {
    forall i, j :: 0 <= i < j < |p| && p[i].Num? && p[j].Num? ==> p[i].n < p[j].n
  }

  /** Neighbouring page numbers are consecutive pages. */
  predicate Consecutive(p: seq<PageItem>) {
    forall i :: 0 <= i < |p| - 1 && p[i].Num? && p[i + 1].Num? ==> p[i + 1].n == p[i].n + 1
  }

  /** An ellipsis sits between two page numbers and stands for at least one skipped page. */
  predicate EllipsesBridgeGaps(p: seq<PageItem>) {
    forall i :: 0 <= i < |p| && p[i].Ellipsis? ==>
      0 < i < |p| - 1 && p[i - 1].Num? && p[i + 1].Num? && p[i + 1].n >= p[i - 1].n + 2
  }

  /**
   * The layout of a strip `p` around the window `s..e`: `a` entries before the window
   * (page 1, then an ellipsis if page 2 is skipped) and `t` after it (an ellipsis if
   * page totalPages - 1 is skipped, then the last page).
   */
  predicate Layout(p: seq<PageItem>, a: int, t: int, s: int, e: int, totalPages: int) {
    && 1 <= s <= e <= totalPages
    && a == (if s == 1 then 0 else if s == 2 then 1 else 2)
    && t == (if e == totalPages then 0 else if e == totalPages - 1 then 1 else 2)
    && |p| == a + (e - s + 1) + t
    && (a >= 1 ==> p[0] == Num(1)) && (a == 2 ==> p[1] == Ellipsis)
    && (forall i :: a <= i <= a + e - s ==> p[i] == Num(s + i - a))
    && (t >= 1 ==> p[|p| - 1] == Num(totalPages)) && (t == 2 ==> p[|p| - 2] == Ellipsis)
  }

  function LeadSize(s: int): int { if s == 1 then 0 else if s == 2 then 1 else 2 }

  function TrailSize(e: int, totalPages: int): int {
    if e == totalPages then 0 else if e == totalPages - 1 then 1 else 2
  }

  lemma StripLayout(currentPage: int, totalPages: int)
    requires 1 <= currentPage <= totalPages
    ensures var s, e := WindowStart(currentPage, totalPages), WindowEnd(currentPage, totalPages);
      Layout(Strip(currentPage, totalPages), LeadSize(s), TrailSize(e, totalPages), s, e, totalPages)
  {
    var s, e := WindowStart(currentPage, totalPages), WindowEnd(currentPage, totalPages);
    WindowFacts(currentPage, totalPages);
    var lead, run, trail := Lead(s), Run(s, e), Trail(e, totalPages);
    var p := Strip(currentPage, totalPages);
    assert p == lead + run + trail;
    var a := |lead|;
    forall i | a <= i <= a + e - s ensures p[i] == Num(s + i - a) {
      assert p[i] == run[i - a];
    }
  }

  /** What stands at position i of a laid-out strip. */
  lemma Classify(p: seq<PageItem>, a: int, t: int, s: int, e: int, totalPages: int, i: int)
    requires Layout(p, a, t, s, e, totalPages) && 0 <= i < |p|
    ensures || (i == 0 && a >= 1 && p[i] == Num(1))
            || (i == 1 && a == 2 && p[i] == Ellipsis)
            || (a <= i <= a + e - s && p[i] == Num(s + i - a))
            || (i == |p| - 2 && t == 2 && p[i] == Ellipsis)
            || (i == |p| - 1 && t >= 1 && p[i] == Num(totalPages))
  {
  }

  lemma LayoutOrdered(p: seq<PageItem>, a: int, t: int, s: int, e: int, totalPages: int)
    requires Layout(p, a, t, s, e, totalPages)
    ensures InRange(p, totalPages) && Increasing(p) && Consecutive(p)
  {
    forall i | 0 <= i < |p| && p[i].Num? ensures 1 <= p[i].n <= totalPages {
      Classify(p, a, t, s, e, totalPages, i);
    }
    forall i, j | 0 <= i < j < |p| && p[i].Num? && p[j].Num? ensures p[i].n < p[j].n {
      Classify(p, a, t, s, e, totalPages, i);
      Classify(p, a, t, s, e, totalPages, j);
    }
    forall i | 0 <= i < |p| - 1 && p[i].Num? && p[i + 1].Num? ensures p[i + 1].n == p[i].n + 1 {
      Classify(p, a, t, s, e, totalPages, i);
      Classify(p, a, t, s, e, totalPages, i + 1);
    }
  }

  lemma LayoutEllipses(p: seq<PageItem>, a: int, t: int, s: int, e: int, totalPages: int)
    requires Layout(p, a, t, s, e, totalPages)
    ensures EllipsesBridgeGaps(p)
  {
    forall i | 0 <= i < |p| && p[i].Ellipsis?
      ensures 0 < i < |p| - 1 && p[i - 1].Num? && p[i + 1].Num? && p[i + 1].n >= p[i - 1].n + 2
    {
      Classify(p, a, t, s, e, totalPages, i);
      if i == 1 && a == 2 {
        assert p[2] == Num(s);
      } else {
        assert p[i - 1] == Num(e);
      }
    }
  }

  /**
   * For a current page in [1, totalPages] the strip starts at page 1, ends at the last
   * page, lists increasing pages in range, skips pages only behind an ellipsis, and shows
   * the whole window, the current page included.
   */
  lemma StripShape(currentPage: int, totalPages: int)
    requires 1 <= currentPage <= totalPages
    ensures var p := Strip(currentPage, totalPages);
      && |p| >= 1 && p[0] == Num(1) && p[|p| - 1] == Num(totalPages)
      && InRange(p, totalPages) && Increasing(p) && Consecutive(p) && EllipsesBridgeGaps(p)
      && (forall k :: WindowStart(currentPage, totalPages) <= k <= WindowEnd(currentPage, totalPages) ==> Num(k) in p)
      && Num(currentPage) in p
  {
    var s, e := WindowStart(currentPage, totalPages), WindowEnd(currentPage, totalPages);
    WindowFacts(currentPage, totalPages);
    StripLayout(currentPage, totalPages);
    LayoutShape(Strip(currentPage, totalPages), LeadSize(s), TrailSize(e, totalPages), s, e, totalPages);
  }

  /** The shape facts of StripShape, for any laid-out strip. */
  lemma LayoutShape(p: seq<PageItem>, a: int, t: int, s: int, e: int, totalPages: int)
    requires Layout(p, a, t, s, e, totalPages)
    ensures |p| >= 1 && p[0] == Num(1) && p[|p| - 1] == Num(totalPages)
    ensures InRange(p, totalPages) && Increasing(p) && Consecutive(p) && EllipsesBridgeGaps(p)
    ensures forall k :: s <= k <= e ==> Num(k) in p
  {
    LayoutOrdered(p, a, t, s, e, totalPages);
    LayoutEllipses(p, a, t, s, e, totalPages);
    assert p[a] == Num(s) && p[a + e - s] == Num(e);
    forall k | s <= k <= e ensures Num(k) in p {
      assert p[a + k - s] == Num(k);
    }
  }

  /** With at most five pages the strip is exactly 1..totalPages. */
  lemma FewPages(currentPage: int, totalPages: int)
    requires 1 <= currentPage <= totalPages <= MaxPages
    ensures Strip(currentPage, totalPages) == Run(1, totalPages)
  {
    WindowFacts(currentPage, totalPages);
  }

  // ---------------------------------------------------------------- navigation

  /** The Previous button is disabled on page 1 and while loading. */
  predicate PreviousDisabled(currentPage: int, isLoading: bool) {
    currentPage == 1 || isLoading
  }

  /** The Next button is disabled on the last page and while loading. */
  predicate NextDisabled(currentPage: int, totalPages: int, isLoading: bool) {
    currentPage == totalPages || isLoading
  }

  /** From a page in range, an enabled Previous or Next button leads to a page in range. */
  lemma NavigationStaysInRange(currentPage: int, totalPages: int, isLoading: bool)
    requires 1 <= currentPage <= totalPages
    ensures !PreviousDisabled(currentPage, isLoading) ==> 1 <= currentPage - 1 <= totalPages
    ensures !NextDisabled(currentPage, totalPages, isLoading) ==> 1 <= currentPage + 1 <= totalPages
    ensures PreviousDisabled(currentPage, false) <==> currentPage - 1 < 1
    ensures NextDisabled(currentPage, totalPages, false) <==> currentPage + 1 > totalPages
  {
  }
}
