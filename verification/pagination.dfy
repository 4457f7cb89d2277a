/** The page-number strip of the pagination control: all pages when there
    are at most five, otherwise a window of five consecutive pages around the
    current one, flanked by the first and last page with an ellipsis over
    each gap; plus the conditions that hide the control and disable its
    previous and next buttons. */
module Pagination {
  import opened Util

  datatype PageItem = Page(number: int) | Ellipsis

  const MAX_PAGES_TO_SHOW: int := 5

  function Max(a: int, b: int): int { if a >= b then a else b }
  function Min(a: int, b: int): int { if a <= b then a else b }

  /** The pages `lo` to `hi`, in order; empty when `hi < lo`. */
  function Range(lo: int, hi: int): (r: seq<PageItem>)
    ensures |r| == if hi < lo then 0 else hi - lo + 1
    ensures forall i | 0 <= i < |r| :: r[i] == Page(lo + i)
    decreases hi - lo
  {
    if hi < lo then [] else Range(lo, hi - 1) + [Page(hi)]
  }

  /** First page of the window: one before the current page, moved back so
      that the window holds five pages. */
  function WindowStart(current: int, total: int): int
  {
    var start := Max(1, current - 1);
    var end := Min(total, start + MAX_PAGES_TO_SHOW - 1);
    if end - start < MAX_PAGES_TO_SHOW - 1 then Max(1, end - MAX_PAGES_TO_SHOW + 1) else start
  }

  /** Last page of the window. */
  function WindowEnd(current: int, total: int): int
  {
    Min(total, Max(1, current - 1) + MAX_PAGES_TO_SHOW - 1)
  }

  /** With more than five pages the window is five consecutive pages inside
      [1, total], and it holds every valid current page. */
  lemma WindowBounds(current: int, total: int)
    requires total > MAX_PAGES_TO_SHOW
    ensures 1 <= WindowStart(current, total)
    ensures WindowEnd(current, total) <= total
    ensures WindowEnd(current, total) - WindowStart(current, total) == MAX_PAGES_TO_SHOW - 1
    ensures 1 <= current <= total ==> WindowStart(current, total) <= current <= WindowEnd(current, total)
  {
  }

  /** The items before the window: page 1, and an ellipsis when pages are
      skipped. */
  function Head(start: int): seq<PageItem>
  {
    if start > 1 then [Page(1)] + (if start > 2 then [Ellipsis] else []) else []
  }

  /** The items after the window: an ellipsis when pages are skipped, and
      the last page. */
  function Tail(end: int, total: int): seq<PageItem>
  {
    if end < total then (if end < total - 1 then [Ellipsis] else []) + [Page(total)] else []
  }

  /** The strip `getPageNumbers` produces, as one expression. */
  function PageWindow(current: int, total: int): seq<PageItem>
  {
    if total <= MAX_PAGES_TO_SHOW then Range(1, total)
    else
      var start, end := WindowStart(current, total), WindowEnd(current, total);
      Head(start) + Range(start, end) + Tail(end, total)
  }

  /** `getPageNumbers`, with its two loops. */
  method GetPageNumbers(current: int, total: int) returns (items: seq<PageItem>)
    ensures items == PageWindow(current, total)
  {
    items := [];
    if total <= MAX_PAGES_TO_SHOW {
      items := PushPages(items, 1, total);
    } else {
      var startPage := Max(1, current - 1);
      var endPage := Min(total, startPage + MAX_PAGES_TO_SHOW - 1);
      if endPage - startPage < MAX_PAGES_TO_SHOW - 1 {
        startPage := Max(1, endPage - MAX_PAGES_TO_SHOW + 1);
      }
      assert startPage == WindowStart(current, total) && endPage == WindowEnd(current, total);
      items := PushHead(startPage);
      items := PushPages(items, startPage, endPage);
      items := PushTail(items, endPage, total);
    }
  }

  /** Page 1 and an ellipsis, pushed when the window starts later. */
  method PushHead(startPage: int) returns (r: seq<PageItem>)
    ensures r == Head(startPage)
  {
    r := [];
    if startPage > 1 {
      r := r + [Page(1)];
      if startPage > 2 {
        r := r + [Ellipsis];
      }
    }
  }

  /** An ellipsis and the last page, pushed when the window ends earlier. */
  method PushTail(items: seq<PageItem>, endPage: int, total: int) returns (r: seq<PageItem>)
    ensures r == items + Tail(endPage, total)
  {
    r := items;
    if endPage < total {
      if endPage < total - 1 {
        r := r + [Ellipsis];
      }
      r := r + [Page(total)];
    }
  }

  /** One loop of `getPageNumbers`: push the pages `lo` to `hi` in order. */
  method PushPages(items: seq<PageItem>, lo: int, hi: int) returns (r: seq<PageItem>)
    ensures r == items + Range(lo, hi)
  {
    r := items;
    var i := lo;
    while i <= hi
      invariant lo <= i <= Max(hi + 1, lo)
      invariant r == items + Range(lo, i - 1)
    {
      r := r + [Page(i)];
      i := i + 1;
    }
  }

  // ---------------------------------------------------------------------------
  // Properties of the strip

  /** At most five pages: exactly the pages 1 to total, with no ellipsis. */
  lemma FewPagesAllShown(current: int, total: int)
    requires total <= MAX_PAGES_TO_SHOW
    ensures PageWindow(current, total) == Range(1, total)
    ensures Ellipsis !in PageWindow(current, total)
  {
  }

  /** More than five pages: the strip starts at page 1 and ends at the last
      page, and somewhere in it five consecutive pages appear in a row. */
  lemma ManyPagesShape(current: int, total: int)
    requires total > MAX_PAGES_TO_SHOW
    ensures var r := PageWindow(current, total);
      && |r| >= MAX_PAGES_TO_SHOW
      && r[0] == Page(1)
      && r[|r| - 1] == Page(total)
      && exists k :: RunOfFive(r, k)
  {
    WindowBounds(current, total);
    var start, end := WindowStart(current, total), WindowEnd(current, total);
    var r := PageWindow(current, total);
    var h, m := Head(start), Range(start, end);
    assert r == h + m + Tail(end, total);
    assert forall j | |h| <= j < |h| + MAX_PAGES_TO_SHOW :: r[j] == m[j - |h|];
    assert RunOfFive(r, |h|);
  }

  /** Five consecutive pages appear in a row from position `k` on. */
  predicate RunOfFive(r: seq<PageItem>, k: int)
  {
    && 0 <= k <= |r| - MAX_PAGES_TO_SHOW
    && r[k].Page?
    && forall j | k <= j < k + MAX_PAGES_TO_SHOW :: r[j] == Page(r[k].number + j - k)
  }

  /** Every page of the strip lies in [1, total]. */
  lemma PagesInRange(current: int, total: int)
    ensures forall i | 0 <= i < |PageWindow(current, total)| && PageWindow(current, total)[i].Page? ::
      1 <= PageWindow(current, total)[i].number <= total
  {
    if total > MAX_PAGES_TO_SHOW {
      WindowBounds(current, total);
    }
  }

  /** The page numbers strictly increase along the strip. */
  lemma PagesIncrease(current: int, total: int)
    ensures var r := PageWindow(current, total);
      forall i, j | 0 <= i < j < |r| && r[i].Page? && r[j].Page? :: r[i].number < r[j].number
  {
    if total > MAX_PAGES_TO_SHOW {
      WindowBounds(current, total);
      var start, end := WindowStart(current, total), WindowEnd(current, total);
      var h, m, t := Head(start), Range(start, end), Tail(end, total);
      var r := h + m + t;
      assert forall i | 0 <= i < |h| && r[i].Page? :: r[i].number == 1 < start;
      assert forall i | |h| <= i < |h| + |m| :: r[i] == Page(start + i - |h|);
      assert forall i | |h| + |m| <= i < |r| && r[i].Page? :: r[i].number == total > end;
    }
  }

  /** An ellipsis stands between two pages more than one apart. */
  lemma EllipsisMarksGap(current: int, total: int)
    ensures var r := PageWindow(current, total);
      forall i | 0 <= i < |r| && r[i] == Ellipsis ::
        && 0 < i < |r| - 1 && r[i - 1].Page? && r[i + 1].Page?
        && r[i + 1].number > r[i - 1].number + 1
  {
    if total > MAX_PAGES_TO_SHOW {
      WindowBounds(current, total);
      var start, end := WindowStart(current, total), WindowEnd(current, total);
      var h, m, t := Head(start), Range(start, end), Tail(end, total);
      var r := h + m + t;
      assert forall i | |h| <= i < |h| + |m| :: r[i] == Page(start + i - |h|);
      assert |h| == 2 ==> r[0] == Page(1) && r[1] == Ellipsis && start > 2;
      assert |h| < 2 ==> Ellipsis !in h;
      assert |t| == 2 ==> r[|r| - 2] == Ellipsis && r[|r| - 1] == Page(total) && end < total - 1;
      assert |t| < 2 ==> Ellipsis !in t;
    }
  }

  /** Two neighbouring pages with no ellipsis between them are one apart. */
  lemma NeighboursConsecutive(current: int, total: int)
    ensures var r := PageWindow(current, total);
      forall i | 0 <= i < |r| - 1 && r[i].Page? && r[i + 1].Page? ::
        r[i + 1].number == r[i].number + 1
  {
    if total > MAX_PAGES_TO_SHOW {
      WindowBounds(current, total);
      var start, end := WindowStart(current, total), WindowEnd(current, total);
      var h, m, t := Head(start), Range(start, end), Tail(end, total);
      var r := h + m + t;
      assert forall i | |h| <= i < |h| + |m| :: r[i] == Page(start + i - |h|);
      assert |h| == 1 ==> r[0] == Page(1) && start == 2;
      assert |h| == 2 ==> r[1] == Ellipsis;
      assert |t| == 1 ==> r[|r| - 1] == Page(total) && end == total - 1;
      assert |t| == 2 ==> r[|r| - 2] == Ellipsis;
    }
  }

  /** A valid current page always appears in the strip. */
  lemma CurrentShown(current: int, total: int)
    requires 1 <= current <= total
    ensures Page(current) in PageWindow(current, total)
  {
    var r := PageWindow(current, total);
    if total <= MAX_PAGES_TO_SHOW {
      assert r[current - 1] == Page(current);
    } else {
      WindowBounds(current, total);
      var start, end := WindowStart(current, total), WindowEnd(current, total);
      var h, m := Head(start), Range(start, end);
      assert r == h + m + Tail(end, total);
      assert m[current - start] == Page(current);
      assert r[|h| + current - start] == Page(current);
    }
  }

  // ---------------------------------------------------------------------------
  // The rendered control

  /** What the control shows: its buttons' disabled states and the strip. */
  datatype Controls = Controls(prevDisabled: bool, nextDisabled: bool, items: seq<PageItem>)

  /** The control renders nothing for at most one page; otherwise Previous
      is disabled on the first page and Next on the last. */
  function Render(current: int, total: int): (c: Option<Controls>)
    ensures c.None? <==> total <= 1
    ensures c.Some? ==> c.value.items == PageWindow(current, total)
    ensures c.Some? ==> (c.value.prevDisabled <==> current == 1)
    ensures c.Some? ==> (c.value.nextDisabled <==> current == total)
  {
    if total <= 1 then None
    else Some(Controls(current == 1, current == total, PageWindow(current, total)))
  }

  /** From a valid current page, an enabled Previous or Next button leads to
      a valid page, and the two are never both disabled. */
  lemma NavigationStaysInRange(current: int, total: int)
    requires 1 <= current <= total
    requires total > 1
    ensures var c := Render(current, total).value;
      && (!c.prevDisabled ==> 1 <= current - 1 <= total)
      && (!c.nextDisabled ==> 1 <= current + 1 <= total)
      && !(c.prevDisabled && c.nextDisabled)
  {
  }
}
