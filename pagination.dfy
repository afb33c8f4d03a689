/** The pagination bar: the window of page buttons around the current page,
    the "Showing X to Y of N" range and the enabled state of the four arrow
    buttons. */
module ProductPagination {
  import Query

  /** One button of the page window: a page number or an ellipsis. */
  datatype PageEntry = Page(n: int) | Ellipsis

  /** How many pages either side of the current one are shown. */
  const Delta := 2

  function Max(a: int, b: int): int { if a >= b then a else b }
  function Min(a: int, b: int): int { if a <= b then a else b }

  /** The numbers `lo, lo+1, ..., hi`; empty when `lo > hi`. */
  function Span(lo: int, hi: int): (r: seq<int>)
    ensures |r| == if lo > hi then 0 else hi - lo + 1
    ensures forall k :: 0 <= k < |r| ==> r[k] == lo + k
  {
    seq(if lo > hi then 0 else hi - lo + 1, k => lo + k)
  }

  function AsPages(ns: seq<int>): (r: seq<PageEntry>)
    ensures |r| == |ns|
    ensures forall k :: 0 <= k < |ns| ==> r[k] == Page(ns[k])
  {
    seq(|ns|, k requires 0 <= k < |ns| => Page(ns[k]))
  }

  /** The pages strictly between the end entries. */
  function Middle(currentPage: int, totalPages: int): seq<int> {
    Span(Max(2, currentPage - Delta), Min(totalPages - 1, currentPage + Delta))
  }

  predicate LeftDots(currentPage: int) { currentPage - Delta > 2 }
  predicate RightDots(currentPage: int, totalPages: int) { currentPage + Delta < totalPages - 1 }

  function Tail(currentPage: int, totalPages: int): seq<PageEntry> {
    if RightDots(currentPage, totalPages) then [Ellipsis, Page(totalPages)]
    else if totalPages > 1 then [Page(totalPages)]
    else []
  }

  function Head(currentPage: int): seq<PageEntry> {
    if LeftDots(currentPage) then [Page(1), Ellipsis] else [Page(1)]
  }

  /** The window `getVisiblePages` builds. */
  function VisiblePages(currentPage: int, totalPages: int): seq<PageEntry> {
    Head(currentPage) + AsPages(Middle(currentPage, totalPages)) + Tail(currentPage, totalPages)
  }

  /** `getVisiblePages()`: collect the middle pages, then put page 1, the
      ellipses and the last page around them. */
  method GetVisiblePages(currentPage: int, totalPages: int) returns (pages: seq<PageEntry>)
    ensures pages == VisiblePages(currentPage, totalPages)
  {
    var lo := Max(2, currentPage - Delta);
    var hi := Min(totalPages - 1, currentPage + Delta);
    var range: seq<int> := [];
    var i := lo;
    while i <= hi
      invariant lo <= i <= Max(lo, hi + 1)
      invariant range == Span(lo, i - 1)
      decreases hi - i
    {
      range := range + [i];
      i := i + 1;
      assert range == Span(lo, i - 1);
    }
    assert range == Middle(currentPage, totalPages);
    if currentPage - Delta > 2 {
      pages := [Page(1), Ellipsis];
    } else {
      pages := [Page(1)];
    }
    pages := pages + AsPages(range);
    if currentPage + Delta < totalPages - 1 {
      pages := pages + [Ellipsis, Page(totalPages)];
    } else if totalPages > 1 {
      pages := pages + [Page(totalPages)];
    }
  }

  /** Where the parts of the window sit. */
  lemma VisibleLayout(currentPage: int, totalPages: int)
    ensures var pages := VisiblePages(currentPage, totalPages);
            var m := |Middle(currentPage, totalPages)|;
            var off := if LeftDots(currentPage) then 2 else 1;
            && |pages| == off + m + |Tail(currentPage, totalPages)|
            && pages[0] == Page(1)
            && (LeftDots(currentPage) ==> pages[1] == Ellipsis)
            && (forall k :: 0 <= k < m ==> pages[off + k] == Page(Middle(currentPage, totalPages)[k]))
            && (forall k :: 0 <= k < |Tail(currentPage, totalPages)| ==>
                  pages[off + m + k] == Tail(currentPage, totalPages)[k])
  {
    var head := Head(currentPage);
    var mid := AsPages(Middle(currentPage, totalPages));
    var tail := Tail(currentPage, totalPages);
    assert |head| == if LeftDots(currentPage) then 2 else 1;
    assert forall k :: 0 <= k < |mid| ==> (head + mid + tail)[|head| + k] == mid[k];
    assert forall k :: 0 <= k < |tail| ==> (head + mid + tail)[|head| + |mid| + k] == tail[k];
  }

  /** The window starts at page 1 and, when there is more than one page,
      ends at the last page; at most `2*Delta+1` pages lie between. */
  lemma VisibleEnds(currentPage: int, totalPages: int)
    ensures var pages := VisiblePages(currentPage, totalPages);
            && pages != [] && pages[0] == Page(1)
            && (totalPages > 1 ==> pages[|pages| - 1] == Page(totalPages))
            && |Middle(currentPage, totalPages)| <= 2 * Delta + 1
  {
    VisibleLayout(currentPage, totalPages);
  }

  /** The number of the `i`-th entry, by where it sits: 1 at the front, the
      middle pages in order, `totalPages` at the end. */
  lemma EntryFacts(currentPage: int, totalPages: int, i: int)
    requires currentPage >= 1
    requires 0 <= i < |VisiblePages(currentPage, totalPages)|
    requires VisiblePages(currentPage, totalPages)[i].Page?
    ensures var pages := VisiblePages(currentPage, totalPages);
            var m := |Middle(currentPage, totalPages)|;
            var off := if LeftDots(currentPage) then 2 else 1;
            && 1 <= pages[i].n <= Max(1, totalPages)
            && (i < off ==> i == 0 && pages[i].n == 1)
            && (off <= i < off + m ==> 2 <= pages[i].n <= totalPages - 1
                                       && pages[i].n == Max(2, currentPage - Delta) + (i - off))
            && (off + m <= i ==> totalPages > 1 && pages[i].n == totalPages && i == |pages| - 1)
  {
    var pages := VisiblePages(currentPage, totalPages);
    var head := Head(currentPage);
    var ns := Middle(currentPage, totalPages);
    var mid := AsPages(ns);
    var tail := Tail(currentPage, totalPages);
    var off := |head|;
    var m := |mid|;
    assert pages == head + mid + tail;
    if i < off {
      assert pages[i] == head[i];
    } else if i < off + m {
      var k := i - off;
      assert pages[i] == mid[k] == Page(ns[k]);
      assert ns[k] == Max(2, currentPage - Delta) + k;
      assert ns[k] <= Min(totalPages - 1, currentPage + Delta);
    } else {
      var k := i - off - m;
      assert pages[i] == tail[k];
    }
  }

  /** The page numbers of the window strictly increase and lie within
      `[1, max(1, totalPages)]`, for any current page from 1 up. */
  lemma VisibleIncreasing(currentPage: int, totalPages: int)
    requires currentPage >= 1
    ensures var pages := VisiblePages(currentPage, totalPages);
            && (forall i :: 0 <= i < |pages| && pages[i].Page? ==> 1 <= pages[i].n <= Max(1, totalPages))
            && (forall i, j :: 0 <= i < j < |pages| && pages[i].Page? && pages[j].Page? ==> pages[i].n < pages[j].n)
  {
    var pages := VisiblePages(currentPage, totalPages);
    forall i | 0 <= i < |pages| && pages[i].Page?
      ensures 1 <= pages[i].n <= Max(1, totalPages)
    {
      EntryFacts(currentPage, totalPages, i);
    }
    forall i, j | 0 <= i < j < |pages| && pages[i].Page? && pages[j].Page?
      ensures pages[i].n < pages[j].n
    {
      EntryFacts(currentPage, totalPages, i);
      EntryFacts(currentPage, totalPages, j);
    }
  }

  /** Below page 1 the window is no longer ordered: with current page -10
      and no pages, the right ellipsis is shown and the window ends in page 0. */
  lemma WindowBelowFirstPage()
    ensures VisiblePages(-10, 0) == [Page(1), Ellipsis, Page(0)]
  {
    assert Middle(-10, 0) == [];
  }

  /** With current page -3 and a single page, the right ellipsis is shown and
      page 1 appears twice, so the window does not increase. */
  lemma WindowRepeatsFirstPage()
    ensures VisiblePages(-3, 1) == [Page(1), Ellipsis, Page(1)]
  {
    assert Middle(-3, 1) == [];
  }

  /** A current page within range is always in the window. */
  lemma VisibleHasCurrent(currentPage: int, totalPages: int)
    requires 1 <= currentPage <= totalPages
    ensures Page(currentPage) in VisiblePages(currentPage, totalPages)
  {
    var pages := VisiblePages(currentPage, totalPages);
    VisibleEnds(currentPage, totalPages);
    VisibleLayout(currentPage, totalPages);
    if 1 < currentPage < totalPages {
      var mid := Middle(currentPage, totalPages);
      var off := if LeftDots(currentPage) then 2 else 1;
      var k := currentPage - Max(2, currentPage - Delta);
      assert mid[k] == currentPage;
      assert pages[off + k] == Page(currentPage);
    }
  }

  /** With the current page in range, a left ellipsis or a right ellipsis
      leaves at least one page between the ends. */
  lemma DotsNeedMiddle(currentPage: int, totalPages: int)
    requires 1 <= currentPage <= totalPages
    ensures LeftDots(currentPage) || RightDots(currentPage, totalPages) ==> |Middle(currentPage, totalPages)| > 0
  {
  }

  /** The left ellipsis (second entry) appears exactly when `currentPage - 2 > 2`. */
  lemma VisibleLeftDots(currentPage: int, totalPages: int)
    requires 1 <= currentPage <= totalPages
    ensures var pages := VisiblePages(currentPage, totalPages);
            (|pages| > 1 && pages[1] == Ellipsis) <==> LeftDots(currentPage)
  {
    var pages := VisiblePages(currentPage, totalPages);
    var m := |Middle(currentPage, totalPages)|;
    VisibleLayout(currentPage, totalPages);
    DotsNeedMiddle(currentPage, totalPages);
    if !LeftDots(currentPage) && |pages| > 1 {
      if m > 0 {
        assert pages[1] == Page(Middle(currentPage, totalPages)[0]);
      } else {
        assert pages[1] == Tail(currentPage, totalPages)[0];
      }
    }
  }

  /** The right ellipsis (second to last entry) appears exactly when
      `currentPage + 2 < totalPages - 1`. */
  lemma VisibleRightDots(currentPage: int, totalPages: int)
    requires 1 <= currentPage <= totalPages
    ensures var pages := VisiblePages(currentPage, totalPages);
            (|pages| > 2 && pages[|pages| - 2] == Ellipsis) <==> RightDots(currentPage, totalPages)
  {
    var pages := VisiblePages(currentPage, totalPages);
    var head := Head(currentPage);
    var mid := AsPages(Middle(currentPage, totalPages));
    var prefix := head + mid;
    var tail := Tail(currentPage, totalPages);
    assert pages == prefix + tail;
    DotsNeedMiddle(currentPage, totalPages);
    if RightDots(currentPage, totalPages) {
      assert pages[|pages| - 2] == tail[0];
    } else if totalPages > 1 {
      assert pages[|pages| - 2] == prefix[|prefix| - 1];
      if |mid| > 0 {
        assert prefix[|prefix| - 1] == mid[|mid| - 1];
      } else {
        assert prefix == head == [Page(1)];
      }
    } else {
      assert |mid| == 0 && pages == [Page(1)];
    }
  }

  /** For a current page within range, the left ellipsis (second entry)
      appears exactly when `currentPage - 2 > 2`, and the right one (second
      to last) exactly when `currentPage + 2 < totalPages - 1`. */
  lemma VisibleDots(currentPage: int, totalPages: int)
    requires 1 <= currentPage <= totalPages
    ensures var pages := VisiblePages(currentPage, totalPages);
            && ((|pages| > 1 && pages[1] == Ellipsis) <==> currentPage - Delta > 2)
            && ((|pages| > 2 && pages[|pages| - 2] == Ellipsis) <==> currentPage + Delta < totalPages - 1)
  {
    VisibleLeftDots(currentPage, totalPages);
    VisibleRightDots(currentPage, totalPages);
  }

  // ---------------------------------------------------------------------
  // The range text and the arrow buttons
  // ---------------------------------------------------------------------

  /** The first number of "Showing X to Y". */
  function ShowingFrom(currentPage: int, limit: int): int {
    (currentPage - 1) * limit + 1
  }

  /** The second number of "Showing X to Y": never above the total. */
  function ShowingTo(currentPage: int, limit: int, totalProducts: int): (y: int)
    ensures y <= totalProducts
    ensures y == currentPage * limit || y == totalProducts
  {
    Min(currentPage * limit, totalProducts)
  }

  /** First and Previous are disabled without a previous page or while loading. */
  predicate BackDisabled(hasPrevPage: bool, isLoading: bool) { !hasPrevPage || isLoading }

  /** Next and Last are disabled without a next page or while loading. */
  predicate ForwardDisabled(hasNextPage: bool, isLoading: bool) { !hasNextPage || isLoading }

  /** With the pagination block the products route sends, the back buttons
      are enabled exactly after page 1 and the forward buttons exactly
      before the last page, when nothing is loading. */
  lemma ArrowsFollowRoute(total: nat, page: int, limit: int, isLoading: bool)
    requires limit > 0
    ensures var p := Query.PaginationOf(total, page, limit);
            && (BackDisabled(p.hasPrevPage, isLoading) <==> page <= 1 || isLoading)
            && (ForwardDisabled(p.hasNextPage, isLoading) <==> page >= Query.TotalPages(total, limit) || isLoading)
  {
  }

  /** For a page within range, "Showing X to Y" counts exactly the listings
      the route put on that page. */
  lemma ShowingMatchesPage(ls: seq<Query.Listing>, page: int, limit: int)
    requires limit > 0 && 1 <= page <= Query.TotalPages(|ls|, limit)
    ensures ShowingTo(page, limit, |ls|) - ShowingFrom(page, limit) + 1 == |Query.PageOf(ls, page, limit)|
    ensures 1 <= ShowingFrom(page, limit) <= ShowingTo(page, limit, |ls|)
  {
    Query.PageContents(ls, page, limit);
    Query.PageStartInRange(|ls|, page, limit);
    assert page * limit == (page - 1) * limit + limit;
  }
}
