/** The page navigation under the result list (src/components/Pagination.tsx):
    how many pages can be reached, which page buttons are shown, and when the
    previous/next arrows, the jump-to-first/last shortcuts and the upstream
    limit notice appear. Rendering is not modelled; `goToPage`, an edit of
    the address parameters, is `Home.GoToPage`. */
module PageNavigation {

  /** The upstream search serves at most this many results. */
  const MaxGitHubResults := 1000

  /** Number of page buttons shown at most. */
  const VisiblePages := 5

  /** `Math.ceil(a / b)` for a positive divisor. */
  function CeilDiv(a: int, b: int): int
    requires b > 0
  {
    (a + b - 1) / b
  }

  /** `CeilDiv(a, b)` is the least `q` with `q * b >= a`. */
  lemma CeilDivIsLeast(a: int, b: int)
    requires b > 0
    ensures CeilDiv(a, b) * b >= a
    ensures (CeilDiv(a, b) - 1) * b < a
  {
    var q := CeilDiv(a, b);
    var r := (a + b - 1) % b;
    assert a + b - 1 == q * b + r && 0 <= r < b;
    assert (q - 1) * b == q * b - b;
  }

  function Min(a: int, b: int): int {
    if a <= b then a else b
  }

  function Max(a: int, b: int): int {
    if a >= b then a else b
  }

  /** `maxPages`: the least number of pages that holds the results shown,
      which are the reported total but never more than the first 1000. */
  function MaxPages(total: int, perPage: int): (m: int)
    requires perPage > 0
    ensures m * perPage >= Min(total, MaxGitHubResults)
    ensures (m - 1) * perPage < Min(total, MaxGitHubResults)
  {
    if total <= MaxGitHubResults then
      DivMonotone(total + perPage - 1, MaxGitHubResults + perPage - 1, perPage);
      CeilDivIsLeast(total, perPage);
      Min(CeilDiv(total, perPage), CeilDiv(MaxGitHubResults, perPage))
    else
      DivMonotone(MaxGitHubResults + perPage - 1, total + perPage - 1, perPage);
      CeilDivIsLeast(MaxGitHubResults, perPage);
      Min(CeilDiv(total, perPage), CeilDiv(MaxGitHubResults, perPage))
  }

  /** `isAtGitHubLimit`: from page 0 on, the current page is at the limit
      exactly when the page after it has no button. */
  function IsAtGitHubLimit(currentPage: int, maxPages: int): (at: bool)
    ensures currentPage >= 0 ==> (at <==> currentPage + 1 !in PageRange(currentPage, maxPages))
  {
    NextInWindow(currentPage, maxPages);
    currentPage >= maxPages
  }

  /** `canGoNext`: from page 0 on, the next arrow is enabled exactly when
      results remain and the page after the current one has a button. */
  function CanGoNext(hasNext: bool, currentPage: int, maxPages: int): (b: bool)
    ensures currentPage >= 0 ==> (b <==> hasNext && currentPage + 1 in PageRange(currentPage, maxPages))
  {
    hasNext && !IsAtGitHubLimit(currentPage, maxPages)
  }

  /** `hasPrev`: on a reachable page, the previous arrow is enabled exactly
      when the page before the current one has a button. */
  function HasPrev(currentPage: int): (b: bool)
    ensures forall maxPages :: 1 <= currentPage <= maxPages ==>
              (b <==> currentPage - 1 in PageRange(currentPage, maxPages))
  {
    assert forall maxPages :: 1 <= currentPage <= maxPages ==>
             (currentPage > 1 <==> currentPage - 1 in PageRange(currentPage, maxPages)) by {
      forall maxPages | 1 <= currentPage <= maxPages
        ensures currentPage > 1 <==> currentPage - 1 in PageRange(currentPage, maxPages)
      {
        PrevInWindow(currentPage, maxPages);
      }
    }
    currentPage > 1
  }

  /** The notice `GitHub API limit reached` of the arrows-only variant: from
      page 0 on, shown exactly when more than 1000 results exist and the page
      after the current one has no button. */
  function LimitNotice(currentPage: int, maxPages: int, total: int): (b: bool)
    ensures currentPage >= 0 ==>
              (b <==> total > MaxGitHubResults && currentPage + 1 !in PageRange(currentPage, maxPages))
  {
    IsAtGitHubLimit(currentPage, maxPages) && total > MaxGitHubResults
  }

  /** Consecutive page numbers. */
  predicate Window(pages: seq<int>) {
    forall i :: 0 <= i < |pages| ==> pages[i] == pages[0] + i
  }

  /** A window holds exactly the numbers from its first to its last page. */
  lemma WindowMembers(pages: seq<int>)
    ensures Window(pages) ==>
              forall x :: x in pages <==> pages != [] && pages[0] <= x <= pages[|pages| - 1]
  {
    if Window(pages) && pages != [] {
      forall x ensures x in pages <==> pages[0] <= x <= pages[|pages| - 1] {
        if x in pages {
          var i :| 0 <= i < |pages| && pages[i] == x;
        }
        if pages[0] <= x <= pages[|pages| - 1] {
          assert pages[x - pages[0]] == x;
        }
      }
    }
  }

  /** From page 0 on, the next page has a button exactly when it is reachable. */
  lemma NextInWindow(currentPage: int, maxPages: int)
    ensures currentPage >= 0 ==>
              (currentPage + 1 in PageRange(currentPage, maxPages) <==> currentPage + 1 <= maxPages)
  {
    var pages := PageRange(currentPage, maxPages);
    WindowMembers(pages);
    if currentPage >= 0 && currentPage + 1 <= maxPages {
      assert pages[0] == Max(1, Min(currentPage - 2, maxPages - (VisiblePages - 1)));
    }
  }

  /** On a reachable page, the previous page has a button exactly when it is
      page 1 or later. */
  lemma PrevInWindow(currentPage: int, maxPages: int)
    requires 1 <= currentPage <= maxPages
    ensures currentPage - 1 in PageRange(currentPage, maxPages) <==> currentPage > 1
  {
    var pages := PageRange(currentPage, maxPages);
    WindowMembers(pages);
    assert pages[0] == Max(1, Min(currentPage - 2, maxPages - (VisiblePages - 1)));
  }

  /** Reference definition of the visible window: up to five consecutive
      pages, centred on the current page where possible, shifted to stay
      within 1..maxPages, and empty when there are no pages. */
  function PageRange(currentPage: int, maxPages: int): (pages: seq<int>)
    ensures |pages| == Max(0, Min(VisiblePages, maxPages))
    ensures forall i :: 0 <= i < |pages| ==> pages[i] == pages[0] + i
    ensures pages != [] ==> 1 <= pages[0] && pages[|pages| - 1] <= maxPages
    ensures 1 <= currentPage <= maxPages ==> currentPage in pages
  {
    var first := Max(1, Min(currentPage - 2, maxPages - (VisiblePages - 1)));
    var n := Max(0, Min(VisiblePages, maxPages));
    var pages := seq(n, i requires 0 <= i < n => first + i);
    assert 1 <= currentPage <= maxPages ==> pages[currentPage - first] == currentPage;
    pages
  }

  /** `getPageRange`: the window start and end as the component computes
      them, including the shift when the end would pass `maxPages`
      (`Array.from` treats a negative length as 0). */
  method GetPageRange(currentPage: int, maxPages: int) returns (pages: seq<int>)
    ensures pages == PageRange(currentPage, maxPages)
  {
    var half := VisiblePages / 2;
    var start := Max(1, currentPage - half);
    var end := start + VisiblePages - 1;
    if end > maxPages {
      end := maxPages;
      start := Max(1, end - VisiblePages + 1);
    }
    var length := Max(0, end - start + 1);
    pages := seq(length, i requires 0 <= i < length => start + i);
  }

  /** The `1 …` shortcut, shown when the buttons start after page 1 (an
      empty window has no first element and shows none): for a window of
      pages from 1 on, exactly when page 1 has no button. */
  function ShowFirstShortcut(pages: seq<int>): (b: bool)
    ensures Window(pages) && (pages != [] ==> pages[0] >= 1) ==> (b <==> pages != [] && 1 !in pages)
  {
    WindowMembers(pages);
    pages != [] && pages[0] > 1
  }

  /** The `… maxPages` shortcut, shown when the buttons stop before the last
      reachable page: for a window of reachable pages, exactly when that page
      has no button. */
  function ShowLastShortcut(pages: seq<int>, maxPages: int): (b: bool)
    ensures Window(pages) && (pages != [] ==> pages[|pages| - 1] <= maxPages) ==>
              (b <==> pages != [] && maxPages !in pages)
  {
    WindowMembers(pages);
    pages != [] && pages[|pages| - 1] < maxPages
  }

  // ---------------------------------------------------------------------
  // Properties

  /** The reachable pages never exceed what the first 1000 results fill; with
      30 per page that is 34 pages, reached from 1000 results on. */
  lemma MaxPagesBound(total: int, perPage: int)
    requires perPage > 0
    ensures MaxPages(total, perPage) <= CeilDiv(MaxGitHubResults, perPage)
    ensures perPage == 30 ==> MaxPages(total, perPage) <= 34
    ensures perPage == 30 && total >= MaxGitHubResults ==> MaxPages(total, perPage) == 34
    ensures total <= MaxGitHubResults ==> MaxPages(total, perPage) == CeilDiv(total, perPage)
  {
    if total <= MaxGitHubResults {
      assert total + perPage - 1 <= MaxGitHubResults + perPage - 1;
      DivMonotone(total + perPage - 1, MaxGitHubResults + perPage - 1, perPage);
    } else {
      DivMonotone(MaxGitHubResults + perPage - 1, total + perPage - 1, perPage);
    }
  }

  lemma DivMonotone(a: int, b: int, d: int)
    requires d > 0 && a <= b
    ensures a / d <= b / d
  {
    var qa, qb := a / d, b / d;
    assert qa * d <= a && b < qb * d + d;
    assert qa * d < (qb + 1) * d;
  }

  /** No results: there are no pages and no page button is shown. Every page
      from 0 on is at the limit, so the next arrow is disabled there; on a
      negative page it follows `hasNext`. */
  lemma NoResults(currentPage: int, perPage: int, hasNext: bool)
    requires perPage > 0
    ensures MaxPages(0, perPage) == 0
    ensures CanGoNext(hasNext, currentPage, MaxPages(0, perPage)) <==> hasNext && currentPage < 0
    ensures PageRange(currentPage, MaxPages(0, perPage)) == []
  {
    assert (perPage - 1) / perPage == 0;
    assert (MaxGitHubResults + perPage - 1) / perPage >= 1;
  }

  /** An enabled next arrow always leads to a reachable page. */
  lemma NextStaysReachable(hasNext: bool, currentPage: int, maxPages: int)
    requires CanGoNext(hasNext, currentPage, maxPages)
    ensures currentPage + 1 <= maxPages
  {
  }

  /** Below the upstream limit the next arrow follows `hasNext` exactly, when
      `hasNext` says that results remain beyond the current page. */
  lemma NextFollowsHasNext(currentPage: int, perPage: int, total: int)
    requires perPage > 0 && currentPage >= 1 && total <= MaxGitHubResults
    ensures CanGoNext(currentPage * perPage < total, currentPage, MaxPages(total, perPage))
        <==> currentPage * perPage < total
  {
    MaxPagesBound(total, perPage);
    CeilDivIsLeast(total, perPage);
  }

  /** The `1 …` shortcut appears exactly when page 1 is not among the buttons
      although there are pages. */
  lemma FirstShortcutIff(currentPage: int, maxPages: int)
    requires maxPages >= 1
    ensures ShowFirstShortcut(PageRange(currentPage, maxPages)) <==> 1 !in PageRange(currentPage, maxPages)
  {
    var pages := PageRange(currentPage, maxPages);
    if 1 in pages {
      var i :| 0 <= i < |pages| && pages[i] == 1;
      assert pages[i] == pages[0] + i;
    }
  }

  /** The `… maxPages` shortcut appears exactly when the last reachable page
      is not among the buttons. */
  lemma LastShortcutIff(currentPage: int, maxPages: int)
    requires maxPages >= 1
    ensures ShowLastShortcut(PageRange(currentPage, maxPages), maxPages)
        <==> maxPages !in PageRange(currentPage, maxPages)
  {
    var pages := PageRange(currentPage, maxPages);
    if maxPages in pages {
      var i :| 0 <= i < |pages| && pages[i] == maxPages;
      assert pages[i] == pages[0] + i;
      assert pages[|pages| - 1] == pages[0] + |pages| - 1;
    }
  }

  /** Away from both ends the window is centred: two pages on each side. */
  lemma CentredWindow(currentPage: int, maxPages: int)
    requires 3 <= currentPage <= maxPages - 2
    ensures PageRange(currentPage, maxPages)
         == [currentPage - 2, currentPage - 1, currentPage, currentPage + 1, currentPage + 2]
  {
  }

  /** The limit notice appears only when more than 1000 results exist and the
      current page is the last reachable one or beyond. */
  lemma LimitNoticeMeansCapped(currentPage: int, perPage: int, total: int)
    requires perPage > 0
    requires LimitNotice(currentPage, MaxPages(total, perPage), total)
    ensures MaxPages(total, perPage) == CeilDiv(MaxGitHubResults, perPage)
  {
    DivMonotone(MaxGitHubResults + perPage - 1, total + perPage - 1, perPage);
  }

  /** The component test in tests/components/Pagination.test.tsx: page 2 of 150 results at 10 per page gives
      15 reachable pages and the buttons 1 to 5, with the `… 15` shortcut. */
  lemma ComponentTestWindow()
    ensures MaxPages(150, 10) == 15
    ensures PageRange(2, 15) == [1, 2, 3, 4, 5]
    ensures !ShowFirstShortcut([1, 2, 3, 4, 5]) && ShowLastShortcut([1, 2, 3, 4, 5], 15)
    ensures HasPrev(2) && CanGoNext(true, 2, 15)
  {
  }
}
