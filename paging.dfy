/** The paged task list (client/src/components/VirtualizedTaskList.tsx): the
    slice shown for the current page, the page count, and the Previous, page
    number and Next buttons. */
module TaskListPaging {
  import opened Js
  import opened TaskTypes

  /** The `itemsPerPage` prop's default. */
  const DefaultItemsPerPage: int := 12

  function Min(a: int, b: int): int { if a <= b then a else b }

  /** `Math.ceil(n / itemsPerPage)`: the fewest pages that hold `n` tasks. */
  function TotalPages(n: nat, itemsPerPage: int): (r: nat)
    requires itemsPerPage >= 1
    ensures r * itemsPerPage >= n
    ensures r > 0 ==> (r - 1) * itemsPerPage < n
    ensures r == 0 <==> n == 0
  {
    var q := (n + itemsPerPage - 1) / itemsPerPage;
    assert n + itemsPerPage - 1 == q * itemsPerPage + (n + itemsPerPage - 1) % itemsPerPage;
    assert (q - 1) * itemsPerPage == q * itemsPerPage - itemsPerPage;
    q
  }

  /** `paginatedTasks`: `tasks.slice(startIndex, startIndex + itemsPerPage)`
      with `startIndex = (currentPage - 1) * itemsPerPage`. */
  function PageOf(tasks: seq<TaskItem>, currentPage: int, itemsPerPage: int): (r: seq<TaskItem>)
    ensures |r| <= |tasks|
    ensures forall i :: 0 <= i < |r| ==> r[i] in tasks
  {
    var startIndex := (currentPage - 1) * itemsPerPage;
    Slice(tasks, startIndex, startIndex + itemsPerPage)
  }

  /** For a page number from 1 on, the page holds the tasks from index
      `(currentPage - 1) * itemsPerPage` up to, not including,
      `currentPage * itemsPerPage`, both clamped to the list, and so at most
      `itemsPerPage` of them. */
  lemma PageIsClampedWindow(tasks: seq<TaskItem>, currentPage: int, itemsPerPage: int)
    requires currentPage >= 1 && itemsPerPage >= 1
    ensures var lo := Min((currentPage - 1) * itemsPerPage, |tasks|);
            var hi := Min(currentPage * itemsPerPage, |tasks|);
            lo <= hi && PageOf(tasks, currentPage, itemsPerPage) == tasks[lo..hi]
    ensures |PageOf(tasks, currentPage, itemsPerPage)| <= itemsPerPage
  {
    var startIndex := (currentPage - 1) * itemsPerPage;
    assert startIndex >= 0 by {
      assert currentPage - 1 >= 0;
    }
    assert startIndex + itemsPerPage == currentPage * itemsPerPage;
  }

  /** Pages 1 to `m` one after another. */
  function PagesUpTo(tasks: seq<TaskItem>, itemsPerPage: int, m: nat): seq<TaskItem>
  {
    if m == 0 then [] else PagesUpTo(tasks, itemsPerPage, m - 1) + PageOf(tasks, m, itemsPerPage)
  }

  lemma {:induction false} PagesUpToArePrefix(tasks: seq<TaskItem>, itemsPerPage: int, m: nat)
    requires itemsPerPage >= 1
    ensures PagesUpTo(tasks, itemsPerPage, m) == tasks[..Min(m * itemsPerPage, |tasks|)]
  {
    if m > 0 {
      var start := (m - 1) * itemsPerPage;
      MulMonotone(0, m - 1, itemsPerPage);
      assert m * itemsPerPage == start + itemsPerPage;
      var lo, hi := Min(start, |tasks|), Min(start + itemsPerPage, |tasks|);
      PagesUpToArePrefix(tasks, itemsPerPage, m - 1);
      PageIsClampedWindow(tasks, m, itemsPerPage);
      PagesUpToStep(tasks, itemsPerPage, m, lo, hi);
    }
  }

  /** Page `m`, the window `lo..hi`, extends the prefix of pages 1 to
      `m - 1`, which ends at `lo`. */
  lemma PagesUpToStep(tasks: seq<TaskItem>, itemsPerPage: int, m: nat, lo: int, hi: int)
    requires m >= 1 && 0 <= lo <= hi <= |tasks|
    requires PagesUpTo(tasks, itemsPerPage, m - 1) == tasks[..lo]
    requires PageOf(tasks, m, itemsPerPage) == tasks[lo..hi]
    ensures PagesUpTo(tasks, itemsPerPage, m) == tasks[..hi]
  {
    PrefixThenWindow(tasks, lo, hi);
  }

  lemma PrefixThenWindow(tasks: seq<TaskItem>, lo: int, hi: int)
    requires 0 <= lo <= hi <= |tasks|
    ensures tasks[..lo] + tasks[lo..hi] == tasks[..hi]
  {
    assert forall i :: 0 <= i < hi ==> (tasks[..lo] + tasks[lo..hi])[i] == tasks[..hi][i];
  }

  /** Pages 1 to `totalPages` together are the task list: every task on
      exactly one page, in order. */
  lemma PagesPartitionTasks(tasks: seq<TaskItem>, itemsPerPage: int)
    requires itemsPerPage >= 1
    ensures PagesUpTo(tasks, itemsPerPage, TotalPages(|tasks|, itemsPerPage)) == tasks
  {
    PagesUpToArePrefix(tasks, itemsPerPage, TotalPages(|tasks|, itemsPerPage));
  }

  lemma MulMonotone(a: int, b: int, k: int)
    requires a <= b && k >= 0
    ensures a * k <= b * k
  {
    assert b * k - a * k == (b - a) * k;
  }

  /** A page past the last one is empty; every page from 1 to the last
      holds at least one task. */
  lemma PageEmptyIffBeyondLast(tasks: seq<TaskItem>, currentPage: int, itemsPerPage: int)
    requires currentPage >= 1 && itemsPerPage >= 1
    ensures PageOf(tasks, currentPage, itemsPerPage) == [] <==> currentPage > TotalPages(|tasks|, itemsPerPage)
  {
    PageIsClampedWindow(tasks, currentPage, itemsPerPage);
    var total := TotalPages(|tasks|, itemsPerPage);
    var lo := (currentPage - 1) * itemsPerPage;
    assert currentPage * itemsPerPage == lo + itemsPerPage;
    if currentPage > total {
      MulMonotone(total, currentPage - 1, itemsPerPage);
      assert lo >= |tasks|;
    } else {
      MulMonotone(currentPage - 1, total - 1, itemsPerPage);
      assert lo < |tasks|;
    }
  }

  /** The pagination bar appears iff the tasks do not fit on one page. */
  lemma MoreThanOnePage(n: nat, itemsPerPage: int)
    requires itemsPerPage >= 1
    ensures TotalPages(n, itemsPerPage) > 1 <==> n > itemsPerPage
  {
    var total := TotalPages(n, itemsPerPage);
    if total > 1 {
      MulMonotone(1, total - 1, itemsPerPage);
    } else {
      MulMonotone(total, 1, itemsPerPage);
    }
  }

  /** `disabled={currentPage === 1}`. */
  predicate PreviousDisabled(currentPage: int)
    ensures currentPage >= 1 && !PreviousDisabled(currentPage) ==> currentPage - 1 >= 1
  {
    currentPage == 1
  }

  /** `disabled={currentPage === totalPages}`. */
  predicate NextDisabled(currentPage: int, totalPages: int)
    ensures currentPage <= totalPages && !NextDisabled(currentPage, totalPages) ==> currentPage + 1 <= totalPages
  {
    currentPage == totalPages
  }

  /** `totalPages > 1 && (...)`: the pagination bar is rendered. */
  predicate ShowsControls(totalPages: int)
    ensures ShowsControls(totalPages) ==> !NextDisabled(1, totalPages)
  {
    totalPages > 1
  }

  /** What the component renders. */
  datatype ListView =
    | NoTasks
    | Paged(page: seq<TaskItem>, pageButtons: seq<int>, controls: bool, previousDisabled: bool, nextDisabled: bool)

  function View(tasks: seq<TaskItem>, currentPage: int, itemsPerPage: int): (r: ListView)
    requires itemsPerPage >= 1
    ensures r.NoTasks? <==> tasks == []
    ensures r.Paged? ==> r.page == PageOf(tasks, currentPage, itemsPerPage)
    ensures r.Paged? ==> (r.controls <==> |tasks| > itemsPerPage)
    ensures r.Paged? ==> (r.previousDisabled <==> currentPage == 1)
    ensures r.Paged? ==> (r.nextDisabled <==> currentPage == TotalPages(|tasks|, itemsPerPage))
    ensures r.Paged? ==> |r.pageButtons| == TotalPages(|tasks|, itemsPerPage)
                         && forall i :: 0 <= i < |r.pageButtons| ==> r.pageButtons[i] == i + 1
  {
    if |tasks| == 0 then NoTasks
    else
      MoreThanOnePage(|tasks|, itemsPerPage);
      var totalPages := TotalPages(|tasks|, itemsPerPage);
      Paged(PageOf(tasks, currentPage, itemsPerPage),
            seq(totalPages, i => i + 1),
            ShowsControls(totalPages),
            PreviousDisabled(currentPage),
            NextDisabled(currentPage, totalPages))
  }

  /** `currentPage` is not clamped when the list shrinks: page 3 of a list
      of 25 tasks shows tasks, and once the list has shrunk to 13 (after
      deletions or a narrower filter) there are two pages, page 3 shows
      nothing, and Next is still enabled. */
  lemma ShrinkingLeavesAnEmptyPage(before: seq<TaskItem>, after: seq<TaskItem>)
    requires |before| == 25 && |after| == 13
    ensures TotalPages(|before|, DefaultItemsPerPage) == 3 && PageOf(before, 3, DefaultItemsPerPage) != []
    ensures TotalPages(|after|, DefaultItemsPerPage) == 2 && PageOf(after, 3, DefaultItemsPerPage) == []
    ensures View(after, 3, DefaultItemsPerPage).controls && !View(after, 3, DefaultItemsPerPage).nextDisabled
  {
    PageEmptyIffBeyondLast(before, 3, DefaultItemsPerPage);
    PageEmptyIffBeyondLast(after, 3, DefaultItemsPerPage);
  }

  /** The `currentPage` state and the handlers that change it. */
  class Pager {
    var currentPage: int
    const itemsPerPage: int

    ghost predicate Valid()
      reads this
    {
      itemsPerPage >= 1 && currentPage >= 1
    }

    /** `useState(1)`. */
    constructor(itemsPerPage: int)
      requires itemsPerPage >= 1
      ensures Valid() && currentPage == 1 && this.itemsPerPage == itemsPerPage
    {
      this.itemsPerPage := itemsPerPage;
      currentPage := 1;
    }

    /** `handlePageChange(page)`; the scroll to the top is not modelled. */
    method HandlePageChange(page: int)
      modifies this`currentPage
      ensures currentPage == page
    {
      currentPage := page;
    }

    /** A click on Previous, which does nothing while it is disabled. */
    method ClickPrevious()
      requires Valid()
      modifies this`currentPage
      ensures Valid()
      ensures currentPage == if PreviousDisabled(old(currentPage)) then old(currentPage) else old(currentPage) - 1
    {
      if !PreviousDisabled(currentPage) {
        HandlePageChange(currentPage - 1);
      }
    }

    /** A click on Next, for a list of `n` tasks; it does nothing while it is
        disabled, and from a page within range it stays within range. */
    method ClickNext(n: nat)
      requires Valid()
      modifies this`currentPage
      ensures Valid()
      ensures currentPage == if NextDisabled(old(currentPage), TotalPages(n, itemsPerPage))
                             then old(currentPage) else old(currentPage) + 1
      ensures old(currentPage) <= TotalPages(n, itemsPerPage) ==> currentPage <= TotalPages(n, itemsPerPage)
    {
      if !NextDisabled(currentPage, TotalPages(n, itemsPerPage)) {
        HandlePageChange(currentPage + 1);
      }
    }

    /** A click on one of the page number buttons, which exist for pages 1
        to `totalPages`. */
    method ClickPageButton(page: int, n: nat)
      requires Valid() && 1 <= page <= TotalPages(n, itemsPerPage)
      modifies this`currentPage
      ensures Valid() && currentPage == page
    {
      HandlePageChange(page);
    }

    /** The tasks shown for the current page. */
    function CurrentPageTasks(tasks: seq<TaskItem>): (r: seq<TaskItem>)
      reads this
      requires Valid()
      ensures |r| <= itemsPerPage
      ensures r == [] <==> currentPage > TotalPages(|tasks|, itemsPerPage)
    {
      PageIsClampedWindow(tasks, currentPage, itemsPerPage);
      PageEmptyIffBeyondLast(tasks, currentPage, itemsPerPage);
      PageOf(tasks, currentPage, itemsPerPage)
    }
  }
}
