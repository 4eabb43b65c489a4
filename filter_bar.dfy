/** The filter bar (client/src/components/EnhancedFilterBar.tsx) and the
    filter state it edits, which App.tsx holds (`filterStatus`,
    `searchQuery`). */
module FilterBar {
  import opened Js
  import opened TaskTypes
  import StatusUtils
  import TaskApp

  /** `hasActiveFilters`: a status other than 'all' is chosen, or the search
      box holds text. */
  predicate HasActiveFilters(filterStatus: StatusFilter, searchQuery: string)
    ensures HasActiveFilters(filterStatus, searchQuery) <==> filterStatus != AllStatuses || searchQuery != ""
  {
    !StrictEquals(filterStatus, AllStatuses) || searchQuery != ""
  }

  /** With no active filter the list shows every task, so the bar's "total
      tasks" reading and the list agree. */
  lemma InactiveFiltersShowEveryTask(tasks: seq<TaskItem>, filterStatus: StatusFilter, searchQuery: string)
    requires !HasActiveFilters(filterStatus, searchQuery)
    ensures TaskApp.FilteredTasks(tasks, filterStatus, searchQuery) == tasks
  {
    TaskApp.NoFilterShowsEverything(tasks);
  }

  /** `handleStatusChange`: the select's string value, 'all' kept as is and
      anything else passed through `Number`. */
  function ParseStatusSelect(value: string): (r: StatusFilter)
    ensures r.Str? <==> value == "all"
    ensures r.NaN? <==> value != "all" && !AllDigits(value)
  {
    if value == "all" then AllStatuses else Number(value)
  }

  /** The options' values are "all" and the status codes written in decimal;
      choosing each sets the filter to 'all' or to that code. */
  lemma SelectOptionsRoundTrip(n: nat)
    ensures ParseStatusSelect("all") == AllStatuses
    ensures ParseStatusSelect(DecimalString(n)) == Num(n)
  {
    NumberOfDecimalString(n);
  }

  /** The label inside the status chip: 'Pending', 'In Progress', and 'Done'
      for every other value. */
  function ChipLabel(filterStatus: StatusFilter): (r: string)
    ensures r in {"Pending", "In Progress", "Done"}
  {
    if StrictEquals(filterStatus, Pending) then "Pending"
    else if StrictEquals(filterStatus, InProgress) then "In Progress"
    else "Done"
  }

  /** On the three codes the chip reads as the status badge does; any other
      value, which the badge calls 'Unknown', the chip calls 'Done'. */
  lemma ChipLabelAgreesWithStatusText(filterStatus: StatusFilter)
    ensures IsKnown(filterStatus) ==> ChipLabel(filterStatus) == StatusUtils.StatusText(filterStatus)
    ensures !IsKnown(filterStatus) ==> ChipLabel(filterStatus) == "Done" && StatusUtils.StatusText(filterStatus) == "Unknown"
  {
  }

  /** The results count: "Showing X of Y tasks" while a filter is active,
      "Y total tasks" otherwise. */
  function ResultLabel(active: bool, filteredTasks: nat, totalTasks: nat): (r: string)
    ensures active ==> "Showing " + DecimalString(filteredTasks) + " of " <= r
    ensures !active ==> DecimalString(totalTasks) <= r
    ensures |r| > 6 && r[|r| - 6..] == " tasks"
  {
    if active then "Showing " + DecimalString(filteredTasks) + " of " + DecimalString(totalTasks) + " tasks"
    else DecimalString(totalTasks) + " total tasks"
  }

  /** The two readings can never be confused: one starts with a letter, the
      other with a digit. */
  lemma ResultLabelShowsTheMode(filteredTasks: nat, totalTasks: nat, active: bool)
    ensures var r := ResultLabel(active, filteredTasks, totalTasks);
            |r| > 0 && (active <==> !IsDigit(r[0]))
  {
  }

  /** `filterStatus !== 'all'`: the status chip is shown. */
  predicate ShowsStatusChip(filterStatus: StatusFilter)
    ensures ShowsStatusChip(filterStatus) <==> filterStatus != AllStatuses
  {
    !StrictEquals(filterStatus, AllStatuses)
  }

  /** `searchQuery && ...`: the search chip is shown for a non-empty query. */
  predicate ShowsSearchChip(searchQuery: string)
    ensures !ShowsSearchChip(searchQuery) ==> forall t :: TaskApp.MatchesSearch(t, searchQuery)
  {
    searchQuery != ""
  }

  /** The "Active filters" row and the Clear button appear exactly when at
      least one chip does. */
  lemma ActiveIffSomeChip(filterStatus: StatusFilter, searchQuery: string)
    ensures HasActiveFilters(filterStatus, searchQuery) <==> ShowsStatusChip(filterStatus) || ShowsSearchChip(searchQuery)
  {
  }

  /** The two filter values and the bar's handlers. */
  class FilterState {
    var filterStatus: StatusFilter
    var searchQuery: string

    /** `useLocalStorage('filterStatus', 'all')` on a first visit and
        `useState('')`. */
    constructor()
      ensures filterStatus == AllStatuses && searchQuery == ""
      ensures !HasActiveFilters(filterStatus, searchQuery)
    {
      filterStatus := AllStatuses;
      searchQuery := "";
    }

    /** A choice in the status select. */
    method HandleStatusChange(value: string)
      modifies this`filterStatus
      ensures filterStatus == ParseStatusSelect(value)
      ensures value == "all" ==> !ShowsStatusChip(filterStatus)
      ensures value != "all" ==> ShowsStatusChip(filterStatus)
    {
      filterStatus := ParseStatusSelect(value);
    }

    /** `setSearchQuery`, called by the search box. */
    method SetSearchQuery(query: string)
      modifies this`searchQuery
      ensures searchQuery == query
      ensures ShowsSearchChip(searchQuery) <==> query != ""
    {
      searchQuery := query;
    }

    /** `handleClearFilters`, which sets both values and then calls App's
        `onClearFilters`, which sets them again. */
    method HandleClearFilters()
      modifies this
      ensures filterStatus == AllStatuses && searchQuery == ""
      ensures !HasActiveFilters(filterStatus, searchQuery)
    {
      filterStatus := AllStatuses;
      searchQuery := "";
      // onClearFilters
      filterStatus := AllStatuses;
      searchQuery := "";
    }

    /** The × on the status chip: the search is kept. */
    method RemoveStatusChip()
      modifies this`filterStatus
      ensures filterStatus == AllStatuses && !ShowsStatusChip(filterStatus)
      ensures HasActiveFilters(filterStatus, searchQuery) <==> searchQuery != ""
    {
      filterStatus := AllStatuses;
    }

    /** The × on the search chip: the status is kept. */
    method RemoveSearchChip()
      modifies this`searchQuery
      ensures searchQuery == "" && !ShowsSearchChip(searchQuery)
      ensures HasActiveFilters(filterStatus, searchQuery) <==> ShowsStatusChip(filterStatus)
    {
      searchQuery := "";
    }
  }
}
