# Task manager: a verified model of the client's task board and the server's store

This project models a task tracker built from two parts:

- **The browser client.** It fetches the task list once and holds it in memory. It filters the list by status and by a case-insensitive search over four text fields, and counts the tasks per status. It creates, edits, deletes and re-statuses tasks; each of these changes the local list only after the API call succeeds.
- **Two list components the app does not currently mount.** `App.tsx:194` renders `ResponsiveVirtualizedList`, which shows every task as a card. The paged list (`VirtualizedTaskList.tsx`) and the three-column grid (`VirtualizedTaskGrid.tsx`) are standalone components that no file of the client imports. They are modelled as components, on the task list they would receive.
- **The server.** Its two entities (`TaskItem`, `User`) carry declared constraints: required fields, maximum lengths, two unique indexes and restrict-on-delete foreign keys. A start-up block seeds five sample tasks into an empty database.

The model follows the program's own files, one Dafny module each:

| module | file | models |
|---|---|---|
| `Js` | `js.dfy` | The JavaScript semantics the client relies on: `===`, `Number(s)`, `String(n)`, `toLowerCase`, `includes`, `slice` and `filter`. |
| `TaskTypes` | `task_types.dfy` | The client's task record, request body and status codes. |
| `StatusUtils` | `status_utils.dfy` | The status badge's text and colour. |
| `TaskApp` | `app.dfy` | `App.tsx`: the filter and counts as functions, and the component's state as a class whose handlers take the API outcome, the confirmation and the clock as parameters. |
| `TaskListPaging` | `paging.dfy` | The paged list: slice, page count, controls, and the current page as a class. |
| `TaskGrid` | `grid.dfy` | The grid's row count and its cell-to-task mapping. |
| `FilterBar` | `filter_bar.dfy` | The filter bar's predicates and labels, and the two filter values as a class. |
| `TaskForm` | `task_form.dfy` | The create/edit form as a class over its field record. |
| `TaskCard` | `task_card.dfy` | The card's status select, as written and corrected (see Findings). |
| `Models` | `models.dfy` | The server entities, their defaults and their validity. |
| `Store` | `store.dfy` | The database as a class with the task sequence and the user map, keeping the declared constraints as its invariant. |
| `Seed` | `seed.dfy` | The seed-if-empty block. |
| `Wrappers` | `wrappers.dfy` | `Option`. |

**The client's status is a raw runtime value.** `Js.Value` is a number, NaN or a string, and `===` is modelled exactly. TypeScript admits only 0, 1 and 2 as a status, but the card's cast lets any string through. Keeping the raw value makes that visible. The filter value `TaskStatus | 'all'` is a `Js.Value` too; `'all'` is the string `"all"`.

**Where the code departs from its own declarations, the model follows the code:**

- `client/src/types/task.ts:6` and `:15-21` declare a task's status as one of the codes 0, 1 and 2. On the client that fails after a status change from a task card (see Findings).
- `api/Models/TaskItem.cs` declares no `CreatedById`/`AssignedToId` properties, yet `api/Data/TaskManagerContext.cs:27-35` configures foreign keys on them. The model gives `Models.TaskItem` both keys as optional user ids, as the context configures them and as the client's `TaskItem` type declares them.
- Server-side create and update rules belong to a task controller, which is not part of this model. The store's operations are the generic `AddRange`/`Add`/`Remove` plus `SaveChanges` steps that the context and the seed block use.

## Model

| member | source | states |
|---|---|---|
| Js.StrictEquals | client/src/App.tsx:107 | `a === b` holds exactly for equal values other than NaN; a number never equals a string |
| Js.Number | client/src/components/EnhancedFilterBar.tsx:30 | `Number(s)` never yields a string; it is NaN exactly when `s` is not all decimal digits, and the empty string is 0 |
| Js.DecimalString | client/src/components/EnhancedFilterBar.tsx:54-56 | `String(n)` is a non-empty digit string with no leading zero unless `n` is 0 |
| Js.NumberOfDecimalString | client/src/components/EnhancedFilterBar.tsx:28-31 | `Number(String(n)) === n` for every status code, so option values parse back to their codes |
| Js.LowerChar | client/src/App.tsx:109 | a lowered character is never an upper-case ASCII letter, and lower-case letters are kept |
| Js.Lower | client/src/App.tsx:109-112 | `toLowerCase` keeps the length and lowers each character in place |
| Js.LowerIdempotent | client/src/App.tsx:109-112 | lowering twice equals lowering once |
| Js.Includes | client/src/App.tsx:109-112 | `hay.includes(needle)` holds iff the needle occurs at some index of the haystack |
| Js.SliceBound | client/src/components/VirtualizedTaskList.tsx:26 | a slice bound is clamped into the list: an in-range bound is kept and any bound past the end becomes the length; negative bounds are not used by the callers |
| Js.Slice | client/src/components/VirtualizedTaskList.tsx:26 | a slice is no longer than the list, nor than `end - start` for non-negative bounds |
| Js.Filter | client/src/App.tsx:106 | a filtered list is no longer than the list; it holds only kept elements of the list and every kept element |
| Js.FilterIsSubsequence | client/src/App.tsx:106-114 | a filter result is the list with some elements left out, the rest in order |
| Js.FilterConcat | client/src/App.tsx:106-114 | filtering a concatenation filters each part |
| Js.FilterKeepingAll | client/src/App.tsx:106-114 | a filter that keeps every element returns the list itself |
| Js.FilterAgreeing | client/src/App.tsx:117-119 | two callbacks that agree on the list's elements filter it alike |
| Js.FilterSameShape | client/src/App.tsx:107-112 | lists whose elements agree position by position on the callback keep equally many |
| Js.FilterPartition3 | client/src/App.tsx:117-119 | three callbacks that split the elements between them have filters whose sizes sum to the length |
| TaskTypes.IsKnown | client/src/types/task.ts:15-21 | a status is one of the declared codes iff it is the number 0, 1 or 2 |
| StatusUtils.StatusColor | client/src/utils/statusUtils.ts:3-14 | `getStatusColor` is total; it returns the gray class exactly for values other than the three codes |
| StatusUtils.StatusText | client/src/utils/statusUtils.ts:16-27 | `getStatusText` is total; it returns 'Unknown' exactly for values other than the three codes |
| StatusUtils.KnownStatusesAreDistinguished | client/src/utils/statusUtils.ts:3-24 | the codes read 'Pending', 'In Progress' and 'Done', and distinct codes get distinct texts and distinct colours |
| StatusUtils.UnknownStatusFallsThrough | client/src/utils/statusUtils.ts:11-12 | any other value, number or string, is 'Unknown' in gray |
| TaskApp.MatchesStatus | client/src/App.tsx:107 | `matchesStatus` holds iff the filter is 'all' or equals the task's status, and never for a NaN filter |
| TaskApp.MatchesSearch | client/src/App.tsx:108-112 | `matchesSearch` holds iff the query is empty or occurs, ignoring ASCII case, in the title, description, createdBy or assignedTo |
| TaskApp.Keeps | client/src/App.tsx:106-113 | a NaN filter passes no task, and 'all' with an empty query passes every task |
| TaskApp.FilteredTasks | client/src/App.tsx:105-115 | `filteredTasks` is no longer than `tasks`; it holds only tasks of the list that pass, and every task that passes |
| TaskApp.FilterKeepsExactly | client/src/App.tsx:106-114 | a task of the list is shown iff it passes the filter callback |
| TaskApp.IncludesIgnoringCase | client/src/App.tsx:108-112 | the lowered `includes` test holds iff the lowered query occurs in the lowered field |
| TaskApp.KeepsMeaning | client/src/App.tsx:105-115 | a task passes iff (the filter is 'all' or equals its non-NaN status) and (the query is empty or occurs, ignoring ASCII case, in title, description, createdBy or assignedTo) |
| TaskApp.FilteredIsOrderedSubsequence | client/src/App.tsx:106-114 | the shown tasks are an order-preserving subsequence of `tasks` |
| TaskApp.NoFilterShowsEverything | client/src/App.tsx:106-114 | with 'all' and the empty query the shown list is `tasks` exactly |
| TaskApp.FilteredOfAppend | client/src/App.tsx:106-114 | filtering `a + b` is filtering `a`, then `b` |
| TaskApp.FilterIgnoresOtherFields | client/src/App.tsx:107-112 | lists that differ only outside status, title, description, createdBy and assignedTo show equally many tasks, at the same positions |
| TaskApp.SearchIgnoresQueryCase | client/src/App.tsx:108-112 | a query and its lowered form show the same tasks |
| TaskApp.StatusCount | client/src/App.tsx:117-119 | `getStatusCount` never exceeds the number of tasks |
| TaskApp.Statuses | client/src/App.tsx:118 | the status list has one entry per task, the task's status at the same position |
| TaskApp.StatusCountIsMultiplicity | client/src/App.tsx:117-119 | the count for a status is how many times it occurs among the tasks' statuses, and 0 for NaN |
| TaskApp.StatusCountIsFilteredCount | client/src/App.tsx:117-119 | the count for a code is the length of the list filtered by that code with an empty query |
| TaskApp.StatusCountsSumToTotal | client/src/App.tsx:117-119 | when every status is one of the three codes, the three counts sum to `tasks.length` |
| TaskApp.MapWhereId | client/src/App.tsx:55-59 | `prev.map` keeps the length and rewrites exactly the tasks with the id |
| TaskApp.UpdatedTasks | client/src/App.tsx:55-59 | the list keeps its length; the tasks with the edited id take the overlay of the request and every other task is kept |
| TaskApp.StatusChanged | client/src/App.tsx:96 | the changed task has the new status and update time, and every other field of the task |
| TaskApp.StatusChangedTasks | client/src/App.tsx:95-97 | the list keeps its length; the tasks with the id are status-changed and every other task is kept |
| TaskApp.Overlay | client/src/App.tsx:55-58 | the spread keeps id, creation time and user ids, takes the six request fields (an absent due date keeps the old one) and sets `updatedAt` |
| TaskApp.FindById | client/src/App.tsx:83-84 | `tasks.find` is absent iff no task has the id, and otherwise is the first task with it |
| TaskApp.RemoveTask | client/src/App.tsx:73 | the remaining tasks are tasks of the list without the id, and every task without the id remains |
| TaskApp.StatusChangeRequest | client/src/App.tsx:86-93 | the request carries the new status and the found task's title, description, due date, createdBy and assignedTo |
| TaskApp.UpdateTouchesOnlyTheEditedTask | client/src/App.tsx:55-59 | an update keeps the length, every id and creation time and every other task, and gives the edited tasks the request's fields and the update time |
| TaskApp.StatusChangeTouchesOnlyThatTask | client/src/App.tsx:95-97 | a status change alters only status and `updatedAt`, and only on the tasks with that id |
| TaskApp.DeleteRemovesExactlyThatId | client/src/App.tsx:73 | deletion removes exactly the tasks with the id, keeps the others in order, and changes nothing when the id is absent |
| TaskApp.App.constructor | client/src/App.tsx:12-16 | the initial state: no tasks, loading, no error, no form, nothing being edited |
| TaskApp.App.LoadTasks | client/src/App.tsx:24-36 | loading ends either way; success replaces the list and clears the error, failure keeps the list and sets the load error |
| TaskApp.App.OpenForm | client/src/App.tsx:186 | the create form opens |
| TaskApp.App.CancelForm | client/src/App.tsx:205 | the create form closes |
| TaskApp.App.StartEditing | client/src/App.tsx:196 | the chosen task becomes the one being edited |
| TaskApp.App.CancelEditing | client/src/App.tsx:213 | nothing is being edited |
| TaskApp.App.HandleCreateTask | client/src/App.tsx:38-48 | success appends the returned task after the unchanged list and closes the form; failure changes only the error |
| TaskApp.App.HandleUpdateTask | client/src/App.tsx:50-66 | with nothing being edited nothing changes; success overlays the tasks with the edited id and closes the form; failure changes only the error |
| TaskApp.App.HandleDeleteTask | client/src/App.tsx:68-79 | a declined confirmation changes nothing; success removes the tasks with the id; failure changes only the error |
| TaskApp.App.HandleStatusChange | client/src/App.tsx:81-103 | an unknown id sends nothing and changes nothing; otherwise the found task's fields go out with the new status, success changes that task's status and clears the error, failure changes only the error |
| TaskListPaging.TotalPages | client/src/components/VirtualizedTaskList.tsx:29 | `Math.ceil(n / itemsPerPage)`: the pages hold all `n` tasks, one page fewer would not, and there are no pages exactly when there are no tasks |
| TaskListPaging.PageOf | client/src/components/VirtualizedTaskList.tsx:23-27 | the page is no longer than the list and holds only tasks of the list |
| TaskListPaging.PreviousDisabled | client/src/components/VirtualizedTaskList.tsx:68-74 | from a page of 1 or more, an enabled Previous button leads to a page of 1 or more |
| TaskListPaging.NextDisabled | client/src/components/VirtualizedTaskList.tsx:90-96 | from a page no later than the last, an enabled Next button leads to a page no later than the last |
| TaskListPaging.PageIsClampedWindow | client/src/components/VirtualizedTaskList.tsx:23-27 | the page is `tasks[(p-1)k .. pk]` with both bounds clamped to the list, so at most `itemsPerPage` tasks |
| TaskListPaging.PagesUpToArePrefix | client/src/components/VirtualizedTaskList.tsx:23-29 | pages 1 to `m` one after another are the list's first `min(mk, n)` tasks |
| TaskListPaging.PagesPartitionTasks | client/src/components/VirtualizedTaskList.tsx:23-29 | pages 1 to `totalPages` together are `tasks`: each task on exactly one page, in order |
| TaskListPaging.PageEmptyIffBeyondLast | client/src/components/VirtualizedTaskList.tsx:21-35 | a page is empty iff its number exceeds `totalPages` |
| TaskListPaging.MoreThanOnePage | client/src/components/VirtualizedTaskList.tsx:66 | the controls' condition `totalPages > 1` holds iff the tasks do not fit on one page |
| TaskListPaging.ShowsControls | client/src/components/VirtualizedTaskList.tsx:66 | when the pagination bar shows, Next is enabled on page 1 |
| TaskListPaging.View | client/src/components/VirtualizedTaskList.tsx:37-98 | the empty-state branch appears iff there are no tasks; otherwise the page, buttons 1 to `totalPages`, controls exactly when the tasks exceed one page, Previous disabled iff on page 1, and Next disabled iff on page `totalPages` |
| TaskListPaging.ShrinkingLeavesAnEmptyPage | client/src/components/VirtualizedTaskList.tsx:21-35 | the page is not clamped when the list shrinks: page 3 of 25 tasks shows tasks, but after the list drops to 13 tasks there are two pages, page 3 is empty, and Next is still enabled |
| TaskListPaging.Pager.constructor | client/src/components/VirtualizedTaskList.tsx:21 | the current page starts at 1 |
| TaskListPaging.Pager.HandlePageChange | client/src/components/VirtualizedTaskList.tsx:31-35 | the current page becomes the requested one, unclamped |
| TaskListPaging.Pager.ClickPrevious | client/src/components/VirtualizedTaskList.tsx:68-74 | Previous is disabled on page 1, and otherwise goes back one page |
| TaskListPaging.Pager.ClickNext | client/src/components/VirtualizedTaskList.tsx:90-96 | Next is disabled on page `totalPages`, otherwise goes forward one page, and never leaves the range from within it |
| TaskListPaging.Pager.ClickPageButton | client/src/components/VirtualizedTaskList.tsx:76-79 | a page button selects its page |
| TaskListPaging.Pager.CurrentPageTasks | client/src/components/VirtualizedTaskList.tsx:23-27 | the shown page holds at most `itemsPerPage` tasks and is empty iff the current page is past the last |
| TaskGrid.RowCount | client/src/components/VirtualizedTaskGrid.tsx:25-29 | `Math.ceil(n / 3)`: the rows hold all tasks with fewer than three cells to spare |
| TaskGrid.CellIndex | client/src/components/VirtualizedTaskGrid.tsx:32 | for a column below 3, the index divided by 3 gives back the row and its remainder the column |
| TaskGrid.CellTask | client/src/components/VirtualizedTaskGrid.tsx:31-41 | a cell is empty iff `3 * row + column` is at least the length, and otherwise shows the task at that index |
| TaskGrid.CellIndexInjective | client/src/components/VirtualizedTaskGrid.tsx:32 | two cells with columns below 3 and the same index are the same cell |
| TaskGrid.EveryTaskHasACell | client/src/components/VirtualizedTaskGrid.tsx:29-33 | task `i` is shown in row `i / 3`, column `i % 3`, within `rowCount` rows |
| TaskGrid.OnlyTheLastRowHasEmptyCells | client/src/components/VirtualizedTaskGrid.tsx:29-41 | every cell of a row before the last shows a task |
| TaskGrid.EmptyCells | client/src/components/VirtualizedTaskGrid.tsx:29-41 | the empty cells number fewer than three and fill the grid to `3 * rowCount` |
| TaskGrid.EmptyCellsEndTheLastRow | client/src/components/VirtualizedTaskGrid.tsx:29-41 | a cell is empty iff it is in the last row and among its rightmost `EmptyCells` columns |
| TaskGrid.View | client/src/components/VirtualizedTaskGrid.tsx:55-83 | the empty-state branch appears iff there are no tasks; otherwise the grid has `rowCount` rows, at least one |
| FilterBar.InactiveFiltersShowEveryTask | client/src/components/EnhancedFilterBar.tsx:24-26 | without an active filter the list shows every task |
| FilterBar.HasActiveFilters | client/src/components/EnhancedFilterBar.tsx:24-26 | filters are active iff the status filter is not 'all' or the query is non-empty |
| FilterBar.ResultLabel | client/src/components/EnhancedFilterBar.tsx:70-76 | with active filters the label starts "Showing <filtered> of ", otherwise with the total; either way it ends " tasks" |
| FilterBar.ParseStatusSelect | client/src/components/EnhancedFilterBar.tsx:28-31 | the result is a string exactly for "all", and NaN exactly for another value that is not all digits |
| FilterBar.SelectOptionsRoundTrip | client/src/components/EnhancedFilterBar.tsx:53-56 | the option "all" gives 'all' and the option for code `n` gives `n` |
| FilterBar.ChipLabel | client/src/components/EnhancedFilterBar.tsx:99-100 | the chip label is one of 'Pending', 'In Progress', 'Done' |
| FilterBar.ChipLabelAgreesWithStatusText | client/src/components/EnhancedFilterBar.tsx:97-100 | on the three codes the chip reads as the badge; any other value reads 'Done' on the chip and 'Unknown' on the badge |
| FilterBar.ResultLabelShowsTheMode | client/src/components/EnhancedFilterBar.tsx:70-76 | the label starts with a letter ("Showing ...") iff filters are active, and with the total's digits otherwise |
| FilterBar.ActiveIffSomeChip | client/src/components/EnhancedFilterBar.tsx:92-110 | the "Active filters" row appears iff the status chip or the search chip does |
| FilterBar.ShowsStatusChip | client/src/components/EnhancedFilterBar.tsx:97 | the status chip shows iff the filter is not 'all' |
| FilterBar.ShowsSearchChip | client/src/components/EnhancedFilterBar.tsx:110 | without the search chip the search passes every task |
| FilterBar.FilterState.constructor | client/src/App.tsx:17-18 | the filter starts as 'all' with an empty query, so no filter is active |
| FilterBar.FilterState.HandleStatusChange | client/src/components/EnhancedFilterBar.tsx:28-31 | the filter takes the parsed option; the status chip shows iff the option is not "all" |
| FilterBar.FilterState.SetSearchQuery | client/src/components/EnhancedFilterBar.tsx:62 | the query takes the search box's text; the search chip shows iff it is non-empty |
| FilterBar.FilterState.HandleClearFilters | client/src/components/EnhancedFilterBar.tsx:33-37 | afterwards the filter is 'all' and the query empty, so no filter is active |
| FilterBar.FilterState.RemoveStatusChip | client/src/components/EnhancedFilterBar.tsx:102 | only the status resets; filters stay active iff a query remains |
| FilterBar.FilterState.RemoveSearchChip | client/src/components/EnhancedFilterBar.tsx:114 | only the query resets; filters stay active iff the status chip remains |
| TaskForm.FormFromTask | client/src/components/TaskForm.tsx:24-31 | the prefill copies the task's six fields, an absent due date as '' |
| TaskForm.SetField | client/src/components/TaskForm.tsx:40-46 | `handleChange` sets the named field (the status through `Number`, the others verbatim) and leaves every other field unchanged |
| TaskForm.StatusOptionStoresTheCode | client/src/components/TaskForm.tsx:108-116 | choosing the status option for code `n` stores the number `n` |
| TaskForm.UneditedSaveKeepsTheTask | client/src/components/TaskForm.tsx:22-38 | saving an untouched edit form gives back the task with only the update time set and an absent due date as '' |
| TaskForm.ToRequest | client/src/components/TaskForm.tsx:35-38 | the submitted request carries the form's six fields unchanged, the due date always present |
| TaskForm.Submittable | client/src/components/TaskForm.tsx:67 | the browser submits only when the `required` title (line 67) and createdBy (line 129) inputs are non-empty |
| TaskForm.InitialFormIsNotSubmittable | client/src/components/TaskForm.tsx:13-20 | the initial form is Pending and cannot be submitted until the required title and creator are filled |
| TaskForm.TaskFormState.constructor | client/src/components/TaskForm.tsx:13-33 | the form starts from the defaults, or from the task in edit mode |
| TaskForm.TaskFormState.EditEffect | client/src/components/TaskForm.tsx:22-33 | in edit mode with a task the form takes the task's fields; otherwise it is unchanged |
| TaskForm.TaskFormState.HandleChange | client/src/components/TaskForm.tsx:40-46 | the form becomes `SetField` of the old form |
| TaskForm.TaskFormState.HandleSubmit | client/src/components/TaskForm.tsx:35-38 | a request goes out iff title and createdBy are non-empty (the `required` inputs at lines 67 and 129), carrying the form's fields unchanged |
| TaskCard.SelectedStatusAsWritten | client/src/components/Task.tsx:71 | the cast status is a string, never one of the three codes |
| TaskCard.SelectedStatus | client/src/components/Task.tsx:71 | the converted status is never a string, and is a number exactly for a digit string |
| TaskCard.AsWrittenStatusChoiceIsLost | client/src/components/Task.tsx:69-77 | as written, a successful status change leaves a string status that reads 'Unknown', fails the filter for its code and is missing from all three counts |
| TaskCard.CorrectedStatusChoiceIsKept | client/src/components/Task.tsx:69-77 | with the conversion, statuses stay among the codes, the counts still sum to the total, and the changed task reads correctly and passes its filter |
| Models.AddDays | api/Program.cs:115-116 | adding negative days goes back in time and positive days forward |
| Models.StatusNameRoundTrip | api/Data/TaskManagerContext.cs:24 | the status stored by name reads back as the same status; in the model, only the three exact names read back at all |
| Models.StatusName | api/Data/TaskManagerContext.cs:24 | `HasConversion<string>()` stores the member's name |
| Models.ParseStatusName | api/Data/TaskManagerContext.cs:24 | in the model, a name that reads back as a status is exactly that status's stored name |
| Models.HasNonWhiteSpace | api/Models/TaskItem.cs:9-11 | `[Required]` on a string holds iff some character is not white space |
| Models.RequiredMeansNonBlank | api/Models/TaskItem.cs:9-22 | a required value is non-empty, and an all-white-space value counts as missing |
| Models.ValidTaskItem | api/Models/TaskItem.cs:9-25 | a valid task has a non-empty title of at most 200 characters and a non-empty creator of at most 100 |
| Models.ValidUser | api/Models/User.cs:9-31 | a valid user has a non-empty Email and Name of at most 100 characters and a non-empty Provider of at most 50 |
| Models.NewTaskItem | api/Models/TaskItem.cs:7-29 | a new task has empty strings, Pending, no due or update date, its creation time taken once, and is not valid until its title and creator are filled |
| Models.NewUser | api/Models/User.cs:7-43 | a new user is active, has never logged in, has no tasks and no optional fields, and is not valid until its required strings are filled |
| Models.FilledNewTaskIsValid | api/Models/TaskItem.cs:9-25 | a new task with non-blank title and creator and all texts within 200/1000/100/100 characters is valid |
| Store.CollideSymmetric | api/Data/TaskManagerContext.cs:50-53 | a clash on a unique index is symmetric |
| Store.Collide | api/Data/TaskManagerContext.cs:50-53 | equal Emails always clash, and with distinct Emails a user without a ProviderId clashes with nobody, since NULLs never match on a unique index |
| Store.UniqueUsers | api/Data/TaskManagerContext.cs:50-53 | the user table is unique iff no stored user clashes with any other stored user |
| Store.InsertKeepsUsersUnique | api/Data/TaskManagerContext.cs:50-53 | inserting a non-clashing user under a fresh key keeps Email and (Provider, ProviderId) unique |
| Store.Referencing | api/Data/TaskManagerContext.cs:27-35 | a user is referenced iff some task names it as creator or assignee |
| Store.RemovingUnreferencedUserKeepsReferences | api/Data/TaskManagerContext.cs:27-35 | removing an unreferenced user leaves every task's foreign keys resolved |
| Store.WithIds | api/Data/TaskManagerContext.cs:19 | generated keys number the rows consecutively and change nothing else |
| Store.TaskManagerContext.constructor | api/Program.cs:101 | a newly created database is empty and satisfies the invariant |
| Store.TaskManagerContext.Valid | api/Data/TaskManagerContext.cs:17-53 | every saved state: rows meet their declared constraints, keys are distinct and below the generators, user indexes are unique and foreign keys resolve |
| Store.TaskManagerContext.HasTasks | api/Program.cs:104 | `Tasks.Any()`; in a valid store with tasks the task key generator has moved past 1 |
| Store.TaskManagerContext.AddTasks | api/Program.cs:162-163 | the batch is saved with fresh keys iff every row is valid and its foreign keys resolve; otherwise nothing changes; the invariant holds either way |
| Store.TaskManagerContext.AddUser | api/Data/TaskManagerContext.cs:38-53 | a user is saved iff it is valid and clashes with no stored user on Email or (Provider, ProviderId); otherwise nothing changes |
| Store.TaskManagerContext.DeleteUser | api/Data/TaskManagerContext.cs:27-35 | deleting an unknown user is not found; deleting a referenced user is rejected with both tables unchanged; otherwise only that user goes |
| Seed.SamplesWellFormed | api/Program.cs:106-160 | the table `Samples` has the five entries of the seed block, each with a non-blank title and creator, every text within its declared length, a creation day in the past, and an update day, if any, between creation and now |
| Seed.SampleWellFormed | api/Program.cs:108-117 | an entry the database accepts has a non-empty title and creator |
| Seed.SeedRow | api/Program.cs:108-117 | what every sample row satisfies: it is valid, references no user, has a due date, was created before the seed ran, and was updated, if at all, after its creation and before the seed ran |
| Seed.SampleTask | api/Program.cs:108-117 | a sample row is a seed row (valid, without users, with a due date, created before the seed runs and updated, if at all, in between) with the entry's title, status, due date and update time |
| Seed.SeedTasks | api/Program.cs:106-160 | five seed rows, the `i`-th with the title, status, due date and presence of an update time of the block's `i`-th entry |
| Seed.SeedCoversEveryStatus | api/Program.cs:108-159 | the sample rows cover all three statuses |
| Seed.SeedHasTwoUpdatedRows | api/Program.cs:118-159 | exactly two sample rows, the second and the fifth, have `UpdatedAt` |
| Seed.SeedIfEmpty | api/Program.cs:104-164 | the seed runs iff the Tasks table is empty, then inserts exactly the five rows under the next five task keys; otherwise the store, including both key generators, is unchanged; users and the user key generator are never touched |
| Seed.StartTwice | api/Program.cs:98-165 | a second start seeds nothing: the tasks and the task key generator are as the first start left them, and users and the user key generator are unchanged |

## Left out

- The HTTP layer (`client/src/services/api.ts`) and every network call: each handler receives the API outcome as a parameter (`ApiResult`). The `console.error` logging is not modelled.
- `window.confirm`, `new Date().toISOString()`, `DateTime.Now` and `DateTime.UtcNow` are parameters.
- `window.scrollTo` after a page change is not modelled, nor is `useMemo`/`useCallback` memoisation, which does not change any value.
- Rendering (JSX markup, class names other than the status colours, `toLocaleDateString`), `ResponsiveVirtualizedList`, `LazyTaskForm`'s lazy loading, and react-window's virtualisation are not modelled. `COLUMN_WIDTH = containerWidth / 3` is floating-point layout and is left out.
- `PerformanceMonitor` (timers and heap figures) is not modelled.
- `useLocalStorage` persistence of the status filter is not modelled; the hook's source is not part of this model. `FilterBar.FilterState.constructor` takes its first-visit default.
- Everything in `api/Program.cs` outside the seed block (dotenv, services, CORS, JWT and OAuth configuration, Swagger, `app.Run`) and `AuthController` are left out as configuration.
- The server's task controller is not part of this model, so neither are the server's create/update/delete rules nor how a status travels over JSON. The client sends the numeric code; the database stores the enum's name.
- Js.Number: only the empty string and strings of ASCII digits are given numeric values. Every other string is NaN here, although JavaScript also accepts surrounding white space, a sign, decimals, exponents and hexadecimal. The inputs that reach `Number` in the model are select option values, which are digit strings.
- Models.ParseStatusName: the model reads back only the three exact member names. EF Core's string-to-enum converter parses with .NET enum parsing, which also accepts numeric strings ("1" reads as InProgress) and other letter case, and any other text falls back to the default member, Pending. The store only ever writes `StatusName` values, so the round trip in `Models.StatusNameRoundTrip` is unaffected.
- Models.StatusNameRoundTrip: its second clause, that only the three names read back, holds of the model's reader and not of EF Core's converter (see the line above).
- Js.Lower: only ASCII letters are folded, not the full Unicode case mapping `toLowerCase` applies.
- Models.HasNonWhiteSpace: white space is the ASCII and Latin-1 white-space characters, not every character `char.IsWhiteSpace` accepts.
- Store.TaskManagerContext.AddTasks and Store.TaskManagerContext.AddUser: the store rejects rows that break the declared constraints. In the running system, EF Core does not evaluate `[Required]`/`[MaxLength]` on `SaveChanges`, `IsRequired` means NOT NULL, and SQLite does not enforce column lengths. The model treats the declared constraints as what a saved row satisfies; `AddUser`'s validation-error outcome rests on the same assumption.
- TaskListPaging.TotalPages: `itemsPerPage` must be at least 1, and the same holds for every paging member. The prop defaults to 12. For a prop of 0, JavaScript's `Math.ceil(n / 0)` gives `Infinity` (or `NaN` for no tasks), and a negative prop gives a page count of 0 or less. The model does not represent these.
- TaskApp.App: each handler is one atomic step from the state at the time of the call. In the source, handlers await the network, so two of them can interleave. `handleStatusChange` looks the task up in the `tasks` of its render (App.tsx:83) but maps over the latest list (App.tsx:95-97). `handleUpdateTask` uses the `editingTask` its closure captured (App.tsx:51-57). Interleavings and stale closures are not modelled.
- Models.ValidTaskItem and Models.ValidUser: `[MaxLength]` counts UTF-16 code units (.NET `string.Length`), while the model bounds the number of characters. A text with characters outside the Basic Multilingual Plane counts two units for each such character in .NET and one in the model, so the model admits some texts that are too long.
- The navigation collections `User.CreatedTasks`/`AssignedTasks` are kept as fields of `Models.User`, but the store does not keep them in step with the foreign keys, as EF Core's fix-up would.
- Dates are tick counts; the difference between the local-time due dates and the UTC creation times is kept only as two separate clock parameters.

## Findings

| source | as written | input that shows it | evidently intended | confidence | as-written member | corrected member |
|---|---|---|---|---|---|---|
| client/src/components/Task.tsx:71 | The card's status select passes `e.target.value` on with only a type-level cast, so a successful status change stores the string "1" (say) as the task's status. | A Pending task. Choose "In Progress" on its card and have the API accept the change. The task's status becomes `"1"`, so `task.status === 1` fails (App.tsx:107), `getStatusCount(1)` misses it (App.tsx:118), and the badge reads 'Unknown' (statusUtils.ts:25). This assumes the server accepts a string status; the server's task controller and JSON settings are not part of this model. If the server rejects it, the visible effect is the failure branch, "Failed to update task status.", instead. | Convert with `Number(e.target.value)`, as the form's handler does (TaskForm.tsx:44), so the stored status is the numeric code. | high; not executed | TaskCard.AsWrittenStatusChoiceIsLost | TaskCard.CorrectedStatusChoiceIsKept |
