# Circlar weekly planner — a Dafny model of its core

Circlar is a personal weekly planner. The user enters tasks with a number
of hours per week. Long tasks are spread evenly over a number of days. Short
tasks are scattered in random chunks. Every day also reserves hours for
sleep and meals. The planner shows one doughnut chart per day, stores the
week on a Django back end, lets the user move hours between days and tick
tasks off, and reports weekly progress. A reading list page and a
stopwatch widget sit beside it.

The project models that core and proves what it promises:

- `Week` (week.dfy) is the shared data model. It holds the seven day names,
  a day as an insertion-ordered title → entry list (`Find`, `Put`), a week as
  seven days, the task registry and the stored schedule rows.
- `Allocation` (allocation.dfy) is `distributeTasks`: the capacity check,
  the Sleep/Meal skeleton with negative ids, random distinct days for long
  tasks, random chunks for short tasks, and the flattening into the batch
  that is sent to the server. `Math.random()` is a finite sequence of draws.
  `Distribute` and its loops are proved equal to the function `Allocate`.
- `AllocationFacts` (allocation_facts.dfy) states what a planned week
  contains and what the batch holds.
- `Projection` (projection.dfy) is the chart side of the planner page. The
  `Planner` class holds the registry, the colour cache and the charts.
  `GenerateChartData` paints each day with a palette remembered across
  renders. `FetchSchedule` rebuilds the week from the stored rows and
  renders it. `MoveTask` edits the charts when hours move.
- `Sync` (sync.dfy) is the reduce of `fetchSchedule` and the target of a
  completion click (`handleTaskComplete`), including its weekday guard.
- `Inputs` (inputs.dfy) holds the form's steppers and their clamps.
- `Store` (store.dfy) holds the back-end endpoints as two classes:
  - `ScheduleStore`: mark complete/incomplete, bulk create, move a task, weekly progress;
  - `BookStore`: reorder.
- `Books` (books.dfy) is the reading list: drag-and-drop reordering, delete,
  title casing and the mapping of search results.
- `Stopwatch` (stopwatch.dfy) is the `formatTime` display and the counter
  as a class.
- `Options` and `Lists` are small shared helpers.

Randomness and the weekday are parameters. The draws are a `seq<real>` in
[0, 1), and the weekday is an argument of `CompletionTarget`. The database
is a sequence of rows, and every read returns them in that sequence's order.
That order is an assumption of the model (see "## Left out").

The model keeps the code's behaviour where it is probably not what the authors meant:
- `get_weekly_progress` keys its report by Turkish day names, while the planner stores English ones. Any stored row of a known task then makes the endpoint fail (`Store.PlannerDaysBreakProgress`).
- `move_task` to a day that has no row for the task makes `get_or_create` insert a row without hours, which the database refuses (`Store.MoveToEmptyDayFails`).
- The chart colour of a newly seen task changes on the next render (`Projection.RerenderChangesColor`).
- Deleting a book and then adding one gives two books the same `order` (`Books.DeleteThenAddRepeatsOrder`).
- The sleep and meal steppers only check that the budget is positive, so a typed budget of 0.5 steps down to -0.5 (`Inputs.DecrementBudget`).
- Moving a task within one day so that its segment drops to zero removes it and adds the hours to the next segment of that day's chart (`Projection.SameDayMove`).
- Dragging a book sends the moved list before renumbering. Once the page's list is numbered by position, which it is after any drag, each sent book carries the position it had before that drag, and the dragged book carries its old place (`Books.SentHoldsPreviousPositions`). The server therefore stores the arrangement from before the latest drag, never the one on screen. On the first drag after a load the payload repeats the stored orders, and the endpoint changes nothing (`Store.ReorderedWithCurrentOrders`).
- The form rejects only a blank title, so two tasks may share a title. The week is keyed by title, so their entries mix: two one-day tasks can fill two days under one title (`AllocationFacts.SharedTitleSpreadsTwice`).
- `handleTaskComplete` never toggles on Sunday or on the Sunday chart (`Sync.SundayNeverToggles`, `Sync.SundayChartNeverToggles`).

## Model

| member | source | states |
|---|---|---|
| Week.DayIndex | frontend/src/pages/Home.tsx:500 | the index of a day name among the seven, -1 exactly when it is none of them |
| Week.DaysDistinct | frontend/src/pages/Home.tsx:500 | the seven day names are pairwise distinct |
| Week.Blank | frontend/src/pages/Home.tsx:511-519 | a week of seven empty days |
| Week.FindNone | frontend/src/pages/Home.tsx:550 | a title is missing from a day exactly when no slot carries it |
| Week.SlotIndex | frontend/src/pages/Home.tsx:539 | the position of the first slot with the title, the one a lookup reads |
| Week.Put | frontend/src/pages/Home.tsx:539 | after assigning a key it maps to the new entry; a new key is appended at the end; an existing key's first slot is overwritten where it stands and nothing else changes |
| Week.PutFind | frontend/src/pages/Home.tsx:539 | assigning one key leaves every other key's entry unchanged |
| Week.Column | frontend/src/pages/Home.tsx:550 | a title's entries across the week, one per day |
| Week.CountDays | frontend/src/pages/Home.tsx:535 | the number of days holding an entry is at most the number of days |
| Week.ColumnHoursUpdate | frontend/src/pages/Home.tsx:554 | changing one day's entry changes the weekly total by the difference |
| Week.CountDaysFill | frontend/src/pages/Home.tsx:538-539 | filling an empty day adds one to the day count |
| Week.ColumnAfterUpdate | frontend/src/pages/Home.tsx:539 | rewriting one day changes only that day of each title's column |
| Week.FindTask | backend/tasks/views.py:110 | the task with a given id if the registry has one, none exactly when no task carries that id |
| Allocation.DayOf | frontend/src/pages/Home.tsx:536 | a draw in [0, 1) selects one of the seven days |
| Allocation.SkeletonUpTo | frontend/src/pages/Home.tsx:523-526 | the skeleton built so far is a week |
| Allocation.ReservedDayPut | frontend/src/pages/Home.tsx:524-525 | day k's Sleep and Meal entries carry ids -(2k+1) and -(2k+2) |
| Allocation.SkeletonUpToDays | frontend/src/pages/Home.tsx:523-526 | the first n days hold their Sleep and Meal entries and the rest are empty |
| Allocation.Skeleton | frontend/src/pages/Home.tsx:511-526 | the skeleton is a week |
| Allocation.PickDays | frontend/src/pages/Home.tsx:533-541 | the chosen days stay distinct, extend those already chosen, and reach the wanted count when the draws suffice |
| Allocation.PickDaysStep | frontend/src/pages/Home.tsx:536-538 | a draw naming a day already chosen is skipped; otherwise that day is added |
| Allocation.PutOnDays | frontend/src/pages/Home.tsx:539 | writing a task on the chosen days keeps a week |
| Allocation.PutOnDaysAppend | frontend/src/pages/Home.tsx:539 | one more chosen day writes the entry on that day only |
| Allocation.PlaceLong | frontend/src/pages/Home.tsx:531-541 | placing one long task keeps a week and only moves the draw cursor forward |
| Allocation.LongTasks | frontend/src/pages/Home.tsx:528 | exactly the tasks of the registry that are not short |
| Allocation.ShortTasks | frontend/src/pages/Home.tsx:529 | exactly the short tasks of the registry |
| Allocation.TasksSplit | frontend/src/pages/Home.tsx:528-529 | every task goes to exactly one phase: the two lists together are the registry as a multiset |
| Allocation.LongTasksAppend | frontend/src/pages/Home.tsx:528 | the long filter keeps registry order: it distributes over concatenation |
| Allocation.ShortTasksAppend | frontend/src/pages/Home.tsx:529 | the short filter keeps registry order: it distributes over concatenation |
| Allocation.LongPhase | frontend/src/pages/Home.tsx:531-542 | the long-task loop keeps a week and only moves the draw cursor forward |
| Allocation.Chunk | frontend/src/pages/Home.tsx:548 | a chunk is below two hours and never more than what remains |
| Allocation.AddChunkNew | frontend/src/pages/Home.tsx:550-554 | a title missing from the day is first created with zero hours and then raised by the chunk |
| Allocation.AddChunkAbsent | frontend/src/pages/Home.tsx:550-554 | a title missing from the day is appended with the chunk's hours |
| Allocation.AddChunkPresent | frontend/src/pages/Home.tsx:554 | a title already on the day gains the chunk in place, keeping its id and flag |
| Allocation.AddChunkFind | frontend/src/pages/Home.tsx:550-554 | after adding a chunk, only that title's entry changes, as described above |
| Allocation.SpreadShort | frontend/src/pages/Home.tsx:545-556 | spreading one short task keeps a week and only moves the draw cursor forward |
| Allocation.SpreadShortStep | frontend/src/pages/Home.tsx:547-555 | one iteration draws a day, then a chunk, adds the chunk and lowers what remains |
| Allocation.ShortPhase | frontend/src/pages/Home.tsx:544-557 | the short-task loop keeps a week and only moves the draw cursor forward |
| Allocation.Distribute | frontend/src/pages/Home.tsx:499-572 | the procedure produces exactly the outcome `Allocate` defines |
| Allocation.BuildSkeleton | frontend/src/pages/Home.tsx:511-526 | the loop builds the skeleton |
| Allocation.SpreadLongTasks | frontend/src/pages/Home.tsx:531-542 | the loop over long tasks gives the long phase |
| Allocation.PlaceLongTask | frontend/src/pages/Home.tsx:532-541 | the day-picking loop for one task gives `PlaceLong` |
| Allocation.SpreadShortTasks | frontend/src/pages/Home.tsx:544-557 | the loop over short tasks gives the short phase |
| Allocation.SpreadShortTask | frontend/src/pages/Home.tsx:545-556 | the chunk loop for one task gives `SpreadShort` |
| Allocation.AddHours | frontend/src/pages/Home.tsx:550-554 | the chunk update gives `AddChunk` |
| Allocation.FlattenWeek | frontend/src/pages/Home.tsx:561-572 | the nested loops build the batch `Flatten` defines |
| AllocationFacts.EmptyColumn | frontend/src/pages/Home.tsx:511-519 | a title with no entries has no days and no hours |
| AllocationFacts.SkeletonEntries | frontend/src/pages/Home.tsx:523-526 | every day of the skeleton holds exactly Sleep and Meal with their budgets, not completed, negative ids |
| AllocationFacts.SkeletonAbsent | frontend/src/pages/Home.tsx:521-526 | no task title is in the skeleton |
| AllocationFacts.Picked | frontend/src/pages/Home.tsx:533 | the set of chosen days holds only days that were chosen |
| AllocationFacts.DistinctDaysBound | frontend/src/pages/Home.tsx:535-537 | at most seven distinct days can be chosen |
| AllocationFacts.DistinctCard | frontend/src/pages/Home.tsx:537 | distinct chosen days count as many as the list is long |
| AllocationFacts.OverSevenDaysNeverPlaced | frontend/src/pages/Home.tsx:535-541 | a long task over more than seven days is never placed: the loop cannot finish |
| AllocationFacts.PutOnDaysFind | frontend/src/pages/Home.tsx:539 | after placement the task's entry is on exactly the chosen days and every other key is unchanged |
| AllocationFacts.PutOnDaysOther | frontend/src/pages/Home.tsx:539 | placing one task leaves every other title's column unchanged |
| AllocationFacts.PutOnDaysCount | frontend/src/pages/Home.tsx:535-539 | a task placed on its chosen days occupies exactly that many days |
| AllocationFacts.UniformHours | frontend/src/pages/Home.tsx:532 | n days with the same entry total n times its hours |
| AllocationFacts.EvenShares | frontend/src/pages/Home.tsx:532 | n shares of d/n add back up to d |
| AllocationFacts.LongColumnHours | frontend/src/pages/Home.tsx:532-539 | a long task on `days` days with its per-day share totals its duration |
| AllocationFacts.PlaceLongOther | frontend/src/pages/Home.tsx:531-541 | placing one long task leaves every other title unchanged |
| AllocationFacts.PlaceLongSpreads | frontend/src/pages/Home.tsx:531-541 | a placed long task is on exactly `days` days, each with duration/days hours and its own id, and totals its duration |
| AllocationFacts.LongPhaseOther | frontend/src/pages/Home.tsx:531-542 | the long phase leaves every title other than the long tasks' titles unchanged |
| AllocationFacts.LongPhasePlaces | frontend/src/pages/Home.tsx:531-542 | after the long phase every long task is spread as above |
| AllocationFacts.LongPhaseStuck | frontend/src/pages/Home.tsx:535 | one long task over more than seven days stalls the whole phase |
| AllocationFacts.SpreadShortOther | frontend/src/pages/Home.tsx:544-556 | spreading a short task leaves every other title unchanged |
| AllocationFacts.SpreadShortHours | frontend/src/pages/Home.tsx:545-556 | spreading adds exactly the remaining hours to the task's weekly total |
| AllocationFacts.SpreadShortOwned | frontend/src/pages/Home.tsx:550-554 | every entry of the task carries its own id and is not completed |
| AllocationFacts.ShortPhaseOther | frontend/src/pages/Home.tsx:544-557 | the short phase leaves every other title unchanged |
| AllocationFacts.SpreadShortPlaces | frontend/src/pages/Home.tsx:544-557 | a spread short task's entries total its duration and carry its id |
| AllocationFacts.ShortPhasePlaces | frontend/src/pages/Home.tsx:544-557 | after the short phase every short task is placed as above |
| AllocationFacts.LongShortApart | frontend/src/pages/Home.tsx:528-529 | with distinct titles, no title is both a long task and a short task |
| AllocationFacts.PlannedWeek | frontend/src/pages/Home.tsx:499-557 | for a registry whose titles are distinct and are not "Sleep" or "Meal" (the page checks neither), a planned week has Sleep and Meal on every day, every long task spread evenly over its days and every short task's hours in full |
| AllocationFacts.OneDayPlaced | frontend/src/pages/Home.tsx:531-542 | a one-day long task uses exactly one draw and writes its whole duration, under its id and not completed, into the day that draw picks |
| AllocationFacts.SharedTitleSpreadsTwice | frontend/src/pages/Home.tsx:531-542 | two one-day long tasks with the same title and different ids, with draws 0.0 and 0.5 and room in the week, give a planned week with that title on Monday under the first task's entry and on Thursday under the second's, so the first task is not spread as its day count says |
| AllocationFacts.MoreThanSevenDays | frontend/src/pages/Home.tsx:535-541 | a registry with a long task over more than seven days is never planned |
| AllocationFacts.RowsOfDayExactly | frontend/src/pages/Home.tsx:563-570 | a day contributes exactly its non-reserved entries, with id 0 sent as null |
| AllocationFacts.FlattenUpToExactly | frontend/src/pages/Home.tsx:561-572 | the first n days contribute exactly their non-reserved entries |
| AllocationFacts.BatchExactly | frontend/src/pages/Home.tsx:561-572 | a row is in the batch exactly when some task entry of the week gives it, tagged with its day; never Sleep or Meal (count and order: `BatchLength`, `BatchInOrder`) |
| AllocationFacts.RowsOfDayInOrder | frontend/src/pages/Home.tsx:563-570 | a day's rows are its non-reserved entries one for one, in the day's order |
| AllocationFacts.FlattenUpToLength | frontend/src/pages/Home.tsx:561-572 | the first n days give one row per task slot |
| AllocationFacts.FlattenUpToAt | frontend/src/pages/Home.tsx:561-572 | slot i of day k is row TaskCount(k) + i of the first n days' rows |
| AllocationFacts.BatchLength | frontend/src/pages/Home.tsx:561-572 | the batch has exactly as many rows as the week has task slots |
| AllocationFacts.BatchInOrder | frontend/src/pages/Home.tsx:561-572 | the batch lists Monday's slots first and each day's slots in order: slot i of day k is row TaskCount(k) + i |
| Inputs.IncrementHours | frontend/src/pages/Home.tsx:396-401 | one step up (a quarter hour for short tasks, the day count otherwise), clamped at the weekly cap 168 - 7(meal + sleep) for any typed budgets |
| Inputs.DecrementHours | frontend/src/pages/Home.tsx:403-408 | one step down, clamped at zero |
| Inputs.IncrementDays | frontend/src/pages/Home.tsx:410-422 | below seven days one more day, hours rescaled, or exactly the cap of 2 or 100 when the rescaled hours reach it; at seven or more days nothing changes; a typed count of 0 gives the cap and one day when hours are positive, and no number otherwise; a count already in 1..7 stays there |
| Inputs.DecrementDays | frontend/src/pages/Home.tsx:424-433 | above one day one fewer; at one day or fewer (a typed count) nothing changes; a count already in 1..7 stays there |
| Inputs.DecrementDaysKeepsPerDay | frontend/src/pages/Home.tsx:428 | dropping a day keeps the hours per day |
| Inputs.IncrementDaysKeepsPerDay | frontend/src/pages/Home.tsx:415-416 | adding a day keeps the hours per day when the cap does not bite |
| Inputs.DecrementThenIncrementDays | frontend/src/pages/Home.tsx:410-433 | one day down and one up restores the form when the cap does not bite |
| Inputs.IncrementBudget | frontend/src/pages/Home.tsx:435-437 | one more hour of sleep or meal, from any typed budget, with no upper bound |
| Inputs.DecrementBudget | frontend/src/pages/Home.tsx:439-441 | one hour less only from a positive budget, otherwise unchanged; a budget of at least one hour stays at zero or above, while a typed fraction below one hour goes negative |
| Inputs.BudgetRoundTrip | frontend/src/pages/Home.tsx:435-449 | down then up, and up then down, restore any positive budget, fractional ones included |
| Lists.Remove | frontend/src/pages/Home.tsx:607-608 | `splice(i, 1)`: the element at i is removed and the others keep their order |
| Lists.Insert | frontend/src/pages/BookTrack.tsx:147 | `splice(i, 0, x)`: x at i, the others shifted |
| Books.SentHoldsPreviousPositions | frontend/src/pages/BookTrack.tsx:143-156 | with positional orders, each book sent by a drag carries its position before the drag, and the dragged book its old index, not the hovered one |
| Books.MovedPermutes | frontend/src/pages/BookTrack.tsx:143-147 | a move keeps the same books: same length and multiset |
| Books.MovedPlacesDragged | frontend/src/pages/BookTrack.tsx:146-147 | the dragged book lands at the hovered index and the others keep their relative order |
| Books.MovedAt | frontend/src/pages/BookTrack.tsx:146-147 | the book at each position after the move, by case |
| Books.MovedBack | frontend/src/pages/BookTrack.tsx:143-147 | moving back from the hovered index to the dragged index restores the list |
| Books.Renumbered | frontend/src/pages/BookTrack.tsx:149-154 | each book's order becomes its position, nothing else changes |
| Books.RenumberedOrders | frontend/src/pages/BookTrack.tsx:149-154 | after renumbering, order equals position, and renumbering a list already numbered that way leaves it as it is |
| Books.Shelf.constructor | frontend/src/pages/BookTrack.tsx:26 | the page starts with the given books |
| Books.Shelf.MoveBook | frontend/src/pages/BookTrack.tsx:143-157 | the server receives the moved list and the page keeps it renumbered |
| Books.Shelf.Hover | frontend/src/pages/BookTrack.tsx:184-190 | hovering over the dragged book's own index changes nothing; otherwise the move happens |
| Books.Shelf.DeleteBook | frontend/src/pages/BookTrack.tsx:97-102 | the page keeps the books whose id differs |
| Books.WithoutBook | frontend/src/pages/BookTrack.tsx:101 | the filter never lengthens the list |
| Books.WithoutBookCounts | frontend/src/pages/BookTrack.tsx:101 | every book with that id goes and every other book keeps its multiplicity |
| Books.WithoutBookAppend | frontend/src/pages/BookTrack.tsx:101 | the filter distributes over concatenation |
| Books.WithoutAbsentBook | frontend/src/pages/BookTrack.tsx:101 | deleting an absent id changes nothing |
| Books.WithoutBookAscending | frontend/src/pages/BookTrack.tsx:101 | deletion keeps ascending orders and keeps only books that were there |
| Books.Join | frontend/src/pages/BookTrack.tsx:128 | a single author joins to itself |
| Books.JoinLength | frontend/src/pages/BookTrack.tsx:128 | the joined string is as long as the names plus one separator between each pair |
| Books.FromVolume | frontend/src/pages/BookTrack.tsx:124-134 | a result keeps id and title, joins the authors or gives "Unknown", takes the thumbnail or gives "", defaults pages to 0, is being read, with no dates, and is ordered after the list |
| Books.SearchResults | frontend/src/pages/BookTrack.tsx:124-134 | one book per search item, in order |
| Books.AddResultKeepsPositions | frontend/src/pages/BookTrack.tsx:124-134 | appending a result to a list numbered by position keeps it numbered by position |
| Books.DeleteThenAddRepeatsOrder | frontend/src/pages/BookTrack.tsx:97-134 | deleting the first of three books and then adding a result gives two books the same order |
| Books.LowerAll | frontend/src/pages/BookTrack.tsx:46 | `toLowerCase` character by character |
| Books.RunLength | frontend/src/pages/BookTrack.tsx:46 | `\S*` matches up to the first whitespace |
| Books.TitleCase | frontend/src/pages/BookTrack.tsx:44-48 | title casing keeps the length |
| Books.TitleCaseIs | frontend/src/pages/BookTrack.tsx:44-48 | each character is upper-cased when it starts a match, lower-cased inside one, and kept outside |
| Books.TitleCaseKeepsSpaces | frontend/src/pages/BookTrack.tsx:46 | whitespace is never changed |
| Books.InRunShift | frontend/src/pages/BookTrack.tsx:46 | matching restarts after a character that does not continue a match |
| Books.InRunInside | frontend/src/pages/BookTrack.tsx:46 | every non-space character after a word character continues the match |
| Books.InRunOfTitleCase | frontend/src/pages/BookTrack.tsx:46 | title casing keeps the match boundaries |
| Books.TitleCaseIdempotent | frontend/src/pages/BookTrack.tsx:44-48 | title casing twice is title casing once |
| Store.IndexOfId | backend/tasks/views.py:35 | the first row with that primary key, none exactly when there is no such row |
| Store.Count | backend/tasks/views.py:115 | the number of rows for a (day, task) pair |
| Store.IndexOf | backend/tasks/views.py:115 | a row for the (day, task) pair, none exactly when the count is zero |
| Store.FlaggedOnlyFlag | backend/tasks/views.py:34-46 | 404 exactly when there is no such row; otherwise only that row's flag changes, to the requested value |
| Store.FlaggedIdempotent | backend/tasks/views.py:34-46 | marking twice is marking once |
| Store.FlaggedUndo | backend/tasks/views.py:34-46 | mark complete then incomplete restores the rows |
| Store.IndexOfIdAfterUpdate | backend/tasks/views.py:35-37 | updating a row keeps its lookup |
| Store.StorablePrefix | backend/tasks/views.py:82-92 | the items before the first one that fails are all storable |
| Store.BulkOutcome | backend/tasks/views.py:76-96 | rows are created in order up to the first failing item; an unknown task gives 400, a null task or null hours 500, and the rows created before it stay |
| Store.BulkSucceeds | backend/tasks/views.py:76-96 | the request succeeds exactly when every item is storable, and then the table holds one row per item in order |
| Store.MoveNeedsAllFields | backend/tasks/views.py:106-107 | 400 exactly when a field is missing or falsy (zero hours included); no failed move changes the rows |
| Store.MoveNotFound | backend/tasks/views.py:109-117 | 404 exactly when the task or its row on the old day is missing |
| Store.MoveToEmptyDayFails | backend/tasks/views.py:119-128 | moving to a day without a row for the task fails with 500 and changes nothing |
| Store.TaskHoursUpdate | backend/tasks/views.py:120-126 | a task's total hours after one row's hours change |
| Store.TaskHoursRemove | backend/tasks/views.py:123-124 | a task's total hours after a row is deleted |
| Store.MoveConservesHours | backend/tasks/views.py:119-128 | a move conserves the task's total hours, except that deleting an old row left at or below zero drops its (non-positive) remainder |
| Store.CountAfterUpdate | backend/tasks/views.py:120-126 | changing hours keeps the (day, task) lookups |
| Store.MovedBetween | backend/tasks/views.py:119-128 | between two existing rows, the new day gains h and the old day loses h |
| Store.UpdateBothKeepsLookups | backend/tasks/views.py:120-128 | updating both rows keeps both lookups |
| Store.RestoreTwo | backend/tasks/views.py:120-128 | writing the two old rows back restores the table |
| Store.MoveThereAndBack | backend/tasks/views.py:99-129 | moving h hours from a to b and back restores the rows when neither row empties |
| Store.MoveThere | backend/tasks/views.py:119-128 | the first move updates both rows and keeps their lookups |
| Store.MoveBack | backend/tasks/views.py:119-128 | the return move restores the original rows |
| Store.EmptyProgress | backend/tasks/views.py:133-134 | the report starts with the seven Turkish day names as keys |
| Store.ProgressUpToIs | backend/tasks/views.py:131-140 | the loop fails exactly when a row of a known task has a day outside the Turkish names; otherwise each (day, title) shows the flag of the last such row |
| Store.ProgressFails | backend/tasks/views.py:136-139 | the failure condition above |
| Store.ProgressKeys | backend/tasks/views.py:134-139 | the report's keys stay the seven day names |
| Store.ProgressHolds | backend/tasks/views.py:136-139 | each entry is the flag of the last row for that title and day |
| Store.PlannerDaysBreakProgress | backend/tasks/views.py:133-139 | a stored row with an English day name and a known task makes the endpoint fail |
| Store.ProgressStaysFailed | backend/tasks/views.py:136-139 | once the loop fails, the whole request fails |
| Store.ScheduleStore.constructor | backend/tasks/models.py:30-34 | an empty table over the task registry |
| Store.ScheduleStore.Mark | backend/tasks/views.py:34-46 | 404 and no change for an unknown row; otherwise 200 with the flag set |
| Store.ScheduleStore.CreateBulk | backend/tasks/views.py:76-96 | the table is cleared, then filled as `Bulk` describes |
| Store.ScheduleStore.MoveTask | backend/tasks/views.py:99-129 | status and rows as `Moved` describes |
| Store.ScheduleStore.WeeklyProgress | backend/tasks/views.py:131-140 | the loop gives the report `Progressed` describes |
| Store.BookIndex | backend/tasks/views.py:174 | the book with that id, none exactly when there is none |
| Store.KnownPrefix | backend/tasks/views.py:172-178 | the number of leading items whose book exists |
| Store.ReorderedOnlyOrders | backend/tasks/views.py:169-179 | reordering changes only orders |
| Store.ReorderedStops | backend/tasks/views.py:169-179 | 200 exactly when every id exists, 400 otherwise; the orders before the first unknown id stay applied |
| Store.BookIndexIds | backend/tasks/views.py:174 | a book is found exactly when its id is stored |
| Store.BookIdsAfterUpdate | backend/tasks/views.py:175-176 | changing an order keeps ids and lookups |
| Store.BookIndexAfterUpdate | backend/tasks/views.py:175-176 | changing an order keeps one lookup |
| Store.ReorderedWithCurrentOrders | backend/tasks/views.py:169-179 | sending the current orders changes nothing |
| Store.BookStore.constructor | backend/tasks/models.py:39-47 | the stored books |
| Store.BookStore.Reorder | backend/tasks/views.py:169-179 | status and books as `Reordered` describes |
| Sync.RebuildUpTo | frontend/src/pages/Home.tsx:176-197 | the partial reduce is a week |
| Sync.Rebuild | frontend/src/pages/Home.tsx:176-197 | the reduce is a week |
| Sync.LastLanding | frontend/src/pages/Home.tsx:177-186 | the last row landing under a title on a day lies within the prefix |
| Sync.LastLandingIs | frontend/src/pages/Home.tsx:177-186 | that row lands there, no later row does, and none exists exactly when no row lands |
| Sync.RebuildFind | frontend/src/pages/Home.tsx:176-197 | each title on each day shows the last row of a known task that lands there |
| Sync.RebuildLands | frontend/src/pages/Home.tsx:178-186 | a landing row overwrites the title's entry |
| Sync.RebuildSkips | frontend/src/pages/Home.tsx:177-186 | any other row leaves it |
| Sync.RebuildShowsOnlyKnownTasks | frontend/src/pages/Home.tsx:177 | every entry comes from a stored row of a known task |
| Sync.FirstTitled | frontend/src/pages/Home.tsx:87 | the first task with that title, none exactly when none has it |
| Sync.FirstRowOf | frontend/src/pages/Home.tsx:92 | the first row for the task on that day, none exactly when none exists |
| Sync.CompletionTarget | frontend/src/pages/Home.tsx:83-109 | a request is sent exactly when the chart is today's (weekday-1), a task has the clicked title and that task has a row on the day; the row is the first row of the first task with that title on that day, and the request sets the opposite of its flag |
| Sync.SundayNeverToggles | frontend/src/pages/Home.tsx:84-85 | on Sunday no click toggles anything |
| Sync.SundayChartNeverToggles | frontend/src/pages/Home.tsx:84-85 | the Sunday chart never toggles |
| Sync.FirstRowOfAfterFlag | frontend/src/pages/Home.tsx:92-108 | a flag change keeps the row lookup |
| Sync.ToggleTwiceRestores | frontend/src/pages/Home.tsx:83-109 | for rows with distinct ids, as primary keys are, two clicks on the same task restore the rows, and the second click targets the same row |
| Week.TaskSlots | frontend/src/pages/Home.tsx:125-127 | Sleep and Meal are skipped while painting tasks and building the batch |
| Projection.Titles | frontend/src/pages/Home.tsx:126 | the labels of the slots |
| Projection.Hours | frontend/src/pages/Home.tsx:127 | the values of the slots |
| Projection.RenderUpTo | frontend/src/pages/Home.tsx:118-163 | one chart per day rendered so far |
| Week.TaskSlotsSnoc | frontend/src/pages/Home.tsx:125-127 | one more slot adds itself to the tasks unless it is Sleep or Meal |
| Projection.PaintDayContents | frontend/src/pages/Home.tsx:125-134 | a day's task segments are its task titles and hours in order, one colour each |
| Projection.PaintSlotCache | frontend/src/pages/Home.tsx:128-131 | painting keeps every cached colour and caches the painted title |
| Projection.KeepsTransitive | frontend/src/pages/Home.tsx:129-131 | cache growth composes |
| Projection.PaintDayCache | frontend/src/pages/Home.tsx:125-134 | after a day every task title is cached and old colours stay |
| Projection.PaintDayColors | frontend/src/pages/Home.tsx:128 | a completed task is green; otherwise a cached title shows its cached colour |
| Projection.FreshTitleTwoColors | frontend/src/pages/Home.tsx:128-131 | a new title is shown in one palette colour and cached under the next, a different one |
| Projection.RenderPrefix | frontend/src/pages/Home.tsx:118 | later days do not change earlier charts |
| Projection.DayChartIs | frontend/src/pages/Home.tsx:118-163 | day k's chart is its painted tasks closed with Sleep, Meal and Free Time |
| Projection.RenderKeeps | frontend/src/pages/Home.tsx:129-131 | rendering keeps every cached colour |
| Projection.RenderKeepsFrom | frontend/src/pages/Home.tsx:129-131 | the rest of the week keeps the colours cached so far |
| Projection.ChartContents | frontend/src/pages/Home.tsx:118-163 | each chart shows its task titles and hours, then Sleep and Meal, then Free Time bringing it to 24 hours when the day is not full |
| Projection.CloseDayContents | frontend/src/pages/Home.tsx:136-149 | the closing segments with their colours, as above |
| Projection.ChartColors | frontend/src/pages/Home.tsx:125-134 | each task segment's colour follows the cache rule, and the title ends up cached |
| Projection.PaintNoTasks | frontend/src/pages/Home.tsx:125-134 | a day without tasks paints nothing |
| Projection.PaintFirstTask | frontend/src/pages/Home.tsx:125-134 | the first segment's colour is the one the first slot is painted with |
| Projection.PaintNewFirstTask | frontend/src/pages/Home.tsx:128-131 | a new first task shows the cursor's colour and caches the next |
| Projection.FirstRender | frontend/src/pages/Home.tsx:111-165 | on the first render a new Monday task shows Palette[0] and is cached as Palette[1] |
| Projection.RerenderChangesColor | frontend/src/pages/Home.tsx:111-165 | rendering the same week again shows that task in Palette[1]: its colour changes between renders |
| Projection.IndexOfLabel | frontend/src/pages/Home.tsx:602 | the first index of a label, -1 exactly when it is absent |
| Projection.Lowered | frontend/src/pages/Home.tsx:604-611 | lowering a segment keeps the chart aligned |
| Projection.Raised | frontend/src/pages/Home.tsx:613-619 | raising a segment keeps the chart aligned |
| Projection.MovedChart | frontend/src/pages/Home.tsx:593-620 | an unknown task or a missing day changes nothing; only the two days' charts change; all stay aligned; both indexes are taken before the old day is lowered |
| Projection.LowerRaiseSameIndex | frontend/src/pages/Home.tsx:601-614 | on one day, lowering then raising at the index taken first appends a missing segment, restores a segment that stays above zero, and otherwise removes it and adds h to the next one |
| Projection.SameDayMove | frontend/src/pages/Home.tsx:597-620 | a move within one day appends a missing segment, gives a segment that stays above zero its hours back, and otherwise removes the segment and adds h to the one that slides into its place |
| Projection.SumUpdate | frontend/src/pages/Home.tsx:144-149 | a day's total after one value changes |
| Projection.SumRemove | frontend/src/pages/Home.tsx:604-608 | a day's total after a segment is removed |
| Projection.LoweredSum | frontend/src/pages/Home.tsx:604-611 | the old day loses h, or the whole segment when it empties |
| Projection.RaisedSum | frontend/src/pages/Home.tsx:613-619 | the new day gains h |
| Projection.MovedTotals | frontend/src/pages/Home.tsx:593-620 | the new day's total rises by h and the old day's falls by h or by the removed segment |
| Projection.IndexOfLabelAppend | frontend/src/pages/Home.tsx:613-619 | an appended label is found at the end |
| Projection.LowerThenRaise | frontend/src/pages/Home.tsx:604-619 | lowering and raising a segment that does not empty restores it |
| Projection.RaiseThenLower | frontend/src/pages/Home.tsx:604-619 | raising and then lowering restores the chart |
| Projection.MoveThereAndBack | frontend/src/pages/Home.tsx:593-620 | moving h hours and back restores the charts when the old segment does not empty |
| Projection.MoveBackChart | frontend/src/pages/Home.tsx:593-620 | the return move undoes both day edits |
| Projection.Planner.constructor | frontend/src/pages/Home.tsx:54-74 | no colours cached and no charts yet |
| Projection.Planner.GenerateChartData | frontend/src/pages/Home.tsx:111-165 | the loop produces the charts and the cache `Charts` defines from the cache as it stood |
| Projection.Planner.PaintTasks | frontend/src/pages/Home.tsx:125-134 | the inner loop paints one day as `PaintDay` does |
| Projection.Planner.FetchSchedule | frontend/src/pages/Home.tsx:168-200 | the rows are rebuilt into a week and rendered, and the charts stay aligned |
| Projection.Planner.MoveTask | frontend/src/pages/Home.tsx:593-620 | the charts become `MovedChart` of the old ones |
| Stopwatch.Digit | frontend/src/components/StopWatch.jsx:51 | the digit character of 0..9 |
| Stopwatch.Decimal | frontend/src/components/StopWatch.jsx:51-54 | the decimal string ends with the last two digits |
| Stopwatch.LastTwo | frontend/src/components/StopWatch.jsx:51-54 | `slice(-2)` keeps the last two characters |
| Stopwatch.PadDigits | frontend/src/components/StopWatch.jsx:51-54 | padding then slicing gives the tens and units digits |
| Stopwatch.PadValue | frontend/src/components/StopWatch.jsx:51-54 | the two digits read back as the value mod 100 |
| Stopwatch.FormatTime | frontend/src/components/StopWatch.jsx:50-56 | eight characters "hh:mm:ss" |
| Stopwatch.FormatTimeDigits | frontend/src/components/StopWatch.jsx:50-56 | every other position is a digit |
| Stopwatch.FormatTimeFields | frontend/src/components/StopWatch.jsx:50-56 | the fields read back as seconds mod 60, minutes mod 60 and hours mod 100 |
| Stopwatch.FormatTimeReadBack | frontend/src/components/StopWatch.jsx:50-56 | below 100 hours the display reads back as the elapsed seconds |
| Stopwatch.FormatTimeWraps | frontend/src/components/StopWatch.jsx:54 | at 100 hours the display wraps to 00 |
| Stopwatch.Stopwatch.constructor | frontend/src/components/StopWatch.jsx:4-5 | starts at zero, stopped |
| Stopwatch.Stopwatch.Display | frontend/src/components/StopWatch.jsx:50-56 | the display is eight characters |
| Stopwatch.Stopwatch.Tick | frontend/src/components/StopWatch.jsx:9-17 | a tick adds a second only while running |
| Stopwatch.Stopwatch.StartStop | frontend/src/components/StopWatch.jsx:41-43 | toggles running and keeps the time |
| Stopwatch.Stopwatch.Reset | frontend/src/components/StopWatch.jsx:45-48 | back to zero, stopped |

## Left out

- Network and persistence I/O: every `fetch`, the HTTP layer and the database driver. The store is a sequence of rows, and the client's requests and the server's replies are parameters and return values.
- Concurrency between the page and the server, React's batching of state updates, and effects.
- Floating point: hours are exact reals. Rounding in `hours / days`, in repeated chunk additions and in `prevHours * newDays / prevDays` is not modelled.
- Clocks: `new Date().getDay()` is the `weekday` parameter of `Sync.CompletionTarget`, and the stopwatch's one-second interval is a call of `Tick`.
- `Math.random()` is a finite sequence of draws. `Allocation.Allocate`: where the page would loop forever (a long task over more than seven days, or draws that never use up a short task's hours), the model reports OutOfDraws when the draws run out.
- Sending the batch to `create_bulk` and then rendering the chart at the end of `distributeTasks` are left to the caller. `Allocation.Distribute` returns the batch and the week.
- Modals, notes, the progress page, error banners, the minimise-on-hover behaviour of the stopwatch and the document title.
- `fetchTasks`, adding and deleting tasks, book status and date edits, and `BookViewSet.update`.
- The first, shadowed definition of `create_bulk` (backend/tasks/views.py:48-68) is never reachable. Only the second is modelled.
- AllocationFacts.PlannedWeek: requires distinct titles and no task titled "Sleep" or "Meal". `handleSubmit` (frontend/src/pages/Home.tsx:451-462) rejects only a blank title. With a shared title the tasks' entries are merged by title (`AllocationFacts.SharedTitleSpreadsTwice`). A task titled "Sleep" or "Meal" overwrites the reserved entry on its days and is then left out of the batch. The reserved-title case is stated here from the definitions of `Put` and `Flatten`, not proved.
- Store.Reordered: a payload item without an `id` or `order` key (KeyError) or with a null `order` makes `reorder` answer 500 after saving the items before it. `OrderItem` always carries both as integers, so these cases are not modelled.
- Store.ScheduleStore.CreateBulk: an item missing the `day` or `hours` key, which raises KeyError and returns 500, is folded into the null-hours case. An explicit `"completed": null` is not modelled.
- Week.Put: JavaScript enumerates integer-like keys first in ascending order. The model keeps insertion order for every title.
- Week.Put: a day, the rebuilt week and the colour cache are plain JavaScript objects. A title naming an inherited `Object.prototype` member ("toString", "constructor", "valueOf", "hasOwnProperty", "__proto__" and the like) is modelled as an ordinary key. On the page, assigning the key "__proto__" replaces the object's prototype instead of adding an entry (frontend/src/pages/Home.tsx:539 and 182), so that title never shows up in `Object.entries`.
- Allocation.AddChunkNew: for a short task whose title names an inherited `Object.prototype` member, `!newSchedule[day][title]` (frontend/src/pages/Home.tsx:550) reads the inherited member, which is truthy. The page therefore creates no entry of its own, and the `+=` at Home.tsx:554 writes onto the shared inherited member. Such a task is missing from the page's week, batch and chart. The model appends its entry like any other title.
- Allocation.PutOnDays: a long task titled "__proto__" sets each chosen day's prototype on the page (frontend/src/pages/Home.tsx:539) and is missing from its week and batch. The model writes it as an entry.
- AllocationFacts.PlannedWeek: the lemma also holds for titles naming `Object.prototype` members, which the page drops: a short task with such a title, or any task titled "__proto__", is not in the page's week or batch (see the `Allocation.AddChunkNew` and `Allocation.PutOnDays` lines). The lemma describes the model's week, not the page's, for those titles.
- Sync.Rebuild: a row of a task titled "__proto__" sets the day's prototype on the page (frontend/src/pages/Home.tsx:182) and shows no entry. The model shows the entry.
- Projection.ChartColors: for a title naming an inherited `Object.prototype` member, `taskColors[taskName]` (frontend/src/pages/Home.tsx:129-131) is the inherited member, which is truthy. The page shows that member as the colour and never caches the title. `colorIndex` does not advance, so every later new title gets a different colour than the model gives it. The model treats the title as uncached: it paints a palette colour, caches the title and advances the cursor. `Projection.Cached` and `Projection.Planner.GenerateChartData` share this gap.
- Projection.MovedChart: the colour of an appended segment, `taskColorsRef.current[task.title] || '#36A2EB'` (frontend/src/pages/Home.tsx:618), is, on the page, the inherited member for a title naming an `Object.prototype` member. The model, here and in `Projection.Planner.MoveTask`, uses '#36A2EB' unless the title is cached.
- Store.ProgressHolds: `WeeklySchedule.objects.all()` (backend/tasks/views.py:135) has no `order_by`, and `WeeklySchedule` (backend/tasks/models.py:30-37) declares no `Meta.ordering`. The database chooses the row order. The model assumes rows come back in the order of its sequence. The "last row wins" result depends on that.
- Sync.RebuildFind: the schedule list that `fetchSchedule` reads (frontend/src/pages/Home.tsx:170) is also unordered on the server. The "last landing row" depends on the same row-order assumption.
- Sync.FirstRowOf: the "first row" that `handleTaskComplete` picks (frontend/src/pages/Home.tsx:90-92, from the same unordered list endpoint) depends on the same row-order assumption.
- Store.ProgressUpToIs: the report is a map, so the JSON key order of each day is not modelled.
- Books.TitleCase: only ASCII letters change case, and `\w` is the ASCII word class. Unicode case mapping is not modelled.
- Projection.MovedChart: requires `MoveDefined`, which excludes one case: a move within one day whose segment drops to zero and was the last segment of the chart. The page then writes NaN one place past the end of the data, so the data becomes one longer than the labels; reals have no NaN. Projection.Planner.MoveTask has the same requirement.
- Projection.Planner.MoveTask: the Free Time segment is not recomputed after a move, matching the page.
- Inputs.IncrementDays: at a typed count of 0 with hours of 0 or less the page computes NaN or -Infinity hours; the model returns None there and does not follow the form further.
- Typed day counts are integers (`Inputs.Form.days`). A fractional count typed into the field, such as 2.5, is not modelled.
- Stopwatch.Stopwatch.Tick: models one firing of the interval. Timer setup and teardown are not modelled.
