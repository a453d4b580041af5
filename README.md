# Task list filter and sort, in Dafny

The home page of this to-do list web app shows a list of tasks. The user
narrows the list with three selectors (category, priority, status) and a
free-text search box, and orders it by creation date with a fourth
selector. The page computes the displayed list as a memoised value,
`filteredAndSortedTasks`:

- the task list is filtered by a callback that rejects a task when an
  active selector (one not set to `"all"`) disagrees with it, or when the
  search text is not blank after trimming and the lower-cased search text
  occurs neither in the lower-cased title nor in the lower-cased
  description;
- a copy of the filtered list is sorted with a comparator on
  `createdAt.getTime()`: descending when the sort option is `"latest"`,
  ascending for any other value.

This project models that pipeline as pure functions over sequences of
task records, and proves what it returns.

Modules:

- `Text`: the string operations the filter uses: `trim`, `toLowerCase` and
  `includes`.
- `Tasks`: the task record `TaskItemType` and its status and priority
  domains, with the strings they compare as.
- `FilterOptions`: the entries the selectors offer.
- `TaskSort`: the `createdAt` comparator and a stable sort with it. It
  proves permutation, sortedness, stability, and that the stable sort is
  unique.
- `Page`: the filter callback, the filter, and `FilteredAndSortedTasks`,
  with the properties the page relies on.

Stability is stated without positions. For every timestamp `k`, the tasks
created at `k` appear in the output in the same order as in the input.
This is `CreatedAt(r, k)`, the subsequence of `r` created at `k`. This
form stays exact when the list holds equal records twice.
`StableSortIsUnique` shows that only one sequence is a sorted, stable
permutation of the filtered list. So the insertion sort used here gives
the same list as any stable `Array.prototype.sort` (ECMA-262, 10th
edition, section 22.1.3.27) called with this comparator.

Two behaviours of the code deserve a note:

- Trimming only decides whether the search applies
  (`src/app/page.tsx:32`); the match uses the untrimmed lower-cased query
  (`src/app/page.tsx:33`), so the query `"tax "` does not find a task
  titled `"Pay tax"` (`UntrimmedQueryMatch`).
- The record type's status strings `inProgress`, `notStarted` and `done`
  (`src/types/tasks.ts:1`) and the selector's `completed`, `in-progress`
  and `not_started` (`src/constants/filters.ts:16-21`) never agree, so
  choosing any status from the selector empties the list
  (`OfferedStatusFilterEmptiesList`).

## Model

| member | source | states |
|---|---|---|
| `Text.IsWhiteSpace` | src/app/page.tsx:32 | the characters `trim` removes; no contract of its own, its role is stated by `Text.Trim` and `Text.LowerKeepsBlankness` |
| `Text.TrimStart` | src/app/page.tsx:32 | the result is a suffix of the input; everything dropped is white space; it does not start with white space |
| `Text.TrimEnd` | src/app/page.tsx:32 | the result is a prefix of the input; everything dropped is white space; it does not end with white space |
| `Text.Trim` | src/app/page.tsx:32 | the result is a slice of the input with only white space before and after it, with no white space at either end; it is empty exactly when the input is all white space |
| `Text.LowerChar` | src/app/page.tsx:33-35 | the case map of `toLowerCase` on one character; no contract of its own, `Text.Lower` states that it is applied to each character |
| `Text.Lower` | src/app/page.tsx:33-35 | the result has the input's length and lower-cases each character |
| `Text.LowerKeepsBlankness` | src/app/page.tsx:32-33 | a string is all white space exactly when its lower-cased form is |
| `Text.Contains` | src/app/page.tsx:34-35 | `includes` is true exactly when the needle occurs at some position of the haystack |
| `Tasks.StatusName` | src/types/tasks.ts:1 | the string a status compares as; no contract of its own, `Tasks.StatusNameInjective` states that distinct statuses have distinct strings |
| `Tasks.PriorityName` | src/types/tasks.ts:9 | the string a priority compares as; no contract of its own, `Tasks.PriorityNameInjective` states that distinct priorities have distinct strings |
| `Tasks.StatusNameInjective` | src/types/tasks.ts:1 | two statuses have the same string exactly when they are the same status |
| `Tasks.PriorityNameInjective` | src/types/tasks.ts:9 | two priorities have the same string exactly when they are the same priority |
| `FilterOptions.StatusOptionsNameNoStatus` | src/constants/filters.ts:16-21 | no status value the selector offers, other than `"all"`, is the string of any task status |
| `FilterOptions.PriorityOptionsMatchPriorities` | src/constants/filters.ts:9-14 | the priority selector offers exactly `"all"` and the strings of the three priorities |
| `TaskSort.DirectionOf` | src/app/page.tsx:46 | the comparator's test of the sort option against `"latest"`; no contract of its own, `TaskSort.SortedMeans` and `Page.FilteredAndSortedTasks` state the order each direction gives |
| `TaskSort.Comparator` | src/app/page.tsx:45-50 | the `createdAt` comparator; no contract of its own, `TaskSort.SortedMeans` states that sorting by it orders by `createdAt` in its direction |
| `TaskSort.SortedMeans` | src/app/page.tsx:46-49 | being sorted by the comparator means most recent first for the `"latest"` direction and oldest first for the other |
| `TaskSort.CreatedAtMembers` | src/app/page.tsx:45-50 | the tasks with a given timestamp are exactly the members of the list created at that time |
| `TaskSort.Insert` | src/app/page.tsx:45-50 | inserting adds exactly one occurrence of the task |
| `TaskSort.InsertSorted` | src/app/page.tsx:45-50 | inserting into a sorted list keeps it sorted |
| `TaskSort.InsertInFront` | src/app/page.tsx:45-50 | a task that may precede the first task goes in front of it |
| `TaskSort.InsertPastHead` | src/app/page.tsx:45-50 | a task that the first task must precede goes after it |
| `TaskSort.SortTwo` | src/app/page.tsx:45-50 | two tasks in the wrong order for the comparator are swapped |
| `TaskSort.Sort` | src/app/page.tsx:45 | the sorted list is a permutation of its input |
| `TaskSort.SortSorted` | src/app/page.tsx:45-50 | every pair of tasks in the sorted list is in comparator order |
| `TaskSort.SortCons` | src/app/page.tsx:45-50 | sorting a list inserts its first task into the sorted rest |
| `TaskSort.CreatedAtConcat` | src/app/page.tsx:45 | the tasks of a concatenation created at a given time are those of the first part, then those of the second |
| `TaskSort.CreatedAtCons` | src/app/page.tsx:45 | the same fact for a list that starts with one given task |
| `TaskSort.InsertTies` | src/app/page.tsx:45-50 | an inserted task comes before every task that has its timestamp |
| `TaskSort.InsertTiesPastHead` | src/app/page.tsx:45-50 | the same fact when the inserted task goes past a first task with a different timestamp |
| `TaskSort.SortKeepsTies` | src/app/page.tsx:45 | the sort is stable: tasks with equal timestamps keep the order they had before sorting |
| `TaskSort.FirstTimestampsAgree` | src/app/page.tsx:45-50 | two sorted lists with the same ties start at the same timestamp |
| `TaskSort.TailsTie` | src/app/page.tsx:45 | two lists with the same ties and the same first task still have the same ties after that task |
| `TaskSort.SortedTiesDetermine` | src/app/page.tsx:45-50 | two lists that are both sorted and have the same ties are equal |
| `TaskSort.StableSortIsUnique` | src/app/page.tsx:45-50 | a list is a sorted, stable permutation of the input if and only if it is the sort's result, so every stable sort with this comparator returns the same list |
| `Page.MatchesSearch` | src/app/page.tsx:32-40 | the search clause of the callback; no contract of its own, `Page.SearchIgnoresQueryCase`, `Page.SearchIgnoresTaskCase` and `Page.UntrimmedQueryMatch` state its meaning |
| `Page.Keep` | src/app/page.tsx:19-43 | the `filter` callback; no contract of its own, `Page.OutputMembership` and `Page.KeepsExactlyCategory` state which tasks it accepts |
| `Page.FilterTasks` | src/app/page.tsx:19-43 | the filtered list is never longer than the task list |
| `Page.FilterCounts` | src/app/page.tsx:19-43 | each task that passes the callback appears in the filtered list as often as in the input; a task that fails does not appear |
| `Page.FilterCons` | src/app/page.tsx:19-43 | filtering decides about the first task, then filters the rest |
| `Page.FilterConcat` | src/app/page.tsx:19-43 | filtering a concatenation is the concatenation of the filtered parts |
| `Page.FilterKeepsTies` | src/app/page.tsx:19 | filtering keeps input order: among tasks with the same timestamp, the passing ones are filtered in the order they had |
| `Page.FilterAllPass` | src/app/page.tsx:19-43 | when every task passes, the filtered list is the input itself |
| `Page.FilteredAndSortedTasks` | src/app/page.tsx:17-57 | the output holds every passing task as often as the input does, and no failing task; it is most recent first for `"latest"` and oldest first otherwise; tasks created at the same time appear in their input order |
| `Page.SortedFilterKeepsTies` | src/app/page.tsx:19-50 | for each timestamp, the sorted filtered list holds the passing tasks created at that time, in their input order |
| `Page.OutputMembership` | src/app/page.tsx:20-40 | a task is in the output if and only if it is in the input and matches each active criterion: the category, priority and status are equal to it, and if the query is not blank, the lower-cased query occurs in the lower-cased title or description |
| `Page.OutputWithinInput` | src/app/page.tsx:19-45 | the output never has more copies of a task than the input, and is never longer than the input |
| `Page.NoActiveFilter` | src/app/page.tsx:19-45 | with every selector on `"all"` and a blank query, the output is the whole input sorted: a permutation of it, and empty for an empty input |
| `Page.InitialShowsAllLatestFirst` | src/app/page.tsx:11-50 | with the criteria the page starts with, the output is every task, most recent first |
| `Page.OfferedStatusFilterEmptiesList` | src/app/page.tsx:28-30 | choosing any status from the selector other than `"all"` empties the list, for every task list and every other criterion |
| `Page.SearchIgnoresQueryCase` | src/app/page.tsx:32-39 | two queries with the same lower-cased form keep the same tasks |
| `Page.SearchIgnoresTaskCase` | src/app/page.tsx:33-35 | two tasks whose titles and descriptions agree when lower-cased match the same queries |
| `Page.OldestFirstExample` | src/app/page.tsx:45-50 | tasks created on days 1, 3 and 2 come out as days 1, 2, 3 under `"oldest"` |
| `Page.SortThreeOldestFirst` | src/app/page.tsx:45-50 | the sort alone puts days 1, 3, 2 into the order days 1, 2, 3 |
| `Page.WorkCategoryExample` | src/app/page.tsx:20-50 | with the category set to `"work"`, a personal task and two work tasks give the two work tasks, newer first |
| `Page.WorkFilter` | src/app/page.tsx:20-22 | the `"work"` category filter keeps the two work tasks and drops the personal one |
| `Page.KeepsExactlyCategory` | src/app/page.tsx:20-42 | when only the category filter is active and the query is blank (white space only included), a task passes exactly when its category is the chosen one |
| `Page.UntrimmedQueryMatch` | src/app/page.tsx:32-35 | the query `"tax "` does not match a task titled `"Pay tax"`, although its trimmed form occurs in the title |
| `Page.PayTaxOccurrences` | src/app/page.tsx:33-35 | `"tax"` occurs in `"pay tax"`, `"tax "` does not, and `"tax "` is already lower case |
| `Page.LowerPayTax` | src/app/page.tsx:34 | `"Pay tax"` lower-cases to `"pay tax"` |
| `Page.TrimTaxSpace` | src/app/page.tsx:32 | `"tax "` trims to `"tax"` |

## Left out

- React state and rendering are not modelled. This covers `useState`, the
  `useMemo` dependency list, `Suspense`, and the JSX of
  `src/app/page.tsx:10-16` and `59-93`. The five state values become the
  parameters of `FilteredAndSortedTasks`.
- Memoisation is not modelled as a separate property. A Dafny function
  always returns the same value for the same arguments, so identical task
  lists and criteria give identical output by construction.
- Not changing the input holds by construction. Sequences are values, so
  neither the filter nor the sort on a copy can reorder the caller's list.
  No lemma states it.
- The `try`/`catch` that logs and returns `[]` is not modelled. A typed
  record has every field, so no field access can throw. The model has no
  path that returns the fallback.
- `console.error` is I/O and is left out.
- The mock `taskList` is not part of this model. The task list is a
  parameter.
- `Text.Lower` maps only the ASCII letters A to Z. The full Unicode case
  mapping of `toLowerCase` is not modelled. Persian letters have no case
  mapping, so on Persian text `Text.Lower` already agrees
  with `toLowerCase`.
- `Text.IsWhiteSpace` uses the white-space and line-terminator set of
  ES2019, with the Zs category as of Unicode 12. Later Unicode versions
  may add characters.
- Strings are sequences of Unicode scalar values, not UTF-16 code units.
  `includes` on well-formed text finds the same matches either way.
- Dates are modelled as their `getTime()` milliseconds, an `int`. An
  invalid `Date` (`NaN`) is not modelled. The difference of two valid
  timestamps can exceed 2^53 and then is rounded in double precision, but
  subtracting two finite doubles gives zero only when they are equal and
  never flips the sign of the exact difference. The sort reads only the
  sign, so the comparator orders tasks as modelled.
- `Page.FilterTasks`: its own contract gives only the length bound. What
  it keeps is stated by `Page.FilterCounts`, `Page.FilterKeepsTies` and
  `Page.FilterAllPass`.
- `TaskItemProps` is a copy of `TaskItemType` and gets no model of its
  own.
- No other component is modelled (filters, search, overview, task list,
  layout, error boundary, the older `page.js`). They hold presentation and
  event wiring only.
