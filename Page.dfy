/**
 * The home page's `filteredAndSortedTasks`: the task list filtered by the
 * selected category, priority, status and search text, then sorted by
 * creation time on a copy.
 */
module Page {
  import opened Text
  import opened Tasks
  import opened TaskSort
  import FilterOptions

  /** The five pieces of page state the memoised list depends on. */
  datatype Criteria = Criteria(
    categoryFilter: string,
    priorityFilter: string,
    statusFilter: string,
    searchText: string,
    sortOption: string)

  /** The state the page starts with. */
  const Initial := Criteria("all", "all", "all", "", "latest")

  /** The search clause: a query that is blank once trimmed imposes nothing;
      otherwise the lower-cased query, untrimmed, must occur in the lower-cased
      title or the lower-cased description. */
  predicate MatchesSearch(t: Task, searchText: string) {
    Trim(searchText) == ""
    || Contains(Lower(t.title), Lower(searchText))
    || Contains(Lower(t.description), Lower(searchText))
  }

  /** The `filter` callback: true when no active criterion rejects the task. */
  predicate Keep(t: Task, c: Criteria) {
    && (c.categoryFilter == "all" || t.category == c.categoryFilter)
    && (c.priorityFilter == "all" || PriorityName(t.priority) == c.priorityFilter)
    && (c.statusFilter == "all" || StatusName(t.status) == c.statusFilter)
    && MatchesSearch(t, c.searchText)
  }

  /** `tasks.filter(...)`: a new sequence of the passing tasks, in input order. */
  function FilterTasks(tasks: seq<Task>, c: Criteria): (r: seq<Task>)
    ensures |r| <= |tasks|
  {
    if tasks == [] then []
    else (if Keep(tasks[0], c) then [tasks[0]] else []) + FilterTasks(tasks[1..], c)
  }

  /** The filtered list holds every task that passes, each as often as in
      `tasks`, and none that fails. */
  lemma {:induction false} FilterCounts(tasks: seq<Task>, c: Criteria)
    ensures forall t :: multiset(FilterTasks(tasks, c))[t] == if Keep(t, c) then multiset(tasks)[t] else 0
  {
    if tasks != [] {
      FilterCounts(tasks[1..], c);
      assert tasks == [tasks[0]] + tasks[1..];
    }
  }

  /** `filter` decides on the first task and goes on with the rest. */
  lemma FilterCons(x: Task, s: seq<Task>, c: Criteria)
    ensures FilterTasks([x] + s, c) == (if Keep(x, c) then [x] else []) + FilterTasks(s, c)
  {
    assert ([x] + s)[0] == x && ([x] + s)[1..] == s;
  }

  /** Filtering a concatenation filters each part. */
  lemma {:induction false} FilterConcat(a: seq<Task>, b: seq<Task>, c: Criteria)
    ensures FilterTasks(a + b, c) == FilterTasks(a, c) + FilterTasks(b, c)
  {
    if a == [] {
      assert a + b == b;
    } else {
      var h := if Keep(a[0], c) then [a[0]] else [];
      var x, y := FilterTasks(a[1..], c), FilterTasks(b, c);
      assert (a + b)[0] == a[0];
      assert (a + b)[1..] == a[1..] + b;
      FilterConcat(a[1..], b, c);
      assert FilterTasks(a + b, c) == h + (x + y);
      assert h + (x + y) == (h + x) + y;
    }
  }

  /** Filtering keeps the input order: the passing tasks created at `k`
      come out in the order they had among all tasks created at `k`. */
  lemma {:induction false} FilterKeepsTies(tasks: seq<Task>, c: Criteria, k: int)
    ensures CreatedAt(FilterTasks(tasks, c), k) == FilterTasks(CreatedAt(tasks, k), c)
  {
    if tasks != [] {
      var x, rest := tasks[0], tasks[1..];
      var h := if Keep(x, c) then [x] else [];
      var g := if x.createdAt == k then [x] else [];
      assert FilterTasks(tasks, c) == h + FilterTasks(rest, c);
      assert CreatedAt(tasks, k) == g + CreatedAt(rest, k);
      FilterKeepsTies(rest, c, k);
      CreatedAtConcat(h, FilterTasks(rest, c), k);
      FilterConcat(g, CreatedAt(rest, k), c);
      assert CreatedAt(h, k) == FilterTasks(g, c);
    }
  }

  /** A filter that every task passes returns its input unchanged. */
  lemma {:induction false} FilterAllPass(tasks: seq<Task>, c: Criteria)
    requires forall t :: t in tasks ==> Keep(t, c)
    ensures FilterTasks(tasks, c) == tasks
  {
    if tasks != [] {
      FilterAllPass(tasks[1..], c);
      assert tasks == [tasks[0]] + tasks[1..];
    }
  }

  /** `filteredAndSortedTasks`: the passing tasks, each as often as in the
      input; most recent first for "latest", oldest first otherwise; and
      tasks created at the same time in their input order. */
  function FilteredAndSortedTasks(tasks: seq<Task>, c: Criteria): (r: seq<Task>)
    ensures forall t :: multiset(r)[t] == if Keep(t, c) then multiset(tasks)[t] else 0
    ensures c.sortOption == "latest" ==> NonIncreasing(r)
    ensures c.sortOption != "latest" ==> NonDecreasing(r)
    ensures forall k :: CreatedAt(r, k) == FilterTasks(CreatedAt(tasks, k), c)
  {
    var filtered := FilterTasks(tasks, c);
    FilterCounts(tasks, c);
    var dir := DirectionOf(c.sortOption);
    var sorted := Sort(filtered, dir);
    SortSorted(filtered, dir);
    SortedMeans(sorted, dir);
    SortedFilterKeepsTies(tasks, c);
    sorted
  }

  /** Sorting the filtered list keeps, for every timestamp, the input order of
      the passing tasks created then. */
  lemma SortedFilterKeepsTies(tasks: seq<Task>, c: Criteria)
    ensures var r := Sort(FilterTasks(tasks, c), DirectionOf(c.sortOption));
            forall k :: CreatedAt(r, k) == FilterTasks(CreatedAt(tasks, k), c)
  {
    var filtered := FilterTasks(tasks, c);
    SortKeepsTies(filtered, DirectionOf(c.sortOption));
    forall k ensures CreatedAt(Sort(filtered, DirectionOf(c.sortOption)), k) == FilterTasks(CreatedAt(tasks, k), c) {
      FilterKeepsTies(tasks, c, k);
    }
  }

  /** A task is in the output exactly when it is in the input and meets every
      active criterion. */
  lemma OutputMembership(tasks: seq<Task>, c: Criteria, t: Task)
    ensures t in FilteredAndSortedTasks(tasks, c) <==>
      && t in tasks
      && (c.categoryFilter != "all" ==> t.category == c.categoryFilter)
      && (c.priorityFilter != "all" ==> PriorityName(t.priority) == c.priorityFilter)
      && (c.statusFilter != "all" ==> StatusName(t.status) == c.statusFilter)
      && (!AllWhiteSpace(c.searchText) ==>
            Contains(Lower(t.title), Lower(c.searchText))
            || Contains(Lower(t.description), Lower(c.searchText)))
  {
    var r := FilteredAndSortedTasks(tasks, c);
    assert t in r <==> multiset(r)[t] > 0;
    assert t in tasks <==> multiset(tasks)[t] > 0;
  }

  /** The output never holds more of a task than the input does, so it is
      never longer than the input. */
  lemma OutputWithinInput(tasks: seq<Task>, c: Criteria)
    ensures multiset(FilteredAndSortedTasks(tasks, c)) <= multiset(tasks)
    ensures |FilteredAndSortedTasks(tasks, c)| <= |tasks|
  {
    var r := FilteredAndSortedTasks(tasks, c);
    assert forall t :: multiset(r)[t] <= multiset(tasks)[t];
    assert |r| == |FilterTasks(tasks, c)| by {
      assert |multiset(r)| == |multiset(FilterTasks(tasks, c))|;
    }
  }

  /** With every filter at "all" and a blank query, the output is the whole
      input, sorted: a permutation of it, and the empty list for an empty input. */
  lemma NoActiveFilter(tasks: seq<Task>, c: Criteria)
    requires c.categoryFilter == "all" && c.priorityFilter == "all" && c.statusFilter == "all"
    requires AllWhiteSpace(c.searchText)
    ensures FilteredAndSortedTasks(tasks, c) == Sort(tasks, DirectionOf(c.sortOption))
    ensures multiset(FilteredAndSortedTasks(tasks, c)) == multiset(tasks)
    ensures tasks == [] ==> FilteredAndSortedTasks(tasks, c) == []
  {
    FilterAllPass(tasks, c);
  }

  /** In the page's initial state the list shows every task, most recent first. */
  lemma InitialShowsAllLatestFirst(tasks: seq<Task>)
    ensures multiset(FilteredAndSortedTasks(tasks, Initial)) == multiset(tasks)
    ensures NonIncreasing(FilteredAndSortedTasks(tasks, Initial))
  {
    NoActiveFilter(tasks, Initial);
  }

  /** Choosing any status the status selector offers, other than "all",
      empties the list, whatever the tasks and the other criteria: those
      values are not the names of any `Status`. */
  lemma OfferedStatusFilterEmptiesList(tasks: seq<Task>, c: Criteria, item: FilterOptions.SelectItem)
    requires item in FilterOptions.Statuses && item.value != "all"
    requires c.statusFilter == item.value
    ensures FilteredAndSortedTasks(tasks, c) == []
  {
    var r := FilteredAndSortedTasks(tasks, c);
    forall t ensures !Keep(t, c) {
      FilterOptions.StatusOptionsNameNoStatus(item, t.status);
    }
    assert multiset(r) == multiset{};
  }

  /** The search is blind to the case of the query: two queries with the same
      lower-cased form keep the same tasks. */
  lemma SearchIgnoresQueryCase(t: Task, q1: string, q2: string)
    requires Lower(q1) == Lower(q2)
    ensures MatchesSearch(t, q1) <==> MatchesSearch(t, q2)
  {
    LowerKeepsBlankness(q1);
    LowerKeepsBlankness(q2);
  }

  /** The search is blind to the case of the title and description too. */
  lemma SearchIgnoresTaskCase(t1: Task, t2: Task, q: string)
    requires Lower(t1.title) == Lower(t2.title)
    requires Lower(t1.description) == Lower(t2.description)
    ensures MatchesSearch(t1, q) <==> MatchesSearch(t2, q)
  {
  }

  /** Three tasks created on days 1, 3 and 2, listed oldest first, come out
      in the order day 1, day 2, day 3. */
  lemma OldestFirstExample(d1: Task, d3: Task, d2: Task)
    requires d1.createdAt < d2.createdAt < d3.createdAt
    ensures FilteredAndSortedTasks([d1, d3, d2], Criteria("all", "all", "all", "", "oldest"))
            == [d1, d2, d3]
  {
    NoActiveFilter([d1, d3, d2], Criteria("all", "all", "all", "", "oldest"));
    SortThreeOldestFirst(d1, d3, d2);
  }

  lemma SortThreeOldestFirst(d1: Task, d3: Task, d2: Task)
    requires d1.createdAt < d2.createdAt < d3.createdAt
    ensures Sort([d1, d3, d2], OldestFirst) == [d1, d2, d3]
  {
    var o := OldestFirst;
    var tail := [d3, d2];
    var two := [d2, d3];
    SortTwo(d3, d2, o);
    assert Sort(tail, o) == two;
    assert [d1, d3, d2] == [d1] + tail;
    SortCons(d1, tail, o);
    assert Comparator(d1, two[0], o) <= 0;
    InsertInFront(d1, two, o);
    assert [d1] + two == [d1, d2, d3];
  }

  /** Filtering on the "work" category keeps the two work tasks and drops the
      personal one; the default sort shows the newer work task first. */
  lemma WorkCategoryExample(p: Task, w1: Task, w2: Task)
    requires p.category == "personal" && w1.category == "work" && w2.category == "work"
    requires w1.createdAt < w2.createdAt
    ensures FilteredAndSortedTasks([p, w1, w2], Initial.(categoryFilter := "work")) == [w2, w1]
  {
    var c := Initial.(categoryFilter := "work");
    WorkFilter(p, w1, w2, c);
    SortTwo(w1, w2, NewestFirst);
  }

  lemma WorkFilter(p: Task, w1: Task, w2: Task, c: Criteria)
    requires p.category == "personal" && w1.category == "work" && w2.category == "work"
    requires c == Initial.(categoryFilter := "work")
    ensures FilterTasks([p, w1, w2], c) == [w1, w2]
  {
    KeepsExactlyCategory(p, c);
    KeepsExactlyCategory(w1, c);
    KeepsExactlyCategory(w2, c);
    var last := FilterTasks([w2], c);
    FilterCons(w2, [], c);
    assert [w2] + [] == [w2];
    assert last == [w2];
    var two := FilterTasks([w1, w2], c);
    FilterCons(w1, [w2], c);
    assert [w1] + [w2] == [w1, w2];
    assert two == [w1, w2];
    FilterCons(p, [w1, w2], c);
    assert [p] + [w1, w2] == [p, w1, w2];
  }

  /** With only the category filter set and a blank query, a task passes
      exactly when its category is the chosen one. */
  lemma KeepsExactlyCategory(t: Task, c: Criteria)
    requires c.priorityFilter == "all" && c.statusFilter == "all" && AllWhiteSpace(c.searchText)
    requires c.categoryFilter != "all"
    ensures Keep(t, c) <==> t.category == c.categoryFilter
  {
  }

  /** Trimming decides only whether the search applies; the query itself is
      matched untrimmed, so "tax " does not find a task titled "Pay tax"
      although its trimmed form "tax" occurs in the title. */
  lemma UntrimmedQueryMatch()
    ensures var t := Task(NumberId(1), "Pay tax", "", 0, 0, Low, Done, "work");
            && Contains(Lower(t.title), Trim("tax "))
            && !MatchesSearch(t, "tax ")
  {
    LowerPayTax();
    TrimTaxSpace();
    PayTaxOccurrences();
    assert Lower("") == "";
  }

  lemma PayTaxOccurrences()
    ensures Contains("pay tax", "tax")
    ensures Lower("tax ") == "tax "
    ensures !Contains("pay tax", "tax ")
  {
    var h, n := "pay tax", "tax";
    assert h[4..7] == n;
    assert OccursAt(h, n, 4);
    assert |Lower("tax ")| == 4;
  }

  lemma LowerPayTax()
    ensures Lower("Pay tax") == "pay tax"
  {
    assert |Lower("Pay tax")| == 7;
  }

  lemma TrimTaxSpace()
    ensures Trim("tax ") == "tax"
  {
    var q := "tax ";
    assert TrimStart(q) == q;
    assert q[..3] == "tax";
    assert TrimEnd("tax") == "tax";
    assert TrimEnd(q) == "tax";
  }
}
