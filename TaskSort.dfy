/**
 * `Array.prototype.sort` on a list of tasks with the `createdAt` comparator.
 * Since ES2019 that sort must be stable; the function below is a stable
 * insertion sort, and `StableSortIsUnique` shows that every stable sort with
 * this comparator gives the same result, so the choice of algorithm is immaterial.
 */
module TaskSort {
  import opened Tasks

  /** The two directions the comparator can take. */
  datatype Direction = NewestFirst | OldestFirst

  /** The comparator tests the sort option against "latest" and nothing else. */
  function DirectionOf(sortOption: string): Direction {
    if sortOption == "latest" then NewestFirst else OldestFirst
  }

  /** The comparator: negative when `a` goes first, positive when `b` does. */
  function Comparator(a: Task, b: Task, dir: Direction): int {
    match dir
    case NewestFirst => b.createdAt - a.createdAt
    case OldestFirst => a.createdAt - b.createdAt
  }

  /** Every earlier task may precede every later one. */
  predicate Sorted(s: seq<Task>, dir: Direction) {
    forall i, j :: 0 <= i < j < |s| ==> Comparator(s[i], s[j], dir) <= 0
  }

  /** Most recent first. */
  predicate NonIncreasing(s: seq<Task>) {
    forall i, j :: 0 <= i < j < |s| ==> s[i].createdAt >= s[j].createdAt
  }

  /** Oldest first. */
  predicate NonDecreasing(s: seq<Task>) {
    forall i, j :: 0 <= i < j < |s| ==> s[i].createdAt <= s[j].createdAt
  }

  /** Being sorted by the comparator means being ordered by `createdAt`, in the
      direction the comparator gives. */
  lemma SortedMeans(s: seq<Task>, dir: Direction)
    ensures Sorted(s, dir) <==> if dir == NewestFirst then NonIncreasing(s) else NonDecreasing(s)
  {
    if dir == NewestFirst {
      assert Sorted(s, dir) <==> forall i, j :: 0 <= i < j < |s| ==> s[i].createdAt >= s[j].createdAt;
    } else {
      assert Sorted(s, dir) <==> forall i, j :: 0 <= i < j < |s| ==> s[i].createdAt <= s[j].createdAt;
    }
  }

  /** The tasks of `s` created at `k`, in their order in `s`. */
  function CreatedAt(s: seq<Task>, k: int): seq<Task> {
    if s == [] then []
    else (if s[0].createdAt == k then [s[0]] else []) + CreatedAt(s[1..], k)
  }

  /** `CreatedAt` selects exactly the tasks of `s` created at `k`. */
  lemma {:induction false} CreatedAtMembers(s: seq<Task>, k: int, t: Task)
    ensures t in CreatedAt(s, k) <==> t in s && t.createdAt == k
  {
    if s != [] {
      CreatedAtMembers(s[1..], k, t);
      assert s == [s[0]] + s[1..];
    }
  }

  /** `r` orders tasks with equal timestamps as `s` does. */
  ghost predicate SameTies(r: seq<Task>, s: seq<Task>) {
    forall k :: CreatedAt(r, k) == CreatedAt(s, k)
  }

  /** What the standard asks of the sort: a permutation, sorted, and stable. */
  ghost predicate IsStableSortOf(r: seq<Task>, s: seq<Task>, dir: Direction) {
    multiset(r) == multiset(s) && Sorted(r, dir) && SameTies(r, s)
  }

  /** Puts `x` before the first task it may precede. */
  function Insert(x: Task, s: seq<Task>, dir: Direction): (r: seq<Task>)
    ensures multiset(r) == multiset(s) + multiset{x}
  {
    if s == [] then [x]
    else if Comparator(x, s[0], dir) <= 0 then [x] + s
    else
      assert s == [s[0]] + s[1..];
      [s[0]] + Insert(x, s[1..], dir)
  }

  /** Inserting into a sorted sequence keeps it sorted. */
  lemma {:induction false} InsertSorted(x: Task, s: seq<Task>, dir: Direction)
    requires Sorted(s, dir)
    ensures Sorted(Insert(x, s, dir), dir)
  {
    if s == [] {
    } else if Comparator(x, s[0], dir) <= 0 {
      PrependSorted(x, s, dir);
    } else {
      InsertSorted(x, s[1..], dir);
      InsertAfterHead(x, s, Insert(x, s[1..], dir), dir);
    }
  }

  /** A task that may precede every task of a sorted sequence can go in front of it. */
  lemma PrependSorted(y: Task, r: seq<Task>, dir: Direction)
    requires Sorted(r, dir)
    requires r != [] ==> Comparator(y, r[0], dir) <= 0
    ensures Sorted([y] + r, dir)
  {
    if r != [] {
      assert forall j :: 0 <= j < |r| ==> Comparator(r[0], r[j], dir) <= 0;
    }
  }

  /** A first task that must precede `x` stays in front of the sorted insertion into the rest. */
  lemma InsertAfterHead(x: Task, s: seq<Task>, rest: seq<Task>, dir: Direction)
    requires s != [] && Sorted(s, dir) && Comparator(x, s[0], dir) > 0
    requires Sorted(rest, dir) && multiset(rest) == multiset(s[1..]) + multiset{x}
    ensures Sorted([s[0]] + rest, dir)
  {
    forall j | 0 <= j < |rest| ensures Comparator(s[0], rest[j], dir) <= 0 {
      assert rest[j] in multiset(rest);
      if rest[j] != x {
        assert rest[j] in s[1..];
      }
    }
    var r := [s[0]] + rest;
    forall i, j | 0 <= i < j < |r| ensures Comparator(r[i], r[j], dir) <= 0 {
      if i == 0 { assert r[j] == rest[j - 1]; } else { assert r[i] == rest[i - 1] && r[j] == rest[j - 1]; }
    }
  }

  /** `x` goes in front of a sequence whose first task it may precede. */
  lemma InsertInFront(x: Task, s: seq<Task>, dir: Direction)
    requires s == [] || Comparator(x, s[0], dir) <= 0
    ensures Insert(x, s, dir) == [x] + s
  {
  }

  /** Sorting two tasks of which the second must go first swaps them. */
  lemma SortTwo(a: Task, b: Task, dir: Direction)
    requires Comparator(a, b, dir) > 0
    ensures Sort([a, b], dir) == [b, a]
  {
    assert [a, b] == [a] + [b] && [b] == [b] + [];
    SortCons(a, [b], dir);
    SortCons(b, [], dir);
    InsertInFront(b, [], dir);
    InsertPastHead(a, [b], dir);
    InsertInFront(a, [], dir);
  }

  /** `x` goes past a first task that must precede it. */
  lemma InsertPastHead(x: Task, s: seq<Task>, dir: Direction)
    requires s != [] && Comparator(x, s[0], dir) > 0
    ensures Insert(x, s, dir) == [s[0]] + Insert(x, s[1..], dir)
  {
  }

  /** Sorts `s` with the comparator in direction `dir`. */
  function Sort(s: seq<Task>, dir: Direction): (r: seq<Task>)
    ensures multiset(r) == multiset(s)
  {
    if s == [] then []
    else
      assert s == [s[0]] + s[1..];
      Insert(s[0], Sort(s[1..], dir), dir)
  }

  /** The result of `Sort` is sorted. */
  lemma {:induction false} SortSorted(s: seq<Task>, dir: Direction)
    ensures Sorted(Sort(s, dir), dir)
  {
    if s != [] {
      SortSorted(s[1..], dir);
      InsertSorted(s[0], Sort(s[1..], dir), dir);
    }
  }

  /** `Sort` inserts the first task into the sorted rest. */
  lemma SortCons(x: Task, s: seq<Task>, dir: Direction)
    ensures Sort([x] + s, dir) == Insert(x, Sort(s, dir), dir)
  {
    assert ([x] + s)[0] == x && ([x] + s)[1..] == s;
  }

  lemma {:induction false} CreatedAtConcat(a: seq<Task>, b: seq<Task>, k: int)
    ensures CreatedAt(a + b, k) == CreatedAt(a, k) + CreatedAt(b, k)
  {
    if a == [] {
      assert a + b == b;
    } else {
      assert (a + b)[0] == a[0];
      assert (a + b)[1..] == a[1..] + b;
      CreatedAtConcat(a[1..], b, k);
    }
  }

  /** The tasks created at `k` in `[x] + s`. */
  lemma CreatedAtCons(x: Task, s: seq<Task>, k: int)
    ensures CreatedAt([x] + s, k) == (if x.createdAt == k then [x] else []) + CreatedAt(s, k)
  {
    assert ([x] + s)[0] == x && ([x] + s)[1..] == s;
  }

  /** An inserted task comes first among those of its timestamp. */
  lemma {:induction false} InsertTies(x: Task, s: seq<Task>, dir: Direction, k: int)
    ensures CreatedAt(Insert(x, s, dir), k)
            == (if x.createdAt == k then [x] else []) + CreatedAt(s, k)
  {
    if s == [] || Comparator(x, s[0], dir) <= 0 {
      assert Insert(x, s, dir) == [x] + s;
      CreatedAtCons(x, s, k);
    } else {
      InsertPastHead(x, s, dir);
      InsertTies(x, s[1..], dir, k);
      InsertTiesPastHead(x, s, Insert(x, s[1..], dir), k);
      assert Comparator(x, s[0], dir) != 0;
    }
  }

  lemma InsertTiesPastHead(x: Task, s: seq<Task>, rest: seq<Task>, k: int)
    requires s != [] && x.createdAt != s[0].createdAt
    requires CreatedAt(rest, k) == (if x.createdAt == k then [x] else []) + CreatedAt(s[1..], k)
    ensures CreatedAt([s[0]] + rest, k) == (if x.createdAt == k then [x] else []) + CreatedAt(s, k)
  {
    CreatedAtCons(s[0], rest, k);
    CreatedAtCons(s[0], s[1..], k);
    assert [s[0]] + s[1..] == s;
  }

  /** The sort is stable. */
  lemma {:induction false} SortKeepsTies(s: seq<Task>, dir: Direction)
    ensures SameTies(Sort(s, dir), s)
  {
    if s != [] {
      SortKeepsTies(s[1..], dir);
      forall k ensures CreatedAt(Sort(s, dir), k) == CreatedAt(s, k) {
        InsertTies(s[0], Sort(s[1..], dir), dir, k);
      }
    }
  }

  /** Two sorted sequences with the same ties start with the same timestamp. */
  lemma FirstTimestampsAgree(a: seq<Task>, b: seq<Task>, dir: Direction)
    requires a != [] && b != []
    requires Sorted(a, dir) && Sorted(b, dir)
    requires SameTies(a, b)
    ensures a[0].createdAt == b[0].createdAt
  {
    var ka, kb := a[0].createdAt, b[0].createdAt;
    assert CreatedAt(a, ka) == CreatedAt(b, ka);
    CreatedAtMembers(a, ka, a[0]);
    CreatedAtMembers(b, ka, a[0]);
    var j :| 0 <= j < |b| && b[j] == a[0];
    assert CreatedAt(a, kb) == CreatedAt(b, kb);
    CreatedAtMembers(b, kb, b[0]);
    CreatedAtMembers(a, kb, b[0]);
    var i :| 0 <= i < |a| && a[i] == b[0];
    assert j > 0 ==> Comparator(b[0], b[j], dir) <= 0;
    assert i > 0 ==> Comparator(a[0], a[i], dir) <= 0;
  }

  /** Two sequences with the same ties and the same first task have the same
      ties after it. */
  lemma TailsTie(a: seq<Task>, b: seq<Task>)
    requires a != [] && b != [] && a[0] == b[0]
    requires SameTies(a, b)
    ensures SameTies(a[1..], b[1..])
  {
    forall k ensures CreatedAt(a[1..], k) == CreatedAt(b[1..], k) {
      var p := if a[0].createdAt == k then [a[0]] else [];
      assert CreatedAt(a, k) == p + CreatedAt(a[1..], k);
      assert CreatedAt(b, k) == p + CreatedAt(b[1..], k);
      assert CreatedAt(a[1..], k) == CreatedAt(a, k)[|p|..];
      assert CreatedAt(b[1..], k) == CreatedAt(b, k)[|p|..];
    }
  }

  /** A nonempty sequence has tasks created at its first task's timestamp. */
  lemma HeadHasTies(s: seq<Task>)
    requires s != []
    ensures CreatedAt(s, s[0].createdAt) != []
  {
  }

  /** Two sorted sequences with the same ties are equal. */
  lemma {:induction false} SortedTiesDetermine(a: seq<Task>, b: seq<Task>, dir: Direction)
    requires Sorted(a, dir) && Sorted(b, dir)
    requires SameTies(a, b)
    ensures a == b
    decreases |a| + |b|
  {
    if a == [] && b == [] {
    } else if a == [] {
      HeadHasTies(b);
      assert false;
    } else if b == [] {
      HeadHasTies(a);
      assert false;
    } else {
      FirstTimestampsAgree(a, b, dir);
      var k := a[0].createdAt;
      assert CreatedAt(a, k) == CreatedAt(b, k);
      assert CreatedAt(a, k)[0] == a[0] && CreatedAt(b, k)[0] == b[0];
      TailsTie(a, b);
      SortedTiesDetermine(a[1..], b[1..], dir);
      assert a == [a[0]] + a[1..] && b == [b[0]] + b[1..];
    }
  }

  /** `Sort` is a stable sort, and the only one: any sequence that is a sorted,
      stable permutation of `s` is `Sort(s)`. */
  lemma StableSortIsUnique(r: seq<Task>, s: seq<Task>, dir: Direction)
    ensures IsStableSortOf(r, s, dir) <==> r == Sort(s, dir)
  {
    SortKeepsTies(s, dir);
    SortSorted(s, dir);
    if IsStableSortOf(r, s, dir) {
      SortedTiesDetermine(r, Sort(s, dir), dir);
    }
  }
}
