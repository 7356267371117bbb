/** `priorityOrder` and `sortTodos` of src/hooks/useTodos.ts.

    `sortTodos` copies the list and sorts the copy with `Array.prototype.sort` and a comparator
    that puts incomplete records first and then orders by priority rank, returning 0 for records
    of equal completion and priority. `Array.prototype.sort` is stable (ECMA-262 since 2019), so
    records of the same completion and priority keep their input order. The model sorts by
    stable insertion with the same comparator; StableSortIsSortTodos shows that every stable sort
    by that comparator produces the same list, so the engine's choice of algorithm is immaterial.
    Datatype values are immutable, which is the "copy first, never mutate the input" of the source. */
module TodoSort {
  import opened Types

  /** `priorityOrder`: high 0, medium 1, low 2. */
  function PriorityRank(p: Priority): (r: nat)
    ensures r < 3
    ensures r == 0 <==> p == High
    ensures r == 2 <==> p == Low
  {
    match p
    case High => 0
    case Medium => 1
    case Low => 2
  }

  /** The comparator passed to `sort`, as written. */
  function Compare(a: Todo, b: Todo): int {
    if a.completed != b.completed then (if a.completed then 1 else -1)
    else if a.priority != b.priority then PriorityRank(a.priority) - PriorityRank(b.priority)
    else 0
  }

  /** The single number the comparator orders by: completion first, then priority rank. */
  function Key(t: Todo): nat {
    (if t.completed then 3 else 0) + PriorityRank(t.priority)
  }

  /** The comparator is a total preorder: its sign is the comparison of the keys. */
  lemma CompareIsKeyOrder(a: Todo, b: Todo)
    ensures Compare(a, b) < 0 <==> Key(a) < Key(b)
    ensures Compare(a, b) == 0 <==> Key(a) == Key(b)
    ensures Compare(a, b) == 0 <==> a.completed == b.completed && a.priority == b.priority
  {
  }

  /** Sorted with respect to the comparator: no pair of records is out of order. */
  ghost predicate Sorted(s: seq<Todo>) {
    forall i, j :: 0 <= i < j < |s| ==> Key(s[i]) <= Key(s[j])
  }

  predicate InGroup(t: Todo, completed: bool, priority: Priority) {
    t.completed == completed && t.priority == priority
  }

  /** The records of one comparator class (same completion, same priority), in list order. */
  function Group(s: seq<Todo>, completed: bool, priority: Priority): (r: seq<Todo>)
    ensures |r| <= |s|
  {
    if s == [] then []
    else (if InGroup(s[0], completed, priority) then [s[0]] else [])
         + Group(s[1..], completed, priority)
  }

  /** Stability: every comparator class appears in the same order in `r` as in `s`. */
  ghost predicate SameGroups(r: seq<Todo>, s: seq<Todo>) {
    forall c, p :: Group(r, c, p) == Group(s, c, p)
  }

  /** Inserts `x` in front of the first record that does not compare below it. */
  function Insert(x: Todo, s: seq<Todo>): (r: seq<Todo>)
    ensures |r| == |s| + 1
  {
    if s == [] then [x]
    else if Compare(x, s[0]) <= 0 then [x] + s
    else [s[0]] + Insert(x, s[1..])
  }

  lemma {:induction false} InsertPermutes(x: Todo, s: seq<Todo>)
    ensures multiset(Insert(x, s)) == multiset(s) + multiset{x}
  {
    if s != [] && Compare(x, s[0]) > 0 {
      InsertPermutes(x, s[1..]);
      assert s == [s[0]] + s[1..];
    }
  }

  /** A record of `Insert(x, s)` is `x` or a record of `s`. */
  lemma InsertMember(x: Todo, s: seq<Todo>, u: Todo)
    requires u in Insert(x, s)
    ensures u == x || u in s
  {
    InsertPermutes(x, s);
    assert u in multiset(Insert(x, s));
  }

  /** A record no greater than any record of a sorted list can be put in front of it. */
  lemma ConsSorted(x: Todo, s: seq<Todo>)
    requires Sorted(s) && forall u :: u in s ==> Key(x) <= Key(u)
    ensures Sorted([x] + s)
  {
    var r := [x] + s;
    forall i, j | 0 <= i < j < |r| ensures Key(r[i]) <= Key(r[j]) {
      assert r[j] == s[j - 1];
      if i > 0 {
        assert r[i] == s[i - 1];
      }
    }
  }

  /** The head of a sorted list is no greater than any record of its tail. */
  lemma SortedHeadBound(s: seq<Todo>, u: Todo)
    requires Sorted(s) && s != [] && u in s[1..]
    ensures Key(s[0]) <= Key(u)
  {
    var k :| 0 <= k < |s[1..]| && s[1..][k] == u;
    assert s[k + 1] == u;
  }

  lemma {:induction false} InsertSorted(x: Todo, s: seq<Todo>)
    requires Sorted(s)
    ensures Sorted(Insert(x, s))
  {
    if s != [] && Compare(x, s[0]) > 0 {
      var t := Insert(x, s[1..]);
      InsertSorted(x, s[1..]);
      forall u | u in t ensures Key(s[0]) <= Key(u) {
        InsertMember(x, s[1..], u);
        if u == x {
          CompareIsKeyOrder(x, s[0]);
        } else {
          SortedHeadBound(s, u);
        }
      }
      ConsSorted(s[0], t);
    }
  }

  /** `sortTodos(list)`: a sorted permutation of `list`. */
  function SortTodos(list: seq<Todo>): (r: seq<Todo>)
    ensures |r| == |list|
    ensures multiset(r) == multiset(list)
    ensures Sorted(r)
  {
    if list == [] then []
    else
      assert list == [list[0]] + list[1..];
      InsertSorted(list[0], SortTodos(list[1..]));
      InsertPermutes(list[0], SortTodos(list[1..]));
      Insert(list[0], SortTodos(list[1..]))
  }

  lemma SwapEmptyPrefix(a: seq<Todo>, b: seq<Todo>, rest: seq<Todo>)
    requires a == [] || b == []
    ensures a + (b + rest) == b + (a + rest)
  {
    if a == [] {
      assert a + (b + rest) == b + rest == b + (a + rest);
    } else {
      assert a + (b + rest) == a + rest == b + (a + rest);
    }
  }

  lemma {:induction false} GroupOfInsert(x: Todo, s: seq<Todo>, c: bool, p: Priority)
    ensures Group(Insert(x, s), c, p) == (if InGroup(x, c, p) then [x] else []) + Group(s, c, p)
  {
    var gx := if InGroup(x, c, p) then [x] else [];
    if s == [] {
      GroupOfSingletonPrefix(x, [], c, p);
    } else if Compare(x, s[0]) <= 0 {
      GroupOfSingletonPrefix(x, s, c, p);
    } else {
      var t := Insert(x, s[1..]);
      var g0 := if InGroup(s[0], c, p) then [s[0]] else [];
      assert Insert(x, s) == [s[0]] + t;
      assert gx == [] || g0 == [] by {
        CompareIsKeyOrder(x, s[0]);
      }
      calc {
        Group(Insert(x, s), c, p);
        { GroupOfSingletonPrefix(s[0], t, c, p); }
        g0 + Group(t, c, p);
        { GroupOfInsert(x, s[1..], c, p); }
        g0 + (gx + Group(s[1..], c, p));
        { SwapEmptyPrefix(g0, gx, Group(s[1..], c, p)); }
        gx + (g0 + Group(s[1..], c, p));
        { GroupOfSingletonPrefix(s[0], s[1..], c, p); assert s == [s[0]] + s[1..]; }
        gx + Group(s, c, p);
      }
    }
  }

  /** `sortTodos` is stable: records with equal completion and equal priority keep their
      relative input order. */
  lemma {:induction false} SortTodosIsStable(list: seq<Todo>)
    ensures SameGroups(SortTodos(list), list)
  {
    if list != [] {
      SortTodosIsStable(list[1..]);
      forall c, p ensures Group(SortTodos(list), c, p) == Group(list, c, p) {
        GroupOfInsert(list[0], SortTodos(list[1..]), c, p);
      }
    }
  }

  lemma {:induction false} GroupOfSingletonPrefix(x: Todo, s: seq<Todo>, c: bool, p: Priority)
    ensures Group([x] + s, c, p) == (if InGroup(x, c, p) then [x] else []) + Group(s, c, p)
  {
    assert ([x] + s)[1..] == s;
  }

  lemma {:induction false} GroupElement(s: seq<Todo>, c: bool, p: Priority, u: Todo)
    requires u in Group(s, c, p)
    ensures u in s && InGroup(u, c, p)
  {
    if !(InGroup(s[0], c, p) && u == s[0]) {
      GroupElement(s[1..], c, p, u);
    }
  }

  /** The head of a sorted list has the least key of any record of the list. */
  lemma HeadIsLeast(s: seq<Todo>, u: Todo)
    requires Sorted(s) && u in s
    ensures Key(s[0]) <= Key(u)
  {
    var k :| 0 <= k < |s| && s[k] == u;
  }

  /** In a sorted list, the head's class is present in every list with the same classes, and
      so the head of that list can have no greater key. */
  lemma {:induction false} HeadKeyBound(a: seq<Todo>, b: seq<Todo>)
    requires a != [] && Sorted(b) && SameGroups(a, b)
    ensures b != [] && Key(b[0]) <= Key(a[0])
  {
    var x := a[0];
    GroupOfSingletonPrefix(x, a[1..], x.completed, x.priority);
    assert a == [x] + a[1..];
    var g := Group(b, x.completed, x.priority);
    assert g != [];
    GroupElement(b, x.completed, x.priority, g[0]);
    HeadIsLeast(b, g[0]);
  }

  /** Removing the same head from two lists with the same classes leaves lists with the same
      classes. */
  lemma SameGroupsOfTails(x: Todo, a: seq<Todo>, b: seq<Todo>)
    requires SameGroups([x] + a, [x] + b)
    ensures SameGroups(a, b)
  {
    forall c, p ensures Group(a, c, p) == Group(b, c, p) {
      GroupOfSingletonPrefix(x, a, c, p);
      GroupOfSingletonPrefix(x, b, c, p);
      var g := if InGroup(x, c, p) then [x] else [];
      assert Group(a, c, p) == (g + Group(a, c, p))[|g|..];
      assert Group(b, c, p) == (g + Group(b, c, p))[|g|..];
    }
  }

  /** A sorted list is determined by its comparator classes: two sorted lists that agree on
      every class are equal. */
  lemma {:induction false} SortedUnique(a: seq<Todo>, b: seq<Todo>)
    requires Sorted(a) && Sorted(b) && SameGroups(a, b)
    ensures a == b
  {
    if a != [] {
      HeadKeyBound(a, b);
      HeadKeyBound(b, a);
      var x, y := a[0], b[0];
      assert a == [x] + a[1..] && b == [y] + b[1..];
      assert x == y by {
        CompareIsKeyOrder(x, y);
        assert InGroup(y, x.completed, x.priority);
        GroupOfSingletonPrefix(x, a[1..], x.completed, x.priority);
        GroupOfSingletonPrefix(y, b[1..], x.completed, x.priority);
        assert Group(a, x.completed, x.priority)[0] == x;
        assert Group(b, x.completed, x.priority)[0] == y;
      }
      SameGroupsOfTails(x, a[1..], b[1..]);
      SortedUnique(a[1..], b[1..]);
    } else if b != [] {
      HeadKeyBound(b, a);
    }
  }

  /** Any stable sort of `list` by the comparator returns `SortTodos(list)`. */
  lemma StableSortIsSortTodos(list: seq<Todo>, r: seq<Todo>)
    requires Sorted(r) && SameGroups(r, list)
    ensures r == SortTodos(list)
  {
    SortTodosIsStable(list);
    SortedUnique(r, SortTodos(list));
  }

  /** A list that is already in order is returned unchanged. */
  lemma SortTodosOfSorted(list: seq<Todo>)
    requires Sorted(list)
    ensures SortTodos(list) == list
  {
    StableSortIsSortTodos(list, list);
  }

  /** Sorting a sorted result again changes nothing. */
  lemma SortTodosIdempotent(list: seq<Todo>)
    ensures SortTodos(SortTodos(list)) == SortTodos(list)
  {
    SortTodosOfSorted(SortTodos(list));
  }

  /** The order `sortTodos` promises: every incomplete record precedes every completed one, and
      among records of equal completion the priority rank never decreases. */
  lemma SortTodosOrder(list: seq<Todo>)
    ensures var r := SortTodos(list);
      forall i, j :: 0 <= i < j < |r| ==>
        (r[i].completed ==> r[j].completed)
        && (r[i].completed == r[j].completed ==> PriorityRank(r[i].priority) <= PriorityRank(r[j].priority))
  {
  }
}
