/** The `counts` selector of src/pages/Home.tsx: how many records there are in all, how many
    are active (not completed) and how many are completed. */
module Home {
  import opened Types
  import opened TodoSort

  datatype Counts = Counts(all: nat, active: nat, completed: nat)

  /** `todos.filter(...).length` for the filter on the given completion flag. */
  function CountWhere(s: seq<Todo>, completed: bool): (n: nat)
    ensures n <= |s|
  {
    if s == [] then 0
    else (if s[0].completed == completed then 1 else 0) + CountWhere(s[1..], completed)
  }

  /** `counts`: `all` is the length, `active` the incomplete records, `completed` the rest. */
  function CountsOf(todos: seq<Todo>): Counts {
    Counts(|todos|, CountWhere(todos, false), CountWhere(todos, true))
  }

  /** Every record is either active or completed, so the two counts add up to `all`; the empty
      list has all counts zero. */
  lemma {:induction false} CountsAddUp(todos: seq<Todo>)
    ensures var c := CountsOf(todos);
      c.active + c.completed == c.all && (todos == [] ==> c == Counts(0, 0, 0))
  {
    if todos != [] {
      CountsAddUp(todos[1..]);
    }
  }

  lemma {:induction false} CountWhereConcat(a: seq<Todo>, b: seq<Todo>, completed: bool)
    ensures CountWhere(a + b, completed) == CountWhere(a, completed) + CountWhere(b, completed)
  {
    if a == [] {
      assert a + b == b;
    } else {
      CountWhereConcat(a[1..], b, completed);
      assert (a + b)[0] == a[0] && (a + b)[1..] == a[1..] + b;
    }
  }

  /** Removing the record at index `k` removes one occurrence of it from the multiset. */
  lemma MultisetRemoveAt(b: seq<Todo>, k: nat)
    requires k < |b|
    ensures multiset(b[..k] + b[k + 1..]) == multiset(b) - multiset{b[k]}
  {
    assert b == b[..k] + [b[k]] + b[k + 1..];
  }

  /** Removing the record at index `k` lowers the count of its class by one. */
  lemma CountWhereRemoveAt(b: seq<Todo>, k: nat, completed: bool)
    requires k < |b|
    ensures CountWhere(b, completed)
         == CountWhere(b[..k] + b[k + 1..], completed) + (if b[k].completed == completed then 1 else 0)
  {
    assert b == (b[..k] + [b[k]]) + b[k + 1..];
    CountWhereConcat(b[..k] + [b[k]], b[k + 1..], completed);
    CountWhereConcat(b[..k], [b[k]], completed);
    CountWhereConcat(b[..k], b[k + 1..], completed);
    assert CountWhere([b[k]], completed) == if b[k].completed == completed then 1 else 0;
  }

  /** The counts depend only on which records the list holds, not on their order. */
  lemma {:induction false} CountsPermutationInvariant(a: seq<Todo>, b: seq<Todo>)
    requires multiset(a) == multiset(b)
    ensures CountsOf(a) == CountsOf(b)
  {
    assert |a| == |multiset(a)| == |b|;
    if a != [] {
      var x := a[0];
      assert x in multiset(b);
      var k :| 0 <= k < |b| && b[k] == x;
      var b' := b[..k] + b[k + 1..];
      MultisetRemoveAt(b, k);
      assert a == [x] + a[1..];
      assert multiset(a[1..]) == multiset(a) - multiset{x};
      CountsPermutationInvariant(a[1..], b');
      CountWhereRemoveAt(b, k, false);
      CountWhereRemoveAt(b, k, true);
    }
  }

  /** In particular the counts of the sorted list are those of the unsorted one. */
  lemma CountsOfSorted(todos: seq<Todo>)
    ensures CountsOf(SortTodos(todos)) == CountsOf(todos)
  {
    CountsPermutationInvariant(SortTodos(todos), todos);
  }
}
