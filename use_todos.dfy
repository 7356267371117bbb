/** The todo store of src/hooks/useTodos.ts: the list transitions of local mode as functions,
    and the hook's state (`todos`, `loading`, `error`) as the class TodoStore. */
module UseTodos {
  import opened Wrappers
  import opened Types
  import opened JsString
  import opened TodoSort

  /** `TITLE_MAX_LENGTH`. */
  const TitleMaxLength: nat := 500

  /** The message the subscription error callback shows when the error carries none. */
  const DefaultLoadError: string := "데이터를 불러오는 중 오류가 발생했습니다."

  // ---------------------------------------------------------------------------------------
  // Identifiers stay unique under the list operations.

  lemma {:induction false} InsertKeepsUniqueIds(x: Todo, s: seq<Todo>)
    requires UniqueIds(s) && IdAbsent(s, x.id)
    ensures UniqueIds(Insert(x, s))
  {
    if s == [] {
    } else if Compare(x, s[0]) <= 0 {
      ConsUniqueIds(x, s);
    } else {
      var t := Insert(x, s[1..]);
      InsertKeepsUniqueIds(x, s[1..]);
      InsertPermutes(x, s[1..]);
      forall u | u in t ensures s[0].id != u.id {
        assert u in multiset(t);
        if u != x {
          assert u in multiset(s[1..]);
          UniqueHeadDistinct(s, u);
        }
      }
      ConsUniqueIds(s[0], t);
    }
  }

  /** Sorting never duplicates an identifier. */
  lemma {:induction false} SortTodosKeepsUniqueIds(list: seq<Todo>)
    requires UniqueIds(list)
    ensures UniqueIds(SortTodos(list))
  {
    if list != [] {
      var t := SortTodos(list[1..]);
      SortTodosKeepsUniqueIds(list[1..]);
      forall u | u in t ensures u.id != list[0].id {
        assert u in multiset(t);
        var k :| 0 <= k < |list[1..]| && list[1..][k] == u;
        assert list[k + 1] == u;
      }
      InsertKeepsUniqueIds(list[0], t);
    }
  }

  // ---------------------------------------------------------------------------------------
  // addTodo

  /** The record `addTodo` creates from a validated title. */
  function NewTodo(id: string, title: string, priority: Priority, now: nat): Todo {
    Todo(id, title, false, priority, now, now)
  }

  /** `addTodo` validates the trimmed title: neither empty nor longer than `TITLE_MAX_LENGTH`. */
  predicate AcceptsTitle(title: string) {
    var trimmed := Trim(title);
    trimmed != [] && |trimmed| <= TitleMaxLength
  }

  /** The list after a local-mode `addTodo`. */
  function AddLocal(list: seq<Todo>, title: string, priority: Priority, id: string, now: nat): seq<Todo> {
    if AcceptsTitle(title) then SortTodos(list + [NewTodo(id, Trim(title), priority, now)])
    else list
  }

  /** A rejected title leaves the list as it was; an accepted one adds exactly one record, with
      the fresh id, the trimmed title, `completed` false, the given priority and equal
      timestamps, and it is the only record carrying that id. */
  lemma AddLocalEffect(list: seq<Todo>, title: string, priority: Priority, id: string, now: nat)
    requires UniqueIds(list) && IdAbsent(list, id)
    ensures var r := AddLocal(list, title, priority, id, now);
      && (Trim(title) == [] || |Trim(title)| > TitleMaxLength ==> r == list)
      && (AcceptsTitle(title) ==>
            && |r| == |list| + 1
            && multiset(r) == multiset(list) + multiset{NewTodo(id, Trim(title), priority, now)}
            && forall t :: t in r && t.id == id ==>
                 t.title == Trim(title) && !t.completed && t.priority == priority
                 && t.createdAt == t.updatedAt == now)
      && UniqueIds(r) && Sorted(r) == (Sorted(list) || AcceptsTitle(title))
  {
    var n := NewTodo(id, Trim(title), priority, now);
    if AcceptsTitle(title) {
      var r := SortTodos(list + [n]);
      assert UniqueIds(list + [n]);
      SortTodosKeepsUniqueIds(list + [n]);
      forall t | t in r && t.id == id ensures t == n {
        assert t in multiset(r);
        assert t in multiset(list + [n]);
      }
    }
  }

  // ---------------------------------------------------------------------------------------
  // updateTodo and toggleComplete

  /** `{ ...t, ...updates, updatedAt: now }`: the supplied fields replace the record's. */
  function ApplyPatch(t: Todo, patch: Patch, now: nat): Todo {
    t.(title := patch.title.GetOr(t.title),
       completed := patch.completed.GetOr(t.completed),
       priority := patch.priority.GetOr(t.priority),
       updatedAt := now)
  }

  /** `prev.map(...)`: the records with the given id are patched, the others kept in place. */
  function MapPatch(list: seq<Todo>, id: string, patch: Patch, now: nat): (r: seq<Todo>)
    ensures |r| == |list|
    ensures forall i :: 0 <= i < |list| ==>
      r[i] == if list[i].id == id then ApplyPatch(list[i], patch, now) else list[i]
  {
    seq(|list|, i requires 0 <= i < |list| =>
      if list[i].id == id then ApplyPatch(list[i], patch, now) else list[i])
  }

  /** The list after a local-mode `updateTodo`. */
  function UpdateLocal(list: seq<Todo>, id: string, patch: Patch, now: nat): seq<Todo> {
    SortTodos(MapPatch(list, id, patch, now))
  }

  /** `toggleComplete(id, completed)` is `updateTodo(id, { completed })`. */
  function TogglePatch(completed: bool): Patch {
    Patch(None, Some(completed), None)
  }

  lemma UpdateLocalPermutes(list: seq<Todo>, id: string, patch: Patch, now: nat, k: nat)
    requires UniqueIds(list) && k < |list| && list[k].id == id
    ensures multiset(UpdateLocal(list, id, patch, now)) == multiset(list[k := ApplyPatch(list[k], patch, now)])
  {
    assert MapPatch(list, id, patch, now) == list[k := ApplyPatch(list[k], patch, now)];
  }

  lemma MultisetOfUpdate(list: seq<Todo>, k: nat, u: Todo)
    requires k < |list|
    ensures multiset(list[k := u]) == multiset(list) - multiset{list[k]} + multiset{u}
  {
  }

  lemma UpdateLocalKeepsOthers(list: seq<Todo>, id: string, patch: Patch, now: nat, k: nat, t: Todo)
    requires UniqueIds(list) && k < |list| && list[k].id == id && t.id != id
    ensures multiset(UpdateLocal(list, id, patch, now))[t] == multiset(list)[t]
  {
    UpdateLocalPermutes(list, id, patch, now, k);
    MultisetOfUpdate(list, k, ApplyPatch(list[k], patch, now));
  }

  lemma UpdateLocalPatchesOne(list: seq<Todo>, id: string, patch: Patch, now: nat, k: nat, t: Todo)
    requires UniqueIds(list) && k < |list| && list[k].id == id
    requires t in UpdateLocal(list, id, patch, now) && t.id == id
    ensures t == ApplyPatch(list[k], patch, now)
  {
    var m := MapPatch(list, id, patch, now);
    assert t in multiset(UpdateLocal(list, id, patch, now));
    var j :| 0 <= j < |m| && m[j] == t;
  }

  /** Patching never changes an id, so an update keeps the ids distinct. */
  lemma UpdateLocalKeepsUniqueIds(list: seq<Todo>, id: string, patch: Patch, now: nat)
    requires UniqueIds(list)
    ensures UniqueIds(UpdateLocal(list, id, patch, now))
  {
    var m := MapPatch(list, id, patch, now);
    assert forall i :: 0 <= i < |m| ==> m[i].id == list[i].id;
    SortTodosKeepsUniqueIds(m);
  }

  /** Updating the record at index `k`: the length is kept, every record with another id is
      kept, and the one record with the id keeps its id and `createdAt`, takes the supplied
      fields (the others unchanged) and gets `updatedAt == now`. */
  lemma UpdateLocalEffect(list: seq<Todo>, id: string, patch: Patch, now: nat, k: nat)
    requires UniqueIds(list) && k < |list| && list[k].id == id
    ensures var r := UpdateLocal(list, id, patch, now); var u := list[k];
      && |r| == |list| && UniqueIds(r) && Sorted(r)
      && multiset(r) == multiset(list[k := ApplyPatch(u, patch, now)])
      && (forall t: Todo :: t.id != id ==> multiset(r)[t] == multiset(list)[t])
      && (forall t :: t in r && t.id == id ==>
            && t.createdAt == u.createdAt && t.updatedAt == now
            && t.title == (if patch.title.Some? then patch.title.value else u.title)
            && t.completed == (if patch.completed.Some? then patch.completed.value else u.completed)
            && t.priority == (if patch.priority.Some? then patch.priority.value else u.priority))
  {
    var m := MapPatch(list, id, patch, now);
    assert UniqueIds(m);
    SortTodosKeepsUniqueIds(m);
    UpdateLocalPermutes(list, id, patch, now, k);
    forall t: Todo | t.id != id ensures multiset(UpdateLocal(list, id, patch, now))[t] == multiset(list)[t] {
      UpdateLocalKeepsOthers(list, id, patch, now, k, t);
    }
    forall t | t in UpdateLocal(list, id, patch, now) && t.id == id
      ensures t == ApplyPatch(list[k], patch, now)
    {
      UpdateLocalPatchesOne(list, id, patch, now, k, t);
    }
  }

  /** Updating an id that is not in a sorted list changes nothing. */
  lemma UpdateLocalUnknownId(list: seq<Todo>, id: string, patch: Patch, now: nat)
    requires Sorted(list) && IdAbsent(list, id)
    ensures UpdateLocal(list, id, patch, now) == list
  {
    assert MapPatch(list, id, patch, now) == list;
    SortTodosOfSorted(list);
  }

  /** Patching does not move the record to another comparator class. */
  ghost predicate PatchKeepsClass(s: seq<Todo>, id: string, patch: Patch, now: nat) {
    forall t :: t in s && t.id == id ==>
      ApplyPatch(t, patch, now).completed == t.completed
      && ApplyPatch(t, patch, now).priority == t.priority
  }

  lemma MapPatchConcat(a: seq<Todo>, b: seq<Todo>, id: string, patch: Patch, now: nat)
    ensures MapPatch(a + b, id, patch, now) == MapPatch(a, id, patch, now) + MapPatch(b, id, patch, now)
  {
  }

  lemma {:induction false} GroupOfMapPatch(s: seq<Todo>, id: string, patch: Patch, now: nat, c: bool, p: Priority)
    requires PatchKeepsClass(s, id, patch, now)
    ensures Group(MapPatch(s, id, patch, now), c, p) == MapPatch(Group(s, c, p), id, patch, now)
  {
    if s != [] {
      var x := s[0];
      var fx := MapPatch([x], id, patch, now)[0];
      assert s == [x] + s[1..];
      MapPatchConcat([x], s[1..], id, patch, now);
      assert MapPatch(s, id, patch, now) == [fx] + MapPatch(s[1..], id, patch, now);
      assert PatchKeepsClass(s[1..], id, patch, now);
      GroupOfMapPatch(s[1..], id, patch, now, c, p);
      GroupOfSingletonPrefix(fx, MapPatch(s[1..], id, patch, now), c, p);
      GroupOfSingletonPrefix(x, s[1..], c, p);
      var g := if InGroup(x, c, p) then [x] else [];
      MapPatchConcat(g, Group(s[1..], c, p), id, patch, now);
      assert InGroup(fx, c, p) == InGroup(x, c, p);
    }
  }

  /** Once patched, a record's class is what the same patch gives it again. */
  lemma MapPatchKeepsClass(list: seq<Todo>, id: string, patch: Patch, now1: nat, now2: nat)
    ensures PatchKeepsClass(MapPatch(list, id, patch, now1), id, patch, now2)
  {
    var m := MapPatch(list, id, patch, now1);
    forall t | t in m && t.id == id
      ensures ApplyPatch(t, patch, now2).completed == t.completed
           && ApplyPatch(t, patch, now2).priority == t.priority
    {
      var j :| 0 <= j < |m| && m[j] == t;
    }
  }

  lemma SortTodosKeepsClass(s: seq<Todo>, id: string, patch: Patch, now: nat)
    requires PatchKeepsClass(s, id, patch, now)
    ensures PatchKeepsClass(SortTodos(s), id, patch, now)
  {
    forall t | t in SortTodos(s) && t.id == id
      ensures ApplyPatch(t, patch, now).completed == t.completed
           && ApplyPatch(t, patch, now).priority == t.priority
    {
      assert t in multiset(SortTodos(s));
    }
  }

  /** Repeating an update is the same as making it once at the later time: the second call
      changes nothing but `updatedAt`, and in particular does not reorder the list. */
  lemma UpdateLocalTwice(list: seq<Todo>, id: string, patch: Patch, now1: nat, now2: nat)
    ensures UpdateLocal(UpdateLocal(list, id, patch, now1), id, patch, now2)
         == UpdateLocal(list, id, patch, now2)
  {
    var m1 := MapPatch(list, id, patch, now1);
    var m2 := MapPatch(list, id, patch, now2);
    var s1 := SortTodos(m1);
    var x := MapPatch(s1, id, patch, now2);
    assert MapPatch(m1, id, patch, now2) == m2;
    MapPatchKeepsClass(list, id, patch, now1, now2);
    SortTodosKeepsClass(m1, id, patch, now2);
    SortTodosIsStable(m1);
    forall c, p ensures Group(x, c, p) == Group(m2, c, p) {
      GroupOfMapPatch(s1, id, patch, now2, c, p);
      GroupOfMapPatch(m1, id, patch, now2, c, p);
    }
    SortTodosIsStable(x);
    StableSortIsSortTodos(m2, SortTodos(x));
  }

  // ---------------------------------------------------------------------------------------
  // deleteTodo

  /** `prev.filter((t) => t.id !== id)`. */
  function DeleteLocal(list: seq<Todo>, id: string): (r: seq<Todo>)
    ensures |r| <= |list|
  {
    if list == [] then []
    else (if list[0].id != id then [list[0]] else []) + DeleteLocal(list[1..], id)
  }

  /** `a` is `b` with some records left out, the rest in their original order. */
  ghost predicate IsSubsequence(a: seq<Todo>, b: seq<Todo>) {
    if a == [] then true
    else if b == [] then false
    else if a[0] == b[0] then IsSubsequence(a[1..], b[1..])
    else IsSubsequence(a, b[1..])
  }

  lemma {:induction false} DeleteLocalMember(list: seq<Todo>, id: string, t: Todo)
    requires t in DeleteLocal(list, id)
    ensures t in list && t.id != id
  {
    if !(list[0].id != id && t == list[0]) {
      DeleteLocalMember(list[1..], id, t);
    }
  }

  lemma {:induction false} DeleteLocalCounts(list: seq<Todo>, id: string, t: Todo)
    ensures multiset(DeleteLocal(list, id))[t] == if t.id == id then 0 else multiset(list)[t]
  {
    if list != [] {
      var x, rest := list[0], DeleteLocal(list[1..], id);
      var head := if x.id != id then [x] else [];
      DeleteLocalCounts(list[1..], id, t);
      assert DeleteLocal(list, id) == head + rest;
      assert multiset(DeleteLocal(list, id)) == multiset(head) + multiset(rest);
      assert list == [x] + list[1..];
      assert multiset(list) == multiset{x} + multiset(list[1..]);
    }
  }

  lemma {:induction false} DeleteLocalIsSubsequence(list: seq<Todo>, id: string)
    ensures IsSubsequence(DeleteLocal(list, id), list)
  {
    if list != [] {
      DeleteLocalIsSubsequence(list[1..], id);
      var rest := DeleteLocal(list[1..], id);
      if list[0].id != id {
        var r := [list[0]] + rest;
        assert DeleteLocal(list, id) == r;
        assert r[0] == list[0] && r[1..] == rest;
      } else {
        assert DeleteLocal(list, id) == rest;
        if rest != [] {
          DeleteLocalMember(list[1..], id, rest[0]);
        }
      }
    }
  }

  /** A record whose id no record of a list carries can be put in front of it. */
  lemma ConsUniqueIds(x: Todo, s: seq<Todo>)
    requires UniqueIds(s) && forall u :: u in s ==> x.id != u.id
    ensures UniqueIds([x] + s)
  {
    var r := [x] + s;
    forall i, j | 0 <= i < j < |r| ensures r[i].id != r[j].id {
      assert r[j] == s[j - 1];
      if i > 0 {
        assert r[i] == s[i - 1];
      }
    }
  }

  lemma UniqueHeadDistinct(s: seq<Todo>, u: Todo)
    requires UniqueIds(s) && s != [] && u in s[1..]
    ensures s[0].id != u.id
  {
    var k :| 0 <= k < |s[1..]| && s[1..][k] == u;
    assert s[k + 1] == u;
  }

  lemma {:induction false} DeleteLocalKeepsSorted(list: seq<Todo>, id: string)
    requires Sorted(list)
    ensures Sorted(DeleteLocal(list, id))
  {
    if list != [] {
      DeleteLocalKeepsSorted(list[1..], id);
      var rest := DeleteLocal(list[1..], id);
      if list[0].id != id {
        assert DeleteLocal(list, id) == [list[0]] + rest;
        forall u | u in rest ensures Key(list[0]) <= Key(u) {
          DeleteLocalMember(list[1..], id, u);
          SortedHeadBound(list, u);
        }
        ConsSorted(list[0], rest);
      }
    }
  }

  lemma {:induction false} DeleteLocalKeepsUniqueIds(list: seq<Todo>, id: string)
    requires UniqueIds(list)
    ensures UniqueIds(DeleteLocal(list, id))
  {
    if list != [] {
      DeleteLocalKeepsUniqueIds(list[1..], id);
      var rest := DeleteLocal(list[1..], id);
      if list[0].id != id {
        assert DeleteLocal(list, id) == [list[0]] + rest;
        forall u | u in rest ensures list[0].id != u.id {
          DeleteLocalMember(list[1..], id, u);
          UniqueHeadDistinct(list, u);
        }
        ConsUniqueIds(list[0], rest);
      }
    }
  }

  /** Deleting removes exactly the records with the id, keeps every other record (with its
      multiplicity) in its original order, and keeps a sorted list sorted and ids unique. */
  lemma DeleteLocalEffect(list: seq<Todo>, id: string)
    ensures var r := DeleteLocal(list, id);
      && (forall t: Todo :: multiset(r)[t] == if t.id == id then 0 else multiset(list)[t])
      && IsSubsequence(r, list)
      && (Sorted(list) ==> Sorted(r))
      && (UniqueIds(list) ==> UniqueIds(r))
  {
    forall t: Todo
      ensures multiset(DeleteLocal(list, id))[t] == if t.id == id then 0 else multiset(list)[t]
    {
      DeleteLocalCounts(list, id, t);
    }
    DeleteLocalIsSubsequence(list, id);
    if Sorted(list) {
      DeleteLocalKeepsSorted(list, id);
    }
    if UniqueIds(list) {
      DeleteLocalKeepsUniqueIds(list, id);
    }
  }

  /** Deleting the same id twice is the same as deleting it once. */
  lemma {:induction false} DeleteLocalTwice(list: seq<Todo>, id: string)
    ensures DeleteLocal(DeleteLocal(list, id), id) == DeleteLocal(list, id)
  {
    if list != [] {
      DeleteLocalTwice(list[1..], id);
      var rest := DeleteLocal(list[1..], id);
      if list[0].id != id {
        var r := [list[0]] + rest;
        assert DeleteLocal(list, id) == r;
        assert r[0] == list[0] && r[1..] == rest;
        assert DeleteLocal(r, id) == [list[0]] + DeleteLocal(rest, id);
      } else {
        assert DeleteLocal(list, id) == rest;
      }
    }
  }

  /** After a delete, an update of the deleted id is a no-op. */
  lemma DeleteThenUpdate(list: seq<Todo>, id: string, patch: Patch, now: nat)
    requires Sorted(list)
    ensures UpdateLocal(DeleteLocal(list, id), id, patch, now) == DeleteLocal(list, id)
  {
    var r := DeleteLocal(list, id);
    DeleteLocalKeepsSorted(list, id);
    forall t | t in r ensures t.id != id {
      DeleteLocalMember(list, id, t);
    }
    UpdateLocalUnknownId(r, id, patch, now);
  }

  // ---------------------------------------------------------------------------------------
  // The change feed's snapshot callback

  /** `d.data()` with `??` defaults: a missing title is '', completed false, priority medium. */
  function Normalize(d: RawDoc): Todo {
    Todo(d.id, d.title.GetOr(""), d.completed.GetOr(false), d.priority.GetOr(Medium),
         d.createdAt, d.updatedAt)
  }

  /** `snapshot.docs.map(...)`. */
  function NormalizeAll(docs: seq<RawDoc>): (r: seq<Todo>)
    ensures |r| == |docs|
    ensures forall i :: 0 <= i < |docs| ==> r[i] == Normalize(docs[i])
  {
    seq(|docs|, i requires 0 <= i < |docs| => Normalize(docs[i]))
  }

  /** The list the snapshot callback stores: `sortTodos(list)`. */
  function FromSnapshot(docs: seq<RawDoc>): seq<Todo> {
    SortTodos(NormalizeAll(docs))
  }

  /** A collection never holds two documents with the same id. */
  ghost predicate UniqueDocIds(docs: seq<RawDoc>) {
    forall i, j :: 0 <= i < j < |docs| ==> docs[i].id != docs[j].id
  }

  /** The feed's order: `orderBy('createdAt', 'desc')`. */
  ghost predicate NewestFirst(docs: seq<RawDoc>) {
    forall i, j :: 0 <= i < j < |docs| ==> docs[i].createdAt >= docs[j].createdAt
  }

  ghost predicate CreatedDescending(s: seq<Todo>) {
    forall i, j :: 0 <= i < j < |s| ==> s[i].createdAt >= s[j].createdAt
  }

  /** A missing field takes its default and a present one is kept verbatim; the id and the
      timestamps pass through. */
  lemma NormalizeDefaults(d: RawDoc)
    ensures var t := Normalize(d);
      && t.id == d.id && t.createdAt == d.createdAt && t.updatedAt == d.updatedAt
      && (d.title.None? ==> t.title == "") && (d.title.Some? ==> t.title == d.title.value)
      && (d.completed.None? ==> !t.completed) && (d.completed.Some? ==> t.completed == d.completed.value)
      && (d.priority.None? ==> t.priority == Medium) && (d.priority.Some? ==> t.priority == d.priority.value)
  {
  }

  /** The snapshot replaces the list by one record per document, sorted, with unique ids. */
  lemma FromSnapshotEffect(docs: seq<RawDoc>)
    requires UniqueDocIds(docs)
    ensures var r := FromSnapshot(docs);
      && |r| == |docs| && Sorted(r) && UniqueIds(r)
      && multiset(r) == multiset(NormalizeAll(docs))
  {
    SortTodosKeepsUniqueIds(NormalizeAll(docs));
  }

  lemma ConsDescending(x: Todo, s: seq<Todo>)
    requires CreatedDescending(s) && forall u :: u in s ==> x.createdAt >= u.createdAt
    ensures CreatedDescending([x] + s)
  {
    var r := [x] + s;
    forall i, j | 0 <= i < j < |r| ensures r[i].createdAt >= r[j].createdAt {
      assert r[j] == s[j - 1];
      if i > 0 {
        assert r[i] == s[i - 1];
      }
    }
  }

  lemma DescendingHeadBound(s: seq<Todo>, u: Todo)
    requires CreatedDescending(s) && s != [] && u in s[1..]
    ensures s[0].createdAt >= u.createdAt
  {
    var k :| 0 <= k < |s[1..]| && s[1..][k] == u;
    assert s[k + 1] == u;
  }

  lemma {:induction false} GroupKeepsDescending(s: seq<Todo>, c: bool, p: Priority)
    requires CreatedDescending(s)
    ensures CreatedDescending(Group(s, c, p))
  {
    if s != [] {
      GroupKeepsDescending(s[1..], c, p);
      var g := Group(s[1..], c, p);
      if InGroup(s[0], c, p) {
        assert Group(s, c, p) == [s[0]] + g;
        forall u | u in g ensures s[0].createdAt >= u.createdAt {
          GroupElement(s[1..], c, p, u);
          DescendingHeadBound(s, u);
        }
        ConsDescending(s[0], g);
      } else {
        assert Group(s, c, p) == g;
      }
    }
  }

  /** Because the sort is stable, records of one class keep the feed's newest-first order. */
  lemma SnapshotKeepsFeedOrderInGroups(docs: seq<RawDoc>, c: bool, p: Priority)
    requires NewestFirst(docs)
    ensures CreatedDescending(Group(FromSnapshot(docs), c, p))
  {
    SortTodosIsStable(NormalizeAll(docs));
    GroupKeepsDescending(NormalizeAll(docs), c, p);
  }

  // ---------------------------------------------------------------------------------------
  // The hook's state

  /** A write issued to the remote collection: `setDoc`, `updateDoc` or `deleteDoc`. The
      server-assigned timestamps that accompany each of them are not modelled. */
  datatype Request =
    | SetDoc(id: string, title: string, completed: bool, priority: Priority)
    | UpdateDoc(id: string, patch: Patch)
    | DeleteDoc(id: string)

  /** The state `useTodos` keeps. In local mode (no backend configured) the commands rewrite
      `todos` themselves; in remote mode they only issue writes, and the change feed's
      callbacks are the sole writers of `todos`. */
  class TodoStore {
    /** `!!db`: a remote backend is configured. */
    const configured: bool
    var todos: seq<Todo>
    var loading: bool
    var error: Option<string>
    /** The writes issued to the remote collection, oldest first. */
    var requests: seq<Request>

    /** The exposed list is always in `sortTodos` order and never repeats an id. */
    ghost predicate Valid()
      reads this
    {
      UniqueIds(todos) && Sorted(todos)
    }

    /** The hook once mounted: `todos` empty, and `loading` true only while a remote
        subscription waits for its first snapshot. */
    constructor (configured: bool)
      ensures Valid()
      ensures this.configured == configured && todos == [] && error == None && requests == []
      ensures loading == configured
    {
      this.configured := configured;
      todos := [];
      loading := configured;
      error := None;
      requests := [];
    }

    /** `addTodo(title, priority)`, with the fresh `uuidv4()` as `id` and the clock as `now`. */
    method AddTodo(title: string, priority: Priority, id: string, now: nat)
      requires Valid() && IdAbsent(todos, id)
      modifies this
      ensures Valid()
      ensures loading == old(loading) && error == old(error)
      ensures !configured ==>
        todos == AddLocal(old(todos), title, priority, id, now) && requests == old(requests)
      ensures configured ==>
        && todos == old(todos)
        && requests == old(requests) +
             (if AcceptsTitle(title) then [SetDoc(id, Trim(title), false, priority)] else [])
    {
      var trimmed := Trim(title);
      if trimmed == [] || |trimmed| > TitleMaxLength {
        return;
      }
      if configured {
        requests := requests + [SetDoc(id, trimmed, false, priority)];
      } else {
        AddLocalEffect(todos, title, priority, id, now);
        todos := SortTodos(todos + [NewTodo(id, trimmed, priority, now)]);
      }
    }

    /** `updateTodo(id, updates)`, with the clock as `now`. No title validation is done. */
    method UpdateTodo(id: string, patch: Patch, now: nat)
      requires Valid()
      modifies this
      ensures Valid()
      ensures loading == old(loading) && error == old(error)
      ensures !configured ==>
        todos == UpdateLocal(old(todos), id, patch, now) && requests == old(requests)
      ensures configured ==>
        todos == old(todos) && requests == old(requests) + [UpdateDoc(id, patch)]
    {
      if configured {
        requests := requests + [UpdateDoc(id, patch)];
      } else {
        UpdateLocalKeepsUniqueIds(todos, id, patch, now);
        todos := UpdateLocal(todos, id, patch, now);
      }
    }

    /** `toggleComplete(id, completed)`: `updateTodo(id, { completed })`. */
    method ToggleComplete(id: string, completed: bool, now: nat)
      requires Valid()
      modifies this
      ensures Valid()
      ensures loading == old(loading) && error == old(error)
      ensures !configured ==>
        todos == UpdateLocal(old(todos), id, TogglePatch(completed), now) && requests == old(requests)
      ensures configured ==>
        todos == old(todos) && requests == old(requests) + [UpdateDoc(id, TogglePatch(completed))]
    {
      UpdateTodo(id, TogglePatch(completed), now);
    }

    /** `deleteTodo(id)`. */
    method DeleteTodo(id: string)
      requires Valid()
      modifies this
      ensures Valid()
      ensures loading == old(loading) && error == old(error)
      ensures !configured ==> todos == DeleteLocal(old(todos), id) && requests == old(requests)
      ensures configured ==> todos == old(todos) && requests == old(requests) + [DeleteDoc(id)]
    {
      if configured {
        requests := requests + [DeleteDoc(id)];
      } else {
        DeleteLocalKeepsSorted(todos, id);
        DeleteLocalKeepsUniqueIds(todos, id);
        todos := DeleteLocal(todos, id);
      }
    }

    /** The subscription's snapshot callback: the normalised, sorted documents replace the
        list, the error is cleared and loading ends. */
    method OnSnapshot(docs: seq<RawDoc>)
      requires Valid() && configured && UniqueDocIds(docs)
      modifies this
      ensures Valid()
      ensures todos == FromSnapshot(docs) && error == None && !loading
      ensures requests == old(requests)
    {
      FromSnapshotEffect(docs);
      todos := FromSnapshot(docs);
      error := None;
      loading := false;
    }

    /** The subscription's error callback: the error's message (or the default message) is
        shown and loading ends; the list is left as it was. */
    method OnSnapshotError(message: Option<string>)
      requires Valid() && configured
      modifies this
      ensures Valid()
      ensures error == Some(message.GetOr(DefaultLoadError)) && !loading
      ensures todos == old(todos) && requests == old(requests)
    {
      error := Some(message.GetOr(DefaultLoadError));
      loading := false;
    }

    /** The `.catch` of a remote write: its message becomes the error; nothing else changes. */
    method OnWriteError(message: string)
      requires Valid() && configured
      modifies this
      ensures Valid()
      ensures error == Some(message)
      ensures todos == old(todos) && loading == old(loading) && requests == old(requests)
    {
      error := Some(message);
    }
  }
}
