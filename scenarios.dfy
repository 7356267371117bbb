/** A worked example of the todo list: three tasks added in local mode, one then completed. */
module Scenarios {
  import opened Types
  import opened JsString
  import opened TodoSort
  import opened UseTodos
  import opened Home

  function Titles(s: seq<Todo>): seq<string> {
    seq(|s|, i requires 0 <= i < |s| => s[i].title)
  }

  /** A title as a user would type it: non-empty, not padded, within the limit. */
  ghost predicate PlainTitle(title: string) {
    title != [] && Trimmed(title) && |title| <= TitleMaxLength
  }

  lemma PlainTitleAccepted(title: string)
    requires PlainTitle(title)
    ensures AcceptsTitle(title) && Trim(title) == title
  {
    TrimOfTrimmed(title);
  }

  lemma SortCons(x: Todo, s: seq<Todo>)
    ensures SortTodos([x] + s) == Insert(x, SortTodos(s))
  {
    assert ([x] + s)[1..] == s;
  }

  lemma SortConsOf(x: Todo, s: seq<Todo>, t: seq<Todo>)
    requires SortTodos(s) == t
    ensures SortTodos([x] + s) == Insert(x, t)
  {
    SortCons(x, s);
  }

  lemma TwoAsCons(x: Todo, y: Todo)
    ensures [x] + [y] == [x, y]
  {
  }

  lemma ThreeAsCons(x: Todo, y: Todo, z: Todo)
    ensures [x] + [y, z] == [x, y, z]
  {
  }

  lemma ThreeAsSnoc(x: Todo, y: Todo, z: Todo)
    ensures [x, y] + [z] == [x, y, z]
  {
  }

  lemma InsertFront(x: Todo, s: seq<Todo>)
    requires s == [] || Key(x) <= Key(s[0])
    ensures Insert(x, s) == [x] + s
  {
    if s != [] { CompareIsKeyOrder(x, s[0]); }
  }

  lemma InsertPast(x: Todo, s: seq<Todo>)
    requires s != [] && Key(s[0]) < Key(x)
    ensures Insert(x, s) == [s[0]] + Insert(x, s[1..])
  {
    CompareIsKeyOrder(x, s[0]);
  }

  lemma SortOne(x: Todo)
    ensures SortTodos([x]) == [x]
  {
    SortCons(x, []);
    InsertFront(x, []);
  }

  lemma InsertPastOne(x: Todo, y: Todo)
    requires Key(y) < Key(x)
    ensures Insert(x, [y]) == [y, x]
  {
    InsertPast(x, [y]);
    assert [y][1..] == [];
    InsertFront(x, []);
  }

  /** Two records, the second of a lower key. */
  lemma SortTwoSwapped(x: Todo, y: Todo)
    requires Key(y) < Key(x)
    ensures SortTodos([x, y]) == [y, x]
  {
    SortOne(y);
    TwoAsCons(x, y);
    SortCons(x, [y]);
    InsertPastOne(x, y);
  }

  lemma SortTwoInOrder(y: Todo, z: Todo)
    requires Key(y) <= Key(z)
    ensures SortTodos([y, z]) == [y, z]
  {
    SortOne(z);
    TwoAsCons(y, z);
    SortCons(y, [z]);
    InsertFront(y, [z]);
  }

  lemma InsertLastOfThree(x: Todo, y: Todo, z: Todo)
    requires Key(y) < Key(x) && Key(z) < Key(x)
    ensures Insert(x, [y, z]) == [y, z, x]
  {
    InsertPast(x, [y, z]);
    assert [y, z][1..] == [z];
    InsertPast(x, [z]);
    assert [z][1..] == [];
    InsertFront(x, []);
    assert [y] + ([z] + [x]) == [y, z, x];
  }

  /** Three records whose first belongs last. */
  lemma SortThreeFirstLast(x: Todo, y: Todo, z: Todo)
    requires Key(y) <= Key(z) < Key(x)
    ensures SortTodos([x, y, z]) == [y, z, x]
  {
    ThreeAsCons(x, y, z);
    SortTwoInOrder(y, z);
    SortConsOf(x, [y, z], [y, z]);
    InsertLastOfThree(x, y, z);
  }

  /** Three records whose last belongs in the middle. */
  lemma SortThreeLastMiddle(x: Todo, y: Todo, z: Todo)
    requires Key(x) <= Key(z) < Key(y)
    ensures SortTodos([x, y, z]) == [x, z, y]
  {
    ThreeAsCons(x, y, z);
    SortTwoSwapped(y, z);
    SortConsOf(x, [y, z], [z, y]);
    InsertFront(x, [z, y]);
    ThreeAsCons(x, z, y);
  }

  lemma FirstAdd(milk: string, idMilk: string)
    requires PlainTitle(milk)
    ensures AddLocal([], milk, Low, idMilk, 1) == [NewTodo(idMilk, milk, Low, 1)]
  {
    PlainTitleAccepted(milk);
    var m := NewTodo(idMilk, milk, Low, 1);
    assert [] + [m] == [m];
    SortOne(m);
  }

  lemma SecondAdd(m: Todo, bank: string, idBank: string)
    requires PlainTitle(bank) && !m.completed && m.priority == Low
    ensures AddLocal([m], bank, High, idBank, 2) == [NewTodo(idBank, bank, High, 2), m]
  {
    PlainTitleAccepted(bank);
    var b := NewTodo(idBank, bank, High, 2);
    TwoAsCons(m, b);
    SortTwoSwapped(m, b);
  }

  lemma ThirdAdd(b: Todo, m: Todo, rent: string, idRent: string)
    requires PlainTitle(rent) && !b.completed && b.priority == High
    requires !m.completed && m.priority == Low
    ensures AddLocal([b, m], rent, Medium, idRent, 3) == [b, NewTodo(idRent, rent, Medium, 3), m]
  {
    PlainTitleAccepted(rent);
    var r := NewTodo(idRent, rent, Medium, 3);
    ThreeAsSnoc(b, m, r);
    SortThreeLastMiddle(b, m, r);
  }

  lemma ToggleStep(b: Todo, r: Todo, m: Todo)
    requires !b.completed && b.priority == High && !r.completed && r.priority == Medium
    requires !m.completed && m.priority == Low && r.id != b.id && m.id != b.id
    ensures UpdateLocal([b, r, m], b.id, TogglePatch(true), 4)
         == [r, m, ApplyPatch(b, TogglePatch(true), 4)]
  {
    var d := ApplyPatch(b, TogglePatch(true), 4);
    assert MapPatch([b, r, m], b.id, TogglePatch(true), 4) == [d, r, m];
    SortThreeFirstLast(d, r, m);
  }

  lemma ListFacts(b: Todo, r: Todo, m: Todo, d: Todo)
    requires !r.completed && !m.completed && d.completed
    ensures Titles([b, r, m]) == [b.title, r.title, m.title]
    ensures Titles([r, m, d]) == [r.title, m.title, d.title]
    ensures CountsOf([r, m, d]) == Counts(3, 2, 1)
  {
    var l := [r, m, d];
    assert l[1..] == [m, d] && l[1..][1..] == [d] && l[1..][1..][1..] == [];
    assert CountWhere([d], false) == 0 && CountWhere([d], true) == 1;
    assert CountWhere([m, d], false) == 1 && CountWhere([m, d], true) == 1;
  }

  /** Adding "Buy milk" (low), "Call bank" (high) and "Pay rent" (medium), in that order, lists
      them by priority; completing "Call bank" moves it last, leaving two active tasks and one
      completed. */
  lemma AddThenToggleScenario(milk: string, bank: string, rent: string,
                              idMilk: string, idBank: string, idRent: string)
    requires PlainTitle(milk) && PlainTitle(bank) && PlainTitle(rent)
    requires idMilk != idBank && idRent != idBank
    ensures var l1 := AddLocal([], milk, Low, idMilk, 1);
      var l2 := AddLocal(l1, bank, High, idBank, 2);
      var l3 := AddLocal(l2, rent, Medium, idRent, 3);
      var l4 := UpdateLocal(l3, idBank, TogglePatch(true), 4);
      && Titles(l3) == [bank, rent, milk]
      && Titles(l4) == [rent, milk, bank]
      && CountsOf(l4) == Counts(3, 2, 1)
  {
    var m, b, r := NewTodo(idMilk, milk, Low, 1), NewTodo(idBank, bank, High, 2),
                   NewTodo(idRent, rent, Medium, 3);
    FirstAdd(milk, idMilk);
    SecondAdd(m, bank, idBank);
    ThirdAdd(b, m, rent, idRent);
    ToggleStep(b, r, m);
    ListFacts(b, r, m, ApplyPatch(b, TogglePatch(true), 4));
  }
}
