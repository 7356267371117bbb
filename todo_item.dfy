/** One row of the list, src/components/TodoItem.tsx: the completion toggle, the inline title
    editor (`editing`, `editTitle`), the priority select and the delete button. Each control's
    callback invocation is returned as an ItemCall. */
module TodoItem {
  import opened Wrappers
  import opened Types
  import opened JsString
  import opened UseTodos

  /** The `maxLength` of the edit input. */
  const InputMaxLength: nat := 500

  datatype KeyPress = Enter | Escape | OtherKey

  /** The callbacks the item invokes: `onToggle`, `onUpdate` and `onDelete`. */
  datatype ItemCall =
    | OnToggle(id: string, completed: bool)
    | OnUpdate(id: string, patch: Patch)
    | OnDelete(id: string)

  function TitlePatch(title: string): Patch {
    Patch(Some(title), None, None)
  }

  function PriorityPatch(priority: Priority): Patch {
    Patch(None, None, Some(priority))
  }

  /** `handleSaveEdit` issues an update exactly when the trimmed input is non-empty and differs
      from the record's title. */
  predicate SavesTitle(trimmed: string, current: string) {
    trimmed != [] && trimmed != current
  }

  class TodoItem {
    /** The `todo` prop, as last rendered. */
    var todo: Todo
    var editing: bool
    var editTitle: string

    /** `useState(false)` and `useState(todo.title)`. */
    constructor (todo: Todo)
      ensures this.todo == todo && !editing && editTitle == todo.title
    {
      this.todo := todo;
      editing := false;
      editTitle := todo.title;
    }

    /** A re-render with a new `todo` prop for the same record (the list keys items by id):
        the component's own state is kept. */
    method Rerender(t: Todo)
      requires t.id == todo.id
      modifies this
      ensures todo == t && editing == old(editing) && editTitle == old(editTitle)
    {
      todo := t;
    }

    /** The edit button, shown only while not editing. */
    method StartEditing()
      requires !editing
      modifies this
      ensures editing && todo == old(todo) && editTitle == old(editTitle)
    {
      editing := true;
    }

    /** The edit input's `onChange`. `maxLength` stops insertions past 500 characters but does
        not shorten a value that starts out longer (the buffer starts as the record's title), so
        a value is either within the cap or shorter than the buffer it replaces. */
    method SetEditTitle(value: string)
      requires editing && (|value| <= InputMaxLength || |value| < |editTitle|)
      modifies this
      ensures editTitle == value && editing && todo == old(todo)
    {
      editTitle := value;
    }

    /** `handleSaveEdit` (also the input's `onBlur`): a non-empty trimmed title that differs
        from the record's is sent as an update of the title alone; otherwise nothing is sent
        and the input reverts to the record's title. Editing ends either way. */
    method HandleSaveEdit() returns (call: Option<ItemCall>)
      requires editing
      modifies this
      ensures !editing && todo == old(todo)
      ensures SavesTitle(Trim(old(editTitle)), todo.title) ==>
        call == Some(OnUpdate(todo.id, TitlePatch(Trim(old(editTitle))))) && editTitle == old(editTitle)
      ensures !SavesTitle(Trim(old(editTitle)), todo.title) ==>
        call == None && editTitle == todo.title
    {
      var trimmed := Trim(editTitle);
      if SavesTitle(trimmed, todo.title) {
        call := Some(OnUpdate(todo.id, TitlePatch(trimmed)));
      } else {
        call := None;
        editTitle := todo.title;
      }
      editing := false;
    }

    /** `handleKeyDown`: Enter saves; Escape reverts the input and ends editing without an
        update; any other key changes nothing. */
    method HandleKeyDown(key: KeyPress) returns (call: Option<ItemCall>)
      requires editing
      modifies this
      ensures todo == old(todo)
      ensures key == Enter && SavesTitle(Trim(old(editTitle)), todo.title) ==>
        && !editing
        && call == Some(OnUpdate(todo.id, TitlePatch(Trim(old(editTitle)))))
        && editTitle == old(editTitle)
      ensures key == Enter && !SavesTitle(Trim(old(editTitle)), todo.title) ==>
        !editing && call == None && editTitle == todo.title
      ensures key == Escape ==> call == None && !editing && editTitle == todo.title
      ensures key == OtherKey ==> call == None && editing && editTitle == old(editTitle)
    {
      call := None;
      if key == Enter {
        call := HandleSaveEdit();
      }
      if key == Escape {
        editTitle := todo.title;
        editing := false;
      }
    }

    /** The completion checkbox: `onToggle(todo.id, !todo.completed)`. */
    method Toggle() returns (call: ItemCall)
      ensures call.OnToggle? && call.id == todo.id && call.completed != todo.completed
    {
      call := OnToggle(todo.id, !todo.completed);
    }

    /** The priority select, shown only while editing: an update carrying only the priority. */
    method ChangePriority(priority: Priority) returns (call: ItemCall)
      requires editing
      ensures call == OnUpdate(todo.id, Patch(None, None, Some(priority)))
    {
      call := OnUpdate(todo.id, PriorityPatch(priority));
    }

    /** The delete button, shown only while not editing: `onDelete(todo.id)`. */
    method Delete() returns (call: ItemCall)
      requires !editing
      ensures call == OnDelete(todo.id)
    {
      call := OnDelete(todo.id);
    }
  }

  /** A title `handleSaveEdit` sends is never empty and never padded with white space, so
      `addTodo`'s check would reject it only for its length; a buffer within the edit input's
      cap always passes. `updateTodo` itself checks none of this. */
  lemma SavedTitleWithinInputLimit(editTitle: string, current: string)
    requires SavesTitle(Trim(editTitle), current)
    ensures Trim(Trim(editTitle)) == Trim(editTitle)
    ensures AcceptsTitle(Trim(editTitle)) <==> |Trim(editTitle)| <= TitleMaxLength
    ensures |editTitle| <= InputMaxLength ==> AcceptsTitle(Trim(editTitle))
  {
    TrimIdempotent(editTitle);
  }

  /** A record whose title is already longer than 500 characters (written by another client)
      is saved back over-long: a plain blur of its row, after a trailing space in the stored
      title, sends a trimmed title that `addTodo` would reject. */
  lemma OverlongTitleSavedBack(s: string)
    requires s != [] && Trimmed(s) && |s| > TitleMaxLength
    ensures var stored := s + [' '];
      && SavesTitle(Trim(stored), stored) && Trim(stored) == s && !AcceptsTitle(Trim(stored))
  {
    var stored := s + [' '];
    TrimTrailingSpace(s);
    assert |stored| == |s| + 1;
  }

  /** Dispatching the toggle of the record at index `k` to a local-mode store flips that
      record's completion and leaves its title and priority as they were. */
  lemma ToggleFlipsCompletion(list: seq<Todo>, k: nat, now: nat)
    requires UniqueIds(list) && k < |list|
    ensures var u := list[k]; var r := UpdateLocal(list, u.id, TogglePatch(!u.completed), now);
      && ApplyPatch(u, TogglePatch(!u.completed), now) in r
      && forall t :: t in r && t.id == u.id ==>
           t.completed == !u.completed && t.title == u.title && t.priority == u.priority
  {
    var u := list[k];
    var p := ApplyPatch(u, TogglePatch(!u.completed), now);
    UpdateLocalEffect(list, u.id, TogglePatch(!u.completed), now, k);
    assert list[k := p][k] == p;
    assert p in multiset(list[k := p]);
    assert p in multiset(UpdateLocal(list, u.id, TogglePatch(!u.completed), now));
  }
}
