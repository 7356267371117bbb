/** The new-task form of src/components/TodoForm.tsx: a title and a priority, submitted to
    `addTodo` only when the trimmed title is non-empty and the form is not disabled. */
module TodoForm {
  import opened Wrappers
  import opened Types
  import opened JsString
  import opened TodoSort
  import opened UseTodos

  /** The `maxLength` of the title input. */
  const InputMaxLength: nat := 500

  /** The call `onSubmit(title, priority)`. */
  datatype Submission = Submission(title: string, priority: Priority)

  /** The submit button's `disabled`: the trimmed title is empty, or the form is disabled. */
  predicate SubmitDisabled(title: string, disabled: bool) {
    Trim(title) == [] || disabled
  }

  class TodoForm {
    var title: string
    var priority: Priority

    /** The input never holds more than its `maxLength`. */
    ghost predicate Valid()
      reads this
    {
      |title| <= InputMaxLength
    }

    /** `useState('')` and `useState('medium')`. */
    constructor ()
      ensures Valid() && title == "" && priority == Medium
    {
      title := "";
      priority := Medium;
    }

    /** The title input's `onChange`; the browser delivers at most `maxLength` characters. */
    method SetTitle(value: string)
      requires |value| <= InputMaxLength
      modifies this
      ensures Valid() && title == value && priority == old(priority)
    {
      title := value;
    }

    /** The priority select's `onChange`. */
    method SetPriority(p: Priority)
      requires Valid()
      modifies this
      ensures Valid() && title == old(title) && priority == p
    {
      priority := p;
    }

    /** `handleSubmit`: returns the one `onSubmit` call it makes, if any. It submits exactly
        when the button would be enabled, sends the trimmed title with the current priority,
        and then resets the form; otherwise nothing is sent and nothing changes. */
    method HandleSubmit(disabled: bool) returns (call: Option<Submission>)
      requires Valid()
      modifies this
      ensures Valid()
      ensures call.Some? <==> !SubmitDisabled(old(title), disabled)
      ensures call.Some? ==>
        && call.value == Submission(Trim(old(title)), old(priority))
        && title == "" && priority == Medium
      ensures call.None? ==> title == old(title) && priority == old(priority)
      ensures call.Some? ==> AcceptsTitle(call.value.title)
    {
      var trimmed := Trim(title);
      if trimmed == [] || disabled {
        return None;
      }
      SubmittedTitleAccepted(title, disabled);
      call := Some(Submission(trimmed, priority));
      title := "";
      priority := Medium;
    }
  }

  /** A submission of the form is never rejected by `addTodo`: its title is non-empty, already
      trimmed, and within the store's limit because the input caps its length. */
  lemma SubmittedTitleAccepted(title: string, disabled: bool)
    requires |title| <= InputMaxLength && !SubmitDisabled(title, disabled)
    ensures AcceptsTitle(Trim(title)) && Trim(Trim(title)) == Trim(title)
  {
    TrimIdempotent(title);
  }

  /** So a local-mode `addTodo` of a submission adds the record with exactly the submitted
      title. */
  lemma SubmissionAccepted(title: string, disabled: bool, list: seq<Todo>, priority: Priority,
                           id: string, now: nat)
    requires |title| <= InputMaxLength && !SubmitDisabled(title, disabled)
    ensures AcceptsTitle(Trim(title))
    ensures AddLocal(list, Trim(title), priority, id, now)
         == SortTodos(list + [NewTodo(id, Trim(title), priority, now)])
  {
    SubmittedTitleAccepted(title, disabled);
  }
}
