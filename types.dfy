/** The todo record of src/types/todo.ts and the shapes the store exchanges with its callers. */
module Types {
  import opened Wrappers

  /** `TodoPriority`: 'high' | 'medium' | 'low'. */
  datatype Priority = High | Medium | Low

  /** `Todo`. Timestamps are modelled as natural numbers (milliseconds since the epoch). */
  datatype Todo = Todo(
    id: string,
    title: string,
    completed: bool,
    priority: Priority,
    createdAt: nat,
    updatedAt: nat)

  /** `Partial<Pick<Todo, 'title' | 'completed' | 'priority'>>`: an absent field is `None`. */
  datatype Patch = Patch(title: Option<string>, completed: Option<bool>, priority: Option<Priority>)

  /** A document of the remote collection as delivered by the change feed: the document id and
      the stored fields, any of which may be missing on old or malformed documents. */
  datatype RawDoc = RawDoc(
    id: string,
    title: Option<string>,
    completed: Option<bool>,
    priority: Option<Priority>,
    createdAt: nat,
    updatedAt: nat)

  /** No two records of the list share an id. */
  ghost predicate UniqueIds(s: seq<Todo>) {
    forall i, j :: 0 <= i < j < |s| ==> s[i].id != s[j].id
  }

  /** `id` is not the id of any record of the list. */
  predicate IdAbsent(s: seq<Todo>, id: string) {
    forall t :: t in s ==> t.id != id
  }
}
