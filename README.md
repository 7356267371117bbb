# Todo list store — a Dafny model

This project models the core of a single-user todo list web application: the store hook
`useTodos` (`src/hooks/useTodos.ts`), the counts shown on the home page
(`src/pages/Home.tsx`), the add form (`src/components/TodoForm.tsx`) and the per-task row with
its inline editor (`src/components/TodoItem.tsx`).

A task record (`Types.Todo`) has an id, a title, a completion flag, a priority (high, medium,
low) and creation and update timestamps. The store keeps the list of records, a `loading` flag
and an `error` message. It works in one of two modes:

- **local mode** (no backend configured): `addTodo`, `updateTodo` and `toggleComplete` rewrite
  the list in memory and re-sort it; `deleteTodo` filters the record out and keeps the order;
- **remote mode**: the commands only issue writes to the document store, and the list is
  replaced wholesale by every snapshot of the change feed, which is normalised and re-sorted.

The display order (`sortTodos`) is a stable sort that puts incomplete records before completed
ones and orders each part by priority rank (high 0, medium 1, low 2).

The modules follow the source files; `useTodos.ts` is split into its sort and its store, and three modules (`Wrappers`, `JsString`, `Scenarios`) have no source file of their own:

| file | module | models |
|---|---|---|
| `wrappers.dfy` | `Wrappers` | an `Option` type for absent fields and absent messages |
| `types.dfy` | `Types` | the todo record, partial updates, stored documents |
| `js_string.dfy` | `JsString` | `String.prototype.trim` as ECMA-262 defines it |
| `sort_todos.dfy` | `TodoSort` | `priorityOrder` and `sortTodos` |
| `use_todos.dfy` | `UseTodos` | the local-mode list transitions as functions, and the hook's state as the class `TodoStore` |
| `home.dfy` | `Home` | the `counts` selector |
| `todo_form.dfy` | `TodoForm` | the add form as a class with its two fields |
| `todo_item.dfy` | `TodoItem` | the row's edit state machine as a class, and the calls it makes |
| `scenarios.dfy` | `Scenarios` | an add-then-complete walk through the local store |

The sort is modelled as a stable insertion sort using the source's comparator.
`TodoSort.StableSortIsSortTodos` proves that every stable sort by that comparator gives the same
list, so the algorithm a JavaScript engine actually uses does not matter.

Remote writes are modelled as a log of requests (`UseTodos.Request`) that the store appends to.
The uuid generator and the clock are parameters (`id`, `now`) of the operations that use them.

## Model

| member | source | states |
|---|---|---|
| `JsString.LeadingWhiteSpace` | src/hooks/useTodos.ts:85 | the count it returns covers only white space and stops at the first non-white-space character |
| `JsString.TrailingWhiteSpace` | src/hooks/useTodos.ts:85 | the same for the white space at the end of the string |
| `JsString.Trim` | src/hooks/useTodos.ts:85 | the result is no longer than the input and starts and ends with no white space; it is empty exactly when the input is all white space |
| `JsString.TrimUnique` | src/hooks/useTodos.ts:85 | trimming white space + m + white space gives back m whenever m has no white space at either end, so `Trim` is the only function with that behaviour |
| `JsString.TrimIdempotent` | src/components/TodoForm.tsx:19-21 | trimming an already trimmed title changes nothing, so the store's trim of a submitted title is a no-op |
| `TodoSort.PriorityRank` | src/hooks/useTodos.ts:22-26 | the rank is below 3; it is 0 exactly for high and 2 exactly for low |
| `TodoSort.Compare` | src/hooks/useTodos.ts:29-34 | the comparator passed to `sort`, as written; its meaning, an order on one numeric key that is zero exactly for equal completion and priority, is stated by `TodoSort.CompareIsKeyOrder` |
| `TodoSort.CompareIsKeyOrder` | src/hooks/useTodos.ts:29-34 | the comparator's sign is the comparison of one numeric key; it returns 0 exactly for equal completion and equal priority |
| `TodoSort.SortTodos` | src/hooks/useTodos.ts:28-35 | the result has the same length and the same records as the input, and no pair of records in it is out of order |
| `TodoSort.SortTodosIsStable` | src/hooks/useTodos.ts:28-35 | records with equal completion and priority keep their relative input order |
| `TodoSort.StableSortIsSortTodos` | src/hooks/useTodos.ts:28-35 | any ordered list that keeps every class of equal records in input order equals `SortTodos` of the input |
| `TodoSort.SortTodosOfSorted` | src/hooks/useTodos.ts:28-35 | a list already in order is returned unchanged |
| `TodoSort.SortTodosIdempotent` | src/hooks/useTodos.ts:28-35 | sorting a sorted result again changes nothing |
| `TodoSort.SortTodosOrder` | src/hooks/useTodos.ts:29-33 | every incomplete record comes before every completed one, and within equal completion the priority rank never decreases |
| `UseTodos.SortTodosKeepsUniqueIds` | src/hooks/useTodos.ts:28-35 | sorting a list with distinct ids keeps the ids distinct |
| `UseTodos.AcceptsTitle` | src/hooks/useTodos.ts:85-86 | the definition of `addTodo`'s title check: the trimmed title is non-empty and at most 500 long; `UseTodos.AddLocalEffect` states what each outcome does |
| `UseTodos.NewTodo` | src/hooks/useTodos.ts:90-97 | the definition of the record `addTodo` builds; `UseTodos.AddLocalEffect` states its fields as they appear in the list |
| `UseTodos.AddLocal` | src/hooks/useTodos.ts:85-110 | the definition of the local branch of `addTodo`; its properties are stated by `UseTodos.AddLocalEffect` |
| `UseTodos.AddLocalEffect` | src/hooks/useTodos.ts:83-110 | an empty or over-long trimmed title leaves the list unchanged; an accepted one adds exactly one record with the given id, the trimmed title, not completed, the given priority and equal timestamps; ids stay distinct and the list is in order |
| `UseTodos.ApplyPatch` | src/hooks/useTodos.ts:129 | the definition of `{ ...t, ...updates, updatedAt }`; `UseTodos.UpdateLocalEffect` states field by field what the updated record holds |
| `UseTodos.MapPatch` | src/hooks/useTodos.ts:127-131 | every record keeps its position; the records with the id get the update's fields and the new `updatedAt`, all others are unchanged |
| `UseTodos.UpdateLocal` | src/hooks/useTodos.ts:125-133 | the definition of the local branch of `updateTodo`; its properties are stated by `UseTodos.UpdateLocalEffect`, `UseTodos.UpdateLocalUnknownId` and `UseTodos.UpdateLocalTwice` |
| `UseTodos.TogglePatch` | src/hooks/useTodos.ts:149 | the definition of the update `toggleComplete` passes on; `TodoItem.ToggleFlipsCompletion` states its effect |
| `UseTodos.UpdateLocalEffect` | src/hooks/useTodos.ts:124-134 | the list keeps its length, distinct ids and order; it holds the same records except the updated one; the updated record takes each supplied field, keeps the others and its `createdAt`, and gets `updatedAt` = now |
| `UseTodos.UpdateLocalUnknownId` | src/hooks/useTodos.ts:124-134 | updating an id that no record has leaves an ordered list unchanged |
| `UseTodos.UpdateLocalTwice` | src/hooks/useTodos.ts:124-134 | applying the same update twice equals applying it once at the later time |
| `UseTodos.DeleteLocal` | src/hooks/useTodos.ts:143 | the list never grows |
| `UseTodos.DeleteLocalEffect` | src/hooks/useTodos.ts:143 | every record with the id is removed and every other record kept as often as before, in its original order; order and distinct ids are preserved |
| `UseTodos.DeleteLocalTwice` | src/hooks/useTodos.ts:143 | deleting the same id twice is the same as deleting it once |
| `UseTodos.DeleteThenUpdate` | src/hooks/useTodos.ts:124-145 | an update that arrives after the record was deleted changes nothing |
| `UseTodos.Normalize` | src/hooks/useTodos.ts:59-67 | the definition of the mapping of one document to a record; its defaults are stated by `UseTodos.NormalizeDefaults` |
| `UseTodos.NormalizeAll` | src/hooks/useTodos.ts:58-68 | one record per document, in feed order |
| `UseTodos.NormalizeDefaults` | src/hooks/useTodos.ts:60-67 | a missing title becomes "", a missing completion flag false, a missing priority medium; id and timestamps are taken from the document |
| `UseTodos.FromSnapshot` | src/hooks/useTodos.ts:58-69 | the definition of the list a snapshot produces; its properties are stated by `UseTodos.FromSnapshotEffect` and `UseTodos.SnapshotKeepsFeedOrderInGroups` |
| `UseTodos.FromSnapshotEffect` | src/hooks/useTodos.ts:57-69 | the new list has one record per document, is in order, has distinct ids and holds exactly the normalised documents |
| `UseTodos.SnapshotKeepsFeedOrderInGroups` | src/hooks/useTodos.ts:50-53 | with the feed ordered newest first, each class of equal records in the list is still newest first |
| `UseTodos.TodoStore.constructor` | src/hooks/useTodos.ts:38-48 | the list starts empty with no error; it is loading exactly when a backend is configured |
| `UseTodos.TodoStore.AddTodo` | src/hooks/useTodos.ts:83-113 | local mode: the list becomes `AddLocal` of the old one; remote mode: the list is unchanged and one create request is issued exactly when the title is accepted |
| `UseTodos.TodoStore.UpdateTodo` | src/hooks/useTodos.ts:115-137 | local mode: the list becomes `UpdateLocal` of the old one; remote mode: the list is unchanged and one update request with the given fields is issued |
| `UseTodos.TodoStore.ToggleComplete` | src/hooks/useTodos.ts:147-152 | the same as `UpdateTodo` with an update that sets only the completion flag |
| `UseTodos.TodoStore.DeleteTodo` | src/hooks/useTodos.ts:139-145 | local mode: the list becomes `DeleteLocal` of the old one; remote mode: the list is unchanged and one delete request is issued |
| `UseTodos.TodoStore.OnSnapshot` | src/hooks/useTodos.ts:57-72 | the list becomes the sorted normalised snapshot, the error is cleared and loading ends |
| `UseTodos.TodoStore.OnSnapshotError` | src/hooks/useTodos.ts:73-76 | the error becomes the message, or the default load message when there is none; loading ends; the list is kept |
| `UseTodos.TodoStore.OnWriteError` | src/hooks/useTodos.ts:107 | a failed write sets the error to its message and changes nothing else |
| `Home.CountWhere` | src/pages/Home.tsx:25-26 | a filtered count never exceeds the list's length |
| `Home.CountsOf` | src/pages/Home.tsx:22-29 | the definition of the `counts` selector; its properties are stated by `Home.CountsAddUp`, `Home.CountsPermutationInvariant` and `Home.CountsOfSorted` |
| `Home.CountsAddUp` | src/pages/Home.tsx:22-29 | active + completed = all, and the empty list has all counts zero |
| `Home.CountsPermutationInvariant` | src/pages/Home.tsx:22-29 | the counts depend only on which records the list holds, not on their order |
| `Home.CountsOfSorted` | src/pages/Home.tsx:22-29 | sorting the list does not change the counts |
| `TodoForm.TodoForm.constructor` | src/components/TodoForm.tsx:14-15 | the form starts with an empty title and medium priority |
| `TodoForm.TodoForm.SetTitle` | src/components/TodoForm.tsx:34-36 | the title takes the typed value, which the input caps at 500 characters |
| `TodoForm.TodoForm.SetPriority` | src/components/TodoForm.tsx:44 | the priority takes the selected value; the title is kept and stays within the input's cap |
| `TodoForm.SubmitDisabled` | src/components/TodoForm.tsx:57 | the definition of when the add button is disabled; `TodoForm.TodoForm.HandleSubmit` submits exactly when it is not |
| `TodoForm.TodoForm.HandleSubmit` | src/components/TodoForm.tsx:17-24 | it submits exactly when the trimmed title is non-empty and the form is enabled; a submission carries the trimmed title and the current priority, passes `addTodo`'s title check, and resets the form; otherwise nothing changes |
| `TodoForm.SubmittedTitleAccepted` | src/components/TodoForm.tsx:17-36 | a title the form submits is non-empty, already trimmed and within the store's 500 limit, because the input caps its length |
| `TodoForm.SubmissionAccepted` | src/components/TodoForm.tsx:17-36 | every submission passes the store's title check, and a local-mode add stores exactly the submitted title |
| `TodoItem.TodoItem.constructor` | src/components/TodoItem.tsx:19-20 | a row starts out of edit mode, with the edit buffer holding the record's title |
| `TodoItem.TodoItem.Rerender` | src/components/TodoList.tsx:70-77 | a new version of the same record replaces the shown one; edit mode and edit buffer are kept |
| `TodoItem.TodoItem.StartEditing` | src/components/TodoItem.tsx:114 | edit mode is entered; the buffer is kept |
| `TodoItem.TodoItem.SetEditTitle` | src/components/TodoItem.tsx:73-76 | the edit buffer takes the typed value; the cap of 500 stops growth past 500 but lets a longer buffer (from an over-long record title) shrink |
| `TodoItem.SavesTitle` | src/components/TodoItem.tsx:32 | the definition of the condition under which an edit is sent; `TodoItem.TodoItem.HandleSaveEdit` and `TodoItem.SavedTitleWithinInputLimit` state what follows from it |
| `TodoItem.TodoItem.HandleSaveEdit` | src/components/TodoItem.tsx:30-38 | a non-empty trimmed title that differs from the current one is sent as a title update; otherwise nothing is sent and the buffer reverts; edit mode always ends |
| `TodoItem.TodoItem.HandleKeyDown` | src/components/TodoItem.tsx:40-46 | Enter saves as above; Escape reverts the buffer and leaves edit mode without sending; other keys change nothing |
| `TodoItem.TodoItem.Toggle` | src/components/TodoItem.tsx:56 | the call asks to set the record's completion flag to its opposite |
| `TodoItem.TodoItem.ChangePriority` | src/components/TodoItem.tsx:94-98 | the call is an update carrying only the chosen priority |
| `TodoItem.TodoItem.Delete` | src/components/TodoItem.tsx:122 | the call asks to delete the shown record |
| `TodoItem.SavedTitleWithinInputLimit` | src/components/TodoItem.tsx:30-33 | a saved edit title is non-empty and already trimmed, so the store's title check would reject it exactly when it is over 500; a buffer within the input's cap always passes; `updateTodo` checks none of this |
| `TodoItem.OverlongTitleSavedBack` | src/components/TodoItem.tsx:20-33 | a stored title over 500 characters with a trailing space is sent back on a plain blur, trimmed but still over 500, so it fails the store's title check |
| `TodoItem.ToggleFlipsCompletion` | src/components/TodoItem.tsx:56 | toggling a record in a local-mode store leaves the toggled record in the list, with its completion flipped and its title and priority kept |
| `Scenarios.AddThenToggleScenario` | src/hooks/useTodos.ts:83-152 | adding a low, a high and a medium task lists them high, medium, low; completing the high one moves it last and leaves counts 3 / 2 / 1 |

## Left out

- The document store itself is not modelled: creating, updating and deleting documents, the query, the subscription and unsubscribing. Writes are recorded as requests, and the change feed is the `OnSnapshot` and `OnSnapshotError` callbacks.
- The order in which asynchronous callbacks arrive is not modelled. Each callback is a method that may be called in any state, and a callback arriving after unmount is not modelled.
- Server-assigned timestamps are not modelled. A pending timestamp that reads as null in a snapshot cannot be expressed; timestamps are natural numbers, and a stored document always carries both.
- The uuid generator and the clock are parameters. `UseTodos.TodoStore.AddTodo` requires the new id to be absent from the list, which a uuid is taken to guarantee in both modes.
- `AcceptsTitle`, `Trim`: lengths count Unicode code points, where JavaScript counts UTF-16 code units. A title of 500 code points that uses characters outside the Basic Multilingual Plane is accepted here but rejected by the source.
- `UseTodos.NormalizeDefaults`: a document whose `priority` is present but not one of high, medium, low cannot be expressed. The source casts such a value unchecked.
- `UseTodos.TodoStore.OnWriteError`: a write error whose `message` is undefined is not modelled. The source would store `undefined` as the error.
- `TodoForm.TodoForm.SetTitle`: the input's 500-character cap is a precondition. The add form starts empty and is only reset to empty, so the cap holds for every value the handler receives.
- `TodoItem.TodoItem.SetEditTitle`, `TodoItem.SavedTitleWithinInputLimit`: the edit buffer starts as the record's title, and the cap does not shorten it. A record whose title is already over 500 characters can therefore be saved back over-long (`TodoItem.OverlongTitleSavedBack`). The 500 limit on a saved title is promised only for a buffer within the cap.
- `UseTodos.TodoStore.constructor`: the initial `loading` of true and the mount effect that clears it in local mode are one step. In the first render between them the list is empty and shows its loading placeholder, and the add form is disabled, so no command can be issued from that state.
- Focusing and selecting the edit input, the filter tabs, the priority badge, the list and board rendering, and styling are presentation only and not modelled.
- `UseTodos.UpdateLocalUnknownId`: stated for an ordered list, which is the only kind the store holds. On an unordered list the source would also re-sort it.
- `updateTodo` checks no title (src/hooks/useTodos.ts:115-137): any title, even an empty one, is written. The inline editor sends only non-empty trimmed titles (`TodoItem.SavedTitleWithinInputLimit`).
