# Smart Tasker task store in Dafny

A model of the in-memory task store of the Smart Tasker to-do application
(`App.tsx`). The store is four pieces of component state: the list of tasks
(`Todo` records with id, text, completed flag and creation time), the view
filter (ALL, ACTIVE or COMPLETED), the `isGenerating` flag and an error
banner. The event handlers add a task, add a batch of tasks produced by the
goal-expansion service, toggle, delete and clear completed tasks. Each one
replaces the list with a freshly computed sequence. The visible list and the
"tasks remaining" tally are filters of the list.

- `types.dfy`, module `Types`: the `Todo` and `FilterType` records of
  `types.ts` and the id predicates (`UniqueIds`, `HasId`, `FreshIds`).
- `todo_store.dfy`, module `TodoStore`: the list computations as pure
  functions, with the properties the store relies on as lemmas. These are
  order preservation, "only the matching task changes", the
  ACTIVE/COMPLETED partition, idempotence of clear, involution of toggle
  and preservation of unique ids.
- `app.dfy`, module `App`: class `TodoApp` holds the four state variables.
  Its methods are the handlers. Each method updates the state through a
  `TodoStore` function and keeps the invariant that ids are unique.

The goal-expansion call is an input value, `GenOutcome = Tasks(texts) | Failure`.
`Failure` stands for an exception thrown by the service. Fresh ids
(`crypto.randomUUID`) and timestamps (`Date.now`) are parameters. Every new
id must differ from every id already in the list and from the other new ids.

Two points of the source worth stating plainly:
- `deleteTodo` (App.tsx:77) filters out every task carrying the id.
  `TodoStore.DeleteRemovesOne` shows it removes exactly one task when ids are
  unique.
- An empty result (App.tsx:46-48) and a thrown failure (App.tsx:61-62) both
  leave the list unchanged but raise different banners. `GenerateTasks`
  models both.

## Model

| member | source | states |
|---|---|---|
| `TodoStore.AddTodo` | App.tsx:31-39 | length grows by one; the head has the given id, text and timestamp and is not completed; the old list follows unchanged |
| `TodoStore.AddTodoUniqueIds` | App.tsx:31-39 | adding a task with a fresh id keeps ids unique |
| `TodoStore.AddTodoView` | App.tsx:31-39 | a task just added heads the ALL and ACTIVE views, ahead of their old contents, and is absent from the COMPLETED view |
| `TodoStore.NewTodos` | App.tsx:51-56 | one task per generated text, in the order of the texts, each with its own id and timestamp, none completed |
| `TodoStore.AddBatch` | App.tsx:51-60 | the generated tasks form one block at the front, in text order and not completed, followed by the unchanged old list |
| `TodoStore.AddBatchOfOne` | App.tsx:31-60 | a batch of one text gives the same list as adding that text alone |
| `TodoStore.AddBatchUniqueIds` | App.tsx:51-60 | a batch with pairwise distinct, fresh ids keeps ids unique |
| `TodoStore.Toggle` | App.tsx:68-74 | length, order, ids, texts and timestamps unchanged; `completed` is flipped exactly on the tasks whose id matches; other tasks are identical |
| `TodoStore.ToggleTwice` | App.tsx:68-74 | toggling the same id twice restores the original list |
| `TodoStore.ToggleUnknownId` | App.tsx:68-74 | toggling an id no task carries is a no-op |
| `TodoStore.ToggleUniqueIds` | App.tsx:68-74 | toggling keeps ids unique |
| `TodoStore.Delete` | App.tsx:76-78 | the result is an order-preserving subsequence; no task carries the id; every task with another id is kept |
| `TodoStore.DeleteCounts` | App.tsx:76-78 | every task with another id keeps exactly as many copies as in the old list; the tasks carrying the id keep none |
| `TodoStore.DeleteUnknownId` | App.tsx:76-78 | deleting an id no task carries leaves the list unchanged |
| `TodoStore.DeleteRemovesOne` | App.tsx:76-78 | with unique ids, deleting a present id shortens the list by exactly one |
| `TodoStore.DeleteUniqueIds` | App.tsx:76-78 | deleting keeps ids unique |
| `TodoStore.ClearCompleted` | App.tsx:80-82 | the result is an order-preserving subsequence holding exactly the tasks not completed |
| `TodoStore.ClearCompletedCounts` | App.tsx:80-82 | every task not completed keeps exactly as many copies as in the old list; completed tasks keep none |
| `TodoStore.ClearCompletedNoCompleted` | App.tsx:80-82 | on a list with no completed task, clearing changes nothing |
| `TodoStore.ClearCompletedIdempotent` | App.tsx:80-82 | clearing twice equals clearing once |
| `TodoStore.ClearCompletedUniqueIds` | App.tsx:80-82 | clearing keeps ids unique |
| `TodoStore.ClearCompletedIsActiveView` | App.tsx:80-88 | what clearing leaves is exactly the ACTIVE view |
| `TodoStore.View` | App.tsx:84-88 | the view is an order-preserving subsequence holding exactly the tasks that match the filter |
| `TodoStore.ViewCounts` | App.tsx:84-88 | every task matching the filter appears exactly as often as in the list; the others not at all |
| `TodoStore.ViewAll` | App.tsx:84-88 | the ALL view is the whole list |
| `TodoStore.ViewPartition` | App.tsx:84-88 | the ACTIVE and COMPLETED views are disjoint, cover the list, and their lengths add up to its length |
| `TodoStore.ActiveCount` | App.tsx:90 | the tally equals the length of the ACTIVE view, and with the COMPLETED view's length it sums to the list length |
| `App.TodoApp.constructor` | App.tsx:9-12 | initial state: empty list, ALL filter, nothing in flight, no error; ids trivially unique |
| `App.TodoApp.AddTodo` | App.tsx:31-39 | with a fresh id and non-blank text, the list becomes `AddTodo` of the old list; nothing else changes; ids stay unique |
| `App.TodoApp.GenerateTasks` | App.tsx:41-66 | a failure or an empty result leaves the list unchanged and sets the matching error; a non-empty result prepends the batch and clears the error; the in-flight flag is false afterwards in every case |
| `App.TodoApp.ToggleTodo` | App.tsx:68-74 | the list becomes `Toggle` of the old list; nothing else changes; ids stay unique |
| `App.TodoApp.DeleteTodo` | App.tsx:76-78 | the list becomes `Delete` of the old list; nothing else changes; ids stay unique |
| `App.TodoApp.ClearCompleted` | App.tsx:80-82 | the list becomes `ClearCompleted` of the old list; nothing else changes; ids stay unique |
| `App.TodoApp.SetFilter` | App.tsx:139 | only the filter changes |
| `App.TodoApp.DismissError` | App.tsx:125 | only the error is cleared |
| `App.TodoApp.FilteredTodos` | App.tsx:84-88 | returns the view of the list under the current filter; under ALL it is the whole list |
| `App.TodoApp.ActiveCount` | App.tsx:90 | returns the length of the ACTIVE view whatever the current filter is; at most the list length |

## Left out

- Loading from and saving to `localStorage` (App.tsx:15-29) is browser I/O plus JSON parsing and printing, so it is not modelled. The constructor's empty list is also the state a missing or unreadable saved list leaves.
- The generation service (`services/aiService.ts`) is a call into a foreign SDK. Only its outcome is modelled, as `GenOutcome`. Its array-or-empty normalisation and its re-throw become the `Tasks`/`Failure` cases. For that reason the goal string is not a parameter of `GenerateTasks`. `Tasks` carries strings, but services/aiService.ts:31-32 checks only that the reply is an array, so a reply that breaks the response schema would pass non-string elements through as task texts; the model does not capture that.
- `crypto.randomUUID` and `Date.now` are foreign calls. They become parameters, and freshness of ids is a precondition.
- The `await` suspension and the `isGenerating` re-entrancy gate (App.tsx:41-65, components/TodoInput.tsx) are not modelled, because they are about concurrency. One generation is one atomic step, so the flag is only observed as false afterwards.
- Trimming of the input field (components/TodoInput.tsx) is not modelled; it only appears as the precondition `!IsBlank(text)` on `App.TodoApp.AddTodo`. `IsBlank` covers space, tab, line feed and carriage return, not every white-space character that `String.trim` strips. Generated texts are not checked, as in the source.
- The two error messages are shown as the values of `AppError`, not as their strings.
- Rendering, styling, and the condition that shows the "clear completed" button (App.tsx:92-203) are presentation and are not modelled. So are the components `TodoItem` and `Button`.
- The `App.TodoApp` methods that change the list require the unique-id invariant `Valid()`. The source never checks it. It holds for ids from the fresh-id generator. A list loaded from storage (App.tsx:19) is a second source of ids; it is left out with the storage code, so its ids are not known to be unique.
