/**
 * The component state of App.tsx: the task list, the filter, the in-flight
 * flag and the error banner, updated by the event handlers. Each handler
 * replaces the list by the value of a TodoStore function.
 */
module App {
  import opened Types
  import TodoStore

  datatype Option<T> = None | Some(value: T)

  /** What one call to the generation service produced: a list of texts, or a thrown failure. */
  datatype GenOutcome = Tasks(texts: seq<string>) | Failure

  /** The two error banners handleGenerateTasks can raise. */
  datatype AppError = NoTasksGenerated | ServiceFailed

  /** A text made only of white space, which the input field never submits. */
  predicate IsBlank(s: string) {
    forall i :: 0 <= i < |s| ==> s[i] in {' ', '\t', '\n', '\r'}
  }

  class TodoApp {
    var todos: seq<Todo>
    var filter: FilterType
    var isGenerating: bool
    var error: Option<AppError>

    /** The store's invariant: ids are unique. */
    predicate Valid()
      reads this
    {
      UniqueIds(todos)
    }

    /** The initial state: an empty list, the ALL filter, nothing in flight, no error. */
    constructor ()
      ensures Valid()
      ensures todos == [] && filter == ALL && !isGenerating && error == None
    {
      todos := [];
      filter := ALL;
      isGenerating := false;
      error := None;
    }

    /** addTodo, with a fresh id and the current time supplied by the caller. */
    method AddTodo(id: string, text: string, now: int)
      requires Valid()
      requires !HasId(todos, id)
      requires !IsBlank(text)
      modifies this
      ensures Valid()
      ensures todos == TodoStore.AddTodo(old(todos), id, text, now)
      ensures filter == old(filter) && isGenerating == old(isGenerating) && error == old(error)
    {
      TodoStore.AddTodoUniqueIds(todos, id, text, now);
      todos := TodoStore.AddTodo(todos, id, text, now);
    }

    /**
     * handleGenerateTasks, once the service has answered with `outcome`. `ids` and
     * `stamps` supply one fresh id and one timestamp per generated text.
     */
    method GenerateTasks(outcome: GenOutcome, ids: seq<string>, stamps: seq<int>)
      requires Valid()
      requires outcome.Tasks? ==>
        |ids| == |outcome.texts| && |stamps| == |outcome.texts| && FreshIds(ids, todos)
      modifies this
      ensures Valid()
      ensures !isGenerating && filter == old(filter)
      ensures outcome == Failure ==> todos == old(todos) && error == Some(ServiceFailed)
      ensures outcome == Tasks([]) ==> todos == old(todos) && error == Some(NoTasksGenerated)
      ensures outcome.Tasks? && outcome.texts != [] ==>
        todos == TodoStore.AddBatch(old(todos), outcome.texts, ids, stamps) && error == None
    {
      isGenerating := true;
      error := None;
      match outcome {
        case Failure =>
          error := Some(ServiceFailed);
        case Tasks(texts) =>
          if |texts| == 0 {
            error := Some(NoTasksGenerated);
          } else {
            TodoStore.AddBatchUniqueIds(todos, texts, ids, stamps);
            todos := TodoStore.AddBatch(todos, texts, ids, stamps);
          }
      }
      isGenerating := false;
    }

    /** toggleTodo. */
    method ToggleTodo(id: string)
      requires Valid()
      modifies this
      ensures Valid()
      ensures todos == TodoStore.Toggle(old(todos), id)
      ensures filter == old(filter) && isGenerating == old(isGenerating) && error == old(error)
    {
      TodoStore.ToggleUniqueIds(todos, id);
      todos := TodoStore.Toggle(todos, id);
    }

    /** deleteTodo. */
    method DeleteTodo(id: string)
      requires Valid()
      modifies this
      ensures Valid()
      ensures todos == TodoStore.Delete(old(todos), id)
      ensures filter == old(filter) && isGenerating == old(isGenerating) && error == old(error)
    {
      TodoStore.DeleteUniqueIds(todos, id);
      todos := TodoStore.Delete(todos, id);
    }

    /** clearCompleted. */
    method ClearCompleted()
      requires Valid()
      modifies this
      ensures Valid()
      ensures todos == TodoStore.ClearCompleted(old(todos))
      ensures filter == old(filter) && isGenerating == old(isGenerating) && error == old(error)
    {
      TodoStore.ClearCompletedUniqueIds(todos);
      todos := TodoStore.ClearCompleted(todos);
    }

    /** The filter buttons: only the filter changes. */
    method SetFilter(f: FilterType)
      modifies this
      ensures filter == f
      ensures todos == old(todos) && isGenerating == old(isGenerating) && error == old(error)
    {
      filter := f;
    }

    /** The Dismiss button of the error banner. */
    method DismissError()
      modifies this
      ensures error == None
      ensures todos == old(todos) && filter == old(filter) && isGenerating == old(isGenerating)
    {
      error := None;
    }

    /** filteredTodos: the tasks shown under the current filter. */
    method FilteredTodos() returns (shown: seq<Todo>)
      ensures shown == TodoStore.View(todos, filter)
      ensures filter == ALL ==> shown == todos
    {
      TodoStore.ViewAll(todos);
      shown := TodoStore.View(todos, filter);
    }

    /** activeCount: the number of tasks left to do, whatever the filter. */
    method ActiveCount() returns (n: nat)
      ensures n == |TodoStore.View(todos, ACTIVE)|
      ensures n <= |todos|
    {
      TodoStore.ViewPartition(todos);
      n := TodoStore.ActiveCount(todos);
    }
  }
}
