/** The records shared by the task store (types.ts). */
module Types {

  /** One task of the list. `createdAt` is a millisecond timestamp. */
  datatype Todo = Todo(id: string, text: string, completed: bool, createdAt: int)

  /** The three mutually exclusive view modes of the list. */
  datatype FilterType = ALL | ACTIVE | COMPLETED

  /** No two tasks of the list share an id. */
  predicate UniqueIds(todos: seq<Todo>) {
    forall i, j :: 0 <= i < j < |todos| ==> todos[i].id != todos[j].id
  }

  /** Some task of the list carries `id`. */
  predicate HasId(todos: seq<Todo>, id: string) {
    exists t :: t in todos && t.id == id
  }

  /** The ids are pairwise distinct and none of them is already used in `todos`. */
  predicate FreshIds(ids: seq<string>, todos: seq<Todo>) {
    (forall i, j :: 0 <= i < j < |ids| ==> ids[i] != ids[j]) &&
    (forall i :: 0 <= i < |ids| ==> !HasId(todos, ids[i]))
  }
}
