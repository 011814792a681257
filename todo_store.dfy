/**
 * The list computations of the task store (App.tsx): every handler replaces
 * the list by a fresh sequence built by prepending, mapping or filtering,
 * and the view and the remaining-tasks tally are filters of the list.
 */
module TodoStore {
  import opened Types

  /** `r` is obtained from `s` by dropping some elements, keeping the order of the rest. */
  ghost predicate IsSubsequence(r: seq<Todo>, s: seq<Todo>)
    decreases |s|
  {
    if s == [] then r == []
    else IsSubsequence(r, s[1..]) || (r != [] && r[0] == s[0] && IsSubsequence(r[1..], s[1..]))
  }

  lemma {:induction false} SubsequenceMembers(r: seq<Todo>, s: seq<Todo>)
    requires IsSubsequence(r, s)
    ensures |r| <= |s|
    ensures forall t :: t in r ==> t in s
    decreases |s|
  {
    if s != [] {
      if IsSubsequence(r, s[1..]) {
        SubsequenceMembers(r, s[1..]);
      } else {
        SubsequenceMembers(r[1..], s[1..]);
        assert r == [r[0]] + r[1..];
      }
    }
  }

  /** Dropping elements never makes two ids collide. */
  lemma {:induction false} SubsequenceUniqueIds(r: seq<Todo>, s: seq<Todo>)
    requires IsSubsequence(r, s) && UniqueIds(s)
    ensures UniqueIds(r)
    decreases |s|
  {
    if s != [] {
      assert UniqueIds(s[1..]) by {
        forall i, j | 0 <= i < j < |s[1..]| ensures s[1..][i].id != s[1..][j].id {
          assert s[1..][i] == s[i + 1] && s[1..][j] == s[j + 1];
        }
      }
      if IsSubsequence(r, s[1..]) {
        SubsequenceUniqueIds(r, s[1..]);
      } else {
        SubsequenceUniqueIds(r[1..], s[1..]);
        SubsequenceMembers(r[1..], s[1..]);
        forall j | 1 <= j < |r| ensures r[0].id != r[j].id {
          assert r[j] == r[1..][j - 1];
          assert r[j] in r[1..];
          var k :| 0 <= k < |s[1..]| && s[1..][k] == r[j];
          assert s[k + 1] == r[j];
        }
        forall i, j | 0 <= i < j < |r| ensures r[i].id != r[j].id {
          if i > 0 {
            assert r[i] == r[1..][i - 1] && r[j] == r[1..][j - 1];
          }
        }
      }
    }
  }

  // ---------------------------------------------------------------- addTodo

  /** addTodo: the new task is put in front of the list. */
  function AddTodo(todos: seq<Todo>, id: string, text: string, now: int): (r: seq<Todo>)
    ensures |r| == |todos| + 1
    ensures r[0].id == id && r[0].text == text && !r[0].completed && r[0].createdAt == now
    ensures r[1..] == todos
  {
    [Todo(id, text, false, now)] + todos
  }

  lemma AddTodoUniqueIds(todos: seq<Todo>, id: string, text: string, now: int)
    requires UniqueIds(todos) && !HasId(todos, id)
    ensures UniqueIds(AddTodo(todos, id, text, now))
  {
  }

  /** A task just added heads the ALL and ACTIVE views and is absent from the COMPLETED view. */
  lemma AddTodoView(todos: seq<Todo>, id: string, text: string, now: int, f: FilterType)
    ensures View(AddTodo(todos, id, text, now), f)
         == if f == COMPLETED then View(todos, f) else [Todo(id, text, false, now)] + View(todos, f)
  {
  }

  // ---------------------------------------------------------- generated batch

  /** The tasks made from generated texts: one per text, in the same order, none completed. */
  function NewTodos(texts: seq<string>, ids: seq<string>, stamps: seq<int>): (r: seq<Todo>)
    requires |ids| == |texts| && |stamps| == |texts|
    ensures |r| == |texts|
    ensures forall i :: 0 <= i < |texts| ==>
      r[i].id == ids[i] && r[i].text == texts[i] && !r[i].completed && r[i].createdAt == stamps[i]
    decreases |texts|
  {
    if texts == [] then []
    else [Todo(ids[0], texts[0], false, stamps[0])] + NewTodos(texts[1..], ids[1..], stamps[1..])
  }

  /** The success path of handleGenerateTasks: the new tasks form one block ahead of the old list. */
  function AddBatch(todos: seq<Todo>, texts: seq<string>, ids: seq<string>, stamps: seq<int>): (r: seq<Todo>)
    requires |ids| == |texts| && |stamps| == |texts|
    ensures |r| == |texts| + |todos|
    ensures forall i :: 0 <= i < |texts| ==>
      r[i].id == ids[i] && r[i].text == texts[i] && !r[i].completed && r[i].createdAt == stamps[i]
    ensures r[|texts|..] == todos
  {
    NewTodos(texts, ids, stamps) + todos
  }

  /** A batch of one text is the same as adding that text alone. */
  lemma AddBatchOfOne(todos: seq<Todo>, text: string, id: string, now: int)
    ensures AddBatch(todos, [text], [id], [now]) == AddTodo(todos, id, text, now)
  {
  }

  lemma AddBatchUniqueIds(todos: seq<Todo>, texts: seq<string>, ids: seq<string>, stamps: seq<int>)
    requires |ids| == |texts| && |stamps| == |texts|
    requires UniqueIds(todos) && FreshIds(ids, todos)
    ensures UniqueIds(AddBatch(todos, texts, ids, stamps))
  {
  }

  // -------------------------------------------------------------- toggleTodo

  /** toggleTodo: flips `completed` of the tasks carrying `id`; everything else stays. */
  function Toggle(todos: seq<Todo>, id: string): (r: seq<Todo>)
    ensures |r| == |todos|
    ensures forall i :: 0 <= i < |todos| ==>
      r[i].id == todos[i].id && r[i].text == todos[i].text && r[i].createdAt == todos[i].createdAt &&
      r[i].completed == (if todos[i].id == id then !todos[i].completed else todos[i].completed)
    ensures forall i :: 0 <= i < |todos| && todos[i].id != id ==> r[i] == todos[i]
  {
    if todos == [] then []
    else
      var t := todos[0];
      [if t.id == id then t.(completed := !t.completed) else t] + Toggle(todos[1..], id)
  }

  /** Toggling the same id twice restores the list. */
  lemma ToggleTwice(todos: seq<Todo>, id: string)
    ensures Toggle(Toggle(todos, id), id) == todos
  {
  }

  /** Toggling an id no task carries changes nothing. */
  lemma ToggleUnknownId(todos: seq<Todo>, id: string)
    requires !HasId(todos, id)
    ensures Toggle(todos, id) == todos
  {
  }

  lemma ToggleUniqueIds(todos: seq<Todo>, id: string)
    requires UniqueIds(todos)
    ensures UniqueIds(Toggle(todos, id))
  {
  }

  // -------------------------------------------------------------- deleteTodo

  /** deleteTodo: drops every task carrying `id`, the others keep their order. */
  function Delete(todos: seq<Todo>, id: string): (r: seq<Todo>)
    ensures IsSubsequence(r, todos)
    ensures forall t :: t in r ==> t.id != id
    ensures forall t :: t in todos && t.id != id ==> t in r
  {
    if todos == [] then []
    else if todos[0].id != id then [todos[0]] + Delete(todos[1..], id)
    else Delete(todos[1..], id)
  }

  /** Every task with another id keeps all its copies; the tasks carrying `id` keep none. */
  lemma {:induction false} DeleteCounts(todos: seq<Todo>, id: string)
    ensures forall t :: multiset(Delete(todos, id))[t] == if t.id != id then multiset(todos)[t] else 0
  {
    if todos != [] {
      DeleteCounts(todos[1..], id);
      assert todos == [todos[0]] + todos[1..];
    }
  }

  /** Deleting an id no task carries changes nothing. */
  lemma {:induction false} DeleteUnknownId(todos: seq<Todo>, id: string)
    requires !HasId(todos, id)
    ensures Delete(todos, id) == todos
  {
    if todos != [] {
      assert todos[0] in todos;
      assert !HasId(todos[1..], id) by {
        forall t | t in todos[1..] ensures t.id != id {
          assert t in todos;
        }
      }
      DeleteUnknownId(todos[1..], id);
      assert todos == [todos[0]] + todos[1..];
    }
  }

  /** With unique ids, deleting a present id removes exactly one task. */
  lemma {:induction false} DeleteRemovesOne(todos: seq<Todo>, id: string)
    requires UniqueIds(todos) && HasId(todos, id)
    ensures |Delete(todos, id)| == |todos| - 1
  {
    assert todos != [];
    var tail := todos[1..];
    assert UniqueIds(tail) by {
      forall i, j | 0 <= i < j < |tail| ensures tail[i].id != tail[j].id {
        assert tail[i] == todos[i + 1] && tail[j] == todos[j + 1];
      }
    }
    if todos[0].id == id {
      assert !HasId(tail, id) by {
        forall t | t in tail ensures t.id != id {
          var k :| 0 <= k < |tail| && tail[k] == t;
          assert todos[k + 1] == t;
        }
      }
      DeleteUnknownId(tail, id);
    } else {
      var t :| t in todos && t.id == id;
      assert t in tail by {
        var k :| 0 <= k < |todos| && todos[k] == t;
        assert k > 0;
        assert tail[k - 1] == t;
      }
      DeleteRemovesOne(tail, id);
    }
  }

  lemma DeleteUniqueIds(todos: seq<Todo>, id: string)
    requires UniqueIds(todos)
    ensures UniqueIds(Delete(todos, id))
  {
    SubsequenceUniqueIds(Delete(todos, id), todos);
  }

  // ---------------------------------------------------------- clearCompleted

  /** clearCompleted: keeps exactly the tasks not completed, in their order. */
  function ClearCompleted(todos: seq<Todo>): (r: seq<Todo>)
    ensures IsSubsequence(r, todos)
    ensures forall t :: t in r ==> !t.completed
    ensures forall t :: t in todos && !t.completed ==> t in r
  {
    if todos == [] then []
    else if !todos[0].completed then [todos[0]] + ClearCompleted(todos[1..])
    else ClearCompleted(todos[1..])
  }

  /** Every task not completed keeps all its copies; completed tasks keep none. */
  lemma {:induction false} ClearCompletedCounts(todos: seq<Todo>)
    ensures forall t :: multiset(ClearCompleted(todos))[t] == if !t.completed then multiset(todos)[t] else 0
  {
    if todos != [] {
      ClearCompletedCounts(todos[1..]);
      assert todos == [todos[0]] + todos[1..];
    }
  }

  /** On a list with no completed task, clearCompleted changes nothing. */
  lemma {:induction false} ClearCompletedNoCompleted(todos: seq<Todo>)
    requires forall t :: t in todos ==> !t.completed
    ensures ClearCompleted(todos) == todos
  {
    if todos != [] {
      assert todos[0] in todos;
      forall t | t in todos[1..] ensures !t.completed {
        assert t in todos;
      }
      ClearCompletedNoCompleted(todos[1..]);
      assert todos == [todos[0]] + todos[1..];
    }
  }

  /** Clearing twice is clearing once. */
  lemma ClearCompletedIdempotent(todos: seq<Todo>)
    ensures ClearCompleted(ClearCompleted(todos)) == ClearCompleted(todos)
  {
    ClearCompletedNoCompleted(ClearCompleted(todos));
  }

  lemma ClearCompletedUniqueIds(todos: seq<Todo>)
    requires UniqueIds(todos)
    ensures UniqueIds(ClearCompleted(todos))
  {
    SubsequenceUniqueIds(ClearCompleted(todos), todos);
  }

  // ------------------------------------------------------------ filteredTodos

  /** Whether a task is shown under filter `f`. */
  predicate Matches(f: FilterType, t: Todo) {
    if f == ACTIVE then !t.completed
    else if f == COMPLETED then t.completed
    else true
  }

  /** filteredTodos: the tasks shown under filter `f`, in list order. */
  function View(todos: seq<Todo>, f: FilterType): (r: seq<Todo>)
    ensures IsSubsequence(r, todos)
    ensures forall t :: t in r ==> Matches(f, t)
    ensures forall t :: t in todos && Matches(f, t) ==> t in r
  {
    if todos == [] then []
    else if Matches(f, todos[0]) then [todos[0]] + View(todos[1..], f)
    else View(todos[1..], f)
  }

  /** Every task matching the filter appears as often as in the list; the others not at all. */
  lemma {:induction false} ViewCounts(todos: seq<Todo>, f: FilterType)
    ensures forall t :: multiset(View(todos, f))[t] == if Matches(f, t) then multiset(todos)[t] else 0
  {
    if todos != [] {
      ViewCounts(todos[1..], f);
      assert todos == [todos[0]] + todos[1..];
    }
  }

  /** The ALL view is the whole list. */
  lemma {:induction false} ViewAll(todos: seq<Todo>)
    ensures View(todos, ALL) == todos
  {
    if todos != [] {
      ViewAll(todos[1..]);
      assert todos == [todos[0]] + todos[1..];
    }
  }

  /** The ACTIVE and COMPLETED views split the list: disjoint, covering, lengths adding up. */
  lemma {:induction false} ViewPartition(todos: seq<Todo>)
    ensures |View(todos, ACTIVE)| + |View(todos, COMPLETED)| == |todos|
    ensures forall t :: t in todos ==> (t in View(todos, ACTIVE) <==> t !in View(todos, COMPLETED))
  {
    if todos != [] {
      ViewPartition(todos[1..]);
    }
  }

  /** clearCompleted leaves exactly the ACTIVE view. */
  lemma {:induction false} ClearCompletedIsActiveView(todos: seq<Todo>)
    ensures ClearCompleted(todos) == View(todos, ACTIVE)
  {
    if todos != [] {
      ClearCompletedIsActiveView(todos[1..]);
    }
  }

  // -------------------------------------------------------------- activeCount

  /** activeCount: the number of tasks not completed, whatever filter is shown. */
  function ActiveCount(todos: seq<Todo>): (n: nat)
    ensures n == |View(todos, ACTIVE)|
    ensures n + |View(todos, COMPLETED)| == |todos|
  {
    ClearCompletedIsActiveView(todos);
    ViewPartition(todos);
    |ClearCompleted(todos)|
  }
}
