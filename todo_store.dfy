/** The todo store of src/hooks/useTodos.js: one collection that every
    operation replaces, and a write-through copy of it in storage.  `saved`
    stands for the value last written by `saveTodos`, which the effect on
    every change keeps equal to `todos`. */
module TodoStore {
  import opened Common
  import opened TodoModel
  import opened TodoOps

  class Store {
    var todos: seq<Todo>
    ghost var saved: seq<Todo>

    /** The save-on-change effect has run: storage holds the current collection. */
    ghost predicate Persisted()
      reads this
    {
      saved == todos
    }

    /** `useState(() => loadTodos())`: `loaded` is what storage returned. */
    constructor(loaded: seq<Todo>)
      ensures todos == loaded && Persisted()
    {
      todos := loaded;
      saved := loaded;
    }

    /** `addTodo`: `id` and `now` are the fresh UUID and the current time.
        Returns the todo it appended. */
    method AddTodo(id: string, title: string, dueDate: Option<string>, priority: Option<string>,
                   tags: Option<seq<Tag>>, subtasks: Option<seq<Subtask>>, now: int)
      returns (created: Todo)
      modifies this
      ensures created == NewTodo(old(todos), id, title, dueDate, priority, tags, subtasks, now)
      ensures todos == old(todos) + [created] && Persisted()
    {
      created := NewTodo(todos, id, title, dueDate, priority, tags, subtasks, now);
      todos := todos + [created];
      saved := todos;
    }

    method DeleteTodo(id: string)
      modifies this
      ensures todos == TodoOps.DeleteTodo(old(todos), id) && Persisted()
    {
      todos := TodoOps.DeleteTodo(todos, id);
      saved := todos;
    }

    method ToggleTodo(id: string)
      modifies this
      ensures todos == TodoOps.ToggleTodo(old(todos), id) && Persisted()
    {
      todos := TodoOps.ToggleTodo(todos, id);
      saved := todos;
    }

    method UpdateTodo(id: string, u: TodoUpdate)
      modifies this
      ensures todos == TodoOps.UpdateTodo(old(todos), id, u) && Persisted()
    {
      todos := TodoOps.UpdateTodo(todos, id, u);
      saved := todos;
    }

    /** `addSubtask`: `subtaskId` is the fresh UUID.  Returns the new subtask,
        or `None` (`null`) when no todo has `todoId`. */
    method AddSubtask(todoId: string, subtaskId: string, text: string) returns (created: Option<Subtask>)
      modifies this
      ensures created == AddSubtaskResult(old(todos), todoId, NewSubtask(subtaskId, text))
      ensures todos == TodoOps.AddSubtask(old(todos), todoId, NewSubtask(subtaskId, text)) && Persisted()
    {
      var sub := NewSubtask(subtaskId, text);
      created := AddSubtaskResult(todos, todoId, sub);
      todos, saved := TodoOps.AddSubtask(todos, todoId, sub), TodoOps.AddSubtask(todos, todoId, sub);
    }

    method UpdateSubtask(todoId: string, subtaskId: string, u: SubtaskUpdate)
      modifies this
      ensures todos == TodoOps.UpdateSubtask(old(todos), todoId, subtaskId, u) && Persisted()
    {
      todos := TodoOps.UpdateSubtask(todos, todoId, subtaskId, u);
      saved := todos;
    }

    method DeleteSubtask(todoId: string, subtaskId: string)
      modifies this
      ensures todos == TodoOps.DeleteSubtask(old(todos), todoId, subtaskId) && Persisted()
    {
      todos := TodoOps.DeleteSubtask(todos, todoId, subtaskId);
      saved := todos;
    }

    /** `reorderTodos`: copy the collection, take the active todo out, put it
        back at the over-index, then renumber every `order` from 1. */
    method ReorderTodos(activeId: string, overId: string)
      modifies this
      ensures todos == Reordered(old(todos), activeId, overId) && Persisted()
      ensures UniqueIds(old(todos)) ==> UniqueIds(todos)
    {
      if UniqueIds(todos) {
        ReorderedKeepsIdsUnique(todos, activeId, overId);
      }
      var prev := todos;
      var oldIndex, newIndex := FindIndex(prev, activeId), FindIndex(prev, overId);
      if oldIndex == -1 || newIndex == -1 || oldIndex == newIndex {
        saved := todos;
        return;
      }
      var a := MoveInArray(prev, oldIndex, newIndex);
      RenumberInPlace(a);
      todos := a[..];
      saved := todos;
    }

    method BulkComplete(ids: seq<string>)
      modifies this
      ensures todos == TodoOps.BulkComplete(old(todos), ids) && Persisted()
    {
      todos := TodoOps.BulkComplete(todos, ids);
      saved := todos;
    }

    method BulkDelete(ids: seq<string>)
      modifies this
      ensures todos == TodoOps.BulkDelete(old(todos), ids) && Persisted()
    {
      todos := TodoOps.BulkDelete(todos, ids);
      saved := todos;
    }

    method BulkSetPriority(ids: seq<string>, priority: Option<string>)
      modifies this
      ensures todos == TodoOps.BulkSetPriority(old(todos), ids, priority) && Persisted()
    {
      todos := TodoOps.BulkSetPriority(todos, ids, priority);
      saved := todos;
    }

    method BulkAddTag(ids: seq<string>, tag: Tag)
      modifies this
      ensures todos == TodoOps.BulkAddTag(old(todos), ids, tag) && Persisted()
    {
      todos := TodoOps.BulkAddTag(todos, ids, tag);
      saved := todos;
    }
  }

  /** What `Moved` holds at each index: before both positions the old
      element, between them a neighbour shifted by one, at `to` the moved one. */
  lemma MovedAt(s: seq<Todo>, from: nat, to: nat, i: nat)
    requires from < |s| && to < |s| && i < |s|
    ensures Moved(s, from, to)[i] ==
      if i == to then s[from]
      else if from < to && from <= i < to then s[i + 1]
      else if to < from && to < i <= from then s[i - 1]
      else s[i]
  {
    var rest := s[..from] + s[from + 1..];
    var r := Moved(s, from, to);
    assert r == rest[..to] + [s[from]] + rest[to..];
    if i < to {
      assert r[i] == rest[i];
    } else if i > to {
      assert r[i] == rest[i - 1];
    }
  }

  /** `const result = [...prev]; const [removed] = result.splice(oldIndex, 1);
      result.splice(newIndex, 0, removed)`, done by shifting the elements
      between the two indices one place towards `from`. */
  method MoveInArray(prev: seq<Todo>, from: nat, to: nat) returns (a: array<Todo>)
    requires from < |prev| && to < |prev|
    ensures fresh(a) && a[..] == Moved(prev, from, to)
  {
    a := new Todo[|prev|](i requires 0 <= i < |prev| => prev[i]);
    assert a[..] == prev;
    var removed := a[from];
    if from < to {
      ShiftLeft(a, from, to);
    } else if to < from {
      ShiftRight(a, to, from);
    }
    a[to] := removed;
    forall i | 0 <= i < a.Length ensures a[i] == Moved(prev, from, to)[i] {
      MovedAt(prev, from, to, i);
    }
  }

  /** Moves the elements in `from + 1 .. to` one place down, over `a[from]`. */
  method ShiftLeft(a: array<Todo>, from: nat, to: nat)
    requires from < to < a.Length
    modifies a
    ensures forall i :: 0 <= i < a.Length ==> a[i] == if from <= i < to then old(a[i + 1]) else old(a[i])
  {
    var k := from;
    while k < to
      invariant from <= k <= to
      invariant forall i :: 0 <= i < a.Length ==> a[i] == if from <= i < k then old(a[i + 1]) else old(a[i])
    {
      a[k] := a[k + 1];
      k := k + 1;
    }
  }

  /** Moves the elements in `to .. from - 1` one place up, over `a[from]`. */
  method ShiftRight(a: array<Todo>, to: nat, from: nat)
    requires to < from < a.Length
    modifies a
    ensures forall i :: 0 <= i < a.Length ==> a[i] == if to < i <= from then old(a[i - 1]) else old(a[i])
  {
    var k := from;
    while k > to
      invariant to <= k <= from
      invariant forall i :: 0 <= i < a.Length ==> a[i] == if k < i <= from then old(a[i - 1]) else old(a[i])
    {
      a[k] := a[k - 1];
      k := k - 1;
    }
  }

  /** `result.map((todo, index) => ({ ...todo, order: index + 1 }))`, in place. */
  method RenumberInPlace(a: array<Todo>)
    modifies a
    ensures a[..] == Renumbered(old(a[..]))
  {
    var i := 0;
    while i < a.Length
      invariant 0 <= i <= a.Length
      invariant forall j :: 0 <= j < i ==> a[j] == old(a[j]).(order := Some(j + 1))
      invariant forall j :: i <= j < a.Length ==> a[j] == old(a[j])
    {
      a[i] := a[i].(order := Some(i + 1));
      i := i + 1;
    }
  }
}
