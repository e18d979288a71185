/** The updaters the todo store hands to its state setter
    (src/hooks/useTodos.js).  Each is a pure function from the previous
    collection to the next one; the store class applies them. */
module TodoOps {
  import opened Common
  import opened Text
  import opened TodoModel

  // ---------------------------------------------------------------- addTodo

  /** `prev.reduce((max, todo) => Math.max(max, todo.order ?? 0), 0)`:
      the largest `order`, missing ones counted as 0, never below 0. */
  function MaxOrder(todos: seq<Todo>): (m: int)
    ensures m >= 0
    ensures forall t :: t in todos ==> OrderOf(t) <= m
    ensures m == 0 || exists t :: t in todos && OrderOf(t) == m
  {
    if todos == [] then 0
    else
      var init, last := todos[..|todos| - 1], todos[|todos| - 1];
      assert todos == init + [last];
      var m := MaxOrder(init);
      if OrderOf(last) > m then OrderOf(last) else m
  }

  /** The record `addTodo` builds; `id` and `now` stand for
      `crypto.randomUUID()` and the current time. */
  function NewTodo(todos: seq<Todo>, id: string, title: string, dueDate: Option<string>,
                   priority: Option<string>, tags: Option<seq<Tag>>,
                   subtasks: Option<seq<Subtask>>, now: int): Todo
  {
    Todo(id, Trim(title), false, dueDate, priority,
         Some(tags.GetOr([])), Some(subtasks.GetOr([])), Some(now), Some(MaxOrder(todos) + 1))
  }

  function AddTodo(todos: seq<Todo>, id: string, title: string, dueDate: Option<string>,
                   priority: Option<string>, tags: Option<seq<Tag>>,
                   subtasks: Option<seq<Subtask>>, now: int): seq<Todo>
  {
    todos + [NewTodo(todos, id, title, dueDate, priority, tags, subtasks, now)]
  }

  /** Adding appends exactly one todo and leaves the others alone; the new
      todo is not completed, has a trimmed title, defaulted lists, and an
      `order` above every existing one. */
  lemma AddTodoSpec(todos: seq<Todo>, id: string, title: string, dueDate: Option<string>,
                    priority: Option<string>, tags: Option<seq<Tag>>,
                    subtasks: Option<seq<Subtask>>, now: int)
    ensures var r := AddTodo(todos, id, title, dueDate, priority, tags, subtasks, now);
      && |r| == |todos| + 1 && r[..|todos|] == todos
      && var n := r[|todos|];
      && n.id == id && n.title == Trim(title) && !n.completed
      && n.dueDate == dueDate && n.priority == priority && n.createdAt == Some(now)
      && n.tags == Some(tags.GetOr([])) && n.subtasks == Some(subtasks.GetOr([]))
      && OrderOf(n) >= 1
      && (forall t :: t in todos ==> OrderOf(t) < OrderOf(n))
      && (OrderOf(n) == 1 || exists t :: t in todos && OrderOf(t) + 1 == OrderOf(n))
  {
  }

  /** A fresh id keeps ids unique. */
  lemma AddTodoKeepsIdsUnique(todos: seq<Todo>, id: string, title: string, dueDate: Option<string>,
                              priority: Option<string>, tags: Option<seq<Tag>>,
                              subtasks: Option<seq<Subtask>>, now: int)
    requires UniqueIds(todos) && !HasId(todos, id)
    ensures UniqueIds(AddTodo(todos, id, title, dueDate, priority, tags, subtasks, now))
  {
    var r := AddTodo(todos, id, title, dueDate, priority, tags, subtasks, now);
    forall i, j | 0 <= i < j < |r| ensures r[i].id != r[j].id {
      if j == |todos| {
        assert r[i] == todos[i];
      }
    }
  }

  function Legacy(id: string, order: Option<int>): Todo {
    Todo(id, "Todo", false, None, None, None, None, None, order)
  }

  /** orders 5 and 10 give 11; a legacy todo without `order` gives 1. */
  lemma NextOrderExamples()
    ensures MaxOrder([Legacy("1", Some(5)), Legacy("2", Some(10))]) + 1 == 11
    ensures MaxOrder([Legacy("1", None)]) + 1 == 1
    ensures MaxOrder([]) + 1 == 1
  {
    var a := [Legacy("1", Some(5)), Legacy("2", Some(10))];
    assert a[..1] == [Legacy("1", Some(5))];
    assert [Legacy("1", Some(5))][..0] == [];
    assert [Legacy("1", None)][..0] == [];
  }

  // --------------------------------------------------- deleteTodo, bulkDelete

  /** `prev.filter((todo) => todo.id !== id)` */
  function DeleteTodo(todos: seq<Todo>, id: string): (r: seq<Todo>)
    ensures forall t :: multiset(r)[t] == if t.id == id then 0 else multiset(todos)[t]
    ensures !HasId(r, id)
    ensures IsSubsequence(r, todos)
    ensures !HasId(todos, id) ==> r == todos
  {
    var keep := (t: Todo) => t.id != id;
    KeepIsSubsequence(todos, keep);
    KeepCount(todos, keep);
    KeepAll(todos, keep);
    Keep(todos, keep)
  }

  /** `prev.filter((todo) => !idSet.has(todo.id))` with `idSet = new Set(ids)` */
  function BulkDelete(todos: seq<Todo>, ids: seq<string>): (r: seq<Todo>)
    ensures forall t :: multiset(r)[t] == if t.id in ids then 0 else multiset(todos)[t]
    ensures forall t :: t in r ==> t.id !in ids
    ensures IsSubsequence(r, todos)
    ensures (forall t :: t in todos ==> t.id !in ids) ==> r == todos
  {
    var idSet := set x | x in ids;
    var keep := (t: Todo) => t.id !in idSet;
    KeepIsSubsequence(todos, keep);
    KeepCount(todos, keep);
    KeepAll(todos, keep);
    Keep(todos, keep)
  }

  // -------------------------------------------------------------- toggleTodo

  /** `prev.map((todo) => todo.id === id ? { ...todo, completed: !todo.completed } : todo)` */
  function ToggleTodo(todos: seq<Todo>, id: string): seq<Todo> {
    Map(todos, (t: Todo) => if t.id == id then t.(completed := !t.completed) else t)
  }

  /** Only `completed` of the matching todos flips; nothing else changes. */
  lemma ToggleTodoSpec(todos: seq<Todo>, id: string)
    ensures var r := ToggleTodo(todos, id);
      && |r| == |todos| && Ids(r) == Ids(todos)
      && forall i :: 0 <= i < |todos| ==>
           && r[i].completed == (todos[i].completed != (todos[i].id == id))
           && r[i].(completed := todos[i].completed) == todos[i]
  {
  }

  /** Toggling twice restores the collection. */
  lemma ToggleTodoTwice(todos: seq<Todo>, id: string)
    ensures ToggleTodo(ToggleTodo(todos, id), id) == todos
  {
  }

  /** An unknown id leaves the collection unchanged. */
  lemma ToggleTodoUnknown(todos: seq<Todo>, id: string)
    requires !HasId(todos, id)
    ensures ToggleTodo(todos, id) == todos
  {
    var r := ToggleTodo(todos, id);
    forall i | 0 <= i < |todos| ensures r[i] == todos[i] {
      assert todos[i] in todos;
    }
  }

  // -------------------------------------------------------------- updateTodo

  /** The keys `updateTodo` looks at; `Absent` is a key that is `undefined`. */
  datatype TodoUpdate = TodoUpdate(
    title: Field<string>,
    dueDate: Field<Option<string>>,
    priority: Field<Option<string>>,
    tags: Field<Option<seq<Tag>>>,
    subtasks: Field<Option<seq<Subtask>>>)

  const NoChanges := TodoUpdate(Absent, Absent, Absent, Absent, Absent)

  function Pick<T>(f: Field<T>, current: T): T {
    match f
    case Present(v) => v
    case Absent => current
  }

  /** `{ ...todo, ...(updates.title !== undefined && { title: updates.title.trim() }), ... }` */
  function Merge(t: Todo, u: TodoUpdate): (m: Todo)
    ensures m.id == t.id && m.completed == t.completed && m.createdAt == t.createdAt && m.order == t.order
    ensures m.title == if u.title.Present? then Trim(u.title.value) else t.title
    ensures m.dueDate == if u.dueDate.Present? then u.dueDate.value else t.dueDate
    ensures m.priority == if u.priority.Present? then u.priority.value else t.priority
    ensures m.tags == if u.tags.Present? then u.tags.value else t.tags
    ensures m.subtasks == if u.subtasks.Present? then u.subtasks.value else t.subtasks
  {
    t.(title := if u.title.Present? then Trim(u.title.value) else t.title,
       dueDate := Pick(u.dueDate, t.dueDate),
       priority := Pick(u.priority, t.priority),
       tags := Pick(u.tags, t.tags),
       subtasks := Pick(u.subtasks, t.subtasks))
  }

  /** Applying the same update twice is applying it once (the title is trimmed once and for all). */
  lemma MergeIdempotent(t: Todo, u: TodoUpdate)
    ensures Merge(Merge(t, u), u) == Merge(t, u)
  {
    var m := Merge(t, u);
    if u.title.Present? {
      TrimIdempotent(u.title.value);
      assert Merge(m, u).title == m.title;
    }
    assert Merge(m, u).dueDate == m.dueDate;
    assert Merge(m, u).priority == m.priority;
    assert Merge(m, u).tags == m.tags;
    assert Merge(m, u).subtasks == m.subtasks;
  }

  /** An update with no keys changes nothing. */
  lemma MergeNoChanges(t: Todo)
    ensures Merge(t, NoChanges) == t
  {
  }

  function UpdateTodo(todos: seq<Todo>, id: string, u: TodoUpdate): seq<Todo> {
    Map(todos, (t: Todo) => if t.id == id then Merge(t, u) else t)
  }

  /** Only the matching todos change, and they change by `Merge`; ids are kept. */
  lemma UpdateTodoSpec(todos: seq<Todo>, id: string, u: TodoUpdate)
    ensures var r := UpdateTodo(todos, id, u);
      && |r| == |todos| && Ids(r) == Ids(todos)
      && forall i :: 0 <= i < |todos| ==>
           r[i] == if todos[i].id == id then Merge(todos[i], u) else todos[i]
  {
  }

  lemma UpdateTodoIdempotent(todos: seq<Todo>, id: string, u: TodoUpdate)
    ensures UpdateTodo(UpdateTodo(todos, id, u), id, u) == UpdateTodo(todos, id, u)
  {
    var r := UpdateTodo(todos, id, u);
    forall i | 0 <= i < |todos| ensures UpdateTodo(r, id, u)[i] == r[i] {
      if todos[i].id == id {
        MergeIdempotent(todos[i], u);
      }
    }
  }

  // ---------------------------------------- addSubtask, updateSubtask, deleteSubtask

  /** The subtask `addSubtask` builds; `id` stands for `crypto.randomUUID()`. */
  function NewSubtask(id: string, text: string): Subtask {
    Subtask(id, Trim(text), false)
  }

  /** `{ ...todo, subtasks: [...(todo.subtasks || []), newSubtask] }` on the todos with `todoId`. */
  function AddSubtask(todos: seq<Todo>, todoId: string, sub: Subtask): seq<Todo> {
    Map(todos, (t: Todo) => if t.id == todoId then t.(subtasks := Some(SubtasksOf(t) + [sub])) else t)
  }

  /** What `addSubtask` returns: the new subtask when some todo had `todoId`, else `null`. */
  function AddSubtaskResult(todos: seq<Todo>, todoId: string, sub: Subtask): (r: Option<Subtask>)
    ensures r.Some? <==> HasId(todos, todoId)
    ensures r.Some? ==> r.value == sub
  {
    if HasId(todos, todoId) then Some(sub) else None
  }

  /** The keys `updateSubtask` looks at. */
  datatype SubtaskUpdate = SubtaskUpdate(text: Field<string>, completed: Field<bool>)

  function MergeSubtask(s: Subtask, u: SubtaskUpdate): (m: Subtask)
    ensures m.id == s.id
    ensures m.text == if u.text.Present? then Trim(u.text.value) else s.text
    ensures m.completed == if u.completed.Present? then u.completed.value else s.completed
  {
    s.(text := if u.text.Present? then Trim(u.text.value) else s.text,
       completed := Pick(u.completed, s.completed))
  }

  function UpdateSubtaskIn(subtasks: seq<Subtask>, subtaskId: string, u: SubtaskUpdate): seq<Subtask> {
    Map(subtasks, (s: Subtask) => if s.id == subtaskId then MergeSubtask(s, u) else s)
  }

  function UpdateSubtask(todos: seq<Todo>, todoId: string, subtaskId: string, u: SubtaskUpdate): seq<Todo> {
    Map(todos, (t: Todo) =>
      if t.id == todoId then t.(subtasks := Some(UpdateSubtaskIn(SubtasksOf(t), subtaskId, u))) else t)
  }

  function DeleteSubtaskIn(subtasks: seq<Subtask>, subtaskId: string): seq<Subtask> {
    Keep(subtasks, (s: Subtask) => s.id != subtaskId)
  }

  function DeleteSubtask(todos: seq<Todo>, todoId: string, subtaskId: string): seq<Todo> {
    Map(todos, (t: Todo) =>
      if t.id == todoId then t.(subtasks := Some(DeleteSubtaskIn(SubtasksOf(t), subtaskId))) else t)
  }

  /** The three subtask operations change only the `subtasks` of todos with
      `todoId`, and they read a missing list as empty. */
  lemma SubtaskOpsTouchOnlyTarget(todos: seq<Todo>, todoId: string, subtaskId: string,
                                  sub: Subtask, u: SubtaskUpdate)
    ensures var a, b, c := AddSubtask(todos, todoId, sub), UpdateSubtask(todos, todoId, subtaskId, u),
                           DeleteSubtask(todos, todoId, subtaskId);
      && |a| == |b| == |c| == |todos|
      && forall i :: 0 <= i < |todos| ==>
           && a[i].(subtasks := todos[i].subtasks) == todos[i]
           && b[i].(subtasks := todos[i].subtasks) == todos[i]
           && c[i].(subtasks := todos[i].subtasks) == todos[i]
           && (todos[i].id != todoId ==> a[i] == todos[i] && b[i] == todos[i] && c[i] == todos[i])
           && (todos[i].id == todoId ==>
                 && SubtasksOf(a[i]) == SubtasksOf(todos[i]) + [sub]
                 && SubtasksOf(b[i]) == UpdateSubtaskIn(SubtasksOf(todos[i]), subtaskId, u)
                 && SubtasksOf(c[i]) == DeleteSubtaskIn(SubtasksOf(todos[i]), subtaskId))
  {
  }

  /** Inside one todo's list: only subtasks with the id are merged, and an
      unknown id leaves the list as it was. */
  lemma UpdateSubtaskInSpec(subtasks: seq<Subtask>, subtaskId: string, u: SubtaskUpdate)
    ensures var r := UpdateSubtaskIn(subtasks, subtaskId, u);
      && SubtaskIds(r) == SubtaskIds(subtasks)
      && (forall k :: 0 <= k < |subtasks| && subtasks[k].id != subtaskId ==> r[k] == subtasks[k])
      && (subtaskId !in SubtaskIds(subtasks) ==> r == subtasks)
  {
    var r := UpdateSubtaskIn(subtasks, subtaskId, u);
    if subtaskId !in SubtaskIds(subtasks) {
      forall k | 0 <= k < |subtasks| ensures r[k] == subtasks[k] {
        assert SubtaskIds(subtasks)[k] == subtasks[k].id;
      }
    }
  }

  /** Inside one todo's list: exactly the subtasks with the id disappear,
      the rest keep their order, and an unknown id leaves the list as it was. */
  lemma DeleteSubtaskInSpec(subtasks: seq<Subtask>, subtaskId: string)
    ensures var r := DeleteSubtaskIn(subtasks, subtaskId);
      && (forall s :: multiset(r)[s] == if s.id == subtaskId then 0 else multiset(subtasks)[s])
      && IsSubsequence(r, subtasks)
      && (subtaskId !in SubtaskIds(subtasks) ==> r == subtasks)
  {
    var keep := (s: Subtask) => s.id != subtaskId;
    KeepIsSubsequence(subtasks, keep);
    KeepCount(subtasks, keep);
    if subtaskId !in SubtaskIds(subtasks) {
      forall s | s in subtasks ensures keep(s) {
        var k :| 0 <= k < |subtasks| && subtasks[k] == s;
        assert SubtaskIds(subtasks)[k] == s.id;
      }
      KeepAll(subtasks, keep);
    }
  }

  /** Deleting a subtask right after adding it (with an id not yet used in
      that todo) gives back the todo's original list. */
  lemma DeleteSubtaskUndoesAdd(todos: seq<Todo>, todoId: string, sub: Subtask)
    requires forall t :: t in todos && t.id == todoId ==> sub.id !in SubtaskIds(SubtasksOf(t))
    ensures var r := DeleteSubtask(AddSubtask(todos, todoId, sub), todoId, sub.id);
      && |r| == |todos|
      && forall i :: 0 <= i < |todos| ==>
           r[i] == if todos[i].id == todoId then todos[i].(subtasks := Some(SubtasksOf(todos[i]))) else todos[i]
  {
    var a := AddSubtask(todos, todoId, sub);
    var r := DeleteSubtask(a, todoId, sub.id);
    forall i | 0 <= i < |todos| && todos[i].id == todoId
      ensures SubtasksOf(r[i]) == SubtasksOf(todos[i])
    {
      var old_ := SubtasksOf(todos[i]);
      assert todos[i] in todos;
      var keep := (s: Subtask) => s.id != sub.id;
      forall s | s in old_ ensures keep(s) {
        var k :| 0 <= k < |old_| && old_[k] == s;
        assert SubtaskIds(old_)[k] == s.id;
      }
      KeepAll(old_, keep);
      KeepAppend(old_, [sub], keep);
    }
  }

  // ------------------------------------------------------------ reorderTodos

  /** `prev.findIndex((t) => t.id === id)`: the first index with that id, or -1. */
  function FindIndex(todos: seq<Todo>, id: string): (k: int)
    ensures -1 <= k < |todos|
    ensures k == -1 <==> !HasId(todos, id)
    ensures k >= 0 ==> todos[k].id == id && forall j :: 0 <= j < k ==> todos[j].id != id
  {
    if todos == [] then -1
    else if todos[0].id == id then 0
    else
      var k := FindIndex(todos[1..], id);
      assert forall t :: t in todos[1..] ==> t in todos;
      assert forall t :: t in todos && t != todos[0] ==> t in todos[1..];
      if k == -1 then -1 else k + 1
  }

  /** The two `splice` calls: take out the element at `from`, then insert it
      at index `to` of what is left. */
  function Moved(s: seq<Todo>, from: nat, to: nat): (r: seq<Todo>)
    requires from < |s| && to < |s|
    ensures |r| == |s|
    ensures r[to] == s[from]
    ensures r[..to] + r[to + 1..] == s[..from] + s[from + 1..]
  {
    var rest := s[..from] + s[from + 1..];
    assert rest[..to] + rest[to..] == rest;
    rest[..to] + [s[from]] + rest[to..]
  }

  /** Moving is a permutation. */
  lemma MovedIsPermutation(s: seq<Todo>, from: nat, to: nat)
    requires from < |s| && to < |s|
    ensures multiset(Moved(s, from, to)) == multiset(s)
  {
    var r := Moved(s, from, to);
    assert r == r[..to] + [r[to]] + r[to + 1..];
    assert s == s[..from] + [s[from]] + s[from + 1..];
    calc {
      multiset(r);
      multiset(r[..to]) + multiset([r[to]]) + multiset(r[to + 1..]);
      multiset(r[..to] + r[to + 1..]) + multiset([s[from]]);
      multiset(s[..from] + s[from + 1..]) + multiset([s[from]]);
      multiset(s[..from]) + multiset([s[from]]) + multiset(s[from + 1..]);
      multiset(s);
    }
  }

  /** `result.map((todo, index) => ({ ...todo, order: index + 1 }))` */
  function Renumbered(s: seq<Todo>): seq<Todo> {
    seq(|s|, i requires 0 <= i < |s| => s[i].(order := Some(i + 1)))
  }

  function Reordered(todos: seq<Todo>, activeId: string, overId: string): seq<Todo> {
    var oldIndex, newIndex := FindIndex(todos, activeId), FindIndex(todos, overId);
    if oldIndex == -1 || newIndex == -1 || oldIndex == newIndex then todos
    else Renumbered(Moved(todos, oldIndex, newIndex))
  }

  /** An absent id, or two ids that resolve to the same index, is a complete
      no-op: even the `order` values stay as they were. */
  lemma ReorderedNoOp(todos: seq<Todo>, activeId: string, overId: string)
    requires !HasId(todos, activeId) || !HasId(todos, overId) || FindIndex(todos, activeId) == FindIndex(todos, overId)
    ensures Reordered(todos, activeId, overId) == todos
  {
  }

  /** What a real move from `from` to `to` promises of the result `r`: same
      length and ids (as a multiset), the moved todo at `to`, all others in
      their relative order, and every `order` equal to the 1-based position. */
  ghost predicate MoveResult(todos: seq<Todo>, from: nat, to: nat, r: seq<Todo>)
    requires from < |todos| && to < |todos|
  {
    && |r| == |todos|
    && multiset(Ids(r)) == multiset(Ids(todos))
    && (forall i :: 0 <= i < |r| ==> r[i].order == Some(i + 1))
    && r[to] == todos[from].(order := Some(to + 1))
    && Ids(r[..to] + r[to + 1..]) == Ids(todos[..from] + todos[from + 1..])
  }

  /** A real move keeps the ids, puts the active todo at the over-index,
      keeps all others in relative order, and numbers every `order` from 1. */
  lemma ReorderedSpec(todos: seq<Todo>, activeId: string, overId: string)
    requires HasId(todos, activeId) && HasId(todos, overId)
    requires FindIndex(todos, activeId) != FindIndex(todos, overId)
    ensures MoveResult(todos, FindIndex(todos, activeId), FindIndex(todos, overId), Reordered(todos, activeId, overId))
  {
    var from, to := FindIndex(todos, activeId), FindIndex(todos, overId);
    assert Reordered(todos, activeId, overId) == Renumbered(Moved(todos, from, to));
    MoveAndRenumberSpec(todos, from, to);
  }

  lemma MoveAndRenumberSpec(todos: seq<Todo>, from: nat, to: nat)
    requires from < |todos| && to < |todos|
    ensures MoveResult(todos, from, to, Renumbered(Moved(todos, from, to)))
  {
    var m := Moved(todos, from, to);
    var r := Renumbered(m);
    RenumberedSpec(m);
    MovedKeepsIds(todos, from, to);
    calc {
      Ids(r[..to] + r[to + 1..]);
      { IdsConcat(r[..to], r[to + 1..]); }
      Ids(r[..to]) + Ids(r[to + 1..]);
      { IdsSlice(r, to); IdsSlice(m, to); }
      Ids(m[..to]) + Ids(m[to + 1..]);
      { IdsConcat(m[..to], m[to + 1..]); }
      Ids(m[..to] + m[to + 1..]);
    }
  }

  /** Renumbering touches only `order`, keeps ids, and numbers from 1. */
  lemma RenumberedSpec(m: seq<Todo>)
    ensures var r := Renumbered(m);
      && |r| == |m| && Ids(r) == Ids(m)
      && forall i :: 0 <= i < |r| ==> r[i].order == Some(i + 1) && r[i].(order := m[i].order) == m[i]
  {
  }

  lemma IdsConcat(a: seq<Todo>, b: seq<Todo>)
    ensures Ids(a + b) == Ids(a) + Ids(b)
  {
  }

  lemma IdsSlice(s: seq<Todo>, k: nat)
    requires k < |s|
    ensures Ids(s[..k]) == Ids(s)[..k] && Ids(s[k + 1..]) == Ids(s)[k + 1..]
  {
  }

  /** Moving permutes the ids. */
  lemma MovedKeepsIds(s: seq<Todo>, from: nat, to: nat)
    requires from < |s| && to < |s|
    ensures multiset(Ids(Moved(s, from, to))) == multiset(Ids(s))
  {
    var r := Moved(s, from, to);
    IdsSlice(r, to);
    IdsSlice(s, from);
    IdsConcat(r[..to], r[to + 1..]);
    IdsConcat(s[..from], s[from + 1..]);
    assert Ids(r) == Ids(r)[..to] + [r[to].id] + Ids(r)[to + 1..];
    assert Ids(s) == Ids(s)[..from] + [s[from].id] + Ids(s)[from + 1..];
    calc {
      multiset(Ids(r));
      multiset(Ids(r[..to])) + multiset{s[from].id} + multiset(Ids(r[to + 1..]));
      multiset(Ids(r[..to]) + Ids(r[to + 1..])) + multiset{s[from].id};
      multiset(Ids(s[..from]) + Ids(s[from + 1..])) + multiset{s[from].id};
      multiset(Ids(s[..from])) + multiset{s[from].id} + multiset(Ids(s[from + 1..]));
      multiset(Ids(s));
    }
  }

  /** Ids unique before a reorder are unique after it. */
  lemma ReorderedKeepsIdsUnique(todos: seq<Todo>, activeId: string, overId: string)
    requires UniqueIds(todos)
    ensures UniqueIds(Reordered(todos, activeId, overId))
  {
    var from, to := FindIndex(todos, activeId), FindIndex(todos, overId);
    if from != -1 && to != -1 && from != to {
      ReorderedSpec(todos, activeId, overId);
      var r := Reordered(todos, activeId, overId);
      UniqueIdsByMultiset(todos);
      UniqueIdsByMultiset(r);
      forall x ensures multiset(Ids(r))[x] <= 1 {
      }
    }
  }

  /** Ids are unique exactly when the tail's are and the head's id is not among them. */
  lemma UniqueIdsCons(todos: seq<Todo>)
    requires todos != []
    ensures UniqueIds(todos) <==> UniqueIds(todos[1..]) && todos[0].id !in Ids(todos[1..])
  {
    var tail := todos[1..];
    if UniqueIds(todos) {
      forall k | 0 <= k < |tail| ensures Ids(tail)[k] != todos[0].id {
        assert tail[k] == todos[k + 1];
      }
      forall i, j | 0 <= i < j < |tail| ensures tail[i].id != tail[j].id {
        assert tail[i] == todos[i + 1] && tail[j] == todos[j + 1];
      }
    }
    if UniqueIds(tail) && todos[0].id !in Ids(tail) {
      forall i, j | 0 <= i < j < |todos| ensures todos[i].id != todos[j].id {
        if i == 0 {
          assert Ids(tail)[j - 1] == todos[j].id;
        } else {
          assert tail[i - 1] == todos[i] && tail[j - 1] == todos[j];
        }
      }
    }
  }

  /** Unique ids means every id occurs at most once in `Ids`. */
  lemma {:induction false} UniqueIdsByMultiset(todos: seq<Todo>)
    ensures UniqueIds(todos) <==> forall x :: multiset(Ids(todos))[x] <= 1
  {
    if todos != [] {
      var h, tail := todos[0].id, todos[1..];
      UniqueIdsByMultiset(tail);
      UniqueIdsCons(todos);
      var m, mt := multiset(Ids(todos)), multiset(Ids(tail));
      assert Ids(todos) == [h] + Ids(tail);
      assert m == multiset{h} + mt;
      if forall x :: m[x] <= 1 {
        forall x ensures mt[x] <= 1 {
          assert m[x] == (if x == h then 1 else 0) + mt[x];
        }
        assert m[h] == 1 + mt[h];
      } else {
        var x :| m[x] > 1;
        assert m[x] == (if x == h then 1 else 0) + mt[x];
        if x == h {
          assert h in mt;
        }
      }
    }
  }

  // ---------------------------------------- bulkComplete, bulkSetPriority, bulkAddTag

  function BulkComplete(todos: seq<Todo>, ids: seq<string>): seq<Todo> {
    var idSet := set x | x in ids;
    Map(todos, (t: Todo) => if t.id in idSet then t.(completed := true) else t)
  }

  function BulkSetPriority(todos: seq<Todo>, ids: seq<string>, priority: Option<string>): seq<Todo> {
    var idSet := set x | x in ids;
    Map(todos, (t: Todo) => if t.id in idSet then t.(priority := priority) else t)
  }

  /** `existingTags.some((t) => t.id === tag.id)` */
  predicate HasTagId(tags: seq<Tag>, id: string) {
    exists g :: g in tags && g.id == id
  }

  function AddTagIfMissing(t: Todo, tag: Tag): Todo {
    if HasTagId(TagsOf(t), tag.id) then t else t.(tags := Some(TagsOf(t) + [tag]))
  }

  function BulkAddTag(todos: seq<Todo>, ids: seq<string>, tag: Tag): seq<Todo> {
    var idSet := set x | x in ids;
    Map(todos, (t: Todo) => if t.id !in idSet then t else AddTagIfMissing(t, tag))
  }

  /** `bulkComplete` marks exactly the selected todos completed, changes no
      other field, and a second call changes nothing. */
  lemma BulkCompleteSpec(todos: seq<Todo>, ids: seq<string>)
    ensures var r := BulkComplete(todos, ids);
      && |r| == |todos| && Ids(r) == Ids(todos)
      && (forall i :: 0 <= i < |r| ==>
            && r[i].completed == (todos[i].id in ids || todos[i].completed)
            && r[i].(completed := todos[i].completed) == todos[i])
      && BulkComplete(r, ids) == r
  {
  }

  /** `bulkSetPriority` overwrites the priority exactly on the selected
      todos, changes no other field, and a second call changes nothing. */
  lemma BulkSetPrioritySpec(todos: seq<Todo>, ids: seq<string>, priority: Option<string>)
    ensures var r := BulkSetPriority(todos, ids, priority);
      && |r| == |todos| && Ids(r) == Ids(todos)
      && (forall i :: 0 <= i < |r| ==>
            && r[i].priority == (if todos[i].id in ids then priority else todos[i].priority)
            && r[i].(priority := todos[i].priority) == todos[i])
      && BulkSetPriority(r, ids, priority) == r
  {
  }

  /** `bulkAddTag` appends the tag to the selected todos that lack a tag with
      its id and to no other; afterwards every selected todo carries the tag id. */
  lemma BulkAddTagSpec(todos: seq<Todo>, ids: seq<string>, tag: Tag)
    ensures var r := BulkAddTag(todos, ids, tag);
      && |r| == |todos| && Ids(r) == Ids(todos)
      && forall i :: 0 <= i < |r| ==>
           && r[i].(tags := todos[i].tags) == todos[i]
           && (todos[i].id in ids ==> HasTagId(TagsOf(r[i]), tag.id))
           && (r[i] != todos[i] <==> todos[i].id in ids && !HasTagId(TagsOf(todos[i]), tag.id))
           && (r[i] != todos[i] ==> r[i].tags == Some(TagsOf(todos[i]) + [tag]))
  {
    var r := BulkAddTag(todos, ids, tag);
    forall i | 0 <= i < |r| && todos[i].id in ids && !HasTagId(TagsOf(todos[i]), tag.id)
      ensures HasTagId(TagsOf(r[i]), tag.id) && r[i] != todos[i]
    {
      assert TagsOf(r[i])[|TagsOf(todos[i])|] == tag;
      assert |TagsOf(r[i])| != |TagsOf(todos[i])|;
    }
  }

  /** A second `bulkAddTag` with the same arguments changes nothing. */
  lemma BulkAddTagIdempotent(todos: seq<Todo>, ids: seq<string>, tag: Tag)
    ensures BulkAddTag(BulkAddTag(todos, ids, tag), ids, tag) == BulkAddTag(todos, ids, tag)
  {
    BulkAddTagSpec(todos, ids, tag);
  }

  /** `bulkAddTag` never creates two tags with the same id on one todo. */
  lemma BulkAddTagKeepsTagIdsUnique(todos: seq<Todo>, ids: seq<string>, tag: Tag)
    requires forall t :: t in todos ==> UniqueTagIds(TagsOf(t))
    ensures forall t :: t in BulkAddTag(todos, ids, tag) ==> UniqueTagIds(TagsOf(t))
  {
    var r := BulkAddTag(todos, ids, tag);
    forall t | t in r ensures UniqueTagIds(TagsOf(t)) {
      var i :| 0 <= i < |r| && r[i] == t;
      assert todos[i] in todos;
      var old_ := TagsOf(todos[i]);
      if t != todos[i] {
        assert TagsOf(t) == old_ + [tag];
        forall k | 0 <= k < |old_| ensures old_[k].id != tag.id {
          assert old_[k] in old_;
        }
      }
    }
  }
}
