/** The records the todo store keeps.  Every key a stored JSON object may
    lack is an `Option`: todos saved by older versions have no `order`, and
    `tags`/`subtasks` may be missing or `null`. */
module TodoModel {
  import opened Common

  datatype Tag = Tag(id: string, name: string, color: string)

  datatype Subtask = Subtask(id: string, text: string, completed: bool)

  /** `dueDate` is the ISO string the form produced; `createdAt` is the
      creation time as a millisecond timestamp (`new Date(createdAt).getTime()`). */
  datatype Todo = Todo(
    id: string,
    title: string,
    completed: bool,
    dueDate: Option<string>,
    priority: Option<string>,
    tags: Option<seq<Tag>>,
    subtasks: Option<seq<Subtask>>,
    createdAt: Option<int>,
    order: Option<int>)

  /** `todo.tags || []` */
  function TagsOf(t: Todo): seq<Tag> {
    t.tags.GetOr([])
  }

  /** `todo.subtasks || []` */
  function SubtasksOf(t: Todo): seq<Subtask> {
    t.subtasks.GetOr([])
  }

  /** `todo.order ?? 0` */
  function OrderOf(t: Todo): int {
    t.order.GetOr(0)
  }

  /** Some todo of the collection has this id (`todos.some(t => t.id === id)`). */
  predicate HasId(todos: seq<Todo>, id: string) {
    exists t :: t in todos && t.id == id
  }

  function Ids(todos: seq<Todo>): seq<string> {
    Map(todos, (t: Todo) => t.id)
  }

  ghost predicate UniqueIds(todos: seq<Todo>) {
    forall i, j :: 0 <= i < j < |todos| ==> todos[i].id != todos[j].id
  }

  function TagIds(tags: seq<Tag>): seq<string> {
    Map(tags, (g: Tag) => g.id)
  }

  ghost predicate UniqueTagIds(tags: seq<Tag>) {
    forall i, j :: 0 <= i < j < |tags| ==> tags[i].id != tags[j].id
  }

  function SubtaskIds(subtasks: seq<Subtask>): seq<string> {
    Map(subtasks, (s: Subtask) => s.id)
  }
}
