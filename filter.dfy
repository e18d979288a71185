/** The filter engine of src/hooks/useFilter.js: a status filter and a
    case-insensitive title search, applied one after the other. */
module Filter {
  import opened Common
  import opened Text
  import opened TodoModel

  /** `filter` is 'all', 'active' or 'completed' (any other value keeps
      everything); `searchQuery` is the raw text of the search box. */
  datatype FilterState = FilterState(filter: string, searchQuery: string)

  /** `useState('all')`, `useState('')` */
  const InitialState := FilterState("all", "")

  /** The status test: `active` keeps open todos, `completed` finished ones. */
  predicate PassesStatus(filter: string, t: Todo) {
    if filter == "active" then !t.completed
    else if filter == "completed" then t.completed
    else true
  }

  /** The search test: a blank query accepts everything, otherwise the
      lowercased title must contain the lowercased, trimmed query. */
  predicate PassesSearch(searchQuery: string, t: Todo) {
    Trim(searchQuery) == [] || Contains(Lower(t.title), Trim(Lower(searchQuery)))
  }

  predicate Passes(st: FilterState, t: Todo) {
    PassesStatus(st.filter, t) && PassesSearch(st.searchQuery, t)
  }

  /** The three tests as values, for `Keep`. */
  function StatusTest(filter: string): Todo -> bool {
    (t: Todo) => PassesStatus(filter, t)
  }

  function SearchTest(searchQuery: string): Todo -> bool {
    (t: Todo) => PassesSearch(searchQuery, t)
  }

  function Test(st: FilterState): Todo -> bool {
    (t: Todo) => Passes(st, t)
  }

  /** The status step of `filterTodos`: one `.filter`, or none for 'all'. */
  function ByStatus(filter: string, todos: seq<Todo>): seq<Todo> {
    if filter == "active" then Keep(todos, (t: Todo) => !t.completed)
    else if filter == "completed" then Keep(todos, (t: Todo) => t.completed)
    else todos
  }

  /** The search step of `filterTodos`: one `.filter`, or none for a blank query. */
  function BySearch(searchQuery: string, todos: seq<Todo>): seq<Todo> {
    if Trim(searchQuery) != [] then
      var query := Trim(Lower(searchQuery));
      Keep(todos, (t: Todo) => Contains(Lower(t.title), query))
    else todos
  }

  /** `filterTodos`: the status step, then the search step. */
  function FilterTodos(st: FilterState, todos: seq<Todo>): (r: seq<Todo>)
    ensures forall t :: t in r <==> t in todos && Passes(st, t)
  {
    BySearch(st.searchQuery, ByStatus(st.filter, todos))
  }

  lemma ByStatusIsKeep(filter: string, todos: seq<Todo>)
    ensures ByStatus(filter, todos) == Keep(todos, StatusTest(filter))
  {
    var status := StatusTest(filter);
    if filter == "active" {
      KeepSamePredicate(todos, (t: Todo) => !t.completed, status);
    } else if filter == "completed" {
      KeepSamePredicate(todos, (t: Todo) => t.completed, status);
    } else {
      KeepAll(todos, status);
    }
  }

  lemma BySearchIsKeep(searchQuery: string, todos: seq<Todo>)
    ensures BySearch(searchQuery, todos) == Keep(todos, SearchTest(searchQuery))
  {
    var search := SearchTest(searchQuery);
    if Trim(searchQuery) != [] {
      var query := Trim(Lower(searchQuery));
      KeepSamePredicate(todos, (t: Todo) => Contains(Lower(t.title), query), search);
    } else {
      KeepAll(todos, search);
    }
  }

  /** The chained filters are one filter by the conjunction of both tests,
      so the result keeps the survivors in input order and with their
      multiplicities. */
  lemma FilterIsOneKeep(st: FilterState, todos: seq<Todo>)
    ensures FilterTodos(st, todos) == Keep(todos, Test(st))
  {
    var status, search := StatusTest(st.filter), SearchTest(st.searchQuery);
    ByStatusIsKeep(st.filter, todos);
    BySearchIsKeep(st.searchQuery, Keep(todos, status));
    KeepKeep(todos, status, search, Test(st));
  }

  /** The result is a subsequence of the input. */
  lemma FilterIsSubsequence(st: FilterState, todos: seq<Todo>)
    ensures IsSubsequence(FilterTodos(st, todos), todos)
  {
    FilterIsOneKeep(st, todos);
    KeepIsSubsequence(todos, Test(st));
  }

  /** Filtering the output again with the same state changes nothing. */
  lemma FilterIdempotent(st: FilterState, todos: seq<Todo>)
    ensures FilterTodos(st, FilterTodos(st, todos)) == FilterTodos(st, todos)
  {
    FilterIsOneKeep(st, todos);
    FilterIsOneKeep(st, FilterTodos(st, todos));
    KeepIdempotent(todos, Test(st));
  }

  /** A status other than 'active'/'completed' with a blank query returns the input itself. */
  lemma FilterNothingToDo(st: FilterState, todos: seq<Todo>)
    requires st.filter != "active" && st.filter != "completed" && IsBlank(st.searchQuery)
    ensures FilterTodos(st, todos) == todos
  {
    TrimEmptyIffBlank(st.searchQuery);
  }

  /** A whitespace-only query imposes no constraint: the result is the status filter alone. */
  lemma BlankQueryIgnored(st: FilterState, todos: seq<Todo>)
    requires IsBlank(st.searchQuery)
    ensures FilterTodos(st, todos) == FilterTodos(FilterState(st.filter, ""), todos)
  {
    TrimEmptyIffBlank(st.searchQuery);
    TrimEmptyIffBlank("");
  }
}
