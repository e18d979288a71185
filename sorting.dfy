/** The sort engine of src/hooks/useSorting.js: the persisted
    `{sortBy, sortDirection}` preference, the four comparators and the
    stable sort of a copy of the collection.  Dates are millisecond
    timestamps (missing counted as 0) and `localeCompare` is the ordinal
    order of the lowercased titles. */
module Sorting {
  import opened Common
  import opened Text
  import opened TodoModel
  import opened StableSort

  datatype Prefs = Prefs(sortBy: string, sortDirection: string)

  const DefaultPrefs := Prefs("custom", "asc")

  predicate IsSortKey(s: string) {
    s == "custom" || s == "date" || s == "priority" || s == "alpha"
  }

  predicate IsDirection(s: string) {
    s == "asc" || s == "desc"
  }

  /** What storage holds under the preference key: nothing, text that does
      not parse (or parses to `null`), or an object whose `sortBy` and
      `sortDirection` are strings (`Some`) or anything else (`None`). */
  datatype StoredPrefs = Missing | Unparseable | Parsed(sortBy: Option<string>, sortDirection: Option<string>)

  /** `loadSortingPreferences`: keep each stored value only when it is one of
      the allowed ones; every failure yields `{custom, asc}`. */
  function LoadPreferences(stored: StoredPrefs): (r: Prefs)
    ensures IsSortKey(r.sortBy) && IsDirection(r.sortDirection)
    ensures !stored.Parsed? ==> r == DefaultPrefs
    ensures stored.Parsed? ==>
      && (r.sortBy == if stored.sortBy.Some? && IsSortKey(stored.sortBy.value) then stored.sortBy.value else "custom")
      && (r.sortDirection == if stored.sortDirection.Some? && IsDirection(stored.sortDirection.value)
                             then stored.sortDirection.value else "asc")
  {
    match stored
    case Missing => DefaultPrefs
    case Unparseable => DefaultPrefs
    case Parsed(key, dir) =>
      Prefs(if key.Some? && IsSortKey(key.value) then key.value else "custom",
            if dir.Some? && IsDirection(dir.value) then dir.value else "asc")
  }

  /** What `saveSortingPreferences` writes, read back. */
  function Stored(p: Prefs): StoredPrefs {
    Parsed(Some(p.sortBy), Some(p.sortDirection))
  }

  /** A valid preference survives a save and a reload (the remount test). */
  lemma LoadStoredRoundTrip(p: Prefs)
    requires IsSortKey(p.sortBy) && IsDirection(p.sortDirection)
    ensures LoadPreferences(Stored(p)) == p
  {
  }

  /** Loading is a fixed point: what was loaded, saved and reloaded is unchanged. */
  lemma LoadIsIdempotent(stored: StoredPrefs)
    ensures LoadPreferences(Stored(LoadPreferences(stored))) == LoadPreferences(stored)
  {
  }

  /** `PRIORITY_ORDER[a.priority] ?? PRIORITY_ORDER.null`. */
  function PriorityRank(priority: Option<string>): (r: int)
    ensures 0 <= r <= 3
    ensures r == 3 <==> priority == Some("high")
    ensures r == 2 <==> priority == Some("medium")
    ensures r == 1 <==> priority == Some("low")
  {
    match priority
    case Some(s) => if s == "high" then 3 else if s == "medium" then 2 else if s == "low" then 1 else 0
    case None => 0
  }

  /** `a.createdAt ? new Date(a.createdAt).getTime() : 0` */
  function DateOf(t: Todo): int {
    t.createdAt.GetOr(0)
  }

  /** `sortDirection === 'asc' ? 1 : -1` */
  function Multiplier(dir: string): int {
    if dir == "asc" then 1 else -1
  }

  /** `a.localeCompare(b)` taken as the ordinal, lexicographic order: -1, 0 or 1. */
  function StringCompare(a: string, b: string): (r: int)
    ensures -1 <= r <= 1
    ensures r == 0 <==> a == b
  {
    if a == [] || b == [] then
      (if a == b then 0 else if a == [] then -1 else 1)
    else if a[0] < b[0] then -1
    else if a[0] > b[0] then 1
    else
      var r := StringCompare(a[1..], b[1..]);
      assert a == [a[0]] + a[1..] && b == [b[0]] + b[1..];
      r
  }

  lemma {:induction false} StringCompareAntisymmetric(a: string, b: string)
    ensures StringCompare(b, a) == -StringCompare(a, b)
  {
    if a != [] && b != [] && a[0] == b[0] {
      StringCompareAntisymmetric(a[1..], b[1..]);
    }
  }

  lemma {:induction false} StringCompareTransitive(a: string, b: string, c: string)
    requires StringCompare(a, b) <= 0 && StringCompare(b, c) <= 0
    ensures StringCompare(a, c) <= 0
  {
    if a != [] && b != [] && c != [] && a[0] == b[0] == c[0] {
      StringCompareTransitive(a[1..], b[1..], c[1..]);
    }
  }

  /** `d * multiplier`, with the multiplier of `dir`. */
  function Directed(d: int, dir: string): (r: int)
    ensures r == d * Multiplier(dir)
  {
    if dir == "asc" then d else -d
  }

  /** The comparator `sortTodos` hands to `Array.prototype.sort`; an unknown
      `sortBy` never reaches it. */
  function Compare(p: Prefs, a: Todo, b: Todo): int {
    if p.sortBy == "custom" then Directed(OrderOf(a) - OrderOf(b), p.sortDirection)
    else if p.sortBy == "date" then Directed(DateOf(a) - DateOf(b), p.sortDirection)
    else if p.sortBy == "priority" then Directed(PriorityRank(a.priority) - PriorityRank(b.priority), p.sortDirection)
    else if p.sortBy == "alpha" then Directed(StringCompare(Lower(a.title), Lower(b.title)), p.sortDirection)
    else 0
  }

  /** Swapping the arguments negates the comparator. */
  lemma CompareAntisymmetric(p: Prefs, a: Todo, b: Todo)
    ensures Compare(p, b, a) == -Compare(p, a, b)
  {
    StringCompareAntisymmetric(Lower(a.title), Lower(b.title));
  }

  /** "Not after" is transitive, so the comparator is a total preorder. */
  lemma CompareTransitive(p: Prefs, a: Todo, b: Todo, c: Todo)
    requires Compare(p, a, b) <= 0 && Compare(p, b, c) <= 0
    ensures Compare(p, a, c) <= 0
  {
    var x, y, z := Lower(a.title), Lower(b.title), Lower(c.title);
    if p.sortBy == "alpha" {
      if p.sortDirection == "asc" {
        StringCompareTransitive(x, y, z);
      } else {
        StringCompareAntisymmetric(x, y);
        StringCompareAntisymmetric(y, z);
        StringCompareAntisymmetric(x, z);
        StringCompareTransitive(z, y, x);
      }
    }
  }

  /** The descending comparator is the ascending one negated, in every mode. */
  lemma DescendingNegates(key: string, a: Todo, b: Todo)
    ensures Compare(Prefs(key, "desc"), a, b) == -Compare(Prefs(key, "asc"), a, b)
  {
  }

  // ---------------------------------------------------------- sorting

  /** The comparator as a value, as `sort` receives it. */
  function Comparator(p: Prefs): (Todo, Todo) -> int {
    (a: Todo, b: Todo) => Compare(p, a, b)
  }

  /** Every mode's comparator is a total preorder, as `sort` requires. */
  lemma ComparatorIsPreorder(p: Prefs)
    ensures IsPreorder(Comparator(p))
  {
    var cmp := Comparator(p);
    forall a, b ensures cmp(b, a) == -cmp(a, b) {
      CompareAntisymmetric(p, a, b);
    }
    forall a, b, c | cmp(a, b) <= 0 && cmp(b, c) <= 0 ensures cmp(a, c) <= 0 {
      CompareTransitive(p, a, b, c);
    }
  }

  /** Under an unknown `sortBy` every pair ties. */
  lemma UnknownKeyTiesAll(p: Prefs)
    ensures !IsSortKey(p.sortBy) ==> forall a, b :: Comparator(p)(a, b) == 0
  {
  }

  /** With pairwise-distinct keys, the descending result is the ascending
      one reversed. */
  lemma DescIsReverseOfAsc(key: string, input: seq<Todo>, asc: seq<Todo>, desc: seq<Todo>)
    requires NoTies(Comparator(Prefs(key, "asc")), input)
    requires multiset(asc) == multiset(input) && SortedBy(Comparator(Prefs(key, "asc")), asc)
    requires multiset(desc) == multiset(input) && SortedBy(Comparator(Prefs(key, "desc")), desc)
    ensures desc == Reverse(asc)
  {
    var up, down := Comparator(Prefs(key, "asc")), Comparator(Prefs(key, "desc"));
    ComparatorIsPreorder(Prefs(key, "desc"));
    forall a, b ensures down(a, b) == -up(a, b) {
      DescendingNegates(key, a, b);
    }
    assert NoTies(up, asc) by {
      forall x, y | x in asc && y in asc && x != y ensures up(x, y) != 0 {
        assert x in multiset(asc) && y in multiset(asc);
      }
    }
    ReverseIsSortedByNegation(up, down, asc, desc);
  }

  /** The sort engine's state: the current preference pair, and the pair the
      persistence effect last wrote. */
  class SortEngine {
    var sortBy: string
    var sortDirection: string
    ghost var persisted: Prefs

    ghost predicate Persisted()
      reads this
    {
      persisted == Prefs(sortBy, sortDirection)
    }

    /** `useState(() => loadSortingPreferences())` */
    constructor(stored: StoredPrefs)
      ensures Prefs(sortBy, sortDirection) == LoadPreferences(stored) && Persisted()
    {
      var p := LoadPreferences(stored);
      sortBy, sortDirection := p.sortBy, p.sortDirection;
      persisted := p;
    }

    /** Stores the value as given; there is no validation here. */
    method SetSortBy(value: string)
      modifies this
      ensures sortBy == value && sortDirection == old(sortDirection) && Persisted()
    {
      sortBy := value;
      persisted := Prefs(sortBy, sortDirection);
    }

    method SetSortDirection(value: string)
      modifies this
      ensures sortDirection == value && sortBy == old(sortBy) && Persisted()
    {
      sortDirection := value;
      persisted := Prefs(sortBy, sortDirection);
    }

    /** `sortTodos`: an empty collection comes back as is; an unknown
        `sortBy` gives the copy in input order; otherwise the copy is sorted
        stably by the current comparator. */
    method SortTodos(todos: seq<Todo>) returns (sorted: seq<Todo>, ghost origin: seq<int>)
      ensures multiset(sorted) == multiset(todos)
      ensures Provenance(todos, sorted, origin)
      ensures todos == [] || !IsSortKey(sortBy) ==> sorted == todos
      ensures SortedBy(Comparator(Prefs(sortBy, sortDirection)), sorted)
      ensures Stable(Comparator(Prefs(sortBy, sortDirection)), sorted, origin)
    {
      var p := Prefs(sortBy, sortDirection);
      if todos == [] {
        return todos, [];
      }
      if !IsSortKey(sortBy) {
        UnknownKeyTiesAll(p);
        AllTiedKeepsOrder(Comparator(p), todos);
        return todos, Identity(|todos|);
      }
      ComparatorIsPreorder(p);
      sorted, origin := InsertionSort(Comparator(p), todos);
    }
  }
}
