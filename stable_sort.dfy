/** `Array.prototype.sort` with a comparator, which is stable: sorting a
    copy by adjacent swaps, and what a sorted arrangement determines.  The
    comparator is any function that is antisymmetric and whose "not after"
    relation is transitive. */
module StableSort {

  /** Swapping the arguments negates the result. */
  ghost predicate IsAntisymmetric<T(!new)>(cmp: (T, T) -> int) {
    forall a, b :: cmp(b, a) == -cmp(a, b)
  }

  /** `cmp` is antisymmetric and "not after" is transitive. */
  ghost predicate IsPreorder<T(!new)>(cmp: (T, T) -> int) {
    && IsAntisymmetric(cmp)
    && (forall a, b, c :: cmp(a, b) <= 0 && cmp(b, c) <= 0 ==> cmp(a, c) <= 0)
  }

  /** No element is after a later one. */
  ghost predicate SortedBy<T>(cmp: (T, T) -> int, s: seq<T>) {
    forall i, j :: 0 <= i < j < |s| ==> cmp(s[i], s[j]) <= 0
  }

  /** Every index of `s` comes from a distinct index of `input`. */
  ghost predicate Provenance<T>(input: seq<T>, s: seq<T>, origin: seq<int>) {
    && |origin| == |s|
    && (forall k :: 0 <= k < |s| ==> 0 <= origin[k] < |input| && s[k] == input[origin[k]])
    && (forall i, j :: 0 <= i < j < |s| ==> origin[i] != origin[j])
  }

  /** Elements that compare equal appear in their input order. */
  ghost predicate Stable<T>(cmp: (T, T) -> int, s: seq<T>, origin: seq<int>)
    requires |origin| == |s|
  {
    forall i, j :: 0 <= i < j < |s| && cmp(s[i], s[j]) == 0 ==> origin[i] < origin[j]
  }

  /** Two elements out of input order are so because the later one strictly
      precedes the earlier one. */
  ghost predicate InversionsStrict<T>(cmp: (T, T) -> int, s: seq<T>, origin: seq<int>)
    requires |origin| == |s|
  {
    forall i, j :: 0 <= i < j < |s| && origin[i] > origin[j] ==> cmp(s[j], s[i]) > 0
  }

  /** Insertion of the element at `j` into the sorted prefix `s[..i+1]` is
      under way: without position `j` the prefix is sorted, and the element
      at `j` precedes everything it has passed. */
  ghost predicate Inserting<T>(cmp: (T, T) -> int, s: seq<T>, i: nat, j: nat) {
    && j <= i < |s|
    && (forall x, y :: 0 <= x < y <= i && x != j && y != j ==> cmp(s[x], s[y]) <= 0)
    && (forall y :: j < y <= i ==> cmp(s[j], s[y]) <= 0)
  }

  function Swapped<T>(s: seq<T>, j: nat): (r: seq<T>)
    requires 0 < j < |s|
    ensures |r| == |s| && r[j - 1] == s[j] && r[j] == s[j - 1]
    ensures forall k :: 0 <= k < |s| && k != j - 1 && k != j ==> r[k] == s[k]
  {
    s[j - 1 := s[j]][j := s[j - 1]]
  }

  lemma SwappedPermutes<T>(s: seq<T>, j: nat)
    requires 0 < j < |s|
    ensures multiset(Swapped(s, j)) == multiset(s)
  {
    var r := Swapped(s, j);
    assert s == s[..j - 1] + [s[j - 1], s[j]] + s[j + 1..];
    assert r == s[..j - 1] + [s[j], s[j - 1]] + s[j + 1..];
  }

  /** The invariant of the inner loop of the insertion sort. */
  ghost predicate InsertInv<T>(cmp: (T, T) -> int, input: seq<T>, s: seq<T>, origin: seq<int>, i: nat, j: nat) {
    && Inserting(cmp, s, i, j)
    && multiset(s) == multiset(input)
    && Provenance(input, s, origin) && InversionsStrict(cmp, s, origin)
  }

  /** One swap of the insertion step keeps every invariant. */
  lemma SwapStep<T>(cmp: (T, T) -> int, input: seq<T>, s: seq<T>, origin: seq<int>, i: nat, j: nat)
    requires 0 < j && InsertInv(cmp, input, s, origin, i, j) && cmp(s[j - 1], s[j]) > 0
    requires cmp(s[j], s[j - 1]) == -cmp(s[j - 1], s[j])
    ensures InsertInv(cmp, input, Swapped(s, j), Swapped(origin, j), i, j - 1)
  {
    SwappedPermutes(s, j);
    SwapKeepsInserting(cmp, s, i, j);
    SwapKeepsInversions(cmp, s, origin, j);
  }

  /** The swap moves the inserted element one place left. */
  lemma SwapKeepsInserting<T>(cmp: (T, T) -> int, s: seq<T>, i: nat, j: nat)
    requires 0 < j && Inserting(cmp, s, i, j) && cmp(s[j - 1], s[j]) > 0
    requires cmp(s[j], s[j - 1]) == -cmp(s[j - 1], s[j])
    ensures Inserting(cmp, Swapped(s, j), i, j - 1)
  {
    var s' := Swapped(s, j);
    forall x, y | 0 <= x < y <= i && x != j - 1 && y != j - 1
      ensures cmp(s'[x], s'[y]) <= 0
    {
      if x == j {
        assert s'[x] == s[j - 1];
      } else if y == j {
        assert s'[y] == s[j - 1];
      }
    }
  }

  /** Swapping a strictly ordered adjacent pair keeps every inversion strict
      and the provenance of every element. */
  lemma SwapKeepsInversions<T>(cmp: (T, T) -> int, s: seq<T>, origin: seq<int>, j: nat)
    requires 0 < j < |s| && |origin| == |s| && InversionsStrict(cmp, s, origin)
    requires cmp(s[j - 1], s[j]) > 0
    ensures InversionsStrict(cmp, Swapped(s, j), Swapped(origin, j))
  {
    var s', o' := Swapped(s, j), Swapped(origin, j);
    forall x, y | 0 <= x < y < |s'| && o'[x] > o'[y] ensures cmp(s'[y], s'[x]) > 0 {
      if x == j - 1 && y == j {
      } else if x == j - 1 {
        assert s'[x] == s[j] && o'[x] == origin[j];
      } else if x == j {
        assert s'[x] == s[j - 1] && o'[x] == origin[j - 1];
      } else if y == j - 1 {
        assert s'[y] == s[j] && o'[y] == origin[j];
      } else if y == j {
        assert s'[y] == s[j - 1] && o'[y] == origin[j - 1];
      }
    }
  }

  /** The element stops once its left neighbour does not follow it. */
  lemma InsertDone<T(!new)>(cmp: (T, T) -> int, s: seq<T>, i: nat, j: nat)
    requires IsPreorder(cmp) && Inserting(cmp, s, i, j)
    requires j == 0 || cmp(s[j - 1], s[j]) <= 0
    ensures forall x, y :: 0 <= x < y <= i ==> cmp(s[x], s[y]) <= 0
  {
    forall x, y | 0 <= x < y <= i ensures cmp(s[x], s[y]) <= 0 {
      if y == j && x < j - 1 {
        assert cmp(s[x], s[j - 1]) <= 0;
      }
    }
  }

  /** A sorted arrangement whose inversions are all strict is stable. */
  lemma StableFromInversions<T(!new)>(cmp: (T, T) -> int, input: seq<T>, s: seq<T>, origin: seq<int>)
    requires IsAntisymmetric(cmp) && Provenance(input, s, origin)
    requires SortedBy(cmp, s) && InversionsStrict(cmp, s, origin)
    ensures Stable(cmp, s, origin)
  {
    forall i, j | 0 <= i < j < |s| && cmp(s[i], s[j]) == 0 ensures origin[i] < origin[j] {
      assert cmp(s[j], s[i]) == 0;
    }
  }

  /** The sorted prefix `a[..i]` together with the element at `i`: the
      loop invariant of the outer loop. */
  ghost predicate SortedPrefix<T>(cmp: (T, T) -> int, input: seq<T>, s: seq<T>, origin: seq<int>, i: nat) {
    && i <= |s|
    && (forall x, y :: 0 <= x < y < i ==> cmp(s[x], s[y]) <= 0)
    && multiset(s) == multiset(input)
    && Provenance(input, s, origin) && InversionsStrict(cmp, s, origin)
  }

  /** Moves `a[i]` left past every element that follows it. */
  method Insert<T(!new)>(cmp: (T, T) -> int, a: array<T>, i: nat, ghost input: seq<T>, ghost origin: seq<int>)
    returns (ghost origin': seq<int>)
    requires IsPreorder(cmp) && i < a.Length && SortedPrefix(cmp, input, a[..], origin, i)
    modifies a
    ensures SortedPrefix(cmp, input, a[..], origin', i + 1)
  {
    origin' := origin;
    var j: nat := i;
    while j > 0 && cmp(a[j - 1], a[j]) > 0
      invariant InsertInv(cmp, input, a[..], origin', i, j)
    {
      SwapStep(cmp, input, a[..], origin', i, j);
      ghost var next := Swapped(a[..], j);
      a[j - 1], a[j] := a[j], a[j - 1];
      assert a[..] == next;
      origin' := Swapped(origin', j);
      j := j - 1;
    }
    InsertDone(cmp, a[..], i, j);
  }

  /** Sorts a copy of `input` by insertion with adjacent swaps, which never
      exchanges two elements that compare equal.  `origin` records, for the
      proof, where each output element stood in the input. */
  method InsertionSort<T(!new)>(cmp: (T, T) -> int, input: seq<T>) returns (sorted: seq<T>, ghost origin: seq<int>)
    requires IsPreorder(cmp)
    ensures multiset(sorted) == multiset(input)
    ensures SortedBy(cmp, sorted)
    ensures Provenance(input, sorted, origin) && Stable(cmp, sorted, origin)
  {
    var a := new T[|input|](k requires 0 <= k < |input| => input[k]);
    origin := seq(|input|, k => k);
    assert a[..] == input;
    var i := 0;
    while i < a.Length
      invariant 0 <= i <= a.Length
      invariant SortedPrefix(cmp, input, a[..], origin, i)
    {
      origin := Insert(cmp, a, i, input, origin);
      i := i + 1;
    }
    sorted := a[..];
    StableFromInversions(cmp, input, sorted, origin);
  }

  /** The positions `0 .. n-1` in order. */
  function Identity(n: nat): (r: seq<int>)
    ensures |r| == n && forall k :: 0 <= k < n ==> r[k] == k
  {
    seq(n, k => k)
  }

  /** When every pair ties, the input order is the only stable arrangement. */
  lemma AllTiedKeepsOrder<T(!new)>(cmp: (T, T) -> int, s: seq<T>)
    requires forall a, b :: cmp(a, b) == 0
    ensures SortedBy(cmp, s) && Provenance(s, s, Identity(|s|)) && Stable(cmp, s, Identity(|s|))
  {
  }

  /** No two different elements of `s` compare equal. */
  ghost predicate NoTies<T>(cmp: (T, T) -> int, s: seq<T>) {
    forall x, y :: x in s && y in s && x != y ==> cmp(x, y) != 0
  }

  /** A sorted arrangement starts with a least element of its collection. */
  lemma HeadIsLeast<T>(cmp: (T, T) -> int, s: seq<T>, z: T)
    requires SortedBy(cmp, s) && z in s && z != s[0]
    ensures cmp(s[0], z) <= 0
  {
    var k :| 0 <= k < |s| && s[k] == z;
  }

  /** Two sorted arrangements of a tie-free collection start alike. */
  lemma HeadsAgree<T(!new)>(cmp: (T, T) -> int, a: seq<T>, b: seq<T>)
    requires IsAntisymmetric(cmp) && NoTies(cmp, a) && a != []
    requires multiset(a) == multiset(b) && SortedBy(cmp, a) && SortedBy(cmp, b)
    ensures b != [] && a[0] == b[0]
  {
    assert a[0] in multiset(b);
    var x, y := a[0], b[0];
    assert y in multiset(a);
    if x != y {
      HeadIsLeast(cmp, a, y);
      HeadIsLeast(cmp, b, x);
      assert false;
    }
  }

  /** Removing the same first element from two permutations leaves permutations. */
  lemma TailsPermute<T>(a: seq<T>, b: seq<T>)
    requires a != [] && b != [] && a[0] == b[0] && multiset(a) == multiset(b)
    ensures multiset(a[1..]) == multiset(b[1..])
  {
    assert a == [a[0]] + a[1..] && b == [b[0]] + b[1..];
    calc {
      multiset(a[1..]);
      multiset([a[0]] + a[1..]) - multiset{a[0]};
      multiset(b) - multiset{b[0]};
      multiset([b[0]] + b[1..]) - multiset{b[0]};
      multiset(b[1..]);
    }
  }

  /** With no ties there is only one sorted arrangement of a collection. */
  lemma {:induction false} SortedUnique<T(!new)>(cmp: (T, T) -> int, a: seq<T>, b: seq<T>)
    requires IsAntisymmetric(cmp) && NoTies(cmp, a)
    requires multiset(a) == multiset(b) && SortedBy(cmp, a) && SortedBy(cmp, b)
    ensures a == b
  {
    if a == [] {
      assert |multiset(b)| == 0;
    } else {
      HeadsAgree(cmp, a, b);
      TailsPermute(a, b);
      assert NoTies(cmp, a[1..]) by {
        assert forall z :: z in a[1..] ==> z in a;
      }
      SortedUnique(cmp, a[1..], b[1..]);
      assert a == [a[0]] + a[1..] && b == [b[0]] + b[1..];
    }
  }

  function Reverse<T>(s: seq<T>): (r: seq<T>)
    ensures |r| == |s| && forall k :: 0 <= k < |s| ==> r[k] == s[|s| - 1 - k]
  {
    seq(|s|, k requires 0 <= k < |s| => s[|s| - 1 - k])
  }

  lemma {:induction false} ReversePermutes<T>(s: seq<T>)
    ensures multiset(Reverse(s)) == multiset(s)
  {
    if s != [] {
      ReversePermutes(s[1..]);
      assert Reverse(s) == Reverse(s[1..]) + [s[0]];
      assert s == [s[0]] + s[1..];
    }
  }

  /** Reversing an arrangement sorted by `up` sorts it by the negated
      comparator `down`; with no ties that is the only such arrangement. */
  lemma ReverseIsSortedByNegation<T(!new)>(up: (T, T) -> int, down: (T, T) -> int, s: seq<T>, d: seq<T>)
    requires IsPreorder(down) && forall a, b :: down(a, b) == -up(a, b)
    requires NoTies(up, s) && multiset(d) == multiset(s)
    requires SortedBy(up, s) && SortedBy(down, d)
    ensures d == Reverse(s)
  {
    var r := Reverse(s);
    ReversePermutes(s);
    assert forall z :: z in d ==> z in multiset(s);
    SortedUnique(down, d, r);
  }
}
