/** The multi-select state of src/hooks/useSelection.js: one set of ids. */
module Selection {

  /** The set `toggleSelection` produces: `id` removed when present, added
      when absent, every other id as it was. */
  function Toggled(s: set<string>, id: string): (r: set<string>)
    ensures id in r <==> id !in s
    ensures forall x :: x != id ==> (x in r <==> x in s)
    ensures |r| == if id in s then |s| - 1 else |s| + 1
  {
    if id in s then s - {id} else s + {id}
  }

  /** Toggling the same id twice restores the selection. */
  lemma ToggledTwice(s: set<string>, id: string)
    ensures Toggled(Toggled(s, id), id) == s
  {
  }

  /** `new Set(ids)`: the distinct ids of the list. */
  function SetOf(ids: seq<string>): (r: set<string>)
    ensures forall x :: x in r <==> x in ids
  {
    set x | x in ids
  }

  /** Duplicates collapse: a set built from a list is never larger than the
      list, and exactly as large when the list has no duplicates. */
  lemma {:induction false} SetOfSize(ids: seq<string>)
    ensures |SetOf(ids)| <= |ids|
    ensures (forall i, j :: 0 <= i < j < |ids| ==> ids[i] != ids[j]) ==> |SetOf(ids)| == |ids|
  {
    if ids != [] {
      var tail := ids[1..];
      SetOfSize(tail);
      assert SetOf(ids) == SetOf(tail) + {ids[0]};
      if forall i, j :: 0 <= i < j < |ids| ==> ids[i] != ids[j] {
        assert ids[0] !in SetOf(tail) by {
          forall k | 0 <= k < |tail| ensures tail[k] != ids[0] {
            assert tail[k] == ids[k + 1];
          }
        }
        assert forall i, j :: 0 <= i < j < |tail| ==> tail[i] != tail[j] by {
          forall i, j | 0 <= i < j < |tail| ensures tail[i] != tail[j] {
            assert tail[i] == ids[i + 1] && tail[j] == ids[j + 1];
          }
        }
      }
    }
  }

  class SelectionSet {
    var selectedIds: set<string>

    /** `useState(new Set())`: nothing is selected. */
    constructor()
      ensures selectedIds == {} && SelectionCount() == 0
    {
      selectedIds := {};
    }

    /** Copies the set, then adds or deletes `id` in the copy. */
    method ToggleSelection(id: string)
      modifies this
      ensures selectedIds == Toggled(old(selectedIds), id)
    {
      var next := selectedIds;
      if id in next {
        next := next - {id};
      } else {
        next := next + {id};
      }
      selectedIds := next;
    }

    /** Replaces the selection by exactly the given ids. */
    method SelectAll(ids: seq<string>)
      modifies this
      ensures selectedIds == SetOf(ids)
    {
      selectedIds := SetOf(ids);
    }

    /** Empties the selection, whether or not it was empty. */
    method ClearSelection()
      modifies this
      ensures selectedIds == {}
    {
      selectedIds := {};
    }

    /** `selectedIds.has(id)` */
    predicate IsSelected(id: string)
      reads this
    {
      id in selectedIds
    }

    /** `selectedIds.size` */
    function SelectionCount(): nat
      reads this
    {
      |selectedIds|
    }
  }
}
