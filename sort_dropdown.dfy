/** The sort dropdown of src/components/SortDropdown.jsx: the four options,
    the option shown for a `sortBy` value, the direction toggle, and the
    open/closed state driven by keys and clicks.  `sortBy` and
    `sortDirection` are the component's props; what it emits through
    `onSortByChange` is returned. */
module SortDropdown {
  import opened Common

  datatype SortOption = SortOption(value: string, caption: string, icon: string)

  const SortOptions: seq<SortOption> := [
    SortOption("custom", "Custom Order", "grip"),
    SortOption("date", "Date Created", "calendar"),
    SortOption("priority", "Priority", "flag"),
    SortOption("alpha", "Alphabetical", "alpha")
  ]

  /** `SORT_OPTIONS.findIndex(opt => opt.value === sortBy)` over a suffix
      starting at `from`: the first matching index, or -1. */
  function FindFrom(sortBy: string, from: nat): (r: int)
    requires from <= |SortOptions|
    ensures -1 <= r < |SortOptions|
    ensures r >= 0 ==>
      && from <= r && SortOptions[r].value == sortBy
      && forall k :: from <= k < r ==> SortOptions[k].value != sortBy
    ensures r == -1 <==> forall k :: from <= k < |SortOptions| ==> SortOptions[k].value != sortBy
    decreases |SortOptions| - from
  {
    if from == |SortOptions| then -1
    else if SortOptions[from].value == sortBy then from
    else FindFrom(sortBy, from + 1)
  }

  function FindOptionIndex(sortBy: string): (r: int)
    ensures -1 <= r < |SortOptions|
    ensures r >= 0 ==> SortOptions[r].value == sortBy
    ensures r == -1 <==> forall o :: o in SortOptions ==> o.value != sortBy
  {
    FindFrom(sortBy, 0)
  }

  /** `currentOption`: the option whose value is `sortBy`, or Custom Order. */
  function CurrentOption(sortBy: string): (r: SortOption)
    ensures r in SortOptions
    ensures (exists o :: o in SortOptions && o.value == sortBy) ==> r.value == sortBy
    ensures (forall o :: o in SortOptions ==> o.value != sortBy) ==> r == SortOptions[0]
  {
    var i := FindOptionIndex(sortBy);
    if i >= 0 then SortOptions[i] else SortOptions[0]
  }

  /** `handleToggleDirection`: 'desc' for 'asc', 'asc' for anything else. */
  function ToggledDirection(sortDirection: string): (r: string)
    ensures r == "asc" || r == "desc"
    ensures r == "desc" <==> sortDirection == "asc"
  {
    if sortDirection == "asc" then "desc" else "asc"
  }

  /** Toggling a valid direction twice restores it. */
  lemma ToggledDirectionTwice(sortDirection: string)
    requires sortDirection == "asc" || sortDirection == "desc"
    ensures ToggledDirection(ToggledDirection(sortDirection)) == sortDirection
  {
  }

  /** ArrowDown's index: `(currentIndex + 1) % 4`. */
  function NextIndex(i: int): (r: nat)
    requires -1 <= i < |SortOptions|
    ensures r < |SortOptions|
    ensures i < |SortOptions| - 1 ==> r == i + 1
  {
    (i + 1) % |SortOptions|
  }

  /** ArrowUp's index: `(currentIndex - 1 + 4) % 4`; no operand is
      negative, so JavaScript's `%` and Dafny's agree. */
  function PrevIndex(i: int): (r: nat)
    requires -1 <= i < |SortOptions|
    ensures r < |SortOptions|
    ensures i > 0 ==> r == i - 1
  {
    (i - 1 + |SortOptions|) % |SortOptions|
  }

  /** On a known option, ArrowUp undoes ArrowDown and the other way round. */
  lemma ArrowsAreInverse(i: nat)
    requires i < |SortOptions|
    ensures PrevIndex(NextIndex(i)) == i && NextIndex(PrevIndex(i)) == i
  {
  }

  /** Four ArrowDowns come back to the same option. */
  lemma ArrowDownCycles(i: nat)
    requires i < |SortOptions|
    ensures NextIndex(NextIndex(NextIndex(NextIndex(i)))) == i
  {
  }

  /** With an unknown `sortBy` (index -1), ArrowDown gives Custom Order and
      ArrowUp gives Priority, not the option before the displayed one. */
  lemma UnknownSortByArrows(sortBy: string)
    requires forall o :: o in SortOptions ==> o.value != sortBy
    ensures SortOptions[NextIndex(FindOptionIndex(sortBy))].value == "custom"
    ensures SortOptions[PrevIndex(FindOptionIndex(sortBy))].value == "priority"
    ensures CurrentOption(sortBy).value == "custom"
  {
  }

  class Dropdown {
    var isOpen: bool

    constructor()
      ensures !isOpen
    {
      isOpen := false;
    }

    /** The button's click handler. */
    method ToggleOpen()
      modifies this
      ensures isOpen == !old(isOpen)
    {
      isOpen := !isOpen;
    }

    /** `handleKeyDown`: on a closed dropdown an arrow only opens it; on an
        open one it emits the next or previous option; Enter and Space flip
        the open flag; every other key does nothing. */
    method HandleKeyDown(sortBy: string, key: string) returns (emitted: Option<string>, preventDefault: bool)
      modifies this
      ensures key == "ArrowDown" || key == "ArrowUp" ==>
        && preventDefault && isOpen
        && (!old(isOpen) ==> emitted == None)
        && (old(isOpen) && key == "ArrowDown" ==> emitted == Some(SortOptions[NextIndex(FindOptionIndex(sortBy))].value))
        && (old(isOpen) && key == "ArrowUp" ==> emitted == Some(SortOptions[PrevIndex(FindOptionIndex(sortBy))].value))
      ensures key == "Enter" || key == " " ==> preventDefault && emitted == None && isOpen == !old(isOpen)
      ensures key != "ArrowDown" && key != "ArrowUp" && key != "Enter" && key != " " ==>
        !preventDefault && emitted == None && isOpen == old(isOpen)
      ensures emitted.Some? ==> exists o :: o in SortOptions && o.value == emitted.value
    {
      emitted, preventDefault := None, false;
      if key == "ArrowDown" || key == "ArrowUp" {
        preventDefault := true;
        if !isOpen {
          isOpen := true;
          return;
        }
        var currentIndex := FindOptionIndex(sortBy);
        var nextIndex := if key == "ArrowDown" then NextIndex(currentIndex) else PrevIndex(currentIndex);
        emitted := Some(SortOptions[nextIndex].value);
      } else if key == "Enter" || key == " " {
        preventDefault := true;
        isOpen := !isOpen;
      }
    }

    /** `handleSelect`: emits the chosen value and closes. */
    method HandleSelect(value: string) returns (emitted: string)
      modifies this
      ensures emitted == value && !isOpen
    {
      emitted := value;
      isOpen := false;
    }

    /** `handleEscape`: Escape closes an open dropdown; otherwise nothing. */
    method HandleEscape(key: string)
      modifies this
      ensures isOpen == (old(isOpen) && key != "Escape")
    {
      if key == "Escape" && isOpen {
        isOpen := false;
      }
    }
  }
}
