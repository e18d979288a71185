# Todo app data layer in Dafny

This project models the state and data logic of a React todo application.
The hooks and components themselves are not reproduced; each piece of
state they hold becomes a class, and each updater they hand to React
becomes a function or a method. The modelled parts are:

- **Todo store** (`useTodos`), in `todo_ops.dfy` and `todo_store.dfy`.
  - One collection of todos, replaced by every operation: add, delete,
    toggle, update, the three subtask operations, drag-and-drop reorder,
    and the bulk operations.
  - A write-through copy models the save-on-change effect.
  - The pure updaters are in module `TodoOps`. The class `TodoStore.Store`
    applies them. Its `reorderTodos` is done in place on an array.
- **Sort engine** (`useSorting`), in `sorting.dfy` and `stable_sort.dfy`.
  - The validated, persisted `{sortBy, sortDirection}` preference.
  - The four comparators.
  - A stable insertion sort of a copy of the collection, standing for
    `Array.prototype.sort`.
- **Filter** (`useFilter`), in `filter.dfy`: the status filter followed by
  the case-insensitive title search.
- **Selection** (`useSelection`), in `selection.dfy`: a set of ids.
- **Keyboard shortcuts** (`useKeyboardShortcuts`), in `keyboard.dfy`: the
  canonical key string of an event, and the exact lookup of that string in
  the shortcut map.
- **Theme** (`useTheme`), in `theme.dfy`: the initial theme resolved from
  the stored value and the system preference, the toggle, and the
  mirrored stored value.
- **Tag editor** (`TagInput`), in `tag_input.dfy`: the palette lookup and
  the add/remove logic.
- **Tag filter bar** (`TagFilterBar`), in `tag_filter_bar.dfy`: first
  occurrence de-duplication of tags, and selection toggling.
- **Sort dropdown** (`SortDropdown`), in `sort_dropdown.dfy`: the four
  options, cyclic arrow-key navigation, and the open/closed state.
- **Label generator** (`generateLabels` of `scripts/visual-check.js`), in
  `labels.dfy`.
- **Shared helpers**, in `common.dfy` and `text.dfy`:
  - `Keep` is `Array.prototype.filter` and `Map` is `map`;
  - `Trim`, `Lower` and `Contains` stand for the JavaScript string
    methods;
  - `Join` and `Split` stand for `join('+')` and `split('+')`.

Inputs from the browser or the runtime are parameters of the model:
- a fresh UUID and the current time are passed to the add operations;
- what storage returned is an argument of a constructor;
- the dark-mode media query is a boolean.

## Model

| member | source | states |
|---|---|---|
| Common.KeepKeep | src/hooks/useFilter.js:18-33 | two filters in a row equal one filter by the conjunction of their tests |
| Text.TrimEmptyIffBlank | src/hooks/useFilter.js:28 | `s.trim()` is empty exactly when `s` consists of whitespace only |
| Text.Trim | src/hooks/useTodos.js:31 | neither end of a trimmed string is whitespace |
| Text.TrimStartSuffix | src/hooks/useTodos.js:31 | what the leading trim drops is whitespace, and what it keeps is a suffix |
| Text.TrimEndPrefix | src/hooks/useTodos.js:31 | what the trailing trim drops is whitespace, and what it keeps is a prefix not ending in whitespace |
| Text.TrimIdempotent | src/hooks/useTodos.js:76 | trimming a trimmed string changes nothing |
| Text.SplitJoin | src/hooks/useKeyboardShortcuts.js:59 | splitting a `+`-joined list of non-empty parts without `+` returns the parts |
| TodoOps.MaxOrder | src/hooks/useTodos.js:28 | the reduce gives a value of at least 0 that is at least every `order` (a missing one counts as 0), and it is 0 or the `order` of some todo |
| TodoOps.AddTodoSpec | src/hooks/useTodos.js:25-42 | adding appends exactly one todo and leaves the others unchanged; the new todo has the given id, the trimmed title, `completed` false, the given due date and priority, `createdAt` now, tags and subtasks defaulting to empty, and an `order` above every existing one that equals the maximum plus 1 |
| TodoOps.AddTodoKeepsIdsUnique | src/hooks/useTodos.js:29-40 | with a fresh id, ids stay pairwise distinct |
| TodoOps.NextOrderExamples | src/hooks/useTodos.js:28-38 | orders 5 and 10 give 11; a legacy todo without `order` gives 1; an empty list gives 1 |
| TodoOps.DeleteTodo | src/hooks/useTodos.js:49-51 | every todo with the id disappears; every other todo keeps its multiplicity and its relative order; an unknown id changes nothing |
| TodoOps.BulkDelete | src/hooks/useTodos.js:206-209 | the same, for every id in the list |
| TodoOps.ToggleTodoSpec | src/hooks/useTodos.js:57-63 | only `completed` of the todos with the id flips; the length and the ids are kept |
| TodoOps.ToggleTodoTwice | src/hooks/useTodos.js:57-63 | toggling twice restores the collection |
| TodoOps.ToggleTodoUnknown | src/hooks/useTodos.js:57-63 | an unknown id leaves the collection unchanged |
| TodoOps.Merge | src/hooks/useTodos.js:73-81 | id, `completed`, `createdAt` and `order` are kept; a given title is trimmed; a due date, priority, tag list or subtask list present in the update overwrites the field, and an absent one keeps it |
| TodoOps.MergeIdempotent | src/hooks/useTodos.js:74-81 | applying the same update twice is applying it once |
| TodoOps.MergeNoChanges | src/hooks/useTodos.js:74-81 | an update without keys changes nothing |
| TodoOps.UpdateTodoSpec | src/hooks/useTodos.js:70-85 | exactly the todos with the id are merged with the update; the length and the ids are kept |
| TodoOps.UpdateTodoIdempotent | src/hooks/useTodos.js:70-85 | a repeated `updateTodo` changes nothing more |
| TodoOps.AddSubtaskResult | src/hooks/useTodos.js:99-112 | `addSubtask` returns the new subtask exactly when some todo has the id, otherwise `null` |
| TodoOps.MergeSubtask | src/hooks/useTodos.js:128-134 | the subtask keeps its id; a given text is trimmed; `completed` is replaced only when given |
| TodoOps.SubtaskOpsTouchOnlyTarget | src/hooks/useTodos.js:93-160 | add, update and delete of subtasks change only the `subtasks` of the todos with `todoId`, and read a missing list as empty |
| TodoOps.UpdateSubtaskInSpec | src/hooks/useTodos.js:127-135 | subtask ids are kept, other subtasks are untouched, and an unknown subtask id changes nothing |
| TodoOps.DeleteSubtaskInSpec | src/hooks/useTodos.js:154 | exactly the subtasks with the id disappear, the rest keep their order, and an unknown id changes nothing |
| TodoOps.DeleteSubtaskUndoesAdd | src/hooks/useTodos.js:93-160 | deleting a just-added subtask (whose id was unused in that todo) restores the todo's list |
| TodoOps.FindIndex | src/hooks/useTodos.js:169-170 | the first index with the id, or -1 exactly when no todo has it |
| TodoOps.Moved | src/hooks/useTodos.js:177-179 | after the two splices the removed todo is at the new index, and the others are in their old order |
| TodoOps.MovedIsPermutation | src/hooks/useTodos.js:177-179 | the splices permute the collection |
| TodoOps.MovedKeepsIds | src/hooks/useTodos.js:177-179 | the splices permute the ids |
| TodoOps.ReorderedNoOp | src/hooks/useTodos.js:172-174 | a missing id, or two ids at the same index, returns the collection itself, `order` values included |
| TodoOps.UniqueIdsByMultiset | src/hooks/useTodos.js:167-187 | ids are unique exactly when no id occurs twice in the multiset of ids |
| TodoOps.ReorderedSpec | src/hooks/useTodos.js:167-187 | a real move keeps the length and the id multiset, puts the active todo at the over-index, keeps all others in relative order, and sets every `order` to its 1-based position |
| TodoOps.MoveAndRenumberSpec | src/hooks/useTodos.js:176-185 | the same facts for a move between two valid indices |
| TodoOps.RenumberedSpec | src/hooks/useTodos.js:182-185 | renumbering changes only `order`, which becomes index + 1 |
| TodoOps.ReorderedKeepsIdsUnique | src/hooks/useTodos.js:167-187 | unique ids stay unique after a reorder |
| TodoOps.BulkCompleteSpec | src/hooks/useTodos.js:193-200 | exactly the selected todos become completed; no other field changes; a second call changes nothing |
| TodoOps.BulkSetPrioritySpec | src/hooks/useTodos.js:216-223 | the priority is overwritten exactly on the selected todos; no other field changes; a second call changes nothing |
| TodoOps.BulkAddTagSpec | src/hooks/useTodos.js:230-241 | the tag is appended exactly to the selected todos that lack its id; afterwards every selected todo carries the id; nothing else changes |
| TodoOps.BulkAddTagIdempotent | src/hooks/useTodos.js:230-241 | a second `bulkAddTag` changes nothing |
| TodoOps.BulkAddTagKeepsTagIdsUnique | src/hooks/useTodos.js:236-238 | a todo never gets two tags with the same id |
| TodoStore.Store.constructor | src/hooks/useTodos.js:9-14 | the store starts with the loaded collection, which storage holds |
| TodoStore.Store.AddTodo | src/hooks/useTodos.js:25-43 | appends the new todo and returns it; storage holds the new collection |
| TodoStore.Store.DeleteTodo | src/hooks/useTodos.js:49-51 | the collection becomes `DeleteTodo` of the old one and is saved |
| TodoStore.Store.ToggleTodo | src/hooks/useTodos.js:57-63 | the collection becomes `ToggleTodo` of the old one and is saved |
| TodoStore.Store.UpdateTodo | src/hooks/useTodos.js:70-85 | the collection becomes `UpdateTodo` of the old one and is saved |
| TodoStore.Store.AddSubtask | src/hooks/useTodos.js:93-113 | appends the trimmed subtask to the todos with the id and returns it, or `None` when no todo has the id |
| TodoStore.Store.UpdateSubtask | src/hooks/useTodos.js:121-141 | the collection becomes `UpdateSubtask` of the old one and is saved |
| TodoStore.Store.DeleteSubtask | src/hooks/useTodos.js:148-160 | the collection becomes `DeleteSubtask` of the old one and is saved |
| TodoStore.Store.ReorderTodos | src/hooks/useTodos.js:167-187 | the copy, the two splices and the renumbering give `Reordered` of the old collection; unique ids stay unique |
| TodoStore.Store.BulkComplete | src/hooks/useTodos.js:193-200 | the collection becomes `BulkComplete` of the old one and is saved |
| TodoStore.Store.BulkDelete | src/hooks/useTodos.js:206-209 | the collection becomes `BulkDelete` of the old one and is saved |
| TodoStore.Store.BulkSetPriority | src/hooks/useTodos.js:216-223 | the collection becomes `BulkSetPriority` of the old one and is saved |
| TodoStore.Store.BulkAddTag | src/hooks/useTodos.js:230-241 | the collection becomes `BulkAddTag` of the old one and is saved |
| TodoStore.MovedAt | src/hooks/useTodos.js:177-179 | each index after the move holds the moved todo, a neighbour shifted by one, or the old todo |
| TodoStore.MoveInArray | src/hooks/useTodos.js:177-179 | shifting the todos between the two indices in an array yields exactly `Moved` |
| TodoStore.RenumberInPlace | src/hooks/useTodos.js:182-185 | the in-place loop yields exactly `Renumbered` of the old contents |
| StableSort.InsertionSort | src/hooks/useSorting.js:91-131 | sorting the copy gives a permutation of the input that is sorted by the comparator and stable: tied elements keep their input order |
| StableSort.Insert | src/hooks/useSorting.js:91-131 | one insertion step extends the sorted prefix by one and keeps the permutation and stability bookkeeping |
| StableSort.StableFromInversions | src/hooks/useSorting.js:91-131 | if every pair out of input order is strictly ordered, the arrangement is stable |
| StableSort.AllTiedKeepsOrder | src/hooks/useSorting.js:127-128 | when every pair ties, the input order is sorted and stable |
| StableSort.SortedUnique | src/hooks/useSorting.js:91-131 | without ties there is only one sorted arrangement of a collection |
| StableSort.ReverseIsSortedByNegation | src/hooks/useSorting.js:92 | the arrangement sorted by the negated comparator is the reverse of the one sorted by the comparator, when there are no ties |
| Sorting.LoadPreferences | src/hooks/useSorting.js:9-27 | the result is always valid; each stored value is kept only when it is allowed; a missing or unparseable value gives `{custom, asc}` |
| Sorting.LoadStoredRoundTrip | src/hooks/useSorting.js:9-37 | a valid preference survives a save and a reload |
| Sorting.LoadIsIdempotent | src/hooks/useSorting.js:9-37 | saving and reloading what was loaded changes nothing |
| Sorting.PriorityRank | src/hooks/useSorting.js:45-50 | high ranks 3, medium 2, low 1, and any other or missing priority 0 |
| Sorting.StringCompare | src/hooks/useSorting.js:123 | the title comparison returns -1, 0 or 1, and 0 exactly for equal strings |
| Sorting.StringCompareAntisymmetric | src/hooks/useSorting.js:123 | swapping the titles negates the comparison |
| Sorting.StringCompareTransitive | src/hooks/useSorting.js:123 | "not after" between titles is transitive |
| Sorting.Directed | src/hooks/useSorting.js:92-123 | the difference times the direction multiplier |
| Sorting.CompareAntisymmetric | src/hooks/useSorting.js:94-125 | every comparator is negated when its arguments are swapped |
| Sorting.CompareTransitive | src/hooks/useSorting.js:94-125 | every comparator's "not after" is transitive, in both directions |
| Sorting.DescendingNegates | src/hooks/useSorting.js:92 | the descending comparator is the ascending one negated |
| Sorting.ComparatorIsPreorder | src/hooks/useSorting.js:94-125 | each mode's comparator is a total preorder, as `sort` requires |
| Sorting.UnknownKeyTiesAll | src/hooks/useSorting.js:127-128 | under an unknown `sortBy` nothing is reordered |
| Sorting.DescIsReverseOfAsc | src/hooks/useSorting.js:92-125 | with pairwise-distinct keys, the descending result is the ascending result reversed |
| Sorting.SortEngine.constructor | src/hooks/useSorting.js:57-62 | starts from the loaded preference, which storage holds |
| Sorting.SortEngine.SetSortBy | src/hooks/useSorting.js:68-70 | sets `sortBy` as given, without validation, keeps the direction, and saves |
| Sorting.SortEngine.SetSortDirection | src/hooks/useSorting.js:76-78 | sets the direction as given, keeps `sortBy`, and saves |
| Sorting.SortEngine.SortTodos | src/hooks/useSorting.js:85-134 | the result is a permutation of the input, sorted and stable for the current comparator; an empty input, or an unknown `sortBy`, returns the input order |
| Filter.FilterTodos | src/hooks/useFilter.js:16-38 | a todo is in the result exactly when it is in the input and passes both the status test and the search test |
| Filter.ByStatusIsKeep | src/hooks/useFilter.js:21-25 | the status step is one filter by the status test, or none for any other status |
| Filter.BySearchIsKeep | src/hooks/useFilter.js:28-33 | the search step is one filter by the search test, or none for a blank query |
| Filter.FilterIsOneKeep | src/hooks/useFilter.js:18-35 | the chained steps are one filter by the conjunction of both tests |
| Filter.FilterIsSubsequence | src/hooks/useFilter.js:18-35 | the result keeps the input order |
| Filter.FilterIdempotent | src/hooks/useFilter.js:18-35 | filtering the result again changes nothing |
| Filter.FilterNothingToDo | src/hooks/useFilter.js:18-35 | with status 'all' (or any unknown value) and a blank query the input comes back unchanged |
| Filter.BlankQueryIgnored | src/hooks/useFilter.js:28 | a whitespace-only query acts as the empty query |
| Selection.Toggled | src/hooks/useSelection.js:14-24 | toggling flips membership of the id only, and changes the size by one |
| Selection.ToggledTwice | src/hooks/useSelection.js:14-24 | toggling the same id twice restores the selection |
| Selection.SetOf | src/hooks/useSelection.js:30-32 | `new Set(ids)` holds exactly the listed ids |
| Selection.SetOfSize | src/hooks/useSelection.js:31-53 | the count is at most the list length, and equals it for a list without duplicates |
| Selection.SelectionSet.constructor | src/hooks/useSelection.js:8 | the selection starts empty, with count 0 |
| Selection.SelectionSet.ToggleSelection | src/hooks/useSelection.js:14-24 | the selection becomes `Toggled` of the old one |
| Selection.SelectionSet.SelectAll | src/hooks/useSelection.js:30-32 | the selection becomes exactly the given ids |
| Selection.SelectionSet.ClearSelection | src/hooks/useSelection.js:37-39 | the selection becomes empty |
| Keyboard.NormalizeKey | src/hooks/useKeyboardShortcuts.js:47-52 | the key part is the lowercased key, except that the space bar becomes "space"; it is never a bare space |
| Keyboard.KeyPartsSpec | src/hooks/useKeyboardShortcuts.js:32-57 | at most four parts; "shift" and "alt" appear exactly when pressed; "ctrl" appears exactly for Ctrl or Meta (or a key itself named "ctrl"); "control" and "meta" never appear; a non-modifier key is the last part, and a modifier key adds no part of its own |
| Keyboard.GetKeyString | src/hooks/useKeyboardShortcuts.js:30-62 | the pushes and the join build exactly the `+`-joined parts |
| Keyboard.KeyPartsOrder | src/hooks/useKeyboardShortcuts.js:34-57 | the parts appear in the order ctrl, shift, alt, key |
| Keyboard.CtrlNParts | src/hooks/useKeyboardShortcuts.js:32-59 | Ctrl+N and Cmd+N give the parts "ctrl", "n" and the key string "ctrl+n" |
| Keyboard.MetaIsCtrl | src/hooks/useKeyboardShortcuts.js:21-23 | Cmd and Ctrl give the same key string |
| Keyboard.KeyStringSplits | src/hooks/useKeyboardShortcuts.js:59 | a non-empty key string whose key has no `+` splits back into its parts |
| Keyboard.Dispatch | src/hooks/useKeyboardShortcuts.js:67-79 | a handler runs, after `preventDefault`, exactly when the map holds a function under the exact key string, and it is that function |
| Keyboard.DispatchIsExact | src/hooks/useKeyboardShortcuts.js:69-72 | entries under other strings never affect the decision |
| Theme.InitialTheme | src/hooks/useTheme.js:10-21 | a stored 'dark' or 'light' wins; otherwise the theme is 'dark' exactly when the system prefers dark; the result is always 'dark' or 'light' |
| Theme.ToggledTheme | src/hooks/useTheme.js:31-33 | the toggle always gives a valid theme different from the old one |
| Theme.ToggleTwice | src/hooks/useTheme.js:31-33 | toggling a valid theme twice restores it |
| Theme.ThemeStore.constructor | src/hooks/useTheme.js:10-26 | starts from the resolved theme, which the effect stores |
| Theme.ThemeStore.ToggleTheme | src/hooks/useTheme.js:24-33 | the theme becomes the toggled one, stays valid, and the stored value follows it |
| TagInput.FindColor | src/components/TagInput.jsx:23 | finds an entry exactly when one has the name; the entry found has that name; a match at the head wins |
| TagInput.GetTagColorStyle | src/components/TagInput.jsx:22-24 | returns the palette entry with the name, or red for any unknown name |
| TagInput.PaletteNamesDistinct | src/components/TagInput.jsx:6-15 | the palette has 8 entries with pairwise different names |
| TagInput.FindColorByOwnName | src/components/TagInput.jsx:23 | in a list with distinct names, looking up an entry's name finds that entry |
| TagInput.LookupByPaletteName | src/components/TagInput.jsx:6-24 | looking up any palette name returns that very entry |
| TagInput.RemoveTag | src/components/TagInput.jsx:50-52 | the result holds exactly the tags without the id, each as often as before, in their original order |
| TagInput.RemoveUndoesAdd | src/components/TagInput.jsx:36-52 | removing a just-added tag whose id was unused restores the list |
| TagInput.TagEditor.constructor | src/components/TagInput.jsx:33-34 | the name field starts empty and the colour starts as blue |
| TagInput.TagEditor.SetTagName | src/components/TagInput.jsx:68 | typing replaces the name and keeps the colour |
| TagInput.TagEditor.SelectColor | src/components/TagInput.jsx:81 | a colour button selects that palette colour |
| TagInput.TagEditor.HandleAddTag | src/components/TagInput.jsx:36-48 | a blank name emits nothing and changes nothing; otherwise emits the old tags plus one tag with the trimmed name and the selected colour, then clears the field |
| TagInput.AddedNameIsTrimmed | src/components/TagInput.jsx:37-42 | an added name is never blank and is already trimmed |
| TagFilterBar.FirstOccurrences | src/components/TagFilterBar.jsx:12-22 | keeps at most as many tags as given and exactly the same set of ids |
| TagFilterBar.FirstOccurrencesUnique | src/components/TagFilterBar.jsx:17-20 | each id occurs exactly once in the extracted list |
| TagFilterBar.FirstOccurrencesStep | src/components/TagFilterBar.jsx:17-20 | a scanned tag is kept exactly when its id is new |
| TagFilterBar.FirstOccurrencesEmpty | src/components/TagFilterBar.jsx:25-27 | the extracted list is empty exactly when there are no tags |
| TagFilterBar.AllTagsEmpty | src/components/TagFilterBar.jsx:15-16 | there are no tags exactly when every todo has an empty or missing `tags` |
| TagFilterBar.AllTagsIds | src/components/TagFilterBar.jsx:15-16 | an id occurs among all tags exactly when some todo carries it |
| TagFilterBar.RendersNothingIffNoTags | src/components/TagFilterBar.jsx:15-27 | the bar renders nothing exactly when no todo has a tag |
| TagFilterBar.ScanTag | src/components/TagFilterBar.jsx:17-20 | one inner iteration extends the first occurrences and the seen ids by one tag |
| TagFilterBar.ScanTags | src/components/TagFilterBar.jsx:16-21 | the inner loop extends them by one todo's tags |
| TagFilterBar.ExtractUniqueTags | src/components/TagFilterBar.jsx:11-22 | the nested loops give the first occurrence of every tag id, in scan order, each id once, and only ids some todo carries |
| TagFilterBar.HandleTagClick | src/components/TagFilterBar.jsx:29-35 | clicking an unselected id appends it; clicking a selected id removes it and keeps the others in their order; every other id's membership is unchanged |
| TagFilterBar.ClickTwice | src/components/TagFilterBar.jsx:29-35 | clicking an unselected tag twice returns the original selection |
| TagFilterBar.DeselectKeepsOrder | src/components/TagFilterBar.jsx:31 | deselecting keeps the other ids in their order |
| TagFilterBar.ClearAllHidesButton | src/components/TagFilterBar.jsx:37-39 | after clear-all the clear button is gone, and any selecting click brings it back |
| SortDropdown.FindFrom | src/components/SortDropdown.jsx:167 | the first index at or after the start whose value matches, or -1 when none does |
| SortDropdown.FindOptionIndex | src/components/SortDropdown.jsx:167 | the index of the option with the value, or -1 exactly when there is none |
| SortDropdown.CurrentOption | src/components/SortDropdown.jsx:126 | the option matching `sortBy`, or Custom Order when none does |
| SortDropdown.ToggledDirection | src/components/SortDropdown.jsx:156-158 | 'desc' exactly for 'asc', and 'asc' otherwise |
| SortDropdown.ToggledDirectionTwice | src/components/SortDropdown.jsx:156-158 | toggling a valid direction twice restores it |
| SortDropdown.NextIndex | src/components/SortDropdown.jsx:168-170 | ArrowDown's index is always valid, and the next one except at the end |
| SortDropdown.PrevIndex | src/components/SortDropdown.jsx:171 | ArrowUp's index is always valid, even from -1, and the previous one except at the start |
| SortDropdown.ArrowsAreInverse | src/components/SortDropdown.jsx:168-171 | on a known option, ArrowUp undoes ArrowDown and the other way round |
| SortDropdown.ArrowDownCycles | src/components/SortDropdown.jsx:170 | four ArrowDowns return to the same option |
| SortDropdown.UnknownSortByArrows | src/components/SortDropdown.jsx:126-171 | with an unknown `sortBy`, ArrowDown gives Custom Order and ArrowUp gives Priority, while Custom Order is displayed |
| SortDropdown.Dropdown.constructor | src/components/SortDropdown.jsx:122 | the dropdown starts closed |
| SortDropdown.Dropdown.ToggleOpen | src/components/SortDropdown.jsx:189 | a click on the button flips the open flag |
| SortDropdown.Dropdown.HandleKeyDown | src/components/SortDropdown.jsx:160-177 | on a closed dropdown an arrow only opens it; on an open one it emits the next or previous option, always a valid one; Enter and Space flip the flag; other keys do nothing |
| SortDropdown.Dropdown.HandleSelect | src/components/SortDropdown.jsx:150-154 | emits the chosen value and closes |
| SortDropdown.Dropdown.HandleEscape | src/components/SortDropdown.jsx:134-139 | Escape closes an open dropdown; otherwise nothing changes |
| Labels.AlphabetLetters | scripts/visual-check.js:30 | the alphabet holds the 26 consecutive letters from 'a' |
| Labels.CharAt | scripts/visual-check.js:33-35 | one letter for an index below 26, and the nine characters of "undefined" past the end |
| Labels.LabelShape | scripts/visual-check.js:31-36 | below 26 a label is the one letter at the index; from 26 to 701 it is the letter at index/26 - 1 followed by the letter at index mod 26 |
| Labels.LabelExamples | scripts/visual-check.js:27-36 | 0 gives "a", 25 "z", 26 "aa", 52 "ba", 701 "zz" |
| Labels.LabelsDistinct | scripts/visual-check.js:31-36 | the first 702 labels are pairwise different |
| Labels.GeneratedLabelsDistinct | scripts/visual-check.js:28-38 | for a count up to 702 the generated labels are pairwise different |
| Labels.LabelCollision | scripts/visual-check.js:35 | labels 702 and 728 are both "undefineda" |
| Labels.GenerateLabels | scripts/visual-check.js:28-39 | returns exactly `count` labels, label i at index i |
| Labels.CorrectedLabel | scripts/visual-check.js:27 | a label continued past "zz" in bijective base 26: only letters, ending with the letter of the index mod 26 |
| Labels.CorrectedAgrees | scripts/visual-check.js:31-36 | the corrected labels agree with the original ones below 702 |
| Labels.CorrectedLabelInjective | scripts/visual-check.js:27 | different indices always give different corrected labels |
| Labels.GenerateCorrectedLabels | scripts/visual-check.js:28-38 | the corrected generator returns `count` pairwise different labels, for any count |

## Left out

- `src/utils/storage.js` is not part of this model. It wraps `localStorage` and JSON. What it loads is a constructor argument. What it saves is a ghost copy (`saved`, `persisted`, `stored`) that each operation keeps equal to the current state.
- React plumbing is not modelled: `useState`, `useEffect`, `useCallback` identity, re-rendering, and the registration and removal of document listeners.
- `crypto.randomUUID` and `new Date()` are parameters. The model does not show that ids are fresh; uniqueness lemmas take freshness as a precondition.
- `createdAt` is an integer timestamp, not an ISO string. The model therefore does not cover date parsing, including an unparseable date giving `NaN` in the date comparator.
- Sorting.StringCompare: `localeCompare` collation is modelled as ordinal order. Locale rules and accents are not modelled.
- Text.Lower: `toLowerCase` is modelled only for ASCII letters.
- Text.Trim: `trim` removes only the ASCII whitespace characters. Unicode spaces are not removed.
- Sorting.PriorityRank: the model does not capture that `PRIORITY_ORDER` is a plain object. A priority such as "constructor" finds an inherited property and makes the comparator return `NaN`. The model ranks every unknown priority 0.
- Sorting.SortEngine.SortTodos: `Array.prototype.sort` is modelled by one specific stable algorithm (insertion sort). The model states sortedness, permutation and stability, which any stable sort guarantees. It does not match the engine's sequence of comparator calls.
- TodoStore.Store.AddTodo: the method does not restate that ids stay unique. `TodoOps.AddTodoKeepsIdsUnique` states this for a fresh id.
- TodoStore.Store.AddTodo: the model returns the appended todo directly. In the source, the value is assigned inside a deferred updater.
- TodoStore.Store.AddSubtask: the model returns `created` as though the `setTodos` updater had already run (src/hooks/useTodos.js:99-112). In the source, `created` is assigned inside that deferred updater, so the value returned synchronously can still be `null` when the todo exists.
- Text: characters are Unicode scalar values, not UTF-16 code units. A character outside the Basic Multilingual Plane has length 1 in the model and 2 in JavaScript.
- Keyboard.Dispatch: the shortcut map is modelled as a map from strings to either a handler name or a non-function value. Inherited object properties are not modelled. Calling the handler is the returned name.
- Filter.FilterTodos: a todo without a `title` would make the search throw. The model requires every todo to have a title string.
- Rendering, styling and focus handling (`buttonRef.focus()`) are not modelled. Neither are the click-outside handler of the sort dropdown and the SVG icons.
- Selection.SelectionSet.IsSelected, Selection.SelectionSet.SelectionCount and Theme.ThemeStore.IsDark are plain queries of the state, written as the source writes them.

## Findings

| source | as written | input that shows it | evidently intended | confidence | as-written member | corrected member |
|---|---|---|---|---|---|---|
| scripts/visual-check.js:35 | from index 702 on, `chars[Math.floor(i / 26) - 1]` reads past the 26-letter alphabet, and the label starts with the text "undefined" | `generateLabels(729)`: labels 702 and 728 are both "undefineda" | continue past "zz" with "aaa", "aab", … (bijective base 26), so every label stays distinct | medium, not executed | Labels.LabelCollision | Labels.CorrectedLabelInjective |
