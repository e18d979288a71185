/** The tag filter bar of src/components/TagFilterBar.jsx: the distinct
    tags of all todos in first-occurrence order, and the selected-id list
    that clicking a tag edits. */
module TagFilterBar {
  import opened Common
  import opened TodoModel

  /** Every todo's tags, todo after todo; a todo without `tags` gives none. */
  function AllTags(todos: seq<Todo>): seq<Tag> {
    if todos == [] then []
    else AllTags(todos[..|todos| - 1]) + TagsOf(todos[|todos| - 1])
  }

  function IdSet(tags: seq<Tag>): set<string> {
    set g | g in tags :: g.id
  }

  lemma IdSetAppend(a: seq<Tag>, b: seq<Tag>)
    ensures IdSet(a + b) == IdSet(a) + IdSet(b)
  {
  }

  /** The tags of `tags` whose id does not occur earlier, in their order. */
  function FirstOccurrences(tags: seq<Tag>): (r: seq<Tag>)
    ensures |r| <= |tags|
    ensures IdSet(r) == IdSet(tags)
  {
    if tags == [] then []
    else
      var init := tags[..|tags| - 1];
      var last := tags[|tags| - 1];
      assert tags == init + [last];
      IdSetAppend(init, [last]);
      if last.id in IdSet(init) then FirstOccurrences(init)
      else
        IdSetAppend(FirstOccurrences(init), [last]);
        FirstOccurrences(init) + [last]
  }

  /** Each id occurs exactly once in the result. */
  lemma {:induction false} FirstOccurrencesUnique(tags: seq<Tag>)
    ensures UniqueTagIds(FirstOccurrences(tags))
  {
    if tags != [] {
      var init := tags[..|tags| - 1];
      FirstOccurrencesUnique(init);
      var prev := FirstOccurrences(init);
      var last := tags[|tags| - 1];
      if last.id !in IdSet(init) {
        var r := prev + [last];
        forall i, j | 0 <= i < j < |r| ensures r[i].id != r[j].id {
          if j == |r| - 1 {
            assert r[i] in prev;
          }
        }
      }
    }
  }

  /** The result is empty exactly when there are no tags at all. */
  lemma FirstOccurrencesEmpty(tags: seq<Tag>)
    ensures FirstOccurrences(tags) == [] <==> tags == []
  {
    if tags != [] {
      assert tags[0].id in IdSet(tags);
    }
  }

  /** No todo carries a tag exactly when the list of all tags is empty. */
  lemma {:induction false} AllTagsEmpty(todos: seq<Todo>)
    ensures AllTags(todos) == [] <==> forall t :: t in todos ==> TagsOf(t) == []
  {
    if todos != [] {
      var init := todos[..|todos| - 1];
      AllTagsEmpty(init);
      assert todos == init + [todos[|todos| - 1]];
    }
  }

  /** The bar's tags: the first occurrence of every tag id. */
  function UniqueTags(todos: seq<Todo>): seq<Tag> {
    FirstOccurrences(AllTags(todos))
  }

  /** The bar renders nothing exactly when no todo has a tag. */
  lemma RendersNothingIffNoTags(todos: seq<Todo>)
    ensures UniqueTags(todos) == [] <==> forall t :: t in todos ==> TagsOf(t) == []
  {
    FirstOccurrencesEmpty(AllTags(todos));
    AllTagsEmpty(todos);
  }

  /** Scanning one more tag: kept exactly when its id is new. */
  lemma FirstOccurrencesStep(scanned: seq<Tag>, tag: Tag)
    ensures FirstOccurrences(scanned + [tag]) ==
      if tag.id in IdSet(scanned) then FirstOccurrences(scanned) else FirstOccurrences(scanned) + [tag]
    ensures IdSet(scanned + [tag]) == IdSet(scanned) + {tag.id}
  {
    assert (scanned + [tag])[..|scanned|] == scanned;
    IdSetAppend(scanned, [tag]);
  }

  /** The extraction loop: scans todos in order and each todo's tags in
      order, keeping a tag when its id has not been seen. */
  method ExtractUniqueTags(todos: seq<Todo>) returns (uniqueTags: seq<Tag>)
    ensures uniqueTags == UniqueTags(todos)
    ensures UniqueTagIds(uniqueTags)
    ensures forall id :: id in IdSet(uniqueTags) <==> exists t :: t in todos && id in IdSet(TagsOf(t))
  {
    uniqueTags := [];
    var seenIds: set<string> := {};
    var i := 0;
    while i < |todos|
      invariant 0 <= i <= |todos|
      invariant uniqueTags == FirstOccurrences(AllTags(todos[..i]))
      invariant seenIds == IdSet(AllTags(todos[..i]))
    {
      assert todos[..i + 1][..i] == todos[..i];
      uniqueTags, seenIds := ScanTags(AllTags(todos[..i]), TagsOf(todos[i]), uniqueTags, seenIds);
      i := i + 1;
    }
    assert todos[..i] == todos;
    FirstOccurrencesUnique(AllTags(todos));
    AllTagsIds(todos);
  }

  /** One iteration of the inner loop. */
  method ScanTag(ghost seen: seq<Tag>, tag: Tag, uniqueTags: seq<Tag>, seenIds: set<string>)
      returns (uniqueTags': seq<Tag>, seenIds': set<string>)
    requires uniqueTags == FirstOccurrences(seen) && seenIds == IdSet(seen)
    ensures uniqueTags' == FirstOccurrences(seen + [tag]) && seenIds' == IdSet(seen + [tag])
  {
    FirstOccurrencesStep(seen, tag);
    uniqueTags', seenIds' := uniqueTags, seenIds;
    if tag.id !in seenIds {
      seenIds' := seenIds + {tag.id};
      uniqueTags' := uniqueTags + [tag];
    }
  }

  /** The inner loop over one todo's tags, with `scanned` the tags seen so far. */
  method ScanTags(ghost scanned: seq<Tag>, tags: seq<Tag>, uniqueTags: seq<Tag>, seenIds: set<string>)
      returns (uniqueTags': seq<Tag>, seenIds': set<string>)
    requires uniqueTags == FirstOccurrences(scanned) && seenIds == IdSet(scanned)
    ensures uniqueTags' == FirstOccurrences(scanned + tags) && seenIds' == IdSet(scanned + tags)
  {
    uniqueTags', seenIds' := uniqueTags, seenIds;
    ghost var seen := scanned;
    assert scanned + tags[..0] == seen;
    for j := 0 to |tags|
      invariant seen == scanned + tags[..j]
      invariant uniqueTags' == FirstOccurrences(seen) && seenIds' == IdSet(seen)
    {
      var tag := tags[j];
      assert tags[..j + 1] == tags[..j] + [tag];
      assert scanned + tags[..j + 1] == seen + [tag];
      uniqueTags', seenIds' := ScanTag(seen, tag, uniqueTags', seenIds');
      seen := seen + [tag];
    }
    assert tags[..|tags|] == tags;
  }

  /** An id occurs among all tags exactly when some todo carries it. */
  lemma {:induction false} AllTagsIds(todos: seq<Todo>)
    ensures forall id :: id in IdSet(AllTags(todos)) <==> exists t :: t in todos && id in IdSet(TagsOf(t))
  {
    if todos != [] {
      var init := todos[..|todos| - 1];
      var last := todos[|todos| - 1];
      AllTagsIds(init);
      assert todos == init + [last];
      assert IdSet(AllTags(todos)) == IdSet(AllTags(init)) + IdSet(TagsOf(last));
    }
  }

  /** The filter test of a deselecting click. */
  function OtherThan(tagId: string): string -> bool {
    (id: string) => id != tagId
  }

  /** `handleTagClick`: a selected id is removed, an unselected one appended. */
  function HandleTagClick(selectedTags: seq<string>, tagId: string): (r: seq<string>)
    ensures tagId in r <==> tagId !in selectedTags
    ensures forall id :: id != tagId ==> (id in r <==> id in selectedTags)
    ensures tagId !in selectedTags ==> r == selectedTags + [tagId]
    ensures tagId in selectedTags ==> IsSubsequence(r, selectedTags)
  {
    KeepIsSubsequence(selectedTags, OtherThan(tagId));
    if tagId in selectedTags then Keep(selectedTags, OtherThan(tagId))
    else selectedTags + [tagId]
  }

  /** Clicking an unselected tag twice returns the original selection. */
  lemma ClickTwice(selectedTags: seq<string>, tagId: string)
    requires tagId !in selectedTags
    ensures HandleTagClick(HandleTagClick(selectedTags, tagId), tagId) == selectedTags
  {
    var p := OtherThan(tagId);
    KeepAppend(selectedTags, [tagId], p);
    KeepAll(selectedTags, p);
    assert Keep([tagId], p) == [];
  }

  /** Deselecting keeps the other selected ids in their order. */
  lemma DeselectKeepsOrder(selectedTags: seq<string>, tagId: string)
    requires tagId in selectedTags
    ensures IsSubsequence(HandleTagClick(selectedTags, tagId), selectedTags)
  {
    KeepIsSubsequence(selectedTags, OtherThan(tagId));
  }

  /** `handleClearAll` */
  const ClearedSelection: seq<string> := []

  /** The "Clear filters" button exists only while something is selected. */
  predicate ShowsClearButton(selectedTags: seq<string>) {
    |selectedTags| > 0
  }

  /** After clearing, the button is gone; any selecting click brings it back. */
  lemma ClearAllHidesButton(tagId: string)
    ensures !ShowsClearButton(ClearedSelection)
    ensures ShowsClearButton(HandleTagClick(ClearedSelection, tagId))
  {
  }
}
