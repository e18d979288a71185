/** The tag editor of src/components/TagInput.jsx: the colour palette with
    its lookup, and the add/remove logic over a todo's tag list. */
module TagInput {
  import opened Common
  import opened Text
  import opened TodoModel

  /** One palette entry: the colour's name and its style classes. */
  datatype TagColor = TagColor(name: string, bg: string, text: string, swatch: string)

  const TagColors: seq<TagColor> := [
    TagColor("red", "bg-red-100 dark:bg-red-900/50", "text-red-700 dark:text-red-300", "bg-red-500"),
    TagColor("orange", "bg-orange-100 dark:bg-orange-900/50", "text-orange-700 dark:text-orange-300", "bg-orange-500"),
    TagColor("yellow", "bg-yellow-100 dark:bg-yellow-900/50", "text-yellow-700 dark:text-yellow-300", "bg-yellow-500"),
    TagColor("green", "bg-emerald-100 dark:bg-emerald-900/50", "text-emerald-700 dark:text-emerald-300", "bg-emerald-500"),
    TagColor("blue", "bg-blue-100 dark:bg-blue-900/50", "text-blue-700 dark:text-blue-300", "bg-blue-500"),
    TagColor("indigo", "bg-indigo-100 dark:bg-indigo-900/50", "text-indigo-700 dark:text-indigo-300", "bg-indigo-500"),
    TagColor("purple", "bg-purple-100 dark:bg-purple-900/50", "text-purple-700 dark:text-purple-300", "bg-purple-500"),
    TagColor("pink", "bg-pink-100 dark:bg-pink-900/50", "text-pink-700 dark:text-pink-300", "bg-pink-500")
  ]

  /** `Array.prototype.find` by name: the first entry carrying `name`. */
  function FindColor(palette: seq<TagColor>, name: string): (r: Option<TagColor>)
    ensures r.Some? <==> exists c :: c in palette && c.name == name
    ensures r.Some? ==> r.value in palette && r.value.name == name
    ensures r.Some? && palette != [] && palette[0].name == name ==> r.value == palette[0]
  {
    if palette == [] then None
    else if palette[0].name == name then Some(palette[0])
    else FindColor(palette[1..], name)
  }

  /** `getTagColorStyle`: the entry named `colorName`, or red for any other name. */
  function GetTagColorStyle(colorName: string): (r: TagColor)
    ensures r in TagColors
    ensures (exists c :: c in TagColors && c.name == colorName) ==> r.name == colorName
    ensures (forall c :: c in TagColors ==> c.name != colorName) ==> r == TagColors[0]
  {
    FindColor(TagColors, colorName).GetOr(TagColors[0])
  }

  /** The palette has eight entries with pairwise different names. */
  lemma PaletteNamesDistinct()
    ensures |TagColors| == 8
    ensures forall i, j :: 0 <= i < j < |TagColors| ==> TagColors[i].name != TagColors[j].name
  {
  }

  /** Looking up any palette entry by its name returns that very entry. */
  lemma {:induction false} FindColorByOwnName(palette: seq<TagColor>, k: nat)
    requires k < |palette|
    requires forall i, j :: 0 <= i < j < |palette| ==> palette[i].name != palette[j].name
    ensures FindColor(palette, palette[k].name) == Some(palette[k])
  {
    if k > 0 {
      assert palette[0].name != palette[k].name;
      assert palette[1..][k - 1] == palette[k];
      FindColorByOwnName(palette[1..], k - 1);
    }
  }

  lemma LookupByPaletteName(k: nat)
    requires k < |TagColors|
    ensures GetTagColorStyle(TagColors[k].name) == TagColors[k]
  {
    PaletteNamesDistinct();
    FindColorByOwnName(TagColors, k);
  }

  /** The filter test of `handleRemoveTag`. */
  function OtherThan(tagId: string): Tag -> bool {
    (g: Tag) => g.id != tagId
  }

  /** `handleRemoveTag`: the tags without the given id, in their order. */
  function RemoveTag(tags: seq<Tag>, tagId: string): (r: seq<Tag>)
    ensures forall g :: g in r <==> g in tags && g.id != tagId
    ensures forall g :: multiset(r)[g] == if g.id == tagId then 0 else multiset(tags)[g]
    ensures IsSubsequence(r, tags)
  {
    KeepIsSubsequence(tags, OtherThan(tagId));
    KeepCount(tags, OtherThan(tagId));
    Keep(tags, OtherThan(tagId))
  }

  /** Removing a tag just added, under an id not used before, restores the list. */
  lemma RemoveUndoesAdd(tags: seq<Tag>, tag: Tag)
    requires forall g :: g in tags ==> g.id != tag.id
    ensures RemoveTag(tags + [tag], tag.id) == tags
  {
    var p := OtherThan(tag.id);
    KeepAppend(tags, [tag], p);
    KeepAll(tags, p);
    assert Keep([tag], p) == [];
  }

  class TagEditor {
    /** The text field's content and the chosen colour. */
    var tagName: string
    var selectedColor: string

    constructor()
      ensures tagName == "" && selectedColor == "blue"
    {
      tagName := "";
      selectedColor := "blue";
    }

    method SetTagName(value: string)
      modifies this
      ensures tagName == value && selectedColor == old(selectedColor)
    {
      tagName := value;
    }

    /** A colour button: selects that palette colour. */
    method SelectColor(k: nat)
      requires k < |TagColors|
      modifies this
      ensures selectedColor == TagColors[k].name && tagName == old(tagName)
    {
      selectedColor := TagColors[k].name;
    }

    /** `handleAddTag`: with a blank name nothing is emitted and nothing
        changes; otherwise the old tags followed by one new tag with the
        trimmed name, the selected colour and the fresh `id` are emitted,
        and the field is cleared. */
    method HandleAddTag(tags: seq<Tag>, id: string) returns (emitted: Option<seq<Tag>>)
      modifies this
      ensures Trim(old(tagName)) == [] ==> emitted == None && tagName == old(tagName)
      ensures Trim(old(tagName)) != [] ==>
        emitted == Some(tags + [Tag(id, Trim(old(tagName)), old(selectedColor))]) && tagName == ""
      ensures selectedColor == old(selectedColor)
    {
      var trimmedName := Trim(tagName);
      if trimmedName == [] {
        return None;
      }
      var newTag := Tag(id, trimmedName, selectedColor);
      emitted := Some(tags + [newTag]);
      tagName := "";
    }
  }

  /** The name of an added tag is never blank and carries no surrounding
      whitespace, whatever was typed. */
  lemma AddedNameIsTrimmed(typed: string)
    requires Trim(typed) != []
    ensures !IsBlank(Trim(typed)) && Trim(Trim(typed)) == Trim(typed)
  {
    TrimEmptyIffBlank(Trim(typed));
    TrimIdempotent(typed);
  }
}
