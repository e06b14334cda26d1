/** The tag-entry editor: turning the typed text into a tag and removing a tag chip.
    `onChange` is modelled as the optional new list the handler reports; the text box
    as the input string it leaves behind. */
module TagInput {
  import opened Wrappers
  import opened Seqs
  import opened Text

  /** What submitting the text box does: the list passed to `onChange`, if it is called,
      and the text left in the box. */
  datatype AddResult = AddResult(change: Option<seq<string>>, input: string)

  /** The tag a submission produces: the trimmed text, lower-cased. */
  function NormalizeTag(input: string): (t: string)
    ensures t == "" <==> IsBlank(input)
    ensures |t| > 0 ==> !IsSpace(t[0]) && !IsSpace(t[|t| - 1])
    ensures forall k :: 0 <= k < |t| ==> !('A' <= t[k] <= 'Z')
    ensures |t| == |Trim(input)|
    ensures forall k :: 0 <= k < |t| ==> t[k] == LowerChar(Trim(input)[k])
  {
    ToLower(Trim(input))
  }

  /** A tag is already normal: submitting it again gives the same tag. */
  lemma {:induction false} NormalizeTagIdempotent(input: string)
    ensures NormalizeTag(NormalizeTag(input)) == NormalizeTag(input)
  {
    var t := NormalizeTag(input);
    if t != "" {
      TrimUnpadded(t);
    }
    assert Trim(t) == t;
    ToLowerIdempotent(Trim(input));
  }

  /** `handleAddTag`: blank text does nothing at all; otherwise the normalised tag is
      appended when absent, and the box is cleared either way. */
  function HandleAddTag(tags: seq<string>, input: string): (r: AddResult)
    ensures IsBlank(input) ==> r.change.None? && r.input == input
    ensures !IsBlank(input) ==> r.input == ""
    ensures r.change.Some? <==> !IsBlank(input) && NormalizeTag(input) !in tags
    ensures r.change.Some? ==> r.change.value == tags + [NormalizeTag(input)]
  {
    if IsBlank(input) then AddResult(None, input)
    else
      var tag := NormalizeTag(input);
      if tag !in tags then AddResult(Some(tags + [tag]), "")
      else AddResult(None, "")
  }

  /** The list the parent holds after a submission. */
  function TagsAfterAdd(tags: seq<string>, input: string): seq<string> {
    HandleAddTag(tags, input).change.GetOr(tags)
  }

  /** A list without repeats stays without repeats, and always contains the new tag when
      the text was not blank. */
  lemma AddKeepsDistinct(tags: seq<string>, input: string)
    requires Distinct(tags)
    ensures Distinct(TagsAfterAdd(tags, input))
    ensures !IsBlank(input) ==> NormalizeTag(input) in TagsAfterAdd(tags, input)
  {
  }

  /** `handleRemoveTag(tag)`: every occurrence of the tag dropped, the rest in order. */
  function HandleRemoveTag(tags: seq<string>, tag: string): (r: seq<string>)
    ensures tag !in r
    ensures forall t :: t != tag ==> (t in r <==> t in tags)
    ensures tag !in tags ==> r == tags
  {
    var keep := (t: string) => t != tag;
    FilterIdentity(tags, keep);
    Filter(tags, keep)
  }

  /** Removing a tag that was just added restores the list from before the addition. */
  lemma RemoveUndoesAdd(tags: seq<string>, input: string)
    requires !IsBlank(input) && NormalizeTag(input) !in tags
    ensures HandleRemoveTag(TagsAfterAdd(tags, input), NormalizeTag(input)) == tags
  {
    var tag := NormalizeTag(input);
    var keep := (t: string) => t != tag;
    FilterConcat(tags, [tag], keep);
    FilterKeepsAll(tags, keep);
    assert Filter([tag], keep) == [];
  }

  /** Removal keeps the relative order: it works segment by segment. */
  lemma RemoveConcat(a: seq<string>, b: seq<string>, tag: string)
    ensures HandleRemoveTag(a + b, tag) == HandleRemoveTag(a, tag) + HandleRemoveTag(b, tag)
  {
    FilterConcat(a, b, (t: string) => t != tag);
  }
}
