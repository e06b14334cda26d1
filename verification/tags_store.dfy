/** The tag registry: every tag ever registered, as a code-unit sorted list. Tags are stored
    exactly as given (no case folding here), and nothing is ever removed. */
module TagsStore {
  import opened Seqs
  import opened Text
  import opened StringSort

  /** The registry is in normal form: sorted and without repeats. */
  predicate Normal(tags: seq<string>) {
    Sorted(tags) && Distinct(tags)
  }

  /** `addTag(tag)`: unchanged if the tag is present, otherwise the list with the tag
      appended and re-sorted. */
  function AddTag(tags: seq<string>, tag: string): (r: seq<string>)
    ensures forall t :: t in r <==> t in tags || t == tag
    ensures tag in tags ==> r == tags
    ensures tag !in tags ==> Sorted(r) && multiset(r) == multiset(tags) + multiset{tag}
  {
    if tag in tags then tags
    else
      var r := Sort(tags + [tag]);
      SameMultisetSameMembers(r, tags + [tag]);
      r
  }

  /** `addTags(list)`: the set union of the registry and the list, sorted. */
  function AddTags(tags: seq<string>, newTags: seq<string>): (r: seq<string>)
    ensures Normal(r)
    ensures forall t :: t in r <==> t in tags || t in newTags
  {
    var d := Dedup(tags + newTags);
    var r := Sort(d);
    SortDistinct(d);
    SameMultisetSameMembers(r, d);
    r
  }

  /** Registering a list a second time changes nothing. */
  lemma AddTagsIdempotent(tags: seq<string>, newTags: seq<string>)
    ensures AddTags(AddTags(tags, newTags), newTags) == AddTags(tags, newTags)
  {
    var once := AddTags(tags, newTags);
    SortedDistinctUnique(AddTags(once, newTags), once);
  }

  /** On a registry in normal form, adding one tag agrees with adding the one-element list,
      so `addTag` also keeps the registry sorted and free of repeats. */
  lemma AddTagIsAddTags(tags: seq<string>, tag: string)
    requires Normal(tags)
    ensures AddTag(tags, tag) == AddTags(tags, [tag])
    ensures Normal(AddTag(tags, tag))
  {
    var r := AddTag(tags, tag);
    if tag !in tags {
      var s := tags + [tag];
      assert Distinct(s);
      SortDistinct(s);
    }
    SortedDistinctUnique(r, AddTags(tags, [tag]));
  }

  /** Registering tags that are all present leaves a normal registry unchanged. */
  lemma AddKnownTags(tags: seq<string>, newTags: seq<string>)
    requires Normal(tags)
    requires forall i :: 0 <= i < |newTags| ==> newTags[i] in tags
    ensures AddTags(tags, newTags) == tags
  {
    SortedDistinctUnique(AddTags(tags, newTags), tags);
  }

  /** Tags are kept verbatim: a tag differing from another only in letter case is a
      separate entry. */
  lemma NoCaseFolding()
    ensures AddTags(["news"], ["News"]) == ["News", "news"]
  {
    var r := AddTags(["news"], ["News"]);
    assert Le("News", "news");
    var expected := ["News", "news"];
    assert Normal(expected);
    SortedDistinctUnique(r, expected);
  }
}
