/** The tag filter strip: the tags offered (every tag used by some link, sorted, once each)
    and the toggle that edits the selection. */
module TagFilter {
  import opened Seqs
  import opened Text
  import opened StringSort
  import opened LinkTypes

  /** Some link carries the tag. */
  predicate UsedBy(links: seq<Link>, t: string) {
    exists i :: 0 <= i < |links| && t in links[i].tags
  }

  /** `allTags`: the distinct tags of all links, sorted. */
  function AllTags(links: seq<Link>): (r: seq<string>)
    ensures Sorted(r) && Distinct(r)
    ensures forall t :: t in r <==> UsedBy(links, t)
  {
    var flat := FlatMap(links, (l: Link) => l.tags);
    var d := Dedup(flat);
    var r := Sort(d);
    SortDistinct(d);
    SameMultisetSameMembers(r, d);
    forall t ensures t in r <==> UsedBy(links, t) {
      FlatMapMember(links, (l: Link) => l.tags, t);
    }
    r
  }

  /** The strip renders only when there is at least one tag to offer. */
  predicate Renders(links: seq<Link>) {
    |AllTags(links)| > 0
  }

  /** The strip is hidden exactly when no link has any tag. */
  lemma RendersIffSomeTag(links: seq<Link>)
    ensures Renders(links) <==> exists i :: 0 <= i < |links| && |links[i].tags| > 0
  {
    var r := AllTags(links);
    if exists i :: 0 <= i < |links| && |links[i].tags| > 0 {
      var i :| 0 <= i < |links| && |links[i].tags| > 0;
      assert UsedBy(links, links[i].tags[0]);
    }
    if |r| > 0 {
      assert UsedBy(links, r[0]);
    }
  }

  /** `toggleTag(tag)`: a selected tag is removed (every occurrence); an unselected one is
      appended. */
  function ToggleTag(selected: seq<string>, tag: string): (r: seq<string>)
    ensures tag in selected ==> tag !in r && forall t :: t != tag ==> (t in r <==> t in selected)
    ensures tag !in selected ==> r == selected + [tag]
  {
    if tag in selected then Filter(selected, (t: string) => t != tag)
    else selected + [tag]
  }

  /** Toggling an unselected tag twice restores the selection. */
  lemma ToggleTwice(selected: seq<string>, tag: string)
    requires tag !in selected
    ensures ToggleTag(ToggleTag(selected, tag), tag) == selected
  {
    var keep := (t: string) => t != tag;
    FilterConcat(selected, [tag], keep);
    FilterKeepsAll(selected, keep);
    assert Filter([tag], keep) == [];
  }

  /** Toggling keeps a selection without repeats free of repeats. */
  lemma ToggleKeepsDistinct(selected: seq<string>, tag: string)
    requires Distinct(selected)
    ensures Distinct(ToggleTag(selected, tag))
  {
    if tag in selected {
      FilterDistinct(selected, (t: string) => t != tag);
    }
  }
}
