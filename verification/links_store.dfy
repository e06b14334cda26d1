/** The link store as pure state transitions on the in-memory collection (a `seq<Link>`,
    most recent first). Persistence is not modelled; id and creation time arrive as
    parameters instead of being generated. */
module LinksStore {
  import opened Wrappers
  import opened Seqs
  import opened LinkTypes

  /** The payload fields of a stored record: what `addLink` was given for it. */
  function PayloadOf(l: Link): LinkPayload {
    LinkPayload(l.url, l.title, l.description, l.imageUrl, l.tags, l.category, l.status,
                l.readingProgress, l.estimatedReadTime, l.note, l.groups, l.prompt,
                l.summary, l.response)
  }

  /** `addLink(data)`: a new record with the given id and creation time and no content,
      placed in front of all existing records. */
  function AddLink(links: seq<Link>, data: LinkPayload, id: string, createdAt: string): (r: seq<Link>)
    ensures |r| == |links| + 1
    ensures r[1..] == links
    ensures PayloadOf(r[0]) == data
    ensures r[0].id == id && r[0].createdAt == createdAt && r[0].content == None
  {
    var l := Link(id, data.url, data.title, data.description, data.imageUrl, data.tags,
                  data.category, createdAt, data.status, data.readingProgress,
                  data.estimatedReadTime, data.note, data.groups, data.prompt,
                  data.summary, data.response, None);
    [l] + links
  }

  /** Three additions in a row leave the records newest first, ahead of the old ones. */
  lemma AddLinkOrder(links: seq<Link>, a: LinkPayload, b: LinkPayload, c: LinkPayload,
                     ids: seq<string>, at: string)
    requires |ids| == 3
    ensures var s := AddLink(AddLink(AddLink(links, a, ids[0], at), b, ids[1], at), c, ids[2], at);
            |s| == |links| + 3 && s[3..] == links
            && PayloadOf(s[0]) == c && PayloadOf(s[1]) == b && PayloadOf(s[2]) == a
            && s[0].id == ids[2] && s[1].id == ids[1] && s[2].id == ids[0]
  {
    var s1 := AddLink(links, a, ids[0], at);
    var s2 := AddLink(s1, b, ids[1], at);
    var s3 := AddLink(s2, c, ids[2], at);
    assert s3[1..] == s2 && s2[1..] == s1;
    assert s3[1] == s2[0] && s3[2] == s1[0];
    assert s3[3..] == s1[1..];
  }

  /** `removeLink(id)`: every record with that id dropped, the others kept in order. */
  function RemoveLink(links: seq<Link>, id: string): (r: seq<Link>)
    ensures forall l :: l in r <==> l in links && l.id != id
    ensures (forall i :: 0 <= i < |links| ==> links[i].id != id) ==> r == links
    ensures (exists i :: 0 <= i < |links| && links[i].id == id) ==> |r| < |links|
  {
    var keep := (l: Link) => l.id != id;
    FilterIdentity(links, keep);
    Filter(links, keep)
  }

  /** Removal works segment by segment, so it preserves the relative order of survivors. */
  lemma RemoveLinkConcat(a: seq<Link>, b: seq<Link>, id: string)
    ensures RemoveLink(a + b, id) == RemoveLink(a, id) + RemoveLink(b, id)
  {
    FilterConcat(a, b, (l: Link) => l.id != id);
  }

  /** `updateLink(id, patch)`: the patch merged into every record with that id; the other
      records, the length and the order are untouched. */
  function UpdateLink(links: seq<Link>, id: string, p: LinkPatch): (r: seq<Link>)
    ensures |r| == |links|
    ensures forall i :: 0 <= i < |r| && links[i].id != id ==> r[i] == links[i]
    ensures forall i :: 0 <= i < |r| && links[i].id == id ==> r[i] == Merge(links[i], p)
    ensures (forall i :: 0 <= i < |links| ==> links[i].id != id) ==> r == links
  {
    seq(|links|, i requires 0 <= i < |links| =>
      if links[i].id == id then Merge(links[i], p) else links[i])
  }

  /** A patch without id or createdAt keeps every record's identity and creation time and
      every record's position. */
  lemma UpdateLinkKeepsIdentity(links: seq<Link>, id: string, p: LinkPatch)
    requires KeepsIdentity(p)
    ensures forall i :: 0 <= i < |links| ==>
      UpdateLink(links, id, p)[i].id == links[i].id
      && UpdateLink(links, id, p)[i].createdAt == links[i].createdAt
  {
  }

  /** `getLink(id)`: the first record with that id, or none. */
  function GetLink(links: seq<Link>, id: string): (r: Option<Link>)
    ensures r.None? <==> forall i :: 0 <= i < |links| ==> links[i].id != id
    ensures r.Some? ==> r.value.id == id && r.value in links
    ensures r.Some? ==> exists i :: 0 <= i < |links| && links[i] == r.value
                                    && forall j :: 0 <= j < i ==> links[j].id != id
  {
    if |links| == 0 then None
    else if links[0].id == id then Some(links[0])
    else
      var r := GetLink(links[1..], id);
      assert r.Some? ==> exists i :: 0 <= i < |links| && links[i] == r.value
                                     && forall j :: 0 <= j < i ==> links[j].id != id by {
        if r.Some? {
          var i :| 0 <= i < |links[1..]| && links[1..][i] == r.value
                   && forall j :: 0 <= j < i ==> links[1..][j].id != id;
          assert links[i + 1] == r.value;
          forall j | 0 < j < i + 1 ensures links[j].id != id {
            assert links[j] == links[1..][j - 1];
          }
        }
      }
      r
  }

  /** Reading back an updated record gives the first record with that id, merged. */
  lemma {:induction false} GetAfterUpdate(links: seq<Link>, id: string, p: LinkPatch)
    requires KeepsIdentity(p)
    ensures GetLink(UpdateLink(links, id, p), id).Some? == GetLink(links, id).Some?
    ensures GetLink(links, id).Some? ==>
              GetLink(UpdateLink(links, id, p), id) == Some(Merge(GetLink(links, id).value, p))
  {
    if |links| > 0 {
      var u := UpdateLink(links, id, p);
      assert u[1..] == UpdateLink(links[1..], id, p);
      GetAfterUpdate(links[1..], id, p);
    }
  }

  /** A removed id can no longer be found; other ids are found as before. */
  lemma {:induction false} GetAfterRemove(links: seq<Link>, id: string, other: string)
    requires other != id
    ensures GetLink(RemoveLink(links, id), id).None?
    ensures GetLink(RemoveLink(links, id), other) == GetLink(links, other)
  {
    if |links| > 0 {
      var h, t := links[0], links[1..];
      assert links == [h] + t;
      RemoveLinkConcat([h], t, id);
      assert RemoveLink([h], id) == if h.id == id then [] else [h];
      GetAfterRemove(t, id, other);
      var r := RemoveLink(links, id);
      if h.id == id {
        assert r == RemoveLink(t, id);
      } else {
        assert r == [h] + RemoveLink(t, id);
        assert r[1..] == RemoveLink(t, id);
      }
    }
  }

  /** `clearAllLinks()`: the empty collection. */
  function ClearAllLinks(): (r: seq<Link>)
    ensures |r| == 0
  {
    []
  }

  /** `exportLinks()`: the collection itself. */
  function ExportLinks(links: seq<Link>): seq<Link> {
    links
  }

  /** The URLs already present in the store. */
  function Urls(links: seq<Link>): set<string> {
    set l | l in links :: l.url
  }

  /** `importLinks(batch)`: the batch records whose URL is not yet stored, in batch order,
      placed in front of all existing records. */
  function ImportLinks(links: seq<Link>, batch: seq<Link>): (r: seq<Link>)
    ensures |links| <= |r| <= |links| + |batch|
    ensures r[|r| - |links|..] == links
    ensures forall l :: l in r[..|r| - |links|] <==> l in batch && l.url !in Urls(links)
  {
    var added := Filter(batch, (l: Link) => l.url !in Urls(links));
    assert (added + links)[|added|..] == links;
    assert (added + links)[..|added|] == added;
    added + links
  }

  /** Re-importing an export adds nothing: every exported URL is already stored. */
  lemma ImportExportNoop(links: seq<Link>)
    ensures ImportLinks(links, ExportLinks(links)) == links
  {
    assert forall i :: 0 <= i < |links| ==> links[i].url in Urls(links);
    FilterKeepsNone(links, (l: Link) => l.url !in Urls(links));
  }

  /** Repeats inside one batch are all kept: deduplication is only against the store. */
  lemma ImportKeepsBatchRepeats(links: seq<Link>, l: Link)
    requires l.url !in Urls(links)
    ensures ImportLinks(links, [l, l]) == [l, l] + links
  {
    FilterKeepsAll([l, l], (x: Link) => x.url !in Urls(links));
  }

  /** The records an import puts in front of the store. */
  function Prepended(links: seq<Link>, batch: seq<Link>): seq<Link> {
    var r := ImportLinks(links, batch);
    r[..|r| - |links|]
  }

  /** A one-record batch is prepended exactly when its URL is not stored. */
  lemma ImportSingle(links: seq<Link>, l: Link)
    ensures ImportLinks(links, [l]) == if l.url in Urls(links) then links else [l] + links
  {
    assert [l][1..] == [];
  }

  /** Importing a batch in two parts prepends the first part's new records ahead of the
      second part's: the batch order is kept. */
  lemma ImportConcat(links: seq<Link>, a: seq<Link>, b: seq<Link>)
    ensures ImportLinks(links, a + b) == Prepended(links, a) + ImportLinks(links, b)
  {
    var keep := (l: Link) => l.url !in Urls(links);
    var fa, fb := Filter(a, keep), Filter(b, keep);
    FilterConcat(a, b, keep);
    calc {
      ImportLinks(links, a + b);
      Filter(a + b, keep) + links;
      (fa + fb) + links;
      fa + (fb + links);
      fa + ImportLinks(links, b);
    }
    assert ImportLinks(links, a) == fa + links;
    assert (fa + links)[..|fa|] == fa;
  }

  /** Importing a batch into a store that holds none of its URLs prepends the whole batch. */
  lemma ImportFreshBatch(links: seq<Link>, batch: seq<Link>)
    requires forall i :: 0 <= i < |batch| ==> batch[i].url !in Urls(links)
    ensures ImportLinks(links, batch) == batch + links
  {
    FilterKeepsAll(batch, (l: Link) => l.url !in Urls(links));
  }

  /** Backup and restore: importing an export into a cleared store gives back the store
      exactly, repeats of a URL included. */
  lemma RestoreAfterClear(links: seq<Link>)
    ensures ImportLinks(ClearAllLinks(), ExportLinks(links)) == links
  {
    FilterKeepsAll(links, (l: Link) => l.url !in Urls([]));
  }
}
