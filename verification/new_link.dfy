/** The "Save New Link" screen's submit handler as one step from the screen state, the
    link store and the tag registry to their successors. The preview fetch is an input;
    `back` records the `router.back()` navigation. */
module NewLinkScreen {
  import opened Wrappers
  import opened Text
  import opened LinkTypes
  import LinksStore
  import TagsStore
  import opened LinkForm

  /** The screen's form state. */
  datatype Screen = Screen(url: string, note: string, tags: seq<string>,
                           isLoading: bool, error: Option<string>)

  /** Everything a submission leaves behind. `fetched` is the URL whose preview was
      requested, if any. */
  datatype Outcome = Outcome(screen: Screen, links: seq<Link>, registry: seq<string>,
                             fetched: Option<string>, calls: seq<StoreCall>, back: bool)

  /** `handleSubmit`. */
  function HandleSubmit(s: Screen, links: seq<Link>, registry: seq<string>,
                        preview: PreviewResponse, id: string, createdAt: string): (o: Outcome)
    // an empty URL: the error and nothing else
    ensures s.url == "" ==> o == Outcome(s.(error := Some(EmptyUrlError)), links, registry,
                                         None, [], false)
    // otherwise the normalised URL is fetched and loading ends on every path
    ensures s.url != "" ==> o.fetched == Some(NormalizeUrl(s.url)) && !o.screen.isLoading
    ensures o.screen.url == s.url && o.screen.note == s.note && o.screen.tags == s.tags
    // a failed preview saves nothing
    ensures s.url != "" && preview.NotOk? ==>
              o.links == links && o.registry == registry && o.calls == []
              && o.screen.error == Some(PreviewFailedError) && !o.back
    // a successful preview registers the tags, then saves one link carrying them
    ensures s.url != "" && preview.Ok? ==>
              && |o.links| == |links| + 1 && o.links[1..] == links
              && o.calls == [RegisterTags(s.tags), SaveLink(LinksStore.PayloadOf(o.links[0]))]
              && o.registry == TagsStore.AddTags(registry, s.tags)
              && o.links[0].id == id && o.links[0].createdAt == createdAt
              && o.links[0].tags == s.tags && StartsWith(o.links[0].url, "http")
              && o.screen.error.None? && o.back
  {
    if s.url == "" then
      Outcome(s.(error := Some(EmptyUrlError)), links, registry, None, [], false)
    else
      var formatted := NormalizeUrl(s.url);
      match preview
      case NotOk =>
        Outcome(s.(isLoading := false, error := Some(PreviewFailedError)), links, registry,
                Some(formatted), [], false)
      case Ok(title, description, imageUrl) =>
        var payload := PreviewPayload(s.url, s.note, s.tags, title, description, imageUrl);
        Outcome(s.(isLoading := false, error := None),
                LinksStore.AddLink(links, payload, id, createdAt),
                TagsStore.AddTags(registry, s.tags),
                Some(formatted), [RegisterTags(s.tags), SaveLink(payload)], true)
  }

  /** Every tag on a stored link is in the registry. */
  predicate RegistryCovers(links: seq<Link>, registry: seq<string>) {
    forall i, t :: 0 <= i < |links| && t in links[i].tags ==> t in registry
  }

  /** Saving through this screen keeps the registry covering every link's tags. */
  lemma SubmitKeepsRegistryCovering(s: Screen, links: seq<Link>, registry: seq<string>,
                                    preview: PreviewResponse, id: string, createdAt: string)
    requires RegistryCovers(links, registry)
    ensures var o := HandleSubmit(s, links, registry, preview, id, createdAt);
            RegistryCovers(o.links, o.registry)
  {
    var o := HandleSubmit(s, links, registry, preview, id, createdAt);
    if s.url != "" && preview.Ok? {
      forall i, t | 0 <= i < |o.links| && t in o.links[i].tags
        ensures t in o.registry
      {
        if i > 0 {
          assert o.links[i] == links[i - 1];
        }
      }
    }
  }

  /** A preview that times out or fails leaves both stores exactly as they were. */
  lemma FailedPreviewSavesNothing(s: Screen, links: seq<Link>, registry: seq<string>,
                                  id: string, createdAt: string)
    ensures var o := HandleSubmit(s, links, registry, NotOk, id, createdAt);
            o.links == links && o.registry == registry && o.screen.error.Some?
  {
  }

  /** The saved record: the title falls back to the URL as typed (not the normalised one),
      the description to the note and then null, the image to null; the note itself is not
      stored in `note`, and the record starts unread with no content. */
  lemma SavedRecord(s: Screen, links: seq<Link>, registry: seq<string>, title: Option<string>,
                    description: Option<string>, imageUrl: Option<string>,
                    id: string, createdAt: string)
    requires s.url != ""
    ensures var l := HandleSubmit(s, links, registry, Ok(title, description, imageUrl),
                                  id, createdAt).links[0];
            && l.url == NormalizeUrl(s.url)
            && l.title == (if Truthy(title) then title.value else s.url)
            && l.description == (if Truthy(description) then description
                                 else if s.note != "" then Some(s.note) else None)
            && l.imageUrl == (if Truthy(imageUrl) then imageUrl else None)
            && l.note.None? && l.content.None? && l.category.None?
            && l.estimatedReadTime.None? && l.status == Unread && l.readingProgress == 0.0
  {
  }
}
