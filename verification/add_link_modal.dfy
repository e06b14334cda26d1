/** The modal variant of the "Save New Link" form. Same decision logic as the screen, but it
    never touches the tag registry, and on success it clears its fields and calls
    `onClose` (`closed`). */
module AddLinkModal {
  import opened Wrappers
  import opened Text
  import opened LinkTypes
  import LinksStore
  import opened LinkForm
  import NewLinkScreen

  /** The modal's form state. */
  datatype Modal = Modal(url: string, note: string, tags: seq<string>,
                         isLoading: bool, error: Option<string>)

  /** Everything a submission leaves behind. */
  datatype Outcome = Outcome(modal: Modal, links: seq<Link>, fetched: Option<string>,
                             calls: seq<StoreCall>, closed: bool)

  /** `handleSubmit`. */
  function HandleSubmit(m: Modal, links: seq<Link>, preview: PreviewResponse,
                        id: string, createdAt: string): (o: Outcome)
    // an empty URL: the error and nothing else
    ensures m.url == "" ==> o == Outcome(m.(error := Some(EmptyUrlError)), links, None, [], false)
    // otherwise the normalised URL is fetched and loading ends on every path
    ensures m.url != "" ==> o.fetched == Some(NormalizeUrl(m.url)) && !o.modal.isLoading
    // a failed preview saves nothing and keeps the form as typed
    ensures m.url != "" && preview.NotOk? ==>
              o.links == links && o.calls == [] && !o.closed
              && o.modal == m.(isLoading := false, error := Some(PreviewFailedError))
    // a successful preview saves one link carrying the typed tags, resets the form, closes
    ensures m.url != "" && preview.Ok? ==>
              && |o.links| == |links| + 1 && o.links[1..] == links
              && o.calls == [SaveLink(LinksStore.PayloadOf(o.links[0]))]
              && o.links[0].id == id && o.links[0].createdAt == createdAt
              && o.links[0].tags == m.tags && StartsWith(o.links[0].url, "http")
              && o.modal == Modal("", "", [], false, None) && o.closed
    // the registry is never asked to change
    ensures forall k :: 0 <= k < |o.calls| ==> o.calls[k].SaveLink?
  {
    if m.url == "" then
      Outcome(m.(error := Some(EmptyUrlError)), links, None, [], false)
    else
      var formatted := NormalizeUrl(m.url);
      match preview
      case NotOk =>
        Outcome(m.(isLoading := false, error := Some(PreviewFailedError)), links, Some(formatted),
                [], false)
      case Ok(title, description, imageUrl) =>
        var payload := PreviewPayload(m.url, m.note, m.tags, title, description, imageUrl);
        Outcome(Modal("", "", [], false, None), LinksStore.AddLink(links, payload, id, createdAt),
                Some(formatted), [SaveLink(payload)], true)
  }

  /** The modal saves the same record the full screen saves for the same form and preview. */
  lemma SameRecordAsScreen(url: string, note: string, tags: seq<string>, links: seq<Link>,
                           registry: seq<string>, preview: PreviewResponse,
                           id: string, createdAt: string)
    ensures HandleSubmit(Modal(url, note, tags, false, None), links, preview, id, createdAt).links
         == NewLinkScreen.HandleSubmit(NewLinkScreen.Screen(url, note, tags, false, None), links,
                                       registry, preview, id, createdAt).links
  {
  }

  /** Unlike the full screen, the modal can leave a saved tag out of the registry. */
  lemma ModalSkipsRegistry(id: string, createdAt: string)
    ensures var o := HandleSubmit(Modal("example.com", "", ["later"], false, None), [],
                                  Ok(None, None, None), id, createdAt);
            !NewLinkScreen.RegistryCovers(o.links, [])
  {
    var o := HandleSubmit(Modal("example.com", "", ["later"], false, None), [],
                          Ok(None, None, None), id, createdAt);
    assert "example.com" != "";
    assert o.links[0].tags == ["later"];
    assert !(0 <= 0 < |o.links| && "later" in o.links[0].tags ==> "later" in []);
  }
}
