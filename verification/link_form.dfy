/** What the two "save new link" forms share: URL normalisation, the preview answer, and
    the record built from the form and the preview. */
module LinkForm {
  import opened Wrappers
  import opened Text
  import opened LinkTypes

  const EmptyUrlError := "Please enter a URL"
  const PreviewFailedError := "Failed to fetch link preview. Please try again."

  /** The preview service's answer. `NotOk` stands for every way the request can fail:
      a non-OK status, a network error, a body that is not JSON or has no `data`. */
  datatype PreviewResponse =
    | NotOk
    | Ok(title: Option<string>, description: Option<string>, imageUrl: Option<string>)

  /** A store call the handler makes, in order. */
  datatype StoreCall = RegisterTags(tags: seq<string>) | SaveLink(payload: LinkPayload)

  /** JavaScript truthiness of an optional string: present and non-empty. */
  predicate Truthy(v: Option<string>) {
    v.Some? && v.value != ""
  }

  /** `url.startsWith('http') ? url : 'https://' + url`. */
  function NormalizeUrl(url: string): (r: string)
    ensures StartsWith(r, "http")
    ensures StartsWith(url, "http") ==> r == url
    ensures !StartsWith(url, "http") ==> r == "https://" + url
  {
    if StartsWith(url, "http") then url else "https://" + url
  }

  /** Normalising twice is normalising once. */
  lemma NormalizeUrlIdempotent(url: string)
    ensures NormalizeUrl(NormalizeUrl(url)) == NormalizeUrl(url)
  {
  }

  /** The record saved after a successful preview: preview fields where they are truthy,
      otherwise the raw typed URL for the title, the note (if non-empty) or null for the
      description, and null for the image. A fresh link is unread, at progress 0, with no
      category and no read-time estimate. */
  function PreviewPayload(rawUrl: string, note: string, tags: seq<string>,
                          title: Option<string>, description: Option<string>,
                          imageUrl: Option<string>): (p: LinkPayload)
    ensures p.url == NormalizeUrl(rawUrl) && p.tags == tags
    ensures p.title == (if Truthy(title) then title.value else rawUrl)
    ensures Truthy(description) ==> p.description == description
    ensures !Truthy(description) ==> p.description == (if note != "" then Some(note) else None)
    ensures p.imageUrl == (if Truthy(imageUrl) then imageUrl else None)
    ensures p.status == Unread && p.readingProgress == 0.0
    ensures p.category.None? && p.estimatedReadTime.None? && p.note.None?
  {
    LinkPayload(
      url := NormalizeUrl(rawUrl),
      title := if Truthy(title) then title.value else rawUrl,
      description := if Truthy(description) then description
                     else if note != "" then Some(note) else None,
      imageUrl := if Truthy(imageUrl) then imageUrl else None,
      tags := tags,
      category := None,
      status := Unread,
      readingProgress := 0.0,
      estimatedReadTime := None,
      note := None,
      groups := [],
      prompt := None,
      summary := None,
      response := None)
  }

  /** A preview with nothing usable degrades to the typed URL as title and no image; the
      note, when given, stands in for the description. */
  lemma EmptyPreviewFallback(rawUrl: string, note: string, tags: seq<string>)
    ensures var p := PreviewPayload(rawUrl, note, tags, None, Some(""), None);
            p.title == rawUrl && p.imageUrl.None?
            && (note == "" ==> p.description.None?)
            && (note != "" ==> p.description == Some(note))
  {
  }

  /** A non-empty typed URL always yields a non-empty title. */
  lemma TitleNeverEmpty(rawUrl: string, note: string, tags: seq<string>,
                        title: Option<string>, description: Option<string>,
                        imageUrl: Option<string>)
    requires rawUrl != ""
    ensures PreviewPayload(rawUrl, note, tags, title, description, imageUrl).title != ""
  {
  }
}
