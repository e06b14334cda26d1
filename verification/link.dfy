/** The saved-link record and the shapes derived from it: the payload `addLink` accepts
    (`Omit<Link, 'id' | 'createdAt'>`), the patch `updateLink` accepts (`Partial<Link>`),
    and the preview triple. Nullable fields are `Option`s; `number` is `real`. */
module LinkTypes {
  import opened Wrappers

  /** The three reading states; no other value is representable. */
  datatype Status = Unread | Reading | Completed

  /** A saved link. `content` is not declared by the interface but every record the store
      creates carries it (as null). */
  datatype Link = Link(
    id: string,
    url: string,
    title: string,
    description: Option<string>,
    imageUrl: Option<string>,
    tags: seq<string>,
    category: Option<string>,
    createdAt: string,
    status: Status,
    readingProgress: real,
    estimatedReadTime: Option<real>,
    note: Option<string>,
    groups: seq<string>,
    prompt: Option<string>,
    summary: Option<string>,
    response: Option<string>,
    content: Option<string>)

  /** What a caller hands to `addLink`: a link without id and creation time. */
  datatype LinkPayload = LinkPayload(
    url: string,
    title: string,
    description: Option<string>,
    imageUrl: Option<string>,
    tags: seq<string>,
    category: Option<string>,
    status: Status,
    readingProgress: real,
    estimatedReadTime: Option<real>,
    note: Option<string>,
    groups: seq<string>,
    prompt: Option<string>,
    summary: Option<string>,
    response: Option<string>)

  /** A `Partial<Link>`: `None` means the key is absent; for a nullable field `Some(None)`
      means the key is present with value null. Nothing in the type stops a patch from
      carrying `id` or `createdAt`. */
  datatype LinkPatch = LinkPatch(
    id: Option<string>,
    url: Option<string>,
    title: Option<string>,
    description: Option<Option<string>>,
    imageUrl: Option<Option<string>>,
    tags: Option<seq<string>>,
    category: Option<Option<string>>,
    createdAt: Option<string>,
    status: Option<Status>,
    readingProgress: Option<real>,
    estimatedReadTime: Option<Option<real>>,
    note: Option<Option<string>>,
    groups: Option<seq<string>>,
    prompt: Option<Option<string>>,
    summary: Option<Option<string>>,
    response: Option<Option<string>>)

  /** The patch with no keys. */
  const EmptyPatch := LinkPatch(None, None, None, None, None, None, None, None,
                                None, None, None, None, None, None, None, None)

  /** A patch that sets only the title, as in `updateLink(id, { title })`. */
  function TitlePatch(title: string): (p: LinkPatch)
    ensures p.title == Some(title)
    ensures p.(title := None) == EmptyPatch
  {
    EmptyPatch.(title := Some(title))
  }

  /** The patch does not try to change the record's identity or creation time. */
  predicate KeepsIdentity(p: LinkPatch) {
    p.id.None? && p.createdAt.None?
  }

  /** `{ ...link, ...patch }`: every key present in the patch overrides the record's value;
      every absent key, and `content`, which a patch cannot name, keeps it. */
  function Merge(l: Link, p: LinkPatch): (r: Link)
    ensures (p.id.Some? ==> r.id == p.id.value) && (p.id.None? ==> r.id == l.id)
    ensures (p.url.Some? ==> r.url == p.url.value) && (p.url.None? ==> r.url == l.url)
    ensures (p.title.Some? ==> r.title == p.title.value) && (p.title.None? ==> r.title == l.title)
    ensures (p.description.Some? ==> r.description == p.description.value) && (p.description.None? ==> r.description == l.description)
    ensures (p.imageUrl.Some? ==> r.imageUrl == p.imageUrl.value) && (p.imageUrl.None? ==> r.imageUrl == l.imageUrl)
    ensures (p.tags.Some? ==> r.tags == p.tags.value) && (p.tags.None? ==> r.tags == l.tags)
    ensures (p.category.Some? ==> r.category == p.category.value) && (p.category.None? ==> r.category == l.category)
    ensures (p.createdAt.Some? ==> r.createdAt == p.createdAt.value) && (p.createdAt.None? ==> r.createdAt == l.createdAt)
    ensures (p.status.Some? ==> r.status == p.status.value) && (p.status.None? ==> r.status == l.status)
    ensures (p.readingProgress.Some? ==> r.readingProgress == p.readingProgress.value) && (p.readingProgress.None? ==> r.readingProgress == l.readingProgress)
    ensures (p.estimatedReadTime.Some? ==> r.estimatedReadTime == p.estimatedReadTime.value) && (p.estimatedReadTime.None? ==> r.estimatedReadTime == l.estimatedReadTime)
    ensures (p.note.Some? ==> r.note == p.note.value) && (p.note.None? ==> r.note == l.note)
    ensures (p.groups.Some? ==> r.groups == p.groups.value) && (p.groups.None? ==> r.groups == l.groups)
    ensures (p.prompt.Some? ==> r.prompt == p.prompt.value) && (p.prompt.None? ==> r.prompt == l.prompt)
    ensures (p.summary.Some? ==> r.summary == p.summary.value) && (p.summary.None? ==> r.summary == l.summary)
    ensures (p.response.Some? ==> r.response == p.response.value) && (p.response.None? ==> r.response == l.response)
    ensures r.content == l.content
  {
    Link(
      p.id.GetOr(l.id),
      p.url.GetOr(l.url),
      p.title.GetOr(l.title),
      p.description.GetOr(l.description),
      p.imageUrl.GetOr(l.imageUrl),
      p.tags.GetOr(l.tags),
      p.category.GetOr(l.category),
      p.createdAt.GetOr(l.createdAt),
      p.status.GetOr(l.status),
      p.readingProgress.GetOr(l.readingProgress),
      p.estimatedReadTime.GetOr(l.estimatedReadTime),
      p.note.GetOr(l.note),
      p.groups.GetOr(l.groups),
      p.prompt.GetOr(l.prompt),
      p.summary.GetOr(l.summary),
      p.response.GetOr(l.response),
      l.content)
  }

  /** Merging the empty patch leaves a record unchanged. */
  lemma MergeEmpty(l: Link)
    ensures Merge(l, EmptyPatch) == l
  {
  }

  /** A patch that names neither id nor createdAt keeps both, and never touches `content`. */
  lemma MergeKeepsIdentity(l: Link, p: LinkPatch)
    requires KeepsIdentity(p)
    ensures Merge(l, p).id == l.id && Merge(l, p).createdAt == l.createdAt
    ensures Merge(l, p).content == l.content
  {
  }

  /** A title-only patch changes the title and nothing else. */
  lemma MergeTitleOnly(l: Link, title: string)
    ensures Merge(l, TitlePatch(title)) == l.(title := title)
  {
  }

  /** Merging the same patch twice is the same as merging it once. */
  lemma MergeIdempotent(l: Link, p: LinkPatch)
    ensures Merge(Merge(l, p), p) == Merge(l, p)
  {
  }
}
