# save-it core, modelled in Dafny

save-it is a bookmarking app. It saves links with a preview, tags and categorises them,
and shows saved text as swipeable cards. It can remind the reader of unread links, and
its web build has a caching service worker. This project models the app's pure state
logic as immutable datatypes and total functions:

- the link record and the link store (add, remove, update, get, clear, export, import);
- the tag registry, the tag-entry editor, the tag filter and the category filter;
- the two "save new link" forms, from the typed URL and the preview answer to the stored
  record and the store calls;
- the card reader, which splits text into sentences, pairs the sentences into cards and
  reports progress;
- the progress bar's clamping and visibility rules;
- the reading-reminder settings and the decision that reschedules a reminder;
- the service worker's routing, caching and trimming decisions.

Effects that the source performs become inputs or outputs:

- the preview fetch is a `PreviewResponse` input;
- the generated id and timestamp are parameters;
- the permission answer and the scheduler's new id are parameters;
- `caches.match` is a lookup map, and the network is a `FetchOutcome`;
- store calls, notification calls and cache writes come out as ordered lists
  (`StoreCall`, `Action`, `Effect`).

Modules, one per file:

| module | covers |
|---|---|
| `Wrappers` | `Option` |
| `Seqs` | filtering, flat-map and first-occurrence deduplication (`new Set`) |
| `Text` | ECMAScript white space and `trim`, ASCII lower-casing, string order, decimal rendering |
| `StringSort` | `Array.prototype.sort` on strings, by insertion |
| `LinkTypes` | `Link`, the `addLink` payload, the `updateLink` patch and the spread merge |
| `LinksStore` | stores/links.ts |
| `TagsStore`, `TagInput`, `TagFilter`, `CategoryFilter` | the tag and category components |
| `LinkForm`, `NewLinkScreen`, `AddLinkModal` | the two creation forms |
| `CardsReader`, `ReadingProgressBar` | the reading helpers |
| `ReminderStore`, `ReadingReminders` | the reminder settings and the reminder hook |
| `ServiceWorker` | public/service-worker.js |

Notes on the modelling:

- Nullable fields are `Option`s. A `Partial<Link>` patch uses `Option<Option<_>>`, so it
  can tell "key absent" from "key present with value null".
- The sentence pattern `[^.!?]+[.!?]+["']?|[^.!?]+$` is a hand-written scanner
  (`CardsReader.Segments`). Its contract says how the scan splits the text: the matches
  appear in order, separated only by skipped terminators. It also says that every match
  has the pattern's shape, that a match ends only where the greedy pattern stops, and that
  only the last match may lack a terminator. `SegmentsUnique` shows that these facts
  determine the result.

## Model

| member | source | states |
|---|---|---|
| LinkTypes.TitlePatch | stores/links.ts:42-48 | a title-only patch sets the title key and no other key |
| LinkTypes.Merge | stores/links.ts:45 | for every field: a key present in the patch gives the patch's value, an absent key keeps the record's; `content`, which a patch cannot name, is kept |
| LinkTypes.MergeEmpty | stores/links.ts:45 | spreading an empty patch over a record gives the record back |
| LinkTypes.MergeKeepsIdentity | stores/links.ts:45 | a patch without id and createdAt keeps both; content is never patched |
| LinkTypes.MergeTitleOnly | stores/links.ts:45 | a title-only patch changes the title and nothing else |
| LinkTypes.MergeIdempotent | stores/links.ts:45 | merging the same patch twice equals merging it once |
| LinksStore.AddLink | stores/links.ts:28-36 | one more record, in front; the old records follow in order; every payload field is copied; id and createdAt are the given ones; content is null |
| LinksStore.AddLinkOrder | stores/links.ts:35 | after three additions the records are newest first, ahead of the old ones |
| LinksStore.RemoveLink | stores/links.ts:37-41 | a record survives exactly when it was stored with another id; an unknown id changes nothing; a known id shortens the store |
| LinksStore.RemoveLinkConcat | stores/links.ts:39 | removal works segment by segment, so survivors keep their order |
| LinksStore.UpdateLink | stores/links.ts:42-48 | same length; records with the id become record-merged-with-patch; all others are untouched; an unknown id changes nothing |
| LinksStore.UpdateLinkKeepsIdentity | stores/links.ts:42-48 | a patch without id and createdAt keeps every record's id and createdAt |
| LinksStore.GetLink | stores/links.ts:49-51 | none exactly when no record has the id; otherwise the first stored record with that id |
| LinksStore.GetAfterUpdate | stores/links.ts:42-51 | after an update, the id is found exactly when it was before, and the found record is the old first match, merged |
| LinksStore.GetAfterRemove | stores/links.ts:37-51 | after a removal the id is not found; every other id is found as before |
| LinksStore.ClearAllLinks | stores/links.ts:52-54 | the store is empty |
| LinksStore.ImportLinks | stores/links.ts:58-65 | the old records stay in order at the back; the records in front are exactly the batch records whose URL is not stored |
| LinksStore.ImportExportNoop | stores/links.ts:55-65 | importing an export changes nothing |
| LinksStore.ImportKeepsBatchRepeats | stores/links.ts:60-63 | for any store, a record whose URL is not stored and which appears twice in the batch is prepended twice: deduplication is only against the store |
| LinksStore.ImportSingle | stores/links.ts:58-65 | a one-record batch is prepended when its URL is not stored; otherwise the store is unchanged |
| LinksStore.ImportConcat | stores/links.ts:58-65 | importing a batch a + b puts the new records of a ahead of the result of importing b, so the prepended records keep batch order |
| LinksStore.ImportFreshBatch | stores/links.ts:58-65 | a batch with no stored URL is prepended whole, in order |
| LinksStore.RestoreAfterClear | stores/links.ts:52-65 | importing an export into a cleared store restores it exactly |
| StringSort.Sort | stores/tags.ts:16 | the result is in character order (Unicode scalar values, which is UTF-16 code-unit order inside the Basic Multilingual Plane) and is a permutation of the input |
| StringSort.SortedDistinctUnique | stores/tags.ts:19 | two sorted lists without repeats that hold the same tags are equal |
| Seqs.Dedup | stores/tags.ts:19 | `new Set` over a list: no repeats, the same members |
| TagsStore.AddTag | stores/tags.ts:15-17 | membership is old plus the tag; a present tag changes nothing; an absent tag gives a sorted permutation of old plus the tag |
| TagsStore.AddTags | stores/tags.ts:18-20 | sorted, no repeats, members are exactly old ∪ new, so no tag is ever lost |
| TagsStore.AddTagsIdempotent | stores/tags.ts:18-20 | registering the same list twice equals registering it once |
| TagsStore.AddTagIsAddTags | stores/tags.ts:15-20 | on a sorted registry without repeats, addTag(t) equals addTags([t]) and keeps that shape |
| TagsStore.AddKnownTags | stores/tags.ts:18-20 | registering known tags leaves a sorted registry without repeats unchanged |
| TagsStore.NoCaseFolding | stores/tags.ts:15-20 | "News" and "news" are two tags |
| Text.Trim | components/TagInput.tsx:15-17 | the slice of the input that starts after its leading white space and leaves only white space after it; a non-space character at each end; empty exactly when the input is all white space |
| Text.TrimUnpadded | components/TagInput.tsx:17 | a string with no white space at either end is its own trim |
| Text.TrimIdempotent | components/TagInput.tsx:17 | trimming twice equals trimming once |
| Text.ToLower | components/TagInput.tsx:17 | same length; each character is the lower-case partner of the input's character at that position (A-Z shift by 32, everything else kept); no capital left; white space kept in place |
| Text.ToLowerIdempotent | components/TagInput.tsx:17 | lower-casing twice equals lower-casing once |
| TagInput.NormalizeTag | components/TagInput.tsx:17 | the tag is the trimmed input lower-cased, character by character; it is empty exactly for blank input; it has no edge white space and no capitals |
| TagInput.NormalizeTagIdempotent | components/TagInput.tsx:17 | normalising a normalised tag changes nothing |
| TagInput.HandleAddTag | components/TagInput.tsx:14-22 | blank input: no change and the text is kept; otherwise the text is cleared; onChange fires exactly when the tag is new, with the tag appended |
| TagInput.AddKeepsDistinct | components/TagInput.tsx:18-20 | a list without repeats stays without repeats and holds the submitted tag |
| TagInput.HandleRemoveTag | components/TagInput.tsx:24-26 | the tag is gone; other tags keep their membership; an absent tag changes nothing |
| TagInput.RemoveUndoesAdd | components/TagInput.tsx:14-26 | removing a tag just added restores the list |
| TagInput.RemoveConcat | components/TagInput.tsx:25 | removal keeps the order of the remaining tags |
| TagFilter.AllTags | components/TagFilter.tsx:15-17 | sorted, no repeats, and t is offered exactly when some link has tag t |
| TagFilter.RendersIffSomeTag | components/TagFilter.tsx:27 | the strip renders exactly when some link has a tag |
| TagFilter.ToggleTag | components/TagFilter.tsx:19-25 | a selected tag loses every occurrence and the others stay; an unselected tag is appended |
| TagFilter.ToggleTwice | components/TagFilter.tsx:19-25 | toggling an unselected tag twice restores the selection |
| TagFilter.ToggleKeepsDistinct | components/TagFilter.tsx:19-25 | toggling keeps a selection without repeats free of repeats |
| CategoryFilter.CategoriesShape | components/CategoryFilter.tsx:5-12 | six different labels, Articles first and Other last |
| CategoryFilter.Press | components/CategoryFilter.tsx:34-36 | pressing the selected label clears the selection; any other label becomes the selection |
| CategoryFilter.PressTwice | components/CategoryFilter.tsx:34-36 | from null or from X, pressing X twice returns to the start |
| CategoryFilter.PressSelectsPressed | components/CategoryFilter.tsx:34-36 | after a press the selection is null or the pressed label |
| LinkForm.NormalizeUrl | app/new-link.tsx:31 | the URL starts with "http": unchanged if it already did, else "https://" is prefixed |
| LinkForm.NormalizeUrlIdempotent | app/new-link.tsx:31 | normalising twice equals normalising once |
| LinkForm.PreviewPayload | app/new-link.tsx:41-51 | title is the preview title or the raw typed URL; description is the preview's, then the note, then null; image is the preview's or null; unread, progress 0, no category, no estimate, no note |
| LinkForm.EmptyPreviewFallback | app/new-link.tsx:43-45 | an empty preview gives the typed URL as title, no image, and the note (if any) as description |
| LinkForm.TitleNeverEmpty | app/new-link.tsx:43 | a submitted form always saves a non-empty title |
| NewLinkScreen.HandleSubmit | app/new-link.tsx:21-59 | empty URL: the error and nothing else; otherwise the normalised URL is fetched and loading ends; a failed preview changes no store; a good one registers the tags, then saves one link with them, and navigates back |
| NewLinkScreen.SubmitKeepsRegistryCovering | app/new-link.tsx:40-46 | if the registry held every stored tag before a submission, it does after |
| NewLinkScreen.FailedPreviewSavesNothing | app/new-link.tsx:36-55 | a failed preview leaves both stores as they were and shows an error |
| NewLinkScreen.SavedRecord | app/new-link.tsx:41-51 | the stored record's fields follow the fallback rules; note, content, category and estimate are null |
| AddLinkModal.HandleSubmit | components/AddLinkModal.tsx:22-65 | empty URL: the error only; a failed preview keeps the form, saves nothing and stays open; a good one saves one link, resets the form and closes; only SaveLink calls are made |
| AddLinkModal.SameRecordAsScreen | components/AddLinkModal.tsx:43-53 | the modal stores the same records as the screen for the same form and preview |
| AddLinkModal.ModalSkipsRegistry | components/AddLinkModal.tsx:20-53 | the modal can save a tag the registry does not hold |
| CardsReader.Segments | components/CardsReader.tsx:21 | the text is the matches in order, separated only by skipped terminators; each match has the sentence shape and ends at the end of the text or where no further terminator or quote could extend it; only the last lacks a terminator; no letter is lost; no match exactly when the text is all terminators |
| CardsReader.SegmentsUnique | components/CardsReader.tsx:21 | any list of well-formed matches that splits the text this way is the scanner's result: the greedy global match is determined |
| CardsReader.MatchEndUnique | components/CardsReader.tsx:21 | a prefix that is a well-formed match and ends where a greedy match may end is the match the scanner takes |
| CardsReader.Sentences | components/CardsReader.tsx:21 | never empty; text with a non-terminator gives exactly the matches; all-terminator text is one sentence, the whole text |
| CardsReader.NoTerminatorOneSentence | components/CardsReader.tsx:21 | text without . ! ? is one sentence |
| CardsReader.Kept | components/CardsReader.tsx:28-29 | no more strings than sentences, none of them empty |
| CardsReader.KeptIsFilter | components/CardsReader.tsx:27-29 | the kept strings are the sentences trimmed, with the empty ones filtered out, in order |
| CardsReader.KeptSingle | components/CardsReader.tsx:28-29 | one sentence is kept as its trim, or dropped when it trims to nothing |
| CardsReader.KeptSnoc | components/CardsReader.tsx:27-29 | one more sentence adds its trim at the end, unless it trims to nothing |
| CardsReader.Pair | components/CardsReader.tsx:31-43 | ceil(k/2) cards; card i is sentence 2i, joined by one space to sentence 2i+1 when there is one |
| CardsReader.ChunkFoldState | components/CardsReader.tsx:27-39 | after any prefix of trimmed sentences, the loop's closed cards, open card and count are those of pairing the non-empty ones |
| CardsReader.ChunkTrimmed | components/CardsReader.tsx:23-45 | the chunking loop over trimmed sentences yields exactly the pairs of the non-empty ones |
| CardsReader.ChunkSentences | components/CardsReader.tsx:23-45 | the chunking loop yields exactly the pairs of the kept sentences |
| CardsReader.Cards | components/CardsReader.tsx:16-46 | empty content: the placeholder card only; otherwise ceil(k/2) cards for the k kept sentences, none of them empty |
| CardsReader.BuildCards | components/CardsReader.tsx:16-46 | the component's loop computes `Cards`: the placeholder for empty content, otherwise card i is kept sentence 2i, joined to sentence 2i+1 when there is one |
| CardsReader.BlankContentNoCards | components/CardsReader.tsx:27-45 | non-empty content that is all white space gives no card |
| CardsReader.OnlyTerminatorsOneCard | components/CardsReader.tsx:21-43 | content made only of . ! ? is one card, kept whole |
| CardsReader.CardProgress | components/CardsReader.tsx:70 | progress is in (0,1]; before the last card it is (index+1)/n; from the last card on it is 1 |
| CardsReader.CardProgressMonotone | components/CardsReader.tsx:70 | a later card never reports less progress |
| CardsReader.OnViewableItemsChanged | components/CardsReader.tsx:63-76 | the first visible card with an index becomes current; progress is reported only with a listener and cards, lies in (0,1], and is 1 on the last card |
| CardsReader.LaterCardMoreProgress | components/CardsReader.tsx:63-76 | with a listener, a later first visible card never reports less progress |
| ReadingProgressBar.ClampProgress | components/ReadingProgressBar.tsx:10-15 | NaN and values below 0 give 0; values above 1 give 1; values in [0,1] are kept; the result is in [0,1] |
| ReadingProgressBar.ClampIdempotent | components/ReadingProgressBar.tsx:10-15 | clamping a clamped value changes nothing |
| ReadingProgressBar.ClampMonotone | components/ReadingProgressBar.tsx:10-15 | clamping keeps the order of finite values |
| ReadingProgressBar.BarHeight | components/ReadingProgressBar.tsx:21 | height 10 for large, 6 for small |
| ReadingProgressBar.BorderRadius | components/ReadingProgressBar.tsx:22 | the radius is half the height |
| ReadingProgressBar.RenderRule | components/ReadingProgressBar.tsx:25-27 | the large bar always renders; the small one exactly when the clamped progress is positive |
| ReadingProgressBar.MissingVariantIsSmall | components/ReadingProgressBar.tsx:17-27 | without a variant the bar is the small one: 6 high, rendered exactly when the clamped progress is positive |
| ReminderStore.InitialConsistent | stores/reminders.ts:23-27 | the initial state is off, daily, at "20:00", with neither a reminder id nor a schedule time recorded |
| ReminderStore.SetEnabled | stores/reminders.ts:28 | sets `enabled`; every other field is unchanged |
| ReminderStore.SetReminderTime | stores/reminders.ts:29 | stores the time verbatim; every other field is unchanged |
| ReminderStore.SetFrequency | stores/reminders.ts:30 | sets the frequency; every other field is unchanged |
| ReminderStore.SetLastScheduledAt | stores/reminders.ts:31 | sets the schedule time; every other field is unchanged |
| ReminderStore.SetScheduledNotificationId | stores/reminders.ts:32 | sets the reminder id; every other field is unchanged |
| ReminderStore.SettersCommute | stores/reminders.ts:28-32 | setters of different fields commute; the last write to a field wins |
| ReadingReminders.PendingCount | hooks/use-reading-reminders.ts:23 | the count plus the number of completed links is the number of links; 0 exactly when every link is completed |
| ReadingReminders.PendingPlusCompleted | hooks/use-reading-reminders.ts:23 | the links the filter keeps and the completed links together are all the links |
| ReadingReminders.NoneCompletedIff | hooks/use-reading-reminders.ts:23 | nothing is pending exactly when every link is completed |
| ReadingReminders.PendingAfterAdd | hooks/use-reading-reminders.ts:23 | a new link adds one to the count unless it is completed |
| ReadingReminders.ReminderBody | hooks/use-reading-reminders.ts:49-52 | "1 link" for one pending link, "N links" with N in decimal otherwise |
| ReadingReminders.ReminderBodyInjective | hooks/use-reading-reminders.ts:49-52 | different counts give different texts |
| ReadingReminders.RefreshSchedule | hooks/use-reading-reminders.ts:26-55 | unsupported: nothing; off or nothing pending: cancel and forget; refused: switch off and forget without cancelling; otherwise: ask, configure, cancel the old reminder, schedule, and record the new id and time |
| ReadingReminders.RefreshKeepsConsistent | hooks/use-reading-reminders.ts:30-55 | the id and the schedule time stay present or absent together; a recorded id implies on and pending |
| ReadingReminders.CancelBeforeSchedule | hooks/use-reading-reminders.ts:45-53 | every scheduling is preceded by cancelling the recorded reminder |
| ReadingReminders.SecondRefreshCancelsFirst | hooks/use-reading-reminders.ts:46-54 | a second refresh cancels exactly the reminder the first one scheduled |
| ReadingReminders.ForgottenIdsAreCancelled | hooks/use-reading-reminders.ts:30-43 | a forgotten id was cancelled, except after a refused permission |
| ServiceWorker.ConstantsShape | public/service-worker.js:1-20 | eight precached assets, the offline page and "/" among them; three different current caches |
| ServiceWorker.ValidResponseShape | public/service-worker.js:36-38 | valid means present with status 200; missing, opaque and 404 responses are invalid |
| ServiceWorker.TrimSelection | public/service-worker.js:23-33 | deleted followed by kept is the key list; the newest max keys are kept; nothing is deleted at or under the bound |
| ServiceWorker.TrimIdempotent | public/service-worker.js:23-33 | trimming a trimmed cache deletes nothing |
| ServiceWorker.TrimCompose | public/service-worker.js:23-33 | trimming to a big bound, then a small one, equals trimming to the small one |
| ServiceWorker.PutThenTrimKeepsKey | public/service-worker.js:172-175 | a key just written survives the trim that follows it |
| ServiceWorker.StaleCaches | public/service-worker.js:57-70 | a cache is deleted exactly when it is not one of the three current caches |
| ServiceWorker.ActivateIgnoresCurrent | public/service-worker.js:57-70 | the current caches add nothing to the deletions |
| ServiceWorker.ActivateCurrentOnly | public/service-worker.js:57-70 | with only current caches, nothing is deleted |
| ServiceWorker.Classify | public/service-worker.js:84-146 | non-GET and cross-origin non-image requests pass through; cross-origin images, same-origin /api/ and the remaining same-origin requests get their own strategies |
| ServiceWorker.SameOriginImageIsAppShell | public/service-worker.js:94-146 | a same-origin image takes the app-shell route |
| ServiceWorker.CacheIfValid | public/service-worker.js:168-175 | an invalid response writes nothing; a valid one is written, then trimmed to the given bound when there is one; without a bound nothing is trimmed |
| ServiceWorker.HandleFetch | public/service-worker.js:84-195 | the reply and cache writes for each route: image cache-first with an empty 404 offline; API network-first with cache fallback, else rethrow; app shell cache-first with a background refresh and a trim after a miss |
| ServiceWorker.NavigationFallback | public/service-worker.js:182-191 | a failed navigation gets the offline page, else "/", else rethrows; other requests rethrow |
| ServiceWorker.FetchWritesOnlyValid | public/service-worker.js:84-195 | every write is a valid response under the request's URL, into the runtime or image cache; every trim follows a write to that cache, with its bound |
| ServiceWorker.OfflineWritesNothing | public/service-worker.js:100-191 | a failed fetch writes nothing |
| ServiceWorker.RethrowOnlyOffline | public/service-worker.js:134-191 | a rethrow means the network failed and the request was not cached; images never rethrow |
| ServiceWorker.ApiPrefersNetwork | public/service-worker.js:124-133 | when the network answers, an API request gets that answer even if a copy is cached |
| ServiceWorker.AppShellPrefersCache | public/service-worker.js:149-161 | a cached app-shell request gets the cached copy, whatever the network does |

## Left out

- Persistence through zustand `persist` and AsyncStorage: each store is in-memory state only.
- Id and time generation (`generateId`, `new Date().toISOString()`): both are parameters. Nothing makes ids unique, and no contract claims it.
- The preview request to the preview service, JSON decoding, `router.back()`, `onClose()` and React state: the answer is the `PreviewResponse` input; navigating back and closing are booleans.
- Unicode `toLowerCase`: `Text.ToLower` folds only the ASCII letters A-Z.
- String order for characters above U+FFFF: `Text.Le` compares Unicode scalar values. The default `sort` compares UTF-16 code units, which agrees inside the Basic Multilingual Plane only. A character above U+FFFF is a surrogate pair starting at D800-DBFF, so JavaScript sorts it before the characters E000-FFFF, and the model sorts it after them.
- `undefined` vs `null`: both are `None`. The creation forms leave `note`, `groups`, `prompt`, `summary` and `response` undefined. The model stores `None` for the strings and `[]` for `groups`.
- `content`: the store writes it as null, but `Link` does not declare it. So the `Partial<Link>` patch has no `content` key, and `Merge` always keeps it.
- The service worker's `cache.put` runs without `await` before `trimCache`. The model orders the write before the trim (`PutThenTrimKeepsKey`). The real interleaving is not modelled.
- The service worker's Cache API, `fetch`, install precaching, background sync and messages: `caches.match` is a lookup map and `fetch` a single outcome. The model returns the writes as effects instead of applying them.
- The URL parser: requests arrive with origin, path and full URL already split.
- `ServiceWorker.PutKey`: assumes the Cache API's rule that a write replaces an earlier entry and appends the new one. That rule belongs to the browser, not to the worker's own code.
- The `Math.round` percent label of the progress bar and animation: progress is a mathematical real.
- The platform details of `configureReminderChannel` and the HH:mm parsing of the reminder utilities: the channel set-up is one `ConfigureChannel` action. The reminder time is passed through as text.
- The reminder hook's effect and app-state listeners: they only re-run `refreshSchedule`, which is modelled as one step.
- Rejected promises in `refreshSchedule` (hooks/use-reading-reminders.ts:37-53): `ReadingReminders.RefreshSchedule` assumes that the permission request, the channel set-up and `scheduleDailyReminder` (utils/reminders.ts:51-65) all succeed. In the source, a rejection stops the refresh where it happens. A failed schedule after the cancel leaves the cancelled id recorded, and the model never produces that state.
- Trimming inside the chunking loop: `CardsReader.ChunkSentences` trims every sentence first and runs the loop (`ChunkTrimmed`) over the results. Trimming is pure, so the cards are the same.
- `LinksStore.ExportLinks` has no contract of its own: it returns its input. Its promise is stated by `ImportExportNoop` and `RestoreAfterClear`.
