# Vazute backend: verified model

A Dafny model of the parts of the backend whose behaviour depends on state held in PostgreSQL, in
the object store or in one atomic, with proofs of what those parts promise. Tables are maps, sets
and sequences; a query is a set comprehension; time is an integer; a transaction that can be
interleaved with others is a sequence of statements run by a small state machine, and a statement
about "every run" quantifies over every sequence of events of that machine, including failures
between any two steps. `dafny verify dfyconfig.toml` checks the whole project.

| files | subject |
|---|---|
| `Orders`, `KeysetPaging`, `Uuids`, `Octets` | strict total orders and sorted listings, keyset paging, UUID text, byte strings |
| `Catalogue`, `UpNext`, `UpNextRows` | the cached catalogue and one member's rows; the Up Next queries, and their answers said of the rows |
| `NewEpisodesFeed`, `NewEpisodesRows`, `UpcomingFeed`, `UpcomingRows` | the two paged calendar feeds, their cursors, and what they return said of the rows |
| `WatchHandlers`, `ViewingRows`, `WatchEffects`, `WatchProgress`, `BulkRequests`, `MemberStore` | what each viewing request does alone, in full, and what it leaves alone; plays and passes; which episodes the bulk requests reach; the same requests as methods that update rows in place |
| `ViewingScripts`, `ViewingAlone`, `ViewingProtocol`, `PlanQuota` | the same requests as locked SQL statements, any number of them interleaved; exactly which refusals are wrong |
| `KeyDirectory`, `MessageForms`, `Messaging`, `MessageRows` | key publication, message forms, sending, and what is stored of each request |
| `AvatarUrls`, `AvatarStore`, `AvatarAccount`, `JpegScanner`, `ImageFormats` | avatar row and object store, interleaved and one request at a time; image headers |
| `Moderation`, `LogRedactor`, `RedactionCuts`, `RedactedWords`, `LogThrottle` | report status and audit log; log redaction, what a second pass changes, and what a log line can still hold; the lock-free throttle |

Each query, handler and loop is a definition that follows its statement or code. The theorems of the
modules named `...Rows`, of `BulkRequests` and of `RedactedWords` say the same answers again, of the
rows or characters themselves and without the predicates the definitions are built from, for every input.

## What the proofs rest on

- Statements run under READ COMMITTED: a statement sees committed rows and its own transaction's
  writes. Advisory locks are exclusive, per member, and held to the end of the transaction.
- `episode_has_aired` is an arbitrary predicate of the show and the date, true for no date
  (`Catalogue.Clock`). Title and text collation are arbitrary strict total orders.
- Signature verification is an arbitrary deterministic predicate. White space and control
  characters are arbitrary predicates that agree with ASCII.
- Runs start from any sound rows of any members (viewing), any account whose identity has a backup
  (keys), any row whose object is there (avatars), and empty tables (messages, reports).
- A new avatar key is one no upload, object or row has had.
- Up Next soundness and completeness assume that the cache is part of a true catalogue, that season
  rows are there as far as the theorem looks, and that a season's given episode count is the true
  one; a season of unknown count with some rows counts as complete, as in the query.

## What the proofs found

- **Plan quota.** Removing a plan takes none of the locks the plan count is read under. A refusal is the
  one the request would get alone at that instant if and only if it is not a plan whose count has gone
  stale, and then the request would have been accepted (`PlanQuota.RefusalsAreHandlers`). Such a run
  exists, from any rows at the cap (`PlanQuota.PlanCountGoesStale`). The cap itself is never exceeded.
- **Backlog cursor.** If the episode a `/calendar/new` cursor names has been deleted, the rest of its
  day is skipped; the next page is right if and only if nothing was left of that day
  (`NewEpisodesFeed.DeletedAnchorSkipsTheDay`), and two episodes of one day are enough to lose one
  (`NewEpisodesFeed.DeletedAnchorLosesAnEpisode`).
- **Bulk reservation.** A first viewing inserts what it reserved if and only if no already watched id
  is listed twice (`WatchProgress.ReservedIsInserted`); the ids come from a query that lists none twice.
- **Deleting an avatar.** The comment that a failed delete leaves the avatar intact is not always true:
  the store is emptied object by object, its listing may fail half way, and the database may fail after
  it. Over all these failures row and image are intact if and only if the avatar's own object is not
  among those that went (`AvatarAccount.Account.DeleteAvatar`).
- **Reopening a report.** The transition table lets every decision be reopened, but the unique index
  over active reports refuses it if and only if the reporter has raised the same target again
  (`Moderation.ReopeningNeedsNoNewerReport`), as in the run of `Moderation.ReopeningIsRefused`.
- **Log redaction.** Redacting a redacted text again changes nothing if and only if what was left of it
  is empty, or ends in a word, not in a separator, and that word begins its own redaction
  (`RedactionCuts.RedactingTwice`). A text that fits its bound always passes; a cut one may not, because
  a cut may leave the beginning of a harmless word looking like a token
  (`LogRedactor.CutRedactionMayChange`).
- **Two notions of aired.** `history.rs` compares an episode's date with the server's date where
  `calendar.rs` asks `episode_has_aired`; the model keeps both (`WatchHandlers.InFuture`).

## Model

| member | source | states |
|---|---|---|
| UpNext.RewritePreserved | backend/src/routes/calendar.rs:142-199 | Joining `progress` into `season_cache` leaves `withheld` as it is over every season, and the materialised `watched` anti-join leaves the candidates as a correlated NOT EXISTS does |
| UpNext.JoinKeepsCount | backend/src/routes/calendar.rs:180-199 | The join with `progress` multiplies no episode row of a started show |
| UpNext.UpNextSound | backend/src/routes/calendar.rs:188-299 | Whatever the cache is missing, a named episode is of a tracked, undropped, started series, is a true, dated, aired, unwatched episode, and no true one of its show that the member could watch comes before it |
| UpNext.UpNextCovers | backend/src/routes/calendar.rs:225-299 | A tracked, undropped, started series with a true unwatched episode is in exactly one of the two lists, before the limit |
| UpNext.LimitKeepsTheFirst | backend/src/routes/calendar.rs:311-356 | What the limit drops ranks after everything it keeps, and no planned episode is dropped for one that is not |
| UpNext.WaitingLimitKeepsTheLatest | backend/src/routes/calendar.rs:393-412 | The waiting list keeps the shows watched last |
| UpNextRows.QueueOnRows | backend/src/routes/calendar.rs:222-299 | Before the limit the queue holds exactly the first dated, aired, unwatched episode of each tracked, undropped, started series of which no regular season at or before it is missing rows, with the time of the last watch and its class |
| UpNextRows.UpNextOnRows | backend/src/routes/calendar.rs:311-388 | The list returned has such entries only, no more than the limit, in order: planned, watched since the threshold, dormant; and whatever else the rows hold ranks after a full list |
| UpNextRows.AwaitingItemsOnRows | backend/src/routes/calendar.rs:281-299 | The waiting list returned has exactly the running series held back by a season that is missing rows and comes no later than any episode that could be named, each with its first such season, the one watched last first, up to the limit |
| UpNextRows.OnlyRunningShows | backend/src/routes/calendar.rs:240-242 | With specials or without, a show that is not tracked, was dropped, is no series or was never watched is in neither list |
| NewEpisodesFeed.PartialCursorSuffices | backend/src/routes/calendar.rs:86-129 | A cursor of day and episode id walks the backlog as the full position would, even if its episode has been watched since |
| NewEpisodesFeed.BacklogPagingExact | backend/src/routes/calendar.rs:47-136 | While history, plans and tracking change between pages and the cache takes in rows: no episode twice, in order, none from outside the backlog, and every one that stays in it |
| NewEpisodesFeed.BacklogPagingEnds | backend/src/routes/calendar.rs:86-129 | The walk ends once its pages could have held every episode cached by the last of them |
| NewEpisodesRows.WalkOnRows | backend/src/routes/calendar.rs:72-117 | Over all pages, while the tables change: a row returned was at some page read a dated, released episode of a tracked, undropped series without an entry in the history, a special only on request, with its columns; none comes twice; they are in order; and one that is due at every page is returned |
| NewEpisodesRows.CursorMeansMore | backend/src/routes/calendar.rs:121-131 | The first page has a cursor exactly when an episode that is due is not on it; it is then full and the cursor names its last row |
| NewEpisodesRows.MarkedIsNotListed | backend/src/routes/calendar.rs:82-85 | Once a mark of an episode went through, from the calendar or the show page, no page of the backlog lists it and Up Next does not name it |
| NewEpisodesFeed.DeletedAnchorSkipsTheDay | backend/src/routes/calendar.rs:86-101 | With the cursor's episode deleted, the next page is the right one if and only if nothing was left of its day |
| NewEpisodesFeed.DeletedAnchorLosesAnEpisode | backend/src/routes/calendar.rs:86-101 | Two episodes of one day, pages of one, the first deleted in between: the walk ends without the second |
| UpcomingFeed.EmittedCursorAccepted | backend/src/dto/calendar.rs:118-137 | Every cursor the endpoint emits is accepted when it comes back |
| UpcomingFeed.KeysUnique | backend/src/routes/calendar.rs:440-545 | Kind and sort key name one item across the three branches of the union |
| UpcomingFeed.UpcomingPagesConcatenate | backend/src/routes/calendar.rs:424-567 | Over unchanged data the pages concatenate to the full sorted list, through the query-string round trip of every cursor |
| UpcomingRows.CalendarOnRows | backend/src/routes/calendar.rs:440-527 | An item is on the calendar exactly when the rows call for it: an episode ahead of a followed series, a planned film with the first date ahead of each kind of release in the country, or with its general date where the country has none |
| UpcomingRows.PagesOnRows | backend/src/routes/calendar.rs:528-562 | All pages together hold the keys of exactly those items, once, by day, kind and key |
| WatchHandlers.NewRowsWithinReserved | backend/src/routes/history.rs:533-567 | A bulk write never inserts more rows than it reserved, whatever its ids |
| WatchHandlers.HandlerSound | README.md:88-95 | Every handler alone keeps planned and watched apart, all three counts within their caps and history filed under the right show |
| ViewingRows.PlanOnRows | backend/src/routes/calendar.rs:800-844 | Planning in full: the refusals in their order and the rows left, for a followed and unwatched episode and room for the plan |
| ViewingRows.MarkFromCalendarOnRows | backend/src/routes/calendar.rs:879-955 | Marking from the calendar in full: one row unless there is one, the plan gone, a planned title now watching |
| ViewingRows.MarkOnRows | backend/src/routes/history.rs:911-990 | Marking from the show page in full: the server-date check, the tracking upsert, one row unless there is one |
| ViewingRows.RewatchOnRows | backend/src/routes/history.rs:635-749 | Another viewing of an episode or a film in full: always one more row |
| ViewingRows.CreateOnRows | backend/src/routes/history.rs:159-234 | Adding an entry in full: a time in the past is kept, one in the future becomes now |
| ViewingRows.UnmarkOnRows | backend/src/routes/history.rs:1003-1043 | Unmarking leaves the rows of every other episode, in their order, and all plans and tracking |
| ViewingRows.DeleteOnRows | backend/src/routes/history.rs:1066-1090 | Deleting takes one row out of its place, or answers not found |
| WatchEffects.TrackingOnlyMovesForward | backend/src/routes/history.rs:409-427 | No request stops tracking a title, sets one back or starts more than one; planned, paused and dropped become watching, completed stays |
| WatchEffects.PlansChangeForACause | backend/migrations/20240132000000_episode_plan_watch_invariant.sql:1-18 | A plan appears only by planning it, and goes only by unplanning it or with a watch of its episode |
| WatchEffects.HistoryIsAppendedTo | backend/src/routes/history.rs:217-238 | Requests that do not remove rows by name only append, and date nothing in the future |
| WatchEffects.DeleteRemovesOneRow | backend/src/routes/history.rs:1077-1090 | Deleting an entry takes out that one row and changes nothing else |
| WatchProgress.ReservedIsInserted | backend/src/routes/history.rs:520-567 | Rows inserted equal rows reserved, if and only if it is a repeat or no watched id is listed twice |
| WatchProgress.FirstTimeIsIdempotent | backend/src/routes/history.rs:493-567 | A repeated first viewing of the same episodes, or of some of them, inserts nothing |
| WatchProgress.PassesPositive | backend/src/routes/history.rs:283-344 | `complete_passes` is positive if and only if something has aired and all of it is watched |
| WatchProgress.RewatchAddsOnePass | backend/src/routes/history.rs:751-772 | `rewatch_season` raises `complete_passes` by exactly one |
| WatchProgress.MarkSeasonCompletesAPass | backend/src/routes/history.rs:585-625 | After `mark_season_watched` there is a complete pass, and no play count changed but those of unwatched episodes of the season |
| BulkRequests.MarkSeasonOnRows | backend/src/routes/history.rs:585-625 | Marking a season: accepted exactly within the caps; adds a row for each of its aired, unwatched episodes and no other, and leaves a complete pass |
| BulkRequests.RewatchSeasonOnRows | backend/src/routes/history.rs:751-772 | Watching a season again: a row for each of its aired episodes and no other, and one more pass |
| BulkRequests.RewatchShowOnRows | backend/src/routes/history.rs:775-835 | Watching a show again: a row for every aired episode, specials included; refused without a regular season |
| BulkRequests.MarkThroughOnRows | backend/src/routes/history.rs:837-909 | Marking through (s, e): not before the target has aired; accepted exactly within the caps; the rows left |
| BulkRequests.MarkThroughReachesExactly | backend/src/routes/history.rs:884-894 | After marking through (s, e), s = 0 included: every aired episode reached has a row; counts of later seasons, later episodes of s, specials (or, for s = 0, of all else), unaired episodes and other shows are as before |
| BulkRequests.MarkThroughAgreesWithUpNext | backend/src/routes/history.rs:837-909 | After marking through (s, e), s > 0, Up Next names a later episode of the show or none |
| WatchProgress.UnmarkRemovesExactly | backend/src/routes/history.rs:1034-1043 | Unmarking leaves the history without the episode's rows, in the same order |
| WatchProgress.UnmarkClearsEpisode | backend/src/routes/history.rs:992-1043 | After unmarking the episode has no row, every other count, every plan and the tracking are as before |
| WatchProgress.UnmarkUndoesMark | backend/src/routes/history.rs:911-1043 | Marking an unwatched episode and unmarking it gives the old history back |
| MemberStore.Store.EnsureTracking | backend/src/routes/history.rs:393-429 | Counts, checks the cap and upserts the tracking row as the handler's first step does |
| MemberStore.Store.PlanEpisode | backend/src/routes/calendar.rs:800-856 | Leaves the handler's rows or, refused, the old ones; answers whether the plan is new |
| MemberStore.Store.MarkEpisodeWatchedFromCalendar | backend/src/routes/calendar.rs:879-955 | Leaves the handler's rows or the old ones; answers whether it was already watched; no plan is left |
| MemberStore.Store.MarkEpisodeWatched | backend/src/routes/history.rs:911-990 | Leaves the handler's rows or, after a rollback, the old ones |
| MemberStore.Store.Rewatch | backend/src/routes/history.rs:635-749 | Another row for an episode or film, and how often it has been watched now |
| MemberStore.Store.WriteBulkEpisodeHistory | backend/src/routes/history.rs:500-583 | Leaves the handler's rows or the old ones; answers how many rows were written, which for distinct ids is what was reserved |
| MemberStore.Store.CreateHistory | backend/src/routes/history.rs:159-251 | Checks show and episode, clamps the time to now, inserts within the cap |
| MemberStore.Store.UnmarkEpisodeWatched | backend/src/routes/history.rs:1003-1064 | Removes every row of the episode and answers how many there were |
| MemberStore.Store.DeleteHistory | backend/src/routes/history.rs:1066-1088 | Removes one row, or refuses when it is not there |
| ViewingScripts.ScriptsDisciplined | backend/src/routes/calendar.rs:807-844 | Every request reads and writes only under locks it holds by then, and takes them in the order episode-state, tracking, history, plans, at most one of each |
| ViewingScripts.ExecuteStable | backend/src/routes/history.rs:520-567 | A statement under its locks does the same after another transaction's commit, up to a plan count that may have gone down |
| ViewingScripts.ReplayStable | backend/src/routes/calendar.rs:886-909 | So does everything a transaction has done so far |
| ViewingAlone.ScriptIsHandler | backend/src/routes/calendar.rs:800-955 | Run without interruption, each request's statements have the effect, or give the error, of its handler |
| ViewingProtocol.CommitIsHandler | backend/src/routes/history.rs:500-583 | In every reachable state a commit writes what its handler would write alone on the rows of that instant |
| ViewingProtocol.EveryScheduleIsSound | README.md:88-95 | In every interleaving of all ten requests, with failures anywhere, no committed state has an episode planned and watched, and no cap is exceeded |
| ViewingProtocol.EveryScheduleIsSerial | backend/src/routes/calendar.rs:807-955 | Every interleaving leaves the rows of its committed handlers run one at a time in commit order |
| ViewingProtocol.RequestRunsAlone | backend/src/routes/calendar.rs:800-955 | A request whose member no one else is writing runs to its end: it commits its handler's rows, or fails with its handler's error |
| ViewingProtocol.LostTransactionsRollBack | backend/src/routes/calendar.rs:807-844 | A transaction lost at any point of any run has written nothing and holds no lock |
| PlanQuota.RefusalsAreHandlers | backend/src/routes/calendar.rs:807-844 | In every run a refusal is the one the handler would give alone at that instant if and only if it is not a plan whose count has gone down since; and then the handler would have accepted |
| PlanQuota.PlanCountGoesStale | backend/src/routes/calendar.rs:825-837 | A run, from any rows at the cap, in which removing another plan between count and insert refuses a plan there is room for |
| PlanQuota.RowsAtTheCapExist | backend/src/services/quota.rs:6-11 | Sound rows at the cap with one more episode to plan |
| ViewingProtocol.NoDeadlock | backend/src/routes/calendar.rs:886-909 | In every reachable state with an unfinished transaction some transaction can step |
| KeyDirectory.EveryRunHasHistory | backend/src/routes/encryption.rs:91-217 | Over every interleaving the generation advances by one per committed publication, each replacement's request saw keys and passed confirmation, the keys are those of the last, every committed re-seal was confirmed, keys imply a backup, and after any commit the password copy is gone |
| KeyDirectory.FirstPublicationsDoNotReplace | backend/src/routes/encryption.rs:138-148 | Only the very first committed publication of an account without keys can have skipped the confirmation |
| KeyDirectory.RewrapKeepsIdentity | backend/src/routes/encryption.rs:230-316 | No step of a re-seal changes identity or generation, and without a backup it changes nothing |
| KeyDirectory.NoDeadlock | backend/src/routes/encryption.rs:148-206 | Identity before backup: with an unfinished request, some request can go on |
| KeyDirectory.PublishAlone | backend/src/routes/encryption.rs:91-217 | The interleaved steps of a publication, run alone, end as the single request does |
| KeyDirectory.RewrapAlone | backend/src/routes/encryption.rs:241-316 | So do those of a re-seal |
| KeyDirectory.Account.PublishKeys | backend/src/routes/encryption.rs:71-224 | Alone: succeeds unless keys are replaced without confirmation or the counter is full, with generation one or the next, the keys sent and a fresh backup; which refusal it is |
| KeyDirectory.Account.RewrapKeyBackup | backend/src/routes/encryption.rs:241-323 | Alone: succeeds exactly with confirmation and a backup, and drops the password copy |
| MessageForms.NormalFormsAreFixed | backend/src/dto/message.rs:9-11 | A body is stored as sent exactly when it is trimmed and has no carriage return; normalising twice is normalising once |
| MessageForms.BreaksBecomeNewlines | backend/src/dto/message.rs:9-11 | Each kind of line break becomes one newline whatever stands around it |
| MessageForms.HexRoundTrip | backend/src/dto/message.rs:100-126 | Bytes written as hex decode to themselves |
| MessageForms.EnvelopesThatDecode | backend/src/dto/message.rs:96-126 | An envelope is accepted exactly when every field is hexadecimal text of its algorithm's length, and each field decodes to what its own text says |
| MessageForms.DecodedByte | backend/src/dto/message.rs:100-112 | Every decoded byte is its pair of digits in either case, the high one first |
| MessageForms.WhiteSpaceIsTrimmed | backend/src/dto/message.rs:9-11 | White space around a body goes, all of it and nothing more |
| MessageForms.AcceptedRequestsAreRecorded | backend/src/routes/messages.rs:533-557 | The row of an accepted request, column by column: the normalised body and no envelope, or each field of the envelope, decoded, in the column of its name |
| MessageForms.AcceptedRequestsFitTheTable | backend/src/dto/message.rs:131-176 | An accepted request makes a row of exactly one form that meets every constraint of the table |
| Messaging.EveryStoredMessage | backend/src/routes/messages.rs:412-480 | In every run with publications and rotations, a row has exactly one form, an encrypted row's signature verifies under its recorded key, which was the sender's when checked, and no plain row's key check came after both had published |
| MessageRows.RowsAreRequests | backend/src/routes/messages.rs:412-557 | In every run a stored row is, column by column, that of the request its send began with, at its time, with the key its signature verified under |
| MessageRows.PublicationsCount | backend/src/routes/messages.rs:348-360 | In every run a publication becomes its user's current key and changes no other user's |
| Messaging.StoredRowsFitTheTable | backend/migrations/20240222000000_encrypted_direct_messages.sql:36-67 | No row of any run breaks a constraint |
| Messaging.StoreKeepsLimits | backend/src/routes/messages.rs:505-531 | A row stored after its checks keeps every window and cap, also when starts and commits are in different order |
| Messaging.EveryRunIsWithinLimits | backend/src/routes/messages.rs:16-17 | In every run, one row per sender and nonce, at most 30 in any closed minute, 500 in any closed day, and 100,000 per participant |
| MessageRows.LimitsOnRows | backend/src/routes/messages.rs:505-531 | The same limits as numbers of rows |
| MessageRows.SendDecided | backend/src/routes/messages.rs:412-531 | How a send ends, in every case, from the committed publications and rows: refused, answered with the stored row, or stored |
| Messaging.RetriesStoreNothing | backend/src/routes/messages.rs:470-503 | A second send under a stored nonce is answered with the stored message, or refused when it differs, and stores nothing |
| Messaging.SendsNeverDeadlock | backend/src/services/quota.rs:82-102 | Two locks in id order: with an unfinished send, some send can go on |
| Messaging.SendRunsAlone | backend/src/routes/messages.rs:378-557 | The interleaved steps of a send, run alone from the first lock, end and store as the decision procedure says |
| Messaging.Mailbox.SendMessage | backend/src/routes/messages.rs:362-573 | The whole request: its refusals in order, the replay of a retry, the row it appends column by column from the request, and the limits it keeps |
| AvatarUrls.AvatarUrlsMapBack | backend/src/services/storage.rs:235-282 | The key recovered from a stored url is the one the url was made from |
| AvatarUrls.KeysComeFromOurUrls | backend/src/services/storage.rs:260-282 | A url yields a key if and only if it is our origin, an avatar key without dot-dot, and perhaps a query |
| AvatarStore.RowIsAlwaysServed | backend/src/routes/assets.rs:438-480 | Over every interleaving and failure of uploads the row's object is in the store, and is the image of the last commit |
| AvatarStore.EachSupersededKeyHasOneCleaner | backend/src/routes/assets.rs:464-480 | Each key the row has left behind is superseded by exactly one upload |
| AvatarStore.EveryObjectIsAccountedFor | backend/src/routes/assets.rs:482-500 | An object the row does not show was there before, or its upload is in flight or died, or the upload that superseded it has not cleaned up |
| AvatarStore.OnlyTheCurrentObjectRemains | backend/src/routes/assets.rs:438-501 | When every upload has finished without a failure only the current object is left |
| AvatarAccount.UploadAlone | backend/src/routes/assets.rs:438-501 | The interleaved steps of an upload, run alone with any outcomes, have the effect of the single request |
| AvatarAccount.Account.UploadAvatar | backend/src/routes/assets.rs:438-501 | Whatever fails, the row points at an object that is there; the row is the old one with its objects, or the new one with the new image |
| AvatarAccount.Account.DeleteKeys | backend/src/services/storage.rs:176-188 | Deletes every key that can be deleted and reports whether any deletion failed |
| AvatarAccount.Account.DeletePrefix | backend/src/services/storage.rs:158-205 | Deletes what the readable pages list, and fails exactly when a page cannot be read or a deletion fails |
| AvatarAccount.Account.DeleteAvatar | backend/src/routes/assets.rs:507-536 | Succeeds exactly when the whole store was emptied and the commit worked; over all failures row and image are intact if and only if the avatar's object did not go |
| JpegScanner.JpegDimensions | backend/src/routes/assets.rs:216-270 | The two loops stop, stay in bounds on every byte string, and compute the recursive scan |
| JpegScanner.GrammaticalImagesAreMeasured | backend/src/routes/assets.rs:216-270 | SOI, any fill bytes, standalone markers and non-frame segments, a non-empty frame header, any tail up to EOI: the answer is that frame's size |
| JpegScanner.ScannerLanguage | backend/src/routes/assets.rs:216-270 | The scanner answers if and only if the bytes read as items and a non-empty frame header between SOI and EOI, and its answer is that frame's size however they are read |
| ImageFormats.OneReaderAccepts | backend/src/routes/assets.rs:152-306 | A file is reported in a format exactly when that format's reader accepts it, so the order of the attempts does not matter |
| ImageFormats.GifsAreMeasured | backend/src/routes/assets.rs:204-214 | A GIF of either version is reported with the size in its screen descriptor |
| ImageFormats.PngsAreMeasured | backend/src/routes/assets.rs:188-202 | A PNG with its signature, header and end chunk is reported with the size in its header |
| ImageFormats.ExtendedWebpsAreMeasured | backend/src/routes/assets.rs:281-292 | An extended WebP is reported with the size whose predecessors its header stores |
| ImageFormats.LosslessWebpsAreMeasured | backend/src/routes/assets.rs:293-298 | So is a lossless one, unpacked from fourteen bits each |
| ImageFormats.LossyWebpsAreMeasured | backend/src/routes/assets.rs:299-303 | And a lossy one, whatever its scaling bits |
| ImageFormats.PngsInFull | backend/src/routes/assets.rs:188-202 | Exactly which bytes the PNG reader accepts, with what size |
| ImageFormats.GifsInFull | backend/src/routes/assets.rs:204-214 | Exactly which bytes the GIF reader accepts, with what size |
| ImageFormats.WebpsInFull | backend/src/routes/assets.rs:272-306 | Exactly which bytes the WebP reader accepts, with what size: the RIFF frame of the right length around one of the three headers |
| ImageFormats.AcceptedInFull | backend/src/routes/assets.rs:312-332 | An upload is accepted exactly when it reads as declared, no side is over 4,096 and the area not over 16,000,000, and is reported with that size |
| Moderation.HistoryIsAPath | backend/src/routes/moderation.rs:155-264 | In every run a report's audit rows lead from open to its status by allowed transitions, it has a resolution time exactly when decided, no actor is its subject, its moderator is the last actor, and the active-report index holds |
| Moderation.DecisionsAreRevisitedThroughReview | backend/src/routes/moderation.rs:149-162 | Between two decisions of a report there is a review, directly after the first |
| Moderation.TransitionsInWords | backend/src/routes/moderation.rs:155-162 | A report may move to any other status, but from a decision only to review |
| Moderation.SettledInWords | backend/src/routes/moderation.rs:174-250 | Who may move which report where, which refusal comes first, and what the report then says |
| Moderation.ReopeningNeedsNoNewerReport | backend/migrations/20240215000000_community_safety.sql:94-96 | A decided report can be reopened if and only if its reporter has no other active report on the target |
| Moderation.ReopeningIsRefused | backend/src/routes/moderation.rs:149-162 | A run of filing, deciding and filing again, after which reopening is allowed by the table and refused by the index |
| Moderation.ReviewAlone | backend/src/routes/moderation.rs:174-264 | The interleaved steps of a review, run alone, settle it as the single request does |
| Moderation.Desk.UpdateReportStatus | backend/src/routes/moderation.rs:174-264 | When the update succeeds, what it writes to the report and appends to the log, and that a refusal changes nothing |
| LogRedactor.SanitizedLogText | backend/src/routes/client_errors.rs:49-101 | The loop with its early exit is the full redaction cut to its bound, and its count is the joined length at every turn |
| LogRedactor.StrippedUrlIsFixed | backend/src/routes/client_errors.rs:36-47 | A stripped url is a prefix of the word and stripping it again changes nothing |
| LogRedactor.RedactionIsIdempotent | backend/src/routes/client_errors.rs:49-101 | Where the full redaction fits the bound, running it again changes nothing, two-word expansions and the carried flag included |
| RedactionCuts.RedactingTwice | backend/src/routes/client_errors.rs:49-101 | For every text and bound, redacting the result again changes nothing if and only if it is empty, or ends in a word that begins its own redaction |
| RedactionCuts.UncutSurvives | backend/src/routes/client_errors.rs:49-101 | The full redaction of any text meets that condition |
| LogRedactor.CutRedactionMayChange | backend/src/routes/client_errors.rs:100 | A text and a bound for which a cut redaction changes when run again |
| LogRedactor.NoAddressGetsThrough | backend/src/routes/client_errors.rs:78-79 | No redacted word has the shape of a mail address |
| LogRedactor.CredentialsAreHidden | backend/src/routes/client_errors.rs:59-77 | The first word after a cue that is not another bearer mark is hidden, whatever it is |
| RedactedWords.EveryWordBecomes | backend/src/routes/client_errors.rs:52-97 | What becomes of every word: hidden if a cue announces it, else by its own characters a marked cue, an address, a url cut at its first query or fragment, a long token; any other word is unchanged |
| RedactedWords.EveryWordIsClean | backend/src/routes/client_errors.rs:36-97 | No redacted word holds a query or fragment behind a url or the shape of an address, and none is a long token but around a url |
| RedactedWords.LogLineIsBare | backend/src/routes/client_errors.rs:100 | Nor does any word of the log line after it is cut to its bound show a query, a fragment or an address |
| LogThrottle.OneLineAMinute | backend/src/middleware/rate_limit.rs:289-310 | Over every interleaving, with clocks that go back and stale loads, two printed lines recorded instants a minute or more apart |
| LogThrottle.InstantsIncrease | backend/src/middleware/rate_limit.rs:296-304 | The recorded instants increase by a minute or more at a time |
| LogThrottle.ExchangeMeansUnchanged | backend/src/middleware/rate_limit.rs:300-305 | An exchange succeeds if and only if nothing has been written since the value it compares with |
| LogThrottle.NoteAlone | backend/src/middleware/rate_limit.rs:289-310 | The interleaved steps of a thread, run alone, print exactly when a minute has passed since the last recorded instant |
| LogThrottle.Throttle.NoteUntrustedForwarding | backend/src/middleware/rate_limit.rs:289-310 | One thread: logs exactly when the clock is readable and a minute past the last line |

## Left out

- Up Next with specials included, against the true catalogue: season 0 is outside the gap test in the source, so soundness and completeness are stated without specials. What the two lists hold is stated with and without.
- Row-level locks and the hashing of advisory lock names: only the advisory locks of the viewing and sending transactions, and the row locks of keys, avatars and reports, are modelled.
- Row ids of watch history: two rows equal in show, episode and time are interchangeable in the model.
- The importer, the tracking routes, completion and badges also write viewing rows; their transactions are not among the interleaved ones.
- Caching of seasons from TMDB, the early tracking check before it and the 100-season bound: the bulk selections are over the rows as they are after that caching.
- Calendar summary, subscription feed, preferences, country choice and the HTML pages: presentation over the same queries.
- Query-string clamps, date bounds, and the pairing of the backlog cursor's two fields: single-branch checks.
- A store that says a listing goes on but gives no token to go on with: its listing is taken to show every object.
- Changes of the catalogue while transactions are interleaved: each transaction has its own clock and date, but all see the same catalogue rows.
- Message threads, the conversation list and read marks: the same keyset and set queries with nothing new to prove.
- Mutual-follow and block checks of a send are given as their outcome; follows themselves are not modelled.
- Argon2 cost, hex and length checks of published keys, security activity rows: shape checks and a log.
- Whether a backup still holds the key of the identity when a re-seal races a publication: the blobs are opaque and the code promises nothing there.
- An avatar upload that overlaps a delete: the code promises no consistency there.
- Metadata stripping, poster proxying and the public asset routes: thin input and output around the modelled checks.
- Retention pruning, account deletion and the moderators table: reports and audit rows stay, and every actor is a moderator.
- Validation of report reasons, notes and details: single-branch field checks.
- The token bucket, the trusted-proxy list and address parsing of the rate limiter: a library and a finite table.
