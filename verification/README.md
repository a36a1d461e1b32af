# yt-websub: a verified model of the relay's state

`yt-websub` is a small relay between YouTube's WebSub hub and a consumer that polls it. It keeps two
pieces of state that must never go wrong: a durable, compacted event log with a polling cursor, and a
registry of hub subscriptions that three kinds of threads change at once. This project models both,
with the text formats they rest on, and proves what holds of them over every input, every run and
every interleaving. `dafny verify dfyconfig.toml` checks the whole project.

## How the model is laid out

| files | what they model |
|---|---|
| `Base`, `Text`, `Utf8` | machine integers, `str` operations (`find`, `replace`, `split`, `lines`, `trim`, `parse`), UTF-8 encoding, strict and lossy decoding |
| `Percent`, `EventLog`, `CrashLog` | field encoding, TSV rows, the log as bytes, what crashes and failed writes leave behind |
| `Store` (modules `StoreSpec` and `Store`), `StoreRuns`, `Delivery`, `StoreWitnesses` | the store object over its two files; whole runs against the full history; a polling consumer; runs that show what fails |
| `Entities`, `Atom`, `AtomFeed`, `AtomMarkers`, `AtomRoundTrip`, `AtomDeletions`, `AtomParts`, `Notify`, `FeedToHistory` | entity decoding, the Atom scanner, its inverse on entries, deletions and whole feeds, what one notification appends, and how a feed ends up in the history |
| `Subs` (module `SubsSpec`), `Lifecycle`, `Registry`, `Passes` | the registry value and file, what one lock region does, the registry object, the renew and reconcile passes as programs |
| `Protocol`, `ProtocolSteps`, `ProtocolTheorems`, `ProtocolPasses`, `ReconcileTheorems`, `ProtocolRuns` | all threads interleaved, one step per lock region, restarts included; the invariant; what it gives over every run; undisturbed steps against the passes as programs; runs that show what fails |
| `Json`, `Channels` | JSON strings and arrays, `channels.txt`, the desired set |

Objects whose methods update fields are classes (`Store.File`, `Store.Disk`, `Store.Store`, `Registry.Registry`);
each method is proved equal to a function on the object's abstract value, and the invariants and
theorems are proved of those functions. The loops of the source are loops here. Steps of concurrent
threads are a transition system, because other threads run between their lock regions; its steps use
the same functions that the registry's methods are proved against. Strings are sequences of Unicode
scalar values, files are sequences of bytes, and `u64`/`u32` are bounded naturals with saturating or
wrapping addition written out.

What comes from outside is an input of the operation concerned: the clock (positive, below 2^63,
never going back), random draws, freshly drawn tokens, the hub's reply, whether the signature is
right, what a channel entry resolves to, and whether or how far a write reaches the disk.

## The main results

- Delivery: over every run, a consumer that polls and acks has received the appended history up to its
  cursor, with no gap and no repeat (`Delivery.DeliveredExactly`), and a poll closes the gap by its
  whole limit (`Delivery.PollCatchesUp`).
- Storage: every list of events survives the file (`EventLog.LogRoundTrip`); a torn last line costs at
  most itself on the next start (`CrashLog.CrashRecovery`); window and file agree
  (`StoreRuns.WindowRefinesFile`); numbers never regress (`StoreRuns.SequenceNumbersNeverRegress`).
- Subscriptions, in every interleaving: who may activate and deactivate
  (`ProtocolTheorems.ActivationDiscipline`, `ProtocolTheorems.RestartActivity`,
  `ProtocolTheorems.RestartKeepsRecords`), that a token answers from before the hub is asked
  (`ProtocolRuns.TokenAnswersIff`), stale write-backs (`ProtocolTheorems.MergeNeverOverrides`),
  nobody is stranded (`ProtocolTheorems.NeverStranded`, `ProtocolTheorems.DeadIsRetried`), live means
  verified within the lease that was named (`ProtocolTheorems.LeaseSoundness`), no lease runs out
  unattended (`ProtocolTheorems.RenewedInTime`), and a reconcile reaches its target
  (`ReconcileTheorems.ReconcileReachesDesired`).
- Text: sequential entity decoding is a single pass (`Entities.SequentialIsSinglePass`); the scanner
  recovers exactly what a feed announces, however its tags are laid out (`AtomParts.FeedRoundTrip`), and
  that is what the history then holds, field by field (`FeedToHistory.FeedIsStored`); the
  channel list survives exactly under conditions an operator can check (`Channels.PipelineIff`).

## Where the code falls short of its documentation

The model follows the code. Each of these is stated as an exact condition, both ways, or as a witness.

- `src/store.rs:1-3` promises that an acknowledged event is never lost, and `README.md:33-34` that a
  torn final line is skipped. The line is skipped but not removed, so the next append is glued to it.
  When that costs something, and exactly which event it costs: `CrashLog.SecondReopenIsDurableIff`,
  `CrashLog.LostBehindTear`, `CrashLog.TearMovesNumbering`, `CrashLog.CutCharacterHidesLaterEvents`.
  Numbers already handed out can then be issued again (`CrashLog.NumbersIssuedAgain`); when the numbering
  does continue: `CrashLog.NumberingContinuesIff`.
- A compaction that has renamed its file but cannot reopen it (`src/store.rs:264-268`) leaves the store
  writing to a file that no path names. What polls then give: `Notify.DetachedAnswers`; that a restart
  forgets the events and issues their numbers again: `Notify.DetachedNumbering`.
- A failed append is logged and the hub still gets its 204 (`src/callback.rs:167`). Which entries of an
  acknowledged delivery are stored: `Notify.StoredIff`. What the bytes of the failed write do to the
  next append, which reuses its number: `CrashLog.FailedAppendIsHarmlessIff`.
- `set_ack` does not clamp: `StoreRuns.OverAckRestartsNumbering`; reached by a run in
  `StoreWitnesses.OverAckReached`.
- `events_after` with a limit of zero: `StoreRuns.ZeroLimit`, reached by a run in
  `StoreWitnesses.ZeroLimitReached`; with the largest cursor: `StoreRuns.LargestCursor`.
- Compaction trims the file but not the window, and passes over a consumer that lags too far:
  `StoreRuns.WindowRefinesFile`, `Delivery.CompactionIsGaplessIff`.
- `handle_verify` does not look at the token again before it activates. When it activates another
  subscription than the one the request was for: `ProtocolRuns.ActivatesOwnTokenIff`; a run from a first
  start in which it does: `ProtocolRuns.StaleVerification`.
- Failed saves of the registry are ignored (`src/renew.rs:155`, `src/renew.rs:294`), so a restart brings
  back whatever was saved last: `ProtocolTheorems.RestartActivity`, `ProtocolTheorems.SavedIsCurrent`,
  `ReconcileTheorems.OnlyReconcileChangesChannels`; a run from a first start in which a lapsed
  subscription is active again: `ProtocolRuns.LapseForgotten`.
- Duplicate suppression does not make redelivery silent once the window is full:
  `Notify.SilentIff`, `Notify.RedeliveryRepeats`, reached by a run in `StoreWitnesses.RepeatReached`.
- The channel list is read by a scanner that stops at the first `]` and knows no numeric escapes:
  `Json.StringsOfElementsIff`, `Channels.PipelineIff`.

Two functions demand more of their callers than they say; both demands are met at every moment of a run
of the program. `insert` keeps a superseded token (`SubsSpec.InsertKeepsIndexIff`), but is only reached
for an absent channel (`ProtocolTheorems.RegistryIndex`). Registry columns are written raw
(`SubsSpec.RowRoundTripIff`, `SubsSpec.LoadAfterSaveIff`), but hold no tab and no newline
(`ProtocolSteps.GoodIsClean`), so a restart always reads back what was saved
(`ProtocolSteps.ReloadedIs`).

## Model

| member | source | states |
|---|---|---|
| Percent.EncodeField | src/util.rs:87-99 | the byte loop yields the character-by-character escape, so its UTF-8 fallback to the empty string is never taken |
| Percent.EscapeIsCharwise | src/util.rs:87-99 | escaping the bytes of a text is escaping its characters: multi-byte characters are never broken |
| Percent.DecodeField | src/util.rs:101-117 | the index loop, which skips three bytes at a well-formed escape and one otherwise, computes the recursive decoder for every input |
| Percent.RoundTrip | src/util.rs:87-117 | decoding undoes encoding for every text, with tabs, breaks, `%` and non-ASCII |
| Percent.EncodedIsClean | src/util.rs:84-99 | an encoded field holds no control character and no DEL |
| Percent.OrdinaryIsKept | src/util.rs:87-99 | text without control characters, `%` and DEL is stored as it is |
| Percent.SpecialIsEscaped | src/util.rs:87-99 | the characters that may not stand in a field become `%` and two upper-case hexadecimal digits |
| Percent.EscapesRead | src/util.rs:101-117 | an escape is read in either case of its digits, and a `%` without two digits stands for itself |
| Percent.LegacyIdentity | src/util.rs:101-117 | a raw field of an old log, without `%`, is read unchanged |
| Utf8.DecodeEncode | src/util.rs:98 | strict decoding accepts and returns every encoded text |
| Utf8.LossyEncode | src/util.rs:116 | lossy decoding changes nothing in well-formed bytes |
| Utf8.Rfc3629Examples | src/util.rs:87-99 | the examples of section 7 of RFC 3629 |
| Utf8.LossyReplaces | src/util.rs:116 | a stray byte and a character cut short are each replaced once |
| Text.TrimIff | src/api.rs:287 | the trimmed text is the only one around which the text has nothing but white space |
| Text.WhiteSpaceList | src/api.rs:287 | the white space that is trimmed is the 25 characters of the Unicode list |
| Text.CrLfEndsLine | src/renew.rs:94 | a carriage return before a newline belongs to the end of the line |
| Text.LastLine | src/renew.rs:94 | an unterminated last line is taken as it is, a carriage return included |
| Text.ParseUintMeaning | src/store.rs:74-75 | a number may start with `+`; nothing else beside digits, and no number out of range, is read |
| EventLog.RowRoundTrip | src/store.rs:47-82 | every event, whatever its text fields hold, is parsed back from its row |
| EventLog.OneLinePerEvent | src/store.rs:47-64 | a written log has one line per event with six tabs each, so no field can forge or split a row |
| EventLog.RowLayout | src/store.rs:55-64 | the columns of a line, in their order |
| EventLog.CrLfIsRead | src/store.rs:95-100 | a log line that ends in `\r\n` reads as the line without it |
| EventLog.LogRoundTrip | src/store.rs:47-82 | reading back the bytes of any list of events gives exactly that list |
| EventLog.RecordsAfterClean | src/store.rs:95-111 | events of a well-formed beginning are all read, and what follows is read as if it stood alone |
| EventLog.DedupKeyInjective | src/store.rs:43-45 | for 11-character ids and the three kinds, the key tells video, timestamp and kind apart although the timestamp may contain the separator |
| CrashLog.CrashRecovery | src/store.rs:66-69 | for any byte prefix of a torn last line: all earlier events are read, plus one exactly when all six tabs arrived and no character is cut, and that one differs from the torn event in its title only |
| CrashLog.SecondReopenIsDurableIff | src/store.rs:95-120 | events appended behind a torn tail are all read after the next reopen exactly when the tail was empty or complete |
| CrashLog.LostBehindTear | src/store.rs:66-120 | behind a decodable torn tail, appended events are lost as follows: the first one if the tail holds a tab; if it was cut inside the number, the first one gets the number whose digits ran together, or is lost when that overflows; all others survive |
| CrashLog.TearMovesNumbering | src/store.rs:101-105 | that number is larger than the one it hides, and the next open continues above it |
| CrashLog.NumbersIssuedAgain | src/store.rs:96-120 | behind an undecodable tail, or one with a tab and a single later event, the next open starts again at the number that followed the log before the tail |
| CrashLog.NumberingContinuesIff | src/store.rs:101-120 | the next open continues the numbering of the events appended behind a torn tail exactly when the tail was empty or complete, or it decodes and an event behind it keeps a number that the digits run together have not overtaken |
| CrashLog.FailedAppendIsHarmlessIff | src/store.rs:156-160 | after a failed write of `k` bytes, the next append is read as written exactly when `k` is zero |
| CrashLog.CutCharacterHidesLaterEvents | src/store.rs:96-100 | a tail cut inside a character hides everything appended behind it |
| CrashLog.GluedRowDiffers | src/store.rs:66-82 | no non-empty beginning of a row glued in front of another row parses as the other row's event |
| StoreSpec.RewriteClean | src/store.rs:238-256 | compaction of a well-formed log writes the well-formed log of the kept events, and dropping nothing means keeping all |
| Store.Store.Open | src/store.rs:85-131 | opening any bytes gives the next number, window, dedup set and cursor determined by what a reader sees in the files; an empty directory gives number 1, cursor 0 and nothing else |
| StoreSpec.AckMeaning | src/store.rs:116-119 | the cursor is the number in the ack file, white space aside, and zero without a file or beyond 64 bits |
| StoreSpec.AckGarbage | src/store.rs:116-119 | and zero for anything else in the file |
| Store.Store.ReadWindow | src/store.rs:95-111 | the line loop ends with the number after the largest one read and the last 2000 events |
| Store.Store.KeysOf | src/store.rs:112-115 | the dedup set is the key set of the window |
| Store.Store.Append | src/store.rs:135-170 | a duplicate changes nothing; a failed write changes only the open file, by a prefix of the line; a success appends exactly the line to it and updates number, window, dedup set and eviction together |
| Store.Store.EventsAfter | src/store.rs:178-208 | the answer is that of the window when it reaches back to the cursor, of the file otherwise, with the wrapping test of the release build |
| Store.Store.ScanFile | src/store.rs:189-207 | the early-exit loop gives the first `max(max, 1)` newer events of the file |
| Store.Store.SetAck | src/store.rs:210-219 | the cursor becomes the larger of the old one and the acknowledged one, and the file follows it when it grew and the write succeeds |
| Store.Store.MaybeCompact | src/store.rs:224-270 | nothing below 8 MiB or after an I/O error up to the rename, and nothing when no event would go; otherwise the path names a new file with exactly the lines above the larger floor, and the handle follows to it unless the reopen fails |
| Store.Store.Survivors | src/store.rs:236-256 | the copy loop writes the kept lines as they were read and counts the dropped events |
| StoreRuns.AppendKeepsInv | src/store.rs:143-169 | appending with eviction keeps the store invariant: log and window are tails of the history, keys in the window are distinct and equal to the dedup set, near duplicates never occur |
| StoreRuns.AppendedEvent | src/store.rs:147-155 | the event appended has the next number, the time it was received and the fields given |
| StoreRuns.DuplicateIff | src/store.rs:143-146 | a notice is a duplicate exactly when the window holds an event of the same video, timestamp and kind |
| StoreRuns.CompactKeepsInv | src/store.rs:224-270 | so does compaction, although it shortens the log below the window |
| StoreRuns.ReopenRestoresNextSeq | src/store.rs:101-105 | a reopen continues with the number the old process would have used |
| StoreRuns.ReopenKeepsInv | src/store.rs:85-131 | the invariant survives a reopen, even when it shortens the window |
| StoreRuns.RunInv | src/store.rs:135-270 | the invariant holds after every run of appends, acks, compactions and reopens from an empty directory |
| StoreRuns.HistoryGrows | src/store.rs:135-170 | between any two moments of a run, nothing appended is changed or renumbered |
| StoreRuns.SequenceNumbersNeverRegress | src/store.rs:172-174 | between any two moments of a run the history only grows and the largest number never falls; at each moment numbers rise by one, the newest event is in the log, and a reopen continues after it |
| StoreRuns.CompactKeepsNewest | src/store.rs:231-236 | every compaction keeps the newest event ever appended |
| StoreRuns.DedupOverRuns | src/store.rs:112-168 | over every run the dedup set is the window's key set, its keys are distinct, and any 2001 consecutive log events have distinct keys |
| StoreRuns.WindowRefinesFile | src/store.rs:178-208 | from a cursor at or above the compaction floor both paths give the first `max` newer events of the whole history; below it the file path omits exactly the compacted ones |
| StoreRuns.LargestCursor | src/store.rs:180 | the addition that wraps still gives the empty answer |
| StoreRuns.ZeroLimit | src/store.rs:199-202 | a limit of zero gives nothing exactly when the window serves the cursor |
| StoreRuns.OverAckRestartsNumbering | src/store.rs:210-236 | after compacting a large log and reopening, the numbering continues exactly when the ack is less than 1000 beyond the newest event |
| StoreWitnesses.AppendsFillWindow | src/store.rs:135-170 | any number of appends with distinct keys is a legal run from an empty directory, numbers them from 1, and leaves a window of that many events up to its cap |
| StoreWitnesses.ZeroLimitReached | src/store.rs:199-202 | for every cursor more than a window behind, a run after which a limit of zero gives one event |
| StoreWitnesses.OverAckReached | src/store.rs:210-236 | for every ack at least 1000 beyond the newest event, a run whose next compaction and restart count from 1 again |
| StoreWitnesses.RepeatReached | src/store.rs:163-168 | a run that fills the window, after which the same delivery appends again when it is repeated |
| Delivery.DeliveredExactly | src/store.rs:1-5 | at every moment of every run with a consumer that acks at most its cursor and is never too far behind at a compaction, what it received is the history up to its cursor, without gap or repeat |
| Delivery.EmptyDirectory | src/store.rs:85-131 | every run starts with what an open of an empty directory gives |
| Delivery.PollCatchesUp | src/store.rs:178-208 | any poll at any moment advances by the whole limit or to the newest event |
| Delivery.CompactionIsGaplessIff | src/store.rs:231-236 | a compaction of a large log leaves the next poll from behind the window gapless exactly when the consumer is within the retention floor |
| Entities.OneMorePass | src/atom.rs:27-34 | a further replacement after a single-pass decoder is one single pass, whenever earlier replacements cannot make or overlap its entity |
| Entities.SequentialIsSinglePass | src/atom.rs:27-34 | the six replacements equal one left-to-right decoding for every string: nothing is decoded twice |
| Entities.DecodeUndoesEscaping | src/atom.rs:27-34 | decoding undoes every standard escaping of every text (section 4.6 of XML 1.0) |
| Atom.FindChannelId | src/atom.rs:44-60 | the search returns the first marker's well-formed candidate, tried in order |
| Atom.Parse | src/atom.rs:62-142 | the two scans end on every body with every slice in bounds, yield exactly the deletions and then the entries, and only well-formed ones |
| Atom.EntryKeysInjective | src/store.rs:43-45 | for everything `parse` may yield, equal dedup keys mean equal video, timestamp and kind |
| AtomFeed.BetweenTags | src/atom.rs:15-25 | among well-formed tags, a field is the text of the first tag of exactly that name, when its closing tag follows |
| AtomRoundTrip.BlockReads | src/atom.rs:93-131 | an entry element reads back as its entry, whatever the order of its fields, the white space around them, the other tags and the text between them: title unescaped, kind and timestamp told from those timestamps that are present, the channel from the author's address when its tag is missing |
| AtomRoundTrip.HubLayout | src/atom.rs:149-159 | the hub's own layout, with any indentation, any author and white space in its fields, is one of those elements |
| AtomRoundTrip.ItemStep | src/atom.rs:92-139 | one round of the entry scan takes such an element, whatever stands before it, and goes on right behind it |
| AtomRoundTrip.UnclosedEntry | src/atom.rs:94-100 | an entry that is never closed is read to the end of the body |
| AtomMarkers.BetweenIff | src/atom.rs:15-19 | a field is exactly the text between the first opening tag and the next closing one, and there is none without both |
| AtomMarkers.IdShapes | src/atom.rs:37-42 | a video id is 11 and a channel id 24 characters of the URL-safe base64 alphabet, the latter with `UC` in front |
| AtomMarkers.FirstMarkerMeaning | src/atom.rs:44-60 | a channel is found exactly when it starts at the first occurrence of some marker and no earlier marker's first occurrence starts one |
| AtomMarkers.ScanMeaning | src/atom.rs:45 | the same for the three markers by name, in their order |
| AtomMarkers.TopicNamesItsChannel | src/subs.rs:50-55 | the scanner reads a channel back from its topic |
| AtomMarkers.TopicsDiffer | src/subs.rs:50-55 | different channels have different topics |
| AtomDeletions.ChannelReads | src/atom.rs:44-60 | in a deletion element the channel of the author's address is the one found, whatever other tags and texts stand around it |
| AtomDeletions.DeletionReads | src/atom.rs:68-89 | a deletion element reads back as its video and its channel, with any further attributes and any text between its tags |
| AtomDeletions.DeletionReference | src/atom.rs:74-88 | in any deletion block the white space around the video id is dropped, a malformed id drops the deletion, and the channel may be missing |
| AtomDeletions.NoChannelNamed | src/atom.rs:44-60 | it is missing when none of the three markers stands in the block |
| AtomDeletions.UnclosedDeletion | src/atom.rs:69-73 | a deletion that is never closed is read to the end of the body |
| AtomParts.DeletionsRoundTrip | src/atom.rs:65-90 | from a feed of deletions, entries and other tags in any order, the first scan takes exactly the deletions, in order |
| AtomParts.RegularsRoundTrip | src/atom.rs:92-139 | and the second scan exactly the entries, in order |
| AtomParts.FeedRoundTrip | src/atom.rs:62-142 | scanning such a feed gives exactly its deletions and then exactly its entries |
| Notify.HandleNotify | src/callback.rs:124-172 | an unauthenticated body changes nothing; otherwise store and open file are those of appending the body's entries in order under the subscription's channel, failures included; if no path names that file, what a reader sees stays the same |
| Notify.AppendAll | src/callback.rs:146-169 | the loop goes on after a failed append, and keeps a well-formed log well-formed when none fails |
| Notify.NotifiedIsAttempts | src/callback.rs:146-169 | the store's steps of a delivery are appends and refused appends of the store model, in the order of the body |
| Notify.StoredIff | src/callback.rs:161-169 | whatever writes fail, an entry is in the history after an acknowledged delivery exactly when it was before, or a write that succeeded carried its key |
| Notify.NotificationIsStored | src/callback.rs:144-169 | for every delivery and any failures: the history only grows, each entry is stored exactly under that condition, and the added events are entries of the body, each once and in order, with the next numbers, the times received, their own kind, video, timestamp and title, and the subscription's channel |
| Notify.HeldIff | src/callback.rs:144-169 | afterwards an event of an entry's video, timestamp and kind is in the history exactly when one was before or the write of such an entry succeeded |
| FeedToHistory.FeedIsStored | src/callback.rs:144-169 | from the bytes of a feed to the history: everything it tells is kept, and each added event has the fields of one of its parts and the subscription's channel |
| Notify.SilentIff | src/store.rs:143-146 | a delivery changes nothing exactly when the dedup set holds the key of each entry whose write would succeed |
| Notify.RedeliveryIsSilent | src/store.rs:143-168 | while the window has room, a repeated delivery adds nothing but what failed the first time |
| Notify.RedeliveryRepeats | src/store.rs:163-168 | with a full window a repeated delivery can append an event again |
| Notify.DetachedAnswers | src/store.rs:178-270 | after a compaction that could not reopen its file, polls served by the window are complete, and all others get only what had been appended before |
| Notify.DetachedNumbering | src/store.rs:101-105 | a restart then continues where that compaction stood, so the numbering goes on exactly when nothing was appended since |
| SubsSpec.InsertKeepsIndexIff | src/subs.rs:207-210 | inserting keeps the two-way index exactly when it supersedes no token and takes none over |
| SubsSpec.UpdateKeepsIndex | src/subs.rs:213-223 | updating keeps the index and drops a superseded token |
| SubsSpec.RemoveKeepsIndex | src/subs.rs:227-237 | removing keeps the index and keeps live and buried tokens apart |
| SubsSpec.SweepingIsInvisible | src/subs.rs:250-257 | through any operations, a registry that sweeps and one that never does answer alike at the current and every later time |
| SubsSpec.UnsubscribeGrace | src/subs.rs:227-257 | a removed token answers with its topic for exactly 900 seconds, through any later operations but its own confirmation |
| SubsSpec.RowRoundTripIff | src/subs.rs:118-160 | a registry row reads back, with its error cut to 200 characters, exactly when no raw column holds a tab |
| SubsSpec.LegacyRowLoads | src/subs.rs:142-160 | ten-column rows load with an empty error |
| SubsSpec.SubRowLayout | src/subs.rs:118-133 | the columns of a row, in their order |
| SubsSpec.OtherWidths | src/subs.rs:142-160 | fewer than ten columns are no row, and what follows the eleventh is ignored |
| SubsSpec.ErrorCut | src/subs.rs:86-92 | an error of up to 200 characters is kept as it is, a longer one is cut there |
| SubsSpec.LoadAfterSave | src/subs.rs:163-198 | if no text column holds a tab or a newline, loading what was saved gives the same subscriptions, errors cut to 200 characters, and the same token index, in whatever order the map was written |
| SubsSpec.LoadAfterSaveIff | src/subs.rs:163-198 | and only if: a registry survives its file exactly when no text column of any record holds a tab or a newline |
| Lifecycle.BackoffBounds | src/renew.rs:36-40 | the base wait doubles up to 1800 s, and jitter only extends it, by at most a quarter |
| Lifecycle.BackoffTable | src/renew.rs:36-40 | the bases are 30, 60, 120, 240, 480, 960 and then 1800 s, and every jitter up to a quarter is reached |
| Lifecycle.NextWaitIsLonger | src/renew.rs:30-40 | until the cap, each wait is longer than the one before, whatever is drawn |
| Lifecycle.VerdictMeaning | src/renew.rs:239-245 | only a status from 200 to 299 accepts, every other one is a refusal with its code, a transport error one with its first 200 characters |
| Lifecycle.AttemptMeaning | src/renew.rs:325-348 | what one attempt changes in a record and what it leaves, for each kind of reply |
| Lifecycle.RefusalsInARow | src/renew.rs:325-348 | refusals in a row are counted, and the wait after the n-th is 30 s doubled n times, half an hour at most, and up to a quarter more |
| Lifecycle.UnsubscribeCompletes | src/callback.rs:53-70 | after a removal the hub's unsubscribe check is confirmed exactly during the grace period, and a subscribe check on that token never is |
| Registry.Registry.Load | src/subs.rs:163-180 | the loaded maps are those of reading the rows in order, an unreadable file giving an empty registry |
| Registry.Registry.ReadRows | src/subs.rs:163-180 | the row loop builds both maps together |
| Registry.Registry.Save | src/subs.rs:182-198 | the file becomes one row per subscription in some order, or stays as it was |
| Registry.Registry.Insert | src/subs.rs:207-210 | the record answers to its token, tombstones are untouched, and the index is kept for an absent channel and an unused token |
| Registry.Registry.Update | src/subs.rs:213-223 | the record answers to its token, a superseded token is gone, and the index is kept unless the token was another channel's |
| Registry.Registry.Remove | src/subs.rs:227-237 | the record is returned, both maps lose it, the index is kept, and its token answers with its topic for exactly the grace period |
| Registry.Registry.ForgetUnsub | src/subs.rs:250-253 | that token answers no more, and no other answer changes now or later |
| Registry.Registry.SweepUnsub | src/subs.rs:255-257 | no answer changes now or later, and no token past its grace period is kept |
| Registry.Registry.Activate | src/callback.rs:100-109 | the current record of the channel becomes active for the shorter of the requested and the configured lease, forgets its failures, keeps the rest, and is saved |
| Registry.Registry.HandleVerify | src/callback.rs:72-122 | the challenge is echoed exactly for the right topic, a challenge, the right token or none, and one of the two modes; without an echo nothing changes; a subscribe activates for the shorter of the lease it names and the configured one |
| Registry.Registry.FinishUnsubscribe | src/callback.rs:53-70 | a buried token is confirmed exactly for an unsubscribe of its topic with a challenge inside the grace period; then only its own answers change, otherwise nothing |
| Registry.Registry.MergeAttempt | src/renew.rs:141-157 | a snapshot is stored only over the same token, in full but for state, expiry and lease of an active record |
| Registry.Registry.ExpireLapsed | src/renew.rs:273-295 | exactly the active records whose lease ran out become expired, nothing else changes, and they are saved if there are any |
| Registry.Registry.RenewCandidates | src/renew.rs:300-319 | of the records whose next attempt is due: the active ones with at most a day of lease left, the pending ones asked for more than 600 s ago, all failed and lapsed ones, none twice |
| Registry.Registry.Health | src/api.rs:47-59 | the four counters partition the registry, and the active one is the live count |
| Passes.Attempt | src/renew.rs:325-348 | one renewal's record, for every reply of the hub |
| Passes.RenewDue | src/renew.rs:297-354 | an undisturbed pass demotes every lapsed record, attempts every due one exactly once, and changes nothing else |
| Passes.AfterPassMeaning | src/renew.rs:297-354 | what an undisturbed pass makes of every record: which are left alone, which are demoted, for which the hub is asked, and what state each ends in |
| Passes.AddOne | src/renew.rs:189-208 | at the moment the hub is asked the channel is registered and answers to its token; a refusal is then stored over it |
| Passes.FirstMeaning | src/renew.rs:185-208 | the first record of a new channel, after an accepted and after a refused request |
| Passes.RemoveAll | src/renew.rs:212-226 | exactly the planned channels go, and the index is kept |
| Passes.ReconcileLocked | src/renew.rs:159-231 | an undisturbed reconcile leaves surviving records alone, gives each new channel its first record, ends with exactly the planned channels, and returns the accepted, removed and delivering counts |
| ProtocolSteps.StepKeepsInv | src/renew.rs:141-354 | every step of every thread keeps the protocol invariant |
| ProtocolSteps.RenewMergeStep | src/renew.rs:141-157 | writing back a renew snapshot keeps it, however old the snapshot is |
| ProtocolSteps.ExpireStep | src/renew.rs:273-295 | so does demotion, with a reconcile and verifications in flight |
| ProtocolTheorems.RunInv | src/callback.rs:18-122 | the invariant holds at every moment of every interleaving, restarts included |
| ProtocolTheorems.MergeNeverOverrides | src/renew.rs:141-157 | a stale write-back never demotes a verified subscription, never revives a lapsed one, and never replaces an active one's expiry or lease |
| ProtocolSteps.GoodIsClean | src/subs.rs:58-72 | every record of the program fits the registry file |
| ProtocolSteps.ReloadedIs | src/subs.rs:163-180 | what a new process reads from the file is exactly what was saved last, errors cut to 200 characters |
| ProtocolTheorems.ActivationDiscipline | src/callback.rs:91-109 | at every step, restarts included: a subscription becomes active only by a subscribe verification for its channel with the topic, a challenge and the token it was found by, or a restart that loads it as active, and stops being active only by a lapsed lease, a removal, or a restart that loads it as something else |
| ProtocolTheorems.RestartActivity | src/renew.rs:294 | after a restart a channel is active exactly when its saved record was, and was verified at some earlier step; nothing changes if the last changes had been saved |
| ProtocolTheorems.SavedIsCurrent | src/subs.rs:182-198 | in every interleaving in which each save succeeded, the file holds the registry at every moment outside a reconcile |
| ProtocolTheorems.RestartKeepsRecords | src/subs.rs:163-198 | so a restart at such a moment changes no record but for the cut of its error |
| ProtocolTheorems.NeverStranded | src/renew.rs:297-319 | every record has one of the four states, an active one has an expiry, and its next attempt is at most 2250 s away |
| ProtocolTheorems.LapsedIsSelected | src/renew.rs:300-319 | a pass takes up every subscription whose waits and lease are over when it starts |
| ProtocolTheorems.SelectedIff | src/renew.rs:300-319 | in every run, a pass takes up an active record exactly when at most a day of its lease is left, a pending one exactly when it was asked for more than 600 s ago, and every failed or lapsed one, each only from its next attempt on |
| ProtocolTheorems.RenewedInTime | src/renew.rs:18-21 | if passes are at most 84150 s apart, a record left alone is taken up before its lease ends |
| ProtocolTheorems.DeadIsRetried | src/renew.rs:273-319 | a record that is not delivering and otherwise left alone is taken up by every pass that starts 2250 s after it was seen |
| ProtocolTheorems.VerifiedIsReal | src/callback.rs:91-109 | the bookkeeping of last verifications names real verification steps and their times, at which the channel was registered |
| ProtocolTheorems.ExpiryIsGranted | src/callback.rs:91-109 | every expiry of an active record, in memory and in the file, is within the lease that some verification of the channel named and within the configured one |
| ProtocolTheorems.LeaseSoundness | src/renew.rs:253-258 | a subscription counted as delivering was verified, while registered, less than the configured lease ago and less than the lease named at that verification ago, whatever was merged or reloaded since |
| ProtocolTheorems.RegistryIndex | src/subs.rs:200-237 | at every moment both maps are mutually inverse, no token is live and buried, and insertion happens only for an absent channel |
| ProtocolPasses.PassBeginsAlone | src/renew.rs:297-319 | the steps that begin a pass demote and take up what the program does |
| ProtocolPasses.RenewAlone | src/renew.rs:325-352 | the steps for one candidate leave the record that the program leaves, and nothing else changes |
| ProtocolPasses.AddAcceptedAlone | src/renew.rs:185-198 | the steps for a new channel that the hub accepts leave what the program leaves |
| ProtocolPasses.AddRefusedAlone | src/renew.rs:185-208 | and so do those for one that it refuses |
| ProtocolRuns.TokenWhileInFlight | src/callback.rs:18-43 | while a request is in flight, its channel keeps the token it was found by exactly until a reconcile removes the channel |
| ProtocolRuns.ActivatesOwnTokenIff | src/callback.rs:100-109 | a request activates the subscription it was found by exactly when no reconcile removed the channel between lookup and activation |
| ProtocolRuns.TokenAnswersIff | src/renew.rs:189-195 | from the insertion before the hub is asked, whatever runs beside, a token answers exactly until a reconcile removes its channel or the process stops |
| ProtocolRuns.StaleVerification | src/callback.rs:100-109 | for any channel and tokens, a run from a first start in which a request found by one token activates its successor |
| ProtocolRuns.LapseForgotten | src/renew.rs:294 | for any channel and token, a run from a first start in which a lapse whose save failed is undone by a restart, with no verification in between |
| ReconcileTheorems.ReconcileReachesDesired | src/renew.rs:159-231 | under every interleaving, a reconcile that no restart cuts off ends with exactly the desired set if that is complete; with an incomplete one nothing is removed; survivors keep token and secret |
| ReconcileTheorems.ReconcileIsIdempotent | src/renew.rs:159-231 | a second run on the same set has nothing to add or remove |
| ReconcileTheorems.OnlyReconcileChangesChannels | src/renew.rs:141-354 | no other step of a running process changes which channels are registered, and a restart brings back exactly the channels saved last |
| Json.Render | src/util.rs:181-197 | the character loop writes the quoted escape of the text |
| Json.QuoteIsJson | src/util.rs:181-197 | any reader of JSON (section 7 of RFC 8259) gets every string back from what is written |
| Json.ExtractStringArray | src/api.rs:247-296 | the two index loops read exactly the literals inside the first brackets, trimmed, blanks left out, for every text |
| Json.LiteralsChars | src/api.rs:258-293 | every string read is trimmed, not blank, and made of characters that stand in the text or of unescaped breaks |
| Json.StringsOfElements | src/api.rs:247-296 | of a written array the strings are read without the white space around them, blank ones left out, in order |
| Json.OpenArray | src/api.rs:248-254 | without `[` nothing is read, without `]` the array reaches to the end |
| Json.OpenString | src/api.rs:258-289 | a string that is never closed counts as well |
| Json.BackslashIsRead | src/api.rs:265-276 | what a backslash makes of each character behind it |
| Json.StringsOfElementsIff | src/api.rs:247-296 | reading a written array, with any text free of `"` and `]` around its strings, gives the written list exactly when each string is trimmed, not blank, and free of `]` and of numerically escaped characters |
| Channels.CleanIsCharwise | src/api.rs:234-236 | the byte test of a safe entry is the same test on characters |
| Channels.RenderChannelsFile | src/api.rs:214-230 | the loops write the old comment and blank lines and then the new entries |
| Channels.RereadEntries | src/renew.rs:95-99 | reading the rendered file gives the written entries without those that look like comments, whatever the old file held |
| Channels.FileMeaning | src/renew.rs:94-99 | however a file is indented, and whether its lines end in `\n` or `\r\n`, its entries are its trimmed lines but blank ones and comments |
| Channels.PipelineGives | src/api.rs:154-165 | what a posted list becomes in reconcile, whatever white space stands in it: the entries without it that are not blank, hold no control character and do not start with `#` |
| Channels.CommentsSurviveIff | src/api.rs:214-230 | comments and blank lines stay in order, and verbatim exactly when none ends in a stray carriage return |
| Channels.PipelineIff | src/api.rs:154-165 | from posted body, however spaced, to what reconcile acts on, the list survives exactly when each entry is trimmed, not blank, safe, without `]` and not starting with `#` |
| Channels.ResolvedMeaning | src/renew.rs:100-106 | the desired list holds exactly the ids that entries resolved to, none twice |
| Channels.DesiredSet | src/renew.rs:75-117 | the loop gives that list, and is complete exactly when the file was readable and every entry resolved |

## Left out

- HTTP, TLS, sockets, the worker pool, query and configuration decoding, the bearer token, status codes and logging: plumbing around the modelled state.
- HMAC-SHA1: whether a body is authentic is an input of `HandleNotify`.
- Resolution of handles and URLs: what an entry resolves to is an input of `DesiredSet`; the cache and its file only avoid requests.
- Randomness: tokens and secrets are inputs without tabs and newlines (the program draws hex digits), tokens are not in use yet, draws are any number. Likewise desired channels are free of tabs and newlines, because `is_channel_id` accepts no others.
- ProtocolTheorems.RenewedInTime: passes themselves may start at any time; that they are close enough is asked of the run.
- ProtocolPasses.RenewAlone: one candidate at a time; a whole undisturbed pass is `Passes.RenewDue`.
- ProtocolRuns.TokenAnswersIff: up to the next restart, which brings back the tokens saved last.
- ProtocolRuns.ActivatesOwnTokenIff: the request is in flight within one process; a restart drops all requests.
- fsync and rename: a rewritten file is the old one or the new one; a failed append leaves any prefix of its line.
- Notify.DetachedNumbering: deliveries only; a later compaction that drops something brings the handle back to the path (`Store.Store.MaybeCompact`), with the events between missing from the file.
- StoreRuns.RunInv: compactions reopen their file; runs start from an empty directory and failed appends leave nothing behind in the file; what torn lines do is the subject of `CrashLog`.
- Notify.StoredIff: speaks of what the store took in; the bytes a failed write leaves in the file are in `Notify.HandleNotify`, and what they do to the next row is in `CrashLog`.
- StoreRuns.OverAckRestartsNumbering: the invariant is asked of the store without its ack, because an ack that far ahead is what breaks it.
- Passes.RenewDue: runs without other threads in between, which `Protocol` models instead; there the two passes are steps over values, not loops.
- Passes.ReconcileLocked: likewise; the time each tombstone gets is stated by `Registry.Registry.Remove` only.
- Registry.Registry.HandleVerify: covers one request from its lookup on; what happens to the registry between lookup and activation is in `Protocol`.
- The protocol's steps for requests on buried tokens forget any token at any past time, which is more than the code does.
- The spacing between hub requests, the tick loop of the renew thread and its detection of a changed channels file: only when passes start, which the model leaves open.
- Notify.RedeliveryIsSilent: gives a sufficient condition on the window before the first delivery; the exact one, on the state between the deliveries, is `Notify.SilentIff`.
- AtomParts.FeedRoundTrip: each deletion has its author's address and its reference as first attribute (`AtomDeletions.DeletionReference` is about any other), fields are without nested tags and titles, published and updated without a `yt:` twin; for arbitrary bodies `Atom.Parse` states what is yielded.
- Byte offsets into UTF-8 text: the scanner's offsets are counted in characters here; every slice of the source starts and ends at an ASCII pattern.
- Debug builds, where `after + 1` and `fail_count + 1` would panic on overflow: the release behaviour, which wraps, is modelled.
- `extract_u64`, `url_decode`, `hex_decode`, `ct_eq` and the JSON responses of the API: short and stateless.
