# Capture store and stream capture: a verified model

The debug proxy relays HTTP exchanges and records each one. This project models the part that records: the
two-tier store (entries in flight in memory, finished ones as rows of a table, oversized bodies as files), the reader
that cuts an upstream response into fragments on its way to the client, the broker that fans events out, the merged
and paged listing, the sweeper, and the list a connected page keeps. It proves what each operation computes, what
every run of operations keeps, and what survives crashes and interleavings.

There are two levels.

* **Atomic steps.** `StoreSpec.dfy` gives every store method as a function on a value: memory, table, blob directory
  and published events. `Store.dfy` is the store as the source writes it, classes updating fields in place, and each
  method is proved equal to its function. `Archive.dfy` is what callers believe the store to be, one map from id to
  entry and full bodies, and the value level is proved to refine it over every run.
* **Small steps.** `Crash.dfy` splits the disk writes so that the process may die between any two of them;
  `Interleaving.dfy` splits `Finalize`, `Get`, `List` and `Clear` at their lock and database boundaries, so that any
  number of calls may overlap. `FinalizeSteps.dfy`, `AtomicSteps.dfy` and `CallSteps.dfy` prove that the small steps of
  one operation, taken in order and undisturbed, are the atomic operation.

| file | contents |
|---|---|
| `Types.dfy` | bytes, times in integer nanoseconds, entries, events |
| `RowCodec.dfy` | an entry as a row and back |
| `BodyBuffer.dfy` | the spilling body buffer and the blob directory |
| `Memory.dfy` | entries in flight |
| `Database.dfy` | the `requests` table with its statements |
| `StoreSpec.dfy`, `Store.dfy` | the store as a value, and as classes |
| `Archive.dfy` | the single map the store refines |
| `Broker.dfy` | subscriptions, bounded queues, cut-off |
| `Listing.dfy`, `ListRequest.dfy` | merge, cursor, paging, and the list request with its parameters |
| `Limits.dfy` | the two limits a store is opened with |
| `Capture.dfy`, `CaptureReader.dfy` | formats, lines, previews, and the reader |
| `Message.dfy` | which format is read off a body, and the message a stream spells |
| `EndToEnd.dfy`, `Exchange.dfy` | upstream bytes to served body, and whole exchanges up to their Close |
| `Mirror.dfy` | the list of a connected page |
| `PageGaps.dfy` | the properties an update event leaves out, of which the page does not keep all in step |
| `PageOrder.dfy` | where its rows stand |
| `PageFeed.dfy` | a page fed through its channel, and an answer taken over in time |
| `LoadRace.dfy` | an answer taken over late: when it does harm, and which |
| `Sweep.dfy` | the sweeper against the clock |
| `Crash.dfy` | crashes between any two disk writes |
| `FinalizeSteps.dfy`, `AtomicSteps.dfy` | the disk steps of one operation as that operation |
| `Interleaving.dfy`, `CallSteps.dfy` | overlapping calls, and the steps of one call as the operation |

`dafny verify dfyconfig.toml` checks the project.

## Assumptions

The code does not support stronger claims, so these are stated where they matter, and where the code falls short the
exact condition is proved.

* Ids handed to `Put` are new (`Enabled` in `StoreSpec.dfy`, `Register` in `Crash.dfy`). I/O succeeds.
* `Clear` empties the whole blob directory, files of pending entries included. It is exact if and only if no pending
  body has spilled (`Archives.ClearExact`, `Archives.ClearLosesPendingBody`), and runs containing it assume just that.
  In `Crash.dfy` nothing else runs while `Clear` removes files; `Crashes.WipedBeforeRow` shows why.
* `Clear` asks for the ids of the rows and then deletes every row. An id whose row it deletes goes unannounced exactly
  if it had no row when the ids were asked for (`Interleaving.ClearAnnounces`), which, where ids are registered once and
  no two `Finalize` calls overlap on one, means exactly if its row was inserted between the two statements
  (`Interleaving.UnannouncedIffInsertedBetween`). A run that does so is `Interleaving.ClearIsSilent`.
* A buffer written after it was closed keeps its body if and only if it had not spilled (`BodyBuffers.LateWrite`).
* Two overlapping `Finalize` calls on one id can both insert its row, and a row deleted in between comes back
  (`Interleaving.DeletedRowComesBack`, a run of eight steps). Where ids are registered once, each id is inserted at
  most once and stays deleted if no `Finalize` begins on it while another one has not yet dropped the memory copy
  (`Interleaving.FirstFinalizeWins`), and whenever one does begin then, both can write the row
  (`Interleaving.OverlapWritesTwice`).
* `Crash.dfy` has one `Finalize` per id, its phases only moving forward, and no write to a closed buffer. What a row
  would give back otherwise is proved apart: `Crashes.WipedBeforeRow` for a row written after its files were removed,
  as a second `Finalize` can, and `Crashes.LateWriteUnderRow` for a write after Close.
* `List` reads the table and then memory. As one atomic step it is exact; otherwise it misses an entry exactly if the
  entry moved from memory to the table between the two reads (`Interleaving.ListMisses`; `Interleaving.ListOverlooks` is
  a run in which one did).
* A cursor equal to Go's zero time means no cursor, and cursors have millisecond resolution; the page after an entry
  is right exactly when the next entry started in an earlier millisecond and the cursor is not the zero time
  (`Listing.NextPage`).
* The page keeps ids, status, status code and durations in step. An update event carries nothing else, so the error
  that the list shows as a tooltip, the response format and what is known from the request stay as they were when the
  row was created or loaded. After every store method they are those of the store exactly if the method left them
  unchanged, for each entry it still keeps (`PageGaps.PropMirroredIffGuard`, with the guard of each method); after every
  run exactly if each entry holds the value it was put with (`PageGaps.RunMirrorsProp`). An entry swept without an
  answer shows no error (`PageGaps.SweptErrorIsNotShown`).
* A new row goes to the top of the page whenever it started, so the page stays newest first exactly if what is put is
  the newest and no edit moves a start (`PageOrder.StepOrders`).
* The page's first load asks for 200 entries and is complete exactly when no more are known (`Mirror.LoadMirrors`).
  `Mirror.PageMirrorsStore` takes loading and subscribing as one instant. The page in fact starts both at once, and
  the answer replaces whatever events have put into its list, so events later than the answer that were handled before
  it was taken over are lost. With none of those the page mirrors the store (`PageFeed.LoadWhileConnected`). With any
  number, and no id put twice, it mirrors the store exactly if for every id no creation is among them if the id is
  known in the end, no deletion is among them if it was known when the answer was made up, and it looks the same both
  times if it is known both times and no update of it follows (`LoadRace.TakeOverMirrors`). What is wrong otherwise is
  said entry by entry: a row is missing, is shown though deleted, or shows an old status
  (`LoadRace.LateAnswerErrors`), and each of the three happens (`LoadRace.MissingRow`, `LoadRace.GhostRow`,
  `LoadRace.StaleRow`).

Clocks, random ids, the time of each call and the iteration order of Go maps are parameters. A method whose source
reads the clock several times reads it once here.

## Model

| member | source | states |
|---|---|---|
| RowCodec.RowRoundTrip | internal/store/sqlite.go:211-258 | reading a stored entry back gives it with times floored to milliseconds, empty headers absent and a spilled preview dropped, exactly when each side has a path precisely if it spilled |
| RowCodec.EncodeIdempotent | internal/store/sqlite.go:85-112 | storing what was read back writes the very same row, and the path condition survives the trip |
| RowCodec.EncodeSeparates | internal/store/sqlite.go:92-107 | two entries share a row exactly when they agree up to that normal form |
| RowCodec.MilliRoundTrip | internal/store/sqlite.go:239 | a time read back is the last whole millisecond not after the original |
| BodyBuffers.OwnerOfBlobName | internal/store/blobs.go:67-73 | a file name leads back to the id it was built from, for every id but the empty one |
| BodyBuffers.BlobNamesDiffer | internal/store/blobs.go:28-30 | different ids or sides never share a file |
| BodyBuffers.WriteAllHolds | internal/store/blobs.go:96-140 | after any writes with concatenation w the size is its length, the preview its first maxInline bytes, it is spilled exactly if longer, and then the file holds w; no other file changed |
| BodyBuffers.ChunkingIndependent | internal/store/blobs.go:96-140 | two ways of cutting the same bytes into writes leave the same buffer and the same directory |
| BodyBuffers.LateWrite | internal/store/blobs.go:108-124 | a write after Close keeps the body intact exactly if the buffer had not spilled |
| BodyBuffers.BodyBuffer.Write | internal/store/blobs.go:96-140 | buffer and directory change as the write function says, for inline, spilling and already spilled bodies |
| BodyBuffers.BodyBuffer.Close | internal/store/blobs.go:142-150 | closes the handle and leaves preview, size and path |
| BodyBuffers.BodyBuffer.State | internal/store/blobs.go:154-158 | preview, path, size, and spilled exactly when there is a path |
| BodyBuffers.BlobDir.RemoveFor | internal/store/blobs.go:37-41 | both body files of an entry are gone and nothing else |
| BodyBuffers.BlobDir.RemoveAll | internal/store/blobs.go:43-54 | the directory is empty |
| BodyBuffers.BlobDir.RemoveOrphans | internal/store/blobs.go:58-78 | exactly the files whose owner is known remain, unchanged |
| BodyBuffers.BlobDir.Create | internal/store/blobs.go:114 | the named file exists and is empty, the others are as before |
| BodyBuffers.BlobDir.Append | internal/store/blobs.go:119-128 | bytes go to the end of an existing file; written through the handle of an unlinked one they are lost to the directory |
| BodyBuffers.BlobDir.Remove | internal/store/blobs.go:39 | the file is gone; a missing one is ignored |
| Memory.LiveEntry.Settle | internal/store/store.go:247-261 | the edit applies first; then pending becomes done, and the end and the total duration are filled in only where missing |
| Memory.SettledIsComplete | internal/store/store.go:247-261 | a finished entry is not pending, has an end and a total, keeps whatever the caller's edit decided and every other field as the edit left it, and a total not decided is the time from start to end in whole milliseconds |
| Memory.LiveEntry.TakeSnapshot | internal/store/memory.go:105-113 | the entry with the current state of both buffers |
| Memory.LiveEntry.constructor | internal/store/memory.go:29-34 | the entry as given, two empty buffers named after its id and their side, and the time it was last active |
| Memory.LiveEntry.Update | internal/store/memory.go:91-96 | the entry is what the caller's edit made of it, the id held fixed, and counts as active now |
| Memory.LiveEntry.Touch | internal/store/memory.go:98-102 | the entry counts as active now, and nothing else changes |
| Memory.LiveEntry.Finish | internal/store/store.go:247-263 | the entry is settled and both buffers are closed |
| Memory.MemStore.Delete | internal/store/memory.go:48-52 | this entry is gone and the others are untouched |
| Memory.MemStore.Put | internal/store/memory.go:28-39 | the entry is registered with fresh empty buffers that no other entry shares |
| Memory.MemStore.WriteResponse | internal/store/store.go:214-221 | only this entry's response and last activity change |
| Memory.MemStore.WriteRequest | internal/store/store.go:203-208 | only this entry's request changes, and its last activity does not |
| Memory.MemStore.Update | internal/store/store.go:230-235 | only this entry changes, and the snapshot returned shows the edit |
| Memory.MemStore.Finish | internal/store/store.go:247-265 | only this entry is settled and closed, and the snapshot returned is the one to be written |
| Memory.MemStore.Retracked | internal/store/memory.go:28-39 | a change to one entry cannot show in another, because they share no buffer |
| Memory.MemStore.StaleIds | internal/store/memory.go:75-89 | lists each entry idle for longer than the timeout once, and no other |
| Memory.MemStore.List | internal/store/memory.go:55-72 | snapshots of the entries the cursor lets through, in the order the map was iterated |
| Database.InsertKeepsOrder | internal/store/sqlite.go:85-112 | a new row keeps the table newest first and keyed by id, and adds its id only |
| Database.SqlDB.Insert | internal/store/sqlite.go:85-112 | the row replaces any row of the same id and takes its place in start order, after the rows at least as recent |
| Database.SqlDB.Get | internal/store/sqlite.go:121-128 | the decoded row of that id, or none |
| Database.SqlDB.List | internal/store/sqlite.go:130-152 | the first `limit` rows before the cursor, newest first |
| Database.SqlDB.OverflowIds | internal/store/sqlite.go:172-189 | the ids beyond the first maxEntries rows, in order |
| Database.SqlDB.ApplyRetention | internal/store/sqlite.go:156-169 | deleting the victims one by one leaves exactly the first maxEntries rows |
| Database.SqlDB.Clear | internal/store/sqlite.go:191-204 | no row is left, and each deleted id is reported once |
| StoreSpec.Effective | internal/store/store.go:142-147 | a positive limit is taken as given, and both limits are positive whatever was given; Limits.LimitsAsGiven says what they do |
| Limits.LimitsAsGiven | internal/store/store.go:142-170 | after every run of a store opened on any rows and files, a body captured since is in a file exactly if it is longer than the inline limit asked for, or than 1 MiB if that was not positive; and a Finalize leaves one row more, but no more than the cap asked for, or 1000 |
| StoreSpec.StepKeepsInv | internal/store/store.go:182-360 | after every method, memory and table share no id, the table is keyed by id and newest first |
| StoreSpec.PutRegisters | internal/store/store.go:182-199 | after Put, Get finds the entry under its id with empty bodies; only an absent id, start or status was filled in, the status as pending, and no other entry changed |
| StoreSpec.UpdateEdits | internal/store/store.go:229-238 | after an Update, Get gives what the caller's edit made of the entry with its bodies as they were, the event carries just that, and every other entry is as before |
| StoreSpec.FinalizeEdits | internal/store/store.go:242-282 | after a Finalize, an entry still kept is what the caller's edit made of it, with status, end and total filled in where left open, times in whole milliseconds and empty headers absent |
| StoreSpec.FirstFinalizeWins | internal/store/store.go:242-246 | once an entry was finalized, writing to it, updating it or finalizing it again changes nothing |
| StoreSpec.FinalizeKeepsInv | internal/store/store.go:263-280 | the same for Finalize, and at most maxEntries rows are left |
| StoreSpec.TrimDropsOldest | internal/store/store.go:273-280 | no purged row is newer than a kept one, only purged ids are reported, and rows are purged only down to the cap |
| Stores.Store.constructor | internal/store/store.go:138-170 | an opened store has the limits asked for where they are positive, holds the rows found, and exactly the files whose owner has a row |
| Stores.Store.Put | internal/store/store.go:182-199 | state after Put: id, start and status defaulted, entry in memory with empty bodies, created published |
| Stores.Store.SetRequestBody | internal/store/store.go:202-209 | the request buffer and its file take the body; an unknown id changes nothing and is reported |
| Stores.Store.AppendResponse | internal/store/store.go:213-226 | the response takes the chunk, the entry is touched, and a non-empty chunk is published if asked |
| Stores.Store.Update | internal/store/store.go:229-238 | the edited entry is kept, touched and published |
| Stores.Store.Flush | internal/store/store.go:247-270 | the entry is settled, its buffers closed, its row written and its memory copy dropped |
| Stores.Store.Record | internal/store/store.go:266-270 | the row is written and the memory copy dropped |
| Stores.Store.Move | internal/store/store.go:247-271 | the same as Flush, and the finished entry announced |
| Stores.Store.Purge | internal/store/store.go:277-280 | both files of a purged entry go, and its deletion is announced |
| Stores.Store.PurgeAll | internal/store/store.go:277-280 | the same for every purged entry, announced in order |
| Stores.Store.Retain | internal/store/store.go:273-280 | rows beyond the cap go with both files each, and each is announced |
| Stores.Store.Finalize | internal/store/store.go:242-282 | state after Finalize: the move to the table followed by the retention pass; an unknown id changes nothing |
| Stores.Store.Get | internal/store/store.go:285-290 | memory first, then the table, else not found |
| Stores.Store.Body | internal/store/store.go:313-330 | the file if there is a path (an error if it is missing), else the inline bytes, with the announced size |
| Stores.Store.List | internal/store/store.go:294-310 | the merged list of memory and the newest rows, for the order in which the map was iterated |
| Stores.Store.Clear | internal/store/store.go:333-345 | no rows, no files, and one deletion announced per row |
| Stores.Store.SweepPending | internal/store/store.go:349-360 | each idle entry is finalized in turn, and their number returned |
| Archives.StoreRefinesArchive | internal/store/store.go:182-360 | over every run, Get and Body answer as a single map from id to entry and full bodies that evicts only finished entries; which tier holds an entry shows only in the table's normal form |
| Archives.StepSimulates | internal/store/store.go:182-360 | each operation changes the store as it changes the single map |
| Archives.ObservationsAgree | internal/store/store.go:285-330 | in related states Get and Body give the same answer, errors included |
| Archives.ClearExact | internal/store/store.go:333-345 | Clear acts as on the single map if and only if no pending body has spilled |
| Archives.ClearLosesPendingBody | internal/store/blobs.go:43-54 | after Clear a pending body can no longer be read exactly if it was larger than the inline limit |
| Archives.ReopenKeepsHistory | internal/store/store.go:166-168 | opening the store again keeps every finished entry with its full bodies, and nothing else |
| Archives.FileOwnership | internal/store/store.go:273-280 | in every reachable state the directory holds exactly the spilled sides of the entries Get finds |
| Brokers.DoKeepsConsistent | internal/store/events.go:40-96 | every action keeps all channels open exactly while subscribed, queues bounded and windows contiguous |
| Brokers.SubscriberWindow | internal/store/events.go:26-73 | in every run, received plus queued is a contiguous stretch of the events published since the subscription, up to the present while subscribed, with at most 256 queued |
| Brokers.ChannelLifetime | internal/store/events.go:59-82 | a closed channel is never closed again nor sent to and stays closed; publishing closes one only if its queue is full |
| Brokers.SubscribersAfter | internal/store/events.go:40-96 | a channel is subscribed after an action exactly if it just subscribed to an open broker, or was subscribed and is not closed by the action; one with room has the event; only CloseAll closes the broker |
| Brokers.ClosedForGood | internal/store/events.go:40-96 | over any run from its closing on the broker stays closed, has no subscribers, publishes nothing, and hands out only closed empty channels |
| Brokers.ClosedAtMostOnce | internal/store/events.go:40-96 | over any run each channel is closed at most once |
| Brokers.WindowFromHere | internal/store/events.go:40-96 | from any state of the broker, what a channel receives plus what is then queued is what was queued and the events published since, cut off where it was disconnected |
| Brokers.Broker.ChannelSees | internal/store/events.go:26-73 | the same for a channel of a valid broker object |
| Brokers.Broker.ValidIsWellFormed | internal/store/events.go:29-33 | a broker object is valid exactly if each channel is open while subscribed, queues are bounded, and a closed broker has no subscribers |
| Brokers.Broker.Subscribe | internal/store/events.go:40-55 | a fresh channel, subscribed, or closed at once if the broker is closed |
| Brokers.Broker.Publish | internal/store/events.go:59-73 | every subscriber with room gets the event, every saturated one is removed and closed, no other channel changes |
| Brokers.Broker.Unsubscribe | internal/store/events.go:75-82 | removes and closes the channel if it is still subscribed, else nothing |
| Brokers.Broker.Close | internal/store/events.go:85-96 | all subscribers are removed and closed, once |
| Brokers.Channel.TrySend | internal/store/events.go:66-68 | the event is queued exactly if there is room for it, and otherwise the channel is untouched |
| Brokers.Channel.Close | internal/store/events.go:70 | the channel is closed and what is queued stays |
| Listing.SortNewestCorrect | internal/store/store.go:303-305 | the sort yields newest first and keeps every entry |
| Listing.SortNewestStable | internal/store/store.go:303-305 | entries started at the same instant keep their order |
| Listing.TopKMerge | internal/store/store.go:294-310 | fetching only the `limit` newest rows before merging gives the same list as fetching all, newest first |
| Listing.DefaultLimit | internal/store/store.go:294-297 | a limit that is not positive lists the first hundred, any other that many |
| Listing.ListHasNoDuplicates | internal/store/store.go:294-310 | no id is listed twice |
| Listing.ListAgreesWithGet | internal/store/store.go:285-310 | an entry is among everything listed exactly if Get answers it for its id |
| Listing.FiltersAgree | internal/store/sqlite.go:133-136 | the nanosecond filter of memory and the millisecond filter of the table select alike exactly for whole-millisecond cursors |
| Listing.NextPage | internal/web/server.go:84-92 | the page at an entry's cursor continues right after it, exactly if the next entry started in an earlier millisecond and the cursor is not the zero time |
| Listing.OrderIndependent | internal/store/memory.go:55-72 | with distinct start milliseconds the iteration order of the map does not matter |
| Listing.WalkVisitsAllOnce | internal/web/server.go:73-104 | fetching page after page lists every entry exactly once, newest first, and ends: a short page means all have been listed, and there are at most one more pages than entries |
| Listing.ListArguments | internal/web/server.go:73-92 | malformed or non-positive parameters are rejected; an accepted limit is at most 500 and the one asked for up to that, and the cursor is the millisecond given, or lets everything through |
| ListRequests.Respond | internal/web/server.go:73-104 | a request is answered with the store's list for its parameters, or rejected |
| ListRequests.PlainRequest | internal/web/server.go:73-104 | without `before` the newest entries are listed, 100 of them unless another number is asked for and never more than 500; a request is rejected exactly if a parameter is malformed or the limit not positive |
| ListRequests.RowCursor | internal/web/server.go:84-92 | the start every row carries, passed back as `before`, is read as the cursor after that row |
| ListRequests.RequestAfterRow | internal/web/server.go:84-92 | asking for what follows a row continues right after it, exactly if the next entry started in an earlier millisecond and the row's start is not the zero time |
| ListRequests.LoadRequest | internal/web/static/app.js:1035-1044 | the page's request for 200 entries without a cursor gives it a list that mirrors the store exactly if at most 200 entries are known |
| ListRequests.RequestsVisitAllOnce | internal/web/server.go:73-104 | requests each made with what the last row carried list every entry exactly once, newest first, and come to an end |
| Capture.CutCharacterised | internal/proxy/capture.go:210-218 | the line loop cuts a stream in the only way possible: complete lines, then a newline-free rest, joining to the stream |
| Capture.CutAppend | internal/proxy/capture.go:210-218 | cutting may be resumed from the pending rest when more bytes arrive |
| Capture.FragmentsShape | internal/proxy/capture.go:208-227 | fragments are not empty, join to the stream, and hold exactly one newline, at the end, except possibly the last |
| Capture.SplitCharacterised | internal/proxy/capture.go:124 | splitting at newlines is the only way to write a body as newline-free pieces joined by newlines |
| Capture.CheckNdjson | internal/proxy/capture.go:67-80 | true exactly for several non-blank lines that are each valid JSON |
| Capture.CheckSse | internal/proxy/capture.go:82-89 | true exactly if the body starts with one of the five field prefixes |
| Capture.OllamaPreview | internal/proxy/capture.go:122-146 | the loop joins what each line contributes, in order |
| Capture.LineFragment | internal/proxy/capture.go:125-142 | what one line contributes: nothing if blank, not a data line of an event stream, its end mark, or not decodable |
| Capture.PreviewHomomorphism | internal/proxy/capture.go:122-146 | joining the previews of the fragments gives the preview of the whole body, a trailing partial line included |
| Capture.CaptureConserves | internal/proxy/capture.go:181-236 | for every format and chunking the chunks handed to the store join to the upstream bytes |
| Capture.DeltasCanonical | internal/proxy/capture.go:194-236 | the deltas are the fragments of the byte stream if the format streams and none otherwise, whatever the chunking; a sniffed format depends on the first chunk alone |
| Capture.LivePreview | internal/proxy/capture.go:208-227 | the message built delta by delta is the one built from the stored body |
| Messages.SniffDecides | internal/proxy/capture.go:43-90 | the format read off a body, for any way of writing it as lines: what begins like an object or array is NDJSON if several lines hold something and each is a JSON value, else JSON; `<` is XML, a field of an event stream SSE, anything else raw |
| Messages.StreamSpells | internal/proxy/capture.go:122-146 | a stream of lines spells the texts of its fragments in order; blank and undecodable lines, and in an event stream other fields and the end mark, add nothing |
| Messages.CapturedMessage | internal/proxy/capture.go:122-219 | so do the deltas of its capture and the body stored, whatever the chunking |
| CaptureReaders.CaptureReader.constructor | internal/proxy/capture.go:169-179 | a reader starts with the header's format, and sniffs only if that is raw |
| CaptureReaders.CaptureReader.Read | internal/proxy/capture.go:181-192 | the client gets the upstream bytes unchanged, and the store has undergone exactly the operations the reader prescribes for them |
| CaptureReaders.CaptureReader.Consume | internal/proxy/capture.go:194-219 | sniffing once, then appending whole or line by line |
| CaptureReaders.CaptureReader.Observe | internal/proxy/capture.go:183-190 | bytes read are timed and captured; an empty read leaves no trace |
| CaptureReaders.CaptureReader.Detect | internal/proxy/capture.go:195-201 | the first chunk settles the format, and an update is issued if one was found |
| CaptureReaders.CaptureReader.Sniff | internal/proxy/capture.go:195-201 | the format is looked for once, and an update issued if one was found |
| CaptureReaders.CaptureReader.Append | internal/proxy/capture.go:203-218 | a chunk is appended whole, or line by line when streaming |
| CaptureReaders.CaptureReader.Flush | internal/proxy/capture.go:224-227 | a partial line still held is appended and announced |
| CaptureReaders.CaptureReader.End | internal/proxy/capture.go:228-233 | the exchange is finalized with its stream duration |
| CaptureReaders.Upstream.Read | internal/proxy/capture.go:182 | upstream hands out any number of its next bytes, in order |
| CaptureReaders.CaptureReader.EmitLines | internal/proxy/capture.go:211-218 | each complete pending line is appended and announced; the rest stays pending |
| CaptureReaders.CaptureReader.Close | internal/proxy/capture.go:221-236 | the first call runs the closing operations, any other none; Exchanges.ExchangeIsCapture and Exchanges.ExchangeIsServed say what they are and come to |
| EndToEnd.CapturedBodyIsServed | internal/proxy/capture.go:181-236 | with any traffic interleaved, once the exchange has ended Body serves exactly the upstream bytes with their size, inline or spilled, as long as the entry is kept; a prefix if it was swept mid-stream |
| EndToEnd.RunGrows | internal/store/store.go:213-226 | over any run a response only grows, by exactly what is appended while pending, and never changes once finished |
| EndToEnd.PublishedDeltas | internal/store/store.go:213-226 | the deltas published for an exchange are the fragments of the upstream bytes, all of them if the entry was pending when the exchange ended, the first of them if it was swept before |
| EndToEnd.RunDeltas | internal/store/store.go:222-224 | over any run the deltas published for an entry are the first of those asked for, all while it is pending, and none once it is not |
| Exchanges.ExchangeIsCapture | internal/proxy/capture.go:181-236 | the reads and the Close of one reader are the capture, its last partial line included, and then a Finalize that sets the stream duration |
| Exchanges.ExchangeIsServed | internal/proxy/capture.go:181-236 | over any run in which one reader reads and is closed, from a pending entry with an empty response, the entry leaves memory and Body serves exactly the upstream bytes while it is kept; a prefix if it was swept on the way |
| Exchanges.ExchangeIsPublished | internal/proxy/capture.go:203-227 | over such a run the deltas published are the fragments of those bytes for NDJSON and SSE and none otherwise; the first of them if it was swept |
| Exchanges.ExchangeIsTimed | internal/proxy/capture.go:183-233 | the stream duration on record is the time from the first read with bytes to the last for NDJSON and SSE, and absent otherwise |
| Exchanges.StreamTimeInMs | internal/proxy/capture.go:228-232 | in whole milliseconds |
| Exchanges.ExchangeOnRecord | internal/proxy/capture.go:181-236 | without other traffic nothing else changes but the format found in the first chunk, where the header named none, and what Finalize settles |
| Exchanges.Relay | internal/proxy/capture.go:181-236 | a sequence of Read calls and a Close on the reader: the client gets the upstream bytes, and Body serves what the client got |
| Mirror.Page.UpsertRow | internal/web/static/app.js:195-201 | properties are merged over the known row; a new row goes first |
| Mirror.Page.RemoveRow | internal/web/static/app.js:203-207 | the row is gone and the others keep their order |
| Mirror.Page.OnEvent | internal/web/static/app.js:989-1030 | the effect of each event type on the list; updates of unknown rows are ignored |
| Mirror.Page.LoadList | internal/web/static/app.js:1035-1044 | the rows and the order of a list answer |
| Mirror.ListRowShows | internal/web/server.go:281-290 | a list row shows the entry's status, code and durations, a code left out reading as zero |
| Mirror.ListRowReads | internal/web/server.go:264-290 | and its id, verb, url, the two flags, the two formats, error and start in milliseconds |
| Mirror.UpdateShows | internal/web/server.go:246-254 | merging an update over any row makes it show the entry's status, code and durations |
| Mirror.StepFollows | internal/store/store.go:182-360 | the events of every store method carry a page that mirrors the state before to one that mirrors the state after |
| Mirror.LoadMirrors | internal/web/static/app.js:1035-1044 | a fresh load mirrors the store exactly if at most 200 entries are known |
| Mirror.PageMirrorsStore | internal/web/static/app.js:989-1044 | after every run, a page that loaded all and subscribed at the same instant, and folded every event since, lists exactly the ids Get finds, each once, with equal status, code and durations |
| Mirror.ErrorIsNotMirrored | internal/web/server.go:246-254 | an update leaves the error, the response format and whatever else it does not carry as the row showed it before |
| PageGaps.PropMirroredIffGuard | internal/web/server.go:246-254 | after every store method the page shows each error, or each other property an update leaves out, as the store holds it exactly if the method's guard held, which reads only the state before: the edit of an Update or Finalize leaves it as it was, unless the entry's place is beyond the cap; and a sweep takes no entry without an error whose place among the rows and all swept entries is within the cap, unless its message is empty or another property is meant |
| PageGaps.StepMirrorsProp | internal/web/static/app.js:994-1007 | the same, said of the states: exactly if no entry known before and after had it changed |
| PageGaps.KeptIffGuard | internal/store/store.go:229-282 | a method leaves the property of every entry still known unchanged exactly if its guard holds; the guard reads the state before the method |
| PageGaps.SurvivorIsKnown | internal/store/store.go:263-280 | a finalized entry is still known exactly if its place in the table is within the cap |
| PageGaps.SweptSurvivorIsKnown | internal/store/store.go:349-360 | a swept entry is still known after the whole sweep, which trims after every single one, exactly if its place is within the cap when all swept entries are inserted and nothing is trimmed |
| PageGaps.RunMirrorsProp | internal/web/static/app.js:989-1007 | after every run the page shows the property as the store holds it exactly if every entry known then holds the value it was put with, or had when the page was in step |
| PageGaps.GuardedRunShows | internal/web/static/app.js:989-1007 | so over every run whose edits leave a property alone, each row shows it as the store holds it: verb, url, flags, formats, start, error |
| PageGaps.LoadMirrorsProp | internal/web/static/app.js:1035-1044 | a freshly loaded list shows all of them as the store holds them |
| PageGaps.SweptErrorIsNotShown | internal/store/store.go:349-360 | an entry registered without an error and swept holds the message in the store and shows none in its row |
| PageGaps.FoundFormatIsNotShown | internal/proxy/capture.go:195-200 | a response format found out while reading is held by the store and not shown in the row |
| PageOrder.NewRowIsFirst | internal/web/static/app.js:195-201 | what is put goes to the top, and the rows below keep their order |
| PageOrder.StepOrders | internal/web/static/app.js:195-207 | where no edit moves a start, a page that is newest first is so after a method exactly if what the method puts is the newest |
| PageOrder.PageListsNewestFirst | internal/web/static/app.js:989-1044 | after every run in which new entries are the newest and no edit moves a start, the page lists the entries newest first, to the millisecond |
| PageOrder.PageListsAsLoaded | internal/web/static/app.js:1035-1044 | and, with no two entries in the same millisecond, in just the order of a fresh load |
| PageFeed.Drain | internal/web/server.go:211-240 | everything queued on a channel is handled in order, and the queue is empty then |
| PageFeed.StaleEventsHeal | internal/web/static/app.js:989-1030 | handling events again that a loaded list already reflects leaves it mirroring the state it was loaded from |
| PageFeed.LoadWhileConnected | internal/web/static/app.js:1035-1044 | a page that subscribed first and takes over its list answer, having handled no event later than the answer by then, mirrors the store after all events; the sufficient half, of which LoadRace.TakeOverMirrors is the exact form |
| LoadRace.LateAnswerMirrors | internal/web/static/app.js:1035-1044 | a page that takes over its answer after handling k later events, which are thereby lost, and handles the rest mirrors the store exactly if, for every id: known in the end, it was not created among the k; known at the answer, it was not deleted among them; known both times and not updated afterwards, it looks the same both times |
| LoadRace.LateAnswerErrors | internal/web/static/app.js:989-1044 | for each id of such a page: a known entry is missing exactly if its creation was among the k; an unknown one is shown exactly if it was listed and its deletion was among them; a known one looks out of date exactly if it was listed, changed its look, and no update of it follows |
| LoadRace.TakeOverMirrors | internal/web/static/app.js:989-1044 | the same for a page that subscribed before asking for its list, at whatever moment it takes over the answer; if no event later than the answer was lost it always mirrors the store |
| LoadRace.ConnectedPageMirrors | internal/web/server.go:190-240 | a page whose channel was not cut off and is drained has received exactly the events since it subscribed, so it mirrors the store exactly under that condition on the events later than its answer that it had handled before taking it over |
| LoadRace.DeltasAreHarmless | internal/web/static/app.js:1009-1025 | losing only response fragments never does harm |
| LoadRace.MissingRow | internal/web/static/app.js:1035-1044 | a reachable run in which an entry put after the answer, and announced before the page took it over, is known to the store and missing from the page |
| LoadRace.GhostRow | internal/web/static/app.js:1035-1044 | a reachable run in which an entry cleared after the answer is still shown though Get finds nothing |
| LoadRace.StaleRow | internal/web/static/app.js:1035-1044 | a reachable run in which an entry finished after the answer is done in the store and pending on the page |
| Sweeping.SweepInterval | cmd/debugproxy/main.go:163-169 | the interval is half the timeout clamped to between five seconds and a minute |
| Sweeping.SweepTicks | cmd/debugproxy/main.go:172-181 | the loop sweeps the store once per tick with the same timeout |
| Sweeping.SweepTakesTheIdle | internal/store/store.go:349-360 | a sweep takes exactly the entries idle for longer than the timeout, leaves the others untouched, and announces each as failed |
| Sweeping.IdleEntriesLeave | cmd/debugproxy/main.go:162-182 | in every timed run an entry still in memory was active within timeout + max(5s, min(timeout/2, 60s)) |
| Sweeping.LastSeenIsLastActivity | internal/store/memory.go:91-102 | idleness counts from the last registration, update or response chunk |
| Sweeping.BoundIsTight | internal/store/memory.go:76-84 | an entry idle for exactly the timeout at one tick stays until the next |
| Interleaving.RetentionBound | internal/store/store.go:263-280 | in every interleaving, rows exceed the cap by at most the number of Finalize calls that have inserted and not finished trimming, once one has finished or if the start was within the cap |
| Interleaving.StepKeepsBounded | internal/store/sqlite.go:156-189 | insert, query, each single delete and Clear keep every row either in the last completed pass's kept set or due to a call at work |
| Interleaving.GetNeverLoses | internal/store/store.go:263-290 | in every interleaving a Get that began after Put returned finds the entry unless retention or Clear deleted its row |
| Interleaving.FirstFinalizeWins | internal/store/store.go:242-270 | in every interleaving in which ids are registered once, are not among the rows found, and no Finalize begins on an id while another one has not dropped its memory copy, each id is inserted at most once and a deleted id never comes back |
| Interleaving.OverlapWritesTwice | internal/store/store.go:242-270 | whenever a Finalize does begin then, the run can go on so that both calls write the row, the second after a Clear deleted the first row |
| Interleaving.DeletedRowComesBack | internal/store/store.go:333-360 | a reachable run of two Finalize calls with a Clear between them that ends with the row in the table, inserted twice, although it was deleted |
| Interleaving.OverlappingFinalize | internal/store/store.go:242-266 | two Finalize calls under way on one id can both write its row, and the later row stands |
| Interleaving.ListMisses | internal/store/store.go:294-310 | of the entries known when List reads the table and not deleted when it reads memory, it misses exactly those that moved from memory to the table in between |
| Interleaving.ListOverlooks | internal/store/store.go:294-310 | a reachable run in which List answers without an entry that is in the table and was never deleted |
| Interleaving.ClearAnnounces | internal/store/sqlite.go:191-204 | whatever happens between Clear's query and its delete, an id whose row it deletes goes unannounced exactly if it had no row at the query |
| Interleaving.UnannouncedIffInsertedBetween | internal/store/sqlite.go:191-204 | where ids are registered once and no two Finalize calls overlap on one, an id whose row Clear deletes goes unannounced exactly if the row was inserted between the query and the delete |
| Interleaving.ClearIsSilent | internal/store/store.go:333-345 | a reachable run in which Clear deletes a finished entry's row and announces nothing |
| CallSteps.FinalizeCallIsFinalize | internal/store/store.go:242-282 | the steps of one Finalize, with no other call in between, leave memory and table as the atomic Finalize does |
| CallSteps.GetCallIsGet | internal/store/store.go:285-290 | those of one Get find the entry exactly if the atomic Get does |
| CallSteps.ListCallIsList | internal/store/store.go:294-310 | those of one List come across exactly the ids of the list |
| CallSteps.ClearCallIsClear | internal/store/store.go:333-345 | those of one Clear leave what the atomic Clear leaves, delete and announce the same ids |
| Crashes.RowsAlwaysWhole | internal/store/store.go:263-280 | at every moment of every run with crashes anywhere, each row gives back the full bodies captured, with their sizes; in these runs each id is finalized once, no buffer is written after it was closed, and Clear runs alone and only while nothing in flight has spilled |
| Crashes.StartUpLeavesNoOrphan | internal/store/blobs.go:58-78 | right after a start-up the files left are exactly the spilled sides of the rows |
| Crashes.StepIsSafe | internal/store/blobs.go:96-150 | every single disk or memory step of such a run, under the same three restrictions, and a crash that loses any contents not yet synced, keeps files, rows and entries in flight consistent |
| Crashes.SpillStepsAreWrite | internal/store/blobs.go:112-138 | creating the file, copying the preview and writing the chunk amount to one atomic write |
| Crashes.OtherStepsAreWrite | internal/store/blobs.go:106-138 | an inline write, and a write to an open file, amount to one atomic write |
| Crashes.WipedBeforeRow | internal/store/store.go:333-345 | if the files are removed between closing the buffers and writing the row, the row can be read back exactly if the body was inline |
| Crashes.LateWriteUnderRow | internal/store/blobs.go:112-124 | after a write to the closed buffer of a recorded side, its row gives back the recorded body exactly if nothing was written, the body was inline, or the bytes were those after the preview |
| FinalizeSteps.FinalizeStepsAreFinalize | internal/store/store.go:242-282 | closing both buffers, writing the row, dropping the memory copy, then deleting each victim's row and each victim's files, lead to the state after the atomic Finalize |
| AtomicSteps.PutStepIsPut | internal/store/store.go:182-199 | registering an id never used before leads to the state after the atomic Put |
| AtomicSteps.WriteSteps | internal/store/blobs.go:96-140 | from any moment between writes, the steps of one write of any length can be taken, amount to one atomic write of the buffer and its file, and touch nothing else |
| AtomicSteps.SetRequestBodyStepsAre | internal/store/store.go:202-209 | so those of a request body lead to the state after the atomic SetRequestBody |
| AtomicSteps.AppendResponseStepsAre | internal/store/store.go:213-226 | and those of a response chunk, spilling or not, to the state after the atomic AppendResponse |
| AtomicSteps.ClearStepsAreClear | internal/store/store.go:333-345 | deleting the rows and then each file, in whatever order the directory is read, leads to the state after the atomic Clear, if no pending body has spilled |
| AtomicSteps.RestartStepsAreReopen | internal/store/blobs.go:58-78 | from any moment, a crash and then removing each file without an owner, in any order, lead to the state in which the atomic start-up opens what was left |

## Left out

- I/O errors, partial file writes and the sticky error of a body buffer: every claim is for I/O that succeeds.
- The SQLite engine: the table is a sequence of rows in index order, newest first, ties in insertion order.
- JSON: headers are encoded and decoded as an identity; JSON validity and decoding are functions passed in, as is
  trimming, of which only that nothing trims to nothing is used.
- Paths: a body path is the file name without its directory.
- Integer widths: sizes, times and counts are unbounded, except that time differences saturate as Go's do.
- Entry.Clone: entries are values here, so there is no aliasing to protect against.
- The monotonic clock reading of Go times: times are wall-clock integers.
- Edits passed to Update and Finalize cannot change an entry's id; no caller does.
- Locks and the order of events of overlapping Update calls: Update publishes outside the entry lock, so the page's
  list is followed at the level of atomic methods.
- Crashes.RowsAlwaysWhole: does not cover a second Finalize on an id, a write to a closed buffer, nor a Clear that
  overlaps other calls or finds a spilled body in flight, all of which the source allows; what goes wrong then is stated
  by WipedBeforeRow, LateWriteUnderRow and Archives.ClearLosesPendingBody.
- Crashes.StepIsSafe: has no step for any of them.
- PageFeed.LoadWhileConnected: a sufficient condition; LoadRace.TakeOverMirrors is the exact one.
- PageOrder.PageListsNewestFirst: takes loading and subscribing as one instant, as Mirror.PageMirrorsStore does.
- LoadRace.TakeOverMirrors: takes ids to be put at most once in a run and the answer to be complete (at most 200 known).
- Mirror.PageMirrorsStore: takes loading and subscribing as one instant; LoadRace.TakeOverMirrors does not.
- Detection of a format from a Content-Type header, Ollama paths, cookies, headers, replay, and HTTP relaying.
- The event stream's wire format, heartbeats and reconnection; rendering, selection, detail and filtering in the page.
- The page's own clear button, which empties its rows without an event.
- Environment parsing beyond the fact that the timeout is positive.
