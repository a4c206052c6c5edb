# Verified model of Veyport's hub and agent

Veyport's hub and its agents talk over one FIFO gRPC stream per agent. Around that stream stand several
small concurrent state machines: uploads, terminal sessions, log tails, connections, tokens, queues and
caches. This project models them in Dafny and proves what they guarantee over every run.

Each component has a model module: its state, one total function per locked region, a datatype of runs,
and the theorems about all runs. Where the source keeps its state in an object, a class with the same
fields has methods that are proved to do what the model's functions say, loops included. Theorems that
compare against something independent use the history of the run: everything a reader returned, every
call ever allowed, every increment since a token was issued, the stream that registered last.

| Modules | Component |
|---|---|
| `DropzoneModel`, `AgentDropzone` | the agent's dropzone, with directory entries and inodes |
| `UploadModel`, `UploadTheorems`, `UploadProgress`, `UploadSlots`, `UploadNames`, `HubUpload`, `PendingRequests` | the upload pipeline from reader to renamed file and back |
| `TerminalModel`, `TerminalHistory`, `TerminalRegistry`, `ExitDelivery` | the hub's terminal sessions and their competing closers, what they answer over histories, the exit's delivery step by step |
| `ManagerModel`, `ManagerProgress`, `TerminalManager` | the agent's terminal manager |
| `LogFilter`, `LogTailer` | the log tailer: line filter and offset arithmetic |
| `LogSessionModel`, `LogSessionHistory`, `LogSessions`, `LogPath`, `LogSlotModel`, `LogSlots` | the hub's log sessions, the path from file to reader, stream slots |
| `LimiterModel`, `RateLimiter` | the sliding-window login limiter |
| `BlacklistModel`, `TokenBlacklist`, `TokenModel`, `AuthServer` | revoked tokens, token generations, the handlers that check and change them |
| `NotifierModel`, `DebounceModel`, `Notifier` | notification queues and debounced events |
| `ConnModel`, `ConnManager` | the connection registry, stream teardown, the sweep |
| `TotpModel`, `TotpCache` | one-time codes and their replay cache |
| `CoalescerModel`, `HeartbeatCoalescer` | the heartbeat coalescer |
| `Paths`, `PathMeaning` | lexical path containment, and what it means in a directory tree |
| `Keys`, `Options`, `Units` | composite keys, the optional value, bytes and clock ticks |

Check everything with `dafny verify dfyconfig.toml`.

## Conventions

- A locked region is one step; consumers, timers, disconnects and operating-system answers are separate
  steps or parameters, so every interleaving and every failure is a run.
- Go channels are sequences with a closed flag. An operation that would panic sets `panicked`, and a
  theorem says when it can be set.
- Times are integers, in ticks; the clock does not run backwards where a theorem says so. Identifiers
  that the source draws as UUIDs are fresh, and server and user identifiers contain no colon where a
  key is built from them (`Keys.ScopesOverlapIff` says what that excludes).
- Bytes are `bv8`, strings are sequences of characters without any encoding.

## Where the code does less than it seems

The model follows the code, and these are theorems about it:

- A file whose sanitized name is ".upload-" and a request id replaces the temporary file of that
  upload (`UploadNames.NameIsSafeIff`, `UploadNames.ReportedIsWrong`). The upload theorems assume other names.
- An empty file never sends a named chunk and is always refused (`HubUpload.UploadRoundTrip`).
- A hub-side 413, a read error or a refused send tells the agent nothing. The slot of a failed upload comes
  free without a disconnect exactly when its final chunk had been sent (`UploadSlots.SlotComesFreeIff`,
  `UploadSlots.FailureAbandons`, `UploadSlots.AbandonedUntilDisconnect`).
- A second open with an identifier in use deletes the first one's entry (`ManagerModel.CollisionOrphans`,
  `ManagerModel.TrackedIffDistinct`).
- After a rotation the stream jumps from what was read to the size Stat announced: a file of more than a
  megabyte loses the bytes in between, one that grew in between repeats some (`LogTailer.RotationResumesAtSize`,
  `LogTailer.LargeRotationSkips`, `LogTailer.RotationIsFaithfulIff`).
- A replacement that is not shorter than the offset is never noticed (`LogTailer.ReplaceSilencesIff`).
- A line of 64 KB hides the rest of its chunk from a grep, and a carriage return at the end of a line is
  lost (`LogFilter.FilterIsGrepIff`, `LogFilter.OverlongLineHidesTheRest`).
- `evictOldest` never deletes the empty key, so the table can outgrow its bound
  (`LimiterModel.BoundedForIff`, `LimiterModel.MayOutgrowIff`, `LimiterModel.EmptyKeyBlocksEviction`).
- A stream that a sweep removed skips the end of its terminal sessions (`ConnModel.TeardownEndsIff`).
- A teardown that is overtaken by a reconnect ends the new stream's sessions and stores the connected server
  as offline (`ConnModel.LateFinishHitsTheNewStream`, `ConnModel.LateFinishHitsIff`).
- A handler that empties a full channel between two steps of `deliverExit` makes it return without the exit
  (`ExitDelivery.ExitIsLostIff`).
- With a dropzone directory that ends in "..", which the agent's flag allows, a path above it may be
  deleted (`Paths.DeletesOnlyBelowIff`, `Paths.DotDotDropzone`).

## Model

| member | source | states |
|---|---|---|
| Keys.PrefixIffSameServer | hub/internal/grpcserver/pending.go:23-25 | a scan for "a:" meets a key of server b exactly when a and b are the same server |
| Keys.MakeKeyInjective | hub/internal/grpcserver/pending.go:23-25 | two (server, request) pairs share a key only when they are the same pair |
| Keys.ScopesOverlapIff | hub/internal/grpcserver/pending.go:23-25 | without the colon-free condition: the exact condition under which the scopes of two servers overlap |
| HubUpload.StreamFileToAgent | hub/internal/server/handlers_upload.go:189-228 | the read loop: success puts all the content on the stream, named once, in chunks of at most 64 KB, within 100 MB, then the final chunk; each failure says which condition of success was missing |
| HubUpload.HandlerSendsTheStream | hub/internal/server/handlers_upload.go:189-228 | the handler of the interleaved pipeline sends the same stream, one step at a time |
| HubUpload.FeedingData | agent/internal/dropzone/dropzone.go:93-135 | while chunks arrive in order the open file holds exactly their bytes and no visible file changes |
| HubUpload.UploadRoundTrip | agent/internal/dropzone/dropzone.go:93-160 | chunking then reassembling is the identity: for every splitting of the content the agent accepts exactly non-empty content with a free slot and a usable name, and publishes exactly that content; an empty file is always refused |
| DropzoneModel.EntriesAreNames | agent/internal/dropzone/dropzone.go:80-81 | reading names as directory entries loses nothing, and a name ".upload-x" is the temporary file of x |
| DropzoneModel.SanitizedIsPlain | agent/internal/dropzone/dropzone.go:174-181 | a sanitized name has no slash and is neither "." nor ".." |
| DropzoneModel.SanitizeIsIdempotent | agent/internal/dropzone/dropzone.go:174-181 | sanitizing twice changes nothing |
| DropzoneModel.SanitizeTakesTheLast | agent/internal/dropzone/dropzone.go:174-181 | a path that ends in a plain name, with or without trailing slashes, is sanitized to that name |
| DropzoneModel.NothingIsNamed | agent/internal/dropzone/dropzone.go:174-181 | a path that ends in "." or "..", or has no element, names no file |
| DropzoneModel.ChunkOutcome | agent/internal/dropzone/dropzone.go:93-160 | what one chunk can do, for every answer of the operating system: it appends exactly its data, or fails without a visible change and without an open upload, or publishes exactly the bytes received; other uploads and published files stay as they are |
| DropzoneModel.ChunkAnswer | agent/internal/dropzone/dropzone.go:54-157 | for every chunk and every answer of the operating system: which reply is sent, and that the temporary file stays exactly while the upload is open or after a failed write |
| DropzoneModel.LeftoverIsTruncated | agent/internal/dropzone/dropzone.go:78-91 | a temporary file that an earlier failure left behind is emptied and used again |
| DropzoneModel.CleanupEffect | agent/internal/dropzone/dropzone.go:163-172 | after Cleanup nothing is open, exactly the temporary files of open uploads are gone, and no visible or published file has changed |
| AgentDropzone.Dropzone.OpenNewUpload | agent/internal/dropzone/dropzone.go:54-91 | the refusals in their order, or the temporary file opened and truncated |
| AgentDropzone.Dropzone.Append | agent/internal/dropzone/dropzone.go:112-135 | the write with its size limit, its partial failure and its bookkeeping |
| AgentDropzone.Dropzone.Complete | agent/internal/dropzone/dropzone.go:138-157 | the rename to the final name, or the failure that removes the temporary file |
| AgentDropzone.Dropzone.HandleChunk | agent/internal/dropzone/dropzone.go:95-160 | the dropzone changes and answers as the model says; from a sound state, and unless the name is a temporary one, the outcome is one of the three of ChunkOutcome and the state stays sound |
| AgentDropzone.Dropzone.Cleanup | agent/internal/dropzone/dropzone.go:163-172 | the loop closes every upload and removes exactly their temporary files |
| UploadModel.ReadKeepsInv | hub/internal/server/handlers_upload.go:194-205 | a read keeps the pipeline invariant, whether the chunk is queued, lost or refused |
| UploadModel.EofKeepsInv | hub/internal/server/handlers_upload.go:206-217 | the end of the reader keeps the pipeline invariant |
| UploadModel.HandleKeepsInv | agent/internal/client/client.go:763-769 | the agent handling the next chunk keeps the pipeline invariant: bytes move from the stream into the file, or the upload is dead, or it is published |
| UploadModel.DisconnectKeepsInv | agent/internal/client/client.go:801-810 | a broken stream followed by Cleanup keeps the pipeline invariant |
| UploadModel.RunKeepsInv | hub/internal/server/handlers_upload.go:42-66 | the pipeline invariant in every run of interleaved uploads, disconnects, lost acknowledgements and timeouts |
| UploadTheorems.SuccessMeansComplete | hub/internal/server/handlers_upload.go:42-66 | when the hub reports success the renamed file holds exactly the bytes the reader returned, and their number is the reported size, at most 100 MB |
| UploadTheorems.VisibleFilesAreComplete | agent/internal/dropzone/dropzone.go:137-157 | every visible file holds one completed upload in full under its own name; a partial file is never visible |
| UploadTheorems.SentIsWhatWasRead | hub/internal/server/handlers_upload.go:189-217 | until a failure the handler has sent exactly what its reader returned |
| UploadTheorems.ListensUntilItReturns | hub/internal/server/handlers_upload.go:42-66 | a handler keeps its channel for acknowledgements exactly until it returns |
| UploadTheorems.WaitingHandlerAnswers | hub/internal/server/handlers_upload.go:57-66 | a waiting handler answers what the acknowledgement in its channel says, or a failure when it times out first |
| UploadTheorems.ReadingHandlerAnswers | hub/internal/server/handlers_upload.go:189-217 | a reading handler fails when its reader fails, a send is refused or a read takes it over 100 MB, and otherwise goes on |
| UploadTheorems.WhatIsSent | hub/internal/server/handlers_upload.go:189-217 | a read puts one chunk on the stream, named only while nothing was sent before, and nothing when the send is lost or refused; the end puts the final chunk there |
| UploadTheorems.DeliveredAckIsHeard | hub/internal/grpcserver/pending.go:35-49 | an acknowledgement that reaches a listening handler with an empty channel is heard, any other is dropped |
| UploadTheorems.FirstAnswerStays | hub/internal/grpcserver/pending.go:35-49 | the first answer a handler hears is the only one, whatever else arrives until it returns |
| UploadTheorems.LostAckIsGone | hub/internal/server/handlers_upload.go:57-66 | an acknowledgement that is lost changes nothing else: its handler goes on waiting, up to its timeout |
| UploadTheorems.ErrorKills | agent/internal/dropzone/dropzone.go:99-150 | after an error of the agent nothing that could still finish the upload exists |
| UploadTheorems.DisconnectKills | agent/internal/dropzone/dropzone.go:163-172 | Cleanup kills every upload whose first chunk was sent and that is not complete |
| UploadTheorems.NoSecondChance | hub/internal/server/handlers_upload.go:220-228 | a dead upload is never reported as a success, however the run goes on, because only its first chunk carried the name |
| UploadSlots.FailureAbandons | hub/internal/server/handlers_upload.go:198-211 | a read error or a read over the limit abandons an upload the agent has open and has no more chunks of |
| UploadSlots.AbandonedUntilDisconnect | hub/internal/server/handlers_upload.go:198-211 | an abandoned upload keeps its slot through every continuation up to a disconnect, which frees it |
| UploadSlots.SlotComesFreeIff | hub/internal/server/handlers_upload.go:189-217 | for a failed handler whose upload is open: in every continuation without a disconnect the slot is free once the upload's chunks are handled, exactly when the final chunk had been sent |
| UploadSlots.SlotMayComeFreeIff | agent/internal/dropzone/dropzone.go:99-172 | a remark: with an operating system that may fail, it can come free exactly when a chunk of the upload is still under way |
| UploadProgress.NextChunkSucceeds | agent/internal/dropzone/dropzone.go:99-157 | when nothing fails the agent takes in or completes every chunk of an upload with content |
| UploadProgress.UploadsComplete | hub/internal/server/handlers_upload.go:42-66 | however uploads interleave, as long as nothing fails an upload with content whose chunks were handled is published with the bytes read, and its success is reported or on its way |
| UploadProgress.WaitingIsReported | hub/internal/server/handlers_upload.go:57-66 | a success that is on its way makes the waiting handler succeed |
| UploadProgress.UploadsAreReported | hub/internal/server/handlers_upload.go:42-66 | so every such upload is reported as a success after at most two more steps without a failure |
| UploadNames.ReportedIsWrong | agent/internal/dropzone/dropzone.go:80-81 | the concrete run in which an upload named like another one's temporary file makes that one report success with the wrong bytes |
| UploadNames.NameIsSafeIff | agent/internal/dropzone/dropzone.go:80-81 | a file name is safe in every run exactly when, sanitized, it is not ".upload-" followed by a request id (a canonical random UUID) |
| PendingRequests.Pending.Register | hub/internal/grpcserver/pending.go:27-33 | a fresh one-slot channel under the composite key |
| PendingRequests.Pending.Deliver | hub/internal/grpcserver/pending.go:35-49 | delivered exactly when the request is registered and its slot is empty; no other channel changes |
| PendingRequests.Pending.Remove | hub/internal/grpcserver/pending.go:51-55 | exactly the request's entry goes |
| PendingRequests.RegisterAndListen | hub/internal/grpcserver/pending.go:27-55 | through any sequence of registrations, answers and removals a request's channel holds exactly the first answer addressed to its server and request while it was registered |
| PendingRequests.OnlyOwnAnswersAreHeard | hub/internal/grpcserver/pending.go:9-12 | so an answer from another server or for another request never fills it |
| TerminalModel.RunKeepsInv | hub/internal/grpcserver/terminalsessions.go:45-207 | the registry invariant in every run of registrations, attachments, data, exits, removals and receives |
| TerminalModel.NoChannelMisuse | hub/internal/grpcserver/terminalsessions.go:97-207 | no closed channel is sent to or closed again |
| TerminalModel.MisuseIsNoticed | hub/internal/grpcserver/terminalsessions.go:97-207 | what counts as misuse: a send, a close or an exit on a channel that is closed or was never made |
| TerminalModel.MisuseByEndAll | hub/internal/grpcserver/terminalsessions.go:150-162 | ending every session of a server misuses a channel exactly when ending one of them does |
| TerminalModel.ReachableIsSound | hub/internal/grpcserver/terminalsessions.go:45-207 | every state a run reaches is one the registry's methods accept |
| TerminalModel.StreamIsFifo | hub/internal/grpcserver/terminalsessions.go:97-177 | received then buffered data is the accepted data in order, then the exit; at most one accepted event is missing and only when the exit found the buffer full |
| TerminalModel.ExitEvictsOnlyTheOldest | hub/internal/grpcserver/terminalsessions.go:164-177 | an exit evicts exactly when 256 events wait, and then exactly the oldest of them |
| TerminalModel.ExitIsOnceAndLast | hub/internal/grpcserver/terminalsessions.go:115-127 | after End or EndAll the exit is in the stream exactly once and last, until the session is removed |
| TerminalHistory.EntryIsHistory | hub/internal/grpcserver/terminalsessions.go:45-207 | in every run the registry holds for each key exactly the registration the actions tell: owner, channel, attached, ended, and nothing after a removal |
| TerminalHistory.AttachAnswers | hub/internal/grpcserver/terminalsessions.go:77-95 | a stream is attached exactly for the user that registered the session, once, and gets the channel of that registration; a foreign user is told there is no session, and nothing changes |
| TerminalHistory.AttachedOnlyByOwner | hub/internal/grpcserver/terminalsessions.go:77-95 | a registration that has a stream was registered and attached to by the same user |
| TerminalHistory.AnswersAreHistory | hub/internal/grpcserver/terminalsessions.go:45-207 | registering, ending and the three removals do their work exactly when the history allows it |
| TerminalHistory.DataIsAcceptedIff | hub/internal/grpcserver/terminalsessions.go:97-113 | data is accepted exactly for a session whose exit was not reported while fewer than 256 events wait, and otherwise nothing changes |
| TerminalHistory.ReceiveTakesTheNext | hub/internal/server/handlers_terminal.go:164-184 | the stream takes out the event that is due next whenever one waits |
| ExitDelivery.ExitIsLostIff | hub/internal/grpcserver/terminalsessions.go:168-177 | with the length test, the receive and the send as separate steps: the exit is lost exactly when the test finds the buffer full and the handler then receives at least 256 times before the next step |
| ExitDelivery.ExitIsSentIff | hub/internal/grpcserver/terminalsessions.go:168-177 | otherwise four steps send it, whatever the handler does in between |
| ExitDelivery.AtMostOneEventIsEvicted | hub/internal/grpcserver/terminalsessions.go:168-177 | for every schedule the old events keep their order and at most one of them, the oldest unread, is evicted |
| ExitDelivery.UndisturbedIsWithExit | hub/internal/grpcserver/terminalsessions.go:168-177 | undisturbed, the steps do what the registry's model takes as one |
| TerminalModel.OneCloser | hub/internal/server/handlers_terminal.go:162-220 | of the competing closers exactly one removes a session and writes the one closed audit; at most one stream attaches; a session that had a stream does not expire; at most one close is sent to the agent, and none by a hub close after the agent's exit |
| TerminalModel.EndAllIsScoped | hub/internal/grpcserver/terminalsessions.go:150-162 | EndAll ends exactly the open sessions of its own server |
| TerminalRegistry.TerminalSessions.Register | hub/internal/grpcserver/terminalsessions.go:45-59 | refused exactly for a key in use; otherwise a new entry with an open channel |
| TerminalRegistry.TerminalSessions.AttachStream | hub/internal/grpcserver/terminalsessions.go:77-95 | attached once, and only for the session's own user |
| TerminalRegistry.TerminalSessions.DeliverData | hub/internal/grpcserver/terminalsessions.go:97-113 | accepted exactly for an open session with room in its buffer |
| TerminalRegistry.TerminalSessions.DeliverExit | hub/internal/grpcserver/terminalsessions.go:168-177 | the eviction loop leaves the buffer without its oldest event only when it was full, and the exit at the end |
| TerminalRegistry.TerminalSessions.End | hub/internal/grpcserver/terminalsessions.go:115-127 | delivers the exit and closes the channel of an open session, once |
| TerminalRegistry.TerminalSessions.EndAll | hub/internal/grpcserver/terminalsessions.go:150-162 | the loop over all keys ends exactly the sessions with the server's prefix |
| TerminalRegistry.TerminalSessions.RemoveIfHubInitiated | hub/internal/grpcserver/terminalsessions.go:129-148 | removes an entry, closing its channel unless its exit did, and reports which |
| TerminalRegistry.TerminalSessions.RemoveUnattached | hub/internal/grpcserver/terminalsessions.go:179-192 | removes only an entry no stream is attached to |
| TerminalRegistry.TerminalSessions.Remove | hub/internal/grpcserver/terminalsessions.go:194-207 | removes any entry, closing its channel unless its exit did |
| ManagerModel.SlotsAreBounded | agent/internal/terminal/manager.go:126-157 | at most 8 sessions are registered in every interleaving of the separate check, start and register steps with stop and CloseAll |
| ManagerProgress.OpenSucceedsIff | agent/internal/terminal/manager.go:75-157 | in every run an open that nothing interrupts registers its session exactly when the identifier is new, fewer than eight are registered and the manager was not stopped |
| ManagerProgress.EightAreAdmitted | agent/internal/terminal/manager.go:136-152 | of any number of terminals opened one after the other the first eight are registered and the others refused |
| ManagerProgress.FailedStartIsRefused | agent/internal/terminal/manager.go:90-118 | a process that does not start leaves nothing registered |
| ManagerProgress.CloseRemoves | agent/internal/terminal/manager.go:327-348 | a close takes an open session off the list and nothing else |
| ManagerProgress.SecondCloseIsNothing | agent/internal/terminal/manager.go:327-331 | a later close of the same session changes nothing, so it spares a session opened under the same identifier since |
| ManagerModel.RunIsSound | agent/internal/terminal/manager.go:75-157 | with distinct identifiers every started and registered session is registered or has been closed once, and every listed session is real |
| ManagerModel.RegisteredUntilClosed | agent/internal/terminal/manager.go:327-348 | an opened session is registered exactly until its close-once has run |
| ManagerModel.CloseAllIsFinal | agent/internal/terminal/manager.go:222-250 | once a CloseAll has finished nothing is registered now or later, though stop takes no lock, and every session ever registered has been closed |
| ManagerProgress.CloseAllCanFinish | agent/internal/terminal/manager.go:222-235 | whatever a run has come to, the next CloseAll can finish |
| ManagerProgress.StoppedIffCloseAll | agent/internal/terminal/manager.go:237-250 | the manager is stopped exactly when some CloseAll has reached its stop |
| ManagerModel.CollisionOrphans | agent/internal/terminal/manager.go:115-118 | the run in which the second of two opens with one identifier deletes the first one's entry: a session runs that CloseAll cannot find |
| ManagerModel.TrackedIffDistinct | agent/internal/terminal/manager.go:115-118 | sessions are accounted for in every run exactly when no two opens share an identifier |
| TerminalManager.Manager.ValidateOpenSlot | agent/internal/terminal/manager.go:126-140 | the three refusals in their order; admitted exactly below eight sessions, with a new identifier, before a stop |
| TerminalManager.Manager.Register | agent/internal/terminal/manager.go:142-157 | the same decision again, then the insertion |
| TerminalManager.Manager.CloseSession | agent/internal/terminal/manager.go:327-331 | the first call deletes the entry of the session's identifier, later calls do nothing |
| TerminalManager.Manager.Open | agent/internal/terminal/manager.go:75-124 | a refused open, or a process that does not start, changes nothing; an admitted one adds exactly its fresh session; one that meets a stop is closed again; with the exact condition of success |
| TerminalManager.Manager.CloseAll | agent/internal/terminal/manager.go:222-235 | the loop closes exactly the registered sessions |
| LogFilter.SplitsIffClean | agent/internal/logtailer/tailer.go:195-210 | scanning a piece separately changes nothing, whatever follows, exactly when the piece ends at a newline and its lines fit the scanner |
| LogFilter.ContainsIff | agent/internal/logtailer/tailer.go:205-207 | the search finds the pattern exactly when it stands somewhere in the line |
| LogFilter.ScanDropsCRs | agent/internal/logtailer/tailer.go:202-209 | lines that end in a carriage return and a newline are given back without either |
| LogFilter.LongestLine | agent/internal/logtailer/tailer.go:202-203 | a line of up to 65535 bytes is scanned, terminated or not, a longer one is not |
| LogFilter.ChunkwiseIsWhole | agent/internal/logtailer/tailer.go:195-230 | filtering chunk by chunk is filtering the whole text under that condition |
| LogFilter.ScanInvertsJoin | agent/internal/logtailer/tailer.go:202-209 | scanning inverts joining lines, up to one carriage return per line |
| LogFilter.FilterIsGrep | agent/internal/logtailer/tailer.go:198-215 | the output is exactly the lines whose lowered form contains the pattern, in order, each with its newline |
| LogFilter.ScanReturnsLinesIff | agent/internal/logtailer/tailer.go:202-209 | the scanner gives lines back exactly when all of them fit and none ends in a carriage return |
| LogFilter.FilterIsGrepIff | agent/internal/logtailer/tailer.go:198-215 | the filter is grep, for every pattern and case mapping, exactly under that condition |
| LogFilter.OverlongLineHidesTheRest | agent/internal/logtailer/tailer.go:202-210 | what happens otherwise: a line that does not fit hides every line after it |
| LogFilter.FilterLines | agent/internal/logtailer/tailer.go:195-215 | the scanner loop computes the filter |
| LogTailer.GrowingFileIsSentInFull | agent/internal/logtailer/tailer.go:169-193 | over any polls of a file that only grows, what was sent is the file from the start to the offset: no gap, no repeat |
| LogTailer.ChunksAreBounded | agent/internal/logtailer/tailer.go:173-192 | a chunk is not empty and at most a megabyte, is labelled with the offset after it, and only the offset and the handle move |
| LogTailer.FailedPollIsRetried | agent/internal/logtailer/tailer.go:140-183 | a poll that meets an error sends nothing and moves nothing |
| LogTailer.FileIsHistory | agent/internal/logtailer/tailer.go:140-193 | the path names what the writers made of it: the last rewrite or replacement and everything appended since |
| LogTailer.CatchesUpIff | agent/internal/logtailer/tailer.go:175-192 | undisturbed polls reach the end of the file after exactly one poll per started megabyte |
| LogTailer.RotationIsFaithfulIff | agent/internal/logtailer/tailer.go:152-167 | after a noticed rotation the new file is followed without gap or repeat exactly when the read returned what Stat announced |
| LogTailer.RotatedFileIsSentInFull | agent/internal/logtailer/tailer.go:152-167 | from such a rotation on, the stream is the new file from byte 0 |
| LogTailer.RotationResumesAtSize | agent/internal/logtailer/tailer.go:152-167 | after any noticed rotation, over every continuation of growth and polls: what the rotation read, then everything from the announced size on |
| LogTailer.LargeRotationSkips | agent/internal/logtailer/tailer.go:158-166 | so of a rotated file of more than a megabyte the bytes between the first megabyte and its size are never sent |
| LogTailer.UnnoticedReplacementStopsTheStream | agent/internal/logtailer/tailer.go:152-171 | a replacement that is not shorter than the offset is never noticed, and nothing is sent any more |
| LogTailer.ReplaceSilencesIff | agent/internal/logtailer/tailer.go:149-152 | replacing a fully sent file silences the tailer in every continuation of growth and polls exactly when the new file is not shorter than the offset |
| LogTailer.Follow | agent/internal/logtailer/tailer.go:104-138 | the polling loop: the chunks put together are the file between the starting and the final offset, each labelled with its end |
| LogTailer.GrepOfTheStream | agent/internal/logtailer/tailer.go:121-131 | with a grep the reader receives the grep of the part that was followed |
| LogPath.ReaderSeesTheFileIff | hub/internal/server/handlers_logs.go:120-138 | from file to reader: what was received and waits is exactly the followed part of the file if and only if the session dropped nothing |
| LogSessionModel.EveryChunkIsAccountedFor | hub/internal/grpcserver/logsessions.go:23-82 | per registration: taken is received plus waiting, in order; at most 64 wait; reports plus counter equal the drops; without a drop the reader gets everything; no channel is misused |
| LogSessionModel.DroppedOnlyWhenFull | hub/internal/grpcserver/logsessions.go:45-54 | a chunk is dropped exactly when 64 are waiting, and no other session changes |
| LogSessionHistory.CurrentIsHistory | hub/internal/grpcserver/logsessions.go:24-82 | a key is registered exactly when its latest registration was not removed, and the table leads to that one |
| LogSessionHistory.SessionIsItsHistory | hub/internal/grpcserver/logsessions.go:24-82 | each registration is a bounded queue of its own: what waits, was received and was reported is what its own deliveries, receives and reports make of it, whatever other sessions do |
| LogSessionHistory.DrainReportsTheDrops | hub/internal/grpcserver/logsessions.go:61-70 | a report hands out exactly the drops since the last one, so all reports together every drop so far |
| LogSessionHistory.ClosedIsFinal | hub/internal/grpcserver/logsessions.go:73-82 | a removal closes the channel and forgets the key; nothing new is taken, and no other session changes |
| LogSessions.LogSessions.Register | hub/internal/grpcserver/logsessions.go:24-32 | a new channel and a zero counter |
| LogSessions.LogSessions.Deliver | hub/internal/grpcserver/logsessions.go:37-55 | taken exactly when registered with room; otherwise counted |
| LogSessions.LogSessions.Receive | hub/internal/server/handlers_logs.go:126-130 | the oldest waiting chunk |
| LogSessions.LogSessions.DrainOverflow | hub/internal/grpcserver/logsessions.go:61-70 | reports the counter and resets it |
| LogSessions.LogSessions.Remove | hub/internal/grpcserver/logsessions.go:73-82 | closes and forgets exactly this session |
| LogSlotModel.LimitsAlwaysHold | hub/internal/server/handlers_logs.go:141-182 | in every run at most 50 streams per server, 40 taken by non-administrators, 10 per user, 5 of a user's taken as a non-administrator |
| LogSlotModel.AdministratorGetsTen | hub/internal/server/handlers_logs.go:158-168 | while no administrator holds a slot, one that holds none gets ten in a row and not an eleventh |
| LogSlotModel.ViewerGetsFive | hub/internal/server/handlers_logs.go:141-170 | a viewer who holds none gets five in a row and not a sixth, as long as fewer than 40 streams are open on the server at each request |
| LogSlotModel.FullScan | hub/internal/server/handlers_logs.go:151-157 | the prefix scan over the table counts exactly the server's streams |
| LogSlotModel.EntryIsOfUser | hub/internal/server/handlers_logs.go:147-147 | an entry counts its user's streams on that server and nobody else's |
| LogSlots.LogTailSlots.TotalFor | hub/internal/server/handlers_logs.go:151-157 | the loop that sums the server's entries |
| LogSlots.LogTailSlots.TryAcquire | hub/internal/server/handlers_logs.go:141-170 | granted exactly within both limits; the table stays exactly the holders, with no zero entry |
| LogSlots.LogTailSlots.Release | hub/internal/server/handlers_logs.go:172-182 | exactly one of the user's slots goes; an entry that would be zero is deleted |
| LimiterModel.DecideEffect | hub/internal/server/middleware.go:254-289 | one decision: allowed exactly below the limit, and no other address changes except an evicted one |
| LimiterModel.RefinesFullHistory | hub/internal/server/middleware.go:254-289 | for an address that was never evicted the pruned table answers as the full history would: refused exactly when `limit` calls were allowed in the last window |
| LimiterModel.NoWindowExceedsLimit | hub/internal/server/middleware.go:276-287 | no window, wherever it ends, holds more than `limit` allowed calls |
| LimiterModel.TableStaysTidy | hub/internal/server/middleware.go:269-285 | no empty list and at most maxTracked addresses, for non-empty keys |
| LimiterModel.EveryCallCanBeMade | hub/internal/server/middleware.go:232-289 | after every run every address can make its call: a full table never leaves evictOldest without an answer |
| LimiterModel.EvictedWasThere | hub/internal/server/middleware.go:283-285 | an address counts as evicted only when a call of another one took its entry away |
| LimiterModel.NothingEvictedIff | hub/internal/server/middleware.go:234-251 | for a new address evictOldest may delete nothing exactly when the empty key is an oldest one |
| LimiterModel.FullTableStaysBoundedIff | hub/internal/server/middleware.go:283-287 | a new address fits a full table exactly when something is evicted, and otherwise the empty key is an oldest one |
| LimiterModel.BoundedIffNeverBlocked | hub/internal/server/middleware.go:269-287 | in every run, whatever the keys, the table is always within its bound exactly when no call was blocked: admitted for a new address while the table was full and nothing was evicted |
| LimiterModel.BlockedOnlyByTheEmptyKey | hub/internal/server/middleware.go:249-251 | a call is blocked only while the empty key is an oldest entry |
| LimiterModel.MayOutgrowIff | hub/internal/server/middleware.go:283-287 | a full table may outgrow its bound with a new address exactly when the empty key is one of its oldest entries |
| LimiterModel.BoundedForIff | hub/internal/server/middleware.go:234-287 | the table stays within its bound in every run of calls from a set of addresses exactly when the empty one is not among them, or they are no more than the bound, or nothing is ever allowed |
| LimiterModel.EmptyKeyBlocksEviction | hub/internal/server/middleware.go:249-251 | while the empty key is strictly the oldest of a full table each new address makes the table grow |
| RateLimiter.CompactInPlace | hub/internal/server/middleware.go:261-267 | the in-place compaction keeps exactly the unexpired times, in order |
| RateLimiter.Limiter.EvictOldest | hub/internal/server/middleware.go:232-252 | the loop deletes the other address with the oldest last attempt, unless that address is empty |
| RateLimiter.Limiter.DropExpired | hub/internal/server/middleware.go:258-274 | the address's list without its expired times, or no entry |
| RateLimiter.Limiter.Admit | hub/internal/server/middleware.go:280-287 | room is made when the table is full, then the call is recorded |
| RateLimiter.Limiter.constructor | hub/internal/server/middleware.go:222-230 | an empty table bounded by 100000 addresses |
| RateLimiter.Limiter.Allow | hub/internal/server/middleware.go:254-289 | one call does what the model says |
| BlacklistModel.AnswersExactlyTheRevoked | hub/internal/auth/blacklist.go:77-154 | over additions, cleanups, restarts, lookups and other processes: while a token would be valid the list answers "revoked" exactly when it was revoked |
| BlacklistModel.CleanupForgetsTheExpired | hub/internal/auth/blacklist.go:77-93 | after a cleanup memory has lost exactly the revocations that expired before now, the table exactly all that have expired by now |
| BlacklistModel.RestartLoadsTheLive | hub/internal/auth/blacklist.go:35-66 | a new process starts with exactly the revocations that have not expired |
| BlacklistModel.AddForgetsTheExpired | hub/internal/auth/blacklist.go:97-120 | an addition takes the expired out of memory too, and nothing else |
| BlacklistModel.LookupIsRemembered | hub/internal/auth/blacklist.go:124-154 | a token the list knows is answered from memory from then on, whatever becomes of the table |
| BlacklistModel.LookupOfUnknown | hub/internal/auth/blacklist.go:124-154 | a lookup that finds nothing, or only an expired row, changes nothing |
| BlacklistModel.SurvivesRestartIff | hub/internal/auth/blacklist.go:110-115 | a revocation survives a restart at every moment before its expiry exactly when the expiry is a whole second (or past) |
| TokenBlacklist.TokenBlacklist.constructor | hub/internal/auth/blacklist.go:35-66 | a new process loads the live rows |
| TokenBlacklist.TokenBlacklist.DropExpired | hub/internal/auth/blacklist.go:101-107 | the loop deletes exactly the entries that expired before now |
| TokenBlacklist.TokenBlacklist.Add | hub/internal/auth/blacklist.go:97-120 | the revocation in memory and, in seconds, in the table; expired entries go |
| TokenBlacklist.TokenBlacklist.Cleanup | hub/internal/auth/blacklist.go:77-93 | expired entries go from memory and table |
| TokenBlacklist.TokenBlacklist.IsBlacklisted | hub/internal/auth/blacklist.go:124-154 | memory first, then the live row, which is remembered |
| TokenModel.AccessTokenAcceptedIff | hub/internal/server/middleware.go:74-87 | accepted exactly when signed, unexpired, not logged out, its user was created and not deleted since, and no generation increment for that user happened since it was issued; across cleanups and restarts |
| TokenModel.UsersAreHistory | hub/internal/store/users.go:19-256 | in every run the hub knows exactly the users that were created and not deleted since |
| TokenModel.DeletionEndsEverything | hub/internal/store/users.go:256-256 | deleting a user ends every access and refresh token of that user in every continuation |
| TokenModel.OtherTokenAcceptedIff | hub/internal/server/middleware.go:74-87 | a token without a generation is accepted exactly when signed, unexpired and not logged out |
| TokenModel.RefreshAcceptedIff | hub/internal/server/handlers_auth.go:311-328 | a refresh is accepted exactly when signed, unexpired, its user was created and not deleted since, and no increment happened since it was issued |
| TokenModel.RefreshSucceedsOnce | hub/internal/server/handlers_auth.go:324-338 | a refresh token succeeds at most once, in every continuation |
| TokenModel.IncrementEndsAccess | hub/internal/store/users.go:298-315 | an increment ends every access token the user has at that moment, for good |
| TokenModel.GenerationInRun | hub/internal/store/users.go:301-315 | a user's generation equals a token's exactly when nothing was incremented since the token was issued |
| TokenModel.GenerationCounts | hub/internal/store/users.go:301-315 | a generation is the number of increments since the user was created |
| TokenModel.RevokedIffLoggedOut | hub/internal/server/handlers_auth.go:351-357 | the revocation list holds exactly the tokens that were logged out |
| TokenModel.ListIsHistory | hub/internal/server/handlers_auth.go:351-357 | the revocation list has been through exactly the log-outs of valid tokens and its own clean-ups, restarts and lookups |
| TokenModel.LoginWorks | hub/internal/server/handlers_auth.go:274-278 | a login hands an existing user a pair of the user's own that is accepted from then on until exactly its expiry |
| TokenModel.RefreshWorks | hub/internal/server/handlers_auth.go:330-348 | an accepted refresh uses up the old token and hands out a pair that works |
| TokenModel.IssueWorks | hub/internal/auth/jwt.go:48-54 | a setup or TOTP token is accepted from its issue until exactly its expiry |
| TokenModel.LifetimeIsKept | hub/internal/auth/jwt.go:18-21 | tokens live 15 minutes, 7 days, 10 minutes and 60 seconds, less at most a second |
| AuthServer.AuthServer.AuthenticateRequestToken | hub/internal/server/middleware.go:74-87 | the decision about a request's token; nothing but the list's memory changes |
| AuthServer.AuthServer.IncrementTokenGeneration | hub/internal/store/users.go:301-315 | the stored generation goes up by one, and the new one is returned |
| AuthServer.AuthServer.GenerateTokenPair | hub/internal/auth/jwt.go:34-46 | both tokens carry the generation they are given |
| AuthServer.AuthServer.HandleRefresh | hub/internal/server/handlers_auth.go:311-348 | a refused refresh changes nothing; an accepted one rotates the generation and issues the pair with the new one |
| AuthServer.AuthServer.HandleLogout | hub/internal/server/handlers_auth.go:351-357 | a token that is still valid is added to the revocation list |
| NotifierModel.EverythingAcceptedIsProcessedOnce | hub/internal/notify/notifier.go:88-99 | when Close returns every accepted job has been processed exactly once, each queue's in order, for all select choices and close orders |
| NotifierModel.NeverMoreThanAccepted | hub/internal/notify/notifier.go:216-258 | at no moment is a job processed that was not accepted, or twice |
| NotifierModel.WorkerFinishes | hub/internal/notify/notifier.go:229-258 | once both channels are closed every step of the worker makes progress, whatever its selects choose |
| NotifierModel.CloseReturns | hub/internal/notify/notifier.go:95-98 | so Close returns after at most Measure steps |
| NotifierModel.PanicsIff | hub/internal/notify/notifier.go:95-106 | a send on a closed channel happens exactly when a job is enqueued after Close began |
| NotifierModel.RefusedIff | hub/internal/notify/notifier.go:104-120 | in every run a security event is refused exactly when both queues are full, any other when the main one is |
| NotifierModel.WhereAJobGoes | hub/internal/notify/notifier.go:104-120 | the main channel comes first; the priority channel takes only security events that find it full |
| NotifierModel.PriorityWaitsForOne | hub/internal/notify/notifier.go:229-258 | while a job waits in the priority channel at most one more job of the main channel is taken before it |
| NotifierModel.MainOnlyAfterALook | hub/internal/notify/notifier.go:229-258 | while the priority channel is open no job of the main channel is taken without finding the priority channel empty first |
| NotifierModel.BlockedIff | hub/internal/notify/notifier.go:229-258 | the worker stands still exactly when it has finished or nothing waits in either channel and the one it looks at is open |
| NotifierModel.WaitingIsNotIgnored | hub/internal/notify/notifier.go:229-258 | a waiting job always lets the worker move on |
| DebounceModel.EveryEventIsAccountedFor | hub/internal/notify/notifier.go:125-182 | every offline event is superseded, cancelled, reported, dropped at shutdown or waiting; suppressed online events equal cancelled offline ones; the notifications are exactly the reported and announced ones |
| DebounceModel.NotificationsAlternate | hub/internal/notify/notifier.go:125-182 | alternating events give alternating notifications |
| DebounceModel.ReportedOnlyAfterTheDelay | hub/internal/notify/notifier.go:149-167 | an offline notification is sent exactly when the timer is due, and then the server's last event was going offline, a minute ago or more |
| DebounceModel.ServersAreIndependent | hub/internal/notify/notifier.go:125-182 | events of one server never touch another's timer or notifications |
| Notifier.Notifier.EnqueueJob | hub/internal/notify/notifier.go:104-120 | which channel takes the job, if any |
| Notifier.Notifier.DrainMain | hub/internal/notify/notifier.go:216-221 | the drain loop processes the rest of the main channel in order |
| Notifier.Notifier.Worker | hub/internal/notify/notifier.go:226-258 | the worker loop on closed channels ends with both empty and every job processed, each channel's in order, whatever is picked |
| Notifier.Notifier.Close | hub/internal/notify/notifier.go:88-99 | timers dropped, channels closed, everything processed |
| Notifier.Notifier.Notify | hub/internal/notify/notifier.go:125-145 | timers and notification for an agent going offline or coming online |
| Notifier.Notifier.TimerFires | hub/internal/notify/notifier.go:160-166 | the timer's function: its entry goes and the notification is sent |
| ConnModel.RegistryIsTheLatest | hub/internal/connmgr/connmgr.go:29-54 | in every run the registry holds, for each connected server and no other, the stream that registered last and when it was heard of |
| ConnModel.LeavingIsHistory | hub/internal/grpcserver/handler.go:154-157 | a teardown is between its halves exactly when it began while its stream was the connected one and has not finished since |
| ConnModel.SessionEndsIff | hub/internal/grpcserver/handler.go:154-177 | whatever happens between the two halves of a teardown, a session is ended exactly by a second half, for its own server, whose first half found its stream connected |
| ConnModel.FinishEffect | hub/internal/grpcserver/handler.go:158-177 | what such a second half does: the server stored as offline, all its sessions ended, the registry as it is; any other does nothing |
| ConnModel.LateFinishHitsIff | hub/internal/grpcserver/handler.go:154-177 | a second half hits a server that has reconnected exactly when it is still due while the server is connected |
| ConnModel.LateFinishHitsTheNewStream | hub/internal/grpcserver/handler.go:154-177 | the run in which the end of the old stream ends the new stream's session and stores the connected server as offline |
| ConnModel.SupersededTeardownChangesNothing | hub/internal/grpcserver/handler.go:154-157 | the end of a stream that was replaced before its teardown began changes no registry entry, status or terminal session |
| ConnModel.TeardownEndsIff | hub/internal/grpcserver/handler.go:154-179 | a teardown that nothing interrupts ends terminal sessions, its own server's only, exactly when its stream is still the connected one |
| ConnModel.CurrentTeardown | hub/internal/grpcserver/handler.go:154-179 | what the uninterrupted teardown of the connected stream does |
| ConnModel.SweepLeavesOnlyTheLive | hub/internal/grpcserver/server.go:167-188 | one sweep: kept exactly the connections heard of within 30 s, online exactly those servers, no other change |
| ConnModel.StatusIsHistory | hub/internal/grpcserver/handler.go:445-453 | in every run a server is stored as online exactly when its last handshake came after every effective second half of a teardown and every sweep that found it stale or unconnected, as pending exactly when nothing has happened to it |
| ConnModel.HandshakeStoresOnline | hub/internal/grpcserver/handler.go:450-453 | a handshake stores any known server as online, whatever its status was |
| ConnModel.SessionsAreHistory | hub/internal/grpcserver/handler.go:158-177 | a terminal session is open exactly when it was opened and no teardown of its server has finished since |
| ConnModel.OnlineMeansHeardOf | hub/internal/grpcserver/server.go:167-188 | after a sweep a server is online exactly when its last handshake holds and its connected stream was heard of within 30 s, over histories |
| ConnManager.ConnManager.Register | hub/internal/connmgr/connmgr.go:29-37 | the new connection replaces the old one |
| ConnManager.ConnManager.UnregisterIfCurrent | hub/internal/connmgr/connmgr.go:45-54 | removed exactly when the stream is the registered one |
| ConnManager.ConnManager.UpdateHeartbeat | hub/internal/connmgr/connmgr.go:72-78 | the shared connection object's time changes, nothing else |
| ConnManager.ConnManager.StaleConnections | hub/internal/connmgr/connmgr.go:80-91 | exactly the connections older than the cutoff |
| ConnManager.Monitor.Sweep | hub/internal/grpcserver/server.go:167-188 | the two loops do what the model says |
| TotpModel.ReplayFreeIff | hub/internal/auth/totp_cache.go:48-56 | a retention prevents every replay exactly when it covers the three steps in which a code is valid (section 5.2 of RFC 6238) |
| TotpModel.SourceIsReplayFree | hub/internal/auth/totp_cache.go:51-51 | the 90 seconds of the source do |
| TotpModel.ShortRetentionAllowsReplay | hub/internal/auth/totp_cache.go:48-56 | the run that replays a code under any shorter retention |
| TotpModel.ValidIffInSkew | hub/internal/auth/totp.go:28-30 | a code is valid exactly when it belongs to a step within the skew |
| TotpModel.CodeIsAcceptedOnce | hub/internal/auth/totp.go:27-35 | a string accepted while step k is valid is refused for as long as k is valid, whatever else is checked |
| TotpModel.CacheReflectsHistory | hub/internal/auth/totp_cache.go:41-56 | the cache entry of a user and code is the time of an accepted use within the retention of the last accepted check, if there is one |
| TotpModel.AcceptedIffUnused | hub/internal/auth/totp.go:27-35 | a code is accepted exactly when it is valid and no accepted use of the same string by the same user lies within the retention of the last accepted check; a code that is not valid uses nothing up |
| TotpCache.TotpUsedCodes.CheckAndMark | hub/internal/auth/totp_cache.go:41-56 | check, mark and the cleanup loop as one step |
| CoalescerModel.WrittenIff | hub/internal/grpcserver/heartbeat_coalescer.go:38-52 | a heartbeat is written exactly when the previous recorded write is an interval ago or was flushed |
| CoalescerModel.WritesAreSpaced | hub/internal/grpcserver/heartbeat_coalescer.go:38-62 | consecutive written heartbeats are an interval apart unless a flush intervened, forced writes or not |
| CoalescerModel.WritesSpan | hub/internal/grpcserver/heartbeat_coalescer.go:38-62 | so n of them with no flush in between span at least n - 1 intervals |
| CoalescerModel.StoredTimeLagsLittle | hub/internal/grpcserver/heartbeat_coalescer.go:38-87 | the stored last_seen_at lags the newest sign of life by less than the interval plus a second |
| CoalescerModel.StoredIsHistory | hub/internal/grpcserver/heartbeat_coalescer.go:38-87 | last_seen_at is the second of the last write: a due heartbeat, a forced write, a flush, or FlushAll while the server was tracked |
| CoalescerModel.ServersAreIndependent | hub/internal/grpcserver/heartbeat_coalescer.go:38-87 | one server's writes do not depend on another's heartbeats |
| HeartbeatCoalescer.HeartbeatCoalescer.RecordHeartbeat | hub/internal/grpcserver/heartbeat_coalescer.go:38-52 | written exactly when due |
| HeartbeatCoalescer.HeartbeatCoalescer.ForceWrite | hub/internal/grpcserver/heartbeat_coalescer.go:56-62 | written and recorded always |
| HeartbeatCoalescer.HeartbeatCoalescer.FlushOne | hub/internal/grpcserver/heartbeat_coalescer.go:66-72 | written and forgotten |
| HeartbeatCoalescer.HeartbeatCoalescer.FlushEverything | hub/internal/grpcserver/heartbeat_coalescer.go:75-87 | the loop writes exactly the tracked servers and forgets them |
| Paths.CleanIsIdempotent | agent/internal/client/client.go:199-199 | cleaning a cleaned path changes nothing: rendering and parsing are inverse |
| PathMeaning.CleanKeepsTheMeaning | agent/internal/client/client.go:199-199 | in every directory tree without links a path and its cleaned form lead to the same place, ".." and all |
| PathMeaning.CleanedIffSameMeaning | agent/internal/client/client.go:199-199 | two paths have the same cleaned form exactly when they lead to the same place in every such tree |
| PathMeaning.DownAndUpIsNothing | agent/internal/client/client.go:199-199 | going into an entry and back changes nothing, nor does staying; the root has nothing above it |
| Paths.WithinIffBelow | agent/internal/client/client.go:237-243 | the string tests on the relative path hold exactly when the root's elements are a prefix of the path's and the rest does not climb |
| Paths.AbsoluteWithinIffPrefix | hub/internal/server/handlers_files.go:160-171 | for absolute paths exactly the prefix relation |
| PathMeaning.WithinIffLeadsDown | agent/internal/client/client.go:237-243 | a path is within a root exactly when, in every tree without links, it leads from the root only down, through the same entries |
| PathMeaning.RelLeadsThere | agent/internal/client/client.go:237-243 | the relative path leads from the base to the target, and two absolute paths always have one |
| PathMeaning.RelOfSelf | agent/internal/client/client.go:237-243 | the relative path is "." exactly for the directory itself |
| PathMeaning.NeighbourIsOutside | hub/internal/server/handlers_files.go:160-171 | a path that leaves the root by ".." for another entry is not within it |
| Paths.WithinIsTransitive | agent/internal/client/client.go:237-243 | containment composes |
| Paths.ChildIsWithin | agent/internal/filebrowser/filebrowser.go:109-113 | every path a listing reports is within the same root, within the directory, and not the directory itself |
| Paths.HubIsPathAllowed | hub/internal/server/handlers_files.go:155-174 | the loop: allowed exactly below one of the user's roots |
| Paths.AgentWithinAllowedRoots | agent/internal/client/client.go:214-235 | the loop over roots and what they resolve to |
| Paths.AgentIsPathAllowed | agent/internal/client/client.go:195-212 | without a list everything; otherwise the path and what it resolves to must be under a root |
| Paths.SidesAgree | agent/internal/client/client.go:195-212 | where nothing is a link, existing or not, hub and agent agree exactly on non-empty lists |
| Paths.MayDeleteIffContinues | agent/internal/client/client.go:372-374 | the prefix test on cleaned strings amounts to a proper prefix of elements, whatever follows |
| Paths.MayDeleteIffStrictlyBelow | agent/internal/client/client.go:368-377 | for a dropzone that does not end in "..": a path is deleted exactly when it resolves to something strictly below the dropzone directory |
| PathMeaning.SiblingIsOutside | agent/internal/client/client.go:368-377 | what lies beside the dropzone directory is neither within it nor deleted from it, by its path or through the alias |
| PathMeaning.JoinLeadsThere | agent/internal/client/client.go:245-255 | joining a directory and a name leads where the name leads from the directory |
| PathMeaning.AliasLeadsThere | agent/internal/client/client.go:245-255 | the alias stands for the dropzone directory at the start of a path and nowhere else |
| PathMeaning.DropzoneIsNotDeleted | agent/internal/client/client.go:368-377 | the alias itself, the dropzone directory, is never deleted |
| Paths.ClimbingDropzoneDeletesOutside | agent/internal/client/client.go:368-377 | from any other dropzone a path above it is accepted |
| Paths.DotDotDropzone | agent/internal/client/client.go:368-377 | the smallest such case: a dropzone ".." and the path "../.." |
| Paths.DeletesOnlyBelowIff | agent/internal/client/client.go:368-377 | deletion stays strictly below the dropzone for every request exactly when the dropzone, cleaned, does not end in ".." |
| Paths.FilesInsideMayBeDeleted | agent/internal/client/client.go:245-255 | every file inside may be deleted through the alias |

## Left out

- TerminalModel.ExitIsOnceAndLast: the delivery of an exit is one step here, so the exit is never lost; ExitDelivery has its steps apart, for one channel, and says exactly when it is.
- UploadTheorems.SuccessMeansComplete: one agent, whose request identifiers are unique; assumes no upload of the run asks for the name of a request's temporary file, and that no chunk of an old stream is handled after Cleanup.
- UploadModel.HandleKeepsInv: a send that vanishes unnoticed is a send into a stream that is already dead; the buffer inside gRPC is part of the FIFO stream.
- LogTailer.Follow: one poll is one step except for data appended between Stat and the read; rotation during a read is not modelled.
- LogFilter.FilterIsGrep: lower-casing is an arbitrary function from bytes to bytes; the pattern is taken as already lowered.
- LimiterModel.RefinesFullHistory: says nothing about an address after it was evicted from a full table.
- TokenModel.RefreshSucceedsOnce: the check of the generation and its increment are one step; in the source two requests can pass the check together.
- TotpModel.CodeIsAcceptedOnce: validating and marking are one step, and the cache of one process is meant; a restart empties it.
- TotpModel.ValidIffInSkew: a code is compared as given; the library that validates codes is not part of this model, so codes are taken to be normalized (no surrounding spaces) before they are checked and marked.
- Notifier.Notifier.Worker: the method runs on closed channels; the worker among concurrent enqueues is in NotifierModel.
- UploadNames.NameIsSafeIff: request ids are canonical random UUIDs, as the generator's name says; the generator itself is not part of this model.
- DebounceModel.EveryEventIsAccountedFor: a timer that fires is one step, so a callback that races with Stop or Close is not modelled.
- ConnModel.SweepLeavesOnlyTheLive: the sweep is one step and its database writes succeed; "connected implies online" between sweeps is not claimed.
- ConnModel.StatusIsHistory: servers are added and never deleted.
- ConnModel.FinishEffect: the second half of a teardown, the status write and the end of the sessions, is one step.
- CoalescerModel.StoredTimeLagsLittle: the recorded time and the time the database write stamps are the same.
- Paths.ChildIsWithin: lexical; symbolic links are an arbitrary function where the agent resolves them, and races on the file system are not modelled.
- Classes run one method after the other; the interleavings are in the model modules. Aliasing is modelled where the source shares objects: connection objects and response channels. Terminal and log channels are numbered.
- The lists of blocked paths, MIME detection, offsets and limits of file reads.
- Starting and signalling processes, pseudo terminals, their input and size, user switching on the agent.
- X.509, TLS, JWT signatures (a token is validly signed when the hub issued it), password hashing, API tokens.
- HTTP routing, cookies, CSRF, multipart parsing, SMTP, LDAP, SQL text, the web interface.
- The audit log: its hash chain formats pointers, so it cannot be recomputed from rows; its time filters compare differently formatted strings.
