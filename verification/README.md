# Peer-to-peer file send: verified model

Two browsers meet in a room on a small signaling server, open a WebRTC connection and send each
other files over data channels. This project models the two protocols of that program in Dafny and
proves what they promise, over every run.

**The transfer engine.** A sender offers files, the receiver accepts them, and at most four
coroutines at a time stream accepted files, each over a data channel of its own. A coroutine is a
small-step machine whose resume points are its awaits: the channel opening, a slab read, the send
buffer draining. `TransferEngine.Engine` joins the sender's queue, all coroutines, one FIFO per file
channel, the two directions of the control channel, the receiver's routers and buffers, and the
sender's rows. Its steps are the users' actions, the delivery of one frame, and one wake-up of one
coroutine, in any order. `ReceiverRows.Page` adds the receiver's rows and the buttons that the page
shows for them. `TwoWay.Session` lets both peers send at once, over one control channel each way and
one row list each; every run of it is, seen from either direction, a run of that page.

**The signaling system.** The server keeps a two-way room index, a limiter of failed joins and a
queue per connection. Every client runs one pure reducer under a socket that reconnects by itself.
`SignalingSystem.System` joins any number of clients, the server and a FIFO in each direction of
every connection, logs what every page does on its reducer's word, and lets sockets dial, open, hang
and drop at any time. The server's registry does
not check that a connection is placed in a room only once; that it happens only once is proved of the
whole system.

## How the files are organised

| file | contents |
|---|---|
| `Prelude.dfy` | options, flattening, distinctness |
| `Protocol.dfy` | frames, byte ranges, two-level chunking |
| `TransferState.dfy` | sender queue and receiver buffer, speed window |
| `Scheduler.dfy` | the queue with its history: conservation, order, cap, progress |
| `SendTask.dfy` | one streaming coroutine |
| `SendCounts.dfy` | what a coroutine counts: reports, buffer, message sizes, how far one wake-up gets |
| `Receiver.dfy` | routers and buffers against the channels they read |
| `Rows.dfy` | the row operations on a map (`RowMaps`) and the list that refines it (`Rows`) |
| `TransferEngine.dfy` | both peers and all channels |
| `Cancellation.dfy` | what a cancel or abort of a streaming file promises |
| `Delivery.dfy` | which files can still land: exactly when a flag, a cancel or an abort settles it |
| `ReceiverRows.dfy` | the receiver's rows beside the engine, under the buttons shown |
| `RowFacts.dfy`, `SenderRows.dfy` | what the rows of receiver and sender show: names, sizes, fractions, speeds, states |
| `OpenOffers.dfy`, `Clicks.dfy` | that a waiting offer is still open, that every click arrives, and that nothing else is shown |
| `Witnesses.dfy` | runs of the page that end where a promise of the code fails |
| `TwoWay.dfy` | both directions at once, over shared control channels and row lists |
| `Peer.dfy` | the handlers of one peer, in place |
| `Rooms.dfy`, `Limiter.dfy`, `Server.dfy` | the server |
| `Reconnect.dfy`, `Signaling.dfy` | the client's reducer and its socket supervisor |
| `SignalingSystem.dfy` | all clients and the server |
| `Recovery.dfy` | what a reconnecting client ends up as, and what it shows |
| `Handshake.dfy` | how two pages come to a connection, and whose descriptions they use |
| `ShareLink.dfy` | share links and typed codes |

An object that the program updates in place is a class here (`Outgoing`, `Incoming`, `Sender`,
`Peer`, `RowList`, `RoomRegistry`, `JoinLimiter`, `AppState`, `Session`, `SignalingClient`). Its
`View` is a value, and each method states its whole new view as a function of the old one; the
theorems are about those functions. Runs are sequences of operations; an operation that cannot
happen in a state changes nothing there.

## Where the code differs from what it says

- The comment on `next_backoff` says a large attempt saturates to the cap. Shifting 500 by 62 or 63
  leaves no bit, so the delay is 0 there (`Signaling.BackoffIsExact`).
- A final 100% is reported for every file that was not cancelled, also after a read was refused, so a
  row can say done with no byte sent (`Witnesses.RefusedReadShowsDone`).
  `TransferEngine.DoneIsSentIffNeverRefused` says exactly when a done row means that all was sent.
- A file without bytes sends `End` although it was flagged, so a cancelled one can still land
  (`Witnesses.CancelledEmptyFileCanLand`). `Delivery.FlaggedIsNeverSavedIffNonEmpty` says that having
  bytes is exactly what makes a flag final.
- A receiver's cancel that overtakes `Start` is forgotten: `Start` creates the buffer anew
  (`Witnesses.CancelCanBeOvertaken`).
  `Delivery.CancelLastsUnlessOvertaken` says exactly when a cancel lasts, for streaming, queued and
  offered files alike.
- A join of a vanished room is recorded as a failed attempt, so an owner who comes back with one attempt
  left in the minute is refused its reclaim as well (`Recovery.ReconnectSettles` has the exact outcome).
- The registry accepts a room id that is live and a peer that is placed; `Rooms.CreateAgreesIff` and
  `Rooms.JoinAgreesIff` say exactly when that breaks the index.

## Model

| member | source | states |
|---|---|---|
| Protocol.SplitRanges | crates/client/src/protocol.rs:73-86 | For every 64-bit total: the loop returns the greedy cut, which for a positive step covers the file without gap, overlap or empty range, or reports the overflow of `start + step` |
| Protocol.SumsFitIff | crates/client/src/protocol.rs:80-82 | That sum overflows if and only if the total, rounded up to whole steps, reaches 2^64 |
| Protocol.BrowserSizesFit | crates/client/src/protocol.rs:80-82 | It never does for sizes up to 2^53 and 32-bit steps |
| Protocol.RangesTile | crates/client/src/protocol.rs:73-86 | The cut covers its interval, and every range but the last is exactly one step long |
| Protocol.RangesUnique | crates/client/src/protocol.rs:73-86 | It is the only cut with that property |
| Protocol.WireRangesTile | crates/client/src/transfer.rs:391-449 | Slabs cut into messages cover the file in order, no message empty or above the chunk size |
| Protocol.WireRangesEqualSplit | crates/client/src/transfer.rs:420-449 | Slabs are invisible on the wire if and only if the file fits one slab or the chunk divides a slab |
| SendTask.SlabsAreRanges | crates/client/src/transfer.rs:391-416 | The slab index of the send loop walks the ranges of the slab cut |
| SendTask.ChunkBounds | crates/client/src/transfer.rs:346-358 | A chunk is at least 1, never above the negotiated limit, and the 32-bit offset sum never overflows |
| SendTask.ChunkIsLargest | crates/client/src/transfer.rs:346-358 | And no larger chunk would be allowed by the program and the negotiated limit |
| SendTask.RemainingIsCutSlabs | crates/client/src/transfer.rs:403-450 | What a coroutine still has to send from a slab boundary is the slab-wise cut of the rest |
| SendTask.Sender.constructor | crates/client/src/transfer.rs:367-402 | A new coroutine has sent nothing and waits for its channel |
| SendTask.Sender.SendOne | crates/client/src/transfer.rs:424-448 | One chunk goes on the channel: the right bytes, the counts and the report move together |
| SendTask.Sender.StreamSlab | crates/client/src/transfer.rs:420-452 | The chunk loop ends where the small-step machine does: flagged, parked on a full buffer, at the next slab, or after `End` |
| SendTask.Sender.ResumeOpen | crates/client/src/transfer.rs:280-297 | Channel open: `Start`, the chunk size, and `End` at once for an empty file even if flagged |
| SendTask.Sender.ResumeSlab | crates/client/src/transfer.rs:404-449 | Slab read: the flag is consulted before the first chunk |
| SendTask.Sender.ResumeDrain | crates/client/src/transfer.rs:434-448 | Buffer drained: the flag is consulted again before the parked chunk is sent |
| SendTask.StepKeeps | crates/client/src/transfer.rs:367-454 | Every wake-up keeps framing, position and course: sent messages followed by remaining ones are the file's messages |
| SendTask.StepExtends | crates/client/src/transfer.rs:367-454 | Frames and reports are only appended, and an ended coroutine stays ended |
| SendTask.PayloadsArePrefix | crates/client/src/transfer.rs:420-449 | At every moment the bytes on the channel are exactly the first `sent` bytes of the file |
| SendTask.SentIsWhole | crates/client/src/transfer.rs:420-453 | A coroutine that sent `End` sent the whole file, cut along the wire ranges |
| SendTask.BufferStaysBelowCeiling | crates/client/src/transfer.rs:36-43 | For every drain schedule, no binary send leaves more than the high mark plus one chunk buffered, below 16 MB |
| SendTask.FlaggedIsSilent | crates/client/src/transfer.rs:404-444 | A flagged coroutine of a non-empty file sends no chunk and no `End` and reports nothing |
| SendTask.NextProgresses | crates/client/src/transfer.rs:403-453 | With an empty buffer, the awaited wake-up stops a flagged coroutine of a non-empty file, and otherwise finishes the file or gets strictly nearer to it; an empty file is finished although flagged |
| SendTask.FailsOnlyRefused | crates/client/src/transfer.rs:408-416 | Nothing but a refused read makes a coroutine fail |
| SendCounts.ReportsCount | crates/client/src/transfer.rs:442-448 | After any wake-ups there is one report per message, each the exact number of bytes sent by then, and no buffer is fuller than the fullest noted after a send |
| SendCounts.ExecChunk | crates/client/src/transfer.rs:296-297 | The chunk size in use is the one for the limit found when the channel opened |
| SendCounts.MessagesFitTheLimit | crates/client/src/transfer.rs:346-358 | In every run no message is empty and none exceeds the negotiated limit |
| SendCounts.BufferConserves | crates/client/src/transfer.rs:424-448 | Over any wake-ups, `Start` and file bytes put in the buffer are the bytes flushed from it plus the bytes in it |
| SendCounts.WakeFinishesSlabUnlessFull | crates/client/src/transfer.rs:420-449 | An unflagged wake-up sends the rest of its slab and no byte of the next, and stops short only where the buffer is above the high mark |
| SendCounts.SmallFileNeedsNoDrain | crates/client/src/transfer.rs:431-441 | A file that fits the high mark with its `Start` is sent whole by two wake-ups, without any drain |
| TransferState.Outgoing.constructor | crates/client/src/transfer_state.rs:40-50 | A new sender has nothing offered, queued, active or cancelled |
| TransferState.Outgoing.EnqueueAccepted | crates/client/src/transfer_state.rs:53-57 | An offered id moves to the end of the queue with its file; any other id changes nothing |
| TransferState.Outgoing.Schedule | crates/client/src/transfer_state.rs:61-69 | The loop starts queued files from the front while slots are free |
| TransferState.Outgoing.CancelOutgoing | crates/client/src/transfer_state.rs:73-77 | A cancel forgets the offer, filters the queue in order, and sets the flag |
| TransferState.ScheduleStarts | crates/client/src/transfer_state.rs:61-69 | With distinct idle ids, scheduling starts exactly the first min(queue, free slots) entries |
| TransferState.Incoming.UpdateSpeed | crates/client/src/transfer_state.rs:115-128 | The window opens at the first sample and closes after at least 250 ms |
| TransferState.Incoming.AccountChunk | crates/client/src/transfer_state.rs:82-92 | Bytes are counted always, and reported only once the meta is known |
| TransferState.Incoming.FinalizeDecision | crates/client/src/transfer_state.rs:96-98 | The meta is taken out once |
| TransferState.ClosedByConserves | crates/client/src/transfer_state.rs:115-128 | One sample: closed window plus open window gain exactly the sample's bytes |
| TransferState.SpeedWindowConserves | crates/client/src/transfer_state.rs:82-128 | Over any samples and clock, speed times time of the closed windows plus the open window is the bytes received, and each closed window lasted 250 ms |
| TransferState.WindowsAbut | crates/client/src/transfer_state.rs:115-128 | Over any samples, windows follow one another without gap or overlap, the open one is younger than 250 ms, and the speed on show is that of the last one closed |
| TransferState.FirstWindowOpens | crates/client/src/transfer_state.rs:115-121 | The first sample of a buffer opens its first window |
| Scheduler.StepKeeps | crates/client/src/transfer.rs:174-192 | Every handler keeps conservation, payloads, order and the cap |
| Scheduler.RunsAreSafe | crates/client/src/transfer.rs:174-322 | After every run: each id ever offered is in exactly one place with its file, starts follow accepts in order and happen once, at most four are active, and no slot idles while a file waits |
| Scheduler.StartedOnlyAfterAccept | crates/client/src/transfer.rs:176-186 | No file is started unless an Accept for it was handled |
| Scheduler.PumpStarts | crates/client/src/transfer_state.rs:61-69 | Scheduling moves the head of the queue to the starts, as much as fits |
| Scheduler.PumpRestores | crates/client/src/transfer.rs:314-322 | Scheduling restores the full invariant after a slot was freed |
| Scheduler.FinishAdvances | crates/client/src/transfer.rs:314-322 | A completion starts exactly the head of the queue, and one file fewer is waiting or streaming |
| Scheduler.StartsByCompletion | crates/client/src/transfer.rs:314-322 | A file at queue index i has started by the (i+1)th completion, unless cancelled in the queue |
| Scheduler.CompletionsDrain | crates/client/src/transfer.rs:314-322 | Completions take one away each, one is possible until nothing is left, and then the queue is empty |
| Scheduler.FlagLastsToTheEnd | crates/client/src/transfer.rs:299-304 | A cancel flag lasts over any run until its coroutine ends, and goes with it |
| Receiver.NextFrame | crates/client/src/transfer.rs:218-252 | The next frame of a channel is its `Start`, a chunk of its file, or its own `End` |
| Receiver.StrayFramesChangeNothing | crates/client/src/transfer.rs:216-261 | Control frames on a file channel, and bytes or an end before its `Start`, change nothing |
| Receiver.EndNamesNothing | crates/client/src/transfer.rs:232-246 | An `End` closes the file its own channel named, whatever id it carries |
| Receiver.FirstStartCounts | crates/client/src/transfer.rs:222-231 | A second `Start` takes back neither the bytes nor the description of the first |
| Receiver.FinalizeTakesOut | crates/client/src/transfer.rs:484-508 | The buffer is taken out in any case, and saved if and only if its file was described |
| Receiver.ReceiveKeeps | crates/client/src/transfer.rs:209-265 | One delivered frame keeps every buffer a mirror of its channel, every save exact, and nothing lost |
| Receiver.DropKeeps | crates/client/src/transfer.rs:137-143 | So does dropping a buffer, at any time |
| Receiver.CarryKeeps | crates/client/src/transfer.rs:161-163 | So do wake-ups of senders and the opening of new channels |
| Receiver.ReceiveProgresses | crates/client/src/transfer.rs:218-265 | A channel with its buffer keeps it until `End`, which saves the file |
| Receiver.ReceiveForgets | crates/client/src/transfer.rs:247-252 | After a drop in mid-channel, no frame of any channel brings the file back |
| Peer.Peer.constructor | crates/client/src/transfer.rs:91-101 | A new session has empty halves |
| Peer.Peer.HandleControl | crates/client/src/transfer.rs:167-205 | Accept, Reject and Cancel change only the sending half and Abort only the receiving half, as the scheduler and the receiver say; the rows change as shown to the user |
| Peer.Peer.OfferFiles | crates/client/src/transfer.rs:112-123 | One Offer per file, in order and with its own description, and every file is remembered under its id |
| Peer.BatchIsAdds | crates/client/src/transfer.rs:112-123 | Offering a batch is adding its files one by one in the session of both peers |
| Peer.AnswersShowAlike | crates/client/src/app.rs:174-182 | An answer shows on the rows of a peer what it shows in the session of both |
| Peer.Peer.AcceptOffer | crates/client/src/transfer.rs:126-128 | The sender is told |
| Peer.Peer.RejectOffer | crates/client/src/transfer.rs:131-133 | The sender is told |
| Peer.Peer.OnFrame | crates/client/src/transfer.rs:216-265 | The handler of a file channel does what the receiver's step says, to the buffer objects and to the rows |
| Peer.Peer.OnStart | crates/client/src/transfer.rs:222-231 | The buffer is created unless it exists, its meta set unless known |
| Peer.Peer.OnBytes | crates/client/src/transfer.rs:247-261 | Bytes are buffered, counted and reported, unless the buffer is gone |
| Peer.Peer.Finalize | crates/client/src/transfer.rs:484-508 | The buffer is taken out, its chunks are put together in order, and they are saved and shown exactly when a meta was known |
| Peer.Peer.CancelIncoming | crates/client/src/transfer.rs:137-143 | A local cancel tells the sender and drops the buffer, and nothing else |
| Peer.Peer.AbortOutgoing | crates/client/src/transfer.rs:148-151 | A local abort flags the outgoing file and tells the receiver |
| Peer.Peer.OpenChannel | crates/client/src/transfer.rs:161-163 | A new channel starts with no id known |
| Peer.Peer.EndTask | crates/client/src/transfer.rs:299-322 | An ended coroutine clears its flag or reports 100%, frees its slot and starts what the scheduler's completion starts |
| TransferEngine.StepKeeps | crates/client/src/transfer.rs:167-322 | Every step of either peer or any channel keeps queue, coroutines, receiver and rows in agreement |
| TransferEngine.RunExtends | crates/client/src/transfer.rs:181-183 | Every start opens exactly one new channel and disturbs no other |
| TransferEngine.EndToEndExact | crates/client/src/transfer.rs:367-508 | In every reachable state, every saved file has exactly the name, size, type and bytes of the file offered under its id, and no id is saved twice |
| TransferEngine.NothingLostAtEnd | crates/client/src/transfer.rs:232-246 | A channel read to its `End` has saved its file, unless the receiver dropped it |
| TransferEngine.DoneMeansSentOrRefused | crates/client/src/transfer.rs:298-312 | A row that says done belongs to a coroutine that sent the whole file or was refused a read |
| TransferEngine.DoneIsSentIffNeverRefused | crates/client/src/transfer.rs:298-312 | Over every run, a done row means that the whole file was sent if and only if no step of the run refused its coroutine a slab it waited for |
| TransferEngine.FailedIffRefused | crates/client/src/transfer.rs:408-416 | A coroutine has failed if and only if some step of the run refused it the slab it waited for |
| TransferEngine.SavedOnlyWithConsent | crates/client/src/transfer.rs:126-128 | A file is saved only if the receiving user accepted it |
| TransferEngine.OffersAreTrue | crates/client/src/transfer.rs:112-123 | In every reachable state an offer under way has the id, name, size and type of the file that id stands for, so what is saved is what was offered |
| TransferEngine.ReportIs | crates/client/src/rows.rs:105-128 | A coroutine's reports touch its own row only, and leave it done only at the full count |
| Cancellation.CancelIsFinal | crates/client/src/transfer.rs:404-450 | From the moment a streaming coroutine of a non-empty file is flagged, no run makes it send a byte or `End` or report, and its row is never active or done again |
| Cancellation.PeerCancelHalts | crates/client/src/transfer.rs:189-192 | Delivering the peer's cancel to a running coroutine starts that state, for good |
| Cancellation.LocalAbortHalts | crates/client/src/transfer.rs:148-151 | So does the local user's abort |
| Cancellation.HaltedIsNeverSaved | crates/client/src/transfer.rs:404-450 | And in no run does the other peer ever save that file |
| Delivery.FlaggedIsNeverSavedIffNonEmpty | crates/client/src/transfer.rs:404-452 | In every reachable state, the file of a flagged running coroutine is never saved, over all runs, if and only if it has bytes |
| Witnesses.CancelledEmptyFileCanLand | crates/client/src/transfer.rs:404-452 | A run of the page after which an empty file is flagged and cancelled in both rows, and from which it can still be saved and its row still say done |
| Cancellation.BarredIsNeverSaved | crates/client/src/transfer.rs:404-452 | A file with bytes whose coroutine is flagged or ended early is not saved in any run |
| Witnesses.RefusedReadShowsDone | crates/client/src/transfer.rs:298-307 | A run of the page, every click on a button it shows, in which a refused read ends with a done row, no byte sent and a file that is never saved |
| Delivery.CancelLastsUnlessOvertaken | crates/client/src/transfer.rs:137-143 | A receiver's cancel of any offered, unsaved file keeps it away over every run if and only if nothing overtakes it: no unflagged coroutine with an unread `Start`, no place in the queue, no Accept on the way |
| Delivery.OvertakingLands | crates/client/src/transfer.rs:226-246 | A file that overtakes the cancel is brought to a save without any further click |
| Delivery.StartQueued | crates/client/src/transfer.rs:314-322 | Ending the streaming coroutines, flagged or not, brings a queued file to a channel |
| Delivery.StartOffered | crates/client/src/transfer.rs:174-184 | So does delivering the control channel, for an offered file whose next answer is an Accept |
| Delivery.RefusedForGood | crates/client/src/transfer.rs:185-192 | A file whose next answer is a Reject or a Cancel, or that is out already, is not saved in any run |
| Delivery.CancelSticksIffStarted | crates/client/src/transfer.rs:137-143 | For a file whose coroutine has started and is not stopped by a flag: if and only if its `Start` had arrived |
| Delivery.GoneForGood | crates/client/src/transfer.rs:247-252 | A file dropped after its `Start` is never saved, whatever follows |
| Delivery.CanStillBeSaved | crates/client/src/transfer.rs:226-246 | An unflagged coroutine whose receiver still listens can always be brought to a saved file |
| Delivery.DriveToEnd | crates/client/src/transfer.rs:403-453 | Wake-ups alone bring any running coroutine to its end, and to `End` if and only if no flag hinders it |
| ReceiverRows.DoneIffSaved | crates/client/src/transfer.rs:484-508 | Whatever is clicked and delivered, an incoming row says done if and only if its file was saved |
| ReceiverRows.ReceiverCancelIsFinal | crates/client/src/transfer.rs:137-143 | After a click on cancel that follows `Start`, no late frame, abort or click makes the row active or done again, and the file is never saved |
| ReceiverRows.CancelledNeverDoneUnlessOvertaken | crates/client/src/app.rs:546-554 | A click on cancel at any time keeps the row from ever saying done if and only if nothing overtakes it |
| Witnesses.CancelCanBeOvertaken | crates/client/src/app.rs:546-554 | A run of the page after which a cancel of the shown button is overtaken, so that the row can say done later |
| ReceiverRows.OwnRowActive | crates/client/src/rows.rs:105-128 | A woken coroutine leaves its sender's row active only while its file has bytes and is not all sent |
| ReceiverRows.AbortIsFinal | crates/client/src/app.rs:557-565 | After a click on abort in any page run, whatever follows: the file is never saved, the receiver's row never says done, and the sender's row stays cancelled or declined |
| ReceiverRows.AbortShowsUnsent | crates/client/src/ui.rs:236-257 | In every page run the abort button stands only on a row whose file has bytes and is not all sent |
| RowFacts.IncomingRowTells | crates/client/src/rows.rs:36-102 | In every page run an incoming row has the name and size of the file of its id, shows nothing received while undecided, and all of it when done |
| RowFacts.IncomingRowShowsBytes | crates/client/src/rows.rs:56-78 | In every page run, while a file comes in, its row is active and shows exactly the fraction of its bytes delivered so far, and its buffer's speed |
| RowFacts.SpeedIsOfItsDeliveries | crates/client/src/transfer.rs:247-261 | Over every run, bytes and speed of a buffer are what the lengths and clocks of the deliveries on its own channel make of an empty one |
| SenderRows.OutgoingRowTells | crates/client/src/rows.rs:105-172 | In every reachable state there is an outgoing row for every offered file and for nothing else, with its name and size, nothing sent while only offered, and all of it when done |
| SenderRows.OutgoingRowShowsBytes | crates/client/src/rows.rs:105-128 | While a file goes out, its row shows exactly the fraction of its bytes that its coroutine has put on the channel |
| Clicks.ShownWasClicked | crates/client/src/app.rs:174-186 | Over every run, a sender's row says declined only if the receiver declined, and cancelled only if one of the two cancelled |
| Clicks.DeclineArrives | crates/client/src/transfer.rs:185-188 | A decline, once delivered, leaves the sender's row declined and the offer forgotten |
| Clicks.CancelArrives | crates/client/src/transfer.rs:189-192 | A receiver's cancel, once delivered, leaves the file flagged, off the queue, and its row cancelled unless it was done |
| Clicks.AbortArrives | crates/client/src/transfer.rs:193-198 | An abort, once delivered, leaves the receiver without buffer and its row cancelled |
| Clicks.OfferArrives | crates/client/src/transfer.rs:173 | An added file, once its offer is delivered, has a row at the receiver |
| Clicks.DeclinedIsGone | crates/client/src/app.rs:535-544 | After a click on decline, in no run does the file show up again on the page, and it is never saved |
| OpenOffers.OfferedIsOpen | crates/client/src/ui.rs:161-185 | In every page run, a row that asks for a decision is of a file the sender still offers, unflagged, with no answer under way |
| Clicks.AcceptLands | crates/client/src/transfer.rs:174-184 | An accept of an open offer can be followed, without any further click, by the file being saved |
| Clicks.AcceptedCanBeDone | crates/client/src/app.rs:524-534 | So in every page run, whenever a decision is asked for, an accept can lead to a row that says done |
| TwoWay.ActMoves | crates/client/src/transfer.rs:167-205 | Whatever one peer does with the shared channels and row list is at most one move of each direction, as if that direction were alone |
| TwoWay.BothFollow | crates/client/src/transfer.rs:167-265 | So every run of both directions projects to a page run of each |
| TwoWay.BothWaysExact | crates/client/src/transfer.rs:112-265 | In every run of both directions, with overlapping ids: each peer saves exactly what the other offered and nothing twice, an incoming row says done if and only if its file was saved, and an outgoing one only if its file was sent or refused |
| Rows.RowList.Upsert | crates/client/src/rows.rs:19-33 | Find-or-append is one update of the map, and keeps keys unique and in place |
| Rows.RowList.IncomingOffer | crates/client/src/rows.rs:36-53 | A repeated offer changes nothing |
| Rows.RowList.RecvProgress | crates/client/src/rows.rs:56-78 | The incoming row of the id becomes active with this fraction and speed |
| Rows.RowList.RecvComplete | crates/client/src/rows.rs:81-102 | The incoming row of the id becomes done |
| Rows.RowList.SendProgress | crates/client/src/rows.rs:105-128 | The outgoing row of the id becomes done at fraction 1 and active below |
| Rows.RowList.PushPending | crates/client/src/rows.rs:133-144 | A pending row is appended, and keys stay unique if and only if the id was new |
| Rows.RowList.MarkOffered | crates/client/src/rows.rs:149-155 | Only a pending outgoing row becomes offered |
| Rows.RowList.MarkRejected | crates/client/src/rows.rs:158-162 | The outgoing row becomes declined |
| Rows.RowList.MarkCancelledRemote | crates/client/src/rows.rs:166-172 | The outgoing row becomes cancelled unless it is done |
| Rows.RowList.MarkAllActiveCancelled | crates/client/src/rows.rs:178-184 | Exactly the active rows become cancelled |
| Rows.RowList.Accept | crates/client/src/rows.rs:187-191 | The incoming row becomes active |
| Rows.RowList.Decline | crates/client/src/rows.rs:194-196 | The incoming row disappears, and no other |
| Rows.RowList.Cancel | crates/client/src/rows.rs:199-203 | The incoming row becomes cancelled |
| Rows.RowList.PendingIncomingIds | crates/client/src/rows.rs:206-212 | Exactly the undecided incoming ids, each once |
| Rows.RowList.AcceptAll | crates/client/src/rows.rs:214-220 | Exactly the listed incoming rows become active |
| RowMaps.AcceptAllIsEach | crates/client/src/rows.rs:214-220 | Accepting a list is accepting its ids one by one |
| Rows.AcceptAllPending | crates/client/src/app.rs:566-577 | "Accept all" after listing makes exactly the undecided incoming rows active |
| RowMaps.ApplyIsLocal | crates/client/src/rows.rs:133-220 | An operation leaves every row it is not about, and depends on no row but the one it changes |
| RowMaps.RowsDoNotInterfere | crates/client/src/rows.rs:19-220 | Over every run a row is what the operations about its id and direction make of it |
| RowMaps.ApplyHalf | crates/client/src/rows.rs:36-203 | An operation of one direction acts on that half of the list as if it were the whole list, and not on the other half |
| RowMaps.ReportsStandAlone | crates/client/src/rows.rs:19-128 | A report about a file without a row shows what it would after the file was offered or announced |
| RowMaps.RepeatsChangeNothing | crates/client/src/rows.rs:36-172 | A repeated or late offer, announcement or cancel takes nothing back that a row already shows |
| RowMaps.CancelAllIsEach | crates/client/src/rows.rs:178-184 | Cancelling all does to every active row what its own cancel does, and nothing to any other |
| Rooms.RoomRegistry.Create | crates/server/src/rooms.rs:42-46 | The room holds just the peer, whatever it held before |
| Rooms.RoomRegistry.Join | crates/server/src/rooms.rs:49-60 | Joined, full or not found, and only a success changes the index |
| Rooms.RoomRegistry.Contains | crates/server/src/rooms.rs:64-66 | Whether the room is live |
| Rooms.RoomRegistry.Partner | crates/server/src/rooms.rs:90-94 | The search returns the first other entry of the peer's room |
| Rooms.RoomRegistry.Remove | crates/server/src/rooms.rs:98-109 | The peer leaves both indexes, an emptied room is dropped, and the one left behind is reported |
| Rooms.OccupiedAlways | crates/server/src/rooms.rs:42-109 | With no assumption about callers, every room has one or two entries |
| Rooms.AdmitsIffAlone | crates/server/src/rooms.rs:49-60 | A join is admitted if and only if exactly one peer is in the room, is told full if and only if two are, and not found if and only if none is |
| Rooms.CreateAgreesIff | crates/server/src/rooms.rs:42-46 | Create keeps the two indexes in agreement if and only if the room is new and the peer unplaced, or the room is the peer's alone |
| Rooms.JoinAgreesIff | crates/server/src/rooms.rs:49-60 | Join does if and only if it fails or the peer was unplaced |
| Rooms.RemoveKeeps | crates/server/src/rooms.rs:98-109 | Remove keeps agreement and leaves the peer in neither index |
| Rooms.PartnerIs | crates/server/src/rooms.rs:90-94 | Partners are exactly two different peers mapped to the same room |
| Rooms.PartnerSymmetric | crates/server/src/rooms.rs:90-94 | `partner` is symmetric and irreflexive |
| Rooms.RemovePartners | crates/server/src/rooms.rs:98-109 | Remove reports exactly the former partner, and changes only that peer's partner |
| Rooms.JoinPartners | crates/server/src/rooms.rs:49-60 | A join pairs the newcomer with the lone incumbent and touches no other pair |
| Rooms.CreatePartners | crates/server/src/rooms.rs:42-46 | A new room touches no pair |
| Limiter.JoinLimiter.Prune | crates/server/src/limiter.rs:23-30 | The loop prunes as specified, and an empty record disappears |
| Limiter.JoinLimiter.Allowed | crates/server/src/limiter.rs:34-37 | Prunes, then compares the count with the maximum |
| Limiter.JoinLimiter.RecordFailure | crates/server/src/limiter.rs:40-43 | Prunes, then appends the time |
| Limiter.PruneKeepsExactly | crates/server/src/limiter.rs:23-30 | Pruning keeps a recorded time, as often as it is there, if and only if less than the window has passed since |
| Limiter.RecordKeepsExactly | crates/server/src/limiter.rs:40-43 | A failure is recorded next to exactly those less than the window old |
| Limiter.RecordIsBounded | crates/server/src/limiter.rs:34-43 | When failures follow an allowed attempt, the record of an address never outgrows the maximum |
| Limiter.NoEmptyRecords | crates/server/src/limiter.rs:26-28 | After any calls no address is kept without a failure |
| Limiter.RunRefinesLog | crates/server/src/limiter.rs:23-43 | After any calls under a non-decreasing clock, the pruned record and the full log agree on what is recent |
| Limiter.AllowsIffFewRecent | crates/server/src/limiter.rs:34-37 | An attempt is allowed if and only if, of all failures ever, fewer than the maximum fall into the window that ends now |
| Limiter.RateIsBounded | crates/server/src/limiter.rs:34-43 | When failures follow an allowed attempt, no window anywhere holds more than the maximum |
| Limiter.OthersUntouched | crates/server/src/limiter.rs:23-43 | Calls about one address change no other's record |
| Server.AppState.constructor | crates/server/src/ws.rs:71-78 | A new server has no room, no failure, no connection |
| Server.AppState.Connect | crates/server/src/ws.rs:107-111 | A connection gets the next id and an empty queue |
| Server.AppState.SendTo | crates/server/src/ws.rs:81-85 | A message is queued to a connected peer and dropped otherwise |
| Server.AppState.HandleMessage | crates/server/src/ws.rs:170-257 | Each message has the effect on registry, limiter and queues that the specification gives it |
| Server.AppState.Relay | crates/server/src/ws.rs:242-255 | Offers, answers and candidates go to the partner only |
| Server.AppState.Cleanup | crates/server/src/ws.rs:144-154 | Remove, tell the one left behind, forget the queue |
| Server.TrackIffAlternates | crates/server/src/ws.rs:170-257 | Following a queue succeeds if and only if its presence messages strictly alternate, and ends where the last of them says |
| Server.HandleKeeps | crates/server/src/ws.rs:170-257 | Every message that places only an unplaced sender keeps the index in agreement and every peer informed |
| Server.CleanupKeeps | crates/server/src/ws.rs:144-154 | So does every cleanup |
| Server.JoinTellsIncumbent | crates/server/src/ws.rs:216-228 | A successful join queues exactly one message: PeerJoined, to the incumbent |
| Server.RelayReachesRoommate | crates/server/src/ws.rs:242-255 | An offer, answer or candidate is queued to exactly the one other peer of the sender's room |
| Server.RefusalIsAnswered | crates/server/src/ws.rs:189-239 | A refused request gets one answer and leaves the registry alone; only an allowed join of an existing room hears that it is full |
| Server.ThrottledLearnsNothing | crates/server/src/ws.rs:189-215 | Over its budget, an address gets the same answer and leaves the same state whatever room it asks about |
| Server.ForgedIsIgnored | crates/server/src/ws.rs:256 | A message of a kind that only the server sends changes nothing |
| Server.HandleAsksFirst | crates/server/src/ws.rs:189-239 | A message asks the limiter before it records a failure, at the same time, and only if allowed |
| Server.ServerBoundsFailures | crates/server/src/ws.rs:24-28 | Over every run, no minute holds more than thirty failed attempts of one address |
| Server.RoomsKeepTheirTime | crates/server/src/rooms.rs:42-60 | Over every run, the time noted in a room is when it was last entered |
| Reconnect.Session.Step | crates/client/src/reconnect.rs:87-147 | The in-place reducer computes the specified state and actions |
| Reconnect.Session.Reset | crates/client/src/app.rs:473-475 | An unexpected drop forgets the connection and the tried reclaim |
| Reconnect.HasPcIffBuilt | crates/client/src/reconnect.rs:87-147 | `has_pc` holds if and only if a connection was built since the last teardown or drop |
| Reconnect.AnswersNeedAConnection | crates/client/src/reconnect.rs:103-116 | An answer or a candidate is applied if and only if such a connection stands |
| Reconnect.AtMostOneReclaim | crates/client/src/reconnect.rs:130-145 | Between two drops at most one reclaim is sent |
| Reconnect.ReclaimsTheOwnedRoom | crates/client/src/reconnect.rs:130-145 | A reclaim names the room that is both in the URL and owned |
| Reconnect.HashMatchesOwnership | crates/client/src/reconnect.rs:121-128 | From the first Created on, URL and ownership name the room created last |
| Signaling.BackoffIsExact | crates/client/src/signaling.rs:20-23 | The delay is min(500·2^n, 15000) if and only if n is neither 62 nor 63, where it is 0; it never exceeds 15000 |
| Signaling.BackoffRamps | crates/client/src/signaling.rs:20-23 | Below 62 the delay never decreases and is at least 500 |
| Signaling.SignalingClient.ScheduleReconnect | crates/client/src/signaling.rs:161-169 | One more timer and one more attempt, after the delay of the attempt |
| Signaling.SignalingClient.ReconnectNow | crates/client/src/signaling.rs:174-189 | A new socket only if the current one is neither connecting nor open; a failed construction schedules again |
| Signaling.SignalingClient.OnOpen | crates/client/src/signaling.rs:126-135 | An open of the current socket resets the attempts |
| Signaling.SignalingClient.OnClose | crates/client/src/signaling.rs:137-149 | A close of the current socket schedules a reconnect, that of a replaced one does nothing |
| Signaling.SignalingClient.OnOnline | crates/client/src/signaling.rs:194-212 | Going online reconnects at once unless a socket is live |
| Signaling.ReplacedIsIgnored | crates/client/src/signaling.rs:109-158 | The opening or closing of a replaced socket changes neither attempts nor timers nor the current socket |
| Signaling.StepKeeps | crates/client/src/signaling.rs:111-212 | Every browser event keeps: only the current socket may be live, and the current one is live or has a close to come or a timer is pending |
| Signaling.NeverDoubleConnects | crates/client/src/signaling.rs:174-189 | In every run at most one socket is connecting or open |
| Signaling.NeverStalls | crates/client/src/signaling.rs:137-189 | From every reachable state, unless closed on purpose, the pending close event and one timer lead to a live socket |
| Signaling.OnlineConnects | crates/client/src/signaling.rs:194-212 | From every reachable state, unless closed on purpose, the return of the network leads to a live socket at once |
| Signaling.ClosedForGood | crates/client/src/signaling.rs:137-212 | Once closed on purpose, no run builds a socket or sets a timer |
| Signaling.SchedulesIffLost | crates/client/src/signaling.rs:137-189 | A reconnect is scheduled, and then just one, if and only if the current socket closes or cannot be built |
| Signaling.AttemptsAreConsecutive | crates/client/src/signaling.rs:126-169 | The attempt counter is the number of reconnects scheduled since a socket last opened or the network came back |
| SignalingSystem.StepAsks | crates/client/src/reconnect.rs:87-147 | The reducer asks for a room once per opened socket, at most once more per refusal, and otherwise never |
| SignalingSystem.HandleSends | crates/server/src/ws.rs:170-257 | A message adds at most one message to any queue; a refusal only to its own sender, who was not placed, and a `Created` if and only if it placed its sender as an opener |
| SignalingSystem.StepFrugal | crates/client/src/app.rs:469-487 | No step lets the requests, refusals and placements of one connection exceed one |
| SignalingSystem.StepKeeps | crates/server/src/ws.rs:104-257 | Every step of the whole system keeps the server's promises and every connection's budget |
| SignalingSystem.PlacedAtMostOnce | crates/client/src/reconnect.rs:87-147 | In every run no connection is placed in a room twice, although the registry does not check it |
| SignalingSystem.IndexesAgree | crates/server/src/rooms.rs:42-109 | So room index and peer index agree in every reachable state |
| SignalingSystem.PlacedInOneRole | crates/server/src/ws.rs:173-228 | In every reachable state a placed peer was placed in exactly one role, and its queue holds a `Created` if and only if that was as an opener |
| SignalingSystem.NotificationsAgree | crates/server/src/ws.rs:144-228 | In every reachable state the presence messages of a peer placed as opener alternate from PeerJoined on, those of a joiner from PeerLeft on, and they say whether it has a partner now |
| Recovery.ReconnectSettles | crates/client/src/reconnect.rs:87-147 | From any reachable state, when a page with a room in its hash gets its socket and the messages are delivered, the exact outcome: within its budget, joiner if one peer waits there; else opener of that very room if and only if the page owns it, has not yet reclaimed, the room is gone and its address has two attempts left; otherwise not placed; and in each case exactly what the page asks and shows on the way |
| Recovery.NewcomerOpens | crates/server/src/ws.rs:173-180 | From any reachable state, a page without a room is placed as the opener of the new one, owns it, and shows that it waits |
| Recovery.JoinMisses | crates/server/src/ws.rs:208-239 | A join that is over budget or finds no room answers RoomNotFound and places nobody; a reclaim at the same time would then pass if and only if the room is gone and the address had two attempts left |
| Recovery.ReclaimAnswers | crates/server/src/ws.rs:189-207 | A reclaim is answered by Created and places the asker in that room if and only if its address has an attempt left and the room is gone; otherwise by RoomNotFound |
| Recovery.FailureCounts | crates/server/src/limiter.rs:34-43 | Right after a failure an address may try again if and only if its recent failures were at least two below the maximum |
| Recovery.HandleLeavesUnplaced | crates/server/src/ws.rs:170-257 | No message of another peer reaches one that is in no room |
| Handshake.ActsFollowMail | crates/client/src/reconnect.rs:87-129 | In every run, what a page did on a connection, in order, is what the mail it has read called for: one offer per PeerJoined, one answer per offer and to that offer, one teardown per PeerLeft |
| Handshake.JoinCallsForOneOffer | crates/client/src/reconnect.rs:95-98 | In every run, a join calls for exactly one offer more, from the page that was there |
| Handshake.DescriptionsArePartners | crates/server/src/ws.rs:242-255 | Every description or candidate in a queue was said by a page before the server passed it on to that page's partner of the moment |
| Handshake.AnswersOnlyItsPartner | crates/client/src/reconnect.rs:99-102 | In every run, a page answers only an offer that its partner of the moment made |
| Handshake.AppliesOnlyItsPartner | crates/client/src/reconnect.rs:103-109 | And applies only an answer that its partner of the moment gave |
| Handshake.TwoPagesConnect | crates/client/src/reconnect.rs:95-109 | From every reachable state in which a join of a room with one page waits: that page makes the one offer, the newcomer answers that offer, the answer is applied, both hold a connection, and no other page does anything |
| Handshake.CandidatesCross | crates/client/src/reconnect.rs:110-116 | A candidate that one partner names is added to the other's connection |
| Handshake.HandleGrows | crates/server/src/ws.rs:81-85 | A message only appends to queues, and to none of a peer that is gone |
| ShareLink.ReadsBackAfterMark | crates/client/src/app.rs:74-81 | Any text ending in `room/` and a code reads as that code: any text before, letters of either case, slashes and white space around the code |
| ShareLink.LinkRoundTrip | crates/client/src/app.rs:405-411 | The printed link reads back as its code, for every origin |
| ShareLink.BareRoundTrip | crates/client/src/app.rs:74-81 | So does a code typed bare, in either case and with white space around it |
| ShareLink.HashRoundTrip | crates/client/src/app.rs:102-107 | The hash that is set is read back by a reload, and is no room only for the empty code |
| ShareLink.HashNamesIff | crates/client/src/app.rs:102-107 | A hash names a room if and only if, behind hash signs and slashes, it is `room/` and a non-empty code |
| ShareLink.OpenedLinkHasTheHash | crates/client/src/app.rs:405-411 | A printed link, opened, has the hash that the page of that room sets, and names its room |

## Left out

- WebRTC, ICE and SDP, the browser's WebSocket, file and download interfaces, views and styles: foreign calls; they appear as FIFO channels, events and parameters.
- The JSON encoding of control and signaling messages: derived by a library; messages are datatypes here, and text that does not parse is dropped by the code.
- Axum and Tokio, static files, logging, and the callback plumbing of the socket.
- The random choice of a room id: a parameter. Whole-system runs assume that `Create` draws an id that is not live; what happens otherwise is `Rooms.CreateAgreesIff`.
- `handle_message` and the cleanup take the registry lock several times; one message and one cleanup are atomic steps here, and a cleanup runs after its connection's handler has finished.
- The limiter's theorems assume a clock that does not go back.
- The upgrade of a socket and its acceptance by the server are one step of the whole system, and a client's timers are over-approximated: it may dial whenever no socket of its own is connecting or open, which is what `Signaling.NeverDoubleConnects` guarantees.
- A page reload is a client that vanishes and a new client with any hash and any ownership. The transfer engine models one session: ids start at 0 again after a reload, which it does not cover.
- The cancellation and delivery theorems speak of one direction; `TwoWay.BothFollow` carries them to a session with both.
- The code closes the channel of a flagged coroutine at once, after the `End` of an empty file too; the frames it sent stay deliverable here, and whether they still arrive is assumed.
- The bulk row operations (accept all, cancelling every active row when the connection drops) are modelled in `Rows`, not as steps of a session.
- `TransferEngine` lets users click anything at any time; `ReceiverRows` allows a click only where the page shows its button, and its theorems are about those runs.
- Files added before the control channel opens wait in a list with a pending row; in `TransferEngine` adding and offering is one step.
- Errors and teardown of a data channel while a file streams: the code discards them, and the model assumes that a send succeeds. A refused read of the file is modelled.
- The prefetch of the next slab: a slab is read when it is awaited.
- Sizes, counts and times are naturals or reals, so rounding of floating-point numbers is not modelled. The 32-bit sum of the send loop is proved in range, and the exact range of the 64-bit sum of `split_ranges` is stated; what an unchecked build does beyond it is not modelled.
- Overflow of peer ids, file ids and the attempt counter.
- `reap_idle`, `touch` and `finalize_decision_checked`: stubs or code that nothing calls.
- The `kind` badge of a row, `filetype.rs`, `qr.rs`, `fmt_size`, `resolve_origin` and status labels: tables and formatting with only easy properties.
