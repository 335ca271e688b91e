# rain-net: the star tunnel and its byte machinery

rain-net carries connections into an intranet over one long-lived framed connection, the *star*
session. This project models the parts of it in which bytes, credits and lifetimes have to work out
under every interleaving, and proves what they promise.

| module | models |
|---|---|
| `Wrappers`, `Bytes` | optional values; big-endian numbers, XOR, a reliable byte source and sink |
| `StarFrame` | one star frame and streams of frames; the session |
| `StreamConn` | one stream as a connection: chunked writes, buffered reads, half and full close |
| `Mux` | many streams over one session: writers, the wire, the read loop, queues, readers |
| `Window`, `WindowMonitor` | the credit window, and its wait/notify monitor over all interleavings |
| `Uplink` | external-to-intranet traffic of many connections between two nodes, with credits both ways |
| `Downlink` | intranet-to-external traffic of one connection, and the credit meant to come back |
| `StreamHub` | opening, feeding, removing and shutting down the streams of a session |
| `StreamTable`, `CtrlHub` | the registered streams, and the connections opened on them |
| `Ws`, `WsConn` | WebSocket frames and message assembly (RFC 6455, sections 5.2 to 5.5) |
| `Bridge` | two pumps, the drain timer and cancellation |
| `Limiter`, `Gate` | the token bucket, and the admission gate over all interleavings |
| `Router` | first-match routing with round robin |
| `Sniff` | picking a target from the first bytes and replaying them |

Code that several goroutines run at once is a state machine: a `State`, an `Action` for every locked
section, channel operation or connection call, and `Run`, the state after any list of actions (an
action that cannot happen leaves the state alone). A theorem about `Run(actions)` for all `actions`
is a theorem about every interleaving. Fields with the word "history" in their comment record the
past and decide nothing. Code that one goroutine runs at a time is a class or a method, specified by
a function whose properties are then proved as lemmas.

## What does not hold

Where the code does not do what its comments or its users would expect, the model follows the code,
a lemma gives the input, and another says exactly when the code does what is expected.

- `Window.Acquire` promises that an amount above the limit is taken in several goes
  (protocol/star/window.go:42). The data is sent only once all of it is taken, so no credit comes
  back in between and such a call never ends: `Uplink.OversizedStuck`. A waiting call can be granted
  exactly when it asks for at most the window: `Uplink.GrantedIffFits`.
- An empty message from outside decodes to the same nil that stands for a half-close, so the
  intranet side is write-closed early: `Uplink.EmptyMessageClosesEarly`, exactly when in
  `Uplink.WriteClosedIff`.
- After the intranet side half-closes, the server forgets the connection and with it all later
  credit; the other direction of the living connection stalls after one more window:
  `Uplink.HalfClosedStalls`. A payload is then granted exactly when it fits into what is left
  (`Uplink.UnmappedGrantedIff`); a listener that waits for more waits for ever, since a teardown no
  longer finds the connection whose window it would close (`Uplink.StalledForEver`).
- Credit for the intranet-to-external direction is sent in a frame without payload
  (internal/handler/star/ctrl_hub.go:78-80), which its receiver refuses
  (protocol/star/message.go:222-225). So a connection carries at most 256 KiB in that direction in its
  whole life (`Downlink.LifetimeBound`) and then stalls with all queues empty
  (`Downlink.DownlinkStalls`); a chunk is sent exactly when it still fits (`Downlink.SentIffFits`).
- After a local `Close`, a stream reader can see a gap: `Mux.LocalCloseLeavesGap`, exactly when an
  item is queued after a dropped one (`Mux.OrderExact`).
- A close frame that overtakes the ack of `OpenStream` deletes the ack entry, and the caller waits
  out its timeout even when the session ends: `StreamHub.CloseBeforeAck`, exactly when in
  `StreamHub.OpenersAnswered`.
- A connection number given out again while the first connection is still in the hub leaves that one
  open for ever (`StreamHub.ReusedNumberForgotten`), and one given out while somebody may still
  remove the first loses the second (`StreamHub.LateTimeoutEvicts`). Exactly when a connection is
  lost is in `StreamHub.LostExactly`, exactly when its reader is left blocked in
  `StreamHub.ReaderLeftExactly`; numbers that are given out again when free harm nobody
  (`StreamHub.CarefulLeavesNobody`).
- `Bridge` takes a `Write` that fails with `io.EOF` for a clean end: `Bridge.EofWriteErrorLooksClean`,
  exactly when in `Bridge.NilMeansAllForwarded`.
- A new data frame inside a fragmented WebSocket message is accepted and the fragments are dropped,
  against section 5.4 of RFC 6455: `WsConn.NewMessageDropsFragments`, exactly when in
  `WsConn.WholeExactly`. `Close` never emits its close frame: `WsConn.Conn.Close`.
- `CloseConnsByClient` leaves open the connections of streams that were unregistered before:
  `CtrlHub.UnregisteredOutlives`, exactly when in `CtrlHub.SessionEndCloses`.
- Streams and connections are numbered from one independently, and clients number the connections
  they open themselves, but a full close frame is looked up among these first, then among the other
  connections, and only then among the streams. So a request to unregister a stream can close a
  connection instead: `CtrlHub.FirstStreamStays` and `CtrlHub.ChainedTakesFrame`, exactly when in
  `CtrlHub.UnregisterExact`.
- After 2^32 registrations a number still in use is handed out again and the two indexes of the
  stream table disagree: `StreamTable.WrapBreaksAgreement`, exactly when in
  `StreamTable.AgreementExact`.
- Two different stream names can share a key: `StreamTable.SlashConfuses`, exactly when in
  `StreamTable.KeysCollide`.
- Removing a routing rule shifts the rules behind it onto other rules' cursors:
  `Router.UnfairAcrossRemove`, exactly when in `Router.RemoveKeepsTurn`.
- The admission gate counts attempts still in the rate check, so it can refuse as full while nothing
  is admitted: `Gate.FullWithNobodyAdmitted`, exactly when in `Gate.FullExactly`.
- A prefix rule behind one longer than three bytes can miss connections that start with its prefix:
  a long one is compared with the wrong bytes (`Sniff.SecondLongRuleMissed`), and any one is never
  reached when the peer sends too little for those before (`Sniff.ShortRuleStarved`). Exactly when a
  rule gets such a connection is in `Sniff.RuleGetsItsPrefix`.

## Model
| member | source | states |
|---|---|---|
| StarFrame.Decode | protocol/star/message.go:100-126 | an accepted frame accounts for every input byte: header, payload, and the rest handed back |
| StarFrame.DecodeEncode | protocol/star/message.go:82-126 | reading back a written frame, whatever follows it, yields the message and exactly the tail |
| StarFrame.StrictPrefixTruncated | protocol/star/message.go:100-126 | no strict prefix of a frame yields a message |
| StarFrame.Reencode | protocol/star/message.go:82-126 | decoding and re-encoding changes nothing but the second reserved byte |
| StarFrame.AcceptedExactly | protocol/star/message.go:100-126 | the accepted inputs are the written frames, up to that byte, and no others |
| StarFrame.EncodeLayout | protocol/star/message.go:82-97 | byte by byte: version 1, type, flags, zero, stream number and length in big-endian order, then the payload |
| StarFrame.RefusedExactly | protocol/star/message.go:100-126 | each error arises exactly where it should: too few bytes, another version, more than 1 MiB announced, the version looked at first |
| StarFrame.HalfCloseBit | protocol/star/message.go:72-79 | a frame is a half close exactly when its type is 0x11 and its lowest flag bit is set |
| StarFrame.FramesEncodeAll | protocol/star/message.go:82-126 | the concatenation of any encoded messages decodes to those messages |
| StarFrame.CutStream | protocol/star/message.go:100-126 | a frame stream cut anywhere decodes to the frames that arrived whole, with less than one frame left over |
| StarFrame.WriteMessage | protocol/star/message.go:82-97 | one write of exactly the encoded frame, and nothing at all for an oversized payload |
| StarFrame.ReadMessage | protocol/star/message.go:100-126 | reads what Decode says, consuming the frame and no more |
| StarFrame.Session.Send | protocol/star/session.go:30-34 | a whole frame is appended, so the frames on the wire grow by exactly this message |
| StarFrame.Session.Receive | protocol/star/session.go:37-39 | returns the next of the frames still to come, or there is none |
| StreamConn.ChunksCarryTheArgument | protocol/star/adapter.go:112-127 | chunking a Write loses no byte, sends no empty frame, and every frame but the last carries exactly 64 KiB of data for this stream |
| StreamConn.SendChunks | protocol/star/adapter.go:116-126 | the chunk loop puts exactly the frames of the argument on the connection |
| StreamConn.Conn.Read | protocol/star/adapter.go:63-110 | a call returns at most n bytes and, without naming the model of a turn: the least of n and what is there, the rest staying pending; empty frames are skipped, closes end it, nothing else changes |
| StreamConn.ReadKeepsToBuffer | protocol/star/adapter.go:63-95 | what one Read returns plus what stays pending is the old rest, or the first item of the queue that is not an empty frame, and it is the least of n and that many bytes |
| StreamConn.ClosedNeverBlocks | protocol/star/adapter.go:86-110 | on a closed connection no Read blocks |
| StreamConn.Conn.Write | protocol/star/adapter.go:112-127 | all chunks of the argument in order, nothing once closed |
| StreamConn.Conn.CloseWrite | protocol/star/adapter.go:130-135 | one half-close frame however often it is called |
| StreamConn.Conn.MarkClosed | protocol/star/adapter.go:144-152 | only the first reason for closing sticks |
| StreamConn.Conn.Close | protocol/star/adapter.go:138-141 | the read side is marked and one full-close frame sent |
| Mux.ReadsArePrefix | protocol/star/adapter.go:63-127 | under every interleaving of any number of streams and any read sizes, the bytes read on a number are a prefix of the bytes written on it at the other end, unless an item was queued after a dropped one |
| Mux.ReadStepBounded | protocol/star/adapter.go:63-95 | from every reachable state a read with an n-byte buffer adds at most n bytes to what was read |
| Mux.NoGapBeforeDrop | protocol/star/adapter.go:353-358 | only a stream closed at this end drops anything, and only one that has dropped can have a gap |
| Mux.OrderExact | protocol/star/adapter.go:353-358 | the queued items are the writer's items at increasing places, and these are 0, 1, 2 and so on exactly when none was queued after a dropped one |
| Mux.EofIsComplete | protocol/star/adapter.go:63-110 | without such a gap, end of file after the peer's close means that all that was sent before it has been returned |
| Mux.QuietMeansDelivered | protocol/star/adapter.go:274-303 | once nothing of a stream in the hub is queued, in hand or on the wire, and nothing was dropped, everything sent has been read |
| Mux.SentCanBeRead | protocol/star/adapter.go:274-303 | from every reachable state with the stream in the hub and nothing dropped, steps of the read loop and of readers alone lead to a state in which all that was sent, up to the first close, has been read |
| Mux.QueueBounded | protocol/star/adapter.go:353-358 | no queue exceeds 32 items; a Read fails with net.ErrClosed only where this end closed the stream and reports the end of the session only after it |
| Mux.ClosingUnblocks | protocol/star/adapter.go:144-152 | a local close or the end of the session unblocks every Read and leaves what is queued |
| Mux.RemovedGetsNothing | protocol/star/adapter.go:327-351 | a stream removed from the hub is handed nothing more in any continuation |
| Mux.SessionEndIsFinal | protocol/star/adapter.go:306-324 | after the read loop has ended no stream is registered and nothing queued in any continuation |
| Mux.NeverMisframed | protocol/star/session.go:30-39 | the read loop always stands at a frame boundary, even when the connection breaks inside a frame |
| Mux.LocalCloseLeavesGap | protocol/star/adapter.go:353-358 | a concrete run: after a local close a later frame is read although an earlier one was dropped |
| Mux.StepKeepsInv | protocol/star/adapter.go:63-127 | every step keeps: the items handed to a stream are the first its writer sent, those queued are among them in order, and while it is in the hub the others are on the wire |
| Window.SendWindow.AcquireSection | protocol/star/window.go:43-70 | one locked section: it waits exactly when the next chunk does not fit, and otherwise takes at most the limit |
| Window.SendWindow.Release | protocol/star/window.go:73-83 | credit returned and every waiter taken off the list for waking |
| Window.SendWindow.Close | protocol/star/window.go:30-39 | closed for good and every waiter taken off the list for waking |
| WindowMonitor.NoLostWakeUp | protocol/star/window.go:30-83 | in every interleaving a parked, uncancelled Acquire has a signal pending or due, or the window is open and lacks room for its next chunk |
| WindowMonitor.SendsNeverBlock | protocol/star/window.go:30-83 | Release and Close always find the next waiter's channel empty |
| WindowMonitor.WindowAccounts | protocol/star/window.go:43-83 | outstanding is exactly what was taken minus what was returned, never above the limit, and a granted Acquire took all it asked for |
| WindowMonitor.QuietMeansNoRoom | protocol/star/window.go:30-83 | when all due steps are done, nobody waits who could go on, and nobody on a closed window |
| WindowMonitor.TakesWhatItAsked | protocol/star/window.go:43-70 | in every interleaving each Acquire accounts for what its own sections took: a granted one exactly what it asked for, any other no more |
| WindowMonitor.ResultsExact | protocol/star/window.go:43-70 | granted exactly when it took everything, cancelled exactly when its context was, closed only on a closed window |
| WindowMonitor.WakesOnce | protocol/star/window.go:60-68 | a signal is used up by the waiter it wakes, who goes on for what it still lacks |
| WindowMonitor.CloseIsFinal | protocol/star/window.go:30-39 | from Close on nothing is taken in any continuation, and whoever comes to the lock fails as closed |
| Uplink.CreditConserved | internal/star/starserver/proxy_server.go:310-337 | outstanding equals bytes held, in transit, buffered at the client and credits on their way back until closing starts, and bounds them ever after by 256 KiB |
| Uplink.OversizedNeverSent | protocol/star/window.go:41-70 | only payloads that fit the window are ever sent; once an Acquire for more has taken a part, the rest finds no room in any later state |
| Uplink.OversizedStuck | protocol/star/window.go:41-70 | a run with any payload above the window: one section takes the whole window, the rest never fits, and no continuation ever grants it |
| Uplink.GrantedIffFits | internal/star/starserver/proxy_server.go:327-337 | from every reachable state in which nobody is closing the connection, some continuation grants a waiting payload, by pumps and read loops alone, if and only if it is at most the window |
| Uplink.IntranetGetsPrefix | protocol/star/ctrlclient.go:306-325 | the intranet connection receives, in order, a prefix of what was read outside |
| Uplink.CloseWriteAfterData | protocol/star/ctrlclient.go:374-382 | the intranet side is write-closed only after exactly the data frames that arrived before the half-close were written |
| Uplink.CloseWriteAfterAllRead | internal/star/starserver/proxy_server.go:310-337 | end to end: without empty messages, everything read outside was written to the intranet before it is write-closed |
| Uplink.WriteClosedIff | protocol/star/ctrlclient.go:312-318 | a caught-up pump has write-closed if and only if a half-close or an empty data frame arrived |
| Uplink.EmptyMessageClosesEarly | protocol/star/ctrlclient.go:202-209 | a concrete run: one empty message write-closes the intranet connection though nobody half-closed |
| Uplink.UnmappedNeverCredited | internal/handler/star/ctrl_hub.go:164-171 | once the mapping is gone no credit reaches the window, whatever happens later |
| Uplink.HalfClosedConnStarves | internal/handler/star/ctrl_hub.go:210-221 | from then on at most one more window can be acquired, however long the connection lives |
| Uplink.HalfClosedStalls | internal/handler/star/ctrl_hub.go:210-221 | a run with the connection alive at both ends: half-close, one window sent, written and credited, and then the listener waits in every continuation |
| Uplink.CreditReachesIff | internal/handler/star/ctrl_hub.go:164-171 | an arriving WindowUpdate reaches the window exactly when the connection is still mapped |
| Uplink.StalledForEver | internal/handler/star/ctrl_hub.go:225-239 | a listener without room on an unmapped connection takes no credit and goes on waiting in every continuation, teardowns included |
| Uplink.UnmappedGrantedIff | internal/handler/star/ctrl_hub.go:210-221 | once unmapped, a payload is ever granted exactly when the window is open and has room for all of it now |
| Uplink.ClosesToldApart | internal/handler/star/ctrl_hub.go:210-239 | over every continuation, a mapped connection closed by a teardown or the full close of the client has its window closed and acquires nothing more, one closed by a half close has it open: closed if and only if the close was a full one |
| Uplink.FullCloseEndsWaiter | internal/handler/star/ctrl_hub.go:53-66 | a listener waiting for credit when a full close comes ends with its next section and has sent nothing |
| Uplink.CloseReachesPeer | protocol/star/ctrlclient.go:385-408 | a teardown makes the client drop the connection once its wire is drained, and a client close or failed write makes the server forget it |
| Uplink.ClosingTwice | internal/handler/star/ctrl_hub.go:225-239 | closing again at either end changes nothing and sends nothing |
| Uplink.FailedReadEnds | internal/star/starserver/proxy_server.go:310-324 | a listener whose read fails sends nothing more in any continuation |
| Uplink.QueueBounded | protocol/star/ctrlclient.go:202-222 | the client never has more than 32 entries queued for a connection |
| Uplink.StepKeepsInv | internal/handler/star/ctrlproxy.go:325-334 | every step at either node keeps credit, order and pump invariants of all connections |
| Downlink.OutsideGetsPrefix | internal/star/starserver/proxy_server.go:262-267 | what is written outside is, in order, a prefix of what was read from the intranet |
| Downlink.LifetimeBound | internal/handler/star/ctrl_hub.go:70-84 | in every run nothing is credited and at most one window is sent |
| Downlink.SentIffFits | protocol/star/ctrlclient.go:344-355 | from every reachable state a waiting chunk can be sent if and only if the window is open and it fits with all that was sent before |
| Downlink.StalledForEver | protocol/star/ctrlclient.go:228-242 | a waiting chunk without room is never sent, whatever is consumed and credited |
| Downlink.CloseEndsPump | protocol/star/ctrlclient.go:385-408 | closing the window ends a pump that waits for credit with its next section |
| Downlink.UnmapIsFinal | internal/handler/star/ctrl_hub.go:210-221 | after the server forgets the connection nothing more than what is queued is ever written outside |
| Downlink.ReadEndIsFinal | protocol/star/ctrlclient.go:344-371 | after the end of the intranet connection nothing more is read, sent or taken |
| Downlink.OneUpdatePerBatch | internal/handler/star/ctrl_hub.go:70-84 | one WindowUpdate for every 64 KiB written outside, the rest counted exactly |
| Downlink.QueueBounded | internal/handler/star/ctrl_hub.go:175-192 | never more than 256 payloads queued for one connection |
| Downlink.DownlinkStalls | protocol/star/ctrlclient.go:344-355 | a run: 256 KiB sent and written outside, all queues empty, and the next chunk waits in every continuation |
| StreamHub.MapsStayEmpty | protocol/star/adapter.go:306-324 | after SessionClosed both maps are empty in every later state |
| StreamHub.NoReaderLeft | protocol/star/adapter.go:306-324 | then, with nothing due to it, a handed-out connection that was not lost is closed, has a close item queued or has read end of file, so no Read on it blocks |
| StreamHub.ReaderLeftExactly | protocol/star/adapter.go:306-324 | then the reader of a handed-out connection ends up blocked exactly when the connection was lost, nobody closed it and no close item was ever queued |
| StreamHub.LostExactly | protocol/star/adapter.go:223-250 | a step loses a connection exactly when it enters another under a number still in the hub, or deletes the entry on another connection's account |
| StreamHub.CarefulLeavesNobody | protocol/star/adapter.go:223-250 | if no number is given out while it is in the hub or its last user may still be removed, no reader is left blocked, however often numbers are used again |
| StreamHub.OpenersAnswered | protocol/star/adapter.go:235-270 | then a waiting OpenStream has its answer exactly when nobody deleted or overwrote its ack entry before |
| StreamHub.OpenedExactly | protocol/star/adapter.go:259-269 | over every run, by the acks that were fed: a call of OpenStream has its connection exactly when it took an answer and the one fed for its entry was a grant |
| StreamHub.RefusedNeverHandedOut | protocol/star/adapter.go:259-269 | a call refused by the peer or answered by the end of the session is never handed its connection in any continuation |
| StreamHub.FailedNeverHandedOut | protocol/star/adapter.go:252-269 | nor one whose request could not be sent or that timed out |
| StreamHub.AnswerDecides | protocol/star/adapter.go:259-269 | two concrete runs: the grant opens the connection, the refusal takes it out of both maps |
| StreamHub.NumbersInTurn | protocol/star/adapter.go:244-249 | calls of OpenStream use the numbers 1, 2, 3 and so on modulo 2^32, each entered in both maps |
| StreamHub.RemoveCloses | protocol/star/adapter.go:327-332 | a Remove that finds its number closes the connection found then, whatever happens in between |
| StreamHub.ClosedForFirstReason | protocol/star/adapter.go:144-152 | over every run a connection is closed for the reason of the first close that reached it |
| StreamHub.DataIsQueued | protocol/star/adapter.go:276-280 | a data frame for a connection in the hub ends up last in its queue |
| StreamHub.QueueBounded | protocol/star/adapter.go:353-358 | no connection ever has more than 32 items queued |
| StreamHub.ReadActs | protocol/star/adapter.go:63-95 | a Read in the hub keeps to its buffer and takes the bytes in order |
| StreamHub.AckSendsNeverBlock | protocol/star/adapter.go:284-301 | each ack channel gets at most one send, and is empty when one is due |
| StreamHub.CloseBeforeAck | protocol/star/adapter.go:279-283 | a concrete run: a close frame before the ack leaves the caller without an answer after shutdown |
| StreamHub.ReusedNumberForgotten | protocol/star/adapter.go:223-232 | a concrete run: a number used twice leaves the first connection's reader blocked after shutdown |
| StreamHub.LateTimeoutEvicts | protocol/star/adapter.go:264-268 | a concrete run: the late timeout of one OpenStream deletes the entry of the next connection with its number |
| StreamHub.FinishingNeverBlocks | protocol/star/adapter.go:63-110 | a Read never blocks on a connection that is closed, has a close item queued or has read end of file |
| StreamHub.ReadKeepsFinishing | protocol/star/adapter.go:63-110 | and reading neither undoes that nor brings it about |
| StreamHub.UnfinishedBlocks | protocol/star/adapter.go:63-110 | on any other connection a reader that goes on reading ends up blocked |
| StreamTable.IndexesAgree | internal/handler/star/streamtable.go:64-144 | below 2^32 registrations both indexes hold the same entries one to one, and the numbers handed out are 1, 2, 3 and so on |
| StreamTable.TableIsLive | internal/handler/star/streamtable.go:64-144 | each index holds exactly the streams registered and not yet removed |
| StreamTable.AgreementExact | internal/handler/star/streamtable.go:64-84 | a registration keeps the indexes in agreement exactly when it is refused or the next number is free |
| StreamTable.WrapBreaksAgreement | internal/handler/star/streamtable.go:73-82 | a run over 2^32 registrations: one stream kept throughout, the first number after the wrap is the one in use and the indexes disagree |
| StreamTable.KeysCollide | internal/handler/star/streamtable.go:41-43 | two names share a key exactly when they are equal or one shifts the separating slash |
| StreamTable.KeyInjective | internal/handler/star/streamtable.go:41-43 | proxy names without a slash never collide |
| StreamTable.ByNameExact | internal/handler/star/streamtable.go:95-100 | without slashes in proxy names a lookup finds an entry exactly when it is registered under those names |
| StreamTable.SlashConfuses | internal/handler/star/streamtable.go:95-100 | a concrete pair of names for which it does not |
| StreamTable.StreamTable.Assign | internal/handler/star/streamtable.go:64-84 | refuses exactly a key in use, otherwise enters the stream in both indexes under the next number |
| StreamTable.StreamTable.GetByName | internal/handler/star/streamtable.go:95-100 | the entry of the name's key |
| StreamTable.StreamTable.FindByClientProxy | internal/handler/star/streamtable.go:103-117 | exactly the streams of one proxy name, in ascending number |
| StreamTable.StreamTable.Remove | internal/handler/star/streamtable.go:120-128 | the entry leaves both indexes |
| StreamTable.StreamTable.RemoveByClient | internal/handler/star/streamtable.go:131-144 | exactly that session's streams leave both indexes, in whatever order the map is walked, and are counted |
| CtrlHub.CtrlHub.Open | internal/handler/star/ctrl_hub.go:113-135 | the next number, entered in both maps |
| CtrlHub.CtrlHub.Take | internal/handler/star/ctrl_hub.go:210-239 | the shared section of ClientClosed, CloseConn and removeConn |
| CtrlHub.CtrlHub.TakeAck | internal/handler/star/ctrl_hub.go:195-199 | the ack entry leaves the map and is what will be sent on |
| CtrlHub.CtrlHub.TakeByClient | internal/handler/star/ctrl_hub.go:250-259 | exactly the connections whose stream is registered to the session now are taken out and returned |
| CtrlHub.NumbersNeverReused | internal/handler/star/ctrl_hub.go:112-116 | below 2^32 opens, later connections have larger numbers |
| CtrlHub.LifeOfAConnection | internal/handler/star/ctrl_hub.go:53-58 | an entry in the map has both channels open; one that is not was taken out by exactly one operation and gets the signal of that operation; a refused one is always closed |
| CtrlHub.EndedExactly | internal/handler/star/ctrl_hub.go:210-239 | over every run: RemoteClosed is told exactly when a half close of the client found the connection, Done exactly when a close on this side did or its OpenConn failed, and it is in the map exactly until the first of these |
| CtrlHub.Told | internal/handler/star/ctrl_hub.go:53-58 | what is due to be told is told by the next step of it, once |
| CtrlHub.OpenedExactly | internal/handler/star/ctrl_hub.go:137-161 | over every run, by the acks that arrived: OpenConn hands out a connection exactly when it took an answer and the one that reached it was a grant |
| CtrlHub.RefusedNeverOpened | internal/handler/star/ctrl_hub.go:137-161 | a refused OpenConn is never handed its connection in any continuation |
| CtrlHub.FailedNeverOpened | internal/handler/star/ctrl_hub.go:137-161 | nor one whose request could not be sent or that timed out |
| CtrlHub.DeliveringNeverBlocks | internal/handler/star/ctrl_hub.go:195-204 | each ack channel gets at most one send, even after the caller timed out |
| CtrlHub.SessionEndCloses | internal/handler/star/ctrl_hub.go:249-265 | of a session's connections exactly those with a registered stream are taken out, and nobody else's |
| CtrlHub.UnregisteredOutlives | internal/handler/star/ctrl_hub.go:249-265 | a concrete run: the close frame of the second stream unregisters it, and a connection on it survives the end of the session |
| CtrlHub.UnregisterExact | internal/handler/star/ctrlproxy.go:275-319 | a stream is unregistered by its close frame exactly when neither a chained connection of the same session nor any other connection has the same number; otherwise the one that has it is closed |
| CtrlHub.FirstStreamStays | internal/handler/star/ctrlproxy.go:308-319 | a concrete run: the frame that should unregister the first stream closes the first connection |
| CtrlHub.ChainedTakesFrame | internal/handler/star/ctrlproxy.go:275-280 | a concrete run: a chained connection numbered one by the client takes the frame that should unregister the first stream |
| CtrlHub.ChainedExactly | internal/handler/star/ctrlproxy.go:275-280 | a number takes close frames of a session as a chained connection exactly from its grant to its first close frame, removal or the end of the session |
| CtrlHub.SessionEndUnregisters | internal/handler/star/ctrlproxy.go:258-260 | the end of a session leaves none of its streams registered, and everybody else's |
| Ws.DecodeEncode | protocol/ws/ws.go:210-323 | for every opcode, fin bit, role, key and payload up to 1 MiB, reading a written frame returns it and leaves exactly the tail |
| Ws.StrictPrefixIncomplete | protocol/ws/ws.go:210-260 | no strict prefix of a frame is taken for one |
| Ws.ShortestForm | protocol/ws/ws.go:282-297 | no bytes that read as the same frame are fewer than those written |
| Ws.WireFormat | protocol/ws/ws.go:263-323 | in numbers, after section 5.2 of RFC 6455: opcode plus 128 for the last fragment, mask bit and one of the three length forms, key, masked payload |
| Ws.ReadFormat | protocol/ws/ws.go:210-260 | and what is read stands in the bytes in that format, whichever length form the peer chose |
| Ws.RefusedExactly | protocol/ws/ws.go:210-252 | each way of yielding no frame, exactly: bytes missing, reserved bits set, more than 1 MiB announced |
| Ws.UnmaskMask | protocol/ws/ws.go:254-258 | masking twice with one key is the identity |
| Ws.MaskedBits | protocol/ws/ws.go:254-258 | bit by bit: a payload bit is flipped exactly when the bit of key byte i mod 4 is set |
| WsConn.ReadMessageReassembles | protocol/ws/ws.go:150-190 | however a message is cut up, masked and interleaved with pings and pongs, it comes back whole, with one pong per ping in order, and the input stops after the last fragment |
| WsConn.ReadMessageReturns | protocol/ws/ws.go:152-190 | for any pings, pongs and data frames up to the first final one, the result is the data since the last text or binary frame, every ping answered in order |
| WsConn.PongsAnswerPings | protocol/ws/ws.go:173-178 | the replies are one final frame of opcode 10 for every ping, with its own payload, in order |
| WsConn.EndsExactly | protocol/ws/ws.go:152-190 | after any frames that do not end a message, a close frame is answered by one and read as end of file, a stray continuation and any unknown opcode are refused, and every ping before has been answered |
| WsConn.ClosedAnswersNothing | protocol/ws/ws.go:263-268 | a closed connection never writes a reply |
| WsConn.WholeExactly | protocol/ws/ws.go:152-190 | that is all the data sent exactly when every data frame before the last text or binary frame was empty |
| WsConn.NewMessageDropsFragments | protocol/ws/ws.go:160-172 | a data frame inside a fragmented message replaces what was assembled |
| WsConn.Conn.ReadFrame | protocol/ws/ws.go:210-260 | the steps over header, length, key and payload read exactly what Decode says |
| WsConn.Conn.Unmask | protocol/ws/ws.go:254-258 | the in-place loop applies the key to every byte |
| WsConn.Conn.WriteFrame | protocol/ws/ws.go:263-323 | one write of exactly the encoded frame, masked by a fresh key for a client; nothing once closed |
| WsConn.Conn.ReadMessage | protocol/ws/ws.go:152-190 | the loop returns, consumes and writes what Assemble says |
| WsConn.Conn.Close | protocol/ws/ws.go:198-207 | nothing is written |
| Bridge.ForwardsPrefix | internal/bridge/bridge.go:118-132 | each side receives, in order, a prefix of what the other sent |
| Bridge.HalfCloseAfterAll | internal/bridge/bridge.go:118-132 | a side is half-closed at most once, and everything up to end of file was written before exactly when no Write failed early with io.EOF |
| Bridge.NilMeansAllForwarded | internal/bridge/bridge.go:138-159 | nil means both directions half-closed, and each complete exactly when no Write of it failed early with io.EOF; the converse is FineRunIsNil |
| Bridge.FineRunIsNil | internal/bridge/bridge.go:118-159 | over the actions themselves: without a read error, a read of a closed side, a failed Write, a failed CloseWrite other than not supported, a timeout and a cancellation, no pump reports an error and the only answer is nil |
| Bridge.AnswerExact | internal/bridge/bridge.go:138-159 | exactly when the answer is nil, a pump's error, the timeout or the cancellation, by what happened in the run before the caller took each result |
| Bridge.NoHalfCloseGoesOn | internal/bridge/bridge.go:128-134 | a concrete run: a side without a half-close is a success, and the caller waits for the other pump |
| Bridge.TimeoutAndCancelStick | internal/bridge/bridge.go:99-112 | a drain timeout before the answer keeps it from being nil, and a cancellation before the first result is the answer, whatever happens later |
| Bridge.ClosedOnReturn | internal/bridge/bridge.go:78-79 | both connections are closed on return |
| Bridge.ReportNeverBlocks | internal/bridge/bridge.go:93-94 | no pump ever blocks on its report, even after the caller left |
| Bridge.TimeoutOnlyAfterAPump | internal/bridge/bridge.go:96-117 | the drain timer fires only after a pump has finished |
| Bridge.TimerExact | internal/bridge/bridge.go:96-117 | the drain timer, armed with a limit by the first finished pump, runs until it fires or the drain is done; without a limit it never fires |
| Bridge.ClosedExactly | internal/bridge/bridge.go:78-91 | a side is closed exactly when the timer, the watcher or the return closed it |
| Bridge.GuardsCanAct | internal/bridge/bridge.go:80-117 | a fired timer or a cancellation can close both sides at once, and neither goroutine need stay after the return |
| Bridge.NothingReadOnceClosed | internal/bridge/bridge.go:78-91 | once a side is closed nothing more is read from it |
| Bridge.ClosedWhileWriting | internal/bridge/bridge.go:118-132 | a pump that holds bytes for a closed side can only fail |
| Bridge.EofWriteErrorLooksClean | internal/bridge/bridge.go:124-130 | a concrete run: a byte is lost and nil returned |
| Limiter.TokensInRange | internal/decorator/limiter.go:25-76 | over any history the tokens stay between zero and the rate |
| Limiter.LevelIsLeastSlack | internal/decorator/limiter.go:25-76 | the level of the bucket is the least, over all windows ending now, of one second's quota plus what the window accrued minus what it let through |
| Limiter.RateBound | internal/decorator/limiter.go:25-76 | in any window of T seconds at most rate * (1 + T) tokens are granted |
| Limiter.GrantedExactly | internal/decorator/limiter.go:62-76 | tryTake grants exactly when no window ending now would break that bound |
| Limiter.WaitIsOneToken | internal/decorator/limiter.go:45-52 | between 10 and 1000 tokens a second a round waits for one token, to the nanosecond; 100 ms below and 1 ms above |
| Limiter.Bucket.TryTake | internal/decorator/limiter.go:62-76 | all of n or nothing, and the level left behind |
| Limiter.Bucket.Round | internal/decorator/limiter.go:28-41 | one locked section of take; unless the request is met it empties the bucket |
| Limiter.Bucket.Take | internal/decorator/limiter.go:25-59 | ends within 1 + ceil(n / quota of one wait) rounds, at most 1 + ceil(n / (0.001 rate)), with n tokens up to 1e-9 unless cancelled, n above the capacity included |
| Gate.CounterExact | internal/decorator/admission.go:34-61 | in every interleaving the counter is the admitted connections plus the attempts in the rate check, never above a positive limit |
| Gate.RefusalsLeaveNothing | internal/decorator/admission.go:34-58 | with nobody in the rate check the counter is the admitted connections alone, whatever was refused |
| Gate.FullWithNobodyAdmitted | internal/decorator/admission.go:35-43 | a concrete run: refused as full while nobody is admitted |
| Gate.FullExactly | internal/decorator/admission.go:35-43 | an attempt is refused as full exactly when admitted connections and attempts in the rate check together use the limit up |
| Gate.IdentityRate | internal/decorator/admission.go:44-56 | one identity passes at most qps * (1 + T) times in any T seconds, whatever others do |
| Gate.AdmittedWithinRate | internal/decorator/admission.go:34-58 | the connections of one identity ever admitted number at most qps * (1 + elapsed time) |
| Gate.RefusedOnOwnAccount | internal/decorator/admission.go:44-56 | an attempt passes the rate check exactly when the identity's own passes leave room in every window ending now |
| Gate.UnlimitedNeverRefused | internal/decorator/admission.go:34-58 | without a limit nobody is refused as full, and without a rate or an identity nobody as too fast |
| Router.NeverTwice | internal/router/router.go:62-86 | no run of any operations stores two equivalent rules |
| Router.RemoveTakesOut | internal/router/router.go:75-86 | Remove takes the rule out altogether and keeps the others in order |
| Router.RemoveUndoesAdd | internal/router/router.go:62-86 | removing a newly added rule restores the list |
| Router.FirstMatch | internal/router/router.go:98-119 | the lowest index of a matching rule, or no rule matches |
| Router.MatchesFieldwise | internal/router/router.go:115-119 | a set field is matched by its own value only, an empty one by every value |
| Router.HitsCycle | internal/router/router.go:98-113 | without Remove, a rule hands out its positions in cyclic order from any table, however other matches and Adds fall between |
| Router.Fair | internal/router/router.go:98-113 | any n consecutive hits of a rule with n streams give each position exactly once |
| Router.RemoveKeepsTurn | internal/router/router.go:75-86 | a rule behind a removed one keeps its turn exactly when the cursor it falls on agrees with its own |
| Router.UnfairAcrossRemove | internal/router/router.go:75-86 | a concrete table: the same stream twice in a row across a Remove |
| Router.Router.SameRule | internal/router/router.go:48-59 | the field-by-field loop decides equality |
| Router.Router.Add | internal/router/router.go:62-72 | appended exactly when no equivalent rule is stored |
| Router.Router.Seed | internal/router/router.go:41-45 | the same as adding the rules one after the other |
| Router.Router.Remove | internal/router/router.go:75-86 | the equivalent rule and its cursor are gone, if there was one |
| Router.Router.Match | internal/router/router.go:98-113 | the lowest-index match decides and its streams take turns |
| Sniff.Dispatch | internal/ingress/sniff/sniff.go:127-230 | for every configuration, input, chunking and error exit, the connection is handed to the target GoesTo names from the bytes alone, and yields exactly the peer's bytes; hung up on while a queue is free only when there is no target |
| Sniff.RequestGoes | internal/ingress/sniff/sniff.go:139-230 | from bytes to target: for any first line, header lines of no interest and then a Host line, a blank line or the end, with a method matching and no prefix rule taking it, the target is the route of the Host and without one the HTTP default, where the fallback stands for a target without a name |
| Sniff.DecideGoes | internal/ingress/sniff/sniff.go:139-230 | what is computed is exactly the target of that relation from bytes to targets, for every input: the first prefix rule that takes it, else what the request asks for, else without a method the fallback |
| Sniff.HungUpExactly | internal/ingress/sniff/sniff.go:127-158 | hung up on exactly when the input ends before its first three bytes or before all rules tried have read |
| Sniff.TryRules | internal/ingress/sniff/sniff.go:139-158 | the rule loop decides what TryPrefixes says and loses no byte |
| Sniff.MatchHttp | internal/ingress/sniff/sniff.go:182-211 | reading ahead by lines loses no byte and finds the target of the Host |
| Sniff.FindHost | internal/ingress/sniff/sniff.go:187-203 | the header loop finds the first Host before a blank line or the end |
| Sniff.LineReader.ReadLine | internal/ingress/sniff/sniff.go:183-192 | a line is the bytes up to the first newline however reads and buffers cut them, and there is none exactly when no newline comes |
| Sniff.Recorder.ReadFull | internal/ingress/sniff/sniff.go:114-134 | the first n bytes, all recorded, or everything there is |
| Sniff.ReplayConn.Read | internal/ingress/sniff/sniff.go:281-288 | the replayed bytes, then the connection's, none lost, repeated or reordered |
| Sniff.ReplayConn.ReadAll | internal/ingress/sniff/sniff.go:281-288 | the same over any sequence of reads |
| Sniff.ParseHex | internal/ingress/sniff/sniff.go:232-243 | the loop over digit pairs reads what HexBytes says |
| Sniff.PairsExact | internal/ingress/sniff/sniff.go:232-243 | which texts are hexadecimal and what they stand for, digit by digit |
| Sniff.HexRoundTrip | internal/ingress/sniff/sniff.go:232-243 | the hexadecimal text of any bytes, spaced anyhow, reads back as those bytes |
| Sniff.ShortRulesExact | internal/ingress/sniff/sniff.go:139-158 | with short rules only, a connection goes by prefix exactly when it starts with one |
| Sniff.PrefixesExact | internal/ingress/sniff/sniff.go:139-158 | the first rule that finds its prefix gets the connection; with none it is hung up on exactly when it ends before all rules have read |
| Sniff.RuleGetsItsPrefix | internal/ingress/sniff/sniff.go:139-158 | over any list of rules, a rule gets a connection with its prefix that none before it takes exactly when enough bytes came for all of them and the bytes it reads are its prefix's tail |
| Sniff.RuleTakesItsPrefix | internal/ingress/sniff/sniff.go:139-158 | with only short rules before it, none of which applies, a rule gets every connection with its prefix |
| Sniff.SecondLongRuleMissed | internal/ingress/sniff/sniff.go:145-153 | a concrete input: a connection starting with the second of two four-byte prefixes goes to neither |
| Sniff.ShortRuleStarved | internal/ingress/sniff/sniff.go:145-153 | a concrete input: a connection starting with a one-byte prefix behind a five-byte one is hung up on |

## Left out
- The concurrent code of adapter.go's StreamHub, window.go's Acquire loop, ctrlclient.go, proxy_server.go, ctrlproxy.go, bridge.go and admission.go is modelled on values as state machines, one action a locked section or blocking operation, because the properties are about interleavings; object identity and aliasing inside those machines are numbers.
- Sockets, TLS, HTTP upgrades, deadlines, logging and metrics: a connection is a reliable byte sequence that may end or fail, a channel a bounded queue.
- Control payloads: JSON encoding and decoding; control frames are values.
- Mux: the opening handshake is one step that hands a registered stream to its writers; Write after a local Close and the other direction of the session (which is the same machine with the ends exchanged) are not part of it.
- Mux: after a write that fails part-way nothing more is sent on the session. Session.Send does not enforce this, and a deadline set through one stream acts on the shared connection (protocol/star/adapter.go:179), so Mux.NeverMisframed rests on callers that give the session up then.
- Mux: one turn of Read is a step; StreamConn.Conn.Read is the whole loop.
- Downlink: one connection at a time, since each has its own window, queue and counter; that the frames of all of them share a session is left to Mux.
- Uplink: the 50 ms quiet heuristic of the downlink pump, the read loop sending on a queue that closeConn closes at the same time, and a failed write on the session itself.
- DialIntranet and the client's own numbering: its numbers live in the upper half and are used as in StreamHub.
- CtrlHub: the Sink queue (see Downlink) and the traffic counters; what flows on chained connections (see Mux and StreamHub), and the checks of credential and target address before one is granted; the lookup of a close frame's number and what follows it are one step, so a connection opened in between is not modelled.
- StreamTable: registration times, traffic counters, Len and Snapshot; sort.Slice is modelled by ordered insertion.
- Bridge: buffer pooling and io.WriterTo shortcuts.
- Limiter and Gate: float64 rounding; times and tokens are real numbers and the clock never goes back.
- Router: Rules returns a copy and is not modelled; the slice of streams is not shared with the caller.
- Sniff: trimming, lower-casing and host splitting are parameters of the configuration; the ten seconds a full target queue is waited for are one yes or no.
- Random numbers: the WebSocket mask keys are an input.
