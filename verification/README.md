# Stress tester: stream protocol, reconnects, chat pairs and accounting

A Dafny model of the WuKongIM stress tester, with proofs of what its client engine and its
accounting promise. `dafny verify dfyconfig.toml` checks everything.

## What is modelled

**Framing and dispatch** (`Length`, `Framing`, `Dispatch`, `Reader`). Bytes arrive in arbitrary chunks.
`Framing` defines what a frame is (`IsFrame`), independently of any loop, and proves that a byte string can be
read as frames plus an incomplete rest in exactly one way (`SplitUnique`). `Parse`, `GnetUnpacket` and
`DecodeLength` are the loops of the client, proved against that grammar; the 32-bit OR and shift of the length
decoder are proved to be digit-wise addition. `Dispatch.ReadLoop` is the read loop with its carry-over buffer.
Its main law, `ChunkInvariance`, says that the cutting of the stream does not matter, and
`CutIndependentExactly` says when that fails: if a frame does not decode, the good frames before it are handed
out or lost depending on how the network cut the stream, because a batch is decoded before any of it is
handed out. The frame numbers of PING and PONG and the decoder itself belong to the protocol library; the
numbers are unspecified constants, the decoder is any function that consumes exactly the frame in front of it.

**Writer, connections, reconnects, flush** (`Writer`, `LimWriters`, `ClientCore`, `Clients`, `Protocol`,
`Reconnects`, `Barriers`, `Runs`, `Wires`, `Limits`, `Undisturbed`). `Writer` holds the operations of the buffered writer as functions
on a state that also logs every appended byte, and for every byte on a wire its place in that log; `LimWriters` and
`Clients` are the objects, each method proved to act as the function of the same section. `Protocol` interleaves the
critical sections of the client with the steps that do not hold its lock (appends, flushes, direct writes, the send
after `handlePong` unlocks), the reconnect goroutines, partial and failed writes, and the peer. A run is any list of
enabled steps from a new client, with any number of calls of `Connect`, also overlapping ones. Over all runs: appended
bytes are sent at most once and in order, across reconnects; a PONG signal never blocks and never hits a closed
channel; the timer's unanswered PINGs are bounded. An *epoch* begins with each successful dial of `Connect`, which
makes a new PONG queue. `Barriers` proves for every epoch, while it is live, that the queue lists the unanswered PINGs
and that a `FlushTimeout` that returns nil is a barrier. `Undisturbed` ties the methods of the client object to the
steps of the transition system.

Three promises of this part do not hold without a condition, and each condition is proved to be exact:

- *Status.* With automatic reconnects the promise that status, pending buffer and worker agree survives a call of
  `Connect` if and only if no pending buffer is left over and no other `Connect` is under way
  (`Reconnects.ConnectSafeExactly`). A client closed during a reconnect keeps its pending buffer.
- *Prefix.* The wire of a connection is a prefix of what was appended over all runs if and only if connections sit
  behind a `timeoutWriter` (`Wires.WirePrefixExactly`). The program as it stands never does that: `NewOptions`
  (pkg/client/options.go:43-55) leaves `FlusherTimeout` zero, no option sets it, and so `newWriter`
  (pkg/client/client.go:768-774) always returns the raw connection. For those a single run keeps the prefix if and only
  if the connection accepted nothing after a write that had lost bytes (`Wires.WirePrefixPerRun`).
- *Barrier.* That a `FlushTimeout` that returns nil is a barrier needs a condition on the calls of `Connect` and one on
  the client. `Connect` neither closes the connection before it nor waits for its read loop. If that loop handles a PONG
  afterwards, it takes the first waiter off the new queue and wakes it, so that no client has the barrier over all runs:
  the PONG may have been on its way at a `Close` before the dial (`Limits.BarrierEndsWithLateAnswer`), or the peer may
  send it after a dial over an open connection (`Limits.BarrierEndsOverOpenConnection`). A dial keeps the barrier in all
  that can follow if and only if no answer of earlier connections can still be handled: all answers sent have been, and
  no PING is unanswered on a connection that has not been closed (`Limits.DialKeepsBarrierExactly`). An empty PONG queue
  is enough for that (`Limits.EmptyQueueIsSettled`). Over the runs in which every dial is settled in this way, the barrier
  holds if and only if connections sit behind a `timeoutWriter` and automatic reconnects are off
  (`Limits.BarrierExactly`): the PONG queue survives a reconnect, and a raw connection survives a failed write. A single
  such run on raw connections keeps it as long as nothing was accepted after lost bytes (`Limits.BarrierPerRun`).

**Chat pairs and identifiers** (`Pairs`, `Ids`, `Subscribers`). The least number of users for a number of pairs,
with the square root as an exact real; the drawing loop with the random generator as an arbitrary list of draws
(so what is proved holds for every generator), its exact result, its termination, and the top-up that makes its
error branch unreachable; identifiers that never collide; and the subscriber list.

**Accounting** (`Latency`, `Sending`, `Counting`). The integer running averages with exact error bound, the range
of the shared send average over all clients, conservation of sends under every interleaving with acks, and the
telescoping of the periodic count with loads that race with the counters.

## Model

| member | source | states |
|---|---|---|
| `Length.OrIsAddition` | pkg/client/common.go:90 | OR of two numbers whose bits do not overlap is their sum |
| `Length.FieldAtFront` | pkg/client/common.go:80-97 | a byte string begins with at most one length field, and the search finds exactly that one |
| `Length.FieldStable` | pkg/client/common.go:80-97 | a decoded field is unchanged by bytes that arrive after it |
| `Length.ValueBound` | pkg/client/common.go:84-94 | a field of k bytes denotes a number below 2^(7k) |
| `Length.ValueDigits` | pkg/client/common.go:84-94 | the digits of a field count 1, 128, 128^2 and 128^3, low digit first |
| `Length.EncodeDecode` | pkg/client/common.go:80-97 | every length below 2^28 is recovered from its minimal encoding, whatever follows |
| `Length.EncodeMinimal` | pkg/client/common.go:80-97 | every accepted field is below 2^28 and no shorter than the minimal encoding of its value |
| `Length.DepartsFromMqtt` | pkg/client/common.go:84-94 | the decoder accepts a field that section 2.2.3 of MQTT 3.1.1 forbids exactly when four continuation bytes come first |
| `Length.DecodeLength` | pkg/client/common.go:80-97 | one to four bytes, the length written out digit by digit at its places; failure exactly on fewer than four bytes that all continue |
| `Framing.FrameSizeExact` | pkg/client/common.go:13-36 | the size computed from the header is n exactly when the first n bytes are a frame |
| `Framing.SingleBytesAreFrames` | pkg/client/common.go:16-20 | a byte whose high four bits are PING or PONG is a frame by itself in front of anything |
| `Framing.FrameLayout` | pkg/client/common.go:22-31 | any other frame is a type byte, a length field and exactly as many bytes as its digits say, at least two in all |
| `Framing.FrameStable` | pkg/client/common.go:13-36 | a complete frame stays the same frame when more bytes arrive |
| `Framing.SplitSound` | pkg/client/common.go:7-44 | frames and rest together are the input, every piece is a frame, and the rest begins with none |
| `Framing.SplitUnique` | pkg/client/common.go:7-44 | any reading of the input as frames and an incomplete rest is the one the framer finds |
| `Framing.SplitResumes` | pkg/client/client.go:480-486 | framing a then b from the carry-over gives the frames and the rest of a followed by b |
| `Framing.Parse` | pkg/client/common.go:7-44 | the copying framer returns the concatenated frames and the incomplete rest, and data plus rest is the input; a PING or PONG byte at the front is handed out |
| `Framing.GnetUnpacket` | pkg/client/common.go:46-78 | the slicing framer returns the same two parts on every input, PING and PONG bytes included |
| `Dispatch.HandlePacketDatas` | pkg/client/client.go:501-523 | terminates at the end of the data with what the decoder makes of each frame, one by one and in order, or hands out nothing exactly when some frame does not decode |
| `Dispatch.ReadLoop` | pkg/client/client.go:456-499 | the loop with its carry-over buffer computes `Loop` for every list of reads, failed reads and looks at the closed flag |
| `Dispatch.ChunkInvariance` | pkg/client/client.go:467-490 | for every cutting of a stream of decodable frames the handler gets each frame once and in order, and the carry-over is the stream's incomplete end |
| `Dispatch.SessionEnds` | pkg/client/client.go:470-498 | a failed read or a set closed flag ends the loop with everything from before it handed out and nothing after it |
| `Dispatch.BadFrameStops` | pkg/client/client.go:487-496 | with an undecodable frame every cutting ends in the error branch, having handed out whole batches from in front of it |
| `Dispatch.BadReadEndsLoop` | pkg/client/client.go:480-496 | which read ends the loop: the first that completes an undecodable frame; handed out are exactly the frames complete before it, and what follows the complete frames is left over |
| `Dispatch.CutIndependentExactly` | pkg/client/client.go:501-523 | what is handed out is independent of the cutting if and only if all frames decode or the first one does not |
| `Reader.LimReader.Read` | pkg/client/buffer.go:135-144 | hands out the unread window, or else the front of what the connection delivers, and fails exactly if the read of the connection does; no byte is lost or repeated |
| `Reader.LimReader.ReadString` | pkg/client/buffer.go:146-170 | returns the bytes through the first delimiter and keeps the rest; fails exactly if a read fails before the delimiter has come, and drops only bytes that came with the error |
| `Writer.PendingFlushCanOvertake` | pkg/client/buffer.go:83-92 | sending the pending buffer in front of a non-empty buffer breaks the order, so the emptying bind is needed |
| `Writer.RunInOrder` | pkg/client/buffer.go:25-103 | every run of writer operations whose pending flushes find the buffer empty sends at most once and in order |
| `Writer.RunConn` | pkg/client/buffer.go:25-122 | every run keeps the facts about one connection: wire against bytes handed over and bytes appended since binding |
| `Writer.StepPlaced` | pkg/client/buffer.go:25-103 | every operation keeps each buffered byte of a wire at its own place of the log of appended bytes, places increasing, and the buffer in use at the end of the log |
| `Writer.WirePrefixExactly` | pkg/client/client.go:768-774 | over all runs on one connection the buffered wire is a prefix of what was appended if and only if the connection sits behind the timeout writer |
| `LimWriters.ConnWriter.Write` | pkg/client/buffer.go:112-122 | the first error sticks behind the timeout writer and nothing reaches the wire after it |
| `LimWriters.LimWriter.AppendLocked` | pkg/client/buffer.go:26-34 | all pieces go to the buffer in use, in order |
| `LimWriters.LimWriter.AppendBufs` | pkg/client/buffer.go:25-44 | append, then flush exactly when the limit is reached without pending buffer; fewer than `limit` bytes stay |
| `LimWriters.LimWriter.WriteDirect` | pkg/client/buffer.go:46-51 | the accepted bytes go to the wire at once, as direct ones, and both buffers stay |
| `LimWriters.LimWriter.Flush` | pkg/client/buffer.go:53-70 | nothing while pending, otherwise one write of everything buffered, after which the buffer is empty even on failure |
| `LimWriters.LimWriter.FlushPendingBuffer` | pkg/client/buffer.go:83-92 | one write of the pending buffer, which is emptied even when the write was partial |
| `LimWriters.LimWriter.BindToNewConn` | pkg/client/client.go:775-780 | a fresh connection and an empty buffer; the pending buffer stays |
| `Clients.Client.SendPing` | pkg/client/client.go:440-454 | queue entry, PING bytes and flush in that order; no second flush after a failed append |
| `Clients.Client.RemoveFlushEntry` | pkg/client/client.go:376-389 | the first entry of the channel becomes nil and every other place stays |
| `Clients.Client.TakePong` | pkg/client/client.go:570-578 | the front of the queue is taken and the ping count reset, also when the queue is empty |
| `Clients.Client.ProcessPingTimer` | pkg/client/client.go:219-235 | counts only while connected and turns stale above the maximum |
| `Clients.Client.ProcessOpErr` | pkg/client/client.go:406-432 | by status: CONNECTED with automatic reconnects reconnects with a new pending buffer, CONNECTED without and DISCONNECTED give up as DISCONNECTED, the other three are ignored |
| `Clients.Client.CloseWith` | pkg/client/client.go:131-170 | flushes if there is a connection, and only sets the status when already closed |
| `Clients.Client.Connect` | pkg/client/client.go:95-120 | the status, queue, writer and reconnect worker for each outcome of dial and handshake |
| `Clients.Client.TryReconnect` | pkg/client/client.go:267-306 | one turn of the reconnect loop: quits when closed, keeps reconnecting on failure, drops the pending buffer only on success |
| `Undisturbed.FlushTimeoutSteps` | pkg/client/client.go:440-454 | the PING of a `FlushTimeout` without interference is the run of its steps, with the result `SendPing` is proved to have |
| `Undisturbed.PingTimerSteps` | pkg/client/client.go:219-235 | the same for the PING of the timer |
| `Undisturbed.TimerCounts` | pkg/client/client.go:219-231 | the timer counts whenever the client is CONNECTED and queues a PING only up to the maximum |
| `Undisturbed.OneStepCalls` | pkg/client/client.go:376-432 | the calls with one critical section are one step each, with the result their methods are proved to have |
| `Undisturbed.ConnectAsSteps` | pkg/client/client.go:95-120 | `Connect` without interference is the run of its steps, with the same result and worker |
| `Undisturbed.TryReconnectAsSteps` | pkg/client/client.go:267-306 | one turn of the reconnect loop without interference is the run of its steps, and the worker is gone exactly after the last turn |
| `Reconnects.MachineStep` | pkg/client/client.go:94-321 | every step of a calm run keeps status, pending buffer, lock stage, workers and calls of `Connect` consistent |
| `Reconnects.StatusPromise` | pkg/client/client.go:111-117 | over every calm run with any number of Connects: with the lock free, RECONNECTING means a pending buffer and exactly one unfinished worker, CONNECTED means neither |
| `Reconnects.StatusTable` | pkg/client/client.go:95-321 | the status after every step, by step and status before |
| `Reconnects.ErrorEndsConnected` | pkg/client/client.go:406-432 | an error never leaves the client CONNECTED; it starts a worker with a new pending buffer exactly if it was CONNECTED with automatic reconnects |
| `Reconnects.WorkerGoesOn` | pkg/client/client.go:279-289 | after a failed handshake the worker is RECONNECTING with the same pending buffer and can dial again |
| `Reconnects.WorkerLeaves` | pkg/client/client.go:267-271 | a worker that finds the client closed ends |
| `Reconnects.RetryStarts` | pkg/client/client.go:111-117 | the tail of a failed `Connect` leaves an empty PONG queue, a new pending buffer and one more worker |
| `Reconnects.CalmEnough` | pkg/client/client.go:95-120 | every run with at most one successful dial of `Connect`, and every run without automatic reconnects, is calm |
| `Reconnects.ConnectSafeExactly` | pkg/client/client.go:131-140 | a call of `Connect` keeps the status promise in all that can follow if and only if there is no pending buffer and no other call under way |
| `Protocol.ReadyStep` | pkg/client/client.go:238-303 | every step keeps a connection under every possible write, and an empty buffer under every reconnect attempt with a pending buffer |
| `Protocol.WriterMoves` | pkg/client/client.go:273-303 | every client step is an allowed writer operation; the pending flush always finds the buffer empty |
| `Protocol.SignalsStep` | pkg/client/client.go:346-389 | every step keeps each channel in at most one place |
| `Protocol.TimerPingsBounded` | pkg/client/client.go:219-235 | over every run, the timer sends at most the maximum number of PINGs without a PONG or a handshake in between |
| `Protocol.AtMostOnceInOrder` | pkg/client/client.go:273-303 | over every run, bytes on all wires then buffer then pending buffer are a subsequence of the bytes appended |
| `Protocol.EachByteInPlace` | pkg/client/client.go:273-303 | over every run, each buffered byte on any wire is the byte appended at its place, and the places increase along all wires |
| `Protocol.OneConnection` | pkg/client/buffer.go:25-122 | without a pending buffer in between, wire plus buffer are all bytes appended since binding until a write fails, and the wire stays a prefix after that behind the timeout writer |
| `Protocol.SignalsAreSafe` | pkg/client/client.go:570-582 | the pending send of a PONG signal always finds an open channel with an empty buffer; no channel is sent to twice or queued twice |
| `Barriers.AlignedStep` | pkg/client/client.go:440-454 | every step keeps queue, PINGs, answers and what the peer has read aligned while the epoch is live; each dial of `Connect` starts the next one |
| `Barriers.PeerReadExactly` | pkg/client/buffer.go:53-70 | in a live epoch the peer has read exactly the places of the log from where the connection began, without a gap |
| `Barriers.QueueListsUnanswered` | pkg/client/client.go:376-389 | in every live epoch, one that no late PONG of an earlier connection has disturbed, the queue lists exactly its unanswered PINGs in order, with nil for waiters that gave up |
| `Barriers.TimeOutLeavesNil` | pkg/client/client.go:355-389 | a `FlushTimeout` that times out turns its place of the queue into nil and leaves every other place alone |
| `Barriers.FlushIsBarrier` | pkg/client/client.go:330-366 | in every live epoch, one that no late PONG of an earlier connection has disturbed, a `FlushTimeout` that returned nil proves that the peer has read everything appended on the connection up to the end of its PING |
| `Wires.WirePrefixExactly` | pkg/client/client.go:768-774 | over all runs of a client its wires are prefixes of what was appended if and only if connections sit behind the timeout writer |
| `Wires.WirePrefixPerRun` | pkg/client/buffer.go:53-70 | for every single run: place by place the wire is a prefix of what was appended if and only if nothing from the buffer was accepted after a write that had lost bytes |
| `Wires.DirectsOnWire` | pkg/client/buffer.go:46-51 | over every run, until a write fails the direct bytes of a wire are exactly those written directly since the dial, in order, and a prefix of them behind the timeout writer |
| `Wires.DirectWriteStands` | pkg/client/buffer.go:46-51 | in every run without a failed write, a direct write stands right behind all that was on the wire before it and in front of all that comes later |
| `Limits.BarrierExactly` | pkg/client/client.go:330-366 | over all runs with an orderly peer and settled dials, flush is a barrier if and only if connections sit behind the timeout writer and automatic reconnects are off |
| `Limits.BarrierPerRun` | pkg/client/client.go:330-366 | in a single such run without automatic reconnects, raw connections included, flush is a barrier if nothing was accepted after lost bytes |
| `Limits.DialKeepsBarrierExactly` | pkg/client/client.go:95-120 | for a client behind the timeout writer without automatic reconnects, after any run, a dial of `Connect` keeps the barrier in all that can follow if and only if no answer of earlier connections can still be handled, neither one already sent nor one to a PING that is unanswered on a connection left open |
| `Limits.EmptyQueueIsSettled` | pkg/client/client.go:570-578 | with an empty PONG queue every PING was answered and every answer handled, so that a dial is settled |
| `Limits.AnswersConserved` | pkg/client/client.go:570-582 | over every run, the answers sent are those handled, those on their way, and those left over from earlier connections |
| `Limits.ClosedIsSilent` | pkg/client/client.go:155-165 | once a connection is closed its peer can send no answer that reaches the client |
| `Limits.BarrierEndsWithLateAnswer` | pkg/client/client.go:570-582 | for every client, a run with an orderly peer and good connections in which an old read loop handles its PONG after a new `Connect`, and a `FlushTimeout` returns nil for a PING the peer has not read |
| `Limits.BarrierEndsOverOpenConnection` | pkg/client/client.go:757-766 | for every client, a run in which `Connect` replaces an open connection, its peer answers a PING afterwards, and a `FlushTimeout` on the new connection returns nil for a PING the peer has not read |
| `Limits.BarrierEndsWithReconnect` | pkg/client/client.go:238-314 | a run with one reconnect, an orderly peer and a connection in good order in which a `FlushTimeout` returns nil for a byte that is on no wire |
| `Limits.BarrierEndsOnRawConnection` | pkg/client/client.go:768-774 | the same on one raw connection that went on after a failed write |
| `Pairs.MinUsersLeast` | server/task_p2p.go:192-208 | error exactly for negative input, else the least n of at least 1 with n(n-1)/2 pairs or more |
| `Pairs.AllPairsSize` | server/task_p2p.go:163-166 | n users have n(n-1)/2 unordered pairs |
| `Pairs.UnusedPairExists` | server/task_p2p.go:172-186 | while fewer pairs are held than exist, an unused one exists |
| `Pairs.CollectExact` | server/task_p2p.go:172-186 | the accepted pairs are distinct and drawn, and as many as the different pairs drawn up to the number wanted |
| `Pairs.DrawingEnds` | server/task_p2p.go:172-186 | under every stream of draws in which the pairs keep recurring the loop ends with the number wanted |
| `Pairs.GenerateRandomPairs` | server/task_p2p.go:162-189 | error exactly above the number of possible pairs; else the pairs consist of users, each picked pair was drawn and every different pair drawn while there were too few is among them once, done exactly when there are enough |
| `Pairs.P2pTask.GenerateData` | server/task_p2p.go:52-76 | never takes the error branch of the drawing for a non-negative count, and ends with that many drawn pairs of different users among the online ones and those that top them up, no two alike |
| `Ids.PaddedReads` | server/server.go:158-166 | zero-padded decimal notation has at least seven digits and reads back as the number |
| `Ids.GenUidShape` | server/server.go:158-161 | a uid is the prefix followed by its index in seven digits, or in as many as it takes |
| `Ids.GenChannelIdShape` | server/server.go:164-166 | a channel id is the prefix, the task number without padding, a colon and the padded index |
| `Ids.GenUidInjective` | server/server.go:158-161 | different indices have different uids |
| `Ids.GenChannelIdInjective` | server/server.go:164-166 | different pairs of task and index have different channel ids |
| `Subscribers.ChannelTask.CreateSubscribers` | server/task_channel.go:107-131 | the list begins with the online users and goes on with the indices behind the gap; its length is max(count, min(online wanted, online)), it has no duplicates, and no offline subscriber is an online user |
| `Subscribers.ListProperties` | server/task_channel.go:107-131 | the same three facts for every prefix, user list and configuration |
| `Latency.AverageError` | server/client.go:113 | one client, all acks matched and successful: 0 <= sum - n * average <= n(n-1)/2 |
| `Latency.AverageErrorTight` | server/client.go:113 | that bound is reached for every n: latencies 0, 1, 2, ... keep the average at zero |
| `Latency.OneClient` | server/client.go:88-117 | the shared ledger of one such client is the plain running average |
| `Latency.SuccessesCount` | server/client.go:117 | the weight of a client is the number of its successful acks |
| `Latency.AckSample` | server/client.go:90-117 | a matched ack gives one sample, weighted with the successful acks of its client before it; other acks give none |
| `Latency.ExtremesExact` | server/client.go:105-111 | minimum and maximum are the smallest and largest matched latency, over any order of acks |
| `Latency.AverageInRange` | server/client.go:88-117 | with a fair start, min <= average <= max after every ack of any client once a sample exists |
| `Latency.AllMatchedIsFair` | server/client.go:90-94 | the start is fair when every ack finds its send recorded |
| `Latency.UnfairStartFails` | server/client.go:113-117 | at the first sample the average is in range if and only if that client had no earlier success |
| `Latency.AverageInRangeExactly` | server/client.go:88-117 | the send average is in range after every ack from the first sample on if and only if the start is fair |
| `Latency.RecvFirstSampleIsLow` | server/client.go:63-79 | the receive average starts below the minimum, because the count was already incremented |
| `Latency.RecvAverageBelowMax` | server/client.go:63-79 | over every order of messages to any number of clients the receive average is, from the first sample on, below the largest latency, which is one of the samples |
| `Latency.RecvAverageMissesConstant` | server/client.go:63-79 | the receive average never reaches a constant latency |
| `Latency.ReceiptsCount` | server/client.go:62-63 | the receive weight of a client is the number of messages it received |
| `Latency.ReceiptSample` | server/client.go:62-79 | a found message gives one sample, weighted with the messages its client has received including it; others give none |
| `Sending.TestClient.Send` | server/client.go:158-172 | every counter after a send that is refused before or after numbering, or accepted; an accepted one is noted under its number with its time, and no other entry changes |
| `Sending.TestClient.OnSendack` | server/client.go:88-123 | every counter after an ack; a noted send moves from one map to the other and gives a sample with its latency, weighted by the successes before it |
| `Sending.TestClient.OnRecv` | server/client.go:55-86 | counts first, then samples with the sender's recorded time if there is one |
| `Sending.SendsConserved` | server/client.go:88-172 | over every interleaving: sendCount = successes + errors + in progress + accepted without ack; numbers are fresh; each noted time is that of its own frame |
| `Sending.AckFindsItsSend` | server/client.go:92-104 | over every interleaving, an ack of a frame recorded before moves its recorded time to `sendSuccessMap`; otherwise both maps stay |
| `Sending.RecordedWhen` | server/client.go:168-170 | over every interleaving, the time kept for a frame is that of its own record event |
| `Sending.CleanedForgets` | server/client.go:130-140 | the clean loop forgets one message and nothing else |
| `Sending.EverySendAccounted` | server/client.go:88-172 | over every interleaving, of the sends begun each was acked, or counted as an error, or is in progress, or waits for its ack |
| `Counting.CountMsg` | server/task_stats.go:84-132 | column by column, totals and successes and errors as sums over the clients, batches as loads less old baselines, rates rounded toward zero, and every new baseline its last load, with counters moving between the loads |
| `Counting.TotalBelowBase` | server/task_stats.go:104-122 | the published total is the sum of the first loads and never exceeds the new baselines |
| `Counting.BatchesTelescope` | server/task_stats.go:104-119 | over any run of ticks the batches never exceed what was counted, and the shortfall is exactly what came since the last tick plus what fell between the two loads |

## Left out

- Framing.Parse: does not model that the returned rest shares memory with the input; data and rest are values.
- Dispatch.HandlePacketDatas: the decoder is assumed to consume exactly the frame in front of it; frame bodies, encryption and keys are not modelled.
- Dispatch.ReadLoop: the call of `processOpErr` at its end is only recorded as the exit; the step is in `Protocol`.
- Dispatch.ChunkInvariance: speaks of one read loop on its reader; after a repeated `Connect` an old loop that is still dispatching can read from the shared reader and its buffer too, and how the two divide or disturb the new stream is not modelled.
- The limit of the pending buffer (`atLimitIfUsingPending`): nothing in the repository calls it.
- Clients.Client.SendPing: encoding a PING is taken not to fail; a failure would leave a queue entry without a PING.
- Clients.Client.Connect: the frames of the handshake are a single outcome; goroutine start, deadlines, jitter and the wait for old goroutines are not modelled.
- Protocol.ReadyStep: each critical section and each operation of the writer is one step; the fields that `switchToPending`, `doneWithPending` and `bindToNewConn` write without the writer's lock are not modelled as torn reads.
- The flusher goroutine and the flush inside `appendPacket` are the same writer step as any other flush; a failed dial changes no modelled state and is no step.
- Barriers.FlushIsBarrier: is stated for live epochs: since the dial of `Connect` no pending buffer, no redial, no PONG the peer did not owe, no queue entry taken by a PONG of an earlier connection, and nothing accepted after lost bytes; `Limits.DialKeepsBarrierExactly` and `Limits.BarrierExactly` show when that is always so.
- Barriers.QueueListsUnanswered: is stated for the same live epochs.
- Limits.BarrierExactly: at the dial of a reconnect worker, answers and unanswered PINGs count as ones that may still reach an old read loop, although the worker has waited for those loops; they can only if a `Connect` came in between.
- Limits.DialKeepsBarrierExactly: any read loop started before may be the one that reads on an earlier connection; which loop is blocked on which connection is not modelled.
- Protocol.AtMostOnceInOrder: does not say that bytes arrive; bytes buffered at a bind, cut off by a failed write, or appended between the pending flush and its end are dropped by the client.
- Pairs.MinUsersLeast: takes the square root as exact; the rounding of floating point for very large counts is not modelled.
- Latency.AverageInRange: takes each callback as one step, as does `Sending.SendsConserved`; lost updates between the load and the store of a shared statistic are not modelled.
- Sending.SendsConserved: assumes that each accepted frame is acked at most once and a refused one never.
- Counting.CountMsg: the expected number of received messages and the online count of the same tick are not modelled.
- The batch slicing of channel creation and of going online, task start and stop flags, options, addresses and formatting: easy members.
- HTTP routes, JSON, system information, real sockets, timers and the timer pool: input and output, represented by nondeterministic steps where they matter.
