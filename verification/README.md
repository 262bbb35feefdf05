# A verified model of the h3ntun transport

h3ntun carries datagrams between two agents (Iran and Foreign) over UDP paths that lose, duplicate,
delay and reorder packets. This project models, in Dafny, what both agents do between the socket and the
application, and proves what the protocol promises.

- `ReplayWindow.dfy`: the sliding bitmap with retired sessions, refined to the full list of accepted frames.
- `Checkpoint.dfy`, `Flushing.dfy`: the one-slot coalescing checkpoint writer, its failures, its disk, crashes and
  restarts; when it takes the slot, its pace, and that closing is always reached.
- `Fragmentation.dfy`, `Recovery.dfy`: cutting a message, the XOR parity fragment, and one assembly.
- `Reassembly.dfy`, `Delivery.dfy`, `Exactness.dfy`, `Attention.dfy`, `Lingering.dfy`: the bounded
  reassembly tables; soundness under any timeouts and evictions; exactness for every message whose own entry
  is spared, and a condition on the arrivals that spares it; expired keys that stay listed.
- `RoundTrip.dfy`: end to end, from one call of the fragmenter, and from its sealed packets, to the payload.
- `Faults.dfy`: reassembly fed with anything well formed, each error exactly when it is due.
- `Sender.dfy`, `SenderRuns.dfy`, `Timetable.dfy`: queue, in-flight table, backoff, retry budget and AIMD window;
  whole runs; when a message is let in, first sent, sent again and given up, exactly.
- `Struct.dfy`, `Codec.dfy`: big-endian records and the authenticated 65-byte-header frame codec.
- `Checksum.dfy`: the RFC 1071 checksum and the IPv4/UDP packet built with it.
- `Counters.dfy`, `Process.dfy`: the locked frame counter, and one process with any number of threads whose
  draws and encodings interleave in any way.
- `Endpoint.dfy`, `Service.dfy`, `Agent.dfy`: one agent, as a value, as a service and as an object.
- `Tunnel.dfy`: two agents, their counters, and a network that may replay any packet ever put on the wire.
- `Wire.dfy`: what has gone on the wire in every run of the tunnel.
- `Consumption.dfy`: a run of the tunnel in which a message is acknowledged and never forwarded.
- `Common.dfy`, `Bits.dfy`, `Dicts.dfy`, `Frames.dfy`: shared types, bit strings, insertion-ordered
  dictionaries and the frame record with its limits.

Objects that the source updates in place (replay window, persistent window, reassembler, sender, agent) are
classes. Each method is proved against a function on the object's state, and the theorems about whole runs
are folds of those functions over arbitrary lists of events. One event is one lock-protected region of the
source: drawing a number is an event of its own, so is encoding under it, and so is sending a reply that a
received packet has caused. Clock readings, session ids and the cipher are parameters; `LawsCanBeMet` and
`StartCanBeMet` show that what is asked of the cipher and of a start is not contradictory.

Findings about the code, stated as theorems:

- A duplicate moves a completed key behind younger ones without refreshing its time, so an expired key can
  stay. A key survives a purge exactly when it, or a key in front of it, is young (`LingersIff`).
  `ExpiredCanLinger` is a run of three arrivals with the default limits in which one does.
- An acknowledgement means "completely reassembled", not "forwarded". In every run an acknowledged message
  has been forwarded if and only if one of its completions happened while the inner peer was known; the
  Foreign side always knows it, so only messages to the Iran side are concerned (`AcknowledgedForwardedIff`).
  `AcknowledgedNeverForwarded` is a run of nine moves from the default configuration.
- The reported checkpoint lag bounds what a killed process can accept again, always. It bounds what a power
  loss can expose if and only if the version that the process started from is durable, which one confirmed
  write ensures (`LagBoundsExposureIff`). `LagCanHide` is a run of four events, through a failed directory
  sync, in which the lag is 0 and a power loss still brings an accepted frame back. A successful close is
  durable under the same condition (`CloseIsDurable`).
- The limit of 256 fragments is never reached: 60000 bytes need at most 235 (`CountBound`).

## Model

| member | source | states |
|---|---|---|
| Replay.ReplayWindow.Select | h3ntun/protocol.py:273-285 | a new session retires the current one and clears the bitmap; a retired session is refused |
| Replay.ReplayWindow.TryAccept | h3ntun/protocol.py:287-314 | the bitmap code accepts a frame exactly when the whole history admits it, and then stands for the longer history |
| Replay.ReplayWindow.Load | h3ntun/protocol.py:329-348 | a snapshot is taken over whole or refused with the matching error and no change |
| Replay.SlideBit | h3ntun/protocol.py:294-301 | after the window moves up, bit i is the new top or the old bit i minus the shift, cut to the window size |
| Replay.MaskTest | h3ntun/protocol.py:306-308 | the mask test reads exactly bit `distance` |
| Replay.AcceptRefines | h3ntun/protocol.py:273-310 | accepted if and only if non-negative, new, and not retired nor at or below highest minus size; a refusal changes nothing; bit d means that highest minus d was accepted |
| Replay.RepresentsUnique | h3ntun/protocol.py:260-310 | the history determines the window |
| Replay.RestoreExactly | h3ntun/protocol.py:329-348 | a snapshot is restored if and only if it has the window's size, a highest number of at least -1 and no bit beyond the size |
| Replay.RestoreRepresented | h3ntun/protocol.py:316-348 | snapshot then restore gives back every reachable window |
| Replay.RunRefinesHistory | h3ntun/protocol.py:260-314 | over every list of calls no pair is accepted twice and every decision follows the reference rule |
| Checkpoint.PersistentReplayWindow.Open | h3ntun/protocol.py:358-406 | start-up uses the file's window, starts fresh without a file, and fails on a file it cannot restore; the object is valid if the file stands for a history |
| Checkpoint.PersistentReplayWindow.TryAccept | h3ntun/protocol.py:438-454 | accepts exactly what the history admits; the current window at the new generation goes into the slot with the older queueing time; closing refuses without change; the slot rule is kept |
| Checkpoint.PersistentReplayWindow.Poll | h3ntun/protocol.py:486-516 | the writer returns exactly when stopping with an empty slot; it takes the slot exactly when the retry time has come and it is stopping, has a full batch or has waited the interval; the slot rule is kept |
| Flushing.PollDecides | h3ntun/protocol.py:487-507 | in every state a look at the slot takes it, returns, or changes nothing, by those conditions |
| Flushing.FlushedAtOnce | h3ntun/protocol.py:492-540 | from every reachable state in which the slot may be taken, one look and one successful write leave lag 0 and the whole window durable |
| Flushing.CloseIsReached | h3ntun/protocol.py:490-548 | from every reachable state in which closing has begun, at most two successful writes, looked for no earlier than the retry time, end in a return with close succeeding |
| Flushing.WritesArePaced | h3ntun/protocol.py:492-507 | between one taking and the next the interval passes, or a full batch is accepted, or the process is stopping |
| Flushing.TakenInTime | h3ntun/protocol.py:492-507 | once the retry time has come the slot is taken as soon as the interval has passed or a full batch has been accepted since the last taking |
| Flushing.FailureWaits | h3ntun/protocol.py:494-532 | after a failed write nothing is taken for one interval, not even while stopping |
| Flushing.NoFailureNoWait | h3ntun/protocol.py:389-531 | a process none of whose writes has failed never waits for a retry |
| Checkpoint.PersistentReplayWindow.Written | h3ntun/protocol.py:533-540 | the generation written becomes the persisted one, and the lag is then 0 exactly if nothing is pending |
| Checkpoint.PersistentReplayWindow.Failed | h3ntun/protocol.py:518-532 | the failed snapshot returns to an empty slot, never over a newer one; what is pending is then the current window, with the older queueing time; the retry time is one interval ahead; the pending-frame count is not restored |
| Checkpoint.PersistentReplayWindow.BeginClose | h3ntun/protocol.py:543-546 | closing only raises the stopping flag |
| Checkpoint.WriterInvariant | h3ntun/protocol.py:438-454 | in every reachable state the pending snapshot is the current window, else the one in flight is, else all is persisted; accepted is what was written, coalesced, waiting and being written, up to one per failed write; the durable version covers at most the reported frames, and exactly those after a confirmed write; the visible one at least those |
| Checkpoint.DiskMonotone | h3ntun/protocol.py:408-436 | the durable version never goes back at all, the visible one only when the power fails, the persisted count only when the process ends |
| Checkpoint.CrashExposure | h3ntun/protocol.py:399-454 | what a crash makes acceptable again is not durable; after a kill, or if all the process started from is durable, it lies among the last accepted minus persisted |
| Checkpoint.LagBoundsExposureIff | h3ntun/protocol.py:472 | the reported lag bounds what every crash can expose if and only if the durable version covers what the process started from and reports |
| Checkpoint.LagCanHide | h3ntun/protocol.py:422-431 | a run in which the lag is 0 and a power loss makes an accepted frame acceptable again |
| Checkpoint.CheckpointedForever | h3ntun/protocol.py:399-454 | a frame covered by the durable version, which after a confirmed write is every frame reported persisted, is refused for ever after, through any failures, kills, power losses and restarts |
| Checkpoint.AcceptedOncePerLife | h3ntun/protocol.py:351-356 | over every run no frame is accepted more than once plus once per crash |
| Checkpoint.CloseIsDurable | h3ntun/protocol.py:543-548 | a writer that has returned makes close succeed; a later restart then has exactly the window in memory, after a kill always, after a power loss if and only if all that the process started from is durable |
| Checkpoint.NoAcceptWhileStopping | h3ntun/protocol.py:439-443 | once stopping, no frame is accepted and the window never changes |
| Fragmentation.FragmentMessage | h3ntun/reliability.py:29-55 | the errors, and the list of fragments described on its own: the least number of slices that holds the payload, slice i at index i, and behind them exactly one parity, the XOR of every column, if error correction is on and there are several |
| Fragmentation.CutUnique | h3ntun/reliability.py:36-55 | exactly one list satisfies that description |
| Fragmentation.ComputeParity | h3ntun/reliability.py:47-51 | the in-place XOR loops give, at each offset, the XOR of all pieces padded with zero |
| Fragmentation.JoinChop | h3ntun/reliability.py:39-42 | the pieces joined are the payload |
| Fragmentation.ChopAt | h3ntun/reliability.py:39-42 | piece i is the i-th slice, full unless it is the last |
| Fragmentation.ChopCount | h3ntun/reliability.py:36 | there are max(1, ceil(length / size)) pieces |
| Fragmentation.CountBound | h3ntun/reliability.py:30-38 | a payload within the limit needs at most 235 pieces, so the too-many-fragments error cannot occur |
| Fragmentation.AssembleNow | h3ntun/reliability.py:115-148 | joining, or recovering the one missing piece in place, with every error case |
| Faults.AssembleWhole | h3ntun/reliability.py:117-121 | with all fragments held, genuine or not, they are joined, or the announced length is refused |
| Faults.AssembleShort | h3ntun/reliability.py:122-123 | with too few nothing happens |
| Faults.AssembleRefused | h3ntun/reliability.py:124-143 | one short with the parity: the errors of an empty parity, an overlong fragment and an impossible length, each exactly when due and in this order |
| Faults.AssembleRecovers | h3ntun/reliability.py:131-148 | otherwise the missing piece is of the length left for it and makes the XOR of all pieces the parity; it is stored, and the joined pieces are the payload if they have the announced length |
| Faults.CompletedIsHeld | h3ntun/reliability.py:116-148 | whatever was put in, a completed payload has the announced length and is the join of the pieces held and at most one recovered from the parity |
| Recovery.ColumnHole | h3ntun/reliability.py:131-136 | XORing the parity with all pieces but one leaves that one |
| Recovery.RecoveredPiece | h3ntun/reliability.py:124-144 | the recovered bytes, cut to the expected length, are the missing piece |
| Recovery.AssembleExact | h3ntun/reliability.py:115-148 | genuine fragments complete exactly when all data, or all but one and the parity, are there, with the original payload, and never raise an error |
| Reassembly.Reassembler.PurgeNow | h3ntun/reliability.py:91-107 | the two purge loops and the number of assemblies removed |
| Reassembly.Reassembler.IsCompleted | h3ntun/reliability.py:109-113 | purges, then tells whether the key is still listed |
| Reassembly.Reassembler.AddFrame | h3ntun/reliability.py:150-193 | the verdict and both tables after one fragment, and the table invariant |
| Reassembly.Reassembler.FindOldest | h3ntun/reliability.py:161 | a key with the least update time, the first of them |
| Reassembly.Reassembler.Complement | h3ntun/reliability.py:175-193 | storing the fragment, the two conflict errors, completion, and trimming of the completed keys |
| Reassembly.PurgeOnlyExpired | h3ntun/reliability.py:91-103 | an open assembly goes exactly when timed out; a completed key goes only when expired |
| Reassembly.LingersIff | h3ntun/reliability.py:98-102 | a completed key survives a purge of the tables exactly when it or one in front of it is young |
| Lingering.ExpiredCanLinger | h3ntun/reliability.py:155-157 | a run of three frames with the default limits after which a purge leaves an expired key, and without the duplicate does not |
| Reassembly.MakeRoomOldest | h3ntun/reliability.py:160-162 | eviction removes only the assembly that has waited longest |
| Reassembly.MakeRoomOne | h3ntun/reliability.py:160-162 | only a full table loses an assembly, and then exactly one |
| Reassembly.TrimExact | h3ntun/reliability.py:191-192 | the completed keys that stay are the last ones, as many as the limit allows, in order |
| Reassembly.TrimBound | h3ntun/reliability.py:191-192 | the completed table is cut to its limit |
| Reassembly.TrimNewest | h3ntun/reliability.py:189-192 | the newest completed key survives the cut |
| Reassembly.AddInv | h3ntun/reliability.py:150-193 | every add keeps open and completed keys disjoint and both tables within their limits |
| Faults.MetadataRefused | h3ntun/reliability.py:170-174 | a frame that announces another length or count than its open assembly is refused, and only the purge is done |
| Faults.ContradictionRefused | h3ntun/reliability.py:175-184 | a fragment or parity with other bytes than the stored one is refused; the stored one stays, and the assembly counts as touched |
| Faults.OtherwiseStored | h3ntun/reliability.py:150-193 | any other frame of an uncompleted key is stored in its place, and the answer is that of trying to complete the assembly |
| Faults.RunIndexed | h3ntun/reliability.py:115-193 | over every run of well-formed frames, genuine or not, what comes out has the length its last frame announced |
| Delivery.GenuineAdd | h3ntun/reliability.py:150-193 | whatever was purged or evicted, a genuine fragment raises no error, delivers only the submitted payload, and every delivery uses up `count` fragments |
| Exactness.SparedKey | h3ntun/reliability.py:150-193 | a frame of a message whose own entry survives the purge is answered by what has arrived for the message, whatever is removed for other messages |
| Exactness.AddOther | h3ntun/reliability.py:150-193 | a frame leaves the entry of every other message as it is or removes it |
| Exactness.DeliveredExactlyWhenRecoverable | h3ntun/reliability.py:115-193 | for every run of well-formed arrivals that spares the message's own entry, its payload comes at exactly the first of its arrivals that makes it recoverable |
| Exactness.DeliveredInQuietRun | h3ntun/reliability.py:115-193 | in particular in a run that removes nothing |
| RoundTrips.FragmentsComeOut | h3ntun/reliability.py:29-193 | of the fragments of one call any may arrive any number of times in any order among anything else; with the message's own entry spared the payload comes out if and only if all arrived, or all but one where there is a parity, and once |
| RoundTrips.PacketCarries | h3ntun/agent.py:153-173 | the j-th packet of a message decodes at the peer, whenever in time, to the j-th fragment under the sender's session, the message id, the number drawn for it and the kind of its direction |
| RoundTrips.MessageComesOut | h3ntun/agent.py:153-445 | end to end by packets: with the message's entry spared the submitted payload comes out if and only if all packets were received in time, or all but one where there is a parity, and once |
| RoundTrips.MessageComesOutInQuiet | h3ntun/agent.py:153-445 | in particular in a run in which nothing times out or is evicted |
| Attention.AttendedSpares | h3ntun/reliability.py:91-103 | a key is spared while its frames keep within the timeout of each other, and within the expiry period of its completion, with fewer other keys in between than the table holds |
| Attention.DeliveredWhenAttended | h3ntun/reliability.py:91-193 | under that condition on the arrivals alone the message comes out exactly when it can, with its own bytes |
| Sending.ReliableSender.TryEnqueue | h3ntun/reliability.py:244-255 | empty message, full queue and duplicate id, each exactly when; otherwise the message goes to the end of the queue |
| Timetables.AdmittedExactly | h3ntun/reliability.py:244-255 | over every run what is held is accepted less acknowledged less given up; a nonempty submission is refused for room exactly when that has reached the limit, as a duplicate exactly when its id is held, and accepted otherwise |
| Sending.ReliableSender.Confirm | h3ntun/reliability.py:257-266 | an in-flight message leaves, the window grows by one over itself up to the cap, the latency is counted from the first transmission; otherwise nothing changes |
| Sending.ReliableSender.PumpNow | h3ntun/reliability.py:268-301 | packet j of emission k stands at the offset of that emission plus j, marked as a retransmission if and only if the emission is one, and nothing else is sent; the messages given up, and the whole new state |
| Sending.PacketsInOrder | h3ntun/reliability.py:290-300 | for every list of emissions every packet of each goes out in its place |
| Sending.PumpInv | h3ntun/reliability.py:268-301 | every pump keeps queue, in-flight table and window within their bounds and every attempt count within the budget |
| SenderRuns.RunConserves | h3ntun/reliability.py:244-301 | over every run: launched followed by queued is what was accepted, in order; launched is in flight, acknowledged or given up; the bounds hold |
| SenderRuns.ExactlyOnePlace | h3ntun/reliability.py:244-301 | a message accepted once is in exactly one of the four places |
| SenderRuns.SentWithinBudget | h3ntun/reliability.py:274-300 | over every run each message goes out first as an original and then at most max_retries times with the same packets, each time after the backed-off timeout |
| Timetables.SentAgainExactlyWhenDue | h3ntun/reliability.py:274-291 | over every run a pump sends an in-flight message again if and only if its last transmission has waited min(2^(n-1), 16) timeouts and its budget is not used up, with its own packets; it gives it up if and only if the last of its budget has |
| Timetables.PumpLaunches | h3ntun/reliability.py:293-300 | a pump first-sends exactly as many messages from the front of the queue as the new window has room for after the sweep |
| Timetables.SentAgainInOrder | h3ntun/reliability.py:274-300 | over every run the messages in flight are kept, and sent again, in the order of their first transmission |
| SenderRuns.BudgetClosed | h3ntun/reliability.py:277-280 | the timeouts of n attempts add up to 2^n - 1, and to 31 + 16(n - 5) beyond five |
| SenderRuns.GivenUpNoEarlier | h3ntun/reliability.py:281-287 | a message is given up only after all attempts and no earlier than the sum of their timeouts |
| SenderRuns.PumpServesAll | h3ntun/reliability.py:274-300 | a pump leaves nothing timed out, and launches until the queue is empty or the window full, never past it |
| SenderRuns.PumpWork | h3ntun/reliability.py:274-300 | with every in-flight message timed out, a pump reduces the remaining work unless there is none |
| SenderRuns.Drains | h3ntun/reliability.py:268-301 | with no new messages and pumps 16 timeouts apart, the sender is empty after (max_attempts + 1) pumps per message, whatever acknowledgements arrive |
| SenderRuns.PumpHalvesPerTimeout | h3ntun/reliability.py:277-293 | k timed-out messages leave the window at exactly max(1, cwnd / 2^k) |
| SenderRuns.GrowthLaw | h3ntun/reliability.py:262 | n accepted acknowledgements add between 2n and 3n to the square of the window, up to the cap |
| SenderRuns.AcknowledgedGrowth | h3ntun/reliability.py:257-262 | any list of acknowledgements grows the window by the ones that name an in-flight message, and by no others |
| Struct.BEAt | h3ntun/protocol.py:45-48 | byte i of a k-byte field is the one worth 256^(k-1-i) |
| Struct.ReadWritten | h3ntun/protocol.py:45-48 | a big-endian field reads back |
| Struct.WrittenRead | h3ntun/protocol.py:45-48 | a field that was read is written back byte for byte |
| Struct.UnpackPack | h3ntun/protocol.py:157-171 | unpacking a packed record gives its fields |
| Struct.PackUnpack | h3ntun/protocol.py:178-193 | packing unpacked fields gives the record |
| Codecs.DecodeEncode | h3ntun/protocol.py:119-246 | for every request that passes the guards the peer decodes exactly the described frame, or reports only clock skew |
| Codecs.EncodeDecode | h3ntun/protocol.py:175-246 | the fields of any accepted packet encode to that packet, and are well formed and in time |
| Codecs.AcceptsExactlyEncodings | h3ntun/protocol.py:119-246 | a packet is accepted as a frame if and only if it is that frame's encoding, for this tunnel and in time |
| Codecs.AckRoundTrip | h3ntun/protocol.py:248-257 | the acknowledged session and message id come through both codecs |
| Codecs.EncodeAckExactly | h3ntun/protocol.py:248-251 | an acknowledgement is encoded if and only if its kind is one of the two and its numbers fit 64 bits |
| Codecs.DecodeAckExactly | h3ntun/protocol.py:253-257 | a frame reads as the acknowledgement of a message if and only if its kind is one of the two and its payload is exactly that session and id, eight bytes each |
| Codecs.PacketSize | h3ntun/protocol.py:36-47 | every packet is its payload plus 81 bytes and at most 1472 |
| Codecs.PacketLayout | h3ntun/protocol.py:111-173 | every encoded packet byte by byte: each header field at its own offsets, the payload sealed behind them with the header as associated data, under the prefix of session, kind, flags and index and the number |
| Codecs.EncodesExactly | h3ntun/protocol.py:119-156 | a request is encoded if and only if its frame is well formed and its numbers fit 64 bits |
| Codecs.NonceEqualIff | h3ntun/protocol.py:111-117 | two nonces are equal if and only if the numbers are and the prefixes of the contexts are |
| Codecs.ContextInjective | h3ntun/protocol.py:115 | a context determines session, kind, flags and index |
| Codecs.NonceDistinct | h3ntun/protocol.py:111-117 | different sequence numbers give different nonces |
| Checksum.Fold | h3ntun/raw_udp.py:13-14 | folding ends with 16 bits, congruent to the sum modulo 65535, zero only for zero |
| Checksum.InternetChecksum | h3ntun/raw_udp.py:9-15 | the checksum complements the word sum modulo 65535, for even and odd lengths |
| Checksum.SelfVerifying | h3ntun/raw_udp.py:9-15 | any data holding its own checksum checks out, also with 0xFFFF in place of 0 |
| Checksum.BuildPacket | h3ntun/raw_udp.py:18-67 | the errors, every header field at its own byte offset, and that the IP header and the pseudo-headed UDP segment both check out, with a UDP checksum never 0 |
| Endpoints.FragmentPasses | h3ntun/agent.py:153-173 | every fragment of every message within the limit passes all encoder guards in a packet of at most 1472 bytes that carries the message |
| Endpoints.ReplyPasses | h3ntun/agent.py:259-271 | every reply passes the encoder guards under this process's session and the number drawn for it, with the kind of its direction; an acknowledgement reads back and a PONG carries the timestamp |
| Service.SendOutcome | h3ntun/agent.py:175-186 | an oversized message is an error; without reliability the packets go out at once; with it they are queued and none goes out, or the message is refused; nothing else changes |
| Service.OnlyOwnAcknowledged | h3ntun/agent.py:188-202 | a frame takes a message out of the in-flight table if and only if it is a fresh acknowledgement that names this process's session and that message |
| Service.StaleAcknowledgementIgnored | h3ntun/agent.py:188-194 | an acknowledgement for another session, or unreadable, changes nothing but the replay window |
| Service.PingAnswered | h3ntun/agent.py:431-433 | every PING that arrives in time and unseen is owed a reply whose packet decodes at the peer to a PONG with the PING's timestamp |
| Service.OthersIgnored | h3ntun/agent.py:325-332 | any other fresh control frame, in particular a PONG, changes nothing but the replay window |
| Service.ConsumedThenAcknowledged | h3ntun/agent.py:310-343 | a completion is forwarded if and only if the inner peer is known; in either case the same frame received again in time is refused and acknowledged |
| Endpoints.CompletedRemembered | h3ntun/reliability.py:188-192 | a completed key is listed with its completion time |
| Service.DeliversWhenRecoverable | h3ntun/agent.py:428-443 | a fresh data frame completes its message at exactly the arrival that makes it recoverable, and it is then delivered if and only if the inner peer is known |
| Service.AcknowledgedIsCompleted | h3ntun/agent.py:416-422 | an acknowledgement is sent only for data of a message listed as completed |
| Service.AcknowledgementEndsRetransmission | h3ntun/agent.py:188-202 | an acknowledgement that arrives takes exactly its message out of the in-flight table |
| Agents.Agent.NextSequence | h3ntun/agent.py:78-81 | the next number, one above the last |
| Agents.Agent.BuildDataPackets | h3ntun/agent.py:153-173 | one message id; one number per fragment in order, with any number of draws by other threads in front of each; each fragment encoded once |
| Agents.Agent.Dispatch | h3ntun/agent.py:179-186 | the packets are queued, or sent at once when reliability is off |
| Agents.Agent.Send | h3ntun/agent.py:175-186 | learning the inner peer, building and dispatching in a row, with other threads' draws in between |
| Agents.Agent.OnPacket | h3ntun/agent.py:403-445 | the receive loop's reaction and new state for any packet, and its reply under a number drawn when it is sent, after any draws by other threads |
| Agents.Agent.Process | h3ntun/agent.py:293-345 | replay check, acknowledgement, control and data handling in the source's order |
| Agents.Agent.Pulse | h3ntun/agent.py:135-151 | the pump's packets and the timeout, nothing when reliability is off |
| Agents.Agent.KeepAlive | h3ntun/agent.py:347-352 | one PING frame under the number drawn for it |
| Processes.NoncesDistinct | h3ntun/agent.py:78-81 | in every run of a process whose threads draw and encode in any interleaving no two frames are sealed under one nonce |
| Processes.CallsEncodeTheirMessage | h3ntun/agent.py:160-172 | in every such run a call that has encoded a message has made its frames in order, under increasing numbers that no other call has used |
| Processes.SealedOutOfOrder | h3ntun/agent.py:160-172 | the later of two numbers can be sealed first |
| Tunnel.DrawnFresh | h3ntun/agent.py:78-86 | numbers and message ids drawn from the counters have not been used in the session |
| Tunnel.NodeStepKeeps | h3ntun/agent.py:132-445 | every step of one side keeps its own books, its counters and its books about the other side |
| Tunnel.DecodeKnown | h3ntun/protocol.py:175-246 | what arrives decodes to a frame the other side built, or not at all |
| Tunnel.AccountStep | h3ntun/reliability.py:150-193 | each accepted frame pays for what it adds: completions times count plus held fragments never exceed accepted frames |
| Tunnel.RebootKeeps | h3ntun/protocol.py:385-406 | a restart from any checkpoint of the replay window, or from none, keeps the books |
| Tunnel.CompletedOnce | h3ntun/reliability.py:150-193 | no message has enough frames to be completed twice in one receiver lifetime |
| Tunnel.DeliveredAtMostOnce | h3ntun/agent.py:153-445 | in every run each message reaches the other application at most once per receiver lifetime, with exactly the submitted bytes |
| Tunnel.AcknowledgedMeansFinished | h3ntun/agent.py:188-202 | in every run, whatever message a received frame takes out of a side's in-flight table, the other side's reassembler has completed exactly that session and id |
| Tunnel.AcknowledgedForwardedIff | h3ntun/agent.py:310-343 | in every run an acknowledged message has been forwarded if and only if it once completed with the inner peer known; what the Iran side counts as acknowledged always has |
| Wires.InFlightOnWire | h3ntun/reliability.py:268-300 | in every run all packets of every message in flight, one for each fragment of what was submitted under its id, are on the wire |
| Wires.InFlightRecoverable | h3ntun/agent.py:153-186 | so for each fragment of a message in flight the wire holds a packet that the other side decodes, whenever in time, to that fragment |
| Wires.UnreliableSentAtOnce | h3ntun/agent.py:184-186 | in every run of a side without reliability every packet it has built is on the wire |
| Tunnel.ForwardedIff | h3ntun/agent.py:333-343 | in every run finished but not forwarded is exactly what only ever completed without a known inner peer, and nothing on the Foreign side |
| Consumption.AcknowledgedNeverForwarded | h3ntun/agent.py:333-343 | a run from the default configuration in which a message is acknowledged and never forwarded |
| Tunnel.ArrivalNeverFaults | h3ntun/reliability.py:150-193 | in every run no packet of the other side makes reassembly raise an error |

## Left out

- Sockets, host lookup, source address checks and operating-system errors on send: a packet that could not be sent is one the network lost.
- Key derivation, BLAKE2s and ChaCha20-Poly1305: `Suite` is any deterministic seal/open pair in which opening accepts exactly what sealing made, with any 4-byte prefix hash.
- Forged packets: the wire holds only packets that one of the two agents sealed under the shared key. The tunnel has no third party; a packet that authentication refuses changes nothing in the model.
- JSON, temporary files, permissions and the tunnel fingerprint of the checkpoint file: a write is one replacement of the file, which a later failure may leave in place and a crash may undo.
- The writer's waiting on its condition variable: `Poll` may happen at any time. The join timeout of `close` is not modelled; a writer that has not returned makes close answer False.
- Floating-point rounding: times and the congestion window are reals, and the ceiling of the fragment count is integer ceiling.
- The order of XOR over held fragments follows their index, not their arrival; XOR does not depend on the order.
- The creation time of an assembly and the list order of retired sessions, which nothing reads.
- Session ids are drawn at random in the source; the tunnel takes them to be distinct between the processes of one side.
- BuildDataPackets: requires counters below 2^64 and 64-bit timestamps, the widths of the header fields; `Send`, `OnPacket` and `KeepAlive` require the same. Encoding beyond them is the error `OutOfRange` of `Codecs.Encode`.
- Send: between building and queueing the pump and the receive loop may run; they do so as calls of their own when `LearnInner`, `BuildDataPackets` and `Dispatch` are called one by one, and as events of their own in the tunnel.
- DeliversWhenRecoverable: one arrival at a time, for an entry that the purge spares; `GenuineAdd` treats any eviction.
- AcknowledgedForwardedIff: forwarded means handed to the inner socket; an operating-system error there, after which the source neither acknowledges at once nor hands over again, is not modelled.
- The random packet id and the parsing of IPv4 addresses in `BuildPacket` are parameters.
- Eventual delivery is not claimed: retransmissions repeat the same sequence numbers, so an evicted or timed-out assembly may never complete, and a message may be lost at a restart of either process.
- `send_pump_result`, a helper of the sender that neither agent calls.
- Metrics, health server, configuration, command line and scripts: counters, text and input checks.
