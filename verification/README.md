# A verified model of the streaming host

This project models, in Dafny, the parts of the Sunshine/Solari host where data is transformed or shared state
changes hands, and proves what those parts promise. `dafny verify dfyconfig.toml` checks all of it. Paths below are
relative to the repository's root.

| file | models |
|---|---|
| `Interleave.dfy` | `concat_and_insert`: the frame buffer with gaps for packet headers |
| `FecPlan.dfy` | how a frame is split into one to four FEC blocks |
| `ShardPlan.dfy` | how many parity shards a block gets, and what the packet headers say about it |
| `FecEncode.dfy` | `fec::encode`: shards that point into the frame or into an extra buffer, and the batch descriptors |
| `VideoFrame.dfy` | a whole frame: build, split, encode, stamp, send, and what the client puts back together |
| `Pacing.dfy` | batches, the rate control over the frames of all sessions, packet numbers |
| `Ivs.dfy` | the AES-GCM initialisation vectors under one launch session's key, over all streams announced with it |
| `TaskPool.dfy` | the task queue and the timer vector |
| `ThreadPool.dfy` | the workers, their condition variable, `push`, `stop` and `join`, as a state machine |
| `InputBatch.dfy` | which input messages merge, and what a drain of the queue drops |
| `InputOrder.dfy` | what a drain may not overtake, and the one case in which it does |
| `InputRuns.dfy` | the input queue over whole runs of packets and drains |
| `Keyboard.dfy` | pressed keys, repeats, synthetic modifiers, reset |
| `KeyboardEffects.dfy` | what one key packet, and a run of them, does to the host's keys and modifiers |
| `GamepadSlots.dfy` | the sixteen gamepad slots, over sessions that are kept, resumed and destroyed |
| `GamepadPackets.dfy` | which controller gets or loses which slot, by packets and by the sessions' ends |
| `ConfigText.dfy` | the configuration parser, the printer that saves settings, and when one undoes the other |
| `ConfigLayouts.dfy` | files written by hand, and which settings a saved object leaves in the file |
| `Pairing.dfy` | the four pairing phases over a map of sessions, as a state machine over requests |
| `PairServer.dfy` | the same handlers on session objects in a map |
| `AppProcess.dfy` | launching applications and undoing their preparation commands |
| `AppLaunches.dfy` | which application an identifier means, when its launch succeeds, when it counts as running |
| `EnvExpand.dfy` | `$(NAME)` and `$$` in environment values |
| `Arith.dfy`, `Slices.dfy`, `Wrappers.dfy` | helpers: products and ceilings, sequence slices, `Option` |

Code that changes state step by step is modelled by classes and array methods with the source's loops; each is proved
against a function on values, and the properties are proved about those functions over all inputs or all runs.
Platform answers (spawned processes, gamepad allocation, clock readings, random bytes) are parameters, so every
property holds whatever they are. Reed-Solomon parity and cryptography are unknown functions; where a property needs
a fact about them (a cipher can be decrypted, a signature verifies) it is a precondition of that property alone.

Where the code does not keep a promise on all inputs, the exact condition is proved, with an input that shows it:

- A client that asks for four or more parity shards can get more than 255 shards in a block
  (`ShardPlan.ShardLimit`, `ShardPlan.ShardLimitBroken`).
- The percentage advertised after it was raised to meet the client's minimum does not always give the parity count
  back (`ShardPlan.AdvertisedParity`, `ShardPlan.AdvertisedParityWrong`), and can exceed its eight bits
  (`ShardPlan.PlannedFieldsFit`, `ShardPlan.AdvertisedPercentageOverflows`).
- A frame too large for FEC is still sent in four blocks; the ten-bit index and count of their shards are right
  exactly while the aligned block size is below 1024 packets (`VideoFrame.LargeFrameFieldsFit`,
  `VideoFrame.OversizedFrame`).
- The last payload length is a 16-bit field, so a frame is recovered exactly when that length fits
  (`VideoFrame.SendFrame`, `VideoFrame.LongPacketLost`).
- Relative mouse moves and scrolls are merged only when the sum overflows, against the comment beside the guard; the
  model follows the code, which loses multiples of 2^16 (`InputBatch.RelativeMergeLosesMotion`).
- A touch move on one controller is merged past another controller's finger going down or up. A queued state change
  and what follows it stay put exactly when no such merge takes a message from behind it (`InputOrder.BehindKeptIff`,
  `InputOrder.ChangeOvertaken`).
- Delaying a timer to a time before the entry that follows it leaves the vector out of order
  (`TaskPool.DelayKeepsOrder`, `TaskPool.DelayEarlierBreaksOrder`).
- Queueing a timer without a notification can leave every worker asleep past it. It is safe in every reachable state
  with these timers exactly when one of them is due no later (`ThreadPool.PushWithoutNotify`,
  `ThreadPool.UnnoticedTimerIsLate`).
- Two keys bound to one platform code: releasing either lets go of the code while the other is still held
  (`Keyboard.SharedCodeIsLost`). The same happens to a key bound to a code that synthetic modifiers use
  (`Keyboard.RawCodeIsLost`). `Keyboard.ExactIffDistinct` has the exact condition on the bindings.
- Every ANNOUNCE starts a stream that counts its video and control messages from zero under the launch session's key,
  so initialisation vectors repeat within all limits once two streams of it send on one channel. None repeats exactly
  as long as one stream sends on each and no counter wraps (`Ivs.IvUniqueness`, `Ivs.SecondStreamRepeats`).
- The PIN typed by the user goes to the session at the start of the map, whichever client it is for, and a session
  left from an earlier attempt is kept with its phase. A client that types the right PIN is paired exactly when no
  earlier attempt has left it a session with a PIN, and its session is at the start of the map or the PIN was read at
  the host's terminal while its request waited (`Pairing.HonestClientPairs`, `Pairing.PinGoesAstray`,
  `Pairing.RetryTurnedAway`).
- A list in the configuration whose bracket is never closed is accepted up to the end of the file, unless '[' is the
  file's last character; the comment in the parser says otherwise (`ConfigText.UnclosedValue`,
  `ConfigText.UnclosedListRead`, `ConfigText.UnclosedListExample`, `ConfigText.UnclosedBracketExample`).

## Model

| member | source | states |
|---|---|---|
| Interleave.ConcatAndInsert | src/stream.cpp:895-931 | the buffer built across two inputs is their concatenation with a gap of zeros before each slice, for every split between the two |
| Interleave.StripUndoesInterleave | src/stream.cpp:895-931 | dropping the gaps gives the data back, for every gap, slice size and content |
| Interleave.InterleavedLength | src/stream.cpp:895-902 | the buffer has one gap per started slice, the size the code reserves |
| Interleave.StrippedAppend | src/stream.cpp:1585-1601 | cutting the buffer at whole packets and dropping the gaps of the parts loses nothing |
| Interleave.StripPadded | src/stream.cpp:841-855 | zero padding of the last packet appears only behind the data |
| FecPlan.ComputePlan | src/stream.cpp:1553-1583 | the block count, the percentage left in force and the aligned size, by the code's divisions |
| FecPlan.PlanCapacity | src/stream.cpp:1563-1575 | one to four blocks, no more than needed; FEC is off exactly when four full blocks cannot hold the frame |
| FecPlan.CapacityIsLargest | src/stream.cpp:1553-1566 | a block's capacity is the largest number of packets n with n * (100 + percentage) <= 25500, times the block size |
| FecPlan.CutsInside | src/stream.cpp:1582-1583 | all cut points lie strictly inside the frame and are multiples of the block size |
| FecPlan.SplitBlocks | src/stream.cpp:1546-1602 | the blocks, concatenated in order, are the frame |
| FecPlan.BlockShardsBound | src/stream.cpp:1553-1602 | with FEC on, every block, the last included, has at most 25500/(100+f) data shards |
| FecPlan.AlignedFits | src/stream.cpp:1563-1583 | with FEC on, neither the aligned size nor what is left for the last block exceeds a block's capacity |
| ShardPlan.ParityFits | src/stream.cpp:810-814 | parity at the configured percentage always fits into 255 shards beside a planned block's data |
| ShardPlan.ParityIsShare | src/stream.cpp:814-819 | the parity is the percentage's share of the data shards rounded up, or the client's minimum when that is more and FEC is on |
| ShardPlan.ShardLimit | src/stream.cpp:810-824 | data and parity stay within 255 if and only if data and the client's minimum do |
| ShardPlan.ShardLimitForAllBlocks | src/stream.cpp:810-824 | the limit holds for all blocks at a percentage iff it holds for the largest, and always for a minimum up to 3 |
| ShardPlan.ShardLimitBroken | src/stream.cpp:810-824 | at one percent and a minimum of four a block of 252 data shards gets 256 shards |
| ShardPlan.NoParityWhenOff | src/stream.cpp:810-824 | with FEC off there is no parity, whatever the minimum |
| ShardPlan.RaisedIsNonZero | src/stream.cpp:817-819 | a percentage raised to meet the minimum never truncates to zero, so the parity is generated |
| ShardPlan.AdvertisedParity | src/stream.cpp:814-819 | the client's recomputed parity count is right if and only if the percentage was not raised or the division lost less than 100 |
| ShardPlan.AdvertisedParityFaithful | src/stream.cpp:814-819 | it is right for up to 100 data shards, and for any minimum up to 2 |
| ShardPlan.AdvertisedParityWrong | src/stream.cpp:814-819 | 180 data shards at one percent and a minimum of 3: the client computes 2 |
| ShardPlan.FecInfoRoundTrip | src/stream.cpp:1682-1685 | index, data count and percentage come back from the 32-bit word iff each fits its field |
| ShardPlan.FecInfoSpelled | src/stream.cpp:1682-1685 | index at bit 12, data count at bit 22, percentage at bit 4 |
| ShardPlan.PlannedFieldsFit | src/stream.cpp:1682-1685 | the fields of a planned block's last shard fit iff, with FEC on, a raised percentage stays below 256 and index and count in ten bits, and, with FEC off, the block has fewer than 1024 shards |
| ShardPlan.AdvertisedPercentageOverflows | src/stream.cpp:1682-1685 | one data shard and a minimum of 3 advertise 300 percent, which reads back as 44 |
| FecEncode.Encode | src/stream.cpp:807-883 | every shard pointer leads to the bytes of its data shard, zero-padded at the end, or to its parity shard |
| FecEncode.ReedSolomonEncode | src/stream.cpp:861-869 | parity is written to the parity shards alone; the data shards, the padded one included, stay |
| FecEncode.BatchedIsPerShard | src/platform/common.h:1018-1030 | block x of the concatenated payload buffers is the memory `shards_p[x]` points to, and is large enough, for every x |
| FecEncode.ShardsSendable | src/stream.cpp:826-883 | so a batched send reads the same bytes as sending shard by shard, padded or not, with parity or without |
| FecEncode.ShardsReadable | src/stream.cpp:826-883 | what is read there is the shard's content |
| VideoFrame.StampPackets | src/stream.cpp:1627-1649 | the first pass makes the block in the buffer, which is then encoded, the stamped block |
| VideoFrame.StampedHeader | src/stream.cpp:1627-1649 | in which every packet starts with its own header |
| VideoFrame.StampedPayload | src/stream.cpp:1627-1649 | and nothing of the payload has changed |
| VideoFrame.StampAndSend | src/stream.cpp:1678-1692 | shard x goes out with its own content behind the header that the second pass makes, for shard x, of the one it finds; later shards and later blocks are untouched |
| VideoFrame.EncodeAndSend | src/stream.cpp:1654-1712 | a block's datagrams are its data shards, then its parity, in number as planned, each under its own header |
| VideoFrame.SendBlock | src/stream.cpp:1625-1712 | the payload in a block's data shards is that of the block's bytes; its datagrams are made of the stamped block |
| VideoFrame.ShippedHeaders | src/stream.cpp:1627-1690 | so the header of every data shard is the second pass's for that shard, made of the first pass's for that packet |
| VideoFrame.SendBlocks | src/stream.cpp:1585-1712 | all blocks together carry the payload of the whole buffer, in order |
| VideoFrame.CutLast | src/stream.cpp:1526-1529 | cutting by the header's last payload length, truncated and tested for zero as the field is, removes exactly the padding, iff that length is below 2^16 |
| VideoFrame.FrameHeaderSpelled | src/stream.cpp:95-124 | the eight bytes of the frame header |
| VideoFrame.FieldHoldsLength | src/stream.cpp:1526-1529 | the 16-bit field is the length of the last packet's payload iff that length fits, the zero test coming after the truncation |
| VideoFrame.LongPacketLost | src/stream.cpp:1526-1529 | 65528 bytes in packets of 65537: the field says 1 where the length is 65536, and the client does not get the frame |
| VideoFrame.ClientRecovers | src/stream.cpp:1526-1549 | what the data shards carry is frame header and payload |
| VideoFrame.SendFrame | src/stream.cpp:1504-1712 | end to end, for every payload and packet size: the client gets frame header and payload back if and only if the last payload length fits 16 bits; every block was sent as planned, from its part of the frame, and every shard under its own header |
| VideoFrame.SentWithinShardLimit | src/stream.cpp:1553-1602 | a block that was sent has at most 255 datagrams iff its data and the minimum fit, always for a minimum up to 3 |
| VideoFrame.LargeFrameFieldsFit | src/stream.cpp:1571-1589 | for every frame for which FEC is switched off, the shard fields of all its blocks fit if and only if the aligned size is below 1024 packets |
| VideoFrame.OversizedFrame | src/stream.cpp:1571-1589 | a frame of 4096 packets, whose first block's shard count reads back as zero |
| Pacing.RateInBits | src/stream.cpp:1606 | the rate is the largest whole number of packets per millisecond with at most 800000 bits, 80% of 1 Gbit/s |
| Pacing.BatchInBytes | src/stream.cpp:1611-1615 | a batch is the largest with at most 64 packets and 65536 bytes |
| Pacing.RatePositive | src/stream.cpp:1606 | the rate is positive iff the block size is at most 100000 |
| Pacing.DueExact | src/stream.cpp:1719-1721 | due times are the exact ones rounded down to a nanosecond, neither early by a whole one nor late |
| Pacing.VideoSender.Gate | src/stream.cpp:1719-1730 | after the gate the packets outside the current group are covered by the time since the frame began, and it asked for no sleep beyond the time they are due |
| Pacing.VideoSender.SendShards | src/stream.cpp:1715-1761 | the batches tile the block's shards in order, all but the last of max(1, batch size) packets and none larger, all recorded in time order |
| Pacing.VideoSender.SendBlock | src/stream.cpp:1715-1778 | and the session's next number follows the last packet sent |
| Pacing.VideoSender.SendFrame | src/stream.cpp:1502-1781 | the same over a frame, which starts no earlier than the previous frame's budget allows, whatever its session, and is numbered from where its own session stopped |
| Pacing.FramesBound | src/stream.cpp:1618-1619 | between any two frame starts at most rate packets per millisecond have gone, up to one nanosecond's share per frame |
| Pacing.RateBound | src/stream.cpp:1604-1767 | from any frame start to any later time t: at most rate times elapsed, one nanosecond for each frame begun by t, and one burst |
| Pacing.RateKeptInBits | src/stream.cpp:1604-1615 | from packets to bits, whatever the block size |
| Pacing.Broadcast | src/stream.cpp:1490-1783 | whole runs over any frames of any sessions of one packet size and any clock keep this bound on all packets together; in bits: at most 0.8 per nanosecond since any frame start, a nanosecond per frame begun since, and 1324288 of a burst; each session's packets are numbered without a gap, as many as its frames have |
| Pacing.RtpConsecutive | src/stream.cpp:1688 | a session's sequence numbers are consecutive modulo 2^16 across batches, blocks and frames, whatever other sessions send in between (RFC 3550 section 5.1) |
| Ivs.IvSpelled | src/stream.cpp:565-579 | twelve bytes: the counter's 8 or 4 with the lowest first, zeros, and the letters 'V', 'HC' or 'HR' |
| Ivs.LittleEndianInjective | src/stream.cpp:574-576 | counters below the width's limit have different bytes |
| Ivs.IvInjective | src/stream.cpp:563-579 | vectors of different channels or counters differ (NIST SP 800-38D section 8.2.1) |
| Ivs.IvUniqueness | src/stream.cpp:2259-2288 | over any interleaving of announced streams and messages, no vector repeats under the launch session's key if and only if at most one stream has sent on each of video and control, and no counter exceeds its range |
| Ivs.SecondStreamRepeats | src/stream.cpp:2272-2288 | two streams announced, one packet each, within all limits: the same vector twice |
| Ivs.SessionIvs.Announce | src/rtsp.cpp:1301 | a new stream gets its own counters, at zero; the others and RTSP's go on |
| Ivs.SessionIvs.NextVideoIv | src/stream.cpp:1704-1706 | the reused video vector holds the next counter and its fixed field, and the 64-bit counter wraps |
| Ivs.SessionIvs.NextControlIv | src/stream.cpp:565-579 | likewise the control stream's, with a 32-bit counter taken before the increment |
| Ivs.SessionIvs.NextRtspIv | src/rtsp.cpp:832-836 | likewise RTSP's, with a counter incremented before use |
| TaskPool.InsertKeepsOrder | src/task_pool.h:168-179 | inserting a timer keeps the vector in non-increasing time order |
| TaskPool.DelayKeepsOrder | src/task_pool.h:223-251 | delaying keeps the order if and only if the new time is not before the entry that follows |
| TaskPool.DelayEarlierBreaksOrder | src/task_pool.h:223-251 | two timers for which it does not |
| TaskPool.DelayKeepsTasks | src/task_pool.h:223-251 | delaying loses and invents no timer |
| TaskPool.CancelFinds | src/task_pool.h:259-274 | cancel reports success exactly when the timer is pending |
| TaskPool.PopIffReady | src/task_pool.h:301-331 | pop returns a task exactly when ready() says so |
| TaskPool.PopEarliest | src/task_pool.h:301-319 | tasks in their order first, then a timer that is due and earlier than all others |
| TaskPool.RunInvariant | src/task_pool.h:143-343 | over any operations pushed = run + cancelled + pending, as multisets, and the order holds |
| TaskPool.TaskPool.PushDelayed | src/task_pool.h:168-179 | the insertion loop does what the queue model says, on the vector in place |
| TaskPool.TaskPool.Delay | src/task_pool.h:223-251 | likewise the search and the swaps of delay |
| TaskPool.TaskPool.Cancel | src/task_pool.h:259-274 | likewise the search and removal |
| TaskPool.TaskPool.Pop | src/task_pool.h:301-319 | likewise pop |
| ThreadPool.StepKeeps | src/thread_pool.h:153-181 | every step of any thread keeps the invariant: waiting workers imply no immediate task, deadlines cover all timers, one holder of the lock |
| ThreadPool.NoLostWakeup | src/thread_pool.h:68-103 | for any number of workers, in every run: while running, a queued task implies an unblocked worker, and no worker sleeps past the earliest timer |
| ThreadPool.PushWithoutNotify | src/thread_pool.h:81-85 | over all reachable states with a given timer vector, queueing another timer without notifying leaves no worker asleep past it, if and only if some pending timer is due no later |
| ThreadPool.UnnoticedTimerIsLate | src/thread_pool.h:81-85 | a reachable state with one worker asleep without a deadline, which stays so after the push |
| ThreadPool.QueuedCanStep | src/thread_pool.h:153-181 | while running with an immediate task queued, some worker can move |
| ThreadPool.QueuedProgress | src/thread_pool.h:153-181 | and each such step takes the front task or lowers a rank, so the task is taken |
| ThreadPool.ReadyCanStep | src/thread_pool.h:153-181 | while running with a task queued or a timer due, some worker can move, by a step or because its wait is over |
| ThreadPool.ReadyProgress | src/thread_pool.h:153-181 | and each such move takes the front task or, without one, the task of an earliest due timer, or lowers a rank and leaves the queues alone: due timers are run |
| ThreadPool.DrainTakes | src/thread_pool.h:176-179 | after stop a draining worker takes what is ready, timers included, and ends only when nothing is |
| ThreadPool.RunAccounted | src/thread_pool.h:153-181 | every task taken off the queues is being run or has completed, once |
| ThreadPool.JoinedMeansRun | src/thread_pool.h:123-137 | when join returns, every immediate task pushed before stop has run to its end |
| ThreadPool.StoppedCanStep | src/thread_pool.h:123-181 | after stop, some worker can always move until all have ended |
| ThreadPool.StoppedProgress | src/thread_pool.h:123-181 | and each such step brings the end closer, so join returns |
| InputBatch.BatchFacts | src/input.cpp:1614-1877 | messages merge only within a kind and a key, and what replaces a message says all it said |
| InputBatch.MergesIff | src/input.cpp:1638-1877 | messages with a key merge if and only if the second directly supersedes the first, and are passed if and only if they are of one kind and of different keys, with no change of controllers or of the pointer's state |
| InputBatch.ScrollsMergeIff | src/input.cpp:1655-1686 | scrolls merge if and only if the sum overflows 16 bits |
| InputBatch.LatestWins | src/input.cpp:1638-1877 | of two reports that differ only in what they report the second replaces the first, for every kind |
| InputBatch.ScanKeepsKey | src/input.cpp:1898-1919 | for each device or pointer, a drain drops only messages directly superseded by a later one with the same mode, buttons or event |
| InputOrder.ScanStretch | src/input.cpp:1898-1919 | a drain looks at a stretch of messages of the first one's kind; from its end on the queue is untouched |
| InputOrder.DrainTakesAll | src/input.cpp:1898-1919 | a drain takes every message of the key up to the first message that ends the search, sends the last of them, and leaves all others |
| InputOrder.BehindKeptIff | src/input.cpp:1786-1815 | a queued state change or unmergeable message and all that follows it stay in the queue, as they were, if and only if the drain is not one from a touch move that takes a report of its touchpad from behind it |
| InputOrder.ChangeOvertaken | src/input.cpp:1786-1815 | three messages from two controllers for which it is |
| InputOrder.ScanKeepsView | src/input.cpp:1898-1919 | a drain keeps each key's messages on their side of every state change of that key, every message of another kind and, for a controller, every report with another set of active controllers; only directly superseded ones go |
| InputOrder.ScanKeepsCourse | src/input.cpp:1614-1686 | relative moves and scrolls: the motion of each stretch between other messages is kept modulo 2^16, and so are these messages, in order |
| InputBatch.ThinnedAnswers | src/input.cpp:1694-1839 | every message is followed by a kept one that says the same again, and each key's last message is kept |
| InputBatch.RelativeMergeLosesMotion | src/input.cpp:1614-1630 | relative moves merge exactly when both sums overflow, and the merged move is off by 65536 on both axes |
| InputBatch.RelativeMergeExample | src/input.cpp:1614-1630 | large moves merge into the opposite direction, small ones stay apart |
| InputBatch.ScanKeepsMotion | src/input.cpp:1614-1686 | so displacement and scrolling are kept modulo 2^16 on every axis |
| InputRuns.ScanKeepsMeaning | src/input.cpp:1883-1922 | one drain keeps, for every key and axis, all of this at once |
| InputRuns.RunInv | src/input.cpp:1883-1987 | in every run pending and unposted drain tasks are at least as many as queued messages, and what was sent plus what waits means what was queued |
| InputRuns.DrainedMeansDelivered | src/input.cpp:1883-1987 | once all drains have run, the host has seen the original sequence: for each key thinned of superseded messages only, between the same walls, and with the same motion in each stretch |
| InputRuns.InputQueue.PassthroughNextMessage | src/input.cpp:1883-1922 | the loop that erases from the queue while it scans does this |
| InputRuns.InputQueue.PushBack | src/input.cpp:1981-1985 | a message goes to the end of the queue |
| Keyboard.KpidRoundTrip | src/input.cpp:123-145 | key code and flags come back from the packed identifier, so entries are distinct |
| Keyboard.PressIsWrapped | src/input.cpp:1027-1055 | a press arrives with all synthetic modifiers down and leaves none of them down; a release only releases |
| KeyboardEffects.PressSpelled | src/input.cpp:1027-1055 | the platform calls of one press, with their codes |
| KeyboardEffects.BoundCode | src/input.cpp:948-955 | an unbound key is sent as it is, a bound one as its binding, truncated to 16 bits |
| KeyboardEffects.PressArrives | src/input.cpp:1082-1147 | a new press reaches the host under its code, between exactly the modifiers that the packet asks for and the stream does not hold, and from then on only this key repeats |
| KeyboardEffects.ReleaseArrives | src/input.cpp:1082-1147 | a release of a pressed key lets go of its code and of nothing else |
| KeyboardEffects.RestIgnored | src/input.cpp:1116-1141 | packets that repeat what the table says, and shortcuts, change nothing at the host |
| KeyboardEffects.TimerRepeats | src/input.cpp:1064-1074 | a timer presses the key again with the same modifiers and re-arms, as long as the key is pressed |
| KeyboardEffects.ModsTracked | src/input.cpp:964-995 | over runs: a stream holds a modifier if and only if its last packet that changed a key bound to one of the modifier's codes pressed it |
| KeyboardEffects.AltsTracked | src/input.cpp:1090-1094 | likewise the two Alt keys, by every packet for them |
| Keyboard.RunInv | src/input.cpp:1027-1147 | no stuck key: for any bindings and any events, the held codes are among those of pressed entries, and at most one repeat timer is pending or running |
| Keyboard.ResetReleasesAll | src/input.cpp:2004-2014 | after a reset nothing is held, and late timers and cancels bring nothing back |
| Keyboard.ExactIffDistinct | src/input.cpp:948-955 | held codes are exactly those of pressed entries in every run over a set of keys, if and only if the bindings keep the keys apart and, unless they are all modifiers, off the codes that synthetic modifiers use |
| Keyboard.SharedCodeIsLost | src/input.cpp:948-955 | two keys on one code, and three packets after which one is pressed but not held |
| Keyboard.RawCodeIsLost | src/input.cpp:1027-1055 | a key on a modifier's code, and a press with that modifier synthesized, after which the key is pressed but not held |
| Keyboard.RunExact | src/input.cpp:1027-1147 | the exactness state by state, timers and resets included |
| Keyboard.KeyboardInput.Receive | src/input.cpp:1082-1147 | the packet handler, with its early returns, changes table, timer, host and modifiers by the model |
| Keyboard.KeyboardInput.SendKeyAndModifiers | src/input.cpp:1027-1055 | the platform calls in their order |
| Keyboard.KeyboardInput.RepeatKey | src/input.cpp:1064-1074 | a timer re-presses and re-arms only while the entry is pressed |
| Keyboard.KeyboardInput.ResetKeyboardKeys | src/input.cpp:2004-2014 | the loop over the table, in any order, releases what the model says, by releases only |
| GamepadSlots.LowestFreeSpec | src/input.cpp:89-98 | the slot found is free and the lowest, and none is found exactly when all are taken |
| GamepadSlots.AllocSucceedsIff | src/input.cpp:1217-1241 | a controller gets a slot iff the platform agrees and some slot is neither live nor waiting to be freed |
| GamepadSlots.AllocKeeps | src/input.cpp:1217-1241 | allocation, failed allocation included, keeps each slot with one owner |
| GamepadSlots.CollectKeeps | src/input.cpp:198-207 | destructors that queue their slots to be freed keep the mask the disjoint union of owned and waiting slots |
| GamepadSlots.RunFreeKeeps | src/input.cpp:180-185 | a queued free clears a bit that is set and owned by nobody |
| GamepadSlots.DestroyAllClears | src/input.cpp:343-368 | destroying inputs takes every slot from them and none from others |
| GamepadSlots.ReleaseToClears | src/input.cpp:376-391 | on resuming, exactly the controllers the platform will not rebind lose their slots |
| GamepadSlots.StepKeeps | src/input.cpp:2069-2182 | connecting, resuming, packets, task runs, both terminations, destructors, pool stop and shutdown all keep the invariant |
| GamepadSlots.SlotsOwnedOnce | src/input.cpp:89-109 | in every reachable state a slot is marked iff one live controller owns it or one queued task will free it, never both or two, and nothing was freed twice |
| GamepadSlots.NothingLeaks | src/input.cpp:198-207 | once all inputs are gone and the queue has run, all slots are free |
| GamepadSlots.Gamepads.AllocId | src/input.cpp:89-98 | the loop over the mask |
| GamepadSlots.Gamepads.AllocGamepad | src/input.cpp:1217-1241 | allocation for a controller, with the returned slot |
| GamepadSlots.Gamepads.DestroyGamepads | src/input.cpp:343-356 | the loop over an input's controllers |
| GamepadSlots.Gamepads.RebindGamepads | src/input.cpp:376-391 | the loop that rebinds them |
| GamepadSlots.Gamepads.HandlePacket | src/input.cpp:1492-1516 | arrival, first use and removal of a controller |
| GamepadPackets.PluggedGetsLowest | src/input.cpp:1217-1241 | an arrival or a first active update gives the controller the lowest free slot, if and only if the platform agrees and one is free, and changes nothing else |
| GamepadPackets.UnpluggedGivesUp | src/input.cpp:1511-1516 | an update without the controller's bit takes its slot away, clears that slot's bit, and changes nothing else |
| GamepadPackets.OutOfRangeIgnored | src/input.cpp:1497-1501 | packets for controllers that do not exist change nothing |
| GamepadPackets.LiveMeansLastSaidSo | src/input.cpp:1492-1516 | over runs: a controller is live only if its last handled packet announced it or had its bit set |
| GamepadPackets.DroppedInputsEnd | src/input.cpp:2069-2101 | whenever a session's input is dropped, its controllers have no slots or a queued task will take them |
| GamepadPackets.DestroyTaskEnds | src/input.cpp:343-368 | which it does when it runs |
| GamepadPackets.TerminateAllDrops | src/input.cpp:2069-2082 | terminating all drops every kept input |
| GamepadPackets.TerminateDrops | src/input.cpp:2084-2101 | terminating one session drops its input and no other |
| GamepadPackets.ResumeRebinds | src/input.cpp:2154-2177 | a resumed session gets its kept input, whose controllers are rebound at once or by a task |
| GamepadPackets.RebindTaskRebinds | src/input.cpp:376-391 | after which exactly the controllers the platform refuses have no slot |
| GamepadPackets.NewSessionKept | src/input.cpp:2154-2177 | a new session gets a new input without slots, and it is kept |
| GamepadSlots.Gamepads.Connect | src/input.cpp:2154-2177 | a session's input is kept and resumed, or created |
| GamepadSlots.Gamepads.TerminateAll | src/input.cpp:2069-2082 | all kept inputs are taken out and destroyed, on the task thread if it runs |
| GamepadSlots.Gamepads.Terminate | src/input.cpp:2084-2101 | one session's |
| GamepadSlots.Gamepads.Collect | src/input.cpp:198-207 | the destructors of an input's controllers |
| GamepadSlots.Gamepads.RunTask | src/input.cpp:327-334 | the task thread takes the first task and runs it |
| ConfigText.ToString | src/config.cpp:927-940 | the loop drops every comment up to its line's end and nothing else |
| ConfigText.SkipList | src/config.cpp:950-964 | the loop stops where the list's bracket closes |
| ConfigText.SkipMeansBalanced | src/config.cpp:950-964 | which is the shortest part that brings the bracket depth to zero |
| ConfigText.ParseConfig | src/config.cpp:1017-1040 | ends on every input, since the cursor always moves on, and keeps the first entry for a key |
| ConfigText.ParsedLegal | src/config.cpp:976-1012 | every key and value it returns has the shape of a legal key and holds no '#' |
| ConfigText.SaveConfig | src/confighttp.cpp:1457-1466 | one line per setting, nulls and empty strings left out |
| ConfigText.LegalLine | src/config.cpp:976-1012 | a printed legal line is read back and the cursor ends at its line end |
| ConfigLayouts.LineRead | src/config.cpp:976-1012 | a line with any indentation, any blanks or none around '=', and a comment gives its key and value |
| ConfigLayouts.HandWritten | src/config.cpp:1017-1040 | a file of such lines, ended by line feeds or by carriage return and line feed, is read as its settings, the first for a key counting |
| ConfigLayouts.LoneReturnSkips | src/config.cpp:1026-1029 | behind a carriage return parsing goes on two characters further, whatever the second is |
| ConfigLayouts.LoneReturnExample | src/config.cpp:1026-1029 | a file with a carriage return alone between two settings, whose second setting is lost |
| ConfigText.IllegalLine | src/config.cpp:976-1012 | under a legal key any other value without '#' is read as a different one |
| ConfigText.ListReadIff | src/config.cpp:994-1006 | a printed list is read back iff its bracket closes with its last character |
| ConfigText.UnclosedValue | src/config.cpp:994-1006 | a list that never closes is refused iff its '[' ends the text, and otherwise takes all the rest |
| ConfigText.UnclosedListRead | src/config.cpp:976-1040 | so a file that ends in such a list gives it to its key, unless it is the bracket alone |
| ConfigText.UnclosedListExample | src/config.cpp:976-1040 | a file whose last setting becomes part of the list before it |
| ConfigText.UnclosedBracketExample | src/config.cpp:976-1040 | a file that ends in '[' and gives no setting |
| ConfigText.ScalarReadIff | src/config.cpp:976-1012 | any other value that starts with no blank is read back iff it is one line |
| ConfigText.RoundTripIff | src/config.cpp:927-1040 | for distinct keys and non-empty values, parsing the printed file returns the map if and only if every key and value is legal |
| ConfigText.FirstOfRepeated | src/config.cpp:1036 | legal lines with repeated keys read back with the first value of each |
| ConfigText.SavedSettingsReadBack | src/confighttp.cpp:1457-1466 | the same from the saved object to the parsed map |
| ConfigLayouts.SavedMeans | src/confighttp.cpp:1457-1466 | item by item: when what is saved is legal, a key is read back with a value if and only if an item of the object has it, as a text that is not empty or as the text of another value but null |
| Pairing.AuthorizedOnlyIfPaired | src/nvhttp.cpp:447-613 | over all interleavings of requests: an authorized client's session ran the four phases in order, once each, its hash is that of the session's server challenge, certificate signature and secret, and its signature verifies |
| Pairing.RunInv | src/nvhttp.cpp:692-820 | what every session holds is what its phases have put there, and sessions and authorized clients are never confused |
| Pairing.OutOfOrderRemoves | src/nvhttp.cpp:433-438 | every call out of order on a session, a PIN on the first session included, removes it, authorizes nobody and touches nothing else |
| Pairing.OthersUntouched | src/nvhttp.cpp:692-820 | a request leaves alone every session it is not for; a PIN is for the session at the start of the map |
| Pairing.HonestClientPairs | src/nvhttp.cpp:447-820 | an honest client with the right PIN, on a new session or one left from an earlier attempt, which no other client's request or PIN reaches: authorized under its own certificate and name if and only if that attempt has had no PIN, and the PIN was read at the terminal or its session is at the start of the map when the PIN is entered; it then trusts the server; its session stays behind just when the PIN goes elsewhere |
| Pairing.PinGoesAstray | src/nvhttp.cpp:774-820 | two clients: the second stands first in the map and is keyed with the first one's PIN; the first, if it goes on, is turned away |
| Pairing.RetryTurnedAway | src/nvhttp.cpp:724-726 | one client alone, which drops out after its PIN and asks again: the right PIN then ends its session |
| Pairing.TrustEarned | src/nvhttp.cpp:476-518 | the server's replies pass the client's own checks |
| Pairing.PairedMeansAuthorized | src/nvhttp.cpp:565-613 | the last reply says paired if and only if the client has just been authorized, and 400 exactly on the handler's refusals; the session ends in any case |
| PairServer.PairServer.GetServerCert | src/nvhttp.cpp:447-469 | the handler on the session object, failures included |
| PairServer.PairServer.ClientChallenge | src/nvhttp.cpp:478-519 | likewise |
| PairServer.PairServer.ServerChallengeResp | src/nvhttp.cpp:528-555 | likewise |
| PairServer.PairServer.ClientPairingSecret | src/nvhttp.cpp:565-613 | likewise; the session ends whatever the outcome |
| PairServer.PairServer.Pair | src/nvhttp.cpp:692-772 | the dispatch, with a session that is already there kept but for its salt |
| PairServer.PairServer.EnterPin | src/nvhttp.cpp:774-820 | the PIN, if it has four digits, and the name go to the session at the start of the map |
| AppProcess.UndoIsStack | src/process.cpp:321-369 | after terminate, in every run, the log is the launches one by one, each with the undo commands of exactly its passed entries in reverse, and the cursor is back at the start |
| AppProcess.UndoneBeforeNext | src/process.cpp:152-368 | nothing of an earlier launch, undo commands included, runs after anything of a later one |
| AppProcess.UndoneExactly | src/process.cpp:329-350 | the undo commands run are those of the passed entries that have one, each once, last to first |
| AppProcess.DoneExactly | src/process.cpp:215-247 | the preparation commands run are those of the passed entries that have one, each once, first to last |
| AppProcess.PassedToFirstStop | src/process.cpp:215-247 | a launch passes all entries up to the first that stops it, and not that one |
| AppProcess.LaunchSucceedsIff | src/process.cpp:152-284 | success, 404 and failure, each with its exact condition; after a failure nothing is left to undo |
| AppLaunches.DecimalReads | src/process.cpp:154-156 | an identifier is written in the decimal digits that read back as it, without leading zeros |
| AppLaunches.DecimalApart | src/process.cpp:154-156 | and different identifiers are different texts |
| AppLaunches.FoundIsFirst | src/process.cpp:154-156 | the application found is the first with the identifier, none exactly when there is none |
| AppLaunches.UnknownIsRefused | src/process.cpp:154-161 | 404 exactly when no application has the identifier |
| AppLaunches.LaunchIff | src/process.cpp:212-284 | otherwise success exactly when every preparation command was started, waited for and ended with 0, or, for an application without a command, at most lacked permission to start, and the application's own command, if any, was started; else -1 |
| AppLaunches.RunningIff | src/process.cpp:286-319 | asking answers the identifier exactly while the application counts as running, runs nothing then, and afterwards undoes what was prepared, once |
| AppProcess.ProcManager.Execute | src/process.cpp:152-284 | execute with its guard, on the manager's fields |
| AppProcess.ProcManager.Prepare | src/process.cpp:215-247 | the loop over the entries |
| AppProcess.ProcManager.Terminate | src/process.cpp:321-369 | the loop that undoes |
| AppProcess.ProcManager.Running | src/process.cpp:286-319 | asking whether the application runs terminates it when it has ended |
| EnvExpand.ParseEnvVal | src/process.cpp:440-493 | the loop over cursors reads the language of literals, `$$` and `$(NAME)` as its recursive definition does |
| EnvExpand.FindMatch | src/process.cpp:412-431 | finds the bracket that closes, or fails |
| EnvExpand.VariableRead | src/process.cpp:466-483 | a variable that is set is replaced by its value, one that is not by nothing |
| EnvExpand.ExpandPrinted | src/process.cpp:440-493 | text and variables written by the rules, names with matching brackets included, are read as meant; values are not expanded again |
| EnvExpand.DoublingProtects | src/process.cpp:440-493 | doubling every '$' in any string and expanding returns the string |

## Left out

- ThreadPool.StepKeeps: `thread_pool.h` is modelled as a state machine over atomic steps, not as a class; the mutexes and the condition variable appear as which steps are enabled. Restarting a stopped pool is left out.
- ThreadPool.NoLostWakeup: `delay` steps are those that do not move a timer before the one due next after it, or, if it is due first, before its own time; the overload of `pushDelayed` without a notification is no step of a run but has its own condition, PushWithoutNotify.
- TaskPool.RunInvariant: tasks are numbers and repeat freely; `pop(task_id)` and the futures are not part of the model.
- FecEncode.Encode: the Reed-Solomon code itself is an unknown function of the data shards; recovering lost shards is not modelled, nor the in-place encryption of shards and its prefix buffer.
- VideoFrame.SendFrame: what the two header passes write is arbitrary, a function of block and packet for the first and also of the header found for the second; of their fields only the packet number, the FEC word and the last payload length are modelled, each by its own lemma. Sizes and counters have no machine width except those fields.
- Pacing.Broadcast: one packet size for the frames of all sessions; exceptions thrown while sending are left out.
- Ivs.IvUniqueness: the encryption is not modelled, only when no vector repeats; when a stream may be announced is not restricted. The older 16-byte scheme, audio and the client's own vectors are left out.
- InputBatch.ScanKeepsMotion: sums are kept modulo 2^16 only, as the code's guard has it.
- GamepadSlots.StepKeeps: the back-button timers, gamepad state and feedback are left out; packets are those that arrive while controllers are enabled.
- ConfigText.ParseConfig: the parser of a single option is a function, as it only searches; the values' own syntax is not part of the model.
- PairServer.PairServer.EnterPin: after a failed certificate phase the code still writes the name into the session it has removed; the model stops before that. The held-back HTTP response is left out.
- Pairing.HonestClientPairs: a session left from an earlier attempt carries the client's certificate; the code would keep another one's. A client that is not answered does not go on.
- Pairing.AuthorizedOnlyIfPaired: says what was checked, not that the checks cannot be forged.
- AppProcess.ProcManager.Execute: environment variables, working directories, output files and exit timeouts are left out; a command that lacked permission is still waited for, with any answer.
- EnvExpand.ParseEnvVal: names match exactly, as outside Windows; reading one position past the text in the bracket search is left out, as the outcome does not depend on it.
- Mouse buttons, touch geometry, statistics, encoder options, sockets, HTTP, the tray and logging hold no property of this kind.
- `replace` in `src/stream.cpp` and the audio stream: easier forms of what is proved for video.
