# Sonnenschein: a verified model of the streaming host's core

Dafny models of the parts of the game-streaming host where several functions, a queue, a buffer or
a protocol have to fit together, with proofs about all inputs and all runs. `dafny verify
dfyconfig.toml` checks everything.

| file | models |
|---|---|
| `Fec.dfy` | cutting a frame into FEC blocks, parity counts, header fields, sequence numbers |
| `Framing.dfy` | the byte layout of a frame: header room, shards, what a receiver reassembles |
| `Packetizer.dfy` | `concat_and_insert`, the block split and `fec::encode` over real buffers and pointers |
| `VideoFrame.dfy` | one frame end to end: header writes before and after parity, sending, batched and single sends |
| `Pacing.dfy` | rate control of the video thread, in whole nanoseconds |
| `InputQueue.dfy`, `Motion.dfy` | the input queue, batching, movement sums, low-resolution scrolling |
| `Gamepads.dfy` | the gamepad id bitset shared by all clients |
| `TaskPool.dfy`, `ThreadPool.dfy` | the task and timer pool; workers, lock and condition variable as an interleaving |
| `SharedRef.dfy` | the reference-counted singleton |
| `Pairing.dfy` | the four-phase pairing protocol over abstract cryptography |
| `DeviceState.dfy` | saving and loading the list of paired devices |
| `PeerIndex.dfy` | control sessions and their index by peer |
| `AppProcess.dfy` | starting and stopping an app: do and undo commands, saved settings |
| `ConfigFile.dfy` | writing and parsing the configuration file |
| `Hex.dfy` | the hex codec |
| `Wrappers.dfy` | the optional value |

Code that changes state is a class whose methods carry out the source's loops and assignments;
each method's new state is tied to a transition function, and the laws are lemmas about runs of
these functions.

## Where the code and its comments or purpose differ

The code is followed; the difference is a lemma.

* The overflow guards of `batch` (src/input.cpp:1212, 1215, 1252, 1272) are negated relative to
  their comments. Everything is proved for both readings (`Guard`). As written, two movements are
  merged exactly when both sums overflow, and sums are kept only modulo 2^16
  (`Motions.WrittenGuardIsExactIff`, `Motions.WrittenGuardLosesMotion`).
* The pacer truncates due times to whole nanoseconds. The token bucket is exact for exactly the
  rates that divide a millisecond; for every other rate, which includes those of ordinary packet
  sizes, a run that breaks it is given (`Pacing.TokenBucketExactIff`, `Pacing.RoundingDrifts`).
  What each frame can gain is bounded (`Pacing.TokenBucket`).
* `TaskPool::delay` keeps the timers in order exactly when the new time is not before that of the
  timer behind (`TaskPools.DelayKeepsOrderIff`, `TaskPools.DelayEarlierHidesTimer`).
* `TaskPool::pop(task_id)` leaves an empty slot that a later `pop` hands out as a null job
  (`TaskPools.PopByIdLeavesHole`, `TaskPools.RunsAreSafe`).
* The pair overload of `ThreadPool::pushDelayed` does not wake a worker, and neither does a `delay`
  that brings a deadline forward. Either is missed exactly when some worker is blocked without a
  deadline or with a later one (`ThreadPools.CoveredIff`, `ThreadPools.QuietTimerIsMissed`).
* A raised parity percentage is not always understood: the receiver computes the parity count that
  was sent exactly when the percentage fits its eight bits and lost less than one shard to rounding
  (`Fec.ReceiverAgreesIff`). A minimum of three fails at both ends: for 199 data shards, and for a
  single one, whose 300 per cent are read as 44 (`Fec.ReceiverDisagrees`). A minimum of four or more
  can exceed 255 shards (`Fec.MinimumFitsIff`).
* A header of a frame sent without FEC can be read exactly while no block has more than 1023 shards
  (`Fec.FrameReadIff`); larger frames exist at every packet size (`Fec.LargeFrame`).
* `lastPayloadLen` has 16 bits: a client that asks for larger packets cannot reassemble the frame
  (`Framing.CutIsExactIff`).
* A failed construction of the shared singleton leaves an object that is never destroyed
  (`SharedRefs.FailuresLeak`), and at 2^32 references the count wraps (`SharedRefs.CountWraps`).
* Ending input-only mode empties the configured display name (`AppProcess.InputOnlyEmptiesDisplay`).
* A list without its closing bracket is not rejected but swallows the rest of the file
  (`ConfigFiles.UnclosedListSwallows`); the check for it in src/config.cpp:675-681 only sees a
  bracket that is the very last character (`ConfigFiles.LoneBracketIsDropped`).

## Model

| member | source | states |
|---|---|---|
| `Fec.SplitIsSafe` | src/stream.cpp:1413-1460 | for every frame, block size and percentage 1 to 255: one to four blocks, none empty, all but the last whole shards, no offset out of range, and unless FEC is off at most 25500/(100+F) data shards in each |
| `Fec.FecOffIff` | src/stream.cpp:1420-1432 | the percentage sent is 0 exactly when the frame is larger than four times the most data one block may hold, and else the configured one |
| `Fec.CountIsLeast` | src/stream.cpp:1420-1443 | while FEC stays on the count is the least number of blocks that can hold the frame; without it there are four |
| `Fec.AlignedIsLeast` | src/stream.cpp:1441-1443 | blocks are the least whole number of shards that an even split leaves |
| `Fec.BlocksFit` | src/stream.cpp:652-666 | unless FEC is off, data and parity of every block together are at most 255 when the parity minimum is at most three |
| `Fec.MinimumFitsIff` | src/stream.cpp:658-666 | three is exactly the largest parity minimum for which that holds for every block |
| `Fec.ReceiverAgreesIff` | src/stream.cpp:654-666 | recomputing parity from the header as it is read gives the count sent exactly when no raise happened, or the raised percentage fits eight bits and lost less than one shard to rounding |
| `Fec.ReceiverAgrees` | src/stream.cpp:654-666 | for a minimum of at most two it always does, and the percentage fits eight bits |
| `Fec.ReceiverDisagrees` | src/stream.cpp:654-666 | a minimum of three fails for 199 data shards at one per cent, and for one, whose 300 per cent are read as 44 |
| `Fec.FecInfoDecodesIff` | src/stream.cpp:1540-1543 | index, data shards and percentage are read back from the packed word exactly when they are below 1024, 1024 and 256 |
| `Fec.BlockDecodesIff` | src/stream.cpp:1537-1543 | all headers of a block can be read exactly when it has at most 1023 data shards and 1024 shards |
| `Fec.FrameReadIff` | src/stream.cpp:1445-1449 | all headers of a frame sent without FEC can be read exactly when no block has more than 1023 shards |
| `Fec.LargeFrame` | src/stream.cpp:1445-1449 | at every packet size and percentage there is a frame that reaches index 1024 |
| `Fec.SequenceNumbers` | src/stream.cpp:1546-1546 | the k-th shard of a session carries k modulo 2^16 across blocks and frames, also when the 32-bit counter wraps |
| `Framing.InterleaveLength` | src/stream.cpp:736-741 | size of the result, and room for a whole header in front of every slice, the last one included |
| `Framing.BodyOfInterleave` | src/stream.cpp:735-771 | behind the header rooms of the padded shards lies the original, padded to whole slices |
| `Framing.StampKeepsBody` | src/stream.cpp:1486-1503 | writing a header into its room changes nothing behind any header |
| `Framing.CutIsExactIff` | src/stream.cpp:1378-1386 | cutting the last slice to the advertised length gives back the frame exactly when that length fits 16 bits |
| `Packetizer.CopySlice` | src/stream.cpp:753-767 | the next bytes of the two buffers, from one or across both, go to their place and nowhere else |
| `Packetizer.ConcatAndInsert` | src/stream.cpp:735-771 | the result is the two buffers interleaved with header room |
| `Packetizer.CutBlocks` | src/stream.cpp:1413-1460 | the blocks tile the buffer in order, all but the last with whole shards |
| `Packetizer.WriteIsLocal` | src/stream.cpp:1537-1550 | writing through one shard pointer changes the start of that shard, no other shard, and no byte of the frame outside the block |
| `Packetizer.Point` | src/stream.cpp:677-707 | shard pointers: whole shards in the frame, the padded one and parity in the shard buffer |
| `Fec.PlanIsLeast` | src/stream.cpp:654-666 | the parity planned is the least that covers the percentage and, unless FEC is off, the minimum |
| `Packetizer.PlanNeedsPointers` | src/stream.cpp:702-707 | whenever parity pointers are not set there is no parity shard |
| `Packetizer.Encode` | src/stream.cpp:649-724 | data shards are the padded slices of the block, parity shards hold their bytes, pointers and counts as planned, the frame untouched |
| `VideoFrames.StampHeaders` | src/stream.cpp:1484-1503 | header writes change no byte behind a header and none outside the block |
| `VideoFrames.SendShards` | src/stream.cpp:1537-1621 | one list in the order sent: the data shards, then the parity shards, each whole behind its own late header; the data shards carry the block, the parity shards their parity bytes |
| `VideoFrames.SendBlock` | src/stream.cpp:1483-1639 | one block: what is sent behind the headers is the block's content from before any header was written |
| `VideoFrames.SendFrame` | src/stream.cpp:1359-1641 | end to end: header room, the cut this frame calls for, encode, both header writes; the data shards stripped of headers and cut give back frame header and payload, exactly when the last length fits 16 bits |
| `VideoFrames.BatchSendsTheShards` | src/platform/common.h:682-694 | a batched send finds, for every shard, the same bytes the pointer-following fallback sends |
| `Pacing.TokenBucket` | src/stream.cpp:1464-1480 | over every run, across blocks and frames: packets sent by t never exceed R(t - start) + R - 1 + B, plus what rounding may lose in each frame |
| `Pacing.TokenBucketExact` | src/stream.cpp:1573-1627 | no rounding term when the rate divides a millisecond |
| `Pacing.TokenBucketExactIff` | src/stream.cpp:1573-1627 | all runs meet R(t - start) + R - 1 + B exactly when the rate divides a millisecond |
| `Pacing.RoundingDrifts` | src/stream.cpp:1580-1582 | for every other rate and every batch size, a legal run that breaks the exact bucket |
| `Pacing.DriftingSize` | src/stream.cpp:1465-1473 | ordinary packet sizes have such rates |
| `Pacing.LogIsTotal` | src/stream.cpp:1616-1620 | the calls add up to the packets sent and are in order of time |
| `Pacing.BatchLeaves` | src/stream.cpp:1575-1620 | a batch inside a group leaves when it is reached; one that begins a group or the frame at the later of that and its due time plus the overshoot |
| `Pacing.FrameBegins` | src/stream.cpp:1476-1480 | a frame starts at the later of now and the time the one before it has used up |
| `Pacing.RateIsLargest` | src/stream.cpp:1463-1464 | the rate is the largest whose packets take at most 100000 bytes a millisecond |
| `Pacing.BatchIsLargest` | src/stream.cpp:1466-1474 | a batch is at most 64 packets and 65536 bytes, and the largest such, but one packet always goes |
| `Pacing.VideoPacer.PaceAndSend` | src/stream.cpp:1575-1620 | one batch: waits when the group is full or the frame begins, then counts it |
| `Pacing.VideoPacer.SendBlock` | src/stream.cpp:1537-1627 | the batches partition the shards in order, each shard once, all batches full except the last |
| `InputQueues.BatchIsMerge` | src/input.cpp:1208-1475 | the overloads of `batch` merge only packets of one device and one discrete state, and skip only other devices of the same type |
| `InputQueues.BatchIff` | src/input.cpp:1208-1475 | for every pair of packets: merged exactly when of one device and one discrete state (movements: exactly when the guard lets the sums through), walked past exactly when of the same type and another device, and the end of the scan otherwise |
| `InputQueues.DrainExhausts` | src/input.cpp:1481-1520 | a drain delivers one packet and leaves before the first packet it could not pass only packets of other devices; that one could not be merged |
| `InputQueues.BatchingKeepsMeaning` | src/input.cpp:1481-1520 | for any interleaving of arrivals and drains and every device: delivered then queued means the same as arrived; no packet crosses one of another type |
| `InputQueues.StatesDelivered` | src/input.cpp:1287-1475 | the sequence of discrete states, repetitions collapsed, is delivered unchanged |
| `InputQueues.LastOfEachRunDelivered` | src/input.cpp:1231-1475 | the packet delivered for each maximal run is the last that arrived |
| `InputQueues.DeliveredIsSubsequence` | src/input.cpp:1481-1520 | what is delivered of a device that reports no movements is what arrived with some packets left out |
| `InputQueues.InputQueue.Enqueue` | src/input.cpp:1579-1643 | a packet is queued exactly when the client's permissions allow its group |
| `InputQueues.PermissionsGrow` | src/input.cpp:1579-1643 | each group admits exactly its packet types, no group nothing, all groups everything, and more groups never less |
| `InputQueues.InputQueue.DeliverNext` | src/input.cpp:1481-1520 | the in-place scan that erases merged packets and walks past others |
| `Motions.MotionConserved` | src/input.cpp:1208-1279 | delivered plus queued movement equals what arrived: exactly with the commented guard, modulo 2^16 as written |
| `Motions.WrittenGuardIsExactIff` | src/input.cpp:1208-1228 | as written, movements merge exactly when both sums overflow, and then both come out wrong |
| `Motions.WrittenScrollGuardIsExactIff` | src/input.cpp:1248-1279 | the same for scroll amounts, whatever the second field of a packet holds |
| `Motions.WrittenGuardLosesMotion` | src/input.cpp:1208-1228 | two movements delivered with the wrong sign |
| `Motions.ScrollConserved` | src/input.cpp:782-821 | after every packet: emitted plus accumulated is what was received, the rest is less than a tick |
| `Motions.TickWaits` | src/input.cpp:782-821 | nothing is sent exactly while accumulator and amount stay below a tick, and the rest keeps the sign of the sum |
| `Motions.BatchedTicksAgree` | src/input.cpp:782-821 | batched and unbatched streams emit totals at most one tick apart |
| `Motions.ScrollContext.PassScroll` | src/input.cpp:782-803 | one scroll packet in low-resolution mode |
| `Gamepads.StepKept` | src/input.cpp:118-139 | every event keeps: set bits are exactly ids held by slots and ids in pending free jobs, all distinct |
| `Gamepads.AllocateKept` | src/input.cpp:847-869 | so does an allocation that the platform refuses |
| `Gamepads.UpdateFollowsBit` | src/input.cpp:1092-1113 | with a free id and no platform failure a slot holds an id afterwards exactly when its bit is set; no other slot and no other client changes |
| `Gamepads.ArrivalTakesId` | src/input.cpp:847-869 | an arrival at an empty slot takes an id exactly when one is free and the platform accepts, and else changes nothing |
| `Gamepads.RunIsSafe` | src/input.cpp:60-139 | in every reachable state over any number of clients |
| `Gamepads.ConnectStarts` | src/input.cpp:118-130 | a new client starts with empty slots, and no other client's slots change |
| `Gamepads.NothingLeaks` | src/input.cpp:118-139 | with no clients and no pending jobs every id is free |
| `Gamepads.GamepadTable.AllocId` | src/input.cpp:60-70 | the lowest free id, or -1 |
| `Gamepads.GamepadTable.MultiController` | src/input.cpp:1081-1113 | a controller appears or goes away by its bit in the mask |
| `Gamepads.GamepadTable.DestroyClient` | src/input.cpp:132-139 | a client's ids become pending free jobs |
| `TaskPools.InsertKeepsOrder` | src/task_pool.h:107-118 | adding a timer keeps the earliest deadline at the back |
| `TaskPools.DelayKeepsOrderIff` | src/task_pool.h:158-186 | `delay` keeps the order exactly when the new time is not before that of the timer behind |
| `TaskPools.DelayLaterKeepsOrder` | src/task_pool.h:158-186 | putting a deadline off always does |
| `TaskPools.DelayEarlierHidesTimer` | src/task_pool.h:176-185 | bringing one forward can hide a due timer |
| `TaskPools.ReadySeesDueTimers` | src/task_pool.h:237-241 | in an ordered pool `ready` holds exactly when something is due, and then `pop` has a job |
| `TaskPools.PopEarliest` | src/task_pool.h:228-232 | with no immediate job, `pop` takes one timer with the earliest deadline, and it is due |
| `TaskPools.PopByIdLeavesHole` | src/task_pool.h:205-217 | after `pop(task_id)` in a pool of any size the next `pop` hands out a null job exactly when no immediate job waits and the slot is the last one, and due |
| `TaskPools.FoundIff` | src/task_pool.h:188-217 | `cancel` and `pop(task_id)` find something exactly when a timer of that id is there |
| `TaskPools.TimersAfter` | src/task_pool.h:107-186 | as multisets of deadlines and ids: pushing adds the one timer, `delay` replaces one timer of the id by one with the new time |
| `TaskPools.RunKeepsOrder` | src/task_pool.h:107-203 | over runs whose delays meet that condition the pool stays ordered |
| `TaskPools.RunConserves` | src/task_pool.h:107-235 | over runs of all six operations a pushed job is, exactly once, still held, handed out, cancelled or taken by id; holes and null jobs together are as many as jobs taken by id |
| `TaskPools.RunIsFifo` | src/task_pool.h:222-226 | immediate jobs are handed out in the order they were pushed |
| `TaskPools.RunsAreSafe` | src/task_pool.h:188-217 | no job is handed out twice, none after its `cancel` returned true or after it was taken by id, no more null jobs than jobs taken |
| `TaskPools.TaskPool.PushTimer` | src/task_pool.h:107-118 | the insertion scan over the timer vector |
| `TaskPools.TaskPool.DelayTask` | src/task_pool.h:158-186 | the swap walk towards the front |
| `TaskPools.TaskPool.CancelTask` | src/task_pool.h:188-203 | erases the timer found, if any |
| `TaskPools.TaskPool.PopTask` | src/task_pool.h:219-235 | immediate job first, else the due timer at the back |
| `ThreadPools.LockInvKept` | src/thread_pool.h:99-127 | every interleaved action keeps: the lock holder is where the code holds it, and has seen the queue |
| `ThreadPools.NoLostWakeUp` | src/thread_pool.h:51-127 | before `stop`: a queued immediate job means some worker is not blocked; and while delays keep the order no blocked worker sleeps past a timer added through the notifying overload and not brought forward since |
| `ThreadPools.CoveredIff` | src/thread_pool.h:60-64 | when no blocked worker sleeps past any timer, an action keeps this exactly when it notifies or no blocked worker wakes later than the time it sets |
| `ThreadPools.SafeRunsAreCovered` | src/task_pool.h:158-186 | over every run whose silent calls meet that condition no blocked worker ever sleeps past any timer |
| `ThreadPools.RunsOnce` | src/thread_pool.h:100-127 | every job runs at most once, a cancelled one never |
| `ThreadPools.JoinMeansFinished` | src/thread_pool.h:86-97 | when `join` returns every immediate job pushed before `stop` has run exactly once |
| `ThreadPools.StopWakesAll` | src/thread_pool.h:86-91 | in every reachable state after `stop` no worker is blocked |
| `ThreadPools.WorkersFinish` | src/thread_pool.h:86-127 | from every such state some worker can act until all are done, any schedule of theirs is over within a number of actions known beforehand, and one ends with all done, so `join` returns |
| `ThreadPools.OneCloser` | src/thread_pool.h:100-121 | while a job is ready, a worker that is awake and may take the lock is one action closer to taking it after each of its actions |
| `ThreadPools.ReadyIsTaken` | src/thread_pool.h:100-103 | at the queue it takes the oldest immediate job, or else a due timer, the earliest one while delays keep the order |
| `ThreadPools.CannotGoOnIff` | src/thread_pool.h:100-127 | a worker cannot go on exactly when it is done or needs a lock that is held |
| `ThreadPools.CancelTakesTimer` | src/task_pool.h:188-203 | `cancel` takes one waiting timer away and marks its job cancelled; without one it changes nothing |
| `ThreadPools.QuietTimerIsMissed` | src/thread_pool.h:60-64 | such a state is reachable: a timer is overdue while the only worker sleeps without a deadline |
| `SharedRefs.RunIsSafeIff` | src/thread_safe.h:357-452 | all along a run the count is the number of non-null handles, the object lives exactly while it is positive, construct and destruct alternate: exactly when the run never needs more than 2^32 - 1 references |
| `SharedRefs.KeptIff` | src/thread_safe.h:368-422 | one operation keeps this exactly when the count has room for it |
| `SharedRefs.HandlesAfter` | src/thread_safe.h:357-422 | which handles are null after each operation: copies and new references share, moves hand over, self-assignment by move releases, all others stay |
| `SharedRefs.NothingLeft` | src/thread_safe.h:413-422 | with no handle left everything constructed was destructed |
| `SharedRefs.FailuresLeak` | src/thread_safe.h:442-447 | over every run one placed object is left behind for each failed construction |
| `SharedRefs.CountWraps` | src/thread_safe.h:439-452 | a run of 2^32 references ends with count zero and a live object, and the next one constructs over it |
| `SharedRefs.SharedT.RefHandle` | src/thread_safe.h:439-452 | first reference constructs, a failing construction gives a null handle |
| `SharedRefs.SharedT.ReleaseHandle` | src/thread_safe.h:413-422 | the last release destructs |
| `Pairing.RunKeepsInv` | src/nvhttp.h:95-128 | in every reachable state key, secrets and hash of a session are set exactly as its phase implies |
| `Pairing.StepIsLocal` | src/nvhttp.cpp:714-890 | every request moves at most the session it is about, and only along the protocol |
| `Pairing.DevicesChangeIff` | src/nvhttp.cpp:591-660 | the device list changes exactly on a final request with both checks passed, and that session is gone |
| `Pairing.AuthorizedDevice` | src/nvhttp.cpp:627-655 | an authorised request appends one device with the session's certificate, its name in square brackets and permissions 0x071F1F00 exactly when the list was empty, else 0x03000000; with a saved state a known certificate adds nothing, and a new device's name begins with its own |
| `Pairing.NameOfClient` | src/nvhttp.cpp:748-784 | a new session holds the client's certificate and name, or the name given with the one-time PIN |
| `Pairing.NameWithPin` | src/nvhttp.cpp:863-887 | whoever enters the PIN may give another name; the parked request is answered |
| `Pairing.WaitsForPin` | src/nvhttp.cpp:744-810 | a first request without one-time PIN is parked with the salt it brought |
| `Pairing.RefusedUnchanged` | src/nvhttp.cpp:724-862 | a PIN that is not four digits changes nothing, nor does a request while pairing is off or without an id |
| `Pairing.PairingIsSound` | src/nvhttp.cpp:483-660 | over every run, an added device has its story: PIN, challenge and answer in order on one undisturbed session, hash and signature over exactly those values |
| `Pairing.SurvivesCallIff` | src/nvhttp.cpp:487-493 | a session survives a phase handler exactly when called in order with a long enough salt before the last phase; any other call deletes it |
| `Pairing.QuietKeeps` | src/nvhttp.cpp:714-839 | requests of other clients leave a session alone |
| `Pairing.HonestClientIsPaired` | src/nvhttp.cpp:495-660 | an honest client whose PIN is entered ends up in the device list, whatever others do in between |
| `Pairing.HonestOtpClientIsPaired` | src/nvhttp.cpp:764-793 | so does one that knows the one-time PIN and its passphrase, with no PIN entered; the PIN is used up |
| `Pairing.OtpWorksOnce` | src/nvhttp.cpp:764-793 | over every run, between two sessions opened with a one-time PIN a new one was requested |
| `Pairing.OtpAfter` | src/nvhttp.cpp:764-793 | the one-time PIN goes exactly when it is used or found expired or missing; a wrong answer and any other request leave it |
| `Pairing.ServerIsProven` | src/nvhttp.cpp:519-589 | the answers let an honest client check the server: the hash it gets covers its challenge, the server's certificate and the secret it gets later |
| `Pairing.PairServer.CallGetServerCert` | src/nvhttp.cpp:495-517 | phase one on the server's own state |
| `Pairing.PairServer.CallClientChallenge` | src/nvhttp.cpp:519-560 | phase two |
| `Pairing.PairServer.CallServerChallengeResp` | src/nvhttp.cpp:562-589 | phase three |
| `Pairing.PairServer.CallClientPairingSecret` | src/nvhttp.cpp:591-660 | phase four, with the permissions of a first device |
| `Pairing.PairServer.StartWithOtp` | src/nvhttp.cpp:764-793 | a one-time PIN is used up, dropped when expired, and a wrong one gets an unguessable key |
| `Pairing.PairServer.RequestOtp` | src/nvhttp.cpp:1787-1798 | a one-time PIN is set for a passphrase of four characters or more |
| `Pairing.PairServer.Pair` | src/nvhttp.cpp:714-839 | dispatch of a pairing request |
| `Pairing.PairServer.Pin` | src/nvhttp.cpp:841-890 | a four-digit PIN for a waiting session |
| `DeviceStates.CommandsRoundTrip` | src/nvhttp.cpp:177-204 | written command lists are read back |
| `DeviceStates.MalformedIsSkipped` | src/nvhttp.cpp:186-196 | a malformed entry anywhere changes nothing else |
| `DeviceStates.ElevatedRead` | src/nvhttp.cpp:186-196 | the elevated flag of an entry: absent means no, a word is compared with true, a number spoils the entry |
| `DeviceStates.ExtractCommands` | src/nvhttp.cpp:177-204 | the loop that collects the well-formed entries |
| `DeviceStates.CertsAreCanonical` | src/nvhttp.cpp:226-233 | saved certificates are unique, each the first of its kind, in first-seen order |
| `DeviceStates.CanonKeepsCerts` | src/nvhttp.cpp:226-233 | none is lost and none is new |
| `DeviceStates.NamesAreDistinct` | src/nvhttp.cpp:233-246 | saved names are pairwise distinct |
| `DeviceStates.SavedNumber` | src/nvhttp.cpp:239-243 | the first saved device of a name has no number, the next ones 2, 3 and so on in order |
| `DeviceStates.SavedNameBegins` | src/nvhttp.cpp:233-246 | a saved name is the device's own up to its first " (", and at most a count behind it |
| `DeviceStates.DeviceRoundTrip` | src/nvhttp.cpp:340-358 | a written device reads back with every field, permissions cut to the known ones |
| `DeviceStates.EmptyEntryReads` | src/nvhttp.cpp:343-356 | an entry without fields reads as a device with every permission and the flags of an old client |
| `DeviceStates.ThrowsIff` | src/nvhttp.cpp:343-356 | an entry throws exactly when it is no object or a text or flag in it has another type; permissions written as text are all permissions |
| `DeviceStates.SaveLoadSaveIff` | src/nvhttp.cpp:206-366 | save, load, save writes the same file exactly when the written permissions are known ones |
| `DeviceStates.SecondSaveIsFinal` | src/nvhttp.cpp:206-366 | from then on nothing changes any more |
| `DeviceStates.AddedCerts` | src/nvhttp.cpp:368-380 | adding a client makes its certificate known and no other known or forgotten |
| `DeviceStates.AddOne` | src/nvhttp.cpp:368-380 | with a saved state a device of a known certificate changes nothing and any other comes last |
| `DeviceStates.ClientRoot.SaveState` | src/nvhttp.cpp:226-278 | the loop with its set of certificates and its counters |
| `DeviceStates.ClientRoot.LoadState` | src/nvhttp.cpp:340-365 | the list is replaced as a whole or not at all |
| `DeviceStates.ClientRoot.AddAuthorizedClient` | src/nvhttp.cpp:368-380 | append, then save and load unless the state is kept fresh |
| `PeerIndexes.IndexAlwaysAgrees` | src/stream.cpp:490-548 | in every reachable state `index[p] == s` exactly when s is in the list with peer p, no two sessions share a peer, and a lookup gives what a linear search would |
| `PeerIndexes.AgreesIff` | src/stream.cpp:541-544 | the invariant in the words of the list alone |
| `PeerIndexes.UnknownPeerClaims` | src/stream.cpp:500-548 | a peer no session has claims the first unclaimed session that expects it, by connect data if its client supports that and else by address; without one nothing changes |
| `PeerIndexes.KnownPeerIsHeard` | src/stream.cpp:576-608 | a packet of a known peer renews its session's deadline, stops it at a disconnect if it was running, and touches no other |
| `PeerIndexes.StartsAndStops` | src/stream.cpp:1981-1990 | `stop` moves only a running session to stopping |
| `PeerIndexes.SweepFilters` | src/stream.cpp:1133-1190 | a whole sweep removes exactly the stopping and timed-out sessions and keeps the others, untouched and in order |
| `PeerIndexes.PeerIsKept` | src/stream.cpp:1137-1165 | a claimed session keeps its peer until a sweep removes it |
| `PeerIndexes.ControlServer.GetSession` | src/stream.cpp:490-548 | the fast and the slow path |
| `PeerIndexes.ControlServer.SweepSessions` | src/stream.cpp:1133-1190 | the erasing loop, also when a shutdown breaks it off |
| `PeerIndexes.ControlServer.AddSession` | src/stream.cpp:2100-2104 | a new session waits for its peer |
| `AppProcess.LogIsBracketed` | src/process.cpp:325-381 | over every run the log of commands is the one its events call for: for each launch that is over the do commands of the app it was given up to the step that failed, then the undo commands of the steps passed backwards, before the next launch |
| `AppProcess.DosForwards` | src/process.cpp:656-690 | do commands are in the order of the steps |
| `AppProcess.UndosBackwards` | src/process.cpp:940-968 | undo commands are in the opposite order |
| `AppProcess.UndoneOnce` | src/process.cpp:932-968 | for every `execute` of every run: each step passed is undone exactly once when it is over, the failed step and later ones never, nothing of the running app; each step is done exactly once when all before it pass |
| `AppProcess.CodeIs` | src/process.cpp:656-721 | `execute` fails exactly when the probe, a do command or the launch fails; a do command fails by a nonzero exit code, by not starting, or by being denied under an app with a command |
| `AppProcess.DoneBeforeBreak` | src/process.cpp:656-690 | a do command is run once exactly when it is not empty and no earlier step failed in one of these ways |
| `AppProcess.InForce` | src/process.cpp:356-381 | after a successful `execute` the display name is the one chosen for the app and the gamepad settings are the app's |
| `AppProcess.SecondTerminateIsIdle` | src/process.cpp:932-1054 | a repeated `terminate` changes nothing |
| `AppProcess.SettingsComeBack` | src/process.cpp:1032-1054 | over every run with positive ids, failures included: whenever no app runs, display name and input settings are the original ones |
| `AppProcess.RestoredIff` | src/process.cpp:1032-1054 | for any id, when exactly a finished `execute` gives the display name back; a failed one always does |
| `AppProcess.InputOnlyEmptiesDisplay` | src/process.cpp:312-323 | ending input-only mode empties the display name |
| `AppProcess.ProcT.RunPreps` | src/process.cpp:656-690 | the prep loop: skipped, passed and failing steps, cursor left at the failing one |
| `AppProcess.ProcT.CallTerminate` | src/process.cpp:932-1054 | the cursor walks back, settings are restored |
| `AppProcess.ProcT.CallExecute` | src/process.cpp:325-786 | clean slate, saved settings, prep commands, app start, fail guard |
| `ConfigFiles.RoundTrip` | src/confighttp.cpp:1063-1075 | what is written from good keys and values is read back as the same map |
| `ConfigFiles.SettingSurvivesIff` | src/config.cpp:651-689 | a setting survives saving and loading exactly when its key and its value are good |
| `ConfigFiles.LineRoundTrip` | src/config.cpp:651-689 | one written line is read back and reading goes on behind it |
| `ConfigFiles.CommentedRoundTrip` | src/config.cpp:651-689 | a line with a trailing comment reads as its value with the blanks before the comment |
| `ConfigFiles.CarriageReturnRoundTrip` | src/config.cpp:651-714 | so does a line that ends with a carriage return and a line feed, without both |
| `ConfigFiles.SettingsAre` | src/confighttp.cpp:1063-1075 | exactly the members that are not null or empty become settings |
| `ConfigFiles.ParseIsClean` | src/config.cpp:691-714 | whatever the text, every key read is a good one and no value holds a comment |
| `ConfigFiles.UnclosedListSwallows` | src/config.cpp:671-682 | a list that is never closed takes every later line with it |
| `ConfigFiles.LoneBracketIsDropped` | src/config.cpp:671-682 | an option whose value is a lone opening bracket at the very end of the text is dropped |
| `ConfigFiles.SkipsExactlyIff` | src/config.cpp:633-649 | a list ends at its last character exactly when that closes the first bracket |
| `ConfigFiles.ToString` | src/config.cpp:618-631 | comments are removed, line ends kept |
| `ConfigFiles.SkipListFrom` | src/config.cpp:633-649 | the bracket counting loop |
| `ConfigFiles.ParseConfig` | src/config.cpp:691-714 | terminates on every text, first value of a key wins |
| `ConfigFiles.SaveConfig` | src/confighttp.cpp:1063-1075 | null and empty values are not written |
| `HexCodec.RoundTrip` | src/utility.h:303-456 | decoding what was printed gives the bytes back, for either order |
| `HexCodec.SeparatorsIgnored` | src/utility.h:406-456 | text that is neither letter nor digit may be inserted anywhere |
| `HexCodec.CaseIgnored` | src/utility.h:406-456 | text in small letters decodes to the same bytes |
| `HexCodec.HexVec` | src/utility.h:303-343 | the printing loop |
| `HexCodec.ScanBack` | src/utility.h:438-446 | the backward scan never leaves the text |
| `HexCodec.FromHexVec` | src/utility.h:406-456 | the decoding loop |

## Left out

- Reed-Solomon, AES, hashes, signatures: their bytes are parameters or abstract functions; the pairing proof states the laws it needs (`Laws`).
- Sockets, ENet, HTTP, XML, files, the clock, random numbers, launched commands: their results are parameters of events.
- Video encryption in place: shards are modelled before it.
- Sizes of `RTP_PACKET` and `NV_VIDEO_PACKET`: parameters; their headers are not part of this model.
- Payload replacements for key frames, and how many times a frame is captured.
- An exception in the send loop: it would leave a session's sequence counter unchanged for that frame.
- `Pacing.TokenBucket`: fixed packet size over the run; the rounding term is what the code really adds.
- `InputQueues.LastOfEachRunDelivered`: not for movements, whose sums `Motions.MotionConserved` covers; nor is `InputQueues.DeliveredIsSubsequence`.
- Touch and pen coordinates as floats, key repeat, delayed left click: packet payloads are opaque data.
- The data race on `ThreadPool::_continue`: a read or a write of it is one atomic action.
- `ptr_t` copy assignment, which does not compile when it is used, and `release` on a null handle.
- `Pairing.PairServer.Pin`: after a failed phase one the session is gone; the code's write of a name to the erased session is not modelled.
- The PIN_STDIN start option: the request goes on with a moved-from id.
- `Pairing.PairServer.CallClientPairingSecret`: the session is a map value, so the access to it after it was erased is not modelled.
- Hex decoding of pairing parameters: arguments are taken as decoded.
- Import from the old `devices` format of the state file: it draws new ids.
- `DeviceStates.ClientRoot.LoadState`: JSON numbers are integers; the unique id of the server is left out.
- A session freed while it is still in the list: `graceful_stop` raises `controlEnd` itself.
- `config::video.capture`, which a virtual display overwrites and nothing restores.
- Windows-only code, virtual-display backends, detached commands, pause and resume commands.
- `ConfigFiles.RoundTrip`: how JSON values other than strings are dumped is left to the JSON library.
- `reorderApps`, and nested lists in `list_string_f`: easy or outside the round trip.
