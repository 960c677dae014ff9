# MatrixRaft: mail selector, applier, checksums and benchmark samples

This project models four parts of MatrixRaft in Dafny and proves what they promise.

**The mail selector** (`src/channel_selector.rs`). Senders push mail into per-replica channels and
fire them at a selector; workers select active channels, stage their mail and drain it. The channel
and the selector are classes (`MailChannel.dfy`, `ChannelSelector.dfy`) proved against functions on
values. `SelectorProtocol.dfy` builds a concurrent step relation out of the same functions, with any
number of channels, senders and workers, whose atomic steps are the lock-held sections of the code;
each channel also carries everything it ever accepted and everything ever drained from it, which
`SelectorHistory.dfy` ties to the sends of the run.
`SelectorSafety.dfy` proves one inductive invariant and draws the safety theorems from it: nothing
lost, duplicated, reordered or stranded, no lost wakeup, every offer accounted for, exact totals.
`SelectorLiveness.dfy` proves that every schedule of delivering steps ends with everything accepted
delivered, and that the number of channels a waiting channel can be passed by is bounded.
`SelectorLocks.dfy` makes acquiring and releasing both kinds of lock steps of their own, proves that
this reaches exactly the same states, and that no threads ever wait for each other in a cycle.

**The applier** (`src/applier.rs`). A handler that is not trusted reports how far it got. `Applier.dfy`
models the per-group state as a class over an arbitrary handler; `ApplyWait.dfy` interleaves the same
transitions with readers waiting for an index, resumes and a cancel. The main results are the read
fence (a reader is released only by work really handed over) and that no wake is missed.

**Checksums** (`src/checksum.rs`). Words are bit vectors (`Words.dfy`). CRC32C (`Crc32c.dfy`, section
12.1 of RFC 3720) and MurmurHash3_x86_32 (`Murmur32.dfy`) are instances of theories that take the
polynomial, or the mixing stages, as parameters. Both equal, on every input, a second definition in
plain arithmetic (`CrcDivision.dfy`, `MurmurNumbers.dfy`, over `WordNumbers.dfy`), and `MurmurHello.dfy`
works out a published value. Both are proved to detect the changes they are
chosen to detect, with the CRC's bound shown to be tight. The streaming context (`Checksum.dfy`)
agrees with the one-shot functions however the input is cut, and the digest of a directory
(`ChecksumFiles.dfy`, `Sorting.dfy`) does not depend on how the directory is listed or read.

**Benchmark samples** (`src/benchmark.rs`, `Benchmark.dfy`). The nanosecond and microsecond figures of
one series agree, and the conditions under which a run satisfies the repository's own validator are
given exactly.

Assumptions of the concurrent selector model, all from how the code is used: distinct channels have
distinct replica ids; a channel is always fetched with the same selector; a push goes through one of
the `*_to_channel` operations, so a fire follows it; a worker fetches every channel it selected. The
theorems are about a pool that is not shutting down: a worker that leaves does so between fetches and
relays one global mail first, as at `src/driver.rs:1393`. Once the driver's exit flag is set, workers
also leave with no relay and with selected channels unfetched (`src/driver.rs:1377` and
`src/driver.rs:1410`, and the return after the relay), and nothing is claimed of that. A condition-variable
notification goes to some parked thread if there is one; wakeups may also be spurious and timeouts may
come at any time. In the apply-wait model, deliveries to one group come one at a time.

Two properties one might hope for are false of the code, and the exact conditions are proved, with
inputs that show each failure. A run does not always yield a sample: it panics on an index out of
bounds exactly when its clusters do not start or its first operation fails (`Benchmark.PanicsIff`,
`Benchmark.PanicWitness`). And a run in which nothing fails is not always accepted by the validator: it
is exactly when at least one iteration was asked for and a batched workload has a batch size
(`Benchmark.AcceptedIffComplete`, `Benchmark.RejectedWitness`).

## Model

| member | source | states |
|---|---|---|
| `MailChannels.MailChannel.constructor` | src/channel_selector.rs:42-80 | a new channel is empty, all counters zero, with a limit of at least one whatever was asked for |
| `MailChannels.MailChannel.TrySend` | src/channel_selector.rs:91-105 | accepts exactly when the live mail is below the limit, and keeps the depth equal to the live mail; a refusal changes only the refusal counter |
| `MailChannels.MailChannel.Admit` | src/channel_selector.rs:161-171 | a batch is admitted exactly when all of it fits, otherwise only the refusal counter moves, by the batch's size |
| `MailChannels.MailChannel.TrySendMany` | src/channel_selector.rs:112-155 | goes in exactly when the live mail leaves room for all of it, and then to the back of one lane in order |
| `MailChannels.MailChannel.Send` | src/channel_selector.rs:173-183 | an unbounded send never refuses and keeps depth and high-water mark exact |
| `MailChannels.MailChannel.Stage` | src/channel_selector.rs:294-299 | after staging each staged lane is its old content followed by all its live mail, and no live mail remains |
| `MailChannels.MailChannel.Drain` | src/channel_selector.rs:218-228 | appends everything staged to the output, urgent then normal then slow, and leaves nothing staged |
| `MailChannels.WellCountedKept` | src/channel_selector.rs:91-183 | every channel operation keeps the depth counter equal to the sum of the live lanes and below the high-water mark |
| `MailChannels.AdmissionExact` | src/channel_selector.rs:91-171 | in terms of the live queues: a batch goes in exactly when the live mail is below the limit and the batch takes it no further, otherwise only the counter moves |
| `MailChannels.TrySendAllOrNothing` | src/channel_selector.rs:91-171 | an accepted batch leaves the live mail within the limit, in one lane only; a refused one leaves every queue alone |
| `MailChannels.RefusedOnlyWhenQueued` | src/channel_selector.rs:302-324 | a batch that could fit an empty channel is refused only while live mail is queued, so the channel cannot latch shut |
| `MailChannels.FetchedByPriority` | src/channel_selector.rs:212-228 | however sends, try-sends and consumes are mixed since a channel was empty, a fetch returns everything sent as urgent, then as normal, then as slow, each in sending order |
| `ChannelSelectors.ChannelSelector.constructor` | src/channel_selector.rs:335-388 | a new selector is empty, its set and list agreeing |
| `ChannelSelectors.ChannelSelector.SendGlobal` | src/channel_selector.rs:394-399 | appends one global mail and touches nothing else |
| `ChannelSelectors.ChannelSelector.Fire` | src/channel_selector.rs:482-491 | lists the channel once, at the back, exactly when it was not active, and says whether it did |
| `ChannelSelectors.ChannelSelector.Rearrange` | src/channel_selector.rs:637-643 | lists each input channel not already active, in order, keeping set and list in agreement |
| `ChannelSelectors.ChannelSelector.PopChannels` | src/channel_selector.rs:594-601 | the loop removes exactly the first channels of the list, from list and set alike, and hands them over in order |
| `ChannelSelectors.ChannelSelector.TakeReady` | src/channel_selector.rs:588-602 | appends all global mail and the first `min(limit, listed)` channels to what was lent, and the flag is true exactly when a channel remains |
| `ChannelSelectors.ChannelSelector.AwaitWork` | src/channel_selector.rs:560-586 | the wait loop goes on until there is ready work or its time is up, whatever other threads leave at each wake, and goes on with what it then finds |
| `ChannelSelectors.ChannelSelector.SelectInto` | src/channel_selector.rs:543-602 | rearranges, waits as its timeout says, and returns all global mail and the head of the list it then finds, in list order; the flag says exactly whether any remain |
| `ChannelSelectors.WaitedForWork` | src/channel_selector.rs:560-586 | a select without a timeout never comes back without ready work; one with a timeout does so only when its time was up |
| `ChannelSelectors.GoesOnAtFirst` | src/channel_selector.rs:560-586 | a select goes on with what it sees at exactly the first look at which there is work, the timeout is zero, or a finite one is over, and waits until then |
| `ChannelSelectors.ChannelSelector.AddTotalMailCount` | src/channel_selector.rs:631-635 | moves only the total and returns the new one |
| `ChannelSelectors.ChannelSelector.Consume` | src/channel_selector.rs:269-300 | stages behind what is already staged, adds the change in the channel's count to the total, and copies the new total to the channel |
| `ChannelSelectors.ChannelSelector.FetchInto` | src/channel_selector.rs:212-228 | an undisturbed fetch returns everything staged or live, urgent first and oldest first within a priority, and empties the channel |
| `ChannelSelectors.FiredConsistent` | src/channel_selector.rs:482-491 | firing keeps the active set and the list the same ids without repeats, and never disturbs those already listed |
| `ChannelSelectors.RearrangedAppends` | src/channel_selector.rs:637-643 | rearranging any input keeps the old list as a prefix and lists exactly the old ids and the input |
| `ChannelSelectors.TakenExact` | src/channel_selector.rs:588-602 | a select takes exactly `min(limit, listed)` channels, leaves set and list agreeing, and channels remain exactly when the limit was below the number listed |
| `SelectorSafety.StepInv` | src/channel_selector.rs:212-300 | every step of every sender and worker keeps the whole invariant: conservation, exclusion, exact totals, coverage of queued mail, a worker awake |
| `SelectorSafety.RunInv` | src/channel_selector.rs:212-643 | the invariant holds after every run |
| `SelectorSafety.NothingLost` | src/channel_selector.rs:212-300 | in every reachable state, per channel and priority, delivered then staged then live is exactly the sequence accepted; likewise for global mail |
| `SelectorSafety.TwoWorkersInOneFetch` | src/channel_selector.rs:277-282 | the case that once dropped mail is reachable: two workers between consume and drain of one channel, with both their mails staged in order |
| `SelectorSafety.AlwaysOwed` | src/channel_selector.rs:411-491 | in every reachable state live mail has its channel active, or a sender on the way to fire or a worker on the way to fetch it; staged mail has a worker that owes the drain |
| `SelectorSafety.NothingStranded` | src/channel_selector.rs:411-602 | when nobody is mid-operation and the selector has nothing ready, every accepted mail has been delivered, exactly once and in order |
| `SelectorSafety.OffersAccounted` | src/channel_selector.rs:91-183 | over every run, with any sends, try-sends, fetches and drains between, accepted plus refused is everything offered to a channel, the counter is exactly what was refused up to saturation, and the depth is the live mail |
| `SelectorSafety.RefusalIsOwedADrain` | src/channel_selector.rs:322-324 | in every reachable state a batch within the limit is refused only if the channel is active or someone is on the way to fire or fetch it |
| `SelectorSafety.NoLostWakeup` | src/channel_selector.rs:394-602 | whenever work is ready and a worker is present, some present worker is not parked, across fires, global mail, limits, timeouts and departures |
| `SelectorSafety.TotalsNonNegative` | src/channel_selector.rs:269-275 | the selector's total is the sum of what each channel held at its latest consume, hence never negative, and no channel's copy is below its own share |
| `SelectorSafety.CopyIsTotalAtLastConsume` | src/channel_selector.rs:269-275 | over any continuation without another consume of it, a channel's share of the total is the live mail its latest consume found, and its copy is the total as of then |
| `SelectorHistory.DeliveredAsSent` | src/channel_selector.rs:212-300 | in every run, delivered then staged then live is exactly what the run's sends and admitted try-sends at that priority brought, in sending order |
| `SelectorHistory.DrainByPriority` | src/channel_selector.rs:218-228 | in every run a drain hands over the next undelivered urgent mail, then normal, then slow, each in sending order |
| `SelectorHistory.RefusedOnlyWhenFull` | src/channel_selector.rs:161-171 | in every reachable state a try-send is refused exactly when the live mail is at the limit or the batch would take it past; then only the counter changes, otherwise all of it is accepted |
| `SelectorHistory.LimitFixed` | src/channel_selector.rs:74-80 | a channel's limit is what it was made with, at least one, and no step changes it |
| `SelectorHistory.HighWaterExact` | src/channel_selector.rs:91-183 | a channel's high-water mark is the most live mail it held in any state of the run |
| `SelectorLiveness.ProductiveRunsEnd` | src/channel_selector.rs:212-602 | any run that only carries on operations under way or selects ready work is bounded in length by a measure of where it starts, and accepts nothing |
| `SelectorLiveness.DrainRun` | src/channel_selector.rs:411-602 | from any state of the invariant with a worker there is such a run to where no more can be taken |
| `SelectorLiveness.EveryScheduleDelivers` | src/channel_selector.rs:411-602 | from every reachable state with a worker, every way of taking such steps ends, and where no more can be taken every mail accepted so far has been delivered, exactly once and in order |
| `SelectorLiveness.StepMovesUp` | src/channel_selector.rs:588-602 | each step either hands a listed channel out or moves it up by exactly the number of channels asked for; firing never pushes it back |
| `SelectorLiveness.BoundedBypass` | src/channel_selector.rs:588-602 | a channel at position k has been handed to a worker by the time selects have asked for more than k channels, whatever is fired meanwhile |
| `SelectorLocks.SameStates` | src/channel_selector.rs:269-300 | with acquiring and releasing of both kinds of lock as steps of their own, exactly the same protocol states are reachable, so every safety theorem holds there too |
| `SelectorLocks.NestingOrder` | src/channel_selector.rs:269-274 | in every reachable state a thread that waits while holding a lock holds a channel's and waits for the selector's |
| `SelectorLocks.NoWaitCycle` | src/channel_selector.rs:269-274 | no chain of threads each waiting for a lock the next holds closes on itself, over both kinds of lock and any number of threads, and none is longer than three |
| `SelectorLocks.NoDeadlock` | src/channel_selector.rs:269-274 | from any thread in or entering an operation, following who waits for whom leads to a thread that can move |
| `Applier.Ceiling` | src/applier.rs:109-122 | bounds every task's last entry and snapshot index, and is one of them unless zero |
| `Applier.CeilingIsFurthest` | src/applier.rs:86-122 | for tasks in log order the ceiling is the furthest index any entry or snapshot of the batch brings |
| `Applier.GroupApplier.constructor` | src/applier.rs:235-249 | a new group has applied nothing and handed nothing over |
| `Applier.GroupApplier.ApplyBatch` | src/applier.rs:253-299 | records the clamped report: the index never falls, an over-report is counted, a stall is recorded at or below the ceiling; says whether it stalled, and the storage comes back empty |
| `Applier.GroupApplier.HandleMail` | src/applier.rs:303-351 | the branch for a short list and the loop for a long one have the same effect: consecutive bounded batches until the tasks run out or one stalls |
| `Applier.GroupApplier.HandleMailRecycling` | src/applier.rs:353-375 | the same effect on the state as `HandleMail` for every input, limit and handler; the buffer comes back empty unless the group was already stalled |
| `Applier.GroupApplier.Resume` | src/applier.rs:569-583 | clears a stall and nothing else, and says whether there was one |
| `Applier.GroupApplier.Cancel` | src/applier.rs:497-500 | marks the group cancelled and changes nothing else |
| `Applier.DeliveryCut` | src/applier.rs:303-351 | the handler gets batches of 1 to the limit, all but the last exactly the limit, whose concatenation is a prefix of the tasks, and all of them unless the last call stalled; a stalled group gets none |
| `Applier.BestWorthIsMax` | src/applier.rs:265-276 | the reference value for the applied index is the maximum over all calls of the report clamped to its batch's ceiling |
| `Applier.BestWorthCovered` | src/applier.rs:93-122 | no index up to that maximum was passed without some handed-over task carrying at least that far in a call that reported at least that far |
| `Applier.RunJustified` | src/applier.rs:258-299 | after any run of deliveries, resumes and cancels with any handler, the applied index is exactly that maximum and never fell, the counters count exactly, and a stall is at or below it |
| `Applier.StalledUntilResumed` | src/applier.rs:320-329 | between a stall and the next resume nothing reaches the handler and nothing but the cancel mark changes |
| `Applier.StallsHeeded` | src/applier.rs:279-329 | after any run with any handler a group is stalled exactly when a call stalled since the last resume, at that call's clamped report and for its reason; and no call follows a stalled one without a resume between |
| `ApplyWait.StepInv` | src/applier.rs:268-298 | every step of the worker, readers, resume and cancel keeps the invariant: justified state, answers that stand, parked readers with nothing to learn or a notification owed |
| `ApplyWait.RunInv` | src/applier.rs:258-299 | the invariant holds after every run, and the applied index never falls |
| `ApplyWait.ReadFence` | src/applier.rs:612-654 | a reader is told Reached exactly when its index is at or below the index it is told, which the group has reached; for an index above zero some recorded task carried the group that far; any other answer names a smaller index |
| `ApplyWait.ReachedStays` | src/applier.rs:612-654 | a Reached answer stays right over every continuation of the registration, cancel included |
| `ApplyWait.EveryAnswerRight` | src/applier.rs:628-653 | every answer of every run was right when given: reached at or past the index, else gone if cancelled, else stalled if stalled, else timed out and only too late; it names where the group was |
| `ApplyWait.LookExact` | src/applier.rs:628-653 | a reader that looks is answered that way, and waits on exactly when nothing is decided and time is left |
| `ApplyWait.NoMissedWake` | src/applier.rs:291-297 | a reader parked although its wait is decided is only so while a cancel still owes its notification |
| `ApplyWait.DecidedWaitEnds` | src/applier.rs:489-503 | that notification and one look give such a reader an answer other than a timeout |
| `ApplyWait.StalledHandlerIdle` | src/applier.rs:320-329 | in no interleaving is the handler called while the group is stalled |
| `ApplyWait.StallsHeeded` | src/applier.rs:279-329 | in every interleaving a group is stalled exactly when a recorded call stalled since the last resume, at its clamped report and for its reason; none is recorded or handed over after it without a resume between |
| `ApplyWait.DeliveryRefines` | src/applier.rs:303-351 | an undisturbed delivery of the concurrent model ends exactly where the sequential one does, for every handler |
| `CyclicCode.Shift` | src/checksum.rs:257-260 | the inner loop is the repeated bit step |
| `CyclicCode.Extend` | src/checksum.rs:253-263 | the byte loop computes the reflected register over the whole input, inverted in and out |
| `CyclicCode.ExtendConcat` | src/checksum.rs:253-263 | extending piece by piece is extending by the whole, for every cut and starting value |
| `CyclicCode.StepInjective` | src/checksum.rs:258-259 | one shift is injective for any polynomial whose top bit is set |
| `CyclicCode.RegisterIsBitSerial` | src/checksum.rs:253-263 | the byte-at-a-time loop is the register fed one message bit at a time, low bit first |
| `CyclicCode.WindowInjective` | src/checksum.rs:253-263 | from one register, two different bit windows of at most 32 bits end in different registers |
| `CyclicCode.BurstDetected` | src/checksum.rs:253-263 | two messages of one length that differ only within 32 consecutive bits have different checksums, from any starting value |
| `CyclicCode.WiderBurstMissed` | src/checksum.rs:253-263 | 32 is the limit: for every message and every 33 consecutive bits in it there is another message, differing only there, with the same checksum |
| `CyclicCode.ChecksumParity` | src/checksum.rs:253-263 | the checksum's parity is the starting value's, flipped once per set message bit, for any polynomial of odd weight |
| `Crc32c.Extend` | src/checksum.rs:253-263 | the loop with the Castagnoli polynomial computes the checksum the theorems are about |
| `Crc32c.ExtendConcat` | src/checksum.rs:86-86 | the streamed CRC32C value may be extended in any pieces |
| `Crc32c.BurstDetected` | src/checksum.rs:253-263 | CRC32C detects every burst of at most 32 bits |
| `Crc32c.FourBytesDetected` | src/checksum.rs:253-263 | CRC32C detects every change confined to four consecutive bytes |
| `Crc32c.OddFlipsDetected` | src/checksum.rs:253-263 | CRC32C detects every change that flips an odd number of bits, however spread |
| `Crc32c.PolyShape` | src/checksum.rs:259-259 | 0x82f63b78 has its top bit set and an odd number of bits |
| `CrcDivision.PolyIsGenerator` | src/checksum.rs:259-259 | 0x82f63b78 is the generator 0x1edc6f41 of section 12.1 of RFC 3720 with its bits the other way round |
| `CrcDivision.ChecksumIsRemainder` | src/checksum.rs:253-263 | for every message and starting value the checksum, inverted and mirrored, is the remainder of long division by that generator, in plain arithmetic |
| `CrcDivision.OneShotIsRemainder` | src/checksum.rs:221-223 | from the start that division begins with all ones |
| `BlockHash.MixBody` | src/checksum.rs:130-139 | the block loop mixes exactly the whole blocks in order |
| `BlockHash.Hash` | src/checksum.rs:265-274 | the loop form computes the one-shot hash |
| `BlockHash.BodyConcat` | src/checksum.rs:265-285 | mixing may be cut between any two blocks |
| `BlockHash.BlocksContinue` | src/checksum.rs:125-143 | the blocks of a carried tail and a new piece are exactly the next blocks of the whole input, and what is left is its tail |
| `BlockHash.RunInjective` | src/checksum.rs:276-323 | a chain of multiplications by units, rotations and xor-shifts is injective |
| `BlockHash.GuardIsIdle` | src/checksum.rs:305-310 | mixing the tail only when it is not zero gives the same hash as always mixing it |
| `BlockHash.AlignedChangeDetected` | src/checksum.rs:265-323 | messages of one length that differ only in one aligned block, or only in the tail, have different hashes under every seed |
| `Murmur32.MurmurSound` | src/checksum.rs:276-323 | every multiplier of MurmurHash3_x86_32 has the stated inverse modulo 2^32 and every shift is in range |
| `Murmur32.MurmurChangeDetected` | src/checksum.rs:265-323 | so MurmurHash3_x86_32 detects those changes |
| `Murmur32.MurmurGuardIsIdle` | src/checksum.rs:287-314 | the guarded tail step is the published unguarded one |
| `MurmurNumbers.MurmurIsPublished` | src/checksum.rs:265-323 | for every message and seed the hash is that of the published algorithm written as arithmetic modulo 2^32 |
| `MurmurHello.HelloValue` | src/checksum.rs:225-227 | the hash of "hello" is the published 0x248bfa47 |
| `Checksum.ChecksumContext.constructor` | src/checksum.rs:58-68 | a new context has been fed nothing |
| `Checksum.ChecksumContext.Extend` | src/checksum.rs:74-96 | refused when finished, then when the type is invalid, with no change; otherwise the whole piece is absorbed, an empty one without being counted |
| `Checksum.ChecksumContext.ExtendMurmur32` | src/checksum.rs:125-143 | mixes the whole blocks of tail and piece together and keeps a tail shorter than a block |
| `Checksum.ChecksumContext.Finalize` | src/checksum.rs:98-115 | mixes the tail and the length in once, and reports value, bytes and chunks |
| `Checksum.NewHolds` | src/checksum.rs:58-68 | a new context of any type stands for the empty input |
| `Checksum.ExtendedHolds` | src/checksum.rs:74-96 | a context that stands for what it was fed stands for that and the piece after an extend: value, length, whole blocks and tail |
| `Checksum.FinalizedDigest` | src/checksum.rs:98-115 | finalizing such a context reports the one-shot digest of what it was fed, and its length |
| `Checksum.CutsDoNotMatter` | src/checksum.rs:74-143 | for every cut of the input, empty pieces included, the streamed digest is the one-shot digest of the whole |
| `Checksum.StreamedIsOneShot` | src/checksum.rs:221-227 | for the two named types the streamed digest is `matrixraft_crc32c`, respectively `matrixraft_murmur32`, of the whole |
| `Checksum.ChunksCounted` | src/checksum.rs:81-94 | the chunk count is the number of pieces that were not empty, up to saturation |
| `Checksum.InvalidIsClosed` | src/checksum.rs:78-80 | a context of an invalid type refuses every piece, the empty one too, with no change |
| `Checksum.FinishedIsClosed` | src/checksum.rs:74-115 | finalizing again changes nothing and every later extend is refused with no change |
| `ChecksumFiles.ExtendFromReader` | src/checksum.rs:203-219 | the read loop feeds every block up to the end, passes over interruptions, and stops at a real error or a refused extend |
| `ChecksumFiles.ReadIsExtend` | src/checksum.rs:203-219 | a reader that reaches its end leaves the context exactly as extending by its blocks would, whatever interruptions came between |
| `ChecksumFiles.FailureReported` | src/checksum.rs:209-217 | a real error before the end is reported, with exactly the blocks before it taken in |
| `ChecksumFiles.UncleanIff` | src/checksum.rs:209-217 | a reader fails exactly when an error comes before every end of file |
| `ChecksumFiles.RefusalReported` | src/checksum.rs:211-213 | a context that refuses takes nothing in, and its reason is reported at the first block |
| `ChecksumFiles.ReadDigest` | src/checksum.rs:177-191 | the digest of several files is the one-shot digest of their contents in order, for every block size and pattern of interruptions |
| `ChecksumFiles.RelistedFiles` | src/checksum.rs:240-251 | enumerating every directory of a tree in another order collects the same files |
| `ChecksumFiles.CollectedIsThere` | src/checksum.rs:240-251 | every file collected lies at some path of the tree |
| `ChecksumFiles.ThereIsCollected` | src/checksum.rs:240-251 | every file of the tree, at any depth, is collected |
| `ChecksumFiles.CollectedAsOften` | src/checksum.rs:240-251 | each as often as it occurs |
| `ChecksumFiles.FileListSorted` | src/checksum.rs:229-238 | the file list is those files in the order of their paths |
| `ChecksumFiles.ListingOrderForgotten` | src/checksum.rs:229-251 | so the sorted file list does not depend on the enumeration order |
| `ChecksumFiles.DirectoryDigest` | src/checksum.rs:177-251 | two checksums of one directory tree agree in value and byte count, whatever the enumeration order, the block sizes and the interruptions |
| `Sorting.SortedIsSort` | src/checksum.rs:233-233 | the sort used yields a sorted permutation of its input |
| `Sorting.SortUnique` | src/checksum.rs:233-233 | where only equal elements tie, a sorted permutation is unique, so any sort gives this result |
| `Sorting.SortForgetsOrder` | src/checksum.rs:233-233 | two listings of the same elements sort to the same sequence |
| `Benchmark.SortedMapped` | src/benchmark.rs:4202-4208 | sorting commutes with every monotone map |
| `Benchmark.PercentileDefined` | src/benchmark.rs:4202-4208 | the percentile is out of bounds exactly on the empty series, and otherwise one of the values |
| `Benchmark.PercentileSplits` | src/benchmark.rs:4202-4208 | with k the rank kept at or below the last place, at least k + 1 of the values are at most the percentile and at least all but k are at least it |
| `Benchmark.PercentileCommutes` | src/benchmark.rs:4202-4208 | the percentile of a monotone image is the image of the percentile, out of bounds included |
| `Benchmark.PercentilesOrdered` | src/benchmark.rs:4202-4208 | a higher percentage never gives a lower percentile |
| `Benchmark.RunTimed` | src/benchmark.rs:4043-4057 | records one latency of at least a nanosecond per success up to the first failure, and succeeds exactly when all of at least one iteration did |
| `Benchmark.TimedShape` | src/benchmark.rs:4043-4057 | the series has as many latencies as iterations exactly when none failed, and each is positive |
| `Benchmark.TimedAt` | src/benchmark.rs:4048-4055 | each latency is what its iteration took, a nanosecond if it took none |
| `Benchmark.IdentityBlockers` | src/benchmark.rs:2802-2834 | reports exactly the mismatches of engine, source and workload |
| `Benchmark.OptionBlockers` | src/benchmark.rs:2835-2858 | reports exactly the options that differ |
| `Benchmark.CountBlockers` | src/benchmark.rs:2859-2878 | reports exactly the operation, iteration and per-iteration counts that are not the expected ones |
| `Benchmark.DurationBlockers` | src/benchmark.rs:2879-2912 | reports exactly which of total and percentiles are zero, out of order or too small |
| `Benchmark.ThroughputBlockers` | src/benchmark.rs:2913-2928 | reports a throughput that is not positive and finite, or does not match the duration |
| `Benchmark.ShapeBlockers` | src/benchmark.rs:2795-2930 | reports exactly the checks that fail, and so nothing exactly on well-shaped samples |
| `Benchmark.FiguresAgree` | src/benchmark.rs:4007-4036 | in every sample produced the microsecond p50 and p99 are the nanosecond ones, truncated and floored at one |
| `Benchmark.TotalsAgree` | src/benchmark.rs:4007-4036 | the total nanoseconds are the sum of the series and the total microseconds differ from it by at most one an iteration |
| `Benchmark.CountsAgree` | src/benchmark.rs:4059-4075 | counted by operation or by iteration a workload does the same number of operations, unless the product saturates or there is no batch |
| `Benchmark.RatePositive` | src/benchmark.rs:3179-3197 | the throughput times the duration is the number of operations, it is positive exactly if there are any, and it matches itself |
| `Benchmark.FiguresOrdered` | src/benchmark.rs:4007-4041 | in every sample produced p50 is positive and at most p99, which is at most the total, which covers the iterations |
| `Benchmark.PanicsIff` | src/benchmark.rs:3843-4041 | a run ends in an index out of bounds, with no sample, if and only if its clusters do not start or its first operation fails |
| `Benchmark.AcceptedIffComplete` | src/benchmark.rs:3843-4041 | a run produces a sample the validator accepts if and only if it started, every iteration succeeded, at least one was asked for, and a batched workload has a batch size |
| `Benchmark.PanicWitness` | src/benchmark.rs:4202-4208 | one iteration of single-key writes panics when the first write fails, and when the clusters do not start |
| `Benchmark.RejectedWitness` | src/benchmark.rs:2795-2930 | with no iterations asked for, or a batch size of zero, a run in which nothing fails yields a sample the validator rejects |

## Left out

- The Raft cluster, elections, leases, membership, the write-ahead log, snapshots and transport.
- `DriverWorkerPool`, `Driver`, and the applier's group map, submit path and pool: only the per-group state and the selector protocol are modelled. An unknown group's error in a wait is not modelled.
- Mutex poisoning, serialization, allocation, and accessors that only read a field.
- Integer widths of queue lengths, mail totals, batch and task counters, log indices and replica ids, which are unbounded here. The refusal counter, the over-report counter and the checksum counters saturate at 2^64 - 1 as in the code.
- Real clocks: a timed wait may expire at any check.
- Direct pushes into a channel with no fire after them, in the concurrent model: mail sent that way may wait for the next fire.
- MailChannels.MailChannel.TrySendMany: stands for the vector and the iterator form, which differ only in what a refusal hands back.
- A driver that is shutting down, where workers leave with mail selected or staged.
- Fairness: a schedule that keeps waking parked workers for nothing, or keeps accepting mail, need not take delivering steps.
- Applier.GroupApplier.ApplyBatch: the storage a handler gives back is cleared by the code, so it is modelled as empty.
- Applier.GroupApplier.Cancel: is the marking only; the removal from the group map and the notification are the RemoveGroup and NotifyCancelled steps of `ApplyWait`.
- The names of checksum types, and the result's name field.
- Checksum.CutsDoNotMatter: total length at most 2^64 - 1, beyond which the code's length counters saturate.
- ChecksumFiles.DirectoryDigest: paths are any totally ordered values that name one file each; opening and listing errors, and a path that is a plain file, are not modelled.
- The library sorts are an insertion sort; `Sorting.SortUnique` shows that any other sort gives the same result.
- Benchmark figures that are floating point are real numbers, so rounding is not modelled; a percentile's rank is any function that grows with the percentage, as the exact one does (`Benchmark.ExactRankGrows`).
- Benchmark.AcceptedIffComplete: the u64 sums of latencies do not overflow here, and operations are an arbitrary oracle of latencies and failures; correctness flags, group counts, file and revision metadata are not part of the sample.
- Benchmark.ShapeBlockers: blocker messages are an enumeration; engine names other than the two known ones, and the checks of fields not part of this sample, are not modelled.
