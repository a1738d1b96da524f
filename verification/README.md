# bc3-miner: a model and its proofs

A Dafny model of what the BC3 miner has to get right through job changes,
device failures, window switches and interleaved threads, with proofs that it
does. `dafny verify dfyconfig.toml` checks all of it.

The parts, by module:

- **SearchSpace, Scheduler, Rig** - the partition of (extranonce2, nonce) over
  all workers. A worker is a step machine (begin a job, queue a launch, collect
  one, finish its hits, decide how the job ends, end and report it; every queue
  and collect may fail), a rig is any interleaving of any number of them. The
  main results are `Rig.ExactlyOnce` and `Rig.ReportsHoldUnlessLate`.
- **RunRecord** - the machine's counters told from the events of a run alone.
- **GpuMining, CpuMining** - the GPU worker and the CPU thread as classes with
  the source's fields and loops. Each carries the scheduler's state as a ghost
  field and every method keeps the two in agreement, so that what is proved of
  the step machine is true of the code-shaped loops.
- **Headers, Targets** - headers and shares, nBits, the 256-bit shift and long
  division behind the share target, the byte-order compare and the kernel's limbs.
- **LaunchSize** - the hit budget and the launch-size autotune, and where the
  autotune leads.
- **Handover** - jobs, claims, stall marks and all waiting threads as
  interleaved steps, one per atomic access.
- **Takeover, Restoring** - over runs of those: who comes to mine a job and why a
  thread waits; what the stall guard's marks come of, and what its next check does.
- **Tuner, TuningRuns, TuningAnswers** - the window tuner with the worker's side of
  it, whole tunings in a closed loop with the card, and which windows they try.
- **Ring, RingBackend** - the two-slot launch ring with skipped copies, against a
  plain queue that always uses each launch's own inputs.
- **Layout, Tables, TableBuilders, TablePool** - how a scalar is cut into digits,
  and the four ways the curve tables are filled, over a cyclic group of odd order.
- **Framing, Streaming** - line framing of the pool's byte stream, the reject
  log, outstanding requests and the share rate.
- **Bip34, Calendar, Matching** - the height in the coinbase, civil dates, and
  which devices are the same card.
- **Machine** - machine integers, byte strings, powers.

Integers are unbounded except where a width is written out (`u8`, `u32`, `u64`,
`u128`). SHA256d, the proof of work and the kernel are arbitrary functions.
Generation changes, failing calls, hits and the passing of time are inputs.

## What the proofs say about the code

Six properties do not hold of the code as it is; each has a lemma with the case,
and a statement of exactly when it holds.

- A space can be reported exhausted although ground is left: when a launch in
  flight fails to come back after `pump` has decided. A report is true if and
  only if none did (`Scheduler.ReportTells`, over every run), and for the whole
  rig every pair was hashed once if and only if no worker had such a failure
  (`Rig.ReportsHoldUnlessLate`). `Scheduler.LateFaultHappens` is a run with one.
- A space that was left and comes back is hashed again from its start, because
  only the last job is remembered (`Scheduler.ReturningRepeats`, with
  `Scheduler.ReturningHappens`). `Scheduler.TwiceExactlyWhen` says when, for every
  space that may come next; legal runs do not return to a space.
- A stand-in can sleep through a job nobody mines if the GPUs have kernels for
  two proofs of work: the stall guard reads one, the pool moves to the other,
  and the guard's change is announced for the first alone. With one kernel, as
  built, it cannot (`Handover.NoStaleHandover`, an if-and-only-if).
- nBits with an exponent of 33 or more can stand for a target below 2^256, and
  the miner has none for them: 0x2100ffff (`Targets.MissedTarget`). It has the
  right target if and only if the exponent is at most 32 or there is none
  (`Targets.MinedIsBlockTarget`), and shares are called blocks rightly in exactly
  those cases (`Headers.CalledBlockTells`).
- Two CUDA cards can be given one OpenCL device when one of them has vanished
  (`Matching.VanishedCanCollide`); `Matching.SharedExactlyWhen` says when.
- What a connection comes to can depend on how its bytes arrive. It does not if and
  only if the first complete line over the limit, if there is one, is over it by a
  whole read of 8192 bytes (`Framing.OutcomesOfAStream`). Lines up to the limit are
  always delivered, lines over it by a whole read always refused, and every length in
  between goes one way or the other (`Framing.FateOfALine`).

Also: a launch already collected is dropped unfinished when the second `top_up`
finds the device gone. It stays counted as covered, and is a fate of its own in
the step machine (`Scheduler.EveryRunTiles` counts the drops).

## Model

| member | source | states |
|---|---|---|
| SearchSpace.EncodeBijective | src/worker.rs:270-284 | up to 7 bytes, the counters that fit and the byte strings of the size name each other one to one |
| SearchSpace.EncodeDenotes | src/worker.rs:270-284 | at every size the bytes are as many as asked for and denote the counter, if it fits |
| SearchSpace.TakeMovesOn | src/gpu_worker.rs:429-441 | a take moves the worker on by exactly the nonces it returns, from any cursor; they lie where it left unless the counter there has saturated |
| SearchSpace.TakeRepeatsWhen | src/gpu_worker.rs:429-441 | a take is followed by ground it already gave out exactly when it uses up the nonces of the counter 2^64 - 1 |
| SearchSpace.TilesExactlyOnce | src/gpu_worker.rs:429-441 | ranges that tile a worker's walk cover each place of it before their total exactly once, and nothing of another worker's |
| Scheduler.StepKeepsInv | src/gpu_worker.rs:608-730 | every step, failing or not, keeps: collected ranges, then those in flight, then the cursor tile the worker's space; shares are unique and come from collected launches; all launches but at most one per lost device are finished |
| Scheduler.EveryRunTiles | src/gpu_worker.rs:608-730 | the same of every state of every run |
| Scheduler.DeadDeviceGivenUp | src/gpu_worker.rs:336-396 | a device no launch comes back from is given up at 30 failures, whatever jobs arrive, and before that only if it could not be opened again; it starts no job after |
| RunRecord.FiveInARow | src/gpu_worker.rs:615-730 | over every run the errors counted are the failures since the last launch that came back or the last fifth, and a device is gone exactly at a failure with four before it in a row |
| RunRecord.GivesUpAndTells | src/gpu_worker.rs:333-396 | over every run the worker gives up exactly after the sixth job in a row that ended in a gone device, none since with a launch finished, or one that was not opened again; the reports are one per job, each as that job ended |
| Scheduler.ReportTells | src/gpu_worker.rs:608-650 | over every run, a space just reported exhausted has nothing left if and only if no collect failed after the decision |
| Scheduler.EveryRunReports | src/gpu_worker.rs:608-650 | every report of exhaustion without such a failure names a space the worker has searched to its end, and that stays so |
| Scheduler.LateFaultLosesGround | src/gpu_worker.rs:615-627 | a collect that fails with the cursor past the end puts it back on ground that was never hashed |
| Scheduler.LateFaultHappens | src/gpu_worker.rs:608-650 | a legal run that ends in such a report |
| Scheduler.ReturningRepeats | src/gpu_worker.rs:578-604 | a space left and returned to has its first nonce hashed twice |
| Scheduler.TwiceExactlyWhen | src/gpu_worker.rs:578-604 | once the first launch of the next space is back, something of it has been hashed twice if and only if it is not the last space and was collected of before |
| Scheduler.ReturningHappens | src/gpu_worker.rs:578-604 | a reachable state in which that is so |
| Rig.ExactlyOnce | src/main.rs:381-409 | for every number of workers and every interleaved run no (extranonce2 bytes, nonce) is hashed twice; once every worker has reported the space exhausted, none after a lost launch, each of the 256^size * 2^32 was hashed exactly once |
| Rig.ReportsHoldUnlessLate | src/gpu_worker.rs:608-650 | when all workers have stopped and reported the space exhausted, every pair was hashed exactly once if and only if none of them lost a launch after its decision |
| Rig.NoShareTwice | src/gpu_worker.rs:747-777 | no share is submitted twice, by one worker or by two |
| GpuMining.SortDedup | src/gpu_worker.rs:747-753 | hits come out strictly rising, none lost and none added |
| GpuMining.Worker.DeviceError | src/gpu_worker.rs:706-730 | is the machine's failed call (of which RunRecord.FiveInARow tells): what is in flight is dropped, the cursor goes back to the oldest of it, the device may be gone |
| GpuMining.Worker.TopUpOnce | src/gpu_worker.rs:652-704 | the job is over as changed exactly when the look taken says so, else as exhausted exactly when the cursor no longer fits, else a launch is queued or fails |
| GpuMining.Worker.QueueOne | src/gpu_worker.rs:664-704 | a launch queued takes the batch, no more than the hit budget and no more than the nonces left |
| GpuMining.Worker.TopUp | src/gpu_worker.rs:652-704 | the queue is filled from the cursor, each launch with the right header, or the device is gone |
| GpuMining.Worker.RecheckHits | src/gpu_worker.rs:734-790 | exactly the reported nonces that meet the share target become shares, each sound and inside the launch's range |
| GpuMining.Worker.Finish | src/gpu_worker.rs:734-805 | of the reported nonces exactly those that are shares are submitted, each once, as the machine records them; the budget counts the launch's hits, and the batch is tuned by what a launch of all of it would have taken |
| GpuMining.Worker.Turn | src/gpu_worker.rs:608-650 | one turn of the launch loop covers more ground, counts an error, or ends the job |
| GpuMining.Worker.Pump | src/gpu_worker.rs:608-650 | the launch loop ends, with nothing in flight unless the device is gone, and only ground of its job is added |
| GpuMining.Worker.MineJob | src/gpu_worker.rs:569-606 | returns what was decided, or a gone device; it was decided changed exactly when the last look taken found a change; a job said to be exhausted is if and only if the machine had no launch fail after the decision; every share is sound |
| GpuMining.Worker.AfterJob | src/gpu_worker.rs:333-396 | is the machine's end: launches that came back give the reopens back, a gone device takes one, the sixth in a row or a failed open ends the worker |
| GpuMining.Worker.Run | src/gpu_worker.rs:304-400 | every job that comes, none of a space left before, is mined and reported in turn, all of them unless the device was given up |
| CpuMining.HashNext | src/worker.rs:163-217 | hashing the next nonce is the step machine's queue, collect and finish of one nonce |
| CpuMining.Thread.Grind | src/worker.rs:163-235 | one extranonce2 is hashed from its start nonce up to where it stops, each nonce once, its shares sound |
| CpuMining.Thread.MineJob | src/worker.rs:133-247 | a thread says its counters have run out exactly when no look found a change, and then has nothing of its part of the space left |
| CpuMining.Thread.OneJob | src/worker.rs:97-127 | the place in a space carries over to the next job of the same space, and starts afresh for another; the job is reported as it ended |
| Headers.Serialize | src/consensus.rs:122-135 | 80 bytes, the front shared by all nonces, the nonce last (HeaderLayout has the fields) |
| Headers.HeaderLayout | src/consensus.rs:122-135 | version, previous hash, merkle root, time, bits and nonce at bytes 0, 4, 36, 68, 72 and 76, numbers low byte first |
| Headers.CoinbaseLayout | src/gpu_worker.rs:490-500 | coinb1, extranonce1, extranonce2 and coinb2 one behind the other |
| Headers.StepsLeadToTheRoot | src/consensus.rs:325-333 | folding over a block's siblings gives the root of all its transactions with the coinbase as the first, whatever the coinbase |
| Headers.HeaderSays | src/gpu_worker.rs:490-511 | the 80 bytes hold the job's fields at their offsets, and the root of the block the job's steps are of |
| Headers.RootFromSteps | src/consensus.rs:325-333 | the fold of the coinbase's hash over the merkle steps |
| Headers.En2Header | src/gpu_worker.rs:490-511 | the cached header is the header of that extranonce2 with nonce 0 |
| Headers.SameSpaceSameHeaders | src/shared.rs:57-67 | two jobs compare equal exactly when every field a header is made of is equal, and then they ask for the same headers |
| Headers.PatchedHeader | src/worker.rs:163-217 | patching the last four bytes is serializing with that nonce |
| Headers.Recheck | src/bench.rs:145-163 | a header becomes a share exactly when its hash meets the share target; the share rebuilds to that header and is called a block exactly when the hash meets the target the miner takes nBits for |
| Headers.CalledBlockTells | src/consensus.rs:155-174 | hashes are called blocks exactly when they meet the target nBits stand for, if and only if the exponent is at most 32 or there is no target |
| Targets.CompactToTarget | src/consensus.rs:155-174 | mantissa * 256^(exponent - 3) as 32 bytes; none exactly with the sign bit set, an exponent above 32, or a nonzero byte below the point |
| Targets.MinedIsBlockTarget | src/consensus.rs:155-174 | that is the target nBits stand for - none with the sign bit, with a fraction or from 2^256 on - if and only if the exponent is at most 32 or there is none |
| Targets.MissedTarget | src/consensus.rs:158-166 | 0x2100ffff stands for a target of at least 2^255 and is refused |
| Targets.PlacedDenotes | src/consensus.rs:161-171 | the mantissa bytes in their places denote the scaled mantissa; a nonzero byte past the last place, or an exponent above 32, leaves none |
| Targets.HashMeetsTarget | src/consensus.rs:177-190 | true exactly when the hash's little-endian value is at most the target |
| Targets.Shl | src/consensus.rs:223-235 | x * 2^n modulo 2^256 |
| Targets.LongDivisionDivides | src/consensus.rs:201-221 | byte-wise long division gives quotient and remainder, every digit a byte |
| Targets.TargetForDivisor | src/consensus.rs:201-221 | exactly floor(diff1 * 2^31 / divisor) for every divisor from 1 to 2^120 - 1, no step beyond 128 bits |
| Targets.MeetsExactly | src/consensus.rs:192-221 | a hash meets that target exactly when its value times the divisor is at most diff1 * 2^31 |
| Targets.TargetLimbs | src/backend/bc3.rs:42-49 | the kernel's four limbs denote the target |
| LaunchSize.HitBudget.Overflowed | src/backend/mod.rs:273-317 | the new limit and clean-launch count |
| LaunchSize.BudgetInvariant | src/backend/mod.rs:261-317 | over every run of launches the limit is never 0 |
| LaunchSize.RisesOnlyAfter64 | src/backend/mod.rs:273-317 | the limit rises only after 64 launches with headroom in a row, and then doubles |
| LaunchSize.RisesWithin64 | src/backend/mod.rs:273-317 | and it does rise within any 64 launches with headroom in a row |
| LaunchSize.SaidOnce | src/backend/mod.rs:290-317 | the message was said exactly if a launch has overflowed |
| LaunchSize.OverflowsShrink | src/backend/mod.rs:261-317 | k overflows in a row from a launch of c leave a limit of at most max(1, ceil(c / 2^k)), and exactly the limit or launch there was, halved k times rounding up, if none is smaller than the first |
| LaunchSize.StartBatchOk | src/gpu_worker.rs:581-586 | the first batch of a job is the most whole granules within bounds up to the one the last job left, or the fewest there are, for its own granule |
| LaunchSize.AutotuneOk | src/gpu_worker.rs:811-821 | the autotune keeps the batch whole granules within bounds: twice it below half the target, half of it above two and a half times, the same in between |
| LaunchSize.AutotuneSettles | src/gpu_worker.rs:811-821 | with launch times proportional to the batch, within 17 launches the time is within the band, or the batch at the bound nearest to it, and it stays there |
| Handover.NoStaleHandover | src/shared.rs:451-522 | no run leaves a stand-in asleep on a job the GPUs had while no card that counts claims it and no update is under way - if and only if the GPUs have a kernel for at most one proof of work |
| Handover.BuiltIsNeverStale | src/backend/mod.rs:329-335 | so with BC3Hash the only kernel, in every run |
| Handover.TwoKernelsGoStale | src/shared.rs:485-522 | with two, a run that does |
| Handover.NoWaiterSleepsThrough | src/shared.rs:780-824 | in every run a thread on the condvar, whatever its role, has seen the current generation of the job there, or its notify is still to come |
| Takeover.StandInDecides | src/worker.rs:76-114 | after any run a stand-in that asks about a PoW, no update on it half told, is brought by its own steps to mine exactly if no counting card claims it and the CPU has the hash |
| Takeover.WaitsForAReason | src/worker.rs:94-130 | over every run a thread waits on a generation because the GPUs had it when it asked, or for lack of the hash, or having run out, or, no stand-in, having sat it out |
| Takeover.SomeoneTakesOver | src/worker.rs:94-130 | after any run with a job no counting card claims and nobody about to say so, each thread attends to it or its own steps bring it to mine it |
| Takeover.SitsStill | src/shared.rs:780-824 | a thread that sat the present generation out sleeps |
| Handover.ClaimAccounting | src/shared.rs:255-276 | `gpu_capable` is never negative, and with no update half told it is the number of claimers and `gpus_mine` says whether one of them counts |
| Handover.StallAccounting | src/shared.rs:485-522 | over every run each slot is set aside and taken back in turn, one for one |
| Handover.SetAsideOnlyIdle | src/shared.rs:485-522 | a card is set aside only if at the time the check went by its last launch, its claim and the run of jobs were all older than the limit |
| Restoring.EveryMarkHappened | src/shared.rs:485-522 | over every run a card is set aside only with a job there and claiming the PoW then current, taken back only after a launch later than the time it was set aside for, its mark dropped only when it claims nothing |
| Restoring.SetAsideForSilence | src/shared.rs:485-522 | and only if in the limit before the check it finished no launch, began no claim and no run of jobs started |
| Restoring.ActiveIsHeard | src/shared.rs:485-522 | the times the check goes by are of such an event and no other, jobs that keep coming among them |
| Restoring.NextCheckSetsAside | src/shared.rs:485-522 | a card that claims the PoW of the job there is and is silent for the limit is set aside when the next check is over |
| Restoring.NextCheckTakesBack | src/shared.rs:485-522 | a card set aside that has finished a launch since, or claims nothing, is no longer so when the next check is over, whatever the others do |
| Restoring.ChangesAreAnnounced | src/shared.rs:485-522 | a check that sets aside or takes back, the job's PoW staying, has bumped the generation by its end |
| Handover.EveryRun | src/shared.rs:585-603 | the invariants of slot, claims, guard, waiters, marks and times in every reachable state |
| Tuner.Tuner.Launched | src/tuning.rs:312-377 | a launch's effect on target, fallback, phase and action |
| Tuner.Tuner.Switched | src/tuning.rs:392-412 | the same of an answered switch |
| Tuner.Tuner.Ready | src/tuning.rs:380-386 | the same of the target being ready |
| Tuner.Tune.Launched | src/gpu_worker.rs:165-179 | readiness first, then the launch, then the action, on the worker's fields |
| Tuner.Tune.Switched | src/gpu_worker.rs:182-194 | a failed switch wants the start window unless the tuner says otherwise |
| TuningRuns.TuningEnds | src/tuning.rs:288-412 | every tuning: at most 3 + fallbacks switches and no more counting launches than fill its phases, and over once they are spent; at the end the card is at the wanted and chosen window, a bigger one only by the last switch succeeding, and only if remembered or faster by the gain; windows gone to fit and fall |
| TuningRuns.NotOverNotStuck | src/tuning.rs:288-412 | a tuning not over waits for an answer or for a launch that counts |
| TuningAnswers.EveryCandidateTried | src/tuning.rs:288-412 | over every tuning without a remembered choice the windows asked for are the biggest that fits and the smaller ones in order, none skipped, each after the one before failed, up to the first that succeeds; over, it has tried that one against the start and ends as answers and rates have it, or every one of them has failed |
| TuningAnswers.RememberedIsGoneTo | src/tuning.rs:284-311 | a remembered window is gone straight to if it is above the start and fits, and kept if the switch succeeds; else nothing is tuned |
| TuningAnswers.SteadyIs | src/tuning.rs:355-372 | a choice is remembered exactly if neither start-window rate is over their mean by more than half the drift allowed |
| TuningRuns.WarmsUp | src/tuning.rs:312-330 | a tuning warms up for as many launches as fill that, then measures |
| TuningRuns.FillIs | src/tuning.rs:49-65 | the bound on launches is the quotient rounded up |
| TuningRuns.StrayLaunchesCountForNothing | src/tuning.rs:309-312 | runs that differ only in what launches at an unexpected window did end alike |
| TuningRuns.ThroughMeasures | src/tuning.rs:312-377 | with equal launch times the tuning is decided on the rates of exactly its first, middle and last minute of launches, whatever was in flight at the switches |
| TuningRuns.DriftMeasured | src/tuning.rs:312-377 | with equal launch times and hashes affine in the launch number, target and mean of the start window differ by the drift over the difference of the drains, exactly |
| TuningRuns.DriftCancels | src/tuning.rs:312-377 | with equal drains they are equal and the tuning stays at the start window |
| Ring.RingIsAQueue | src/backend/opencl.rs:543-592 | every run of enqueue, collect, abandon and device progress, with abandon after each failure, returns each launch's hits from its own header, target and range, on either kind of backend |
| Ring.HostMemoryFree | src/backend/opencl.rs:439-469 | the slot an enqueue fills is not in flight and no command on it is pending, so no copy reads memory that changes |
| Ring.EnqueueKeeps | src/backend/cuda.rs:499-533 | with skipped copies, what the stream will have done for the new launch is its own result, and the cache tells the truth |
| Ring.CopiesOnlyWhatChanged | src/backend/cuda.rs:499-533 | header and target are copied exactly when the slot does not hold them, which it then does |
| Ring.CollectKeeps | src/backend/cuda.rs:658-675 | collect returns the oldest launch's result |
| Ring.AbandonRecovers | src/backend/cuda.rs:681-687 | from whatever a failure left, abandon leaves a sound ring, even if the device is lost part of the way |
| RingBackend.Backend.Enqueue | src/backend/cuda.rs:630-656 | appends the launch, or refuses it untouched, or fails and is due for abandon |
| RingBackend.Backend.Collect | src/backend/opencl.rs:565-577 | the oldest launch's own result and the rest still in flight |
| RingBackend.QueuedScans | src/backend/bc3.rs:149-172 | the hits of all launches in their order, each sorted, nothing left in flight |
| RingBackend.SortedIs | src/backend/bc3.rs:157-159 | the same hits in rising order |
| Layout.BuildRows | src/tuning.rs:108-120 | the running position gives the rows of the recursive layout |
| Layout.RowsTile | src/tuning.rs:87-120 | at every window with a kernel the rows tile bits 0 to 255, only a last row with spare places |
| Layout.ScalarsCutOnce | src/tuning.rs:78-120 | every 256-bit scalar is the sum of one digit per row in exactly one way |
| Layout.SmallerTakesLess | src/tuning.rs:128-130 | table sizes rise over the windows tried |
| Layout.LargestFitting | src/tuning.rs:135-137 | the largest of the windows that fits, none only if none does |
| Tables.EntryIsAPoint | bc3hash/src/shim.cpp:42-44 | no entry b * 2^pos * P is the identity, for an odd order above b |
| Tables.GpuPointIsEntry | bc3hash/src/shim.cpp:172-212 | two multiplications by scalars below the order give b * 2^pos * P |
| Tables.Secp256k1OrderOk | bc3hash/src/shim.cpp:92-96 | the order of secp256k1 meets what the tables need of it |
| TableBuilders.CurveRow | bc3hash/src/shim.cpp:97-143 | fills exactly its slice with b * 2^(w * row) * P, zeros after the last point; a bad argument changes nothing |
| TableBuilders.CurveTable | bc3hash/src/shim.cpp:45-91 | fills a curve with the same rows, each from the one before; no sum is refused |
| TablePool.AnySchedule | bc3hash/src/lib.rs:63-93 | however the threads take turns, each computing its item place by place, the finished buffer holds every item in its slice, or a failure is said, and only after a refused item |
| TablePool.CanFinish | bc3hash/src/lib.rs:63-87 | whatever the threads have done so far, they can get done with everything, and no failure comes of that |
| TablePool.JobAt | bc3hash/src/lib.rs:76-80 | item m + 1 is row m % rows of curve m / rows |
| TablePool.GpuTables | bc3hash/src/lib.rs:51-93 | what the host returns when its threads are done is the power tables and the four curves; none only for a window outside 2 to 20 or after a refused item |
| TableBuilders.BuildTables | src/backend/cuda.rs:409-435 | the card's running offset gives the same tables |
| TableBuilders.EntryAt | src/backend/cuda.rs:445-470 | where the check looks for point b of a row there is b * 2^pos * P, never the identity |
| TableBuilders.BuildersAgree | bc3hash/src/shim.cpp:146-149 | the uniform windows' rows as the builders count them are the layout's rows |
| TablePool.BuildEveryWay | bc3hash/src/shim.cpp:92-96 | at every window from 2 to 20 the host on any finished schedule without a refusal, the card and curve by curve give one and the same table: the power tables, then b * 2^pos * P in the places of every row of every curve |
| TablePool.TablesTake | src/tuning.rs:122-137 | the bytes a window is held to need are what its tables take |
| TableBuilders.TablesSuffice | src/tuning.rs:78-130 | every 256-bit scalar times P is a sum of one table point per row at most |
| Framing.Receiver.NextLine | src/stratum.rs:53-84 | whatever the chunks and pauses, the lines delivered are the first of the stream's lines with one return removed, all of them when none is complete; refused is an incomplete line over the limit, never while all lines are up to it; delivered bytes and buffer are the bytes read, the buffer bounded |
| Framing.ShortLinesNeverRefused | src/stratum.rs:63-68 | with lines up to the limit no part of the stream leaves an over-long rest, however it is cut |
| Framing.FateOfALine | src/stratum.rs:53-84 | whatever of a line is in the buffer and whatever follows it: every way the rest can arrive, pauses included, has the same outcome if and only if the line is at most MAX_LINE_BYTES long, and delivered, or at least MAX_LINE_BYTES + 8192, and refused; in between there are reads that deliver it and reads that have it refused |
| Framing.OutcomesOfAStream | src/stratum.rs:53-84 | every way a stream can arrive gives the same lines and the same end if and only if its first complete line over the limit, if any, is over it by a whole read; they are then the lines before the first over-long one, complete or not, and its refusal |
| Framing.CutOnce | src/stratum.rs:53-84 | a stream is cut into lines and a rest in one way only |
| Framing.EndingsAlike | src/stratum.rs:53-63 | a line reads the same ended by newline or by return and newline |
| Bip34.VarintRoundTrip | src/solve.rs:106-122 | the reader's skip is the writer's length for every number, and the bytes denote it |
| Bip34.WriteHeight | src/solve.rs:127-144 | the minimal script number of the height, pushed; refused up to 16 |
| Bip34.ReadHeight | src/consensus.rs:247-284 | the height a coinbase prefix denotes, none exactly where it denotes none |
| Bip34.ReadsPush | src/consensus.rs:247-284 | a pushed height reads as what its bytes denote if they are at most four and not negative |
| Bip34.ReadsOpcode | src/consensus.rs:247-284 | heights up to 16 read from their opcodes |
| Bip34.HeightRoundTrip | src/solve.rs:176-184 | every height from 17 reads back if and only if below 2^31, whatever the text and script length; above it reads as none |
| Bip34.WriteCoinbase1 | src/solve.rs:160-184 | the coinbase up to the extranonce, written for every height above 16 and every script of 2 to 100 bytes: version 2, one input of the null outpoint, the script's length that counts what follows and the extranonces, height, text; it reads back its height |
| Calendar.CivilIsDate | src/solve.rs:480-501 | every integer day has a valid Gregorian date, and the inverse gives the day back |
| Calendar.NextDayNextDate | src/solve.rs:480-501 | consecutive days have consecutive dates |
| Calendar.EpochDate | src/solve.rs:480-501 | day 0 is 1 January 1970 |
| Calendar.CivilOfDayNumber | src/solve.rs:480-501 | every date is the date of its day number |
| Matching.DedupOpencl | src/backend/mod.rs:603-642 | keeps, in order, exactly the devices on their card's winning platform, whatever order the counts are visited in |
| Matching.LargestCountKept | src/backend/mod.rs:603-642 | of each card the largest per-platform count is kept, from one platform, the lowest that has so many |
| Matching.DedupIdempotent | src/backend/mod.rs:603-642 | twice is once |
| Matching.PickInjective | src/backend/mod.rs:730-795 | two cards CUDA lists never share an OpenCL device |
| Matching.EachGetsItsName | src/backend/mod.rs:730-795 | with as many devices of a name as cards of it, each card of it gets one |
| Matching.PicksInOrder | src/backend/mod.rs:730-795 | the r-th card of a name gets the r-th device of it |
| Matching.VanishedGetsNone | src/backend/mod.rs:730-795 | a vanished card gets none unless exactly one card is left |
| Matching.SharedExactlyWhen | src/backend/mod.rs:730-795 | two different cards are given one device if and only if a single card is listed, not both are it, there is a fallback device, and the listed one has no device of its name or has that one first |
| Matching.PickInList | src/backend/mod.rs:730-795 | a device picked is one of the list |
| Matching.VanishedCanCollide | src/backend/mod.rs:730-795 | a case in which they are |
| Streaming.RejectLog.Reject | src/stratum.rs:191-198 | per reason, rejects seen are rejects said, summarised and held, over every run; the first of a reason is said and opens a window at that time, further ones are held in it; every two lines of a reason are a window apart |
| Streaming.RejectLog.Due | src/stratum.rs:202-220 | exactly the windows that are over with rejects held give a summary and begin again, those over and empty go, the others stay; what was held is summed up or still held |
| Streaming.Outstanding.Sent | src/stratum.rs:139-148 | the queue is the table of requests, pruned by age at each send |
| Streaming.Outstanding.Answered | src/stratum.rs:152-157 | the round trip of a request in the table, once |
| Streaming.ShareRate.PerMinute | src/stats.rs:36-48 | the rate's base is the newest sample at least a minute old, or the start, and the rate times the time since is the shares since |

## Left out

- The hash functions, secp256k1 itself and the kernels: arbitrary functions, or multiples of a generator.
- Rig.ExactlyOnce: extranonce2 sizes 8 and up, where every counter fits and the counters saturate, and spaces that return after being left.
- CpuMining.Thread.MineJob: rigs of more than 2^64 - 2^56 workers, where a counter's stride could saturate below the limit.
- Targets.TargetForDivisor: the rounding of a pool's floating-point difficulty to the scaled divisor; the divisor is the input.
- TuningRuns.TuningEnds: floating-point rounding of rates, which are real numbers, and windows set by hand with the internal tools; the tuner appears in the GPU worker's loop only as a reason for a job to end. A failed switch is taken to leave the card at the start window; that loading it again can fail too, which takes the card off the proof of work, is not modelled, nor is a device reopened in the middle of a tuning, which loads the wanted window afresh.
- GpuMining.Worker.Finish: the float rounding of the projected launch time, which is rounded down to a nanosecond here.
- LaunchSize.AutotuneSettles: cards whose launch times are not proportional to the batch.
- Takeover.SomeoneTakesOver: that threads get to run at all; it says where their own steps lead.
- Handover: memory orders weaker than sequential consistency and the announcements to the user; the shared fields are one value updated step by step, since their methods interleave.
- Ring.RingIsAQueue: the hit list's truncation at its capacity, event timing, and calls after a failure without an abandon.
- TableBuilders: limbs and coordinates of points; a place is 8 words, and the power tables are opaque parts.
- Framing.Receiver.NextLine: the replacement of invalid UTF-8.
- Sockets, JSON, session dispatch, the backoff and the hashrate report of src/stratum.rs; coinbase outputs and `assemble` of src/solve.rs.
- The tuning file: a remembered choice is an input, and may be any.
- Device selection by the user, driver checks, machine-code picking: they would only add easy members.
- Telemetry, IPC, crash reports, the benchmark, the GUI, WebAssembly and build scripts.
