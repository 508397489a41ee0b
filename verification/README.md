# Adreno graphics kernel: preemption, command streams, firmware and crash scripts

This project models the parts of Qualcomm's Adreno kernel driver in which many things have
to fit together, and proves what they promise.

**Preemption (A5XX).** Several priority rings share one command processor (CP). The driver
picks the highest-priority ring with work, writes its preemption record and the SMMU info,
and asks the CP to switch; the switch completes through an interrupt, a dispatcher pass or
a timeout worker, while submitters publish write pointers. `PreemptModel` is a state
machine over the driver's state, the memory shared with the CP, a small CP model and any
number of threads; `PreemptInvariant` has one invariant that every step keeps;
`PreemptTheorems` and `PreemptPagetables` state the promises over every run; `PreemptDevice`
has the driver's functions as methods, each proved to be a run of one thread's protocol steps;
`PreemptRace` takes the publication of a write pointer apart into its test and its write.

**Command streams (A5XX and A3XX).** `Pm4` has the packet headers and a parser, `Parity`
their parity bits, `CommandProcessor` says what each packet does and proves that streams
compose, `Reservations` and `Ringbuffer` have the wrapping ring. `A5xx*` and `A3xx*` write the frames, context switches and lists of
indirect buffers, each writer proved against the events it is to cause; both refine the
one plan in `IndirectBuffers`. `StreamEffects`, `A5xxEffects`, `A5xxPayloads` and `A3xxEffects`
follow what a submission leaves behind: timestamps, interrupts, preemption settings,
protection, profiles; `A5xxRetirement` and `A3xxRetirement` follow the timestamps over runs. `A3xxSmmu` and `A3xxSafety` follow the memory interface
while the CP changes its own pagetable. `PreemptBridge` proves that the A5XX words are the
ops that `PreemptModel` reasons about. `RingLife`, `A5xxRuns` and `A3xxSafety` follow whole
runs of submissions with the CP executing in between.

**Firmware and crash scripts.** `Firmware` (block headers, register files), `FirmwareFormat`
(the formats written from their parts), `RegSequence`
(the register sequence interpreter), `GpmuLoad` (microcode to packets), `CrashScript`,
`CrashDump`, `CrashReader` and `CrashContents` (the two-pass script builder, the dumper that
executes the script, the readers, and what the buffer holds for every table).

**Arithmetic.** `AhbTimeout` and `CounterDelta`.

Assumptions about what is not code in the repository:

- In `PreemptModel` each `preempt_lock` critical section is atomic, and so are the TRIGGERED
  store together with the write to CNTL. The lock alone does not make the test for NONE and
  the write of RB_WPTR one step: the interrupt handler's own trigger pass can move the state
  on while it looks at rings of higher priority. `PreemptRace` states exactly when the write
  still hits the running ring. A reset happens while no thread is inside the preemption code.
- The CP executes the running ring up to RB_WPTR. With CNTL set, when it is idle, just past
  a yield, or at a user buffer, it may save its write pointer in the running ring's record,
  load the restore record and (with per-process pagetables) the SMMU info, and clear CNTL.
  It reports its read pointer to scratch memory at any time while it runs a ring.
- Ring positions in the preemption model are unbounded; `Ringbuffer` and `PreemptBridge`
  connect them to the wrapping ring.
- What a submission finds when it asks for space (the fault state, the CP's reported position
  and the write position) is an input of each submission in the preemption model;
  `PreemptBridge` takes it from the real call.
- A pagetable is known by its TTBR0. The kernel's own buffers, the profiler's and the
  profiling slots, are not among a user's buffers.
- The A3XX memory interface acknowledges a halt that was requested, and a TLB invalidate
  that was started and synchronised is over when its status bit reads zero.
- The CP stores the words of a memory write and the value of a time stamp event at their
  addresses, and refuses register writes while protection is on. The A3XX's lazy shader
  updates are done once a flush event is followed by an idle wait, and its prefetch is stalled
  by a buffer, an idle wait and a wait for the CP's own engine, in this order.
- The crash dumper reads as many registers as the low 21 bits of an entry say, and takes
  bit 21 as a write.
- `HZ_PER_MHZ` is 1000000.

Where the code and its comments or callers disagree, the model follows the code:

- `_load_gpmu_firmware` returns zero for images it refuses before or after the header check
  (`GpmuLoad.ZeroMeansLoaded`).
- The register sequence's "64 bit" writes reach the device with 32 bits of address and value
  (`RegSequence.WholeWrite`).
- A context switch's result is dropped, so a command runs under the table of the last switch
  that had one to load and found space, which need not be its own
  (`PreemptPagetables.UserRunsUnderHeldTable`, `A3xxSafety.EachCommandRunsUnder`).
- A submission that overlaps the end of a trigger pass stays invisible until the next pass
  (`PreemptTheorems.PublishedWorkVisible`).
- The preemption state can move on, and the CP switch, between the test for NONE and the
  write of RB_WPTR, although the ring's lock is held (`PreemptRace.SplitPublication`).
- Without preemption, a submission returns OK although nothing is published when the position
  report after it finds no space (`A5xxRingbuffer.Deliver`, `A5xxRingbuffer.AddCmds`).
- The register file loader takes an LM sequence left by an earlier file for the file's own
  (`Firmware.RegisterFile.LoadRegfile`).
- On the A3XX the profiler's buffer behind a payload runs after the flush that is to leave
  nothing pending at the timestamp (`A3xxEffects.FlushedFirst`).
- The space check of a reservation is a 32-bit sum (`Ringbuffer.GrantFits`).
- The AHB timeout's lower limit is compared with a sign-extended shift
  (`AhbTimeout.TimeoutIsLongEnough`).
- A wrapped counter loses one tick, and an interval from a stored zero is lost
  (`CounterDelta.Accounting`).

`dafny verify dfyconfig.toml` checks the whole project.

## Model

| member | source | states |
|---|---|---|
| PreemptInvariant.InvNext | qcom/opensource/graphics-kernel/adreno_a5xx_preempt.c:18-317 | every step of every thread, of the CP and of the submitters, and every reset, keeps one invariant over rings, records, shared words, preemption state and thread positions |
| PreemptInvariant.InvRun | qcom/opensource/graphics-kernel/adreno_a5xx_preempt.c:18-317 | the invariant holds after any run of such steps |
| PreemptInvariant.InitialInv | qcom/opensource/graphics-kernel/adreno_a5xx_preempt.c:412-461 | a freshly started device satisfies it |
| PreemptInvariant.InvReset | qcom/opensource/graphics-kernel/adreno_a5xx.c:1811-1832 | restarting all rings, on the ring the CP was found on, keeps it |
| PreemptInvariant.InvSwitch | qcom/opensource/graphics-kernel/adreno_a5xx_ringbuffer.c:373-398 | a context switch, whether or not its submission found space, keeps it |
| PreemptInvariant.InvCpSwitch | qcom/opensource/graphics-kernel/adreno_a5xx_preempt.c:249-252 | the CP's own switch at a yield point keeps it, loading record and SMMU info of the next ring |
| PreemptTheorems.RunningRingAgrees | qcom/opensource/graphics-kernel/adreno_a5xx_preempt.c:58-93 | in every reachable state driver and CP agree on the running ring: the current one in NONE and START, and in flight the current or the next one according to CNTL |
| PreemptTheorems.WptrWritesHitTheRunningRing | qcom/opensource/graphics-kernel/adreno_a5xx_preempt.c:18-43 | any driver step that changes RB_WPTR, from submission, adoption or completion, writes the write pointer of the ring the CP is running |
| PreemptTheorems.OneOwner | qcom/opensource/graphics-kernel/adreno.h:1768-1772 | across all interleavings of interrupt, timer, worker and dispatcher at most one thread is past a compare-and-swap or state test |
| PreemptTheorems.InFlightHasTarget | qcom/opensource/graphics-kernel/adreno_a5xx_preempt.c:178-252 | while a switch is in flight there is a next ring and it differs from the current one |
| PreemptTheorems.OneRotationPerTrigger | qcom/opensource/graphics-kernel/adreno_a5xx_preempt.c:260-299 | the completed switches are a prefix of the triggered ones, at most one shorter, and the one in flight is (current, next) |
| PreemptTheorems.NeverStuck | qcom/opensource/graphics-kernel/adreno_a5xx_preempt.c:81-83 | no thread ever rotates through a null next_rb |
| PreemptTheorems.PrevIsLeft | qcom/opensource/graphics-kernel/adreno_a5xx_preempt.c:80-83 | in every reachable state prev_rb is the ring the last completed switch left, and cur_rb the one it went to |
| PreemptTheorems.ResetRetires | qcom/opensource/graphics-kernel/adreno_dispatch.c:2024-2040 | recovery counts everything queued on the ring that hung as started and retired, and on the others exactly what had started or retired |
| PreemptTheorems.PointerOrder | qcom/opensource/graphics-kernel/adreno_a5xx_preempt.c:18-43 | for every ring: shadow read pointer <= read pointer <= write pointer visible to the CP <= published write pointer <= written |
| PreemptTheorems.QuietPassEndsInNone | qcom/opensource/graphics-kernel/adreno_a5xx_preempt.c:182-204 | a pass during which nothing was published ends in NONE only with RB_WPTR at the current ring's write pointer and every ring of higher priority (every ring, if none was found) empty |
| PreemptTheorems.QuietPassEndsInTriggered | qcom/opensource/graphics-kernel/adreno_a5xx_preempt.c:206-252 | or in TRIGGERED with next the lowest-numbered non-empty ring, different from the current one, its record holding its write pointer |
| PreemptTheorems.PublishedWorkVisible | qcom/opensource/graphics-kernel/adreno_a5xx_ringbuffer.c:85-94 | with no trigger in progress RB_WPTR covers all published work of the current ring if and only if no publication to it happened outside NONE since RB_WPTR was last updated |
| PreemptTheorems.OverlappedPassLeavesWorkBehind | qcom/opensource/graphics-kernel/adreno_a5xx_preempt.c:195-203 | a concrete run in which a submission between a pass's update and its return to NONE stays invisible to the CP |
| PreemptTheorems.TimestampOrder | qcom/opensource/graphics-kernel/adreno.c:2927-2980 | for every ring and run: retired <= consumed <= queued, across preemptions, refused submissions and resets |
| PreemptPagetables.TableMatchesScratch | qcom/opensource/graphics-kernel/adreno_a5xx_preempt.c:214-240 | wherever the CP may switch away its TTBR0 is the running ring's scratch value |
| PreemptPagetables.SmmuMatchesTarget | qcom/opensource/graphics-kernel/adreno_a5xx_preempt.c:227-233 | in every reachable state in which the CP has yet to switch, the SMMU info holds the next ring's scratch value |
| PreemptPagetables.UserOpFate | qcom/opensource/graphics-kernel/adreno_a5xx_ringbuffer.c:373-398 | every user op of every ring was submitted by the action of the run, with no reset since, between whose ring lengths before and after the op lies, and executes under the table the ring held just before that action, whatever was refused |
| PreemptPagetables.FateIsUnique | qcom/opensource/graphics-kernel/adreno_a5xx_ringbuffer.c:373-398 | no other action of the run can be meant: the action that submitted an op is the only one |
| PreemptPagetables.UserRunsUnderHeldTable | qcom/opensource/graphics-kernel/adreno_a5xx_ringbuffer.c:335-398 | whenever the CP executes a user buffer, exactly one action of the run submitted it, with no reset since, and TTBR0 is the table of the ring's last context switch before that action, and since the last reset, that missed its table and found space; the buffer runs under its own context's pagetable if and only if that is it |
| PreemptPagetables.UserRunsUnderItsPagetable | qcom/opensource/graphics-kernel/adreno_a5xx_ringbuffer.c:335-398 | so if every context switch of that ring between the last reset and a buffer's submission that missed its table found space, a buffer of a context with its own pagetable runs under it |
| PreemptPagetables.SwitchExact | qcom/opensource/graphics-kernel/adreno_a5xx_ringbuffer.c:390-397 | after a switch on any ring, whatever was refused before, the ring is under the context's own pagetable if and only if it was already, or the table was missing and the reservation finds space |
| PreemptPagetables.RefusedSwitchRunsUnderTheWrongPagetable | qcom/opensource/graphics-kernel/adreno_a5xx_ringbuffer.c:390-397 | a concrete run in which a refused switch makes a context's command run under the default pagetable |
| PreemptPagetables.RefusalOutlivesTheNextSwitch | qcom/opensource/graphics-kernel/adreno_a5xx_ringbuffer.c:344-346 | after a refused switch a later context with the same pagetable finds space and still loads nothing |
| PreemptDevice.Device.MovePreemptState | qcom/opensource/graphics-kernel/adreno.h:1768-1772 | moves the state exactly when it was the expected one |
| PreemptDevice.Device.RingbufferSubmit | qcom/opensource/graphics-kernel/adreno_a5xx_ringbuffer.c:85-94 | the critical section is the protocol's publication step |
| PreemptDevice.Device.UpdateRbWptr | qcom/opensource/graphics-kernel/adreno_a5xx_preempt.c:18-43 | leaves RB_WPTR at the current ring's write pointer |
| PreemptDevice.Device.NextRingbuffer | qcom/opensource/graphics-kernel/adreno_a5xx_preempt.c:147-166 | finds the lowest-numbered ring that has work, or that none has |
| PreemptDevice.Device.PreemptionTrigger | qcom/opensource/graphics-kernel/adreno_a5xx_preempt.c:168-253 | runs as protocol steps of one thread; undisturbed it ends in NONE, with RB_WPTR updated, or in TRIGGERED at the highest-priority ring with its record and SMMU info written, or changes nothing when not in NONE |
| PreemptDevice.Device.PreemptCallback | qcom/opensource/graphics-kernel/adreno_a5xx_preempt.c:255-300 | runs as protocol steps; ignores the interrupt unless TRIGGERED, hands a race to the worker, else rotates the rings once and makes a trigger pass with that pass's outcome |
| PreemptDevice.Device.PreemptionDone | qcom/opensource/graphics-kernel/adreno_a5xx_preempt.c:45-94 | runs as protocol steps; does nothing without power, reports a fault if CNTL is set, else rotates once and returns to NONE |
| PreemptDevice.Device.PreemptionSchedule | qcom/opensource/graphics-kernel/adreno_a5xx_preempt.c:302-317 | completes a COMPLETE switch, if the CP has finished it, and makes one trigger pass, with that pass's outcome |
| PreemptDevice.Device.PreemptionFault | qcom/opensource/graphics-kernel/adreno_a5xx_preempt.c:96-127 | moves to COMPLETE if there is power and CNTL is clear, else reports a fault and leaves the state |
| PreemptDevice.Device.PreemptionWorker | qcom/opensource/graphics-kernel/adreno_a5xx_preempt.c:129-144 | acts in FAULTED only: COMPLETE if the CP did finish, else a fault |
| PreemptDevice.Device.PreemptionTimer | qcom/opensource/graphics-kernel/adreno_ringbuffer.c:158-171 | moves TRIGGERED to FAULTED and only then queues the worker |
| PreemptRace.SplitPublication | qcom/opensource/graphics-kernel/adreno_a5xx_ringbuffer.c:85-94 | with testing and writing apart, and anything in between that does without the ring's lock, a write that was let through hits the running ring if and only if the CP has not switched in between; then, or if the test failed, the invariant is kept |
| PreemptRace.Interleaved | qcom/opensource/graphics-kernel/adreno_a5xx_preempt.c:147-253 | while a ring's lock is held, from the test on, the ring stays current and running until the CP switches, and once it has the ring neither runs nor becomes a target |
| PreemptRace.LateWriteHitsAnotherRing | qcom/opensource/graphics-kernel/adreno_a5xx_ringbuffer.c:85-94 | a concrete run in which the handler's own pass and a CP switch fall between test and write, and RB_WPTR is set past everything another ring holds |
| PreemptBridge.SubmissionIsABlock | qcom/opensource/graphics-kernel/adreno_a5xx_ringbuffer.c:138-287 | what the CP executes for an A5XX submission, seen at one ring's addresses, is one protocol block: start timestamp, payload, end timestamp, yield |
| PreemptBridge.SwitchIsItsPayload | qcom/opensource/graphics-kernel/adreno_a5xx_ringbuffer.c:335-371 | a context switch's stream is the protocol's table and scratch updates, exactly when the protocol says they are needed |
| PreemptBridge.CommandIsUserOps | qcom/opensource/graphics-kernel/adreno_a5xx_ringbuffer.c:414-499 | a command's stream is one user op for each buffer of its plan |
| PreemptBridge.SwitchRefinesProtocol | qcom/opensource/graphics-kernel/adreno_a5xx_ringbuffer.c:373-398 | a context switch has the protocol's words, outcome, timestamp and active context, and its ops are appended exactly when it is delivered |
| PreemptBridge.CommandRefinesProtocol | qcom/opensource/graphics-kernel/adreno_a5xx_ringbuffer.c:414-530 | a command of an attached context has the outcome and timestamp of the protocol's user submission, and its ops are appended exactly when it is delivered |
| PreemptBridge.DeliveredOps | qcom/opensource/graphics-kernel/adreno_ringbuffer.c:68-105 | delivery into the wrapping ring appends a stream's ops to those the CP still has to perform |
| A5xxRuns.RunDelivers | qcom/opensource/graphics-kernel/adreno_a5xx_ringbuffer.c:414-530 | through any commands, refused or not, with the CP executing between and within them, with and without preemption, what the CP has executed and still has to, words that wait to be published included, is exactly what the calls delivered, in order, with the position reports |
| A5xxRuns.RunFollows | qcom/opensource/graphics-kernel/adreno_a5xx_ringbuffer.c:373-530 | with preemption the protocol's ring, taken through the protocol's steps for the same calls, has after each turn received exactly the ops of everything delivered, and has the real ring's timestamp and active context |
| A5xxRuns.WhatTheCpPerformed | qcom/opensource/graphics-kernel/adreno_a5xx_ringbuffer.c:373-530 | from an empty ring, what the CP has executed at any time is some whole bursts and the beginning of one more, and seen as ops it is the beginning of the protocol's ring |
| A5xxRuns.TurnIsTwoSteps | qcom/opensource/graphics-kernel/adreno_a5xx_ringbuffer.c:414-530 | a call's effect on the protocol's ring is the protocol's switch action followed by its enabled user action |
| A5xxRuns.WhoGetsIn | qcom/opensource/graphics-kernel/adreno_a5xx_ringbuffer.c:373-530 | a context that is not active and is detached or not to be referenced is refused without a trace; any other becomes active, and its command's status is decided by detachment, fault and space in this order |
| A5xxRuns.ActiveWasLetIn | qcom/opensource/graphics-kernel/adreno_a5xx_ringbuffer.c:373-398 | in every run the driver took a reference to whatever context is active, undetached, or it was active from the start |
| A5xxRetirement.EverythingRetires | qcom/opensource/graphics-kernel/adreno_a5xx_ringbuffer.c:138-287 | in every run, once the CP has executed everything, the end timestamp of every context is that of its last command that was delivered, the ring's that of its last submission, and all others are unchanged |
| A5xxRetirement.StartedBeforeEnded | qcom/opensource/graphics-kernel/adreno_a5xx_ringbuffer.c:184-260 | at any time of any run a context's end timestamp shows how far its commands had got after some turn, and its start timestamp the same or the next |
| A5xxRetirement.SubmissionInOrder | qcom/opensource/graphics-kernel/adreno_a5xx_ringbuffer.c:184-260 | at any point of a submission an end timestamp is new only if the start timestamp is |
| RingLife.LifeGives | qcom/opensource/graphics-kernel/adreno_ringbuffer.c:68-105 | whatever deliveries and CP executions alternate on a ring, what was executed and what is pending are the deliveries joined in order |
| Pm4.OddParityBit | qcom/opensource/graphics-kernel/adreno_pm4types.h:192-198 | makes the number of set bits odd |
| Parity.TableIsOddParity | qcom/opensource/graphics-kernel/adreno_pm4types.h:192-198 | the driver's expression is, for every 32-bit value, the bit that makes the number of set bits odd |
| Parity.ParityTableIsOddParity | qcom/opensource/graphics-kernel/adreno_pm4types.h:192-198 | the nibble-table expression is the complement of the exclusive or of all 32 bits |
| Pm4.HeaderRoundTrip | qcom/opensource/graphics-kernel/adreno_pm4types.h:205-268 | every header built for a valid packet passes its own type's test, and gives back its size, opcode and register |
| Pm4.ParsePacket | qcom/opensource/graphics-kernel/adreno_pm4types.h:205-268 | a packet in front of a stream parses as that packet and then the stream |
| Pm4.ParseConcat | qcom/opensource/graphics-kernel/adreno_pm4types.h:205-268 | a whole stream followed by another parses as one after the other |
| CommandProcessor.ParseFlatten | qcom/opensource/graphics-kernel/adreno_pm4types.h:205-268 | parsing undoes writing packets one after the other |
| CommandProcessor.MeaningConcat | qcom/opensource/graphics-kernel/adreno_pm4types.h:205-268 | what two streams do in sequence is what each does |
| CommandProcessor.Put | qcom/opensource/graphics-kernel/adreno_pm4types.h:205-230 | appending a packet appends its events and its length |
| Ringbuffer.Ring.AllocSpace | qcom/opensource/graphics-kernel/adreno_ringbuffer.c:68-105 | grants exactly if there is a usable place for the window, or the 32-bit sum wraps; changes nothing but _wptr and the filler header at the old write position |
| Ringbuffer.GrantedExactly | qcom/opensource/graphics-kernel/adreno_ringbuffer.c:68-105 | a request is granted if and only if a window of its size can start at the write position, or at the ring's start when nothing is unread there, clear of the last two words and of everything a CP anywhere behind has to read, and without reaching the CP's reported position; where writing goes on is preferred |
| Ringbuffer.ReadsOnTheWay | qcom/opensource/graphics-kernel/adreno_ringbuffer.c:68-105 | what a CP reads depends on each of the cells on its way, and on no others |
| Ringbuffer.GrantFits | qcom/opensource/graphics-kernel/adreno_ringbuffer.c:75-102 | a granted window lies in the buffer clear of unread words if and only if the 32-bit sum did not wrap |
| Ringbuffer.HugeRequestGranted | qcom/opensource/graphics-kernel/adreno_ringbuffer.c:78-81 | a request for nearly 2^32 words is granted |
| Ringbuffer.GapIsSkipped | qcom/opensource/graphics-kernel/adreno_ringbuffer.c:89-94 | the filler spans to the end of the ring and executes as nothing, in either packet format |
| Ringbuffer.UnreadGrows | qcom/opensource/graphics-kernel/adreno_ringbuffer.c:68-105 | filling a window and giving the rest back appends exactly the gap and the words to what a CP anywhere behind reads |
| Ringbuffer.AppendedMeaning | qcom/opensource/graphics-kernel/adreno_ringbuffer.c:68-105 | and therefore appends exactly what the words do |
| Ringbuffer.Ring.Insert | qcom/opensource/graphics-kernel/adreno_a5xx_ringbuffer.c:276-281 | reserve, store, give back: a refusal changes nothing, a grant appends the words for every possible CP position |
| A5xxRingbuffer.PreIbsubmit | qcom/opensource/graphics-kernel/adreno_a5xx_preempt.c:319-392 | at most 14 words with exactly the events of the preemption prologue, for every style |
| A5xxRingbuffer.PostIbsubmit | qcom/opensource/graphics-kernel/adreno_a5xx_preempt.c:394-410 | a yield with preemption, nothing without |
| A5xxRingbuffer.WriteBefore | qcom/opensource/graphics-kernel/adreno_a5xx_ringbuffer.c:165-205 | at most 32 words with exactly the events before the payload, in order, for every flag combination |
| A5xxRingbuffer.WriteAfter | qcom/opensource/graphics-kernel/adreno_a5xx_ringbuffer.c:210-278 | at most 29 words with exactly the events after the payload, for every flag combination |
| A5xxRingbuffer.WriteFrame | qcom/opensource/graphics-kernel/adreno_a5xx_ringbuffer.c:136-278 | frame words never exceed the 64 that are reserved, so the give-back cannot underflow |
| A5xxRingbuffer.Submit | qcom/opensource/graphics-kernel/adreno_a5xx_ringbuffer.c:62-97 | publishes _wptr; with sync it first appends a position report or fails with -ENOSPC and publishes nothing |
| A5xxRingbuffer.AddCmds | qcom/opensource/graphics-kernel/adreno_a5xx_ringbuffer.c:138-287 | the status is ENOENT, EPROTO or ENOSPC exactly under its condition in this order, the timestamp advances even without space, nothing else changes on failure, and on success the framed payload is delivered and published; without preemption it returns OK and publishes nothing exactly when the position report after it finds no space |
| A5xxRingbuffer.Deliver | qcom/opensource/graphics-kernel/adreno_a5xx_ringbuffer.c:276-284 | a grant appends the words, and the position report exactly if there is no preemption and it finds space, for every CP position behind; publication fails only then |
| A5xxRingbuffer.RingDelivers | qcom/opensource/graphics-kernel/adreno_a5xx_ringbuffer.c:138-287 | the CP executes what it had, then the submission, then the position report if one was written |
| A5xxRingbuffer.FramingRestoresModes | qcom/opensource/graphics-kernel/adreno_a5xx_ringbuffer.c:165-278 | a mode-neutral payload runs in the modes its flags ask for, the whole parses as whole packets, and the CP ends protected and not secure |
| A5xxEffects.SubmissionTimestamps | qcom/opensource/graphics-kernel/adreno_a5xx_ringbuffer.c:184-260 | after a submission both timestamp words of its ring hold the ring's timestamp, both of its context the command's, and those of all other contexts and rings what they held |
| A5xxEffects.NothingRetiredEarly | qcom/opensource/graphics-kernel/adreno_a5xx_ringbuffer.c:184-260 | both start words are written before the payload begins, and no end word of anybody changes before the payload is over |
| A5xxEffects.OneInterrupt | qcom/opensource/graphics-kernel/adreno_a5xx_ringbuffer.c:240-260 | a submission raises exactly one interrupt, and not before the end timestamp it announces is in memory |
| A5xxEffects.SequenceWritten | qcom/opensource/graphics-kernel/adreno_a5xx_ringbuffer.c:231-235 | the word that shows interrupt storms ends with the next value of the sequence |
| A5xxEffects.PayloadPreemption | qcom/opensource/graphics-kernel/adreno_a5xx_preempt.c:319-392 | with preemption a payload starts with global 2 and local 1 exactly if its context's style bits are 2 and it is not secure, with 0 and 0 for every other and without a context, with yields enabled, and with the ring's record as the save address; without preemption nothing is set |
| A5xxEffects.NoWriteRefused | qcom/opensource/graphics-kernel/adreno_a5xx_ringbuffer.c:165-278 | no register write of a submission meets register protection, if its payload writes registers only where its flags turn protection off; protection is on at its end |
| A5xxEffects.EndsSettled | qcom/opensource/graphics-kernel/adreno_a5xx_ringbuffer.c:222-268 | where page faults halt the GPU no end timestamp is written while buffers may still write, and a submission that asks for it ends idle |
| A5xxSubmit.WritePagetableSwitch | qcom/opensource/graphics-kernel/adreno_a5xx_ringbuffer.c:14-50 | 18 words that do exactly the table update between two waits and write the ring's scratch entry |
| A5xxSubmit.WriteContextSwitch | qcom/opensource/graphics-kernel/adreno_a5xx_ringbuffer.c:335-371 | is 30 words with a table to load and 12 without, fits its 32 on every path, and does exactly the switch's events |
| A5xxSubmit.PutListed | qcom/opensource/graphics-kernel/adreno_a5xx_ringbuffer.c:455-467 | a skipped buffer becomes the payload of a NOP, a kept one runs |
| A5xxSubmit.PutList | qcom/opensource/graphics-kernel/adreno_a5xx_ringbuffer.c:452-469 | the loop runs the kept buffers in order in at most five words each |
| A5xxSubmit.BuildCommand | qcom/opensource/graphics-kernel/adreno_a5xx_ringbuffer.c:425-499 | has exactly the stated length, fits its allocation and does exactly the command's events: profiling, kept buffers, render mode, profiling |
| A5xxCommands.DrawQueue.Add | qcom/opensource/graphics-kernel/adreno_a5xx_ringbuffer.c:138-287 | a submission has the status its conditions give; when it is OK the payload's events are delivered in their frame, and published unless a position report is due and finds no space, and otherwise the ring is unchanged but for the timestamp |
| A5xxCommands.DrawQueue.DrawctxtSwitch | qcom/opensource/graphics-kernel/adreno_a5xx_ringbuffer.c:373-398 | each refusal under its condition; else the context becomes active, and its switch is delivered exactly when it was not active, the GPU has not faulted and the reservation for its words finds space |
| A5xxCommands.DrawQueue.SubmitCmd | qcom/opensource/graphics-kernel/adreno_a5xx_ringbuffer.c:414-530 | the context switch, if needed, and then the command, if the context was let in: each is delivered exactly under its own conditions, published unless a position report is due and finds no space, and changes nothing else otherwise; the profiling index advances in every case |
| A5xxCommands.CommandRunsThePlan | qcom/opensource/graphics-kernel/adreno_a5xx_ringbuffer.c:425-499 | for an accepted list the command runs exactly the plan between its profiling buffers |
| A5xxCommands.KeptRuns | qcom/opensource/graphics-kernel/adreno_a5xx_ringbuffer.c:455-467 | for an accepted list the kept buffers run in order with their full sizes |
| A5xxCommands.MaskIsHarmless | qcom/opensource/graphics-kernel/adreno_a5xx_ringbuffer.c:466-467 | the 20-bit mask keeps a size exactly for sizes up to 0xFFFFF dwords |
| A5xxPayloads.ProfileBrackets | qcom/opensource/graphics-kernel/adreno_a5xx_ringbuffer.c:425-495 | the started counter is stored before any of the command's buffers has run and the retired one after all of the plan has, each at its own address, and no other address gets one |
| A5xxPayloads.CommandCleansUp | qcom/opensource/graphics-kernel/adreno_a5xx_ringbuffer.c:470-484 | whatever its buffers set, a command ends in no render mode and with yields as the kernel wants them |
| A5xxPayloads.CommandIsQuiet | qcom/opensource/graphics-kernel/adreno_a5xx_ringbuffer.c:425-499 | a command's own stream writes no timestamp and no register and raises no interrupt |
| A5xxPayloads.SwitchLeaves | qcom/opensource/graphics-kernel/adreno_a5xx_ringbuffer.c:335-371 | after a context switch the ring and the device name the context as current; with a table to load the CP translates with that table and context and the ring's scratch entry says so; all other entries keep their words |
| A5xxPayloads.SwitchIsQuiet | qcom/opensource/graphics-kernel/adreno_a5xx_ringbuffer.c:335-371 | a context switch writes no timestamp, raises no interrupt, and is permitted with protection off |
| A5xxPayloads.SwitchIsCoherent | qcom/opensource/graphics-kernel/adreno_a5xx_ringbuffer.c:14-50 | it ends with no cache of an older table and CP_CNTL clear, and writes the scratch entry only while CP_CNTL is set |
| A5xxPayloads.SlotsAreFresh | qcom/opensource/graphics-kernel/adreno_a5xx_ringbuffer.c:308-333 | profiles of a ring fewer than 256 apart use slots that do not overlap, inside the profile buffer |
| A5xxPayloads.ReportGoesHome | qcom/opensource/graphics-kernel/adreno_a5xx_ringbuffer.c:72-83 | a position report is stored in its own ring's entry and in no other word of the scratch entries |
| A5xxCommands.SubmissionRunsItsPayload | qcom/opensource/graphics-kernel/adreno_a5xx_ringbuffer.c:138-287 | framing runs nothing but the profiler's buffers around the payload and restores both modes |
| A5xxCommands.SwitchIsModeless | qcom/opensource/graphics-kernel/adreno_a5xx_ringbuffer.c:335-371 | a context switch sets no mode and runs no buffer |
| A5xxCommands.DeliversMeaning | qcom/opensource/graphics-kernel/adreno_a5xx_ringbuffer.c:138-287 | whatever the CP still had to execute, a delivered stream's events follow, and the position report if there is one |
| A5xxCommands.SubmittedCommandRuns | qcom/opensource/graphics-kernel/adreno_a5xx_ringbuffer.c:414-530 | end to end, with and without preemption: once delivered, the CP runs what it had, then exactly the plan between profiling buffers, and stays protected and not secure |
| IndirectBuffers.VerifyCmdobj | qcom/opensource/graphics-kernel/adreno.c:3139-3196 | accepts if and only if every object is good; else the first bad object decides the error, buffers before profiling, and wake_on_touch is cleared by commands checked up to there |
| IndirectBuffers.MarkedAlike | qcom/opensource/graphics-kernel/adreno_a5xx_ringbuffer.c:455-458 | buffers marked to be skipped never run, preambles run only in a command that asks for them, all others always, in order |
| IndirectBuffers.PlanConcat | qcom/opensource/graphics-kernel/adreno_a5xx_ringbuffer.c:452-469 | the plan of two lists is the one's and then the other's |
| IndirectBuffers.PlanInRange | qcom/opensource/graphics-kernel/adreno.c:3139-3161 | whatever of an accepted list runs is aligned, non-empty, within the process's memory and short enough for the CP |
| A3xxSmmu.PutVbifLock | qcom/opensource/graphics-kernel/adreno_a3xx_ringbuffer.c:27-52 | fourteen words that request the halt and wait for its acknowledgment |
| A3xxSmmu.PutVbifUnlock | qcom/opensource/graphics-kernel/adreno_a3xx_ringbuffer.c:54-69 | six words that release the halt |
| A3xxSmmu.PutTlbiAll | qcom/opensource/graphics-kernel/adreno_a3xx_ringbuffer.c:84-100 | eleven words that start a TLB invalidate and wait until it is done |
| A3xxSmmu.WritePagetableSwitch | qcom/opensource/graphics-kernel/adreno_a3xx_ringbuffer.c:105-156 | fifty words that do exactly the switch's events |
| A3xxSmmu.PagetableSwitchIsSafe | qcom/opensource/graphics-kernel/adreno_a3xx_ringbuffer.c:105-156 | from a calm memory interface the switch meets no hazard and ends calm with the new TTBR0 |
| A3xxSmmu.HazardFree | qcom/opensource/graphics-kernel/adreno_a3xx_ringbuffer.c:105-156 | in a stream without hazards, at every position a TTBR0 write happens while traffic is halted and a buffer only runs with traffic flowing and the TLB clean |
| A3xxEffects.SubmissionTimestamps | qcom/opensource/graphics-kernel/adreno_a3xx_ringbuffer.c:223-300 | as on the A5XX, at low 32-bit addresses: after a submission its ring's and its context's timestamps are the ones it was given, and nobody else's has changed |
| A3xxEffects.NothingRetiredEarly | qcom/opensource/graphics-kernel/adreno_a3xx_ringbuffer.c:223-300 | the start words are there when the payload begins, no end word changes before it is over |
| A3xxEffects.OneInterrupt | qcom/opensource/graphics-kernel/adreno_a3xx_ringbuffer.c:279-300 | exactly one interrupt, and not before the end timestamp it announces is in memory |
| A3xxEffects.FlushedFirst | qcom/opensource/graphics-kernel/adreno_a3xx_ringbuffer.c:258-300 | end timestamps are written with all buffers' lazy updates flushed if and only if the profiler adds no buffer behind the payload; a submission that asks for it ends idle |
| A3xxEffects.SwitchLeaves | qcom/opensource/graphics-kernel/adreno_a3xx_ringbuffer.c:319-351 | a context switch makes the context current for its ring and the device, and leaves all timestamps alone |
| A3xxEffects.SwitchIsCoherent | qcom/opensource/graphics-kernel/adreno_a3xx_ringbuffer.c:105-156 | the table is written only while prefetch is stalled, and afterwards nothing of an older table is left in state or cache |
| A3xxRingbuffer.WriteBefore | qcom/opensource/graphics-kernel/adreno_a3xx_ringbuffer.c:206-248 | at most 22 words with exactly the events before the payload |
| A3xxRingbuffer.WriteAfter | qcom/opensource/graphics-kernel/adreno_a3xx_ringbuffer.c:253-307 | at most 22 words with exactly the events after the payload |
| A3xxRingbuffer.WriteFrame | qcom/opensource/graphics-kernel/adreno_a3xx_ringbuffer.c:178-311 | at most 44 of the 55 spare words are written, so the give-back cannot underflow |
| A3xxCommands.DrawQueue.AddCmds | qcom/opensource/graphics-kernel/adreno_a3xx_ringbuffer.c:180-317 | the status is ENOENT, EPROTO or ENOSPC exactly under its condition in this order, nothing but the timestamp changes on failure, and on success the framed payload is delivered and the write pointer published |
| A3xxRingbuffer.WriteContextSwitch | qcom/opensource/graphics-kernel/adreno_a3xx_ringbuffer.c:319-351 | is 61 words with a table to load and 11 without, fits its 64 on every path, and does exactly the switch's events |
| A3xxCommands.DrawQueue.DrawctxtSwitch | qcom/opensource/graphics-kernel/adreno_a3xx_ringbuffer.c:353-378 | each refusal under its condition; else the context becomes active, and its switch is delivered exactly when it was not active, the GPU has not faulted and the reservation for its words finds space |
| A3xxRingbuffer.PutListed | qcom/opensource/graphics-kernel/adreno_a3xx_ringbuffer.c:412-422 | a skipped buffer becomes the payload of a NOP, a kept one runs at its low 32-bit address |
| A3xxRingbuffer.BuildCommand | qcom/opensource/graphics-kernel/adreno_a3xx_ringbuffer.c:393-427 | has exactly the stated length, fits its allocation and runs exactly the kept buffers in order |
| A3xxCommands.DrawQueue.SubmitCmd | qcom/opensource/graphics-kernel/adreno_a3xx_ringbuffer.c:382-458 | its status, the active context and what a CP behind it goes on to execute are the stated functions of the call and of the space it found |
| A3xxCommands.RequestServed | qcom/opensource/graphics-kernel/adreno_a3xx_ringbuffer.c:382-458 | what the two submissions of a call deliver is its burst: the switch and the command, each exactly if it was delivered |
| A3xxCommands.CommandRunsThePlan | qcom/opensource/graphics-kernel/adreno_a3xx_ringbuffer.c:412-422 | for an accepted list exactly the plan of the A5XX runs, at low 32-bit addresses |
| A3xxCommands.SubmittedCommandRuns | qcom/opensource/graphics-kernel/adreno_a3xx_ringbuffer.c:180-317 | end to end: once delivered, the CP runs what it had, the fixup, and exactly the plan between the profiler's buffers |
| A3xxSafety.SubmissionIsSafe | qcom/opensource/graphics-kernel/adreno_a3xx_ringbuffer.c:180-317 | framing adds no hazard to a payload that starts and ends calm |
| A3xxSafety.EveryRunIsSafe | qcom/opensource/graphics-kernel/adreno_a3xx_ringbuffer.c:105-156 | no sequence of requests meets a hazard, whichever switches and commands were refused |
| A3xxSafety.WhatTheCpExecuted | qcom/opensource/graphics-kernel/adreno_a3xx_ringbuffer.c:382-458 | from an empty ring, through any calls with the CP executing between and within them, what it has executed is the beginning of the calls' bursts and has met no hazard |
| A3xxSafety.WhoGetsIn | qcom/opensource/graphics-kernel/adreno_a3xx_ringbuffer.c:353-458 | who gets in, and a command's status by detachment, fault and space in this order |
| A3xxRetirement.EverythingRetires | qcom/opensource/graphics-kernel/adreno_a3xx_ringbuffer.c:180-317 | in every run, once the CP has executed everything, each context's end timestamp is that of its last command that was delivered |
| A3xxSafety.OwnsExact | qcom/opensource/graphics-kernel/adreno_a3xx_ringbuffer.c:370-377 | whatever table is loaded, a request that is let through leaves its context's own in TTBR0 if and only if it was there, or its switch has it to load and finds space |
| A3xxSafety.EachCommandRunsUnder | qcom/opensource/graphics-kernel/adreno_a3xx_ringbuffer.c:319-378 | in every run, when the CP gets to a command TTBR0 is the table of the last switch that was delivered and had one to load, so it is its context's own if and only if that is |
| A3xxSafety.EachCommandHasItsTable | qcom/opensource/graphics-kernel/adreno_a3xx_ringbuffer.c:319-378 | so if the switches with a table to load were delivered, each command of a context with its own pagetable runs under it |
| Firmware.ReadBlockHeader | qcom/opensource/graphics-kernel/adreno_a5xx.c:759-808 | accepts if and only if the header has a legal size, the sequence id where one is due, and no version field that is non-zero and too low; never reads outside the block |
| Firmware.RegisterFile.TakeBlock | qcom/opensource/graphics-kernel/adreno_a5xx.c:861-883 | steps over exactly the good blocks and records exactly the data of an LM sequence |
| Firmware.RegisterFile.LoadRegfile | qcom/opensource/graphics-kernel/adreno_a5xx.c:832-894 | terminates within the array and stops only at its end or at a bad block; records in any case the last LM sequence among the blocks walked, in place of an earlier file's; keeps the file if and only if it has six words, good blocks tile it, and an LM sequence is recorded by then, be it an earlier file's |
| Firmware.SliceIsTheData | qcom/opensource/graphics-kernel/adreno_a5xx.c:880-881 | the recorded slice is exactly the words behind the block's header up to the block's end |
| FirmwareFormat.HeaderRoundTrip | qcom/opensource/graphics-kernel/adreno_a5xx.c:759-808 | a header written from fields is accepted if and only if it has one to five, starts with a sequence number where one is due, and no version is non-zero and too low |
| FirmwareFormat.HeaderDecodes | qcom/opensource/graphics-kernel/adreno_a5xx.c:759-808 | every accepted header is written so |
| FirmwareFormat.FileRoundTrip | qcom/opensource/graphics-kernel/adreno_a5xx.c:832-894 | a register file written from sound blocks is walked to its end, and what is recorded is the data of its last LM sequence |
| FirmwareFormat.FileDecodes | qcom/opensource/graphics-kernel/adreno_a5xx.c:832-894 | every file whose blocks are walked to the end is written so |
| RegSequence.SequenceRunner.ExecuteRegSequence | qcom/opensource/graphics-kernel/adreno_a5xx.c:896-926 | performs exactly the operations of a prefix, and fails exactly when something is left, which then starts with no operation |
| RegSequence.LongestPrefix | qcom/opensource/graphics-kernel/adreno_a5xx.c:896-926 | no other list of operations encodes a longer prefix |
| RegSequence.WholeWrite | qcom/opensource/graphics-kernel/adreno_a5xx.c:905-917 | a register write reaches the device whole if and only if the upper halves of address and value are zero |
| RegSequence.DecodingIsUnique | qcom/opensource/graphics-kernel/adreno_a5xx.c:896-926 | two lists of operations that encode prefixes of the same words agree as far as the shorter goes |
| RegSequence.FileFormat | qcom/opensource/graphics-kernel/adreno_a5xx.c:896-926 | the operations' codes and the order of their words |
| RegSequence.ReplayIsExact | qcom/opensource/graphics-kernel/adreno_a5xx.c:896-926 | executing an encoded list performs exactly that list |
| GpmuLoad.CreateLoadCmds | qcom/opensource/graphics-kernel/adreno_a5xx.c:487-542 | the chunked stream fits its computed allocation, writes the microcode and nothing else, and register protection is off exactly meanwhile |
| GpmuLoad.LoadedMemory | qcom/opensource/graphics-kernel/adreno_a5xx.c:519-534 | afterwards instruction memory holds the microcode word for word and no register at or above the data memory was written |
| GpmuLoad.Gpmu.LoadFirmware | qcom/opensource/graphics-kernel/adreno_a5xx.c:549-613 | a stream is built exactly for an acceptable image whose microcode fits, and each return code is the source's |
| GpmuLoad.ZeroMeansLoaded | qcom/opensource/graphics-kernel/adreno_a5xx.c:583-605 | zero is returned without loading exactly when the outer block is unsound or the microcode too long |
| GpmuLoad.RefusedWithZero | qcom/opensource/graphics-kernel/adreno_a5xx.c:583-587 | an image of another type is refused with zero |
| GpmuLoad.MicrocodeIsNotEmpty | qcom/opensource/graphics-kernel/adreno_a5xx.c:597-598 | header size, header and microcode make up the block exactly |
| FirmwareFormat.GpmuRoundTrip | qcom/opensource/graphics-kernel/adreno_a5xx.c:575-605 | an image written from fields and microcode is loaded if and only if its header is acceptable and the microcode fits, and then it is that microcode |
| FirmwareFormat.GpmuDecodes | qcom/opensource/graphics-kernel/adreno_a5xx.c:575-605 | every image that is loaded is written so |
| FirmwareFormat.GpmuCodes | qcom/opensource/graphics-kernel/adreno_a5xx.c:575-605 | such an image is refused with an error exactly for its header; of another type it is refused with zero |
| CrashDump.SizePass | qcom/opensource/graphics-kernel/adreno_a5xx_snapshot.c:1131-1164 | the size pass computes the length of the script the write pass emits, and the number of bytes captured |
| CrashDump.InitShader | qcom/opensource/graphics-kernel/adreno_a5xx_snapshot.c:1052-1080 | a block's four banks become four selections and reads; the first bank's offset is remembered |
| CrashDump.InitHlsq | qcom/opensource/graphics-kernel/adreno_a5xx_snapshot.c:1082-1105 | one selection and one read; its offset is remembered |
| CrashDump.CrashDumper.WritePass | qcom/opensource/graphics-kernel/adreno_a5xx_snapshot.c:1183-1218 | the write pass emits exactly the script for the tables' captures and two zeros, 16 bytes more than the size pass counted, and stores each table's offset |
| CrashScript.RunScript | qcom/opensource/graphics-kernel/adreno_a5xx_snapshot.c:1052-1218 | executing a finished script stores every captured value once, in order, without gaps or overlap |
| CrashScript.RunCapture | qcom/opensource/graphics-kernel/adreno_a5xx_snapshot.c:1056-1073 | a selection and read capture what the aperture shows for that selection |
| CrashReader.DumpFillsTheBuffer | qcom/opensource/graphics-kernel/adreno_a5xx_snapshot.c:1107-1219 | after a dump the data buffer holds exactly the captured values and memory outside it is untouched |
| CrashReader.SnapshotRegisters | qcom/opensource/graphics-kernel/adreno_a5xx_snapshot.c:679-722 | emits as many whole ranges as fit, paired with the words captured for them, and never more than `remain` bytes |
| CrashReader.RegistersReadBack | qcom/opensource/graphics-kernel/adreno_a5xx_snapshot.c:679-722 | each emitted register of the register table carries the value it had when dumped |
| CrashReader.GetHlsqRegisters | qcom/opensource/graphics-kernel/adreno_a5xx_snapshot.c:796-808 | pairs each register of a set with the word captured for it |
| CrashReader.SnapshotHlsq | qcom/opensource/graphics-kernel/adreno_a5xx_snapshot.c:810-834 | emits every register set or nothing, never more than `remain` bytes |
| CrashReader.HlsqReadsBack | qcom/opensource/graphics-kernel/adreno_a5xx_snapshot.c:796-834 | with the stored offsets each HLSQ, SP or TP register carries what the aperture showed for its state type |
| CrashReader.DumpReadsBack | qcom/opensource/graphics-kernel/adreno_a5xx_snapshot.c:679-834 | from the script and offsets the builder stores, through its execution, to what both readers emit: everything is readable and every register carries what it held |
| CrashContents.DumpHoldsShaders | qcom/opensource/graphics-kernel/adreno_a5xx_snapshot.c:1052-1219 | after the script is executed each word of all four banks of every shader block is where the stored offset says, each of its own bank, and with a GPMU every register of its ranges is there |
| CrashContents.ShaderCaptured | qcom/opensource/graphics-kernel/adreno_a5xx_snapshot.c:1052-1080 | word k of bank j is what the aperture shows for that bank of the block's state type |
| CrashContents.GpmuCaptured | qcom/opensource/graphics-kernel/adreno_a5xx_snapshot.c:1151-1161 | every register of the GPMU's ranges, first and last included, follows the other ranges |
| CrashContents.EveryRegisterEmitted | qcom/opensource/graphics-kernel/adreno_a5xx_snapshot.c:679-722 | every register of a range that fits, first and last included, is emitted with its dumped value |
| AhbTimeout.TimeoutIsLargest | qcom/opensource/graphics-kernel/adreno.c:1908-1945 | a non-zero result r satisfies 2^(r+1) < cycles <= 2^(r+2), if the cycles fit 64 bits |
| AhbTimeout.TimeoutIsLongEnough | qcom/opensource/graphics-kernel/adreno.c:1934-1938 | and 2^(r+1) is at least 1000 cycles for each MHz if and only if these are at most 2^31 |
| AhbTimeout.TimeoutExact | qcom/opensource/graphics-kernel/adreno.c:1908-1945 | for cycles between the t-th power of two and the next the result is t - 1 if that power is a millisecond at least and zero if not; 30 untested for t of 31, and zero above |
| AhbTimeout.NothingToTime | qcom/opensource/graphics-kernel/adreno.c:1916-1932 | no more than one cycle gives zero |
| AhbTimeout.ListedTimeout | qcom/opensource/graphics-kernel/adreno-gpulist.h:2782-2787 | a listed GPU's clock and timeout give 19 |
| AhbTimeout.TooShortIsAccepted | qcom/opensource/graphics-kernel/adreno.c:1934-1938 | a hub clock for which the signed shift lets a too short timeout through |
| AhbTimeout.NoUnderflow | qcom/opensource/graphics-kernel/adreno.c:1944 | the final subtraction never goes below zero |
| CounterDelta.Counter.Sample | qcom/opensource/graphics-kernel/adreno.h:1693-1712 | reports the delta of two readings and stores the new one; without a register it does nothing |
| CounterDelta.Accounting | qcom/opensource/graphics-kernel/adreno.h:1693-1712 | over any sample sequence the reported sum falls short of the true ticks by exactly one for each wrap plus every interval from a stored zero |
| CounterDelta.ExactSum | qcom/opensource/graphics-kernel/adreno.h:1701-1708 | the sum never exceeds the true ticks and is exact if and only if nothing wrapped and no interval from a zero saw a tick |

## Left out

- The dispatcher's and the preemption timers' durations, tracing and logging, and memory barriers.
- Power states, clocks, regulators, active counts and GPU halts: calls whose deciding code lies elsewhere.
- `internal_timestamp` of a context, submit-time statistics and constraints: bookkeeping with no effect on the streams.
- The contents of the user profiling slots: the model has which slot runs, not the words in it.
- The order in which command words are stored: a window is built as a sequence and stored into the ring in one loop, where the source writes ring memory word by word.
- The CONTEXTIDR that travels with each TTBR0 through the SMMU info: the preemption model follows TTBR0 alone. What a context switch's stream does with it is in `A5xxPayloads.SwitchLeaves`.
- A3XX mode restoration: the power-on fixup switches protection off twice, so nothing is claimed about the mode afterwards.
- Reading back GPMU registers and shader banks: their readers' offsets are not the builder's.
- Allocation of the crash dump's buffers, of command buffers and of the microcode stream, and their failure.
- The register and block tables themselves: the crash dump is proved for any well-formed tables.
- ME_INIT, secure-buffer hibernation, the interrupt dispatch loop and the fault detectors.
- PreemptDevice.Device.RingbufferSubmit: is the critical section only; the position report before it is in `A5xxRingbuffer.Submit`.
- A5xxRingbuffer.Submit: does not model the RB_WPTR write, which is in `PreemptDevice.Device.RingbufferSubmit`.
- PreemptBridge.CommandRefinesProtocol: is for devices with preemption and for timestamps that have not wrapped at 2^32.
- A5xxRuns.RunFollows: likewise, for runs in which the timestamp does not wrap; contexts are told apart by number, as the kernel numbers live ones.
- Firmware.ReadBlockHeader: minor versions, dates, times and unknown fields only log, so the model has no result for them.
- CrashReader.SnapshotRegisters: is the path for a valid dump; the other path reads the registers directly and is not part of this model.
