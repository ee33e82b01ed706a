# A model of the MINIX 3 kernel core and boot chain

Dafny 4.11. `dafny verify dfyconfig.toml` checks everything.

Five parts of the system are modelled, each from the code as it is written.

**Message passing and scheduling** (`src/kernel/proc.c` with its callers in `system.c`, `clock.c`, `main.c`).
`KernelMachine` is a state machine whose steps are traps, interrupts, clock ticks, signals, the CLOCK
task's requeueing and the memory writes of processes. `Rendezvous` keeps, beside the process table, a history that only the
proofs read: one ticket per accepted send, one entry per delivered message, one entry per raised
signal or interrupt bit and per delivered notification. `KernelSafety` proves one invariant and which steps would break it. `KernelRuns` proves it for every
state of every run from boot in which CLOCK keeps to its program. `KernelTheorems` says what it means; `MessageSteps` and
`NoticeSteps` prove what each step does to the memory of the processes, to those that wait, to notifications and to
signals; `KernelPromises` puts both together for every run. `SchedulingPolicy` is about queues, quanta and ticks. `KernelTable` is the process table in place (`p_nextready` and
`p_q_link` chains, head and tail pointers, pointer-pointer walks), each method refining a step of the
machine. `RunQueueAudit` is `check_runqueues`.

**The packet-buffer allocator** (`src/drivers/dpeth/netbuff.c`): `PacketPool` is the partition of the pool
into blocks, `PacketRing` relates it to the size and link fields, `PacketBuffers` is the code on two arrays.

**From boot image to memory map** (`installboot.c`, `bootimage.c`, `main.c`): `BootImage` and
`BootImageFiles` write an image and take it apart; `SegmentLoader`, `ProcessLoader` and `ImageLoader` load it;
`KernelMap` is the memory map of `main()`; `LoadedImage` joins the three, and `LoadOverlap` says when one process is loaded
over another. `RawFs` and `SectorBuffer` are the
block mapping with its caches and the track buffer through which an image is read.

**The boot monitor's language and parameters** (`boot.c`, `params2params`, `get_value`): `MonitorTokens`,
`MonitorGrammar`, `BootMonitor`, `BootParams`.

**The scatter/gather copies of the DP8390 driver** (`dp8390.c`): `NicCopy`.

Places where the code does not keep a promise, each with the exact condition under which it does:

- A blocking send to oneself is not caught by the deadlock walk, which starts at the destination
  (`KernelTheorems.BlockingSendAcyclicIff`, `KernelSafety.SysCallKeepsIff`).
- `do_clocktick` requeues the expired process without looking whether it is still runnable
  (`KernelSafety.DoClocktickKeepsIff`). It always is (`KernelRuns.EveryRequeueIsSafe`): CLOCK is not preemptible and in
  the most urgent queue, device interrupts go to drivers, and clock_task requeues before it receives again.
- A receive from one process misses that process' pending notification unless it is the lowest bit of its
  chunk (`KernelTheorems.ReceiveFromBlocksIff`; `KernelTheorems.NoticeOvertaken` is a run).
- Monitor and kernel disagree on where a process is if it has an unmapped zero page, or if the header in its text
  costs it a click (`KernelMap.MapAgreesIff`).
- A process is loaded over the one before it exactly when the clicks that `a_total` sets aside, after rounding, do not cover
  the clicks that are loaded and cleared, unless the one before it is the kernel and the others go to extended memory
  (`LoadOverlap.LeftAloneIff`; `LoadOverlap.LoadedOver` gives two programs of which only one is left).
- An indirect zone whose block number wraps around to 0 is taken for a cached block (`RawFs.TransparentIff`,
  `RawFs.RunsTransparentIff`).
- A function whose body contains a parenthesis left open at the end of a line cannot be called back
  (`BootMonitor.DefineThenCallIff`).
- A parameter block of 511 or 512 bytes passes `params2params` but not the 510 bytes that `cstart` copies
  (`BootParams.KernelKnowsIff`).

`restart()` (src/kernel/mpx386.s:382-391) moves `next_ptr` to `proc_ptr` and clears it, so "the process that
runs next" is `next_ptr` if it is set and `proc_ptr` otherwise.

## Model

| member | source | states |
|---|---|---|
| WaitGraph.LockedIffCycle | src/kernel/proc.c:214-219 | the deadlock walk says yes exactly when blocking the caller on another process would close a cycle, of any length |
| WaitGraph.GroundedIsAcyclic | src/kernel/proc.c:214-219 | if every chain of senders ends, there is no cycle |
| WaitGraph.AcyclicIsGrounded | src/kernel/proc.c:214-219 | if there is no cycle every chain of senders ends, so the walk terminates |
| WaitGraph.BlockGrounded | src/kernel/proc.c:230-241 | blocking a process that the walk let through keeps every chain of senders finite |
| WaitGraph.UnblockGrounded | src/kernel/proc.c:302-304 | unblocking a sender keeps every chain finite |
| RendezvousProofs.DeliverKeeps | src/kernel/proc.c:224-229 | a direct delivery keeps the message invariant, and the one delivery it records is, unaltered, in the buffer of the addressee |
| RendezvousProofs.BlockKeeps | src/kernel/proc.c:230-241 | blocking a sender at the end of the caller queue keeps the message invariant |
| RendezvousProofs.AcceptKeeps | src/kernel/proc.c:298-308 | taking any caller off the queue keeps the message invariant, and its message, unaltered, is in the buffer of the receiver |
| RendezvousProofs.WaitKeeps | src/kernel/proc.c:315-319 | blocking in receive misses no queued sender and, for ANY, no pending notification |
| RendezvousProofs.TakeKeeps | src/kernel/proc.c:289-295 | taking a pending notification reports exactly the bits raised since the last report, in the message itself |
| RendezvousProofs.NotifyNowKeeps | src/kernel/proc.c:339-353 | a notification to a waiting process keeps the invariant and reports its bits once, in the message itself |
| RendezvousProofs.PendKeeps | src/kernel/proc.c:359-361 | a notification that must wait is announced by its bit |
| RendezvousProofs.RaiseKeeps | src/kernel/system.c:234-247 | raising a signal bit breaks nothing but the announcement that the notification then makes |
| ReadyQueues.FirstReadyIsTop | src/kernel/proc.c:552-559 | the queue scan finds the head of the first non-empty queue |
| ReadyQueues.TopIsFirstReady | src/kernel/proc.c:552-559 | whatever heads the first non-empty queue is what the scan finds |
| ReadyQueues.PolicyKeeps | src/kernel/proc.c:491-534 | the scheduling policy leaves the queues alone; a second quantum in a row costs a queue, any other wins one back, between the process' maximum and the queue above IDLE |
| ReadyQueues.EnqueueKeeps | src/kernel/proc.c:396-437 | enqueue adds exactly the given process, at its new priority, and the process chosen next is the top one |
| ReadyQueues.DequeueKeeps | src/kernel/proc.c:442-486 | dequeue removes exactly the given process and keeps the choice right even when it does not pick again |
| KernelSafety.MiniSendKeepsIff | src/kernel/proc.c:200-246 | mini_send keeps the kernel invariant on every path exactly when it does not block its caller on itself |
| KernelSafety.FindNoticeAny | src/kernel/proc.c:279-289 | for ANY, the scan finds a pending notification whenever there is one |
| KernelSafety.MiniReceiveKeeps | src/kernel/proc.c:251-323 | mini_receive keeps the kernel invariant on every path |
| KernelSafety.MiniNotifyKeeps | src/kernel/proc.c:328-362 | mini_notify keeps the kernel invariant, and pays the debt of a bit just raised |
| KernelSafety.SendRecKeepsIff | src/kernel/proc.c:167-182 | so does SENDREC, with its send half delivered, blocked or refused |
| KernelSafety.SysCallKeepsIff | src/kernel/proc.c:89-195 | a trap keeps the kernel invariant exactly when it is refused or does not block its caller on itself |
| KernelSafety.RaiseNotifyKeeps | src/kernel/system.c:234-247 | raising a bit and notifying at once keeps the invariant |
| KernelSafety.CauseSigKeeps | src/kernel/system.c:252-281 | cause_sig keeps signals, queues and messages consistent |
| KernelSafety.GetKsigKeeps | src/kernel/system/do_getksig.c:18-43 | handing a process' signals to PM keeps the invariant |
| KernelSafety.EndKsigKeeps | src/kernel/system/do_endksig.c:17-37 | the end of signal handling makes the process runnable only if nothing else holds it |
| KernelSafety.ClockHandlerKeeps | src/kernel/clock.c:157-216 | charging ticks and waking CLOCK keep the invariant |
| KernelSafety.DoClocktickKeepsIff | src/kernel/clock.c:98-125 | do_clocktick keeps the invariant exactly when the process it requeues is still runnable |
| KernelSafety.StepKeepsIff | src/kernel/proc.c:89-195 | an enabled step of the machine, restart included, keeps the invariant exactly when it is safe: no blocking send to oneself, no requeueing of a blocked process |
| KernelSafety.BootOk | src/kernel/main.c:73-167 | the boot loop establishes the invariant for every legal image, in any order |
| KernelRuns.ClockSleeps | src/kernel/clock.c:198-214 | while a preemptible process runs, CLOCK sleeps in receive(ANY) with nothing pending, and owes no requeue |
| KernelRuns.FiringStarts | src/kernel/clock.c:207-214 | a tick that uses up the quantum of a preemptible process starts CLOCK at once |
| KernelRuns.InterruptKeeps | src/kernel/system/do_irqctl.c:100-126 | an interrupt for a driver does not take the processor from CLOCK while it owes a requeue |
| KernelRuns.ClockReceives | src/kernel/clock.c:81-92 | a HARD_INT that CLOCK finds pending when it receives is about a task, which is never requeued |
| KernelRuns.ClockKeeps | src/kernel/clock.c:69-125 | every step that the program of CLOCK allows keeps what the requeue relies on |
| KernelRuns.RunIsSafe | src/kernel/proc.c:89-195 | the invariant, and what the requeue relies on, hold in every state of every run from boot in which CLOCK keeps to its program and no process blocks in a send to itself |
| KernelRuns.EveryRequeueIsSafe | src/kernel/clock.c:98-114 | in every run, whenever CLOCK comes to do_clocktick, the process it requeues is still runnable |
| KernelTheorems.ElockedIffDeadlock | src/kernel/proc.c:214-219 | mini_send returns ELOCKED exactly when blocking would make the senders cyclic |
| KernelTheorems.BlockingSendAcyclicIff | src/kernel/proc.c:214-241 | a blocking send leaves the senders acyclic exactly when the destination is not the caller |
| KernelTheorems.Conservation | src/kernel/proc.c:224-241 | accepted sends are exactly the deliveries plus the senders still blocked |
| KernelTheorems.PtrOkIff | src/kernel/proc.c:129-139 | the pointer check passes exactly when every byte of the message is in the caller's data, gap or stack |
| KernelTheorems.CarriedOutIff | src/kernel/proc.c:109-157 | a call is carried out exactly when the trap mask, the process number, the pointer, the send mask and a live destination allow it, and otherwise changes nothing |
| KernelTheorems.FindNoticeFrom | src/kernel/proc.c:279-289 | a receive from one source finds its pending notification exactly when that is the lowest bit of its chunk |
| KernelTheorems.ReceiveFromBlocksIff | src/kernel/proc.c:251-323 | a blocking receive from one process blocks exactly when no message from it is queued and no pending notification from it is the lowest bit of its chunk |
| KernelTheorems.NoticeOvertaken | src/kernel/proc.c:279-289 | a run of five booted processes, each acting by its own traps, at whose end one sleeps in a receive from another whose notification is pending |
| KernelTheorems.RequeueAfterTick | src/kernel/clock.c:207-214 | right after the tick that expired it a process is still runnable |
| KernelTheorems.MostUrgentRuns | src/kernel/proc.c:539-560 | the process that runs next is at least as urgent as every runnable one, and IDLE only if nothing else is runnable |
| MessageSteps.SendEffect | src/kernel/proc.c:224-229 | a send hands its message to a process that waits for it, whose buffer then holds it, and changes no other memory |
| MessageSteps.ReceiveEffect | src/kernel/proc.c:279-323 | a receive that returns OK has in its buffer the one message or notification that the log says, from a source it accepts, or sleeps |
| MessageSteps.NotifyEffect | src/kernel/proc.c:59-71 | a notification that is handed over carries its source, the time, and exactly the bits that are reported as its argument |
| MessageSteps.ReplyAwaited | src/kernel/proc.c:167-182 | after its send the receive half of SENDREC never finds anything: it sleeps, or fails if it may not |
| MessageSteps.SendLogged | src/kernel/proc.c:200-246 | mini_send accepts what the caller has at its pointer exactly when it returns OK, and its other results have their exact conditions |
| MessageSteps.StepCopies | src/kernel/proc.c:59-362 | every step changes memory exactly where its one new log entry says: the buffer of the process that is handed a message or notification, and nothing else |
| MessageSteps.StepAsked | src/kernel/proc.c:159-323 | every step records sends, wanted sources, buffers and SENDREC_BUSY of the running process as asked, and of nobody else |
| NoticeSteps.StepNotifies | src/kernel/proc.c:328-362 | every notification asked for is handed over or left pending, none is lost before it is, SENDREC is not interrupted by one, and the bits raised are those of the step |
| NoticeSteps.StepSignals | src/kernel/system.c:252-281 | every step changes signals and the flags that hold a process exactly as cause_sig, SYS_GETKSIG and SYS_ENDKSIG say |
| KernelPromises.EveryRun | src/kernel/proc.c:89-362 | in every state of every run: no sender cycle, no missed rendezvous, caller queues exact and in blocking order, exactly-once delivery, queued iff runnable, the head of the most urgent queue chosen, no sleep on a pending notification in receive(ANY), signal and interrupt bits held until reported, reported once, and announced until then; and every step keeps the four promises above |
| KernelPromises.OldestFirst | src/kernel/proc.c:298-308 | a receive with an acceptable sender queued gets a notification or the message of the acceptable sender blocked longest |
| KernelPromises.NoticesFirst | src/kernel/proc.c:279-295 | receive(ANY) takes a pending notification first, that with the lowest number, and clears only its bit |
| KernelPromises.HeldOrReported | src/kernel/proc.c:64-70 | a bit that was raised is still held, or has been reported since |
| KernelPromises.PmKnows | src/kernel/system.c:274-278 | in every run, while a process is SIGNALED, PM holds SIGKSIG or has received it since |
| SchedulingPolicy.EnqueueMoves | src/kernel/proc.c:491-534 | time left: head of the same queue; quantum used: tail, with a new quantum, one queue down after two quanta in a row, else one up, within the bounds; tasks stay; the chosen process is billed |
| SchedulingPolicy.DequeueMoves | src/kernel/proc.c:442-486 | one process leaves its queue, the others keep their places, priorities and quanta |
| SchedulingPolicy.ChargedIs | src/kernel/clock.c:196-206 | the running process pays if preemptible, the billed one if the running one is not billable, as many ticks as passed |
| SchedulingPolicy.TickCounts | src/kernel/clock.c:184-215 | time advances by the ticks that passed, and the running process is noted for CLOCK exactly when a timer is due or its quantum is used up |
| SchedulingPolicy.LoopSinks | src/kernel/proc.c:504-514 | n further quanta in a row take a process n queues down, at most to the one above IDLE's |
| SchedulingPolicy.TurnsRise | src/kernel/proc.c:504-514 | processes that use their quanta in turns rise a queue each time, up to their own |
| KernelTable.ProcessTable.constructor | src/kernel/main.c:47-60 | the cleared table is valid and is the machine's initial state |
| KernelTable.ProcessTable.PickProc | src/kernel/proc.c:539-560 | the loop over the queue heads sets next_ptr and bill_ptr as the machine does |
| KernelTable.ProcessTable.Sched | src/kernel/proc.c:491-534 | the policy on the table's fields, and which end of which queue |
| KernelTable.ProcessTable.Enqueue | src/kernel/proc.c:396-437 | insertion at head or tail through the links is the machine's enqueue |
| KernelTable.ProcessTable.Dequeue | src/kernel/proc.c:442-486 | removal through the links, tail included, is the machine's dequeue |
| KernelTable.ProcessTable.FindsDeadlock | src/kernel/proc.c:214-219 | the walk along p_sendto terminates and decides Locked |
| KernelTable.ProcessTable.MiniSend | src/kernel/proc.c:200-246 | state and result are those of the machine's mini_send |
| KernelTable.ProcessTable.FindPending | src/kernel/proc.c:279-289 | the chunk and bit loops find what FindNotice says |
| KernelTable.ProcessTable.FindQueued | src/kernel/proc.c:298-308 | the walk along p_q_link finds the first acceptable caller |
| KernelTable.ProcessTable.MiniReceive | src/kernel/proc.c:251-323 | state and result are those of the machine's mini_receive |
| KernelTable.ProcessTable.MiniNotify | src/kernel/proc.c:328-362 | the new state is that of the machine's mini_notify |
| KernelTable.ProcessTable.SysCall | src/kernel/proc.c:89-195 | checks, dispatch and result are those of the machine's trap, a send to oneself included |
| KernelTable.ProcessTable.CauseSig | src/kernel/system.c:252-281 | the new state is that of the machine's cause_sig |
| KernelTable.ProcessTable.GetKsig | src/kernel/system/do_getksig.c:18-43 | the scan hands out the first signalled process with its pending signals, and the new state is the machine's |
| KernelTable.ProcessTable.EndKsig | src/kernel/system/do_endksig.c:17-37 | the new state is that of the machine's do_endksig |
| KernelTable.ProcessTable.ClockHandler | src/kernel/clock.c:157-216 | the new state is that of the machine's clock tick |
| KernelTable.ProcessTable.DoClocktick | src/kernel/clock.c:98-125 | the new state is that of the machine's requeueing |
| KernelTable.ProcessTable.Startup | src/kernel/main.c:73-167 | the loop over the image and restart end in the machine's boot state |
| KernelTable.ProcessTable.Restart | src/kernel/mpx386.s:382-391 | next_ptr, if set, becomes proc_ptr and is cleared |
| RunQueueAudit.CheckRunqueues | src/kernel/debug.c:109-164 | the check passes exactly when lists, heads, tails, priorities and flags are consistent |
| RunQueueAudit.TablePassesAudit | src/kernel/debug.c:109-164 | it passes whenever the queues are linked and p_ready marks the queued processes, whatever the flags say |
| RunQueueAudit.AuditedEnqueue | src/kernel/proc.c:396-437 | the checks at the entry and the exit of enqueue pass |
| RunQueueAudit.AuditedDequeue | src/kernel/proc.c:442-486 | the checks at the entry and the exit of dequeue pass |
| PacketPool.AllocKeeps | src/drivers/dpeth/netbuff.c:33-46 | carving a block keeps the pool partitioned and its free blocks apart |
| PacketPool.FreeKeeps | src/drivers/dpeth/netbuff.c:65-76 | freeing a block keeps the partition and leaves no two free blocks side by side |
| PacketPool.AllFreedIsInitial | src/drivers/dpeth/netbuff.c:57-79 | a pool whose blocks are all free is the single initial block |
| PacketPool.EveryPoolOk | src/drivers/dpeth/netbuff.c:26-104 | after any sequence of allocations and valid frees the pool is partitioned with no overlap and coalesced |
| PacketRing.AllocWhole | src/drivers/dpeth/netbuff.c:35-36 | unlinking a block that fits exactly leaves the ring of the new partition |
| PacketRing.AllocPart | src/drivers/dpeth/netbuff.c:37-42 | carving from the top leaves the ring as it is and the size fields right |
| PacketRing.AdjacencyTests | src/drivers/dpeth/netbuff.c:66-75 | the two address comparisons see exactly the free neighbours |
| PacketRing.FreeRing | src/drivers/dpeth/netbuff.c:65-76 | joining both, either or no neighbour gives the ring of the freed partition |
| PacketRing.FreeHeaders | src/drivers/dpeth/netbuff.c:62-76 | the size and link fields after free_buff are those of the freed partition |
| PacketBuffers.FirstFitFinds | src/drivers/dpeth/netbuff.c:32-48 | once round the ring meets every free block |
| PacketBuffers.FailsOnlyWhenFull | src/drivers/dpeth/netbuff.c:47-50 | no fit means that every free block is too small |
| PacketBuffers.Search | src/drivers/dpeth/netbuff.c:32-48 | the scan terminates and finds the first fit after allocptr |
| PacketBuffers.BufferPool.constructor | src/drivers/dpeth/netbuff.c:85-104 | init_buff makes one free block and a sentinel of size 0 |
| PacketBuffers.BufferPool.AllocBuff | src/drivers/dpeth/netbuff.c:26-51 | the first fit carved from the top, or NULL with no header or pointer changed, only when no free block is big enough |
| PacketBuffers.BufferPool.FindPlace | src/drivers/dpeth/netbuff.c:62-63 | the scan terminates at the free block after which the freed one belongs |
| PacketBuffers.BufferPool.FreeBuff | src/drivers/dpeth/netbuff.c:57-79 | the block is freed and joined with its free neighbours, nothing else changes |
| BootImage.StripKeeps | src/boot/installboot.c:222-230 | stripping clears a_syms and A_NSYM, changes no other byte, and is idempotent |
| BootImage.ReadEntry | src/boot/installboot.c:284-334 | the first program of an image is read back stripped and the rest of the image is left |
| BootImage.ImageRoundTrip | src/boot/installboot.c:195-334 | extracting an image gives every program back, stripped, in order, with nothing left over |
| BootImage.Remake | src/boot/installboot.c:195-266 | the entry made of an extracted program is the same, byte for byte |
| BootImage.ImageRemake | src/boot/installboot.c:195-266 | so is an image made of all the extracted programs |
| BootImage.EntrySize | src/boot/bootimage.c:234-244 | proc_size is what make_image wrote after the header sector |
| BootImageFiles.CopyExec | src/boot/installboot.c:174-193 | n bytes copied, padded to a sector |
| BootImageFiles.MakeImage | src/boot/installboot.c:195-266 | the file written is the image of the programs |
| BootImageFiles.ExtractExec | src/boot/installboot.c:268-282 | count bytes taken, whole sectors skipped, len decreased by as much |
| BootImageFiles.ExtractImage | src/boot/installboot.c:284-334 | the loop yields what Extract does, and succeeds only with len exactly 0 |
| Clicks.UpTelescopes | src/boot/bootimage.c:371-376 | rounding a segment up and then what is left of the next is rounding their sum |
| Clicks.Align32IsUp | src/boot/bootimage.c:120 | the align macro rounds up as long as 32 bits suffice, also slightly negative sizes |
| Clicks.ClickCount | src/kernel/main.c:107-109 | the kernel's shift counts the clicks that the monitor set aside |
| SegmentLoader.RawClear | src/boot/bootimage.c:98-117 | the doubling copies clear exactly count bytes |
| SegmentLoader.CopySectors | src/boot/bootimage.c:355-370 | the copy loop takes size rounded up to its unit from size rounded up to sectors, and fails exactly when a sector is unreadable or a click would pass the limit |
| SegmentLoader.GetSegment | src/boot/bootimage.c:349-377 | the segment is in memory, zero filled to a click, nothing outside is touched, and nothing at or above the limit |
| ProcessLoader.Align32Wraps | src/boot/bootimage.c:120 | 32-bit rounding of any size, negative ones included |
| ProcessLoader.SkipIsLoad | src/boot/bootimage.c:234-244 | for every flag combination and click size, loading consumes the sectors that skipping does |
| ProcessLoader.LoadProcess | src/boot/bootimage.c:466-541 | when a program is loaded, where its segments, bss and end are, that all writes stay below the limit, and the zeros after each segment |
| KernelMap.SavedView | src/kernel/main.c:99-115 | main() reads back the load address and sizes from the saved header |
| KernelMap.MapAgreesIff | src/kernel/main.c:105-115 | text, data and end of p_memmap are where the monitor put them exactly if there is no unmapped zero page and the in-text header costs no click |
| ImageLoader.SelectedIs | src/boot/bootimage.c:219-232 | a program is selected if it has no label, if none is asked for, or if they are the same |
| ImageLoader.LoadsMeans | src/boot/bootimage.c:415-444 | an image that loads has one to PROCESS_MAX selected programs, and none for a 386 on a lesser processor |
| ImageLoader.NextHeader | src/boot/bootimage.c:425-437 | skipping programs with a wrong label stays in step with the image, and fails at its end |
| ImageLoader.LoadImage | src/boot/bootimage.c:400-555 | the loop succeeds exactly when every selected program can be read and fits, and then each has its header saved, and is resident unless a later one is loaded over it |
| LoadedImage.ImageFollows | src/boot/installboot.c:236-253 | the monitor finds every program at the sector where make_image put it |
| LoadedImage.PlanIsWanted | src/boot/bootimage.c:433-437 | processes are the programs with the right label, in image order |
| LoadedImage.PlacedIsInMemory | src/boot/bootimage.c:484-513 | what was taken from sectors are text and data of the program file, and zeros |
| LoadedImage.MapCovers | src/kernel/main.c:105-115 | with stacks and clicks of 1024 bytes, a p_memmap on which monitor and kernel agree covers all that is loaded and cleared exactly when the clicks set aside do |
| LoadedImage.MapPointsAt | src/kernel/main.c:105-115 | a p_memmap on which they agree points at the text and data of the program |
| LoadedImage.ExecImage | src/boot/bootimage.c:379-555 | of an image that make_image wrote, every selected program has its header saved, and if it is not loaded over it is in memory byte for byte, and the p_memmap that main() makes from the header points at it |
| LoadOverlap.LeftAloneIff | src/boot/bootimage.c:484-545 | a process is not loaded over exactly when the first later one with anything to load starts at or above its end; for the very next one: when the rounded room set aside covers the rounded segments, or it is the kernel and the others go high |
| LoadOverlap.LoadedOver | src/boot/bootimage.c:507-528 | two programs, wherever the first is loaded, of which the second goes to the same address, so that no memory holds both |
| RawFs.PlaceFits | src/boot/rawfs.c:237-268 | every block of a sound file has its place within the indirect blocks |
| RawFs.MappedIsListed | src/boot/rawfs.c:218-285 | block n of a file is where the list of its zones has it, direct, single and double indirect in order, and a hole behind zone 0 |
| RawFs.FetchIff | src/boot/rawfs.c:256-260 | a fetch through the cache gives the block on disk, whatever is cached, exactly when it is not block 0 |
| RawFs.CachesAreTransparent | src/boot/rawfs.c:218-285 | one r_vir2abs keeps the caches right, and gives what is recomputed from the inode where no zone wraps around |
| RawFs.TransparentIff | src/boot/rawfs.c:218-285 | it gives the recomputed answer from every state of the caches exactly when no indirect zone on the way wraps around to block 0 |
| RawFs.ColdAnswer | src/boot/rawfs.c:55-61 | the first block looked up after the monitor starts is answered as though block 0 of the disk held zeros, so right exactly when that makes no difference |
| RawFs.RunsTransparentIff | src/boot/rawfs.c:173-285 | every interleaving of r_stat and r_vir2abs does, exactly when no block of any file is behind such a zone |
| SectorBuffer.FileSystem.StatFile | src/boot/rawfs.c:108-175 | the inode is remembered and both caches are emptied |
| SectorBuffer.FileSystem.Map | src/boot/rawfs.c:218-285 | result and caches are those of Vir2Abs |
| SectorBuffer.ImageReader.Vir2Sec | src/boot/bootimage.c:249-269 | the sector recomputed from the inode, or the flat offset |
| SectorBuffer.BlockSectors | src/boot/bootimage.c:249-262 | the sectors of a block are consecutive from its first on |
| SectorBuffer.ImageReader.GetSector | src/boot/bootimage.c:271-319 | the sector that vir2sec names, zeros for a hole, nil for an error, otherwise only if one of the sectors read together is bad, and never from the buffer |
| SectorBuffer.ImageReader.Ahead | src/boot/bootimage.c:299-309 | read-ahead goes on over consecutive sectors of a track, at most 16, and stops nowhere else |
| SectorBuffer.ImageReader.Serve | src/boot/bootimage.c:271-319 | the same for any series of requests from sector 0 on, across holes, tracks and read failures, even if the disk was changed before |
| SectorBuffer.ImageReader.ReadImage | src/boot/bootimage.c:271-319 | reading an image from its first sector on gives its bytes, or stops at a track with a bad sector |
| MonitorTokens.ReadsBack | src/boot/boot.c:340-379 | a token is read back unless what follows it would be taken into it |
| MonitorTokens.TornSwallows | src/boot/boot.c:352-359 | an unclosed argument takes in what is printed after it |
| MonitorTokens.RoundTripIff | src/boot/boot.c:334-407 | printing tokens and tokenizing gives them back exactly when none but the last is an unclosed argument |
| MonitorGrammar.TokenizeMeans | src/boot/boot.c:335-405 | a line of words, the marks = { } ; ), spaces, newlines and balanced arguments is taken apart into exactly these, newlines as a semicolon |
| MonitorGrammar.TwoWords | src/boot/boot.c:335-373 | two words with a mark, a space or a newline between them |
| MonitorTokens.TokenizeYields | src/boot/boot.c:388-407 | every line gives tokens of four kinds, and an unclosed argument is the last or followed by ';' |
| BootMonitor.SetFunction | src/boot/boot.c:714-749 | a definition is refused exactly for reserved names and special variables; one that is accepted is found again, with its argument, no other entry changes and no other name appears |
| BootMonitor.BodyEndIs | src/boot/boot.c:1646-1655 | a function body ends at the first place where all braces are closed and a semicolon comes or a closing brace was |
| BootMonitor.DefineThenCallIff | src/boot/boot.c:1636-1812 | calling a function prepends exactly its defining tokens to the chain exactly when none inside is an unclosed argument |
| BootMonitor.LineIsWhole | src/boot/boot.c:340-379 | a line without newlines has no unclosed argument but at its end |
| BootMonitor.NextToken | src/boot/boot.c:340-379 | the pointer loops of onetoken yield the token and the rest of the line |
| BootMonitor.Monitor.Insert | src/boot/boot.c:388-407 | the tokens of the line are spliced into the chain at the given place |
| BootMonitor.Monitor.FindBody | src/boot/boot.c:1646-1655 | the brace loop finds the end of the body |
| BootMonitor.Monitor.PrintBody | src/boot/boot.c:1657-1666 | the body is printed with spaces between plain words only |
| BootMonitor.Monitor.DefineFunction | src/boot/boot.c:1636-1682 | the new state is that of Define, error paths included |
| BootMonitor.Monitor.CallFunction | src/boot/boot.c:1783-1812 | the new state is that of Call |
| BootParams.DecimalIs | src/boot/boot.c:802-817 | the digits of a number stand for it, without leading zeros |
| BootParams.ParamsAre | src/boot/bootimage.c:135-145 | every variable becomes a parameter, in order, a device as its number in 16 bits; none exactly if a device is unknown |
| BootParams.OldSizesAre | src/boot/bootimage.c:155-171 | memsize and emssize are the end of low memory and the size of extended memory in kilobytes |
| BootParams.ExpectedIs | src/kernel/start.c:98-116 | distinct names have their own values and absent ones none |
| BootParams.BlockAnswers | src/kernel/start.c:98-116 | in memory that starts with the block get_value gives the right answer to every name, prefixes of each other or not |
| BootParams.Params2Params | src/boot/bootimage.c:126-180 | success exactly when every device is known and the block fits, and then the block is the variables in order |
| BootParams.GetValue | src/kernel/start.c:98-116 | the pointer loops point to the value that the byte-level lookup finds |
| BootParams.KernelValue | src/kernel/start.c:52-54 | in a block that fits the copy every variable has its value and no other name has one |
| BootParams.EndMarkLost | src/kernel/start.c:52-54 | with a block of 511 bytes get_value finds any further parameter, for a stack to match |
| BootParams.LastValueRuns | src/kernel/start.c:52-54 | with one of 512 bytes the last value goes on with any text, for a stack to match |
| BootParams.KernelKnowsIff | src/kernel/start.c:52-54 | of the blocks that params2params accepts, get_value answers right for all names and all stacks exactly on those of at most 510 bytes |
| NicCopy.PieceOf | src/drivers/dp8390/dp8390.c:1269-1273 | a piece of one entry is a piece of the flat vector |
| NicCopy.WriteInto | src/drivers/dp8390/dp8390.c:1487-1491 | writing into one entry overwrites that part of the flat vector only |
| NicCopy.IoVec.NextWindow | src/drivers/dp8390/dp8390.c:1649-1661 | the window moves on by 16 entries and its assertion holds |
| NicCopy.IoVec.Turn | src/drivers/dp8390/dp8390.c:1252-1267 | moving on or skipping an entry does not change the place in the flat vector, and the assertion holds |
| NicCopy.IoVec.CalcSize | src/drivers/dp8390/dp8390.c:1749-1772 | the sum of all entries, however many windows |
| NicCopy.IoVec.UserToNic | src/drivers/dp8390/dp8390.c:1251-1281 | the bytes put out are the flat vector from offset on, for shared memory and 8-bit ports |
| NicCopy.IoVec.UserToNic16 | src/drivers/dp8390/dp8390.c:1359-1441 | the same bytes as words: count rounded up to even, the first count of them exact |
| NicCopy.IoVec.NicToUser | src/drivers/dp8390/dp8390.c:1469-1498 | the bytes arrive at the flat vector from offset on, and nothing else changes |
| NicCopy.IoVec.NicToUser16 | src/drivers/dp8390/dp8390.c:1570-1642 | the same when words are read and a byte is carried over entries |
| NicCopy.Loopback | src/drivers/dp8390/dp8390.c:1346-1452 | words put out from one vector and taken into another arrive unchanged, however the two are cut up |

## Left out

- The process table is a set of columns indexed by slot, its pointers are slot numbers; blocks of the buffer pool are
  indices of header units. Pointers into the middle of a structure (`xpp`) become the slot before it.
- fork, exit, nice and exec change the population or the priorities of processes; the model's population is fixed at boot.
- get_priv assigns privilege structures; here the assignment is part of the configuration.
- Processes that share privilege structure 0 are not covered by the promise of `EveryRun` about receive(ANY).
- Each trap and interrupt is one atomic step, and so is each thing a task does, although that can be several lock sections:
  do_clocktick joins lock_dequeue and lock_enqueue (src/kernel/clock.c:112-113), cause_sig at task level joins lock_dequeue, the
  change of flags and lock_notify (src/kernel/system.c:276-278). Interrupts that come in between are not modelled.
- Runs: SYSTEM takes the steps of a task in any order, CLOCK those of clock_task; the signals that kprintf sends
  to the output driver are among them, its text is not.
- Times charged for accounting (p_user_time, p_sys_time), the timer library and watchdogs; `next_timeout` is an input.
- p_ticks_left is a signed char whose conversion wraps, as on the compilers the kernel is built with.
- The message pointer check of sys_call is a comparison of clicks against the memory map of the configuration; p_reg and p_ldt are not modelled.
- KernelTable.ProcessTable.SysCall: SEND, SENDREC and NOTIFY to ANY, where the trap mask allows them and the message pointer is
  right, index the process table out of range; what happens there is not modelled.
- KernelSafety.SysCallKeepsIff: leaves out the same calls.
- KernelSafety.StepKeepsIff: leaves out the same calls; a step is enabled under what its callers see to: faults come from user
  processes, device interrupts go to processes that are not tasks, cause_sig is called by a task for live user processes,
  do_clocktick by CLOCK.
- KernelRuns.RunIsSafe: leaves out the same calls and blocking sends to oneself; the image holds IDLE and CLOCK, and queues,
  preemptibility and trap masks of the tasks are those of src/kernel/table.c:97-101.
- PacketBuffers: lock and unlock, and the queue of received packets.
- BootImage: a header longer than struct exec makes the extraction fail, where the original reads past it.
- ProcessLoader.LoadProcess: sizes in the header are not negative and at most a gigabyte, and memory ends at 0x7F000000; beyond
  that the 32-bit addresses of the monitor wrap around and it writes anywhere.
- BootImageFiles.MakeImage: headers of 32 to 48 bytes and sizes that are not negative, as compilers write them.
- LoadedImage.ExecImage: the same bounds as ImageLoader.LoadImage.
- ImageLoader.LoadImage: starts from an image whose headers are sane, so the ENOEXEC exit is not modelled;
  sizes are at most a gigabyte and memory ends at 0x7F000000, so that no address wraps around;
  extended memory for K_HIGH starts on a click, above the saved headers.
- ImageLoader: the click size and kernel flags (get_clickshift) are inputs, as are patch_sizes, the kernel magic number and the trailer function.
- The loader reads sector v of an image given as bytes, with a set of unreadable sectors; that get_sector
  yields these bytes is `SectorBuffer.ImageReader.ReadImage`, but the loader does not call it sector by sector.
- SectorBuffer.ImageReader.Vir2Sec: of a file with an indirect zone that wraps around to block 0 nothing is said; RawFs.TransparentIff
  shows that its blocks depend on what the caches held before.
- SectorBuffer.ImageReader.GetSector: leaves out the same files.
- SectorBuffer.ImageReader.Ahead: leaves out the same files.
- SectorBuffer.ImageReader.Serve: leaves out the same files.
- SectorBuffer.ImageReader.ReadImage: leaves out the same files.
- RawFs: readdir, lookup and the reading of inodes; block numbers times the block size stay below 2^31, and a hole of a file
  system with zones of several blocks gives the index within the zone, as in the original.
- BootMonitor: the other commands of execute, the timer, ESC, and b_unset.
- BootParams: name2dev is a map from device names to numbers.
- NicCopy: the buffers of one vector do not overlap, port and remote DMA registers are not modelled, and a copy that fails stops the driver.
- NicCopy.IoVec.NicToUser: offsets count from the entry the window is at, so a second call on a vector of more than 16 entries starts where the first one left the window.
- Device probing, ring wrap-around of the receive buffer, interrupt hooks, keyboard, menus and the kernel's printing.
