# A Dafny model of the SE350 RTX kernel core

This project models the kernel data structures of a small real-time executive for a single-core
Cortex-M3 board. It also models the user processes built on that kernel that keep state of their own.
Every kernel object is kept in an arena of indices instead of raw pointers:

- **PCBs.** A PCB is an index into `gp_pcbs`, and NULL is `NIL`.
- **Ready and blocked queues.** These are the intrusive FIFO lists of the ready and blocked priority
  queues (five levels each; `NULL_PRIORITY` is 4). Each level is a head/tail pair and a `nextPCB` map.
  Its contents are a ghost sequence tied to the links by `Links.IsList`.
- **Mailboxes, the delay queue and the free list** are lists in the same way. Their nodes are
  addresses and their links are each node's `next` word.

The model has the following parts:

- **Process management** (`process.dfy`, `kernel.dfy`).
  - `Process` is the specification, written as pure functions on a kernel snapshot `KState`. It covers
    enqueue, dequeue, the scheduler, the context-switch state transitions, release, wake, block,
    priority moves, set/get priority and `process_init`. It also holds the kernel invariant `Inv`: the
    running PCB is RUN and in no queue; every other PCB is queued exactly once on the level its
    priority and state call for, unless it is WAIT.
  - `Kernel.Rtx` holds the globals and relinks them in place. Each of its methods is proved to leave
    `Abs()` equal to the matching `Process` function applied to the old snapshot.
  - Lemmas in `Process` prove that those functions keep `Inv`, and the other properties below.
  - The saved stack pointer is an opaque `sp` field, and the main stack pointer is a field `msp`.
- **Message send** (`message.dfy`, `Kernel.Rtx.SendMessage`).
  - The envelope sits 16 bytes before the message. The struct in src/k_message.h:9-13 declares only
    `next`, `sender_id` and `recv_id`, but src/timer.c reads a `send_time` from it, so the model adds
    that fourth word. The envelope is appended to the receiver's mailbox in O(1).
  - A receiver in WAIT becomes RDY and is queued. The sender yields when the receiver is more urgent.
- **Memory** (`memory.dfy`). The downward, 8-byte aligned stack allocator, `heap_init` carving the
  pool, and the FIFO free list of equal-size blocks.
- **The timer delay queue** (`timer.dfy`). Sorted insertion by `send_time`, head dequeue, the strict
  "due" test, and the tick handler that drains the pending envelopes and delivers the due ones.
- **The wall clock** (`wallclock.dfy`).
  - Whitespace scan, digit conversion, `parseTime` and `timeToStr`, including their round trip.
    C's truncating `/` and `%` and 8-bit unsigned `char` are written out.
  - The R/I/S/T command state machine over the received messages.
- **The console** (`console.dfy`). `copyStr`, `copyMessage`, the command dispatcher's bounded
  registration table with first-match routing, and the CRT process.
- **Stress process C** (`stress.dfy`, `ipc.dfy`). The envelope/message conversion pair, and procC's
  deferred FIFO threaded through the parked messages' envelopes.

User processes are modelled over the sequence of messages they receive. The kernel calls they make
are recorded as a sequence of `Ipc.Action` values.

Three places in the code are evidently wrong; the "## Findings" table lists them. Each is modelled
twice: once as written, with a lemma exhibiting the failure, and once corrected. Every operation built
on them uses the corrected definitions. `Process.Schedule` requeues a running process that yields, and
so does every `Process.Release` and every `Kernel.Rtx` method that yields. `Process.Move` leaves alone
a PCB that is not on its old level. `WallClock.SetTime` reads the time after the "%WS" command, and
`WallClock.Step`, `Handle` and `WallClockProc` use it.

In three places the system's design says something the code does not do, and the model follows the code:

- `k_release_memory_block` validates nothing and always returns `RTX_OK` (src/k_memory.c:190-208).
  The design describes a check of the pointer.
- `k_request_memory_block` returns NULL on an empty list (src/k_memory.c:176-177). The design
  describes a request that blocks.
- On a tie in send time, `timer_insert` links the new envelope in front of the entries already there
  (src/timer.c:170-187). The design puts it after them.

## Model

| member | source | states |
|---|---|---|
| Process.Slot | src/k_process.c:33-34 | a level of ReadyPQ or of BlockPQ names one of ten queue slots, and the first five are exactly the ReadyPQ ones |
| Process.DequeueHighest | src/k_process.c:63-79 | processDequeue returns NIL exactly when every level is empty, and then changes nothing; otherwise it returns the head of the lowest-numbered non-empty level, only that level loses its head, and every level before it is empty |
| Process.EnqueueMembers | src/k_process.c:46-58 | processEnqueue adds exactly the given PCB to the queued PCBs |
| Process.DequeueMembers | src/k_process.c:63-79 | processDequeue removes exactly the PCB it returns from the queued PCBs |
| Process.Requeued | src/k_process.c:190-197 | the corrected first half of the scheduler queues the current PCB once more; with no current PCB the queues are unchanged; a yielding process leaves something ready; a blocked one leaves every ready level as it was |
| Process.StartHasReady | src/k_process.c:249-259 | before the first switch some level of ReadyPQ is non-empty |
| Process.Scheduled | src/k_process.c:188-199 | the PCB the scheduler returns was ready on the level of its priority, it is in no queue afterwards, and the queued PCBs are the old ones plus the current one minus the returned one |
| Process.SwitchTo | src/k_process.c:209-242 | switching from a non-NEW current PCB to a NEW or RDY one: the outgoing PCB saves the stack pointer and becomes RDY unless it is BLK or WAIT, the incoming one becomes RUN, and the main stack pointer becomes its saved one |
| Process.SwitchStates | src/k_process.c:213-234 | after a switch only the incoming PCB is RUN, and the queued PCBs are exactly the others that are not WAIT |
| Process.SwitchFails | src/k_process.c:228-241 | process_switch returns RTX_ERR exactly when the incoming PCB is another one, neither NEW nor RDY, and then only the running PCB reverts to the old one |
| Process.ReleaseSwitches | src/k_process.c:249-264 | under the invariant the PCB k_release_processor schedules is always accepted by process_switch, so its error path is never taken |
| Process.SwitchOther | src/k_process.c:209-242 | switching to a different, ready PCB taken off ReadyPQ keeps the kernel invariant |
| Process.ReleaseFails | src/k_process.c:249-259 | k_release_processor returns RTX_ERR exactly when the current process has just blocked and nothing is ready |
| Process.ReleaseKeepsInv | src/k_process.c:249-264 | a successful k_release_processor, by a process that yields or has just blocked, keeps the kernel invariant |
| Process.Yield | src/k_process.c:249-264 | a yield keeps the invariant and changes no priority or pid |
| Process.ReleasePriorities | src/k_process.c:188-242 | scheduling and switching change no priority and no pid |
| Process.ReleaseOthers | src/k_process.c:209-242 | a release touches only the outgoing and the incoming PCB, and no mailbox |
| Process.ReleaseAsWrittenLosesYielder | src/k_process.c:190-197 | as written, a running process that yields while another is ready ends in no queue, in state RDY and no longer running, so the invariant fails |
| Process.Wake | src/k_process.c:86-88 | the first half of makeReady leaves the running PCB, the stack pointer and the mailboxes as they were |
| Process.MakeReadyWakes | src/k_process.c:84-90 | makeReady takes a BLK PCB off BlockPQ; it ends RDY or RUN, the inner k_release_processor returns RTX_OK (makeReady itself is void), and the invariant holds |
| Process.Woken | src/k_process.c:86-88 | the PCB taken off BlockPQ was BLK, and made RDY at the tail of its ready level it keeps the invariant |
| Process.Rekinded | src/k_process.c:87 | a BLK PCB turned RDY, with the same PCBs queued and placed, keeps the invariant |
| Process.MakeBlockParks | src/k_process.c:95-99 | makeBlock fails exactly when nothing is ready; on success the process is BLK at the tail of the BlockPQ level of its priority and the invariant holds |
| Process.Blocking | src/k_process.c:97 | the running process marked BLK satisfies the invariant for a process that has just blocked |
| Process.Parked | src/k_process.c:190-193 | a blocked process that releases the processor ends at the tail of its BlockPQ level, still BLK |
| Process.IndexOfPid | src/k_process.c:317-319 | the first index from `i` on whose pid matches, or -1 exactly when there is none |
| Process.IndexOf | src/k_process.c:292-293 | the position of a PCB in a queue, or -1 exactly when it is absent |
| Process.MoveKeepsInv | src/k_process.c:270-306 | moveProcessToPriority, corrected, keeps the invariant for a PCB other than the running one whose priority was changed |
| Process.MoveFound | src/k_process.c:280-305 | a PCB found on its old level is unlinked and re-appended, and the invariant holds |
| Process.MoveNotFound | src/k_process.c:280-285 | a PCB not on its old level stays where it is, and the invariant holds |
| Process.Relinked | src/k_process.c:280-305 | after the move the same PCBs are queued, each once, each on the level of its new priority |
| Process.CutOut | src/k_process.c:286-301 | unlinking the `j`-th PCB of a level leaves it in no queue and the others on their levels, each once |
| Process.PlacedCut | src/k_process.c:288-301 | unlinking one entry of a level keeps every other queued PCB on its level |
| Process.Reprioritised | src/k_process.c:323-329 | relinking with the same PCBs queued, after only one priority changed, keeps the invariant |
| Process.MoveAsWrittenQueuesWaiting | src/k_process.c:280-305 | as written, a WAIT PCB whose old ready level holds two or more PCBs is appended to ReadyPQ while still WAIT, so the invariant fails |
| Process.GetPriority | src/k_process.c:348-364 | k_get_process_priority is the priority of the first PCB with that pid, or -1 when none has it |
| Process.SetPriorityFails | src/k_process.c:312-342 | k_set_process_priority returns RTX_ERR exactly when the priority is outside 0..3 or no PCB at index 1..6 has the pid, and then nothing changes |
| Process.SetPriorityUnfold | src/k_process.c:323-332 | a changed priority is set, the PCB is moved unless it is running, then the caller yields, and the call returns RTX_OK |
| Process.SetPriorityChanges | src/k_process.c:323-331 | after a changed priority the PCB holds the new priority, no pid changes, and the invariant holds |
| Process.Moved | src/k_process.c:323-329 | before the yield the PCB has its new priority and its new level, and the invariant holds |
| Process.SetPriorityOk | src/k_process.c:316-332 | after a successful k_set_process_priority, k_get_process_priority returns the new priority |
| Process.SetThenGet | src/k_process.c:312-364 | k_set_process_priority keeps the invariant, succeeds exactly on a valid priority and a pid held at index 1..6, is then seen by k_get_process_priority, and on failure changes nothing; setting the priority the PCB already has returns RTX_OK with the state unchanged (no move, no yield) |
| Process.PidsKept | src/k_process.c:351-352 | with the pids unchanged, the lookup by pid finds the same PCB |
| Process.ProcTable | src/k_process.c:132-142 | entry 0 is the null process with NULL_PRIORITY and a 0x100-byte stack, and entries 1..6 are the test processes in order |
| Process.InitPcbs | src/k_process.c:149-151 | every PCB gets its table pid and priority, state NEW and its saved stack pointer |
| Process.NoQueues | src/k_process.c:165-170 | all ten queues start empty |
| Process.NoMail | src/k_process.c:153-154 | every mailbox starts empty |
| Process.Level | src/k_process.c:173-179 | a ReadyPQ level holds exactly the PCBs of its priority, in index order |
| Process.InitLevels | src/k_process.c:165-179 | after process_init each ReadyPQ level holds, in index order, exactly the PCBs of its priority, and BlockPQ is empty |
| Process.InitMembers | src/k_process.c:173-179 | after enqueueing PCBs 0..n-1 each of them is queued exactly once and no other PCB is |
| Process.InitQueued | src/k_process.c:173-179 | every queued entry is a PCB on the ready level of its priority |
| Process.InitInv | src/k_process.c:147-179 | the state process_init leaves satisfies the kernel invariant |
| Process.Below | src/k_process.c:157-161 | a pre-decremented stack pointer stays a 32-bit address |
| Process.BelowDistinct | src/k_process.c:157-161 | the eight words pushed below a stack top are eight different addresses |
| Process.PushWordsLayout | src/k_process.c:156-162 | the pushes write xPSR, then the entry point, then six zeros, each one word further down, and leave every other address as it was |
| Process.FrameAtSp | src/k_process.c:157-162 | from the saved stack pointer up lie six zero words, the entry point and the initial xPSR |
| Kernel.Rtx.ProcessInit | src/k_process.c:124-180 | process_init fills the table and the PCBs, pushes every initial frame, allocates every stack from gp_stack, empties every mailbox and leaves exactly the state `Process.InitState` |
| Kernel.Rtx.FillTable | src/k_process.c:132-142 | the initialization table is the null process's entry, then a copy of each test process's entry |
| Kernel.Rtx.SetUpTable | src/k_process.c:132-163 | the table and PCB part of process_init, with the distinct pids and ranked priorities the scheduler needs |
| Kernel.Rtx.SetUpPcbs | src/k_process.c:147-163 | every PCB gets pid, NEW, priority, NULL links and a saved stack pointer eight words below its stack top; gp_stack is lowered by every stack |
| Kernel.Rtx.SetUpPcb | src/k_process.c:148-162 | one iteration of that loop changes PCB `i` alone and moves gp_stack by one allocation |
| Kernel.Rtx.PushFrame | src/k_process.c:157-162 | the returned stack pointer is eight words below the top, and memory holds the initial frame |
| Kernel.Rtx.ClearMail | src/k_process.c:153-154 | every mailbox is an empty, well-formed list |
| Kernel.Rtx.InitQueues | src/k_process.c:165-179 | the queue part of process_init leaves well-formed lists holding exactly `InitQs` and no mail |
| Kernel.Rtx.ClearQueues | src/k_process.c:165-170 | both ends of every ReadyPQ and BlockPQ level are NULL and every queue is empty |
| Kernel.Rtx.EnqueueAll | src/k_process.c:173-179 | enqueueing PCBs 0..6 in order on ReadyPQ gives exactly `InitQs` |
| Kernel.Rtx.ProcessEnqueue | src/k_process.c:46-58 | the links spell out the queues, and the PCB is at the tail of the level of its priority, every other level unchanged |
| Kernel.Rtx.ProcessDequeue | src/k_process.c:63-79 | the links spell out the queues and the result is `Process.Dequeue`: the returned PCB leaves the queues and its link is cleared |
| Kernel.Rtx.Behead | src/k_process.c:68-75 | the head of a non-empty level is unlinked and returned, and that level loses exactly its first entry |
| Kernel.Rtx.QueueIsEmpty | src/k_process.c:104-112 | queueIsEmpty returns 1 exactly when every level is empty, and 0 otherwise |
| Kernel.Rtx.BlockPQIsEmpty | src/k_process.c:117-119 | blockPQIsEmpty returns 1 exactly when no process is blocked |
| Kernel.Rtx.Scheduler | src/k_process.c:188-199 | the corrected scheduler, in place, leaves the state and result of `Process.Schedule` |
| Kernel.Rtx.ProcessSwitch | src/k_process.c:209-242 | process_switch, in place, leaves the state and result of `Process.Switch` |
| Kernel.Rtx.SwitchOut | src/k_process.c:216-220 | the outgoing PCB keeps BLK or WAIT, otherwise becomes RDY, and saves the main stack pointer |
| Kernel.Rtx.ReleaseProcessor | src/k_process.c:249-265 | k_release_processor over the corrected scheduler, in place, leaves the state and result of `Process.Release` |
| Kernel.Rtx.MakeReady | src/k_process.c:84-90 | makeReady, in place, leaves the state of `Process.MakeReady` |
| Kernel.Rtx.Wake | src/k_process.c:86-88 | dequeue from BlockPQ, mark RDY, enqueue on ReadyPQ: the state of `Process.Wake` |
| Kernel.Rtx.Unblock | src/k_process.c:86-87 | the returned PCB is the one `Process.Dequeue` takes off BlockPQ, it leaves every queue, and it alone becomes RDY |
| Kernel.Rtx.MakeBlock | src/k_process.c:95-99 | makeBlock, in place, leaves the state of `Process.MakeBlock` |
| Kernel.Rtx.MoveProcessToPriority | src/k_process.c:270-306 | moveProcessToPriority, corrected and in place, leaves the state of `Process.Move`, with the same PCBs queued |
| Kernel.Rtx.Detach | src/k_process.c:280-302 | unlinking succeeds exactly when the PCB is on the level; then exactly that entry is cut out, otherwise no link changes |
| Kernel.Rtx.DetachInner | src/k_process.c:290-301 | the middle case walks the level for the predecessor and cuts the PCB out exactly when it is there |
| Kernel.Rtx.Splice | src/k_process.c:293-298 | the predecessor takes over the PCB's successor (and the tail when the PCB was last), so exactly that entry leaves the level |
| Kernel.Rtx.Rejoin | src/k_process.c:304-305 | the unlinked PCB is appended at the tail of the level of its new priority, with the same PCBs queued as before the move |
| Kernel.Rtx.SetProcessPriority | src/k_process.c:312-342 | k_set_process_priority over the corrected move and scheduler, in place, leaves the state and result of `Process.SetPriority` |
| Kernel.Rtx.GetProcessPriority | src/k_process.c:348-364 | k_get_process_priority returns `Process.GetPriority` |
| Kernel.Rtx.SendMessage | src/k_message.c:4-39 | k_send_message, yielding through the corrected scheduler, writes the envelope's sender and receiver ids, keeps the queue and mailbox lists well formed and the invariant, and leaves the state and result of `Message.Send` |
| Kernel.Rtx.Deliver | src/k_message.c:10-24 | the envelope gets the sender's pid and the receiver's id and joins the tail of the receiver's mailbox |
| Kernel.Rtx.Post | src/k_message.c:17-24 | the envelope's `next` is NULL and it is the new tail of the mailbox, making it the head too if the mailbox was empty |
| Kernel.Rtx.Notify | src/k_message.c:29-35 | the second half of k_send_message, yielding through the corrected scheduler, leaves the state of `Message.Notify` and keeps the invariant |
| Kernel.Rtx.WakeReceiver | src/k_message.c:30-31 | the receiver in WAIT joins the tail of its ready level and becomes RDY |
| Message.Readied | src/k_message.c:30-31 | readying the receiver leaves the running process, the stack pointer and the mailboxes as they were |
| Message.Send | src/k_message.c:37 | k_send_message always returns RTX_OK |
| Message.SendDelivers | src/k_message.c:17-24 | the envelope joins the tail of the receiver's mailbox behind the messages already there, and every other mailbox is unchanged |
| Message.SendLeavesOthers | src/k_message.c:29 | a receiver not in WAIT keeps its PCB, and no queue, running process or stack pointer changes |
| Message.WaitWoken | src/k_message.c:29-31 | a receiver in WAIT is queued at the tail of its ready level, and the invariant holds |
| Message.SendKeepsInv | src/k_message.c:4-39 | k_send_message keeps the kernel invariant |
| Message.NotifyKeepsInv | src/k_message.c:29-35 | readying the receiver and the optional yield keep the invariant |
| Message.SendPreempts | src/k_message.c:29-34 | the sender loses the processor exactly when the receiver was in WAIT with a numerically lower priority, and then a process at least as urgent as the receiver runs |
| Message.NotifyPreempts | src/k_message.c:29-34 | the same for the second half of k_send_message |
| Message.WakePreempts | src/k_message.c:32-33 | a readied receiver more urgent than the sender hands the processor to a process at least as urgent as the receiver |
| Message.Preempted | src/k_message.c:32-33 | a yield with a more urgent PCB ready runs a different PCB, one at least as urgent |
| Message.SendWakes | src/k_message.c:29-34 | a receiver in WAIT ends RDY and queued, or RUN; any other receiver keeps its PCB |
| Message.NotifyWakes | src/k_message.c:29-34 | the same for the second half of k_send_message |
| Message.ReadiedRuns | src/k_message.c:32-33 | a ready PCB is, after the yield, still ready and queued, or running |
| KMemory.Lowered | src/k_memory.c:158-163 | gp_stack after alloc_stack is a 32-bit address |
| KMemory.LoweredAligned | src/k_memory.c:152-165 | from an 8-byte aligned gp_stack and a size that is a multiple of 4, gp_stack stays 8-byte aligned, at most one word below the plain difference |
| KMemory.WrapWord | src/k_memory.c:158 | lowering an aligned address by whole words gives a word-aligned 32-bit address, and without wrap-around it is the difference |
| KMemory.WordAligned | src/k_memory.c:161-163 | going down one word when bit 2 is set makes a word-aligned address 8-byte aligned |
| KMemory.Blocks | src/k_memory.c:134-136 | the `k`-th carved block is at `p_end + k * BLOCK_SIZE` |
| KMemory.Memory.constructor | src/k_memory.c:121-124 | gp_stack starts at the end of RAM, one word lower when bit 2 is set, so it is 8-byte aligned |
| KMemory.Memory.AllocStack | src/k_memory.c:152-165 | alloc_stack returns the old gp_stack and lowers gp_stack as `Lowered` says |
| KMemory.Memory.HeapInit | src/k_memory.c:127-143 | the free list holds `numOfBlocks >= 1` blocks from p_end upwards in address order, every block fits below gp_stack and no further block would |
| KMemory.Memory.RequestMemoryBlock | src/k_memory.c:167-188 | an empty list gives NULL and changes nothing; otherwise the head is returned and removed, and the list stays well formed |
| KMemory.Memory.ReleaseMemoryBlock | src/k_memory.c:190-208 | the block is appended at the tail, becoming the head too on an empty list, its `next` is NULL, and the call returns RTX_OK |
| KMemory.ChainList | src/k_memory.c:134-142 | the links heap_init writes, with the last one NULL, make the carved blocks one list in address order, from p_end to the tail |
| KMemory.ChainIsBlocks | src/k_memory.c:134-137 | blocks one BLOCK_SIZE apart from p_end are the first blocks of `Blocks`, and the loop variable is the next one |
| KMemory.RequestsInOrder | src/k_memory.c:174-187 | successive requests hand out the free blocks in list order, then NULL |
| KMemory.ReleasedLast | src/k_memory.c:199-201 | a released block comes back only after every block that was free before it |
| KMemory.RequestsDistinct | src/usr_proc.c:179-180 | successive successful requests return distinct blocks |
| KMemory.WritesSurvive | src/usr_proc.c:179-190 | a word written into each of three requested blocks reads back unchanged after the other writes |
| KMemory.RequestConserves | src/k_memory.c:174-184 | a successful request moves one block from the list to its holder, and the list shrinks by one |
| KMemory.ReleaseConserves | src/k_memory.c:196-205 | a release moves a held block back onto the list, and the list grows by one |
| Timer.InsertPoint | src/timer.c:170-187 | the new envelope's place is before the first entry whose send time is at least its own |
| Timer.InsertSorted | src/timer.c:156-191 | the queue after an insertion holds the old entries plus the new envelope |
| Timer.SortedInsertAt | src/timer.c:170-187 | putting an envelope between earlier and not-earlier send times keeps the queue sorted |
| Timer.InsertKeepsSorted | src/timer.c:156-191 | timer_insert keeps the queue sorted by non-decreasing send time, and the new envelope precedes every entry with an equal send time |
| Timer.InsertAll | src/timer.c:130-137 | inserting the pending envelopes adds exactly them to the queue |
| Timer.InsertAllSorted | src/timer.c:130-137 | the drained queue is still sorted |
| Timer.Delivered | src/timer.c:139-142 | moving a due head to the delivered list keeps every delivered envelope due and the order of delivered plus queued |
| Timer.Timer0.constructor | src/timer.c:16-25 | the counter starts at 0 and the queue is empty |
| Timer.Timer0.GetTime | src/timer.c:148-151 | get_time returns the counter |
| Timer.Timer0.TimerInsert | src/timer.c:156-191 | timer_insert links the envelope in at `InsertSorted`'s place, keeps Q's ends and links well formed, and changes no other envelope's link |
| Timer.Timer0.LinkFirst | src/timer.c:163-174 | on an empty queue, or ahead of a head not earlier than it, the envelope becomes the head (and the tail when alone) |
| Timer.Timer0.LinkAfter | src/timer.c:176-187 | linked after `curr`, the envelope goes before the next entry or becomes the tail |
| Timer.Timer0.TimerDequeue | src/timer.c:196-208 | timer_dequeue removes and returns the head, clears its `next`, and empties the tail with the queue |
| Timer.Timer0.MessageReady | src/timer.c:213-218 | message_ready is true exactly when the queue is non-empty and its head's send time is strictly below the counter |
| Timer.Timer0.InsertPending | src/timer.c:130-137 | the handler's first loop inserts every pending envelope in turn |
| Timer.Timer0.DeliverDue | src/timer.c:139-142 | the second loop delivers a due prefix of the queue, in order, and stops at an empty queue or a head not yet due |
| Timer.Timer0.TimerIRQHandler | src/timer.c:123-143 | the counter rises by one modulo 2^32; the delivered envelopes followed by the queue are the old queue with the pending envelopes inserted; the delivered ones are in send-time order and due; the new head is not yet due |
| Ipc.MsgBufToEnvelope | src/stress_proc.c:76-78 | the envelope is one envelope size below the message, in 32-bit address arithmetic |
| Ipc.EnvelopeToMsgBuf | src/stress_proc.c:80-82 | the message is just past the envelope |
| Ipc.EnvelopeRoundTrip | src/stress_proc.c:76-82 | the two conversions undo each other on 32-bit addresses, in both orders |
| Ipc.Strlen | src/consoleio.c:4-12 | the index of the first NUL, with no NUL before it |
| WallClock.Scan | src/wall_clock.c:4-8 | the scan from `i` stops at the first non-blank character before the NUL, or gives -1 when every one is blank |
| WallClock.NextNonWhitespace | src/wall_clock.c:3-10 | the index of the first character before the NUL that is not space, tab, `\n` or `\r`, and -1 exactly when there is none |
| WallClock.DigitRoundTrip | src/wall_clock.c:12-18 | charToInt undoes intToChar on 0..9, and intToChar undoes charToInt on digit characters |
| WallClock.CDiv | src/wall_clock.c:36-38 | C division truncates toward zero: q*b is the multiple of b nearest zero that does not pass the dividend, on both sides of zero |
| WallClock.CRem | src/wall_clock.c:37-39 | C's remainder pairs with that division and takes the sign of the dividend |
| WallClock.TimeStr | src/wall_clock.c:35-52 | timeToStr's text is nine bytes |
| WallClock.TimeToStr | src/wall_clock.c:35-52 | timeToStr writes the text of `time` into the first nine bytes of `dest` and nothing else |
| WallClock.TwoDigits | src/wall_clock.c:43-50 | the tens and units of a value below 100 are digits that read back as its two places |
| WallClock.TimeParts | src/wall_clock.c:36-41 | for a non-negative time the code's hour, minute and second values are `t / 3600 % 100`, `t % 3600 / 60` and `t % 60` |
| WallClock.HmsTextShape | src/wall_clock.c:43-51 | the text is two digits, a colon, two digits, a colon, two digits and a NUL, and its digit pairs read back as the three values |
| WallClock.TimeStrShape | src/wall_clock.c:35-52 | for a time at least 0 the text has ':' at 2 and 5, NUL at 8 and digits elsewhere, so its string length is 8 |
| WallClock.ModHundredHours | src/wall_clock.c:41 | taking the hours mod 100 is taking the time mod 360000 seconds |
| WallClock.ParseTimeStr | src/wall_clock.c:24-52 | round trip: parseTime of timeToStr's text gives back `t % 360000` for every time at least 0 |
| WallClock.Bump | src/wall_clock.c:71 | incrementing the 8-bit id wraps modulo 256 and always gives a different id |
| WallClock.TickText | src/wall_clock.c:74-78 | the message becomes "%WI", NUL and the id, the rest of its text unchanged |
| WallClock.SetTimeAsWrittenExample | src/wall_clock.c:100-103 | as written, the command "%WS 12:34:56" starts its scan at the '%' and sets the clock to -265037 seconds instead of 45296 |
| WallClock.SetTimeOfText | src/wall_clock.c:100-103 | corrected: "%WS " followed by the text of a time sets exactly that time (mod 100 hours) |
| WallClock.Handle | src/wall_clock.c:67-123 | one pass of the receive loop, with the corrected time command, gives the new time, the new id and the kernel calls of `Step` |
| WallClock.WallClockProc | src/wall_clock.c:54-125 | the clock registers with the dispatcher, then its locals and calls are those of `Run` (with the corrected time command) over the received messages |
| WallClock.SetWithoutTime | src/wall_clock.c:100-103 | corrected: a time command with nothing after the letter is handled, and the eight bytes from the letter on are parsed |
| WallClock.RunCons | src/wall_clock.c:65-124 | the loop handles the first message, then the rest from the state it leaves |
| WallClock.ResetStep | src/wall_clock.c:70-84 | R sets the time to 0, increments the id and sends a tick tagged with the new id back to the clock |
| WallClock.TickStep | src/wall_clock.c:86-98 | a tick with the current id advances the time, is sent again after 1000 ms, and the new time goes to the CRT; a stale tick is only released |
| WallClock.TerminateStalesTicks | src/wall_clock.c:86-120 | after T, the tick that was outstanding is stale and is only released |
| WallClock.UnknownCommand | src/wall_clock.c:121-123 | any other command only releases its message |
| Console.CText | src/consoleio.c:3-13 | the copied text ends at the first NUL, which it includes |
| Console.CopyStr | src/consoleio.c:3-13 | copyStr writes exactly the source's characters up to and including the first NUL, and leaves the rest of `dest` |
| Console.CopyMessage | src/consoleio.c:15-19 | the copy has the same text as the original, in the freshly requested block |
| Console.Lookup | src/consoleio.c:42-47 | the pid of the earliest registration of an identifier, or -1 when there is none |
| Console.Route | src/consoleio.c:40-48 | the receiver is -1 when the text does not start with '%' or no registered identifier is its second character; otherwise it is the pid of the earliest registration of that character |
| Console.KcdStep | src/consoleio.c:29-62 | handling one message keeps the table within 16 entries |
| Console.KcdRun | src/consoleio.c:27-63 | handling any sequence of messages keeps the table within 16 entries |
| Console.KcdRunCons | src/consoleio.c:27-63 | the loop handles the first message, then the rest from the table it leaves |
| Console.KcdTableGrows | src/consoleio.c:30-36 | the table only grows, keeps its earlier entries, and never exceeds 16 entries |
| Console.Registration | src/consoleio.c:30-37 | a KCD_REG message adds its identifier and sender while there is room, leaves a full table as it is, and is always released |
| Console.Dispatch | src/consoleio.c:39-61 | another message leaves the table and goes to the CRT as DEFAULT; a routable one is also copied to the registered pid |
| Console.Find | src/consoleio.c:42-47 | the linear search finds `Lookup` over the first `n` entries |
| Console.KcdHandle | src/consoleio.c:29-62 | one pass of the receive loop, on the two arrays, gives the table and the calls of `KcdStep` |
| Console.KcdProc | src/consoleio.c:21-64 | the dispatcher's table and calls are those of `KcdRun` from an empty table |
| Console.CrtProc | src/consoleio.c:66-75 | crtProc releases every message it receives, in the order received |
| Stress.Reported | src/stress_proc.c:104-107 | the report is the same block, made DEFAULT, starting with "Process C\n\r" and a NUL |
| Stress.ParkedFirst | src/stress_proc.c:92-102 | a parked message is handled before anything new is received, oldest first |
| Stress.ParkedInOrder | src/stress_proc.c:96-101 | parked messages that trigger nothing are released in the order they were parked |
| Stress.WaitParks | src/stress_proc.c:115-132 | while waiting, every message up to the WAKEUP10 is parked in arrival order, and the WAKEUP10 is released, not parked |
| Stress.WaitBlocked | src/stress_proc.c:115-132 | with no WAKEUP10 to come, every message received is parked and procC stays waiting |
| Stress.EnvelopeOf | src/stress_proc.c:76-78 | a received message's envelope lies one envelope size below it and is not NULL |
| Stress.Park | src/stress_proc.c:122-131 | parking appends the message's envelope at the tail of the local list, making it the head too on an empty list |
| Stress.Unpark | src/stress_proc.c:96-101 | taking from the local list gives the oldest parked message and empties the tail with the list |
| Stress.Take | src/stress_proc.c:92-102 | the top of the loop takes the oldest parked message if there is one, and otherwise receives |
| Stress.Await | src/stress_proc.c:115-133 | the inner loop parks until the WAKEUP10 arrives, or the inbox runs out with procC still waiting |
| Stress.ProcC | src/stress_proc.c:84-139 | procC's calls and its waiting flag are those of `Run` over the received messages |

## Left out

- MSP save and restore, `__rte`, `__get_MSP` and `__set_MSP` (src/k_process.c:220-235): the main stack pointer is the field `msp` and each saved stack pointer is an opaque `sp`. A NEW process is not entered.
- `memory_init` (src/k_memory.c:75-125): it depends on linker symbols and the raw RAM layout. Only its 8-byte alignment of `gp_stack` is kept, as `KMemory.Memory.constructor`.
- The model has no single RAM map. The PCB arena, the envelope words, the free-list links and the delay-queue links are separate maps, so aliasing between them is not modelled.
- The UART driver, `timer_init`'s register setup and the `TIMER0_IRQHandler` assembler stub are hardware plumbing and are left out.
- `timer_i_process` (src/k_process.c:385-399) calls a function that does not exist, and nothing calls it.
- `k_receive_message` and `k_delayed_send` (src/k_message.c:41-47) are empty stubs. The user processes' receive, delayed send, memory requests and releases are recorded as `Ipc.Action` values.
- set_priority.c uses `nextNonWhitespace` as returning a pointer and compares a digit value to whitespace characters. Its behaviour cannot be stated without guessing.
- The test processes of usr_proc.c and procA/procB are left out; two of their checks are stated as `KMemory.WritesSurvive` and `Process.SetThenGet`.
- Interrupts, preemption by the timer, and the re-entrancy of kernel calls from handlers are left out. Every operation runs to completion.
- The DEBUG_0 output and the UART output of procC are left out.
- rtx.h and k_memory.h are not part of this model. `BLOCK_SIZE`, `KCD_REG`, `DEFAULT` and the `PID_*` values are placeholders; the proofs use only that they are distinct, and that `BLOCK_SIZE` is a positive multiple of 8.
- Kernel.Rtx.SendMessage: looks the receiver up by `process_id`. The code indexes `gp_pcbs[recv_id]` (src/k_message.c:15), a name not in scope there.
- Kernel.Rtx.SendMessage: requires a running process, because the code reads `gp_current_process->m_pid` (src/k_message.c:12). It also requires an envelope that is not NULL and in no mailbox, because the code checks neither.
- Kernel.Rtx.Scheduler: requires the current PCB to be in no queue. Every caller keeps this, since the running PCB is never queued.
- Timer.Timer0.TimerInsert: reads `curr->next` only after the NULL test. The code reads it first (src/timer.c:159-163), which dereferences NULL on an empty queue; the value is never used on that path.
- Timer.Timer0.TimerDequeue: requires a non-empty queue; the code dereferences the head unchecked (src/timer.c:199-200), and its only caller tests `message_ready` first.
- Timer.Timer0.TimerIRQHandler: the envelopes waiting in the timer process's mailbox are its `pending` parameter, and the delivered ones are its result. `timer_send_message` is not modelled.
- KMemory.Memory.HeapInit: requires room for at least one block. With none, the code links a block below `p_end`.
- KMemory.Memory.ReleaseMemoryBlock: requires a block that is not already free and not NULL. The code validates neither, and writes `newTail->next` through a NULL pointer unchecked (src/k_memory.c:196-197).
- Process.Wake: requires a non-empty BlockPQ. On an empty one `processDequeue` returns NULL, and makeReady writes through it (src/k_process.c:86-87). That is undefined behaviour and is not modelled.
- Process.MakeReady: requires a non-empty BlockPQ, for the same NULL write (src/k_process.c:86-87).
- Kernel.Rtx.MakeReady: requires a non-empty BlockPQ, for the same NULL write (src/k_process.c:86-87).
- Kernel.Rtx.Wake: requires a non-empty BlockPQ, for the same NULL write (src/k_process.c:86-87).
- WallClock.Handle: requires a time command's eight time bytes to lie inside the message buffer. The code reads past the buffer's end otherwise (src/wall_clock.c:102-103). A command with no time text is handled (`WallClock.SetWithoutTime`).
- WallClock.WallClockProc: requires the same of every received time command.
- Stress.ProcC: the `release_processor` call that ends each iteration (src/stress_proc.c:137) is not recorded as an action.
- Console.CopyMessage: the requested block is a parameter; the request itself is not recorded.

## Findings

| source | as written | input that shows it | evidently intended | confidence | as-written member | corrected member |
|---|---|---|---|---|---|---|
| src/k_process.c:190-197 | the scheduler re-enqueues the current process only when it is BLK or RDY, but a process that yields is RUN | any running process that calls k_release_processor while another process is ready | a yielding RUN process goes back to the tail of its ReadyPQ level, so the invariant holds (Process.ReleaseKeepsInv, Process.Yield) | high (not executed) | Process.ReleaseAsWrittenLosesYielder | Process.Schedule |
| src/k_process.c:280-305 | when the middle-of-list search does not find the PCB, it is still appended to its new level | a WAIT process, in no queue, whose priority is changed while its old ready level holds two PCBs | a PCB not on its old level is not enqueued, so the invariant holds (Process.MoveKeepsInv) | medium (not executed) | Process.MoveAsWrittenQueuesWaiting | Process.Move |
| src/wall_clock.c:102-103 | the scan for the time starts at `mtext[0]`, which is the '%' of "%WS", so offset 0 is used | the command "%WS 12:34:56" | the time after the command letter is parsed, giving 12:34:56 (WallClock.SetTimeOfText) | high (not executed) | WallClock.SetTimeAsWrittenExample | WallClock.SetTime |
