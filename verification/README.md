# Tyrne kernel core: a verified model

This project models the portable core of the Tyrne microkernel in Dafny and proves properties of it:
capability tables, rendezvous IPC, the cooperative scheduler with its IPC bridge, the kernel-object
arena, and the tick/nanosecond conversions.

It has three layers.

* **Stored state.** Classes whose methods update slot arrays, links, ring buffers and queue slots in
  place, as the kernel does (`Arena`, `CapTable`, `Ipc`, `SchedQueue`, `Scheduler`).
* **Meaning.** What that state stands for, with links, free lists, lazily reset slots and wrap-around
  gone: a pool of occupied slots with free counts (`SlotPool`), a derivation forest (`CapForest`), the
  state of each live endpoint (`Rendezvous`), a ready queue with task states (`Dispatch`, `Bridge`).
  Each operation is a relation or function on these, with its error cases in the order of the code.
  Every method is proved to perform its relation. Laws (`CopyLaw`, `DeriveLaw`, `DropLaw`, `SendLaw`,
  `RecvLaw`, `SendYieldLaw` and others) say what each relation means to a caller who sees only handles,
  rights, descent and endpoint states: every answer if and only if its condition, and every effect.
* **Runs.** Transition systems made of those relations, and theorems about all their runs
  (`Authority`, `Conservation`, `Machine`, `Progress`, `Receivers`), with concrete runs that show what
  their conditions are for (`Witnesses`).

`Rights` and `Timer` are arithmetic of their own.

| file | models |
|---|---|
| `SlotPool.dfy`, `Arena.dfy` | generation-tagged slots with an embedded free list; the object arena |
| `CapForest.dfy`, `CapSlots.dfy`, `CapTable.dfy` | the derivation forest; its stored form; the table |
| `Rendezvous.dfy`, `Ipc.dfy` | endpoint states and the IPC operations; their stored form |
| `SchedQueue.dfy`, `Dispatch.dfy`, `Bridge.dfy`, `Scheduler.dfy` | ring buffer, scheduler, IPC bridge |
| `Authority.dfy`, `Conservation.dfy` | runs of many tasks with their own tables |
| `Machine.dfy`, `Progress.dfy`, `Receivers.dfy`, `Witnesses.dfy` | boot, and runs of the whole machine through the bridge |
| `Rights.dfy`, `Timer.dfy` | rights bit field; tick/nanosecond conversion |

## Assumptions about callers

* Each task owns one capability table, and only that task operates on it.
* An endpoint is destroyed only when it carries no capability; in machine runs, also only when no task
  is suspended in a receive on it. `Conservation.UndrainedDestroyLoses` and
  `Rendezvous.DestroyedElsewhere` show that the first is necessary, `Machine.DestroyKeepsInvIff` the second.
* An endpoint slot is freed fewer than 2^32 times between two uses of its queue slot
  (`Rendezvous.CreatedIdleIff` is the exact condition).
* In machine runs endpoints are driven only through the bridge. Tasks may be registered at any time, each
  in a vacant slot: `Machine.RegisterKeepsInvIff` and `Machine.BootedOkIff` show that `add_task`, which
  does not check this, keeps the machine consistent exactly then.
* The wake-up guarantee needs one task whose receives succeed on each endpoint;
  `Progress.FirstTakerGets` and `Progress.ResumeAfterWake` say what happens otherwise.

## Where code and documentation differ

* The documentation of `PendingAfterResume` calls it a sign that a sender did not deliver or woke the
  wrong task (kernel/src/ipc/mod.rs:85-96). `Witnesses.SecondReceiverSteals` is a run in which
  every sender delivers and wakes the right task, and a second receiver makes the first one report it.
* A slot handle is documented as failing for good once its slot is freed. A generation has 32 bits:
  `SlotPool.HandleResolvesIff` is exact, and `SlotPool.HandleComesBack` is a run at whose end an old
  handle resolves to another value. The same wrap-around lets a new endpoint inherit a registered
  receiver (`Rendezvous.InheritedAfterWrap`).
* Single-waiter wake-up is documented as correct because at most one task waits per endpoint
  (kernel/src/sched/mod.rs:286-291). That holds, but after `Deadlock` or `PendingAfterResume` no task
  waits although one is recorded, and a send then answers `Delivered` without waking anyone: runs that
  do this are `Witnesses.SecondReceiverSteals` and `Witnesses.LoneReceiverDeadlocks`, and exactly when it
  happens is `Receivers.OrphanedIff` with `Receivers.DeliveryWakesIff`.
* With an idle task the ready queue is documented as never empty (kernel/src/sched/mod.rs:20-25,
  docs/decisions/0022-idle-task-and-typed-scheduler-deadlock.md:86). It is empty exactly while the idle
  task runs and no other task is ready (`Progress.EmptyIffOnlyIdleReady`), and
  `Witnesses.IdleAloneEmptiesQueue` is such a run. That no receive reports `Deadlock` still holds.
* The round trip of the tick conversions is documented as exact at frequencies that divide 10^9
  (docs/decisions/0010-timer-trait.md:145). From ticks, it is exact at any frequency f up to 10^9 iff
  (count - 1) * 10^9 < (2^64 - 1) * f, which fails only where the clock saturates, and at any higher f iff
  count * 10^9 modulo f is below 10^9 (`Timer.RoundTripExactIff`; `Timer.SaturatedRoundTrip` is an input
  at 1 Hz). From nanoseconds, `Timer.DeadlineRoundTripExactIff` is the exact condition.

## Model

| member | source | states |
|---|---|---|
| SlotPool.PopChain | kernel/src/cap/table.rs:531-536 | taking the head leaves the chain of exactly the remaining free slots |
| SlotPool.PushChain | kernel/src/cap/table.rs:540-550 | a slot put in front of the head extends the chain without repetition |
| SlotPool.FullIff | kernel/src/obj/arena.rs:127-128 | the number of occupied slots equals the capacity exactly when no slot is empty |
| SlotPool.AllocBinds | kernel/src/obj/arena.rs:127-139 | storing a value binds one handle, fresh if the slot was empty, and changes no other binding of the handle map |
| SlotPool.ReleaseUnbinds | kernel/src/obj/arena.rs:145-155 | freeing a slot removes one binding of the handle map and changes no other |
| SlotPool.BindingsSize | kernel/src/obj/arena.rs:68-73 | as many handles resolve as slots are occupied |
| SlotPool.RunKeepsUnfreed | kernel/src/obj/arena.rs:145-155 | over any run free counts only grow, and a slot never freed keeps its value |
| SlotPool.HandleResolvesIff | kernel/src/obj/arena.rs:160-166 | over any run a handle resolves iff its slot is occupied and was freed a multiple of 2^32 times since issue |
| SlotPool.HandleNeverReassigned | kernel/src/obj/arena.rs:22-31 | within fewer than 2^32 frees a handle denotes its original allocation or nothing |
| SlotPool.HandleComesBack | kernel/src/obj/arena.rs:145-155 | a run of allocations and frees after which, at exactly 2^32 frees, an old handle resolves to another value |
| ObjectArena.Arena.constructor | kernel/src/obj/arena.rs:89-121 | a new arena of any capacity up to 65535, zero included, is valid and empty |
| ObjectArena.Arena.Allocate | kernel/src/obj/arena.rs:127-139 | refuses exactly when full, else fills one empty slot and returns the handle that resolves to it |
| ObjectArena.Arena.Free | kernel/src/obj/arena.rs:145-155 | returns the value iff the handle resolves and then releases exactly that slot; otherwise nothing changes |
| ObjectArena.Arena.Get | kernel/src/obj/arena.rs:160-166 | returns the value of the pool iff the handle resolves |
| ObjectArena.Arena.Put | kernel/src/obj/arena.rs:170-176 | a write through the mutable reference changes that one value only |
| CapForest.DescendantConfined | kernel/src/cap/table.rs:185-213 | every descendant is deeper than, distinct from, and holds only rights of, each ancestor |
| CapForest.ClosedHoldsDescendants | kernel/src/cap/table.rs:358-383 | a set closed under children holds all descendants |
| CapForest.CopyKeepsOk | kernel/src/cap/table.rs:167-225 | a copy, as peer of its source, keeps the derivation invariant, rights order and depth included |
| CapForest.DeriveKeepsOk | kernel/src/cap/table.rs:243-305 | a derivation keeps the derivation invariant and the depth limit |
| CapForest.RevokeKeepsOk | kernel/src/cap/table.rs:314-398 | freeing all descendants keeps the derivation invariant |
| CapForest.RevokeIsComplete | kernel/src/cap/table.rs:307-398 | after a revocation no handle of a descendant resolves, the source is unchanged and childless, every other handle denotes the same node |
| CapForest.InsertRootLaw | kernel/src/cap/table.rs:140-154 | refused iff the table is full; otherwise a new handle denotes the capability, which has no ancestor and no child, and no other handle changes |
| CapForest.CopyLaw | kernel/src/cap/table.rs:167-225 | each answer iff its condition, in order; a copy has the rights asked for and its source's object, descends from exactly the nodes its source descends from, and changes no other handle or line of descent |
| CapForest.DeriveLaw | kernel/src/cap/table.rs:243-305 | each answer iff its condition, in order, with depth limit 16; a derived capability has the rights and object asked for, is a child of its source, and descends from exactly the source and its ancestors |
| CapForest.DropLaw | kernel/src/cap/table.rs:416-430 | succeeds iff the handle resolves to a leaf; then it resolves no more, and every other handle denotes what it did |
| CapForest.TakeLaw | kernel/src/cap/table.rs:444-464 | taking is dropping with the capability returned |
| CapForest.RevokeLaw | kernel/src/cap/table.rs:314-324 | succeeds iff the handle resolves and has `REVOKE`; each refusal iff its condition |
| CapForest.DerivedIsRevoked | kernel/src/cap/table.rs:307-314 | deriving, copying the derived capability and revoking the source leaves neither of the two resolving |
| CapSlots.PlaceStep | kernel/src/cap/table.rs:195-219 | linking a popped slot in front of its parent's children keeps the whole table invariant |
| CapSlots.UnlinkForest | kernel/src/cap/table.rs:554-597 | redirecting the link over a leaf and emptying it keeps the stored forest and frees exactly that leaf |
| CapSlots.UnlinkStep | kernel/src/cap/table.rs:416-430 | unlinking, emptying and listing a leaf keeps the whole table invariant |
| CapSlots.ExpandQueue | kernel/src/cap/table.rs:359-383 | appending the children of a queued slot repeats nothing and never outgrows the scratch array |
| CapSlots.QueueIsSubtree | kernel/src/cap/table.rs:338-383 | a fully expanded queue is closed under children and holds only slots below the source |
| CapSlots.SubtreeIsDescendants | kernel/src/cap/table.rs:338-383 | such a queue is exactly the set of proper descendants |
| CapSlots.RevokeFinish | kernel/src/cap/table.rs:385-395 | emptying the queued slots and clearing the source's link keeps the stored forest and releases exactly the descendants |
| CapTable.CapabilityTable.constructor | kernel/src/cap/table.rs:98-127 | a new table is valid and empty |
| CapTable.CapabilityTable.ResolveHandle | kernel/src/cap/table.rs:506-518 | succeeds iff the handle resolves in the forest |
| CapTable.CapabilityTable.PopFree | kernel/src/cap/table.rs:531-536 | returns the head and unlinks it, or changes nothing when there is none |
| CapTable.CapabilityTable.FreeSlot | kernel/src/cap/table.rs:540-550 | empties the slot, bumps its generation modulo 2^32 and prepends it, with the chain free of repetition; an index outside the table changes only the head |
| CapTable.CapabilityTable.UnlinkFromSiblings | kernel/src/cap/table.rs:554-597 | the walk always finds the slot and redirects exactly one link; the not-found exit is unreachable |
| CapTable.CapabilityTable.Install | kernel/src/cap/table.rs:195-224 | fills one empty slot with a childless node unless full; the exit for a missing parent is unreachable |
| CapTable.CapabilityTable.InsertRoot | kernel/src/cap/table.rs:140-154 | installs a root of depth 0 or reports exhaustion with the table unchanged |
| CapTable.CapabilityTable.CapCopy | kernel/src/cap/table.rs:167-225 | installs a peer with no more rights, or the first applicable error with the stored table unchanged |
| CapTable.CapabilityTable.CapDerive | kernel/src/cap/table.rs:243-305 | installs a child one level down, or the first applicable error with the stored table unchanged |
| CapTable.CapabilityTable.CollectDescendants | kernel/src/cap/table.rs:338-383 | both loops terminate, the bound check never fires, and the queue is the subtree without repetition |
| CapTable.CapabilityTable.CapRevoke | kernel/src/cap/table.rs:314-398 | frees exactly the proper descendants, each once; every other slot is bit for bit unchanged except the source's child link |
| CapTable.CapabilityTable.CapDrop | kernel/src/cap/table.rs:416-430 | frees a live leaf, always; refuses stale handles and interior nodes with the stored table unchanged |
| CapTable.CapabilityTable.CapTake | kernel/src/cap/table.rs:444-464 | returns the capability of a live leaf and frees it, always; otherwise the stored table is unchanged |
| CapTable.CapabilityTable.IsFull | kernel/src/cap/table.rs:471-473 | true iff every slot is occupied |
| CapTable.CapabilityTable.Lookup | kernel/src/cap/table.rs:480-483 | the capability of the forest node iff the handle resolves |
| CapTable.CapabilityTable.ReferencesObject | kernel/src/cap/table.rs:496-501 | true iff some live capability names the object |
| Rendezvous.CreatedIdleIff | kernel/src/ipc/mod.rs:165-174 | an endpoint created in a reused slot starts idle iff the old state was idle or the slot's frees since are not a multiple of 2^32; other endpoints are untouched |
| Rendezvous.InheritedAfterWrap | kernel/src/ipc/mod.rs:211-228 | a run of 2^32 destructions and creations of one endpoint slot, with the queues consistent throughout, after which a new endpoint has a registered receiver |
| Rendezvous.DestroyedElsewhere | kernel/src/ipc/mod.rs:199-210 | destroying an endpoint affects no other; stale slots stay free of capabilities iff it had been drained |
| Rendezvous.SendKeepsOk | kernel/src/ipc/mod.rs:258-317 | a send keeps the sender's derivation invariant and the set of endpoints |
| Rendezvous.RecvKeepsOk | kernel/src/ipc/mod.rs:337-382 | a receive keeps the receiver's derivation invariant and the set of endpoints |
| Rendezvous.ReceivedIsLeafRoot | kernel/src/ipc/mod.rs:365-372 | a received capability has the rights and object it was sent with and arrives as a childless root under a fresh handle |
| Rendezvous.SendLaw | kernel/src/ipc/mod.rs:258-317 | a send succeeds iff a live capability with `SEND` names a live endpoint that is idle or has a receiver, and what is offered resolves, has `TRANSFER` and is a leaf; each refusal iff its condition, in order |
| Rendezvous.SendEffect | kernel/src/ipc/mod.rs:294-316 | `Delivered` iff a receiver was registered, `Enqueued` iff idle; the endpoint then holds the message and the offered capability, whose handle is dead; nothing else changes |
| Rendezvous.RecvLaw | kernel/src/ipc/mod.rs:337-382 | without `RECV` on a live endpoint `InvalidCapability`; otherwise pending iff idle, `QueueFull` iff a receiver is registered, and what the endpoint holds iff it holds something and a capability finds room |
| Rendezvous.SendThenRecv | kernel/src/ipc/mod.rs:12-32 | a receive after a send gets exactly that message and, as a new leaf, that capability, and leaves the endpoint idle |
| Ipc.IpcQueues.ResetIfStaleGeneration | kernel/src/ipc/mod.rs:211-228 | no live endpoint can tell that the reset happened, and it never drops a capability |
| Ipc.CreateEndpoint | kernel/src/obj/endpoint.rs:68-76 | allocates or reports a full arena; the new endpoint starts idle within 2^32 frees and the queues stay consistent |
| Ipc.DestroyEndpoint | kernel/src/obj/endpoint.rs:83-88 | frees the endpoint iff the handle resolves; the queues stay consistent iff it had been drained |
| Ipc.ValidateEpCap | kernel/src/ipc/mod.rs:419-434 | an endpoint iff the handle denotes a live capability on it with the required right, else `InvalidCapability` |
| Ipc.TakeCapIfSome | kernel/src/ipc/mod.rs:452-463 | fails iff the handle is stale or the capability has children, with the stored table unchanged |
| Ipc.InstallCapIfSome | kernel/src/ipc/mod.rs:465-476 | fails iff there is a capability and the table is full |
| Ipc.IpcSend | kernel/src/ipc/mod.rs:258-317 | performs the send on effective endpoint states; a refused send leaves the stored table and every live endpoint unchanged, a stale endpoint capability does not touch the queues |
| Ipc.IpcRecv | kernel/src/ipc/mod.rs:337-382 | performs the receive on effective endpoint states; the install after the pre-flight check cannot fail; a refused receive changes nothing |
| ReadyQueue.SchedQueue.Enqueue | kernel/src/sched/mod.rs:76-91 | appends, or is refused iff the buffer is full, across wrap-around |
| ReadyQueue.SchedQueue.Dequeue | kernel/src/sched/mod.rs:94-109 | removes and returns the head, `None` iff empty, across wrap-around |
| Dispatch.Partition | kernel/src/sched/mod.rs:188-206 | every registered task is exactly one of current, queued once, blocked |
| Dispatch.ReadyHasRoom | kernel/src/sched/mod.rs:301-309 | the ready queue always has room for the tasks outside it |
| Dispatch.EmptyIffNoneReady | kernel/src/sched/mod.rs:549-577 | with a current task the ready queue is empty iff no other slot is marked ready |
| Dispatch.AddKeepsPartitionIff | kernel/src/sched/mod.rs:246-268 | registering keeps the partition iff the slot is not already marked ready |
| Dispatch.YieldKeepsOk | kernel/src/sched/mod.rs:546-577 | yielding keeps the partition |
| Dispatch.WakeKeepsOk | kernel/src/sched/mod.rs:294-314 | waking keeps the partition |
| Dispatch.BlockKeepsOk | kernel/src/sched/mod.rs:762-789 | blocking and dispatching keeps the partition |
| Dispatch.WakeLaw | kernel/src/sched/mod.rs:294-314 | a wake-up makes exactly the first blocked task ready, queues it last, and changes nothing else |
| Dispatch.RoundRobin | kernel/src/sched/mod.rs:546-577 | after k yields the k-th task in line is current; after as many as there are tasks in line everything is as before |
| Bridge.SendYieldLaw | kernel/src/sched/mod.rs:622-678 | `Enqueued` iff the checks pass and the endpoint was idle, with the scheduler unchanged; `Delivered` iff a receiver was registered and a task is current; a refusal iff the send was refused, for the same reason |
| Bridge.RecvYieldLaw | kernel/src/sched/mod.rs:712-803 | each answer iff the endpoint and scheduler state that calls for it: switch, `Deadlock`, `NoCurrentTask`, `QueueFull`, `ReceiverTableFull`, or the message held |
| Bridge.ResumeLaw | kernel/src/sched/mod.rs:805-832 | each answer of a resumed receive iff the endpoint state that calls for it |
| CooperativeScheduler.Scheduler.AddTask | kernel/src/sched/mod.rs:246-268 | registers and queues the task; refused iff the queue is full, with nothing registered, and never when the slot of a consistent scheduler is not that of a ready task |
| CooperativeScheduler.Scheduler.UnblockReceiverOn | kernel/src/sched/mod.rs:294-314 | wakes the first task blocked on the endpoint and queues it; the queue-full panic is unreachable |
| CooperativeScheduler.Scheduler.StartPrelude | kernel/src/sched/mod.rs:427-446 | the head of the queue becomes current |
| CooperativeScheduler.Scheduler.YieldNow | kernel/src/sched/mod.rs:531-605 | rotates the queue, or changes nothing when it is empty; switch indices differ and no panic is reachable |
| CooperativeScheduler.Scheduler.BlockCurrent | kernel/src/sched/mod.rs:756-789 | blocks and dispatches, or reports `Deadlock` with the scheduler as it was; switch indices differ |
| CooperativeScheduler.IpcSendAndYield | kernel/src/sched/mod.rs:622-678 | answers `Enqueued`, `Delivered` or the refusal exactly by the endpoint's state and the sender's authority; the send is followed by wake and yield iff it delivered; a failing send leaves the scheduler unchanged; it switches iff it delivered and another task is then ready, from the sender's slot to the different slot of the next task |
| CooperativeScheduler.IpcRecvAndYield | kernel/src/sched/mod.rs:712-803 | the receive followed by blocking iff it is pending and another task is ready, and `Deadlock` if none is; it switches from the receiver's slot to the different slot of the next task |
| CooperativeScheduler.IpcRecvResume | kernel/src/sched/mod.rs:805-832 | the second receive, with a second `Pending` turned into `PendingAfterResume` |
| Authority.StepKeepsOk | kernel/src/cap/table.rs:81-87 | every operation of any task keeps every table's derivation invariant |
| Authority.RightsConfined | kernel/src/cap/rights.rs:10-14 | over any run without outside grants no capability in a table or in flight has a right that no capability had at the start, and its object is that capability's or one that a derivation in the run was asked for |
| Authority.UseNeedsAuthority | kernel/src/ipc/mod.rs:419-434 | over any run without outside grants every successful send or receive is by `SEND` or `RECV` of some capability at the start, on that endpoint unless an earlier derivation in the run named it |
| Authority.HandleExact | kernel/src/cap/table.rs:35-39 | over any run of all tasks a capability handle denotes its capability until its slot is freed and then nothing, within 2^32 frees |
| Authority.RevokedForGood | kernel/src/cap/table.rs:307-314 | a revocation reaches everything that descended from its source at any earlier time: whatever runs before and after it, no such handle resolves at the end within 2^32 frees |
| Authority.DescentPersists | kernel/src/cap/table.rs:405-412 | over any run a line of descent lasts until its lower end is freed |
| Authority.MadeThenRevoked | kernel/src/cap/table.rs:156-314 | a capability made by copying or deriving is dead for good after any later revocation of what its source descends from, or of the source it was derived from |
| Authority.GivenUpForGood | kernel/src/cap/table.rs:400-464 | a handle dropped or sent away never resolves again within 2^32 frees |
| Authority.EndpointHandleExact | kernel/src/obj/arena.rs:22-31 | over any run an endpoint handle denotes its endpoint until that is destroyed and then nothing, within 2^32 frees |
| Conservation.TransferConserves | kernel/src/ipc/mod.rs:24-32 | no outcome of send or receive changes the multiplicity of any capability over all tables and endpoints |
| Conservation.RunConserves | kernel/src/ipc/mod.rs:24-32 | nor does any run of transfers |
| Conservation.UndrainedDestroyLoses | kernel/src/ipc/mod.rs:199-210 | destroying an undrained endpoint loses exactly the capability it holds |
| Conservation.QueuesHoldNoMore | kernel/src/ipc/mod.rs:199-227 | the stored queue slots hold exactly the capabilities that live endpoints hold |
| Conservation.MessageHistory | kernel/src/ipc/mod.rs:12-20 | over any run, what an endpoint held and was sent equals, in order, what was received and what it still holds, each message with its capability |
| Conservation.SentIsParked | kernel/src/ipc/mod.rs:288-311 | over any run a message sent is what the endpoint holds until some receive takes it |
| Conservation.SentIsReceived | kernel/src/ipc/mod.rs:337-382 | the next receive there, whatever ran in between, gets exactly that message and capability, or reports a full table |
| Machine.MStepIsStep | kernel/src/sched/mod.rs:622-832 | every bridge step is a step of the capability system, so its run theorems apply |
| Machine.Coupling | kernel/src/sched/mod.rs:284-314 | a blocked task's endpoint records a waiting receiver, no second task is blocked there, and the scan finds exactly that task |
| Machine.RegisterKeepsInvIff | kernel/src/sched/mod.rs:246-268 | registering a task in a running machine keeps the joint invariant iff its slot is vacant |
| Machine.DestroyKeepsInvIff | kernel/src/obj/endpoint.rs:83-88 | destroying an endpoint keeps the joint invariant iff no task is suspended in a receive on it |
| Machine.BootedOkIff | kernel/src/sched/mod.rs:246-446 | registering tasks and starting gives a consistent machine iff no two tasks share a slot |
| Machine.StepKeepsInv | kernel/src/sched/mod.rs:531-832 | every step keeps the partition, the coupling, all table invariants, and the endpoint capability of every suspended task |
| Machine.RunKeepsInv | kernel/src/sched/mod.rs:531-832 | so they hold in every state of every run |
| Machine.TableOpsAreSteps | kernel/src/cap/table.rs:140-464 | every table operation of the current task, with any result its relation allows, is a step |
| Machine.EndpointOpsAreSteps | kernel/src/obj/endpoint.rs:68-88 | so is creating an endpoint, and destroying one that is drained and not in use |
| Machine.SchedOpsAreSteps | kernel/src/sched/mod.rs:246-605 | so are a yield and the registration of a task in a vacant slot |
| Machine.SendAnswersOnce | kernel/src/sched/mod.rs:622-678 | every bridged send, with whatever arguments, has exactly one answer and next state |
| Machine.RecvIsAnswered | kernel/src/sched/mod.rs:712-803 | every bridged receive has an answer |
| Machine.ResumeIsAnswered | kernel/src/sched/mod.rs:805-832 | every suspended task that is dispatched can finish its receive |
| Progress.MachineConfined | kernel/src/sched/mod.rs:622-832 | no run through the bridge widens rights, or brings in an object that no capability had and no derivation named |
| Progress.DeliveryStays | kernel/src/ipc/mod.rs:288-293 | no step but a receive on it removes or changes what a live endpoint delivers |
| Progress.UntakenIsHeld | kernel/src/sched/mod.rs:653-661 | over any run from a waking send, until the woken task resumes or some task receives there, the endpoint holds exactly that message and capability |
| Progress.FirstTakerGets | kernel/src/ipc/mod.rs:365-372 | the first receive on the endpoint in such a run is another task's and gets exactly that message and capability |
| Progress.ResumeAfterWake | kernel/src/sched/mod.rs:805-832 | the woken task then collects its delivery if nobody received there; it answers `PendingAfterResume` iff the endpoint is idle, and only if somebody did |
| Progress.NoLostWakeup | kernel/src/sched/mod.rs:712-832 | over any run in which only one task's receives succeed on each endpoint every resumed receive returns exactly the message and capability whose send woke it, or reports a full table with both still parked |
| Progress.MovesUp | kernel/src/sched/mod.rs:549-577 | each dispatch moves a queued task up by one place, whatever the mix of operations |
| Progress.BoundedWait | kernel/src/sched/mod.rs:549-577 | the task at position k becomes current with exactly the k+1-st dispatch |
| Progress.ReceiverBeforeSender | kernel/src/sched/mod.rs:653-675 | a woken receiver is dispatched at once or queued directly ahead of the sender that woke it |
| Progress.SenderRunsAfterReceiver | kernel/src/sched/mod.rs:653-675 | over any run from a waking send the sender is not current again before the receiver has been |
| Progress.IdleRulesOutDeadlock | kernel/src/sched/mod.rs:18-28 | if some task only ever yields, no receive in the run returns `Deadlock` |
| Progress.EmptyIffOnlyIdleReady | kernel/src/sched/mod.rs:20-25 | in such a run the ready queue is empty iff that task is current and no other slot is ready |
| Progress.DeadlockLeavesReceiver | kernel/src/sched/mod.rs:160-178 | `Deadlock` leaves scheduler and tables as they were and the receiver registered |
| Progress.DeadlockThenFull | kernel/src/sched/mod.rs:170-173 | the same call again reports `QueueFull` and changes nothing |
| Receivers.OrphanedIff | kernel/src/sched/mod.rs:162-178 | after a step an endpoint records a receiver that no task stands for iff the step answered `Deadlock` or `PendingAfterResume` there, or it did before and the step did not deliver to it |
| Receivers.RecordedIffOneBlocked | kernel/src/sched/mod.rs:284-314 | over any run without such answers a waiting receiver is recorded iff exactly one task is blocked there |
| Receivers.DeliveryWakesIff | kernel/src/sched/mod.rs:653-661 | a delivering send wakes the blocked task with that message and capability iff the recorded receiver is a task; otherwise no task changes state |
| Receivers.DisciplinedReceivers | kernel/src/sched/mod.rs:18-28 | with an idle task and one receiver per endpoint recorded receivers and blocked tasks agree in every state of the run |
| Witnesses.SecondReceiverSteals | kernel/src/sched/mod.rs:814-832 | a run in which a second receiver takes the delivery that woke the first, which answers `PendingAfterResume`; the next send is `Delivered` and wakes nobody |
| Witnesses.LoneReceiverDeadlocks | kernel/src/sched/mod.rs:160-178 | a run in which the only task's receive answers `Deadlock`, and its next send is `Delivered` to the receiver left behind |
| Witnesses.IdleAloneEmptiesQueue | kernel/src/sched/mod.rs:20-25 | a run with an idle task in which the ready queue becomes empty |
| Rights.ContainsOnBits | kernel/src/cap/rights.rs:80-82 | the bit test of `contains` is inclusion of the sets of rights |
| Rights.FromRawEncodes | kernel/src/cap/rights.rs:68-70 | `from_raw` keeps exactly the known rights among the raw bits |
| Timer.WideProductFits | hal/src/timer.rs:99-99 | the 128-bit intermediates never overflow |
| Timer.DeadlineAdjunction | hal/src/timer.rs:94-213 | the counter reaches the armed tick exactly when the clock reads the deadline or later |
| Timer.DeadlineLawIffUnsaturated | hal/src/timer.rs:198-213 | this holds for all counter values iff the conversion does not saturate |
| Timer.TickRoundTrip | hal/src/timer.rs:94-213 | as long as the clock does not saturate, ticks to nanoseconds and back is exact up to 1 GHz, and above falls short by less than frequency/10^9 ticks |
| Timer.RoundTripExactIff | hal/src/timer.rs:94-213 | when it is exact, for every count and frequency |
| Timer.SaturatedRoundTrip | hal/src/timer.rs:100-105 | an input where saturation makes it inexact at a frequency that divides 10^9 |
| Timer.DeadlineRoundTripExactIff | hal/src/timer.rs:94-213 | when nanoseconds to ticks and back is exact, for every deadline and frequency |
| Timer.TickRoundTripNeverOvershoots | hal/src/timer.rs:94-213 | it never overshoots, saturation included |
| Timer.ConversionsMonotone | hal/src/timer.rs:94-106 | both conversions are monotone, saturation included |
| Timer.ResolutionNearestIff | hal/src/timer.rs:136-153 | the resolution is the nearest nanosecond to the period, ties rounded up, iff the frequency is at most 2 GHz, and never 0 |

## Left out

- `ipc_notify`, `obj/task.rs`, `obj/notification.rs`: a single OR and thin wrappers over the arena; only easy members.
- `CapRights` union, intersection and difference: not used by the modelled operations.
- Boot code, vector table, register-save assembly: `context_switch` is the change of the current task.
- Interrupt controller, console, MMU and CPU traits, and the test doubles: plumbing over a finite configuration space.
- Task contexts, entry functions and stacks: opaque to the scheduler.
- Aliasing discipline of the raw-pointer bridge: a property of Rust's memory model, not of the algorithm.
- Capacities and index widths: capacities are parameters, at most 65535 (the kernel uses 64 capability slots, 16 tasks and 16 endpoints); slot indices are natural numbers below them.
- CapTable.CapabilityTable.Install: the tail that `insert_root`, `cap_copy` and `cap_derive` have in common is one method, as is the tail of `cap_drop` and `cap_take`.
- ObjectArena.Arena.Put: a mutable reference is modelled by the write that goes through it.
- CooperativeScheduler.IpcRecvAndYield: the receive before the switch and `IpcRecvResume` after it are two methods, because other tasks run in between.
- Preemption, multi-core, badges, cross-table revocation and endpoints with several waiters are not implemented by the kernel.
