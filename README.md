# SX86xx interrupt helper — a Dafny model

This project models the interrupt-servicing helper shared by the Semtech SX86xx
family of capacitive proximity sensor drivers (`drivers/input/sensor/sx86xx.c`).
The helper turns one falling-edge interrupt line into calls of per-status-bit
handlers. It exists in two build variants:

- **threaded** (`USE_THREADED_IRQ`): an interrupt thread processes inline under a
  mutex and restarts a delayed "pen-up" re-poll;
- **non-threaded**: a top half only schedules a delayed work item, and the work
  item refreshes the status, dispatches and re-queues itself.

It also provides the suspend/resume hooks and the init/remove lifecycle.

The model has three modules:

- `Sx86xxEvents` (events.dfy) describes what every entry point does as a sequence of
  events. An event is a foreign call (`ReadLine` for get_nirq_low, `ReadStatus` for
  refreshStatus, `CallHandler(bit, handler)`, `TouchCheck`, `CallInit`), or an
  operation on the delayed work item (`Cancel`, `Schedule(delay)`, `Fire` when the
  workqueue starts running it, `InitWork`, `CancelSync`), on the mutex
  (`MutexLock`, `MutexUnlock`) or on the interrupt line (`RequestIrq`, `FreeIrq`).
  `Replay` gives what the single delayed work slot holds after a sequence of events.
  It follows the kernel: `schedule_delayed_work` on an item that is already pending
  changes nothing, so it is the preceding cancel that makes the latest delay win.
- `Sx86xxProperties` (properties.dfy) proves what those sequences guarantee.
- `Sx86xx` (device.dfy) is the imperative model. Class `Context` stands for
  `struct sx86XX`, with the status table, the driver's flags, the IRQ state, the
  pending work slot and the event trace. Its invariant `Valid()` ties the slot to
  the trace. There is one method per C entry point. Each method appends exactly the
  event sequence that the matching function of `Sx86xxEvents` defines (`InitEvents`
  and `RemoveEvents` for the lifecycle) and states the new slot and lifecycle state.
  The entry points whose C code checks the pointer for NULL take a `Context?`:
  process_interrupt (line 29), schedule_work (119), irq (135), resume (207), init
  (254) and remove (313). So does suspend, whose body is empty. The interrupt
  thread dereferences `data` unchecked (line 101), and the two workers recover
  their context through container_of; these three take a `Context`.

The interrupt handlers require the line to be registered, and the workers require
the work item to be pending. This matches the kernel, which calls only a
registered handler and runs only a queued item. So the state `Remove` leaves
(no IRQ registered, nothing pending) means that no handler and no worker can run
afterwards, unless resume or init is called on the context again. In C, remove
frees the context (line 320), so neither is.

Inputs stand for everything outside the helper:

- `status: bv32` is the bit pattern of the `int` that refreshStatus returns.
  `(status >> i) & 1` for `i < 32` picks the same bit under a logical or an
  arithmetic shift, so `Bit` is exact for negative values too.
- `line: Option<bool>` is the get_nirq_low pointer: `None` when it is not set,
  `Some(low)` with what it returns.
- `irqErr` is the result of request_irq / request_threaded_irq, and `initRet` that
  of the device init() callback.
- `MAX_NUM_STATUS_BITS` is the context constant `maxStatusBits` (positive, at
  most 32, the table's length), because its value is defined in `sx86xx.h`, which
  is not part of this model.
- msecs_to_jiffies is the context constant `toJiffies`, an arbitrary total function.

Notes on the code:

- The scan runs from bit 0 upward, although the loop comment at line 57 says
  "counter start from MSB". The order is proved ascending.
- An IRQ-registration failure returns the registration error itself (line 281).
- A missing init pointer returns `-ENOMEM`, and the interrupt line stays
  registered: lines 302-308 have no free_irq.
- The threaded worker calls `sx86XX_process_interrupt` without taking the mutex
  (line 88). The interrupt thread and resume do take it.

## Model

| member | source | states |
|---|---|---|
| Sx86xxEvents.Dispatch | drivers/input/sensor/sx86xx.c:56-63 | the bit scan produces only handler calls, each for a bit below the scan bound |
| Sx86xxEvents.LineSampleOnce | drivers/input/sensor/sx86xx.c:104 | get_nirq_low is called iff the pointer is set, at most once, and nothing else happens |
| Sx86xxEvents.InitEvents | drivers/input/sensor/sx86xx.c:254-305 | init sets up the work item and registers the line first, and calls init() iff registration succeeded and the pointer is set |
| Sx86xxProperties.DispatchCalls | drivers/input/sensor/sx86xx.c:57-61 | handler h is called for bit i iff i < MAX_NUM_STATUS_BITS, bit i of the status is set and statusFunc[i] holds h |
| Sx86xxProperties.DispatchCallsOnce | drivers/input/sensor/sx86xx.c:57-62 | the number of calls of h for bit i is 1 when that condition holds and 0 otherwise |
| Sx86xxProperties.DispatchAscending | drivers/input/sensor/sx86xx.c:56-57 | the calls of one pass run in strictly ascending bit order |
| Sx86xxProperties.DispatchIgnoresHighBits | drivers/input/sensor/sx86xx.c:57 | two status words that agree below the scan bound give the same pass |
| Sx86xxProperties.DispatchOnlyCalls | drivers/input/sensor/sx86xx.c:59-61 | a pass does nothing but call handlers |
| Sx86xxProperties.DispatchFarAndCompDone | drivers/input/sensor/sx86xx.c:19-20 | with handlers at bits 4 (COMPDONE) and 5 (FAR), status 0x30 calls both once, bit 4 first |
| Sx86xxProperties.StartupTouchDueBits | drivers/input/sensor/sx86xx.c:41 | the startup condition on COMPDONE_IRQ 0x10 and FAR_IRQ 0x20 is status bit 4 or bit 5 |
| Sx86xxProperties.StartupTouchSuppresses | drivers/input/sensor/sx86xx.c:40-54 | in the startup window only the status read and possibly the touch check happen; the touch check runs iff COMPDONE or FAR is set and pDevice is non-null |
| Sx86xxProperties.ProcessCalls | drivers/input/sensor/sx86xx.c:56-63 | outside the startup window processing calls exactly the dispatcher's handlers and never the touch check |
| Sx86xxProperties.ProcessRepoll | drivers/input/sensor/sx86xx.c:65-72 | processing cancels and schedules the work with the re-poll delay iff not in the startup window, useIrqTimer and nirqlow |
| Sx86xxProperties.ProcessPending | drivers/input/sensor/sx86xx.c:65-72 | after processing the slot holds the re-poll delay when a re-poll was due, and is unchanged otherwise |
| Sx86xxProperties.ProcessMutexFree | drivers/input/sensor/sx86xx.c:24-73 | processing itself never takes or releases the mutex |
| Sx86xxProperties.InterruptThreadGate | drivers/input/sensor/sx86xx.c:104-106 | the interrupt thread processes iff the line is absent or low, and passes nirqlow = 1, so it re-polls whenever processing would |
| Sx86xxProperties.InterruptThreadMutex | drivers/input/sensor/sx86xx.c:101-111 | the thread's events are lock, a body that never touches the mutex, then unlock, on every path |
| Sx86xxProperties.ThreadedWorkerGate | drivers/input/sensor/sx86xx.c:86-88 | the threaded worker processes iff the line is absent or high, and passes nirqlow = 0, so it never schedules |
| Sx86xxProperties.ThreadedWorkerPending | drivers/input/sensor/sx86xx.c:75-94 | after the threaded worker has run, nothing is pending, whatever the line and the flags |
| Sx86xxProperties.ThreadedResumeNoRepoll | drivers/input/sensor/sx86xx.c:208-212 | threaded resume processes without a line gate, never schedules and leaves the slot unchanged |
| Sx86xxProperties.ThreadedResumeProcessesOnce | drivers/input/sensor/sx86xx.c:208-212 | threaded resume refreshes the status exactly once |
| Sx86xxProperties.IrqGate | drivers/input/sensor/sx86xx.c:138-144 | the top half schedules iff the line is absent or low, and then with delay 0; otherwise it only probes the line and the slot is unchanged |
| Sx86xxProperties.PlainWorkerSamplesFirst | drivers/input/sensor/sx86xx.c:167-174 | the non-threaded worker probes the line iff useIrqTimer and the probe exists, and then right before the status refresh |
| Sx86xxProperties.PlainWorkerCalls | drivers/input/sensor/sx86xx.c:177-184 | the non-threaded worker calls exactly the dispatcher's handlers |
| Sx86xxProperties.PlainWorkerRequeue | drivers/input/sensor/sx86xx.c:186-191 | the non-threaded worker schedules, and then with the re-poll delay, iff useIrqTimer and the earlier sample was low |
| Sx86xxProperties.PlainWorkerPending | drivers/input/sensor/sx86xx.c:153-196 | after the non-threaded worker the slot holds the re-poll delay when it re-queued, and nothing otherwise, whatever was pending before |
| Sx86xxProperties.PlainResumeSchedules | drivers/input/sensor/sx86xx.c:213-214 | non-threaded resume is cancel then schedule with delay 0, leaving zero-delay work pending |
| Sx86xxProperties.InitLeavesNothingPending | drivers/input/sensor/sx86xx.c:254-281 | after init the work item is initialised and idle, whatever it held before |
| Sx86xxProperties.RemoveLeavesNothingPending | drivers/input/sensor/sx86xx.c:311-325 | remove cancels the work synchronously before it frees the line, so nothing is pending afterwards, whatever was pending before |
| Sx86xxProperties.ScheduleLatestWins | drivers/input/sensor/sx86xx.c:121-125 | after cancel-then-schedule with delay d, exactly one instance is pending, with delay d, whatever came before |
| Sx86xxProperties.ScheduleTwice | drivers/input/sensor/sx86xx.c:116-130 | two schedule requests in a row leave one pending instance at the second delay |
| Sx86xx.Context.DispatchStatus | drivers/input/sensor/sx86xx.c:177-184 | the counting loop (the same loop as lines 56-63) appends exactly the pass `Dispatch` describes and leaves the slot alone |
| Sx86xx.Context.DispatchAndRepoll | drivers/input/sensor/sx86xx.c:56-72 | appends the Dispatch pass, then a cancel and a schedule with the re-poll delay iff useIrqTimer and nirqlow; the slot then holds that delay, and is unchanged otherwise |
| Sx86xx.ProcessInterrupt | drivers/input/sensor/sx86xx.c:24-73 | NULL context: no effect; otherwise appends exactly `ProcessEvents(Cfg(), status, nirqlow)`, and the slot holds the re-poll delay when a re-poll was due and is unchanged otherwise |
| Sx86xx.ThreadedWorker | drivers/input/sensor/sx86xx.c:75-94 | appends `ThreadedWorkerEvents(Cfg(), line, status)`; afterwards nothing is pending |
| Sx86xx.InterruptThread | drivers/input/sensor/sx86xx.c:96-114 | appends `InterruptThreadEvents(Cfg(), line, status)`, sets the slot to the re-poll delay when the line was low and a re-poll was due and leaves it unchanged otherwise, returns IRQ_HANDLED |
| Sx86xx.ScheduleWork | drivers/input/sensor/sx86xx.c:116-130 | NULL context: no effect; otherwise appends `ScheduleEvents(delay)`, a cancel then a schedule, and the slot holds exactly the new delay |
| Sx86xx.Irq | drivers/input/sensor/sx86xx.c:132-151 | NULL context: no effect; otherwise appends `IrqEvents(line)`, and zero-delay work is pending when the line was absent or low, and the slot is unchanged otherwise; returns IRQ_HANDLED |
| Sx86xx.PlainWorker | drivers/input/sensor/sx86xx.c:153-196 | appends `PlainWorkerEvents(Cfg(), line, status)`; the slot holds the re-poll delay iff useIrqTimer and the line was low, else nothing |
| Sx86xx.Suspend | drivers/input/sensor/sx86xx.c:199-203 | changes nothing |
| Sx86xx.Resume | drivers/input/sensor/sx86xx.c:205-220 | NULL context: no effect; otherwise appends `ResumeEvents(Cfg(), status)`; threaded: one processing pass under the mutex, slot unchanged; non-threaded: zero-delay work pending |
| Sx86xx.Init | drivers/input/sensor/sx86xx.c:250-309 | -ENOMEM for a NULL context or pDevice (no effect); else appends `InitEvents(irqErr, hasInit)`, irq_disabled cleared and work initialised; a registration error is returned without calling init; then init's result, or -ENOMEM without an init pointer; the IRQ is registered after a successful registration, and otherwise stays as it was |
| Sx86xx.Remove | drivers/input/sensor/sx86xx.c:311-325 | -ENOMEM for a NULL context; else appends `RemoveEvents()` (cancel the work synchronously, then free the IRQ), returns 0, leaving nothing pending and no IRQ registered |

## Left out

- Concurrency: the mutex appears only as lock and unlock events, and the spinlock in `sx86XX_schedule_work` is a no-op. Real parallel execution, and the window between `cancel_delayed_work_sync` and `free_irq` in remove (lines 314 and 319), are not modelled. Every entry point runs to completion on its own.
- Workqueue timing: a delay is a number of jiffies held in the slot. msecs_to_jiffies is the opaque `toJiffies`. A pending item runs only when a caller invokes a worker method, which first records `Fire`.
- `container_of` recovery of the context, and the NULL `work` pointer checks in both workers (lines 79-84, 91-93, 159-165, 193-195): the workers take a non-NULL context.
- Wake locks (line 38) and the early-suspend callbacks and their registration (lines 222-248, 290-299, 316-318).
- What refreshStatus, get_nirq_low, init, the status handlers and touchCheckWithReferenceSensor do inside: they are inputs or events. A handler that changes the context (clearing the startup flag, say) is not modelled: the driver-owned fields are unchanged across an entry point.
- Logging and `kfree` (line 320): the context object remains after Remove.
- The interrupt number, trigger flags and driver name passed to request_irq. Registration is the `irqRegistered` flag, and a free_irq of an unregistered line is not an error here.
- Integer widths: delays and the irq timeout are unbounded naturals, and return codes are unbounded integers.
