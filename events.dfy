/** The observable behaviour of the SX86xx interrupt helper, as pure values.

    Every entry point of the helper is described here by the sequence of events
    it produces: the foreign calls it makes (the line-level probe, the status
    refresh, the status handlers, the startup touch check, the device init
    callback) and the operations it performs on the kernel's delayed work item
    and interrupt line. The imperative model in module Sx86xx is proved to
    append exactly these sequences to its trace.
 */
module Sx86xxEvents {

  datatype Option<+T> = None | Some(value: T)

  /** Stands for the function pointer stored in one slot of the status table. */
  type HandlerId = nat

  /** The two build variants: with USE_THREADED_IRQ defined, and without. */
  datatype Mode = Threaded | NonThreaded

  /** Status bits that end the startup touch window. */
  const COMPDONE_IRQ: bv32 := 0x10
  const FAR_IRQ: bv32 := 0x20

  /** The kernel's "out of memory" error number; the helper returns its negation. */
  const ENOMEM: int := 12

  /** What an interrupt handler hands back to the kernel. */
  datatype IrqReturn = IrqNone | IrqHandled

  datatype Event =
    | ReadLine                                 // get_nirq_low() is called
    | ReadStatus                               // refreshStatus() is called
    | CallHandler(bit: nat, handler: HandlerId) // statusFunc[bit] is called
    | TouchCheck                               // touchCheckWithReferenceSensor() is called
    | Cancel                                   // cancel_delayed_work
    | Schedule(delay: nat)                     // schedule_delayed_work, delay in jiffies
    | Fire                                     // the workqueue starts running the work item
    | MutexLock
    | MutexUnlock
    | InitWork                                 // INIT_DELAYED_WORK
    | RequestIrq                               // request_irq / request_threaded_irq
    | CallInit                                 // the device-specific init() callback
    | CancelSync                               // cancel_delayed_work_sync
    | FreeIrq

  /** The part of the device context that steers dispatch. `repollDelay` is the
      pen-up re-poll delay already converted to jiffies. */
  datatype Config = Config(
    mode: Mode,
    statusFunc: seq<Option<HandlerId>>,
    maxStatusBits: nat,
    inStartupTouch: bool,
    useIrqTimer: bool,
    hasPDevice: bool,
    repollDelay: nat)
  {
    /** The status table has one slot per status bit, and every bit index can be
        shifted within a 32-bit int. */
    predicate Valid() {
      0 < maxStatusBits <= 32 && |statusFunc| == maxStatusBits
    }
  }

  /** Bit `i` of the status word, as `(status >> i) & 0x01` computes it. */
  predicate Bit(status: bv32, i: nat)
    requires i < 32
  {
    (status >> i) & 1 == 1
  }

  /** The startup touch check is due when compensation is done or the object is far. */
  predicate StartupTouchDue(status: bv32) {
    status & COMPDONE_IRQ == COMPDONE_IRQ || status & FAR_IRQ == FAR_IRQ
  }

  /** The line is asserted (nIRQ low): there is no level probe, or it reports low. */
  predicate LineLow(line: Option<bool>) {
    line.None? || line.value
  }

  /** The line is released (nIRQ high): there is no level probe, or it reports high. */
  predicate LineHigh(line: Option<bool>) {
    line.None? || !line.value
  }

  /** The probe call, when a probe exists. */
  function LineSample(line: Option<bool>): seq<Event> {
    if line.Some? then [ReadLine] else []
  }

  /** The probe is called at most once, exactly when it exists, and nothing else
      happens. */
  lemma LineSampleOnce(line: Option<bool>)
    ensures ReadLine in LineSample(line) <==> line.Some?
    ensures forall e :: e in LineSample(line) ==> e == ReadLine
    ensures |LineSample(line)| == if line.Some? then 1 else 0
  {
  }

  /** The handler calls made by the scan of bits 0 .. k-1 of `status`. */
  function Dispatch(status: bv32, table: seq<Option<HandlerId>>, k: nat): (r: seq<Event>)
    requires k <= |table| && k <= 32
    ensures forall j :: 0 <= j < |r| ==> r[j].CallHandler? && r[j].bit < k
  {
    if k == 0 then []
    else
      var earlier := Dispatch(status, table, k - 1);
      if Bit(status, k - 1) && table[k - 1].Some? then
        earlier + [CallHandler(k - 1, table[k - 1].value)]
      else
        earlier
  }

  /** Cancel-then-schedule, as sx86XX_schedule_work does it. */
  function ScheduleEvents(delay: nat): seq<Event> {
    [Cancel, Schedule(delay)]
  }

  /** sx86XX_process_interrupt on a non-null context (threaded variant). */
  function ProcessEvents(c: Config, status: bv32, nirqlow: bool): seq<Event>
    requires c.Valid()
  {
    [ReadStatus] +
    if c.inStartupTouch then
      (if StartupTouchDue(status) && c.hasPDevice then [TouchCheck] else [])
    else
      Dispatch(status, c.statusFunc, c.maxStatusBits) +
      (if c.useIrqTimer && nirqlow then ScheduleEvents(c.repollDelay) else [])
  }

  /** sx86XX_interrupt_thread (threaded variant). */
  function InterruptThreadEvents(c: Config, line: Option<bool>, status: bv32): seq<Event>
    requires c.Valid()
  {
    [MutexLock] + LineSample(line) +
    (if LineLow(line) then ProcessEvents(c, status, true) else []) +
    [MutexUnlock]
  }

  /** sx86XX_worker_func of the threaded variant, run by the workqueue. */
  function ThreadedWorkerEvents(c: Config, line: Option<bool>, status: bv32): seq<Event>
    requires c.Valid()
  {
    [Fire] + LineSample(line) +
    (if LineHigh(line) then ProcessEvents(c, status, false) else [])
  }

  /** sx86XX_irq, the top half of the non-threaded variant, on a non-null context. */
  function IrqEvents(line: Option<bool>): seq<Event> {
    LineSample(line) + (if LineLow(line) then ScheduleEvents(0) else [])
  }

  /** sx86XX_worker_func of the non-threaded variant, run by the workqueue. */
  function PlainWorkerEvents(c: Config, line: Option<bool>, status: bv32): seq<Event>
    requires c.Valid()
  {
    [Fire] + (if c.useIrqTimer then LineSample(line) else []) +
    [ReadStatus] + Dispatch(status, c.statusFunc, c.maxStatusBits) +
    (if c.useIrqTimer && LineLow(line) then ScheduleEvents(c.repollDelay) else [])
  }

  /** sx86XX_resume on a non-null context, in either variant. */
  function ResumeEvents(c: Config, status: bv32): seq<Event>
    requires c.Valid()
  {
    match c.mode
    case Threaded => [MutexLock] + ProcessEvents(c, status, false) + [MutexUnlock]
    case NonThreaded => ScheduleEvents(0)
  }

  /** sx86XX_init once the context and pDevice are known to be non-null: set up
      the work item, register the interrupt line and, only when registration
      succeeded and the callback exists, call init(). */
  function InitEvents(irqErr: int, hasInit: bool): (r: seq<Event>)
    ensures |r| >= 2 && r[..2] == [InitWork, RequestIrq]
    ensures CallInit in r <==> irqErr == 0 && hasInit
  {
    [InitWork, RequestIrq] + (if irqErr == 0 && hasInit then [CallInit] else [])
  }

  /** sx86XX_remove on a non-null context: wait for the work item, then release
      the interrupt line. */
  function RemoveEvents(): seq<Event> {
    [CancelSync, FreeIrq]
  }

  /** The delayed work slot after one event: `None` when nothing is pending,
      `Some(d)` when one instance is pending with delay `d`. Like the kernel's
      schedule_delayed_work, scheduling an item that is already pending leaves
      it as it was. */
  function Step(p: Option<nat>, e: Event): Option<nat> {
    match e
    case Cancel | CancelSync | Fire | InitWork => None
    case Schedule(d) => if p.None? then Some(d) else p
    case _ => p
  }

  /** The delayed work slot after a sequence of events. */
  function Replay(p: Option<nat>, evs: seq<Event>): Option<nat>
    decreases |evs|
  {
    if evs == [] then p else Replay(Step(p, evs[0]), evs[1..])
  }
}
