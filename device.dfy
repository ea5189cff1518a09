/** The device context of the SX86xx interrupt helper and its entry points.

    Each C entry point is a method over one `Context`. Foreign calls are
    inputs: `status` is what refreshStatus() returns, `line` is the
    get_nirq_low pointer (`None` when it is not set, `Some(low)` with what it
    returns), `irqErr` is what request_irq / request_threaded_irq returns and
    `initRet` what the device init() callback returns. Every foreign call and
    every operation on the delayed work item is appended to `trace`, and the
    methods are proved to append exactly the sequences of module Sx86xxEvents.
 */
module Sx86xx {
  import opened Sx86xxEvents
  import opened Sx86xxProperties

  /** struct sx86XX, as far as the helper uses it. */
  class Context {
    /** Which variant the helper was built as (USE_THREADED_IRQ). */
    const mode: Mode
    /** statusFunc: one optional handler per status bit. */
    const statusFunc: seq<Option<HandlerId>>
    /** MAX_NUM_STATUS_BITS. */
    const maxStatusBits: nat
    /** msecs_to_jiffies. */
    const toJiffies: nat -> nat

    // Set by the device-specific driver; the helper only reads them.
    var inStartupTouch: bool
    var useIrqTimer: bool
    var irqTimeout: nat
    var hasPDevice: bool
    var hasInit: bool

    // State the helper changes.
    var irqDisabled: bool
    var irqRegistered: bool
    /** The delayed work item dworker: `Some(d)` when pending with delay `d`. */
    var pending: Option<nat>
    /** Everything the helper has done so far, oldest first. */
    var trace: seq<Event>

    /** The status table covers every status bit, and the work slot is what the
        trace's operations on the work item leave. */
    ghost predicate Valid()
      reads this
    {
      Cfg().Valid() && pending == Replay(None, trace)
    }

    /** The fields that steer dispatch. */
    function Cfg(): Config
      reads this
    {
      Config(mode, statusFunc, maxStatusBits, inStartupTouch, useIrqTimer, hasPDevice, toJiffies(irqTimeout))
    }

    /** The fields the device-specific driver owns are as they were. */
    twostate predicate DriverFieldsUnchanged()
      reads this
    {
      unchanged(this`inStartupTouch, this`useIrqTimer, this`irqTimeout, this`hasPDevice, this`hasInit)
    }

    /** Only the trace and the work slot changed since the old state. */
    twostate predicate OnlyWorkChanged()
      reads this
    {
      DriverFieldsUnchanged() && unchanged(this`irqDisabled, this`irqRegistered)
    }

    /** A freshly allocated (zeroed) context that the bus driver has filled in. */
    constructor (mode: Mode, statusFunc: seq<Option<HandlerId>>, maxStatusBits: nat, toJiffies: nat -> nat,
                 inStartupTouch: bool, useIrqTimer: bool, irqTimeout: nat, hasPDevice: bool, hasInit: bool)
      requires 0 < maxStatusBits <= 32 && |statusFunc| == maxStatusBits
      ensures Valid()
      ensures this.mode == mode && this.statusFunc == statusFunc && this.maxStatusBits == maxStatusBits
      ensures this.toJiffies == toJiffies
      ensures this.inStartupTouch == inStartupTouch && this.useIrqTimer == useIrqTimer
      ensures this.irqTimeout == irqTimeout && this.hasPDevice == hasPDevice && this.hasInit == hasInit
      ensures !irqDisabled && !irqRegistered && pending == None && trace == []
    {
      this.mode := mode;
      this.statusFunc := statusFunc;
      this.maxStatusBits := maxStatusBits;
      this.toJiffies := toJiffies;
      this.inStartupTouch := inStartupTouch;
      this.useIrqTimer := useIrqTimer;
      this.irqTimeout := irqTimeout;
      this.hasPDevice := hasPDevice;
      this.hasInit := hasInit;
      irqDisabled := false;
      irqRegistered := false;
      pending := None;
      trace := [];
    }

    /** Records one event; the kernel's work-item operations update the slot. */
    method Emit(e: Event)
      requires Valid()
      modifies this`trace, this`pending
      ensures Valid()
      ensures trace == old(trace) + [e]
      ensures pending == Step(old(pending), e)
    {
      ReplayAppend(None, trace, [e]);
      assert [e][1..] == [];
      trace := trace + [e];
      pending := Step(pending, e);
    }

    /** The bit scan shared by both variants: counter runs from 0 upward and
        calls statusFunc[counter] when that status bit is set and a handler is
        registered there. */
    method DispatchStatus(status: bv32)
      requires Valid()
      modifies this`trace, this`pending
      ensures Valid()
      ensures trace == old(trace) + Dispatch(status, statusFunc, maxStatusBits)
      ensures pending == old(pending)
    {
      var counter := 0;
      while counter < maxStatusBits
        invariant counter <= maxStatusBits
        invariant Valid()
        invariant trace == old(trace) + Dispatch(status, statusFunc, counter)
        invariant pending == old(pending)
      {
        if Bit(status, counter) && statusFunc[counter].Some? {
          Emit(CallHandler(counter, statusFunc[counter].value));
        }
        counter := counter + 1;
      }
    }

    /** The second half of sx86XX_process_interrupt outside the startup window:
        dispatch, then restart the pen-up re-poll timer for a genuine interrupt. */
    method DispatchAndRepoll(status: bv32, nirqlow: bool)
      requires Valid()
      modifies this`trace, this`pending
      ensures Valid()
      ensures trace == old(trace) + Dispatch(status, statusFunc, maxStatusBits) +
                       (if useIrqTimer && nirqlow then ScheduleEvents(toJiffies(irqTimeout)) else [])
      ensures pending == if useIrqTimer && nirqlow then Some(toJiffies(irqTimeout)) else old(pending)
    {
      DispatchStatus(status);
      if useIrqTimer && nirqlow {
        ghost var t1 := trace;
        Emit(Cancel);
        Emit(Schedule(toJiffies(irqTimeout)));
        assert trace == t1 + ScheduleEvents(toJiffies(irqTimeout));
      }
    }
  }

  /** Regrouping a trace extended by three pieces. */
  lemma Concat3<T>(t: seq<T>, a: seq<T>, b: seq<T>, c: seq<T>)
    ensures t + a + b + c == t + (a + b + c)
  {
  }

  /** Regrouping a trace extended by four pieces. */
  lemma Concat4<T>(t: seq<T>, a: seq<T>, b: seq<T>, c: seq<T>, d: seq<T>)
    ensures t + a + b + c + d == t + (a + b + c + d)
  {
  }

  /** Regrouping a trace extended by five pieces. */
  lemma Concat5<T>(t: seq<T>, a: seq<T>, b: seq<T>, c: seq<T>, d: seq<T>, e: seq<T>)
    ensures t + a + b + c + d + e == t + (a + b + c + d + e)
  {
  }

  // ---------------------------------------------------------------------------
  // Threaded variant (USE_THREADED_IRQ)

  /** sx86XX_process_interrupt: refresh the status, then either run the startup
      touch check or dispatch and, for a genuine interrupt (nirqlow), restart the
      pen-up re-poll timer. */
  method ProcessInterrupt(dev: Context?, status: bv32, nirqlow: bool)
    requires dev != null ==> dev.Valid() && dev.mode == Threaded
    modifies dev
    ensures dev != null ==> dev.Valid() && dev.OnlyWorkChanged()
    ensures dev != null ==> dev.trace == old(dev.trace) + ProcessEvents(dev.Cfg(), status, nirqlow)
    ensures dev != null ==>
              dev.pending == if !dev.inStartupTouch && dev.useIrqTimer && nirqlow
                             then Some(dev.toJiffies(dev.irqTimeout)) else old(dev.pending)
  {
    if dev == null {
      return;
    }
    ghost var c := dev.Cfg();
    ghost var t0 := dev.trace;
    dev.Emit(ReadStatus);
    if dev.inStartupTouch {
      ghost var touch: seq<Event> := [];
      if status & COMPDONE_IRQ == COMPDONE_IRQ || status & FAR_IRQ == FAR_IRQ {
        if dev.hasPDevice {
          dev.Emit(TouchCheck);
          touch := [TouchCheck];
        }
      }
      assert dev.trace == t0 + ([ReadStatus] + touch);
      assert ProcessEvents(c, status, nirqlow) == [ReadStatus] + touch;
      assert dev.Cfg() == c;
      return;
    }
    ghost var calls := Dispatch(status, dev.statusFunc, dev.maxStatusBits);
    ghost var tail := if dev.useIrqTimer && nirqlow then ScheduleEvents(c.repollDelay) else [];
    dev.DispatchAndRepoll(status, nirqlow);
    Concat3(t0, [ReadStatus], calls, tail);
    assert ProcessEvents(c, status, nirqlow) == [ReadStatus] + calls + tail;
    assert dev.Cfg() == c;
  }

  /** sx86XX_worker_func of the threaded variant: the workqueue runs the item,
      which processes (as a non-interrupt, so without re-poll) only when the line
      reads high. */
  method ThreadedWorker(dev: Context, line: Option<bool>, status: bv32)
    requires dev.Valid() && dev.mode == Threaded && dev.pending.Some?
    modifies dev
    ensures dev.Valid() && dev.OnlyWorkChanged()
    ensures dev.trace == old(dev.trace) + ThreadedWorkerEvents(dev.Cfg(), line, status)
    ensures dev.pending == None
  {
    ghost var c := dev.Cfg();
    dev.Emit(Fire);
    if line.Some? {
      dev.Emit(ReadLine);
    }
    if LineHigh(line) {
      ProcessInterrupt(dev, status, false);
    }
  }

  /** sx86XX_interrupt_thread: under the mutex, process as a genuine interrupt
      when the line reads low. */
  method InterruptThread(dev: Context, line: Option<bool>, status: bv32) returns (r: IrqReturn)
    requires dev.Valid() && dev.mode == Threaded && dev.irqRegistered
    modifies dev
    ensures dev.Valid() && dev.OnlyWorkChanged()
    ensures dev.trace == old(dev.trace) + InterruptThreadEvents(dev.Cfg(), line, status)
    ensures dev.pending == if LineLow(line) && !dev.inStartupTouch && dev.useIrqTimer
                           then Some(dev.toJiffies(dev.irqTimeout)) else old(dev.pending)
    ensures r == IrqHandled
  {
    ghost var c := dev.Cfg();
    dev.Emit(MutexLock);
    if line.Some? {
      dev.Emit(ReadLine);
    }
    ghost var before := dev.trace;
    assert before == old(dev.trace) + [MutexLock] + LineSample(line);
    ghost var body := if LineLow(line) then ProcessEvents(c, status, true) else [];
    if LineLow(line) {
      ProcessInterrupt(dev, status, true);
    }
    assert dev.Cfg() == c;
    assert dev.trace == before + body;
    assert dev.pending == if LineLow(line) && !c.inStartupTouch && c.useIrqTimer
                         then Some(c.repollDelay) else old(dev.pending);
    dev.Emit(MutexUnlock);
    assert dev.Cfg() == c;
    Concat4(old(dev.trace), [MutexLock], LineSample(line), body, [MutexUnlock]);
    r := IrqHandled;
  }

  // ---------------------------------------------------------------------------
  // Non-threaded variant

  /** sx86XX_schedule_work: cancel whatever is pending, then schedule the work
      item after `delay` jiffies. */
  method ScheduleWork(dev: Context?, delay: nat)
    requires dev != null ==> dev.Valid() && dev.mode == NonThreaded
    modifies dev
    ensures dev != null ==> dev.Valid() && dev.OnlyWorkChanged()
    ensures dev != null ==> dev.trace == old(dev.trace) + ScheduleEvents(delay)
    ensures dev != null ==> dev.pending == Some(delay)
  {
    if dev != null {
      dev.Emit(Cancel);
      dev.Emit(Schedule(delay));
    }
  }

  /** sx86XX_irq, the top half: schedule the work at once when the line reads low. */
  method Irq(dev: Context?, line: Option<bool>) returns (r: IrqReturn)
    requires dev != null ==> dev.Valid() && dev.mode == NonThreaded && dev.irqRegistered
    modifies dev
    ensures dev != null ==> dev.Valid() && dev.OnlyWorkChanged()
    ensures dev != null ==> dev.trace == old(dev.trace) + IrqEvents(line)
    ensures dev != null ==> dev.pending == if LineLow(line) then Some(0) else old(dev.pending)
    ensures r == IrqHandled
  {
    if dev != null {
      if line.Some? {
        dev.Emit(ReadLine);
      }
      if LineLow(line) {
        ScheduleWork(dev, 0);
      }
    }
    r := IrqHandled;
  }

  /** sx86XX_worker_func of the non-threaded variant: note the line level (only
      with the timer in use), refresh and dispatch, then re-queue for pen-up when
      the line was low. */
  method PlainWorker(dev: Context, line: Option<bool>, status: bv32)
    requires dev.Valid() && dev.mode == NonThreaded && dev.pending.Some?
    modifies dev
    ensures dev.Valid() && dev.OnlyWorkChanged()
    ensures dev.trace == old(dev.trace) + PlainWorkerEvents(dev.Cfg(), line, status)
    ensures dev.pending == if dev.useIrqTimer && LineLow(line) then Some(dev.toJiffies(dev.irqTimeout)) else None
  {
    ghost var c := dev.Cfg();
    dev.Emit(Fire);
    var nirqLow := false;
    if dev.useIrqTimer {
      if line.Some? {
        dev.Emit(ReadLine);
      }
      if LineLow(line) {
        nirqLow := true;
      }
    }
    ghost var probe := if c.useIrqTimer then LineSample(line) else [];
    assert dev.trace == old(dev.trace) + [Fire] + probe;
    dev.Emit(ReadStatus);
    ghost var calls := Dispatch(status, dev.statusFunc, dev.maxStatusBits);
    dev.DispatchStatus(status);
    assert dev.trace == old(dev.trace) + [Fire] + probe + [ReadStatus] + calls;
    ghost var tail := if c.useIrqTimer && LineLow(line) then ScheduleEvents(c.repollDelay) else [];
    if dev.useIrqTimer && nirqLow {
      ScheduleWork(dev, dev.toJiffies(dev.irqTimeout));
    }
    assert dev.Cfg() == c;
    Concat5(old(dev.trace), [Fire], probe, [ReadStatus], calls, tail);
  }

  // ---------------------------------------------------------------------------
  // Both variants

  /** sx86XX_suspend does nothing. */
  method Suspend(dev: Context?)
    ensures dev != null ==> unchanged(dev)
  {
  }

  /** sx86XX_resume: re-run processing once under the mutex (threaded), or
      schedule the work at once (non-threaded). */
  method Resume(dev: Context?, status: bv32)
    requires dev != null ==> dev.Valid()
    modifies dev
    ensures dev != null ==> dev.Valid() && dev.OnlyWorkChanged()
    ensures dev != null ==> dev.trace == old(dev.trace) + ResumeEvents(dev.Cfg(), status)
    ensures dev != null ==> dev.pending == if dev.mode == Threaded then old(dev.pending) else Some(0)
  {
    if dev != null {
      if dev.mode == Threaded {
        ghost var c := dev.Cfg();
        dev.Emit(MutexLock);
        ProcessInterrupt(dev, status, false);
        dev.Emit(MutexUnlock);
        assert dev.Cfg() == c;
        assert ResumeEvents(c, status) == [MutexLock] + ProcessEvents(c, status, false) + [MutexUnlock];
        Concat3(old(dev.trace), [MutexLock], ProcessEvents(c, status, false), [MutexUnlock]);
      } else {
        ScheduleWork(dev, 0);
      }
    }
  }

  /** sx86XX_init: set up the work item and lock, register the interrupt line and
      call the device init() callback. */
  method Init(dev: Context?, irqErr: int, initRet: int) returns (ret: int)
    requires dev != null ==> dev.Valid()
    modifies dev
    ensures dev == null ==> ret == -ENOMEM
    ensures dev != null ==> dev.Valid() && dev.DriverFieldsUnchanged()
    ensures dev != null && !dev.hasPDevice ==> ret == -ENOMEM && unchanged(dev)
    ensures dev != null && dev.hasPDevice ==>
              && !dev.irqDisabled
              && dev.pending == None
              && dev.irqRegistered == (irqErr == 0 || old(dev.irqRegistered))
              && dev.trace == old(dev.trace) + InitEvents(irqErr, dev.hasInit)
              && ret == if irqErr != 0 then irqErr else if dev.hasInit then initRet else -ENOMEM
  {
    if dev != null && dev.hasPDevice {
      dev.Emit(InitWork);
      dev.irqDisabled := false;
      dev.Emit(RequestIrq);
      if irqErr != 0 {
        return irqErr;
      }
      dev.irqRegistered := true;
      if dev.hasInit {
        dev.Emit(CallInit);
        return initRet;
      }
    }
    return -ENOMEM;
  }

  /** sx86XX_remove: cancel the work item (waiting for a running instance), then
      release the interrupt line. */
  method Remove(dev: Context?) returns (ret: int)
    requires dev != null ==> dev.Valid()
    modifies dev
    ensures dev == null ==> ret == -ENOMEM
    ensures dev != null ==> dev.Valid() && dev.DriverFieldsUnchanged() && unchanged(dev`irqDisabled)
    ensures dev != null ==>
              && ret == 0
              && dev.pending == None
              && !dev.irqRegistered
              && dev.trace == old(dev.trace) + RemoveEvents()
  {
    if dev != null {
      dev.Emit(CancelSync);
      dev.Emit(FreeIrq);
      dev.irqRegistered := false;
      return 0;
    }
    return -ENOMEM;
  }
}
