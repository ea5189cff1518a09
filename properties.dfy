/** What the event sequences of module Sx86xxEvents guarantee: which status
    handlers a dispatch pass calls and in what order, when processing is
    suppressed or gated off, when a pen-up re-poll is scheduled, and what the
    single delayed work slot holds afterwards. */
module Sx86xxProperties {
  import opened Sx86xxEvents

  // ---------------------------------------------------------------------------
  // The delayed work slot

  /** Replaying a concatenation replays its parts one after the other. */
  lemma {:induction false} ReplayAppend(p: Option<nat>, a: seq<Event>, b: seq<Event>)
    ensures Replay(p, a + b) == Replay(Replay(p, a), b)
    decreases |a|
  {
    if a == [] {
      assert a + b == b;
    } else {
      assert (a + b)[0] == a[0];
      assert (a + b)[1..] == a[1..] + b;
      ReplayAppend(Step(p, a[0]), a[1..], b);
    }
  }

  /** Events that act on the delayed work item. */
  predicate TouchesWork(e: Event) {
    e.Cancel? || e.CancelSync? || e.Fire? || e.InitWork? || e.Schedule?
  }

  /** Events that do not act on the work item leave the slot as it was. */
  lemma {:induction false} ReplayUntouched(p: Option<nat>, evs: seq<Event>)
    requires forall e :: e in evs ==> !TouchesWork(e)
    ensures Replay(p, evs) == p
  {
    if evs != [] {
      assert evs[0] in evs;
      assert forall e :: e in evs[1..] ==> e in evs;
      ReplayUntouched(Step(p, evs[0]), evs[1..]);
    }
  }

  /** sx86XX_schedule_work leaves exactly one instance pending, with the delay of
      the latest call, whatever happened before it. */
  lemma ScheduleLatestWins(p: Option<nat>, before: seq<Event>, d: nat)
    ensures Replay(p, before + ScheduleEvents(d)) == Some(d)
  {
    ReplayAppend(p, before, ScheduleEvents(d));
    var q := Replay(p, before);
    var s := ScheduleEvents(d);
    assert s[0] == Cancel && s[1..] == [Schedule(d)];
    assert Replay(q, s) == Replay(None, [Schedule(d)]);
    assert [Schedule(d)][0] == Schedule(d) && [Schedule(d)][1..] == [];
    assert Replay(None, [Schedule(d)]) == Replay(Some(d), []);
  }

  /** Two schedule requests in a row leave one pending instance, at the second delay. */
  lemma ScheduleTwice(p: Option<nat>, d1: nat, d2: nat)
    ensures Replay(p, ScheduleEvents(d1) + ScheduleEvents(d2)) == Some(d2)
  {
    ScheduleLatestWins(p, ScheduleEvents(d1), d2);
  }

  // ---------------------------------------------------------------------------
  // The status dispatcher

  /** The scan calls handler `h` for bit `i` iff `i` is below the scan bound, the
      bit is set and the table holds `h` at `i`. */
  lemma {:induction false} DispatchCalls(status: bv32, table: seq<Option<HandlerId>>, k: nat, i: nat, h: HandlerId)
    requires k <= |table| && k <= 32
    ensures CallHandler(i, h) in Dispatch(status, table, k) <==>
              i < k && Bit(status, i) && table[i] == Some(h)
  {
    if k > 0 {
      DispatchCalls(status, table, k - 1, i, h);
    }
  }

  /** Every event is a handler call, and the bits of the calls strictly increase. */
  ghost predicate CallsAscending(r: seq<Event>) {
    forall a, b :: 0 <= a < b < |r| ==> r[a].CallHandler? && r[b].CallHandler? && r[a].bit < r[b].bit
  }

  /** Calls run in strictly ascending bit order, so no bit is visited twice. */
  lemma {:induction false} DispatchAscending(status: bv32, table: seq<Option<HandlerId>>, k: nat)
    requires k <= |table| && k <= 32
    ensures CallsAscending(Dispatch(status, table, k))
  {
    if k > 0 {
      DispatchAscending(status, table, k - 1);
      var earlier := Dispatch(status, table, k - 1);
      if Bit(status, k - 1) && table[k - 1].Some? {
        var last := CallHandler(k - 1, table[k - 1].value);
        var r := earlier + [last];
        forall a, b | 0 <= a < b < |r|
          ensures r[a].CallHandler? && r[b].CallHandler? && r[a].bit < r[b].bit
        {
          assert r[a] == earlier[a];
          if b < |earlier| {
            assert r[b] == earlier[b];
          } else {
            assert r[b] == last;
          }
        }
      }
    }
  }

  /** Each handler is called at most once per pass, and exactly once when its bit
      is set. */
  lemma {:induction false} DispatchCallsOnce(status: bv32, table: seq<Option<HandlerId>>, k: nat, i: nat, h: HandlerId)
    requires k <= |table| && k <= 32
    ensures multiset(Dispatch(status, table, k))[CallHandler(i, h)] ==
              if i < k && Bit(status, i) && table[i] == Some(h) then 1 else 0
  {
    if k > 0 {
      DispatchCallsOnce(status, table, k - 1, i, h);
      var earlier := Dispatch(status, table, k - 1);
      var x := CallHandler(i, h);
      if Bit(status, k - 1) && table[k - 1].Some? {
        var last := CallHandler(k - 1, table[k - 1].value);
        assert Dispatch(status, table, k) == earlier + [last];
        CountAppend(earlier, last, x);
        assert x == last <==> i == k - 1 && table[i] == Some(h);
      } else {
        assert Dispatch(status, table, k) == earlier;
      }
    }
  }

  /** Appending one element adds one to its own count and nothing to any other. */
  lemma CountAppend<T>(s: seq<T>, last: T, x: T)
    ensures multiset(s + [last])[x] == multiset(s)[x] + if x == last then 1 else 0
  {
    assert multiset(s + [last]) == multiset(s) + multiset{last};
  }

  /** Status bits at or above the scan bound have no effect on the pass. */
  lemma {:induction false} DispatchIgnoresHighBits(s1: bv32, s2: bv32, table: seq<Option<HandlerId>>, k: nat)
    requires k <= |table| && k <= 32
    requires forall i :: 0 <= i < k ==> Bit(s1, i) == Bit(s2, i)
    ensures Dispatch(s1, table, k) == Dispatch(s2, table, k)
  {
    if k > 0 {
      DispatchIgnoresHighBits(s1, s2, table, k - 1);
    }
  }

  /** The two startup-window conditions are status bits 4 and 5. */
  lemma StartupTouchDueBits(status: bv32)
    ensures StartupTouchDue(status) <==> Bit(status, 4) || Bit(status, 5)
  {
  }

  /** Handlers at bits 4 and 5 and status 0x30: both are called once, bit 4 first. */
  lemma DispatchFarAndCompDone(hCompDone: HandlerId, hFar: HandlerId)
    ensures Dispatch(0x30, [None, None, None, None, Some(hCompDone), Some(hFar), None, None], 8)
            == [CallHandler(4, hCompDone), CallHandler(5, hFar)]
  {
    var t := [None, None, None, None, Some(hCompDone), Some(hFar), None, None];
    assert Dispatch(0x30, t, 1) == [];
    assert Dispatch(0x30, t, 2) == [];
    assert Dispatch(0x30, t, 3) == [];
    assert Dispatch(0x30, t, 4) == [];
    assert Dispatch(0x30, t, 5) == [CallHandler(4, hCompDone)];
    assert Dispatch(0x30, t, 6) == [CallHandler(4, hCompDone), CallHandler(5, hFar)];
    assert Dispatch(0x30, t, 7) == Dispatch(0x30, t, 6);
  }

  // ---------------------------------------------------------------------------
  // Threaded processing (sx86XX_process_interrupt)

  /** No event of a dispatch pass acts on the work item or the mutex, or is a
      status read or touch check. */
  lemma DispatchOnlyCalls(status: bv32, table: seq<Option<HandlerId>>, k: nat)
    requires k <= |table| && k <= 32
    ensures forall e :: e in Dispatch(status, table, k) ==> e.CallHandler?
  {
    var r := Dispatch(status, table, k);
    forall e | e in r ensures e.CallHandler? {
      var j :| 0 <= j < |r| && r[j] == e;
    }
  }

  /** In the startup touch window only the status read and, when due, the touch
      check happen: no status handler runs and no re-poll is scheduled. */
  lemma StartupTouchSuppresses(c: Config, status: bv32, nirqlow: bool)
    requires c.Valid() && c.inStartupTouch
    ensures forall e :: e in ProcessEvents(c, status, nirqlow) ==> e == ReadStatus || e == TouchCheck
    ensures TouchCheck in ProcessEvents(c, status, nirqlow) <==> StartupTouchDue(status) && c.hasPDevice
  {
  }

  /** Outside the startup window the pass calls exactly the handlers the
      dispatcher selects, and never the touch check. */
  lemma ProcessCalls(c: Config, status: bv32, nirqlow: bool, i: nat, h: HandlerId)
    requires c.Valid() && !c.inStartupTouch
    ensures CallHandler(i, h) in ProcessEvents(c, status, nirqlow) <==>
              i < c.maxStatusBits && Bit(status, i) && c.statusFunc[i] == Some(h)
    ensures TouchCheck !in ProcessEvents(c, status, nirqlow)
  {
    DispatchCalls(status, c.statusFunc, c.maxStatusBits, i, h);
    DispatchOnlyCalls(status, c.statusFunc, c.maxStatusBits);
  }

  /** Processing cancels and reschedules the work with the re-poll delay iff the
      timer is in use and the caller reports the line low. */
  lemma ProcessRepoll(c: Config, status: bv32, nirqlow: bool, d: nat)
    requires c.Valid()
    ensures Schedule(d) in ProcessEvents(c, status, nirqlow) <==>
              !c.inStartupTouch && c.useIrqTimer && nirqlow && d == c.repollDelay
    ensures Cancel in ProcessEvents(c, status, nirqlow) <==>
              !c.inStartupTouch && c.useIrqTimer && nirqlow
  {
    DispatchOnlyCalls(status, c.statusFunc, c.maxStatusBits);
  }

  /** The work slot after processing: the re-poll delay when a re-poll was
      scheduled, otherwise what it was. */
  lemma ProcessPending(p: Option<nat>, c: Config, status: bv32, nirqlow: bool)
    requires c.Valid()
    ensures Replay(p, ProcessEvents(c, status, nirqlow)) ==
              if !c.inStartupTouch && c.useIrqTimer && nirqlow then Some(c.repollDelay) else p
  {
    var body := ProcessEvents(c, status, nirqlow);
    if c.inStartupTouch {
      StartupTouchSuppresses(c, status, nirqlow);
      ReplayUntouched(p, body);
    } else {
      var calls := Dispatch(status, c.statusFunc, c.maxStatusBits);
      DispatchOnlyCalls(status, c.statusFunc, c.maxStatusBits);
      if c.useIrqTimer && nirqlow {
        assert body == ([ReadStatus] + calls) + ScheduleEvents(c.repollDelay);
        ScheduleLatestWins(p, [ReadStatus] + calls, c.repollDelay);
      } else {
        assert body == [ReadStatus] + calls;
        ReplayUntouched(p, body);
      }
    }
  }

  /** Events of processing never touch the mutex. */
  lemma ProcessMutexFree(c: Config, status: bv32, nirqlow: bool)
    requires c.Valid()
    ensures MutexLock !in ProcessEvents(c, status, nirqlow)
    ensures MutexUnlock !in ProcessEvents(c, status, nirqlow)
  {
    DispatchOnlyCalls(status, c.statusFunc, c.maxStatusBits);
  }

  // ---------------------------------------------------------------------------
  // Threaded entry points

  /** The interrupt thread processes only when the line reads low, and then
      passes nirqlow = 1, so a re-poll follows whenever the timer is in use. */
  lemma InterruptThreadGate(c: Config, line: Option<bool>, status: bv32, d: nat)
    requires c.Valid()
    ensures ReadStatus in InterruptThreadEvents(c, line, status) <==> LineLow(line)
    ensures Schedule(d) in InterruptThreadEvents(c, line, status) <==>
              LineLow(line) && !c.inStartupTouch && c.useIrqTimer && d == c.repollDelay
  {
    ProcessRepoll(c, status, true, d);
    var body := if LineLow(line) then ProcessEvents(c, status, true) else [];
    assert InterruptThreadEvents(c, line, status) == [MutexLock] + LineSample(line) + body + [MutexUnlock];
  }

  /** The interrupt thread takes the mutex first and releases it last, on every
      path, and nothing in between takes or releases it. */
  lemma InterruptThreadMutex(c: Config, line: Option<bool>, status: bv32) returns (body: seq<Event>)
    requires c.Valid()
    ensures InterruptThreadEvents(c, line, status) == [MutexLock] + body + [MutexUnlock]
    ensures MutexLock !in body && MutexUnlock !in body
  {
    ProcessMutexFree(c, status, true);
    var probe := LineSample(line);
    var work := if LineLow(line) then ProcessEvents(c, status, true) else [];
    body := probe + work;
    assert InterruptThreadEvents(c, line, status) == [MutexLock] + probe + work + [MutexUnlock];
    assert MutexLock !in probe && MutexUnlock !in probe;
    assert MutexLock !in work && MutexUnlock !in work;
  }

  /** The threaded worker processes only when the line reads high, and passes
      nirqlow = 0, so it never reschedules. */
  lemma ThreadedWorkerGate(c: Config, line: Option<bool>, status: bv32, d: nat)
    requires c.Valid()
    ensures ReadStatus in ThreadedWorkerEvents(c, line, status) <==> LineHigh(line)
    ensures Schedule(d) !in ThreadedWorkerEvents(c, line, status)
  {
    ProcessRepoll(c, status, false, d);
    var body := if LineHigh(line) then ProcessEvents(c, status, false) else [];
    assert ThreadedWorkerEvents(c, line, status) == [Fire] + LineSample(line) + body;
    if LineHigh(line) {
      assert body[0] == ReadStatus;
    }
  }

  /** After the threaded worker has run, nothing is pending. */
  lemma ThreadedWorkerPending(p: Option<nat>, c: Config, line: Option<bool>, status: bv32)
    requires c.Valid()
    ensures Replay(p, ThreadedWorkerEvents(c, line, status)) == None
  {
    var body := if LineHigh(line) then ProcessEvents(c, status, false) else [];
    var rest := LineSample(line) + body;
    assert ThreadedWorkerEvents(c, line, status) == [Fire] + rest;
    ReplayAppend(p, [Fire], rest);
    assert [Fire][1..] == [];
    assert Replay(p, [Fire]) == None;
    ReplayAppend(None, LineSample(line), body);
    ReplayUntouched(None, LineSample(line));
    if LineHigh(line) {
      ProcessPending(None, c, status, false);
    }
  }

  /** Threaded resume re-runs processing once, under the mutex, with no line
      gate and no re-poll. */
  lemma ThreadedResumeNoRepoll(p: Option<nat>, c: Config, status: bv32, d: nat)
    requires c.Valid() && c.mode == Threaded
    ensures ReadStatus in ResumeEvents(c, status)
    ensures Schedule(d) !in ResumeEvents(c, status)
    ensures Replay(p, ResumeEvents(c, status)) == p
  {
    var body := ProcessEvents(c, status, false);
    assert ResumeEvents(c, status) == [MutexLock] + body + [MutexUnlock];
    assert body[0] == ReadStatus;
    ProcessRepoll(c, status, false, d);
    ReplayAppend(p, [MutexLock] + body, [MutexUnlock]);
    ReplayAppend(p, [MutexLock], body);
    ReplayUntouched(p, [MutexLock]);
    ProcessPending(p, c, status, false);
    ReplayUntouched(p, [MutexUnlock]);
  }

  /** Threaded resume refreshes the status exactly once. */
  lemma ThreadedResumeProcessesOnce(c: Config, status: bv32)
    requires c.Valid() && c.mode == Threaded
    ensures multiset(ResumeEvents(c, status))[ReadStatus] == 1
  {
    var body := ProcessEvents(c, status, false);
    var rest := body[1..];
    assert body == [ReadStatus] + rest;
    if !c.inStartupTouch {
      DispatchOnlyCalls(status, c.statusFunc, c.maxStatusBits);
      assert rest == Dispatch(status, c.statusFunc, c.maxStatusBits);
    }
    assert ResumeEvents(c, status) == [MutexLock] + [ReadStatus] + (rest + [MutexUnlock]);
    CountOnce([MutexLock], ReadStatus, rest + [MutexUnlock]);
  }

  /** An element that occurs only at the joint of two pieces is counted once. */
  lemma CountOnce<T>(pre: seq<T>, x: T, post: seq<T>)
    requires x !in pre && x !in post
    ensures multiset(pre + [x] + post)[x] == 1
  {
    assert multiset(pre + [x] + post) == multiset(pre) + multiset{x} + multiset(post);
  }

  // ---------------------------------------------------------------------------
  // Non-threaded entry points

  /** The top half schedules zero-delay work iff the line reads low; otherwise
      it does nothing beyond probing the line. */
  lemma IrqGate(p: Option<nat>, line: Option<bool>, d: nat)
    ensures Schedule(d) in IrqEvents(line) <==> LineLow(line) && d == 0
    ensures !LineLow(line) ==> forall e :: e in IrqEvents(line) ==> e == ReadLine
    ensures Replay(p, IrqEvents(line)) == if LineLow(line) then Some(0) else p
  {
    if LineLow(line) {
      ScheduleLatestWins(p, LineSample(line), 0);
    } else {
      ReplayUntouched(p, IrqEvents(line));
    }
  }

  /** The non-threaded worker probes the line only when the timer is in use, and
      then before the status refresh. */
  lemma PlainWorkerSamplesFirst(c: Config, line: Option<bool>, status: bv32)
    requires c.Valid()
    ensures ReadLine in PlainWorkerEvents(c, line, status) <==> c.useIrqTimer && line.Some?
    ensures var w := PlainWorkerEvents(c, line, status);
            if c.useIrqTimer && line.Some? then w[1] == ReadLine && w[2] == ReadStatus
            else w[1] == ReadStatus
  {
    DispatchOnlyCalls(status, c.statusFunc, c.maxStatusBits);
  }

  /** The non-threaded worker calls exactly the handlers the dispatcher selects. */
  lemma PlainWorkerCalls(c: Config, line: Option<bool>, status: bv32, i: nat, h: HandlerId)
    requires c.Valid()
    ensures CallHandler(i, h) in PlainWorkerEvents(c, line, status) <==>
              i < c.maxStatusBits && Bit(status, i) && c.statusFunc[i] == Some(h)
  {
    DispatchCalls(status, c.statusFunc, c.maxStatusBits, i, h);
  }

  /** The non-threaded worker re-queues itself, and then with the re-poll delay,
      iff the timer is in use and the line read low before the refresh. */
  lemma PlainWorkerRequeue(c: Config, line: Option<bool>, status: bv32, d: nat)
    requires c.Valid()
    ensures Schedule(d) in PlainWorkerEvents(c, line, status) <==>
              c.useIrqTimer && LineLow(line) && d == c.repollDelay
  {
    var calls := Dispatch(status, c.statusFunc, c.maxStatusBits);
    DispatchOnlyCalls(status, c.statusFunc, c.maxStatusBits);
    var probe := if c.useIrqTimer then LineSample(line) else [];
    var head := [Fire] + probe + [ReadStatus] + calls;
    var tail := if c.useIrqTimer && LineLow(line) then ScheduleEvents(c.repollDelay) else [];
    assert PlainWorkerEvents(c, line, status) == head + tail;
    assert Schedule(d) !in head;
  }

  /** After the non-threaded worker, the slot holds the re-poll delay when it
      re-queued itself, and is empty otherwise (running the item cleared it). */
  lemma PlainWorkerPending(p: Option<nat>, c: Config, line: Option<bool>, status: bv32)
    requires c.Valid()
    ensures Replay(p, PlainWorkerEvents(c, line, status)) ==
              if c.useIrqTimer && LineLow(line) then Some(c.repollDelay) else None
  {
    var calls := Dispatch(status, c.statusFunc, c.maxStatusBits);
    DispatchOnlyCalls(status, c.statusFunc, c.maxStatusBits);
    var probe := if c.useIrqTimer then LineSample(line) else [];
    var head := [Fire] + probe + [ReadStatus] + calls;
    var tail := if c.useIrqTimer && LineLow(line) then ScheduleEvents(c.repollDelay) else [];
    assert PlainWorkerEvents(c, line, status) == head + tail;
    ReplayAppend(p, head, tail);
    ReplayAppend(p, [Fire], probe + [ReadStatus] + calls);
    assert [Fire] + (probe + [ReadStatus] + calls) == head;
    ReplayUntouched(None, probe + [ReadStatus] + calls);
    if c.useIrqTimer && LineLow(line) {
      ScheduleLatestWins(p, head, c.repollDelay);
    } else {
      ReplayUntouched(None, tail);
    }
  }

  /** Non-threaded resume schedules zero-delay work. */
  lemma PlainResumeSchedules(p: Option<nat>, c: Config, status: bv32)
    requires c.Valid() && c.mode == NonThreaded
    ensures ResumeEvents(c, status) == ScheduleEvents(0)
    ensures Replay(p, ResumeEvents(c, status)) == Some(0)
  {
  }

  /** Init leaves the work item initialised and idle, whatever it held before. */
  lemma InitLeavesNothingPending(p: Option<nat>, irqErr: int, hasInit: bool)
    ensures Replay(p, InitEvents(irqErr, hasInit)) == None
  {
    var r := InitEvents(irqErr, hasInit);
    ReplayAppend(p, [InitWork], r[1..]);
    assert [InitWork] + r[1..] == r;
    ReplayUntouched(None, r[1..]);
  }

  /** Remove cancels the work item synchronously before the line is freed, so
      nothing is pending afterwards, whatever was pending before. */
  lemma RemoveLeavesNothingPending(p: Option<nat>)
    ensures RemoveEvents()[0] == CancelSync && RemoveEvents()[1] == FreeIrq
    ensures Replay(p, RemoveEvents()) == None
  {
    assert RemoveEvents()[1..] == [FreeIrq];
    assert [FreeIrq][1..] == [];
  }
}
