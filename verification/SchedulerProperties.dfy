/** What every run of exec, terminate, sleep and timer ticks keeps. */
module SchedulerProperties {
  import opened SchedulerModel

  // ----- The invariant -----

  ghost predicate Distinct(queue: seq<nat>) {
    forall i, j :: 0 <= i < j < |queue| ==> queue[i] != queue[j]
  }

  predicate Waiting(p: Proc) {
    p.state == READY || p.state == STARTING
  }

  /** The queue holds exactly the processes that wait for the processor, once. */
  ghost predicate QueueExact(k: Kernel)
    requires k.Shaped()
  {
    && Distinct(k.queue)
    && forall i :: 0 <= i < SLOTS ==> (i in k.queue <==> Waiting(k.procs[i]))
  }

  /** Who may be in which state while the processor is where it is. */
  ghost predicate StatesFit(k: Kernel)
    requires k.Shaped()
  {
    && k.idle.name == IDLE_NAME && k.idle.state != DEFUNCT
    && (k.running < SLOTS ==> k.procs[k.running].state == RUNNING || k.procs[k.running].state == DEFUNCT)
    && (forall i :: 0 <= i < SLOTS ==>
          && k.procs[i].state != BLOCKED
          && (k.procs[i].state == RUNNING ==> i == k.running)
          && (k.procs[i].state != DEFUNCT ==> k.procs[i].name != IDLE_NAME))
  }

  ghost predicate Owns(procs: seq<Proc>, i: nat, s: int) {
    i < |procs| && procs[i].state != DEFUNCT && procs[i].segment == SegmentAddress(s)
  }

  /** Used segments and live processes are in bijection. */
  ghost predicate SegmentsOwned(k: Kernel)
    requires k.Shaped()
  {
    && (forall s :: 0 <= s < SLOTS && k.memory[s] ==> exists i :: Owns(k.procs, i, s))
    && (forall i :: 0 <= i < SLOTS && k.procs[i].state != DEFUNCT ==>
          exists s :: 0 <= s < SLOTS && k.memory[s] && Owns(k.procs, i, s))
    && (forall s, i, j :: Owns(k.procs, i, s) && Owns(k.procs, j, s) ==> i == j)
  }

  ghost predicate Inv(k: Kernel) {
    k.Shaped() && QueueExact(k) && StatesFit(k) && SegmentsOwned(k)
  }

  lemma BootInv()
    ensures Inv(BOOTED)
  {
  }

  // ----- exec -----

  lemma {:induction false} PigeonHole(f: seq<nat>, n: nat)
    requires forall i :: 0 <= i < |f| ==> f[i] < n
    requires forall i, j :: 0 <= i < j < |f| ==> f[i] != f[j]
    ensures |f| <= n
    decreases n
  {
    if f != [] {
      assert f[0] < n;
      if k :| 0 <= k < |f| && f[k] == n - 1 {
        PigeonHole(f[..k] + f[k + 1..], n - 1);
      } else {
        PigeonHole(f, n - 1);
      }
    }
  }

  /** A free segment means a free PCB, so exec never loses the segment it took. */
  lemma FreeSegmentFreePCB(k: Kernel, s: nat)
    requires k.Shaped() && SegmentsOwned(k) && s < SLOTS && !k.memory[s]
    ensures FirstDefunct(k.procs, 0) < SLOTS
  {
    if FirstDefunct(k.procs, 0) == SLOTS {
      var f := seq(SLOTS, i requires 0 <= i < SLOTS => SegmentOf(k, i));
      forall i, j | 0 <= i < j < SLOTS
        ensures f[i] != f[j]
      {
        assert Owns(k.procs, i, f[i]) && Owns(k.procs, j, f[j]);
      }
      PigeonHole(f + [s], SLOTS);
    }
  }

  ghost function SegmentOf(k: Kernel, i: nat): (s: nat)
    requires k.Shaped() && SegmentsOwned(k) && i < SLOTS && k.procs[i].state != DEFUNCT
    ensures s < SLOTS && k.memory[s] && Owns(k.procs, i, s)
  {
    var s :| 0 <= s < SLOTS && k.memory[s] && Owns(k.procs, i, s); s
  }

  lemma ExecSegments(k: Kernel, found: bool, name: string)
    requires Inv(k)
    ensures SegmentsOwned(Exec(k, found, name).0)
  {
    var (r, code) := Exec(k, found, name);
    if found && FirstFree(k.memory, 0) < SLOTS {
      var s, i := FirstFree(k.memory, 0), FirstDefunct(k.procs, 0);
      FreeSegmentFreePCB(k, s);
      assert Owns(r.procs, i, s);
      forall j | 0 <= j < SLOTS && k.procs[j].state != DEFUNCT
        ensures k.procs[j].segment != SegmentAddress(s)
      {
        assert k.memory[SegmentOf(k, j)];
      }
      forall j, t | Owns(k.procs, j, t)
        ensures Owns(r.procs, j, t)
      {
      }
      forall j, t | Owns(r.procs, j, t)
        ensures if j == i then t == s else Owns(k.procs, j, t)
      {
      }
      forall t, j, j' | Owns(r.procs, j, t) && Owns(r.procs, j', t)
        ensures j == j'
      {
      }
      forall j | 0 <= j < SLOTS && r.procs[j].state != DEFUNCT
        ensures exists t :: 0 <= t < SLOTS && r.memory[t] && Owns(r.procs, j, t)
      {
        if j != i {
          assert Owns(r.procs, j, SegmentOf(k, j));
        }
      }
    }
  }

  /** exec reports -1 for a missing file, -2 when and only when every segment is
      taken, and 1 otherwise.  Then it has marked the lowest free segment, s, as used
      and queued a process at the tail, in what was the lowest defunct block: it is
      STARTING at that segment with an empty stack and the first six characters of
      the name.  Nothing else changes. */
  lemma ExecOutcome(k: Kernel, found: bool, name: string)
    requires Inv(k)
    ensures var (r, code) := Exec(k, found, name);
            && code == (if !found then -1 else if forall s :: 0 <= s < SLOTS ==> k.memory[s] then -2 else 1)
            && (code != 1 ==> r == k)
            && (code == 1 ==>
                  exists i, s ::
                    && 0 <= i < SLOTS && k.procs[i].state == DEFUNCT
                    && (forall j :: 0 <= j < i ==> k.procs[j].state != DEFUNCT)
                    && 0 <= s < SLOTS && !k.memory[s] && (forall t :: 0 <= t < s ==> k.memory[t])
                    && r == k.(memory := k.memory[s := true], queue := k.queue + [i],
                               procs := k.procs[i := Proc(if |name| <= 6 then name else name[..6], STARTING,
                                                          0x1000 * (s + 2), 0xFF00, k.procs[i].sleepCounter)]))
  {
    if found && FirstFree(k.memory, 0) < SLOTS {
      FreeSegmentFreePCB(k, FirstFree(k.memory, 0));
      assert !k.memory[FirstFree(k.memory, 0)];
      assert k.procs[FirstDefunct(k.procs, 0)].state == DEFUNCT;
    }
  }

  lemma ExecInv(k: Kernel, found: bool, name: string)
    requires Inv(k) && Enabled(k, DoExec(found, name))
    ensures Inv(Exec(k, found, name).0)
  {
    ExecSegments(k, found, name);
    if found && FirstFree(k.memory, 0) < SLOTS {
      FreeSegmentFreePCB(k, FirstFree(k.memory, 0));
    }
  }

  // ----- terminate -----

  /** The released segment is the one the process owned; its block is defunct and
      nameless, and nothing else changes. */
  lemma TerminateInv(k: Kernel)
    requires Inv(k) && Enabled(k, DoTerminate)
    ensures Inv(Step(k, DoTerminate)) && Step(k, DoTerminate) == Terminate(k)
    ensures var p := k.procs[k.running];
            Terminate(k) == k.(memory := k.memory[SegmentOf(k, k.running) := false],
                               procs := k.procs[k.running := p.(state := DEFUNCT, name := "")])
  {
    var s, r := SegmentOf(k, k.running), Terminate(k);
    assert SegmentAddress(s) / 0x1000 - 2 == s;
    forall j, t | Owns(r.procs, j, t)
      ensures j != k.running && Owns(k.procs, j, t)
    {
    }
    forall t | 0 <= t < SLOTS && r.memory[t]
      ensures exists j :: Owns(r.procs, j, t)
    {
      var j :| Owns(k.procs, j, t);
      assert j != k.running;
      assert Owns(r.procs, j, t);
    }
    forall j | 0 <= j < SLOTS && r.procs[j].state != DEFUNCT
      ensures exists t :: 0 <= t < SLOTS && r.memory[t] && Owns(r.procs, j, t)
    {
      var t := SegmentOf(k, j);
      assert t != s;
      assert Owns(r.procs, j, t);
    }
  }

  // ----- sleep and the timer -----

  /** Changes of state among live processes leave the segments alone. */
  lemma SegmentsSame(k: Kernel, r: Kernel)
    requires k.Shaped() && r.Shaped() && SegmentsOwned(k) && r.memory == k.memory
    requires forall i :: 0 <= i < SLOTS ==>
               && r.procs[i].segment == k.procs[i].segment
               && (r.procs[i].state == DEFUNCT <==> k.procs[i].state == DEFUNCT)
    ensures SegmentsOwned(r)
  {
    forall i, s
      ensures Owns(r.procs, i, s) == Owns(k.procs, i, s)
    {
    }
    forall s | 0 <= s < SLOTS && r.memory[s]
      ensures exists i :: Owns(r.procs, i, s)
    {
      var i :| Owns(k.procs, i, s);
      assert Owns(r.procs, i, s);
    }
    forall i | 0 <= i < SLOTS && r.procs[i].state != DEFUNCT
      ensures exists s :: 0 <= s < SLOTS && r.memory[s] && Owns(r.procs, i, s)
    {
      assert Owns(r.procs, i, SegmentOf(k, i));
    }
  }

  /** The invariant while a running process may just have gone to sleep. */
  ghost predicate MidTick(k: Kernel) {
    && k.Shaped() && QueueExact(k) && SegmentsOwned(k)
    && k.idle.name == IDLE_NAME && k.idle.state != DEFUNCT
    && (k.running < SLOTS ==>
          var p := k.procs[k.running]; p.state == RUNNING || p.state == DEFUNCT || p.state == SLEEPING)
    && forall i :: 0 <= i < SLOTS ==>
         && k.procs[i].state != BLOCKED
         && (k.procs[i].state == RUNNING ==> i == k.running)
         && (k.procs[i].state != DEFUNCT ==> k.procs[i].name != IDLE_NAME)
  }

  /** A running process that has just gone to sleep will not wake in this very
      tick, of whose loop slots below `i` have had their turn. */
  predicate SleepsOn(k: Kernel, i: nat) {
    k.running < |k.procs| && k.procs[k.running].state == SLEEPING ==>
      k.procs[k.running].sleepCounter >= if i <= k.running then 2 else 1
  }

  lemma QueueGrows(k: Kernel, r: Kernel, i: nat)
    requires k.Shaped() && QueueExact(k) && i < SLOTS && r.Shaped()
    requires !Waiting(k.procs[i]) && Waiting(r.procs[i]) && r.queue == k.queue + [i]
    requires forall j :: 0 <= j < SLOTS && j != i ==> r.procs[j].state == k.procs[j].state
    ensures QueueExact(r)
  {
  }

  lemma WakeOneMid(k: Kernel, i: nat)
    requires MidTick(k) && i < SLOTS && SleepsOn(k, i)
    ensures MidTick(WakeOne(k, i)) && SleepsOn(WakeOne(k, i), i + 1)
  {
    hide SegmentsOwned, QueueExact;
    var r := WakeOne(k, i);
    SegmentsSame(k, r);
    if r.queue != k.queue {
      QueueGrows(k, r, i);
    } else {
      assert QueueExact(r) by { QueueSame(k, r); }
    }
  }

  lemma QueueSame(k: Kernel, r: Kernel)
    requires k.Shaped() && QueueExact(k) && r.Shaped() && r.queue == k.queue
    requires forall j :: 0 <= j < SLOTS ==> Waiting(r.procs[j]) == Waiting(k.procs[j])
    ensures QueueExact(r)
  {
  }

  lemma {:induction false} WakeMid(k: Kernel, i: nat)
    requires MidTick(k) && i <= SLOTS && SleepsOn(k, i)
    ensures MidTick(WakeFrom(k, i)) && SleepsOn(WakeFrom(k, i), SLOTS)
    decreases SLOTS - i
  {
    hide MidTick, SleepsOn;
    if i < SLOTS {
      WakeOneMid(k, i);
      assert k.Shaped() && WakeOne(k, i).Shaped() by { MidShaped(k); MidShaped(WakeOne(k, i)); }
      WakeMid(WakeOne(k, i), i + 1);
    }
  }

  lemma MidShaped(k: Kernel)
    requires MidTick(k)
    ensures IdleNamed(k)
  {
  }

  lemma RequeueMid(k: Kernel, stackPointer: int)
    requires MidTick(k)
    ensures var r := Requeue(k, stackPointer);
            MidTick(r.(running := IDLE)) && r.queue == k.queue + if Requeues(RunningProc(k)) then [k.running] else []
  {
    hide SegmentsOwned, QueueExact;
    var r := Requeue(k, stackPointer).(running := IDLE);
    SegmentsSame(k, r);
    if r.queue != k.queue {
      QueueGrows(k, r, k.running);
    } else {
      QueueSame(k, r);
      assert r.queue == k.queue + [];
    }
  }

  lemma DispatchInv(k: Kernel)
    requires k.Shaped() && MidTick(k.(running := IDLE))
    ensures Inv(Dispatch(k))
  {
    hide SegmentsOwned, QueueExact;
    var k' := k.(running := IDLE);
    var r := Dispatch(k);
    if k.queue != [] {
      HeadWaits(k');
    }
    SegmentsSame(k', r);
    QueueShrinks(k', r);
  }

  lemma HeadWaits(k: Kernel)
    requires k.Shaped() && QueueExact(k) && k.queue != []
    ensures Waiting(k.procs[k.queue[0]])
  {
    assert k.queue[0] in k.queue;
  }

  lemma QueueShrinks(k: Kernel, r: Kernel)
    requires k.Shaped() && QueueExact(k) && r.Shaped()
    requires if k.queue == [] then r.queue == [] && r.procs == k.procs
             else r.queue == k.queue[1..] && !Waiting(r.procs[k.queue[0]])
    requires forall i :: 0 <= i < SLOTS && (k.queue == [] || i != k.queue[0]) ==> r.procs[i] == k.procs[i]
    ensures QueueExact(r)
  {
    if k.queue != [] {
      assert k.queue == [k.queue[0]] + r.queue;
    }
  }

  lemma SwitchInv(k: Kernel, stackPointer: int)
    requires MidTick(k)
    ensures Inv(Switch(k, stackPointer))
  {
    RequeueMid(k, stackPointer);
    DispatchInv(Requeue(k, stackPointer));
  }

  lemma TickInv(k: Kernel, stackPointer: int)
    requires MidTick(k) && SleepsOn(k, 0)
    ensures IdleNamed(k) && Inv(Tick(k, stackPointer))
  {
    hide MidTick, Inv, Switch;
    MidShaped(k);
    WakeMid(k, 0);
    MidShaped(WakeFrom(k, 0));
    SwitchInv(WakeFrom(k, 0), stackPointer);
  }

  lemma FallAsleepMid(k: Kernel, seconds: int)
    requires Inv(k) && k.running < SLOTS && k.procs[k.running].state == RUNNING
    ensures MidTick(FallAsleep(k, seconds))
  {
    hide SegmentsOwned, QueueExact;
    var r := FallAsleep(k, seconds);
    SegmentsSame(k, r);
    QueueSame(k, r);
  }

  lemma StepInv(k: Kernel, op: Op)
    requires Inv(k) && Enabled(k, op)
    ensures Inv(Step(k, op))
  {
    match op
    case DoExec(found, name) => ExecInv(k, found, name);
    case DoTerminate => TerminateInv(k);
    case DoTick(sp) => TickInv(k, sp);
    case DoSleep(seconds, sp) =>
      FallAsleepMid(k, seconds);
      TickInv(FallAsleep(k, seconds), sp);
  }

  // ----- Runs -----

  ghost predicate AllEnabled(k: Kernel, ops: seq<Op>)
    requires Inv(k)
    decreases |ops|
  {
    ops == [] || (Enabled(k, ops[0]) && (StepInv(k, ops[0]); AllEnabled(Step(k, ops[0]), ops[1..])))
  }

  ghost function Run(k: Kernel, ops: seq<Op>): (r: Kernel)
    requires Inv(k) && AllEnabled(k, ops)
    ensures Inv(r)
    decreases |ops|
  {
    if ops == [] then k else
      StepInv(k, ops[0]);
      Run(Step(k, ops[0]), ops[1..])
  }

  // ----- Bounded waiting -----

  predicate RaisesTick(op: Op) {
    op.DoTick? || op.DoSleep?
  }

  function TickCount(ops: seq<Op>): nat {
    if ops == [] then 0 else (if RaisesTick(ops[0]) then 1 else 0) + TickCount(ops[1..])
  }

  lemma {:induction false} WakeAppends(k: Kernel, i: nat)
    requires k.Shaped() && i <= SLOTS
    ensures k.queue <= WakeFrom(k, i).queue
    decreases SLOTS - i
  {
    if i < SLOTS {
      WakeAppends(WakeOne(k, i), i + 1);
    }
  }

  lemma TickAdvancesQueue(k: Kernel, stackPointer: int, pos: nat)
    requires IdleNamed(k) && pos < |k.queue|
    ensures var r := Tick(k, stackPointer);
            if pos == 0 then r.running == k.queue[0]
            else pos <= |r.queue| && r.queue[pos - 1] == k.queue[pos]
  {
    hide WakeFrom;
    WakeAppends(k, 0);
    WakeKeepsIdle(k, 0);
    var w := WakeFrom(k, 0);
    assert k.queue[0] == w.queue[0] && k.queue[pos] == w.queue[pos];
  }

  lemma StepAdvancesQueue(k: Kernel, op: Op, pos: nat)
    requires Inv(k) && Enabled(k, op) && pos < |k.queue|
    ensures var r := Step(k, op);
            if !RaisesTick(op) then pos < |r.queue| && r.queue[pos] == k.queue[pos]
            else if pos == 0 then r.running == k.queue[0]
            else pos <= |r.queue| && r.queue[pos - 1] == k.queue[pos]
  {
    hide Tick;
    match op
    case DoExec(found, name) =>
    case DoTerminate =>
    case DoTick(sp) => TickAdvancesQueue(k, sp, pos);
    case DoSleep(seconds, sp) => TickAdvancesQueue(FallAsleep(k, seconds), sp, pos);
  }

  lemma {:induction false} MovesUp(k: Kernel, ops: seq<Op>, pos: nat)
    requires Inv(k) && AllEnabled(k, ops) && pos < |k.queue| && TickCount(ops) <= pos
    ensures var r := Run(k, ops);
            pos - TickCount(ops) < |r.queue| && r.queue[pos - TickCount(ops)] == k.queue[pos]
    decreases |ops|
  {
    hide Step;
    if ops != [] {
      StepInv(k, ops[0]);
      StepAdvancesQueue(k, ops[0], pos);
      MovesUp(Step(k, ops[0]), ops[1..], if RaisesTick(ops[0]) then pos - 1 else pos);
    }
  }

  /** The process at position `pos` gets the processor on exactly the
      (pos + 1)-th tick from now, whatever else happens in between; and no
      position is beyond 7. */
  lemma BoundedWaiting(k: Kernel, ops: seq<Op>, last: Op, pos: nat)
    requires Inv(k) && AllEnabled(k, ops) && pos < |k.queue| && TickCount(ops) <= pos
    requires Enabled(Run(k, ops), last) && RaisesTick(last)
    ensures pos < SLOTS
    ensures k.queue[pos] in Run(k, ops).queue && Run(k, ops).running != k.queue[pos]
    ensures TickCount(ops) == pos ==> Step(Run(k, ops), last).running == k.queue[pos]
  {
    hide Step, Enabled, Run, AllEnabled;
    PigeonHole(k.queue, SLOTS);
    MovesUp(k, ops, pos);
    var r := Run(k, ops);
    StepAdvancesQueue(r, last, pos - TickCount(ops));
    assert r.queue[pos - TickCount(ops)] in r.queue;
  }

  // ----- Sleeping -----

  /** A tick takes one off every sleeper's counter, and the one that reaches zero
      joins the queue. */
  lemma {:induction false} WakeOthers(k: Kernel, i: nat, p: nat)
    requires k.Shaped() && i <= SLOTS && p < SLOTS
    ensures var r := WakeFrom(k, i);
            if p < i || k.procs[p].state != SLEEPING then r.procs[p] == k.procs[p]
            else if k.procs[p].sleepCounter > 1 then
              r.procs[p] == k.procs[p].(sleepCounter := k.procs[p].sleepCounter - 1)
            else r.procs[p] == k.procs[p].(sleepCounter := k.procs[p].sleepCounter - 1, state := READY)
    decreases SLOTS - i
  {
    if i < SLOTS {
      WakeOthers(WakeOne(k, i), i + 1, p);
    }
  }

  /** Process p sleeps and wakes on the c-th tick from now. */
  predicate Asleep(k: Kernel, p: nat, c: int) {
    p < |k.procs| && k.procs[p].state == SLEEPING && k.procs[p].sleepCounter == c
  }

  lemma TickAsleep(k: Kernel, stackPointer: int, p: nat, c: int)
    requires MidTick(k) && SleepsOn(k, 0) && Asleep(k, p, c) && c > 1
    ensures IdleNamed(k) && Asleep(Tick(k, stackPointer), p, c - 1)
  {
    WakeOthers(k, 0, p);
    WakeMid(k, 0);
    var w := WakeFrom(k, 0);
    assert p !in w.queue by { assert QueueExact(w); }
    RequeueMid(w, stackPointer);
  }

  lemma StepAsleep(k: Kernel, op: Op, p: nat, c: int)
    requires Inv(k) && Enabled(k, op) && Asleep(k, p, c) && (RaisesTick(op) ==> c > 1)
    ensures Asleep(Step(k, op), p, if RaisesTick(op) then c - 1 else c)
  {
    match op
    case DoExec(found, name) =>
    case DoTerminate =>
    case DoTick(sp) => TickAsleep(k, sp, p, c);
    case DoSleep(seconds, sp) =>
      FallAsleepMid(k, seconds);
      TickAsleep(FallAsleep(k, seconds), sp, p, c);
  }

  lemma {:induction false} RunAsleep(k: Kernel, ops: seq<Op>, p: nat, c: int)
    requires Inv(k) && AllEnabled(k, ops) && Asleep(k, p, c) && TickCount(ops) < c
    ensures Asleep(Run(k, ops), p, c - TickCount(ops))
    decreases |ops|
  {
    hide Step;
    if ops != [] {
      StepInv(k, ops[0]);
      StepAsleep(k, ops[0], p, c);
      RunAsleep(Step(k, ops[0]), ops[1..], p, if RaisesTick(ops[0]) then c - 1 else c);
    }
  }

  /** The state in which the tick raised by `op` finds the processes. */
  function AtTick(k: Kernel, op: Op): Kernel
    requires k.Shaped() && RaisesTick(op)
  {
    if op.DoSleep? then FallAsleep(k, op.seconds) else k
  }

  /** A process that sleeps stays asleep until as many ticks have come as its
      16-bit counter says, counting the one its call, the first of `ops`, raises;
      on that tick it becomes READY and stands in the queue once. */
  lemma {:induction false} SleepLastsExactly(k: Kernel, seconds: int, ops: seq<Op>, last: Op)
    requires Inv(k) && AllEnabled(k, ops) && ops != [] && ops[0].DoSleep? && ops[0].seconds == seconds
    requires RaisesTick(last) && Enabled(Run(k, ops), last)
    requires TickCount(ops) < Int16(seconds * 125)
    ensures var p, c, r := k.running, Int16(seconds * 125), Run(k, ops);
            && p < SLOTS && r.procs[p].state == SLEEPING && p !in r.queue && r.running != p
            && var w := WakeFrom(AtTick(r, last), 0);
               if TickCount(ops) + 1 < c then w.procs[p].state == SLEEPING
               else w.procs[p].state == READY && multiset(w.queue)[p] == 1
  {
    hide WakeFrom, SegmentsOwned, Int16, Tick;
    var p, c := k.running, Int16(seconds * 125);
    StepInv(k, ops[0]);
    FallAsleepMid(k, seconds);
    TickAsleep(FallAsleep(k, seconds), ops[0].stackPointer, p, c);
    RunAsleep(Step(k, ops[0]), ops[1..], p, c - 1);
    WakesOn(Run(k, ops), last, p, c - TickCount(ops));
  }

  lemma WakesOn(r: Kernel, last: Op, p: nat, c: int)
    requires Inv(r) && Enabled(r, last) && RaisesTick(last) && Asleep(r, p, c) && c >= 1
    ensures p !in r.queue && r.running != p
    ensures var w := WakeFrom(AtTick(r, last), 0);
            if c > 1 then w.procs[p].state == SLEEPING
            else w.procs[p].state == READY && multiset(w.queue)[p] == 1
  {
    hide WakeFrom, SegmentsOwned;
    var t := AtTick(r, last);
    if last.DoSleep? {
      FallAsleepMid(r, last.seconds);
    }
    assert Asleep(t, p, c);
    WakeOthers(t, 0, p);
    WakeMid(t, 0);
    var w := WakeFrom(t, 0);
    assert QueueExact(w);
    if w.procs[p].state == READY {
      assert p in w.queue;
      CountOnce(w.queue, p);
    }
  }

  /** The counter is the ticks asked for exactly from 1 to 262 seconds. */
  lemma CounterExactIff(seconds: int)
    ensures 2 <= Int16(seconds * 125) == seconds * 125 <==> 1 <= seconds <= 262
  {
  }

  lemma {:induction false} CountOnce(queue: seq<nat>, p: nat)
    requires Distinct(queue)
    ensures multiset(queue)[p] == if p in queue then 1 else 0
    decreases |queue|
  {
    if queue != [] {
      CountOnce(queue[1..], p);
      assert queue == [queue[0]] + queue[1..];
    }
  }

  /** Exactly when a sleep call is safe: the tick it raises queues nobody twice
      if and only if the 16-bit counter it sets is at least 2. */
  lemma SleepQueuesOnceIff(k: Kernel, seconds: int, stackPointer: int)
    requires Inv(k) && k.running < SLOTS && k.procs[k.running].state == RUNNING
    ensures var w := WakeFrom(FallAsleep(k, seconds), 0);
            Distinct(Requeue(w, stackPointer).queue) <==> Int16(seconds * 125) >= 2
  {
    hide WakeFrom, SegmentsOwned;
    var f, p := FallAsleep(k, seconds), k.running;
    var w := WakeFrom(f, 0);
    FallAsleepMid(k, seconds);
    if Int16(seconds * 125) >= 2 {
      WakeMid(f, 0);
      RequeueMid(w, stackPointer);
    } else {
      WakeOthers(f, 0, p);
      WakeEnqueues(f, 0, p);
      var q := Requeue(w, stackPointer).queue;
      var j :| 0 <= j < |w.queue| && w.queue[j] == p;
      assert q[j] == q[|w.queue|] == p;
    }
  }

  lemma {:induction false} WakeEnqueues(k: Kernel, i: nat, p: nat)
    requires k.Shaped() && i <= p < SLOTS && k.procs[p].state == SLEEPING && k.procs[p].sleepCounter <= 1
    ensures p in WakeFrom(k, i).queue
    decreases SLOTS - i
  {
    if i == p {
      var r := WakeOne(k, p);
      assert r.queue[|k.queue|] == p;
      WakeAppends(r, p + 1);
      assert WakeFrom(r, p + 1).queue[|k.queue|] == p;
    } else {
      WakeEnqueues(WakeOne(k, i), i + 1, p);
    }
  }
}
