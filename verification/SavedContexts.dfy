/** What a process finds when it gets the processor back: its stack pointer, its
    segment and its name, as they were when it was interrupted. */
module SavedContexts {
  import opened SchedulerModel
  import opened SchedulerProperties

  // ----- One tick, process by process -----

  /** Sleepers from slot i on whose count a tick brings to zero, in slot order. */
  function Expiring(procs: seq<Proc>, i: nat): seq<nat>
    requires i <= |procs|
    decreases |procs| - i
  {
    if i == |procs| then [] else Head(procs, i) + Expiring(procs, i + 1)
  }

  /** The queue gets slot i if its time has come. */
  function Head(procs: seq<Proc>, i: nat): seq<nat>
    requires i < |procs|
  {
    if procs[i].state == SLEEPING && procs[i].sleepCounter <= 1 then [i] else []
  }

  lemma ExpiringStep(procs: seq<Proc>, i: nat)
    requires i <= |procs|
    ensures Expiring(procs, i) == if i == |procs| then [] else Head(procs, i) + Expiring(procs, i + 1)
  {
  }

  lemma WakeOneQueues(k: Kernel, i: nat)
    requires k.Shaped() && i < SLOTS
    ensures var w := WakeOne(k, i);
            && w.Shaped() && w.queue == k.queue + Head(k.procs, i)
            && w.memory == k.memory && w.idle == k.idle && w.running == k.running
            && forall j :: 0 <= j < SLOTS && j != i ==> w.procs[j] == k.procs[j]
  {
    assert k.queue + [] == k.queue;
  }

  lemma {:induction false} WakeQueues(k: Kernel, i: nat)
    requires k.Shaped() && i <= SLOTS
    ensures WakeFrom(k, i).queue == k.queue + Expiring(k.procs, i)
    ensures WakeFrom(k, i).memory == k.memory && WakeFrom(k, i).idle == k.idle && WakeFrom(k, i).running == k.running
    decreases SLOTS - i
  {
    hide WakeOne, Expiring, Head;
    ExpiringStep(k.procs, i);
    if i < SLOTS {
      var w := WakeOne(k, i);
      WakeOneQueues(k, i);
      WakeQueues(w, i + 1);
      ExpiringLater(k.procs, w.procs, i + 1);
      Regroup(k.queue, Head(k.procs, i), Expiring(k.procs, i + 1));
    } else {
      assert k.queue + [] == k.queue;
    }
  }

  lemma Regroup(a: seq<nat>, b: seq<nat>, c: seq<nat>)
    ensures a + b + c == a + (b + c)
  {
  }

  lemma {:induction false} ExpiringLater(a: seq<Proc>, b: seq<Proc>, i: nat)
    requires |a| == |b| && i <= |a| && forall j :: i <= j < |a| ==> a[j] == b[j]
    ensures Expiring(a, i) == Expiring(b, i)
    decreases |a| - i
  {
    hide Expiring;
    ExpiringStep(a, i);
    ExpiringStep(b, i);
    if i < |a| {
      ExpiringLater(a, b, i + 1);
    }
  }

  /** Whether the interrupted process can go on. */
  predicate GoesOn(k: Kernel) {
    k.running < |k.procs| && k.procs[k.running].state == RUNNING
  }

  /** A tick saves the interrupted process's stack pointer and nothing else of any
      context; it takes one off every sleeper's count; it queues the sleepers whose
      count is over and then the interrupted process, as READY; and it runs the
      head of that queue, or the idle process when there is none. */
  lemma {:induction false} TickOutcome(k: Kernel, stackPointer: int)
    requires MidTick(k) && SleepsOn(k, 0)
    ensures IdleNamed(k)
    ensures var r := Tick(k, stackPointer);
            var queue := k.queue + Expiring(k.procs, 0) + if GoesOn(k) then [k.running] else [];
            && |r.procs| == SLOTS && r.memory == k.memory
            && r.running == (if queue == [] then IDLE else queue[0])
            && r.queue == (if queue == [] then [] else queue[1..])
            && (forall p :: 0 <= p < SLOTS ==> TickedProc(k, stackPointer, r.running, p, r.procs[p]))
            && r.idle == if k.running == IDLE then k.idle.(stackPointer := stackPointer) else k.idle
  {
    hide WakeFrom, MidTick, SleepsOn, Switch, Expiring, Waiting;
    MidShaped(k);
    Woken(k);
    SwitchOutcome(WakeFrom(k, 0), stackPointer);
  }

  /** The kernel once sleepers are awake. */
  lemma Woken(k: Kernel)
    requires MidTick(k) && SleepsOn(k, 0)
    ensures var w := WakeFrom(k, 0);
            && IdleNamed(k) && IdleNamed(w) && w.running == k.running <= IDLE
            && w.memory == k.memory && w.idle == k.idle
            && w.queue == k.queue + Expiring(k.procs, 0)
            && (GoesOn(w) <==> GoesOn(k))
            && (k.running < SLOTS ==>
                  var p := w.procs[k.running];
                  && p.state == k.procs[k.running].state
                  && (p.state == RUNNING || p.state == DEFUNCT || p.state == SLEEPING)
                  && (p.state == RUNNING ==> p.name != IDLE_NAME))
            && forall p :: 0 <= p < SLOTS ==>
                 w.procs[p] == if k.procs[p].state != SLEEPING then k.procs[p]
                               else k.procs[p].(sleepCounter := k.procs[p].sleepCounter - 1,
                                                state := if k.procs[p].sleepCounter > 1 then SLEEPING else READY)
  {
    hide WakeFrom, Expiring, QueueExact, SegmentsOwned;
    MidShaped(k);
    WakeMid(k, 0);
    MidShaped(WakeFrom(k, 0));
    WakeQueues(k, 0);
    forall p | 0 <= p < SLOTS
      ensures WakeFrom(k, 0).procs[p] == if k.procs[p].state != SLEEPING then k.procs[p]
                            else k.procs[p].(sleepCounter := k.procs[p].sleepCounter - 1,
                                             state := if k.procs[p].sleepCounter > 1 then SLEEPING else READY)
    {
      WakeOthers(k, 0, p);
    }
  }

  /** Process p, `q` afterwards, when `running` gets the processor. */
  predicate TickedProc(k: Kernel, stackPointer: int, running: nat, p: nat, q: Proc)
    requires p < |k.procs|
  {
    var before := k.procs[p];
    && q.name == before.name && q.segment == before.segment
    && q.stackPointer == (if p == k.running then stackPointer else before.stackPointer)
    && q.sleepCounter == (if before.state == SLEEPING then before.sleepCounter - 1 else before.sleepCounter)
    && q.state == if p == running then RUNNING
                  else if p == k.running && before.state == RUNNING then READY
                  else if before.state == SLEEPING && before.sleepCounter <= 1 then READY
                  else before.state
  }

  lemma SwitchOutcome(w: Kernel, stackPointer: int)
    requires IdleNamed(w) && w.running <= IDLE
    requires w.running < SLOTS ==>
               var p := w.procs[w.running];
               p.state == RUNNING || p.state == DEFUNCT || p.state == SLEEPING
    requires w.running < SLOTS && w.procs[w.running].state == RUNNING ==> w.procs[w.running].name != IDLE_NAME
    ensures var r := Switch(w, stackPointer);
            var queue := w.queue + if GoesOn(w) then [w.running] else [];
            && r.memory == w.memory && |r.procs| == SLOTS
            && r.running == (if queue == [] then IDLE else queue[0])
            && r.queue == (if queue == [] then [] else queue[1..])
            && (forall p :: 0 <= p < SLOTS ==>
                  var b := w.procs[p];
                  r.procs[p] == b.(stackPointer := if p == w.running then stackPointer else b.stackPointer,
                                   state := if p == r.running then RUNNING
                                            else if p == w.running && b.state == RUNNING then READY else b.state))
            && r.idle == if w.running == IDLE then w.idle.(stackPointer := stackPointer) else w.idle
  {
    assert w.queue + [] == w.queue;
  }

  // ----- Over runs -----

  /** The process has this name, segment and saved stack pointer. */
  predicate Context(q: Proc, like: Proc) {
    q.name == like.name && q.segment == like.segment && q.stackPointer == like.stackPointer
  }

  /** Steps leave the context of a live process alone, unless it is the one running. */
  lemma {:induction false} StepKeepsContext(k: Kernel, op: Op, p: nat)
    requires Inv(k) && Enabled(k, op) && p < SLOTS && p != k.running && k.procs[p].state != DEFUNCT
    ensures Inv(Step(k, op)) && Step(k, op).procs[p].state != DEFUNCT
    ensures Context(Step(k, op).procs[p], k.procs[p])
  {
    StepInv(k, op);
    hide Inv, QueueExact, SegmentsOwned;
    match op
    case DoExec(found, name) => ExecElsewhere(k, found, name, p);
    case DoTerminate =>
    case DoTick(sp) =>
      InvTicks(k);
      TickOutcome(k, sp);
    case DoSleep(seconds, sp) =>
      InvSleeps(k, op);
      TickOutcome(FallAsleep(k, seconds), sp);
  }

  lemma ExecElsewhere(k: Kernel, found: bool, name: string, p: nat)
    requires k.Shaped() && p < SLOTS && k.procs[p].state != DEFUNCT
    ensures Exec(k, found, name).0.procs[p] == k.procs[p]
  {
  }

  lemma InvTicks(k: Kernel)
    requires Inv(k)
    ensures MidTick(k) && SleepsOn(k, 0)
  {
  }

  lemma InvSleeps(k: Kernel, op: Op)
    requires Inv(k) && op.DoSleep? && Enabled(k, op)
    ensures MidTick(FallAsleep(k, op.seconds)) && SleepsOn(FallAsleep(k, op.seconds), 0)
  {
    FallAsleepMid(k, op.seconds);
  }

  /** A queued process keeps its context until its turn comes ... */
  lemma {:induction false} QueuedKeepsContext(k: Kernel, ops: seq<Op>, pos: nat)
    requires Inv(k) && AllEnabled(k, ops) && pos < |k.queue| && TickCount(ops) <= pos
    ensures k.queue[pos] < SLOTS && Context(Run(k, ops).procs[k.queue[pos]], k.procs[k.queue[pos]])
    decreases |ops|
  {
    hide Step, Context;
    QueuedWaits(k, pos);
    if ops == [] {
      ContextItself(k.procs[k.queue[pos]]);
    } else {
      var n := Step(k, ops[0]);
      var next := if RaisesTick(ops[0]) then pos - 1 else pos;
      StepKeepsContext(k, ops[0], k.queue[pos]);
      StepAdvancesQueue(k, ops[0], pos);
      QueuedKeepsContext(n, ops[1..], next);
      ContextOn(k.procs[k.queue[pos]], n.procs[k.queue[pos]], Run(k, ops).procs[k.queue[pos]]);
    }
  }

  lemma QueuedWaits(k: Kernel, pos: nat)
    requires Inv(k) && pos < |k.queue|
    ensures k.queue[pos] < SLOTS && k.queue[pos] != k.running && Waiting(k.procs[k.queue[pos]])
  {
    assert k.queue[pos] in k.queue;
  }

  lemma ContextItself(q: Proc)
    ensures Context(q, q)
  {
  }

  lemma ContextOn(a: Proc, b: Proc, c: Proc)
    requires Context(b, a) && Context(c, b)
    ensures Context(c, a)
  {
  }

  /** ... and then runs with it: the process at position `pos` is dispatched on
      exactly the (pos + 1)-th tick, with the stack pointer, segment and name it
      had in the queue. */
  lemma {:induction false} DispatchedWithContext(k: Kernel, ops: seq<Op>, last: Op, pos: nat)
    requires Inv(k) && AllEnabled(k, ops) && pos < |k.queue| && TickCount(ops) == pos
    requires Enabled(Run(k, ops), last) && RaisesTick(last)
    ensures var p, r := k.queue[pos], Step(Run(k, ops), last);
            p < SLOTS && Inv(r) && r.running == p && r.procs[p].state == RUNNING && Context(r.procs[p], k.procs[p])
  {
    hide Step, Context, Run;
    var r := Run(k, ops);
    QueuedWaits(k, pos);
    QueuedKeepsContext(k, ops, pos);
    BoundedWaiting(k, ops, last, pos);
    QueuedIsLive(r, k.queue[pos]);
    StepKeepsContext(r, last, k.queue[pos]);
    ContextOn(k.procs[k.queue[pos]], r.procs[k.queue[pos]], Step(r, last).procs[k.queue[pos]]);
    RunningRuns(Step(r, last));
  }

  lemma QueuedIsLive(k: Kernel, p: nat)
    requires Inv(k) && p in k.queue
    ensures p < SLOTS && k.procs[p].state != DEFUNCT
  {
  }

  lemma RunningRuns(k: Kernel)
    requires Inv(k)
    ensures k.running < SLOTS ==> k.procs[k.running].state == RUNNING || k.procs[k.running].state == DEFUNCT
  {
  }

  /** The process running at a tick is queued with the stack pointer it was
      interrupted at, or, if it is alone, runs on with it. */
  lemma {:induction false} InterruptSaves(k: Kernel, stackPointer: int)
    requires Inv(k) && k.running < SLOTS && k.procs[k.running].state == RUNNING
    ensures IdleNamed(k)
    ensures var r, p := Tick(k, stackPointer), k.running;
            && Inv(r) && Context(r.procs[p], k.procs[p].(stackPointer := stackPointer))
            && if r.running == p then r.queue == []
               else r.procs[p].state == READY && r.queue != [] && r.queue[|r.queue| - 1] == p
  {
    InvTicks(k);
    StepInv(k, DoTick(stackPointer));
    hide Inv, MidTick, SleepsOn, QueueExact, SegmentsOwned;
    TickOutcome(k, stackPointer);
    AloneOrLast(k, stackPointer);
  }

  lemma AloneOrLast(k: Kernel, stackPointer: int)
    requires Inv(k) && k.running < SLOTS && k.procs[k.running].state == RUNNING
    ensures IdleNamed(k)
    ensures var r, p := Tick(k, stackPointer), k.running;
            if r.running == p then r.queue == [] else r.queue != [] && r.queue[|r.queue| - 1] == p
  {
    InvTicks(k);
    StepInv(k, DoTick(stackPointer));
    TickOutcome(k, stackPointer);
    hide Tick, MidTick, SleepsOn, SegmentsOwned, Expiring;
    var r, before := Tick(k, stackPointer), k.queue + Expiring(k.procs, 0);
    assert before + [k.running] == k.queue + Expiring(k.procs, 0) + [k.running];
    assert before != [] ==> r.queue != [] && r.queue[|r.queue| - 1] == k.running;
    assert r.queue != [] ==> r.queue[|r.queue| - 1] in r.queue;
  }

  /** A process interrupted with a stack pointer by the tick that begins `ops` runs
      again, in its turn, with that stack pointer and its own segment and name. */
  lemma {:induction false} InterruptedResumes(k: Kernel, stackPointer: int, ops: seq<Op>, last: Op)
    requires Inv(k) && k.running < SLOTS && k.procs[k.running].state == RUNNING
    requires AllEnabled(k, ops) && ops != [] && ops[0] == DoTick(stackPointer)
    requires IdleNamed(k) && Tick(k, stackPointer).running != k.running
    requires TickCount(ops) == |Tick(k, stackPointer).queue|
    requires Enabled(Run(k, ops), last) && RaisesTick(last)
    ensures var p, r := k.running, Step(Run(k, ops), last);
            && Inv(r) && r.running == p && r.procs[p].state == RUNNING
            && r.procs[p].stackPointer == stackPointer
            && r.procs[p].segment == k.procs[p].segment && r.procs[p].name == k.procs[p].name
  {
    hide Tick, Enabled;
    var n := Tick(k, stackPointer);
    InterruptSaves(k, stackPointer);
    DispatchedWithContext(n, ops[1..], last, |n.queue| - 1);
  }

  /** A process that sleeps keeps the stack pointer its call was made with until the
      tick that wakes it is over. */
  lemma {:induction false} SleeperKeepsContext(k: Kernel, seconds: int, stackPointer: int, ops: seq<Op>, last: Op)
    requires Inv(k) && AllEnabled(k, ops) && ops != [] && ops[0] == DoSleep(seconds, stackPointer)
    requires Enabled(Run(k, ops), last) && RaisesTick(last)
    requires TickCount(ops) < Int16(125 * seconds)
    ensures var p, r := k.running, Step(Run(k, ops), last);
            && p < SLOTS && Inv(r)
            && Context(Run(k, ops).procs[p], k.procs[p].(stackPointer := stackPointer))
            && Context(r.procs[p], k.procs[p].(stackPointer := stackPointer))
            && (TickCount(ops) + 1 == Int16(125 * seconds) ==> p in r.queue || r.running == p)
  {
    var p, c := k.running, Int16(125 * seconds);
    SleepTick(k, seconds, stackPointer);
    RunUnfolds(k, ops);
    hide Context, Run, AllEnabled, Int16, Step, Enabled, Inv;
    var n, like := Step(k, ops[0]), k.procs[p].(stackPointer := stackPointer);
    AsleepThenWakes(n, ops[1..], p, c - 1, last);
    var r := Run(k, ops);
    ContextOn(like, n.procs[p], r.procs[p]);
    ContextOn(like, n.procs[p], Step(r, last).procs[p]);
  }

  lemma {:induction false} AsleepThenWakes(n: Kernel, ops: seq<Op>, p: nat, c: int, last: Op)
    requires Inv(n) && AllEnabled(n, ops) && Asleep(n, p, c) && TickCount(ops) < c
    requires Enabled(Run(n, ops), last) && RaisesTick(last)
    ensures var r := Run(n, ops);
            && p < SLOTS && Inv(Step(r, last))
            && Context(r.procs[p], n.procs[p]) && Context(Step(r, last).procs[p], n.procs[p])
            && (TickCount(ops) + 1 == c ==> p in Step(r, last).queue || Step(r, last).running == p)
  {
    hide Context, Run, AllEnabled, Step, Enabled;
    var r := Run(n, ops);
    AsleepKeepsContext(n, ops, p, c);
    RunAsleep(n, ops, p, c);
    AsleepElsewhere(r, p);
    StepKeepsContext(r, last, p);
    ContextOn(n.procs[p], r.procs[p], Step(r, last).procs[p]);
    if TickCount(ops) + 1 == c {
      WakesQueued(r, last, p);
    }
  }

  lemma RunUnfolds(k: Kernel, ops: seq<Op>)
    requires Inv(k) && AllEnabled(k, ops) && ops != []
    ensures Inv(Step(k, ops[0])) && AllEnabled(Step(k, ops[0]), ops[1..])
    ensures Run(k, ops) == Run(Step(k, ops[0]), ops[1..])
  {
    StepInv(k, ops[0]);
  }

  /** The call itself: one tick of the sleep is gone and the stack pointer is saved. */
  lemma SleepTick(k: Kernel, seconds: int, stackPointer: int)
    requires Inv(k) && Enabled(k, DoSleep(seconds, stackPointer))
    ensures k.running < SLOTS
    ensures var n, p := Step(k, DoSleep(seconds, stackPointer)), k.running;
            && Asleep(n, p, Int16(125 * seconds) - 1)
            && Context(n.procs[p], k.procs[p].(stackPointer := stackPointer))
  {
    FellAsleep(k, seconds, stackPointer);
    hide Tick, MidTick, SleepsOn, Int16, FallAsleep, Asleep, Inv, Enabled, TickedProc;
    var f := FallAsleep(k, seconds);
    TickOutcome(f, stackPointer);
    TickAsleep(f, stackPointer, k.running, Int16(125 * seconds));
    TickedSaves(f, stackPointer, Tick(f, stackPointer).running, Tick(f, stackPointer).procs[k.running]);
  }

  lemma FellAsleep(k: Kernel, seconds: int, stackPointer: int)
    requires Inv(k) && Enabled(k, DoSleep(seconds, stackPointer))
    ensures IdleNamed(k) && k.running < SLOTS && Int16(125 * seconds) > 1
    ensures var f := FallAsleep(k, seconds);
            && MidTick(f) && IdleNamed(f) && SleepsOn(f, 0) && f.running == k.running && |f.procs| == |k.procs|
            && Asleep(f, k.running, Int16(125 * seconds))
            && f.procs[k.running].name == k.procs[k.running].name
            && f.procs[k.running].segment == k.procs[k.running].segment
            && Step(k, DoSleep(seconds, stackPointer)) == Tick(f, stackPointer)
  {
    InvSleeps(k, DoSleep(seconds, stackPointer));
    hide Tick, MidTick, Int16, QueueExact, SegmentsOwned, Waiting;
    FallenAsleep(k, seconds);
  }

  lemma FallenAsleep(k: Kernel, seconds: int)
    requires k.Shaped() && k.running < SLOTS && k.procs[k.running].state == RUNNING
    ensures var f, c := FallAsleep(k, seconds), Int16(125 * seconds);
            && c == Int16(seconds * TICKS_PER_SECOND) && f.idle == k.idle && f.running == k.running
            && f.queue == k.queue && f.memory == k.memory
            && f.procs == k.procs[k.running := k.procs[k.running].(state := SLEEPING, sleepCounter := c)]
  {
    hide Int16;
  }

  lemma TickedSaves(k: Kernel, stackPointer: int, running: nat, q: Proc)
    requires k.running < |k.procs| && TickedProc(k, stackPointer, running, k.running, q)
    ensures Context(q, k.procs[k.running].(stackPointer := stackPointer))
  {
  }

  lemma AsleepElsewhere(k: Kernel, p: nat)
    requires Inv(k) && p < SLOTS && k.procs[p].state == SLEEPING
    ensures p != k.running
  {
  }

  lemma {:induction false} AsleepKeepsContext(k: Kernel, ops: seq<Op>, p: nat, c: int)
    requires Inv(k) && AllEnabled(k, ops) && Asleep(k, p, c) && TickCount(ops) < c
    ensures p < SLOTS && Context(Run(k, ops).procs[p], k.procs[p])
    decreases |ops|
  {
    hide Step, Context;
    if ops == [] {
      ContextItself(k.procs[p]);
    } else {
      var n := Step(k, ops[0]);
      AsleepElsewhere(k, p);
      StepKeepsContext(k, ops[0], p);
      StepAsleep(k, ops[0], p, c);
      AsleepKeepsContext(n, ops[1..], p, if RaisesTick(ops[0]) then c - 1 else c);
      ContextOn(k.procs[p], n.procs[p], Run(k, ops).procs[p]);
    }
  }

  /** On the tick that wakes it a sleeper is queued, or runs at once. */
  lemma WakesQueued(r: Kernel, last: Op, p: nat)
    requires Inv(r) && Enabled(r, last) && RaisesTick(last) && Asleep(r, p, 1)
    ensures p in Step(r, last).queue || Step(r, last).running == p
  {
    TickFinds(r, last, p);
    hide Tick, MidTick, SleepsOn, Asleep, Inv, Enabled, FallAsleep;
    TickWakes(AtTick(r, last), last.stackPointer, p);
  }

  lemma TickFinds(r: Kernel, last: Op, p: nat)
    requires Inv(r) && Enabled(r, last) && RaisesTick(last) && Asleep(r, p, 1)
    ensures IdleNamed(r)
    ensures var t := AtTick(r, last);
            MidTick(t) && SleepsOn(t, 0) && Asleep(t, p, 1) && Step(r, last) == Tick(t, last.stackPointer)
  {
    InvTicks(r);
    if last.DoSleep? {
      InvSleeps(r, last);
    }
    hide Tick, MidTick, SleepsOn;
  }

  lemma TickWakes(t: Kernel, stackPointer: int, p: nat)
    requires MidTick(t) && SleepsOn(t, 0) && Asleep(t, p, 1) && IdleNamed(t)
    ensures p in Tick(t, stackPointer).queue || Tick(t, stackPointer).running == p
  {
    hide Tick, MidTick, SleepsOn, Expiring, TickedProc;
    TickOutcome(t, stackPointer);
    ExpiringHas(t.procs, 0, p);
    var queue := t.queue + Expiring(t.procs, 0) + if GoesOn(t) then [t.running] else [];
    assert p in queue;
    assert queue == [queue[0]] + queue[1..];
  }

  lemma {:induction false} ExpiringHas(procs: seq<Proc>, i: nat, p: nat)
    requires i <= p < |procs| && procs[p].state == SLEEPING && procs[p].sleepCounter <= 1
    ensures p in Expiring(procs, i)
    decreases p - i
  {
    if i < p {
      ExpiringHas(procs, i + 1, p);
    }
  }

  /** A new process first runs, in its turn, at its segment with an empty stack. */
  lemma {:induction false} NewProcessStarts(k: Kernel, name: string, ops: seq<Op>, last: Op)
    requires Inv(k) && AllEnabled(k, ops) && ops != [] && ops[0] == DoExec(true, name)
    requires exists s :: 0 <= s < SLOTS && !k.memory[s]
    requires TickCount(ops) == |k.queue| && Enabled(Run(k, ops), last) && RaisesTick(last)
    ensures var r := Step(Run(k, ops), last);
            && Inv(r) && r.running < SLOTS && k.procs[r.running].state == DEFUNCT
            && var q := r.procs[r.running];
               && q.state == RUNNING && q.stackPointer == 0xFF00
               && q.name == (if |name| <= 6 then name else name[..6])
               && exists s :: 0 <= s < SLOTS && !k.memory[s] && q.segment == 0x1000 * (s + 2)
  {
    ExecOutcome(k, true, name);
    RunUnfolds(k, ops);
    hide Exec, Run, AllEnabled;
    var n := Step(k, ops[0]);
    assert n == Exec(k, true, name).0;
    DispatchedWithContext(n, ops[1..], last, |k.queue|);
  }
}
