/** The kernel's own steps on the process table: the two timer interrupts, exec,
    terminate and sleep. */
module KernelCalls {
  import opened SchedulerModel
  import opened SchedulerProperties
  import opened ProcTables

  ghost predicate Ready(t: ProcTable)
    reads t, t.pcbPool, t.idleProc, t.memoryMap
  {
    t.Valid() && Inv(t.Abs())
  }

  // ----- The parts of a timer interrupt -----

  method SaveStackPointer(t: ProcTable, stackPointer: int)
    requires t.Valid()
    modifies t.pcbPool, t.idleProc
    ensures t.Valid() && t.Nexts() == old(t.Nexts())
    ensures t.Abs() == SetRunning(old(t.Abs()), RunningProc(old(t.Abs())).(stackPointer := stackPointer))
  {
    t.running.stackPointer := stackPointer;
  }

  /** Marks a process READY and puts it at the tail of the queue. */
  method Enqueue(t: ProcTable, pcb: PCB)
    requires t.Valid() && pcb in t.pcbPool && pcb.slot !in t.queue
    modifies t`readyHead, t`readyTail, t`queue, t.pcbPool
    ensures t.Valid() && t.running == old(t.running)
    ensures var k := old(t.Abs());
            t.Abs() == k.(procs := k.procs[pcb.slot := k.procs[pcb.slot].(state := READY)],
              queue := k.queue + [pcb.slot])
    ensures t.Nexts() == AfterAppend(t, old(t.queue), old(t.Nexts()), pcb)
  {
    hide Chain, Distinct;
    t.QueueInRange();
    t.SetState(pcb, READY);
    t.AddToReady(pcb);
  }

  ghost function AfterAppend(t: ProcTable, queue: seq<nat>, nexts: seq<PCB?>, pcb: PCB): seq<PCB?>
    requires |nexts| == SLOTS && forall i :: 0 <= i < |queue| ==> queue[i] < SLOTS
  {
    if queue == [] then nexts else nexts[queue[|queue| - 1] := pcb]
  }

  /** Gives the processor to the head of the queue, or to the idle process. */
  method DispatchNext(t: ProcTable)
    requires t.Valid()
    modifies t`readyHead, t`readyTail, t`queue, t`running, t.pcbPool
    ensures t.Valid() && t.Abs() == Dispatch(old(t.Abs()))
    ensures t.Nexts() == if |old(t.queue)| == 2 then old(t.Nexts())[old(t.queue)[1] := null] else old(t.Nexts())
  {
    hide Chain, Distinct;
    t.QueueInRange();
    var process := t.RemoveFromReady();
    if process == null {
      t.running := t.idleProc;
    } else {
      t.SetState(process, RUNNING);
      t.running := process;
    }
  }

  // ----- Stale next pointers -----

  /** What project 5 keeps about next pointers besides the queue's own: a sole
      queued block has none, nor has any block outside the queue, except that the
      running one (slot c) may still point at the head. */
  ghost predicate Snug(queue: seq<nat>, head: PCB?, nexts: seq<PCB?>, c: nat)
    requires |nexts| == SLOTS && forall i :: 0 <= i < |queue| ==> queue[i] < SLOTS
  {
    && (|queue| == 1 ==> nexts[queue[0]] == null)
    && (forall i :: 0 <= i < SLOTS && i !in queue && i != c ==> nexts[i] == null)
    && (c < SLOTS && c !in queue ==> nexts[c] == null || nexts[c] == head)
  }

  ghost predicate Tight(t: ProcTable)
    reads t, t.pcbPool, t.idleProc
  {
    t.Linked() && Snug(t.queue, t.readyHead, t.Nexts(), t.running.slot)
    && (t.running.slot < SLOTS && t.Procs()[t.running.slot].state == DEFUNCT ==> t.Nexts()[t.running.slot] == null)
  }

  /** Queueing block p; `c` is the running one, which may be p itself. */
  lemma SnugAppend(t: ProcTable, queue: seq<nat>, head: PCB?, nexts: seq<PCB?>, c: nat, pcb: PCB)
    requires |nexts| == SLOTS && forall i :: 0 <= i < |queue| ==> queue[i] < SLOTS
    requires Snug(queue, head, nexts, c) && pcb.slot < SLOTS && pcb.slot !in queue && (queue == [] ==> head == null)
    ensures Snug(queue + [pcb.slot], if queue == [] then pcb else head, AfterAppend(t, queue, nexts, pcb), c)
  {
    var q := queue + [pcb.slot];
    assert forall i :: i in q <==> i in queue || i == pcb.slot;
    assert queue != [] ==> queue[|queue| - 1] in queue;
  }

  /** Dequeueing; the block that ran before, slot c, is queued by now, or has no
      next pointer, or is the idle process. */
  lemma SnugPop(pool: seq<PCB>, queue: seq<nat>, head: PCB?, tail: PCB?, nexts: seq<PCB?>, prevs: seq<PCB?>, c: nat)
    requires |pool| == |nexts| == |prevs| == SLOTS && Chain(pool, queue, head, tail, nexts, prevs)
    requires Snug(queue, head, nexts, c)
    requires c >= SLOTS || c in queue || nexts[c] == null
    ensures if queue == [] then Snug([], null, nexts, IDLE)
            else Snug(queue[1..], if |queue| == 1 then null else pool[queue[1]],
                      if |queue| == 2 then nexts[queue[1] := null] else nexts, queue[0])
  {
    if queue != [] {
      assert queue == [queue[0]] + queue[1..];
      PrevOf(pool, queue, head, tail, nexts, prevs, 0);
    }
  }

  method Boot() returns (t: ProcTable)
    ensures Ready(t) && Tight(t) && t.Abs() == BOOTED
  {
    t := new ProcTable();
    BootInv();
  }

  // ----- Timer interrupts -----

  /** Tight, and the running process is not a sleeper. */
  ghost predicate TightAwake(t: ProcTable)
    reads t, t.pcbPool, t.idleProc, t.memoryMap
  {
    Tight(t) && t.Abs().Shaped() && (t.running.slot < SLOTS ==> RunningProc(t.Abs()).state != SLEEPING)
  }

  /** The running process is queued, or has no stale next pointer, or is idle. */
  ghost predicate TightRequeued(t: ProcTable)
    reads t, t.pcbPool
  {
    var c := t.running.slot;
    && t.Linked()
    && Snug(t.queue, t.readyHead, t.Nexts(), c)
    && (c >= SLOTS || c in t.queue || t.Nexts()[c] == null)
  }

  /** The first half of an interrupt: saves the running process and requeues it
      if it can go on.  Project 5 has no sleeping state to test for. */
  method RequeueRunning(t: ProcTable, stackPointer: int)
    requires t.Valid() && MidTick(t.Abs())
    modifies t`readyHead, t`readyTail, t`queue, t.pcbPool, t.idleProc
    ensures t.Valid() && t.running == old(t.running)
    ensures t.Abs() == Requeue(old(t.Abs()), stackPointer)
    ensures old(TightAwake(t)) ==> TightRequeued(t)
  {
    RunningOutside(t);
    hide Chain, Distinct, MidTick, QueueExact, SegmentsOwned, Snug;
    ghost var queue, head, nexts, c, tight := t.queue, t.readyHead, t.Nexts(), t.running, TightAwake(t);
    t.QueueInRange();
    ChainEnds(t.pcbPool, queue, head, t.readyTail, nexts, t.Prevs());
    RunningValue(t);
    if tight && Requeues(RunningProc(t.Abs())) {
      SnugAppend(t, queue, head, nexts, c.slot, c);
    }
    SaveStackPointer(t, stackPointer);
    RunningValue(t);
    if t.running.state != DEFUNCT && t.running.name != IDLE_NAME && t.running.state != SLEEPING {
      Enqueue(t, t.running);
      ChainEnds(t.pcbPool, t.queue, t.readyHead, t.readyTail, t.Nexts(), t.Prevs());
      assert t.queue[|queue|] == c.slot && c == t.pcbPool[c.slot];
      assert t.Abs().procs == Requeue(old(t.Abs()), stackPointer).procs;
    }
  }

  lemma InShape(t: ProcTable)
    requires t.Valid()
    ensures t.Abs().Shaped()
  {
  }

  lemma RunningValue(t: ProcTable)
    requires t.Valid()
    ensures t.running.Value() == RunningProc(t.Abs())
  {
  }

  lemma RunningOutside(t: ProcTable)
    requires t.Valid() && MidTick(t.Abs())
    ensures t.running.state != SLEEPING && t.running.state != DEFUNCT ==> t.running.slot !in t.queue
    ensures t.running in t.pcbPool <==> t.running != t.idleProc
    ensures t.running.Value() == RunningProc(t.Abs())
    ensures if t.running == t.idleProc then t.running.name == IDLE_NAME && t.running.slot == IDLE
            else t.running.slot < SLOTS && (t.running.state != DEFUNCT ==> t.running.name != IDLE_NAME)
  {
  }

  lemma InvMid(k: Kernel)
    requires Inv(k)
    ensures MidTick(k) && (k.running < SLOTS ==> RunningProc(k).state != SLEEPING)
  {
  }

  /** Both halves together keep the stale pointers in check. */
  method Reschedule(t: ProcTable, stackPointer: int)
    requires t.Valid() && MidTick(t.Abs())
    modifies t`readyHead, t`readyTail, t`queue, t`running, t.pcbPool, t.idleProc
    ensures t.Valid() && t.Abs() == Switch(old(t.Abs()), stackPointer)
    ensures old(TightAwake(t)) ==> Tight(t)
  {
    hide Chain, Distinct, MidTick, Snug, Requeue;
    ghost var tight := TightAwake(t);
    RequeueRunning(t, stackPointer);
    t.QueueInRange();
    if tight {
      SnugPop(t.pcbPool, t.queue, t.readyHead, t.readyTail, t.Nexts(), t.Prevs(), t.running.slot);
    }
    DispatchNext(t);
    t.QueueInRange();
    ChainEnds(t.pcbPool, t.queue, t.readyHead, t.readyTail, t.Nexts(), t.Prevs());
    assert t.running.slot < SLOTS ==> t.Abs().procs[t.running.slot].state == RUNNING;
  }

  /** Project 5. */
  method HandleTimerInterrupt(t: ProcTable, stackPointer: int)
    requires Ready(t)
    modifies t`readyHead, t`readyTail, t`queue, t`running, t.pcbPool, t.idleProc
    ensures Ready(t) && t.Abs() == Switch(old(t.Abs()), stackPointer)
    ensures old(Tight(t)) ==> Tight(t)
  {
    hide Chain, Distinct, MidTick, Snug, Requeue, Dispatch;
    InvMid(t.Abs());
    RunningOutside(t);
    SwitchInv(t.Abs(), stackPointer);
    Reschedule(t, stackPointer);
  }

  /** The loop that opens project 6's timer interrupt. */
  method WakeSleepers(t: ProcTable)
    requires t.Valid() && MidTick(t.Abs()) && SleepsOn(t.Abs(), 0)
    modifies t`readyHead, t`readyTail, t`queue, t.pcbPool
    ensures t.Valid() && MidTick(t.Abs()) && t.Abs() == WakeFrom(old(t.Abs()), 0)
  {
    hide Chain, Distinct, MidTick, SleepsOn;
    ghost var k := t.Abs();
    InShape(t);
    var i := 0;
    while i < SLOTS
      invariant 0 <= i <= SLOTS && t.Valid() && t.Abs().Shaped()
      invariant MidTick(t.Abs()) && SleepsOn(t.Abs(), i)
      invariant WakeFrom(t.Abs(), i) == WakeFrom(k, 0)
    {
      WakeOneMid(t.Abs(), i);
      WakeSlot(t, i);
      InShape(t);
      i := i + 1;
    }
  }

  method WakeSlot(t: ProcTable, i: nat)
    requires t.Valid() && MidTick(t.Abs()) && i < SLOTS
    modifies t`readyHead, t`readyTail, t`queue, t.pcbPool
    ensures t.Valid() && t.Abs() == WakeOne(old(t.Abs()), i)
  {
    hide Chain, Distinct, SegmentsOwned;
    ghost var k := t.Abs();
    if t.pcbPool[i].state == SLEEPING {
      SleeperOutside(k, i);
      assert t.idleProc !in t.pcbPool;
      ghost var p := k.procs[i];
      t.SetSleepCounter(t.pcbPool[i], t.pcbPool[i].sleepCounter - 1);
      assert t.Procs()[i] == p.(sleepCounter := p.sleepCounter - 1);
      assert t.pcbPool[i].Value() == t.Procs()[i];
      if t.pcbPool[i].sleepCounter <= 0 {
        Enqueue(t, t.pcbPool[i]);
        assert t.Procs() == k.procs[i := p.(sleepCounter := p.sleepCounter - 1, state := READY)];
      }
    }
  }

  lemma SleeperOutside(k: Kernel, i: nat)
    requires MidTick(k) && i < SLOTS && k.procs[i].state == SLEEPING
    ensures i !in k.queue
  {
  }

  /** Project 6. */
  method HandleTimerInterruptSleeping(t: ProcTable, stackPointer: int)
    requires t.Valid() && MidTick(t.Abs()) && SleepsOn(t.Abs(), 0)
    modifies t`readyHead, t`readyTail, t`queue, t`running, t.pcbPool, t.idleProc
    ensures Ready(t) && t.Abs() == Tick(old(t.Abs()), stackPointer)
  {
    TickInv(t.Abs(), stackPointer);
    hide Inv, MidTick, SleepsOn;
    WakeSleepers(t);
    Reschedule(t, stackPointer);
  }

  // ----- System calls -----

  method Sleep(t: ProcTable, seconds: int, stackPointer: int)
    requires Ready(t) && Enabled(t.Abs(), DoSleep(seconds, stackPointer))
    modifies t`readyHead, t`readyTail, t`queue, t`running, t.pcbPool, t.idleProc
    ensures Ready(t) && t.Abs() == SchedulerModel.Sleep(old(t.Abs()), seconds, stackPointer)
  {
    hide Chain, Distinct, QueueExact, SegmentsOwned, StatesFit;
    ghost var k := t.Abs();
    InvMid(k);
    FallAsleepMid(k, seconds);
    RunningOutside(t);
    hide MidTick, Inv;
    var x := Int16(seconds * TICKS_PER_SECOND);
    t.SetState(t.running, SLEEPING);
    t.SetSleepCounter(t.running, x);
    assert t.Abs().procs == FallAsleep(k, seconds).procs;
    HandleTimerInterruptSleeping(t, stackPointer);
  }

  /** Loading the program file into the segment is left to the caller; `found`
      says whether there is one. */
  method ExecuteProgram(t: ProcTable, found: bool, name: string) returns (code: int)
    requires Ready(t) && Enabled(t.Abs(), DoExec(found, name))
    modifies t`readyHead, t`readyTail, t`queue, t.pcbPool, t.memoryMap
    ensures Ready(t) && (t.Abs(), code) == Exec(old(t.Abs()), found, name)
    ensures old(Tight(t)) ==> Tight(t)
  {
    hide Chain, Distinct, FirstFree, FirstDefunct, Tight, QueueExact, SegmentsOwned, StatesFit;
    ghost var k := t.Abs();
    ExecInv(k, found, name);
    InShape(t);
    DefunctOutside(k);
    hide Inv;
    if !found {
      return -1;
    }
    var segment := t.GetFreeMemorySegment();
    if segment == -1 {
      return -2;
    }
    segment := 0x1000 * (segment + 2);
    code := Admit(t, name, segment);
  }

  /** The block of slot i filled in for a new program. */
  function NewProc(k: Kernel, i: nat, name: string, segment: int): Proc
    requires i < |k.procs|
  {
    Proc(Stored(name), STARTING, segment, 0xFF00, k.procs[i].sleepCounter)
  }

  /** Finds a free block for a program loaded at `segment`. */
  method Admit(t: ProcTable, name: string, segment: int) returns (code: int)
    requires t.Valid()
    requires forall i :: 0 <= i < SLOTS && t.Abs().procs[i].state == DEFUNCT ==> i !in t.queue && i != t.running.slot
    modifies t`readyHead, t`readyTail, t`queue, t.pcbPool
    ensures t.Valid() && t.running == old(t.running) && (old(Tight(t)) ==> Tight(t))
    ensures var k := old(t.Abs());
            var i := FirstDefunct(k.procs, 0);
            if i == SLOTS then code == -2 && t.Abs() == k
            else
              && code == 1
              && t.Abs() == k.(procs := k.procs[i := NewProc(k, i, name, segment)],
                               queue := k.queue + [i])
  {
    hide Chain, Distinct, FirstDefunct, Snug;
    ghost var k := t.Abs();
    ghost var tight := Tight(t);
    t.QueueInRange();
    var process := t.GetFreePCB();
    if process == null {
      return -2;
    }
    ghost var i := process.slot;
    assert t.Procs() == k.procs[i := k.procs[i].(state := STARTING)];
    assert tight ==> Tight(t);
    code := Start(t, process, name, segment);
    assert t.Procs() == k.procs[i := Proc(Stored(name), STARTING, segment, 0xFF00, k.procs[i].sleepCounter)];
  }

  lemma DefunctOutside(k: Kernel)
    requires Inv(k) && RunningProc(k).state != DEFUNCT
    ensures forall i :: 0 <= i < SLOTS && k.procs[i].state == DEFUNCT ==> i !in k.queue && i != k.running
  {
  }

  /** Fills in the block of a new process and queues it. */
  method Start(t: ProcTable, process: PCB, name: string, segment: int) returns (code: int)
    requires t.Valid() && process in t.pcbPool && process.slot !in t.queue && t.running.slot != process.slot
    requires t.running.slot < SLOTS ==> t.Procs()[t.running.slot].state != DEFUNCT
    modifies t`readyHead, t`readyTail, t`queue, t.pcbPool
    ensures t.Valid() && t.running == old(t.running) && code == 1
    ensures old(Tight(t)) ==> Tight(t)
    ensures var k, i := old(t.Abs()), process.slot;
            t.Abs() == k.(procs := k.procs[i := NewProc(k, i, name, segment)],
                          queue := k.queue + [i])
  {
    hide Chain, Distinct, Snug;
    ghost var tight, queue, head, nexts := Tight(t), t.queue, t.readyHead, t.Nexts();
    t.QueueInRange();
    ChainEnds(t.pcbPool, queue, head, t.readyTail, nexts, t.Prevs());
    if tight {
      SnugAppend(t, queue, head, nexts, t.running.slot, process);
    }
    t.SetProgram(process, name, segment);
    t.AddToReady(process);
    ChainEnds(t.pcbPool, t.queue, t.readyHead, t.readyTail, t.Nexts(), t.Prevs());
    assert process == t.pcbPool[process.slot];
    return 1;
  }

  /** Project 5.  After this the process spins until the timer interrupt. */
  method Terminate(t: ProcTable)
    requires Ready(t) && Tight(t) && Enabled(t.Abs(), DoTerminate)
    modifies t`readyHead, t`readyTail, t`queue, t.pcbPool, t.memoryMap
    ensures Ready(t) && Tight(t) && t.Abs() == SchedulerModel.Terminate(old(t.Abs()))
  {
    hide Chain, Distinct, Snug, QueueExact, SegmentsOwned, StatesFit;
    ghost var k, queue, head, nexts, c := t.Abs(), t.queue, t.readyHead, t.Nexts(), t.running.slot;
    InvMid(k);
    TerminateInv(k);
    RunningOutside(t);
    t.QueueInRange();
    ChainEnds(t.pcbPool, t.queue, t.readyHead, t.readyTail, t.Nexts(), t.Prevs());
    RunningSegment(k);
    SnugRelease(queue, head, nexts, c);
    hide Inv, MidTick, QueueExact, SegmentsOwned, StatesFit;
    t.ReleaseMemorySegment(t.running.segment / 0x1000 - 2);
    ghost var j := t.ReleasePCB(t.running);
    ChainEnds(t.pcbPool, t.queue, t.readyHead, t.readyTail, t.Nexts(), t.Prevs());
  }

  lemma RunningSegment(k: Kernel)
    requires Inv(k) && k.running < SLOTS && k.procs[k.running].state == RUNNING
    ensures 0 <= k.procs[k.running].segment / 0x1000 - 2 < SLOTS
  {
    var s := SegmentOf(k, k.running);
    assert SegmentAddress(s) / 0x1000 - 2 == s;
  }

  lemma SnugRelease(queue: seq<nat>, head: PCB?, nexts: seq<PCB?>, c: nat)
    requires |nexts| == SLOTS && forall i :: 0 <= i < |queue| ==> queue[i] < SLOTS
    requires Snug(queue, head, nexts, c) && c < SLOTS && c !in queue
    ensures Snug(queue, head, nexts[c := null], c)
    ensures nexts[c] == null || nexts[c] == head
  {
  }

  // ----- Runs -----

  /** Any run of project 5's kernel. */
  method Session(t: ProcTable, ops: seq<Op>)
    requires Ready(t) && Tight(t) && AllEnabled(t.Abs(), ops)
    requires forall i :: 0 <= i < |ops| ==> !ops[i].DoSleep?
    requires forall i :: 0 <= i < SLOTS ==> t.Abs().procs[i].state != SLEEPING
    modifies t`readyHead, t`readyTail, t`queue, t`running, t.pcbPool, t.idleProc, t.memoryMap
    ensures Ready(t) && Tight(t) && t.Abs() == Run(old(t.Abs()), ops)
  {
    hide Tight, Exec, SchedulerModel.Terminate, Tick, Switch, SegmentsOwned, QueueExact, StatesFit, MidTick, Chain;
    ghost var k := t.Abs();
    var n := 0;
    while n < |ops|
      invariant 0 <= n <= |ops|
      invariant Ready(t) && Tight(t) && NoSleepers(t.Abs())
      invariant AllEnabled(t.Abs(), ops[n..]) && Run(t.Abs(), ops[n..]) == Run(k, ops)
    {
      assert ops[n..][0] == ops[n] && ops[n..][1..] == ops[n + 1..];
      StepInv(t.Abs(), ops[n]);
      InvMid(t.Abs());
      MidShaped(t.Abs());
      NoSleepersStep(t.Abs(), ops[n]);
      match ops[n] {
        case DoExec(found, name) => var code := ExecuteProgram(t, found, name);
        case DoTerminate => Terminate(t);
        case DoTick(sp) => HandleTimerInterrupt(t, sp);
      }
      n := n + 1;
    }
  }

  ghost predicate NoSleepers(k: Kernel)
  {
    k.Shaped() && forall i :: 0 <= i < SLOTS ==> k.procs[i].state != SLEEPING
  }

  lemma NobodyWakes(k: Kernel, i: nat)
    requires NoSleepers(k) && i <= SLOTS
    ensures WakeFrom(k, i) == k
    decreases SLOTS - i
  {
  }

  /** Without sleepers the two timer interrupts are the same. */
  lemma NoSleepersStep(k: Kernel, op: Op)
    requires NoSleepers(k) && IdleNamed(k) && Enabled(k, op) && !op.DoSleep?
    ensures NoSleepers(Step(k, op))
    ensures op.DoTick? ==> Step(k, op) == Switch(k, op.stackPointer)
  {
    match op
    case DoExec(found, name) =>
    case DoTerminate =>
    case DoTick(sp) =>
      NobodyWakes(k, 0);
      assert NoSleepers(Requeue(k, sp));
  }

  /** Any run of project 6's kernel. */
  method SleepySession(t: ProcTable, ops: seq<Op>)
    requires Ready(t) && AllEnabled(t.Abs(), ops)
    requires forall i :: 0 <= i < |ops| ==> !ops[i].DoTerminate?
    modifies t`readyHead, t`readyTail, t`queue, t`running, t.pcbPool, t.idleProc, t.memoryMap
    ensures Ready(t) && t.Abs() == Run(old(t.Abs()), ops)
  {
    hide Tight, Exec, Tick, SchedulerModel.Sleep, SegmentsOwned, QueueExact, StatesFit, Chain;
    ghost var k := t.Abs();
    var n := 0;
    while n < |ops|
      invariant 0 <= n <= |ops|
      invariant Ready(t)
      invariant AllEnabled(t.Abs(), ops[n..]) && Run(t.Abs(), ops[n..]) == Run(k, ops)
    {
      assert ops[n..][0] == ops[n] && ops[n..][1..] == ops[n + 1..];
      StepInv(t.Abs(), ops[n]);
      match ops[n] {
        case DoExec(found, name) => var code := ExecuteProgram(t, found, name);
        case DoTick(sp) =>
          InvMid(t.Abs());
          HandleTimerInterruptSleeping(t, sp);
        case DoSleep(seconds, sp) => Sleep(t, seconds, sp);
      }
      n := n + 1;
    }
  }
}
