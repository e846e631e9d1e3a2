/** Why runs do not mix sleep and terminate: a process that wakes into an empty
    queue keeps an old next pointer, and terminating it follows that pointer. */
module StaleLinks {
  import opened SchedulerModel
  import opened SchedulerProperties
  import opened ProcTables
  import opened KernelCalls
  import opened SegmentWidths

  /** Two processes in being, the first running and the second asleep. */
  function Woken(counter: int): Kernel {
    Started(2).(procs := Started(2).procs
                  [0 := Proc("p", RUNNING, SegmentAddress(0), 0xFF00, 0)]
                  [1 := Proc("p", SLEEPING, SegmentAddress(1), 0xFF00, counter)],
                queue := [], running := 0)
  }

  function Dozing(p: Proc, counter: int): Proc {
    p.(state := SLEEPING, sleepCounter := counter)
  }

  method StartTwo(t: ProcTable)
    requires Ready(t) && Tight(t) && t.Abs() == BOOTED
    modifies t`readyHead, t`readyTail, t`queue, t.pcbPool, t.memoryMap
    ensures t.Valid() && t.Abs() == Started(2) && t.Nexts()[0] == t.pcbPool[1]
  {
    hide Chain, Inv, Distinct, Exec, Tight, Started, Enabled;
    BootInv();
    BootStarted();
    StartsOneMore(0);
    StartsOneMore(1);
    var code := ExecuteProgram(t, true, "p");
    code := ExecuteProgram(t, true, "p");
    TwoLinked(t);
  }

  lemma TwoLinked(t: ProcTable)
    requires t.Valid() && t.Abs() == Started(2)
    ensures t.Nexts()[0] == t.pcbPool[1]
  {
    assert t.queue == [0, 1];
    PrevOf(t.pcbPool, t.queue, t.readyHead, t.readyTail, t.Nexts(), t.Prevs(), 0);
  }

  /** The running process falls asleep, and the next one is dispatched. */
  method FallAsleepNow(t: ProcTable, counter: int)
    requires t.Valid() && t.running.slot < SLOTS && t.running in t.pcbPool
    modifies t`readyHead, t`readyTail, t`queue, t`running, t.pcbPool
    ensures var k, c := old(t.Abs()), old(t.running.slot);
            t.Valid() && t.Abs() == Dispatch(k.(procs := k.procs[c := Dozing(k.procs[c], counter)]))
    ensures t.Nexts() == if |old(t.queue)| == 2 then old(t.Nexts())[old(t.queue)[1] := null] else old(t.Nexts())
  {
    hide Chain, Distinct, Dispatch;
    ghost var k, c := t.Abs(), t.running.slot;
    t.SetState(t.running, SLEEPING);
    t.SetSleepCounter(t.running, counter);
    assert t.Procs() == k.procs[c := Dozing(k.procs[c], counter)];
    DispatchNext(t);
  }

  /** The steps from two started programs to the first awake again, as values. */
  lemma Steps(counter: int)
    ensures var k0 := Started(2);
            var k1 := Dispatch(k0);
            var k2 := Dispatch(k1.(procs := k1.procs[0 := Dozing(k1.procs[0], 0)]));
            var k3 := Dispatch(k2.(procs := k2.procs[1 := Dozing(k2.procs[1], counter)]));
            && k0.queue == [0, 1] && k1.queue == [1] && k1.running == 0
            && k2.Shaped() && k2.queue == [] && k2.running == 1
            && k3.Shaped() && k3.queue == [] && k3.running == IDLE
            && Dispatch(k3.(procs := k3.procs[0 := k3.procs[0].(state := READY)], queue := k3.queue + [0])) ==
                 Woken(counter)
  {
    assert Started(2).queue == [0, 1] && [0, 1][1..] == [1];
  }

  /** The kernel's queue operations while two programs are started, the first runs
      and sleeps, the second runs and sleeps for longer, and the first wakes when
      its count is down: its next pointer still leads to the second. */
  method WakeAlone(t: ProcTable, counter: int)
    requires Ready(t) && Tight(t) && t.Abs() == BOOTED
    modifies t`readyHead, t`readyTail, t`queue, t`running, t.pcbPool, t.idleProc, t.memoryMap
    ensures t.Valid() && t.Abs() == Woken(counter)
    ensures t.Nexts()[0] == t.pcbPool[1]
  {
    hide Chain, Distinct, Dispatch, Started, Woken, Tight, Inv;
    Steps(counter);
    StartTwo(t);
    DispatchNext(t);
    SleepAndWake(t, counter);
  }

  method SleepAndWake(t: ProcTable, counter: int)
    requires t.Valid() && t.Abs() == Dispatch(Started(2)) && t.Nexts()[0] == t.pcbPool[1]
    modifies t`readyHead, t`readyTail, t`queue, t`running, t.pcbPool
    ensures t.Valid() && t.Abs() == Woken(counter)
    ensures t.Nexts()[0] == t.pcbPool[1]
  {
    hide Chain, Distinct, Dispatch, Started, Woken, Dozing;
    Steps(counter);
    FallAsleepNow(t, 0);
    FallAsleepNow(t, counter);
    Enqueue(t, t.pcbPool[0]);
    DispatchNext(t);
  }

  /** That kernel satisfies every invariant of the runs with sleep. */
  lemma {:induction false} WokenInv(counter: int)
    ensures Inv(Woken(counter)) && Enabled(Woken(counter), DoTerminate)
  {
    hide SegmentsOwned;
    assert "p" != IDLE_NAME;
    WokenSegments(counter);
  }

  lemma WokenSegments(counter: int)
    ensures SegmentsOwned(Woken(counter))
  {
    var k := Woken(counter);
    assert Owns(k.procs, 0, 0) && Owns(k.procs, 1, 1);
    assert forall i, s :: Owns(k.procs, i, s) ==> i == s && i < 2;
  }

  /** No queue at all is represented by a head without a tail. */
  lemma HeadWithoutTail(pool: seq<PCB>, head: PCB, nexts: seq<PCB?>, prevs: seq<PCB?>)
    requires |pool| == |nexts| == |prevs| == SLOTS
    ensures forall queue :: !Chain(pool, queue, head, null, nexts, prevs)
  {
  }

  /** What releasing its block then does: a process that sleeps becomes the head of
      a queue without a tail. */
  method ReleaseAlone(t: ProcTable, counter: int)
    requires t.Valid() && t.Abs() == Woken(counter) && t.Nexts()[0] == t.pcbPool[1]
    modifies t`readyHead, t`readyTail, t.pcbPool
    ensures t.Laid() && t.readyHead == t.pcbPool[1] && t.readyTail == null
    ensures t.Procs()[1].state == SLEEPING
    ensures forall queue :: !Chain(t.pcbPool, queue, t.readyHead, t.readyTail, t.Nexts(), t.Prevs())
  {
    ghost var procs := t.Procs();
    var pcb := t.pcbPool[0];
    assert t.queue == [] && t.readyHead == null && t.readyTail == null;
    assert procs[1].state == SLEEPING && t.Prevs()[0] == null;
    hide Chain, Woken;
    t.Retire(pcb);
    assert pcb.next == t.Nexts()[0] && pcb.prev == t.Prevs()[0];
    t.Unlink(pcb);
    t.ClearLinks(pcb);
    HeadWithoutTail(t.pcbPool, t.pcbPool[1], t.Nexts(), t.Prevs());
  }
}
