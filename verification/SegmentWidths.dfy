/** Segments and the compiler's 16-bit int: which processes can give theirs back. */
module SegmentWidths {
  import opened SchedulerModel
  import opened SchedulerProperties

  /** Division as C does it, towards zero. */
  function Quotient(a: int, b: int): int
    requires b > 0
  {
    if a < 0 then -((-a) / b) else a / b
  }

  /** The index terminate computes from the segment of a process, in 16 bits. */
  function Released(segment: int): int {
    Quotient(Int16(segment), 0x1000) - 2
  }

  /** Terminating in 16 bits: an index outside the map frees nothing in it. */
  function Terminate16(k: Kernel): Kernel
    requires k.Shaped() && k.running < SLOTS
  {
    var p := k.procs[k.running];
    var s := Released(p.segment);
    k.(memory := if 0 <= s < SLOTS then k.memory[s := false] else k.memory,
       procs := k.procs[k.running := p.(state := DEFUNCT, name := "")])
  }

  /** The index is the segment's exactly below segment 6; from there on it is negative. */
  lemma ReleasedIff(s: nat)
    requires s < SLOTS
    ensures Released(SegmentAddress(s)) == if s <= 5 then s else s - 16
  {
  }

  /** Terminating keeps the invariant exactly when the process owns one of the
      first six segments; the other two are never given back. */
  lemma {:induction false} TerminateKeepsInvIff(k: Kernel)
    requires Inv(k) && k.running < SLOTS && k.procs[k.running].state == RUNNING
    ensures Inv(Terminate16(k)) <==> SegmentOf(k, k.running) <= 5
    ensures SegmentOf(k, k.running) <= 5 ==> Terminate16(k) == Terminate(k)
    ensures SegmentOf(k, k.running) > 5 ==> Terminate16(k).memory == k.memory
  {
    hide QueueExact, StatesFit;
    var i, s := k.running, SegmentOf(k, k.running);
    ReleasedIff(s);
    TerminateInv(k);
    var r := Terminate16(k);
    if s <= 5 {
      assert SegmentAddress(s) / 0x1000 - 2 == s;
    } else {
      forall j, t | Owns(r.procs, j, t)
        ensures j != i && Owns(k.procs, j, t)
      {
      }
      assert r.memory[s] && !SegmentsOwned(r);
    }
  }

  // ----- The seventh process -----

  function Execs(n: nat): seq<Op> {
    seq(n, _ => DoExec(true, "p"))
  }

  function Ticks(n: nat): seq<Op> {
    seq(n, _ => DoTick(0))
  }

  /** The kernel after n programs were started from boot. */
  function Started(n: nat): Kernel
    requires n <= SLOTS
  {
    BOOTED.(procs := seq(SLOTS, i => if i < n then Proc("p", STARTING, SegmentAddress(i), 0xFF00, 0)
                                     else Proc("", DEFUNCT, 0, 0, 0)),
            queue := seq(n, i => i),
            memory := seq(SLOTS, i => i < n))
  }

  lemma StartsOneMore(n: nat)
    requires n < SLOTS && Inv(Started(n))
    ensures Enabled(Started(n), DoExec(true, "p")) && Step(Started(n), DoExec(true, "p")) == Started(n + 1)
    ensures Inv(Started(n + 1))
  {
    hide Inv;
    var k := Started(n);
    assert Stored("p") == "p" && "p" != IDLE_NAME;
    var f, d := FirstFree(k.memory, 0), FirstDefunct(k.procs, 0);
    assert !k.memory[n] && k.procs[n].state == DEFUNCT;
    assert f < SLOTS ==> k.memory[f] == (f < n);
    assert d < SLOTS ==> (k.procs[d].state == DEFUNCT) == (d >= n);
    assert f == n && d == n;
    assert Exec(k, true, "p").0.procs == Started(n + 1).procs;
    StepInv(k, DoExec(true, "p"));
  }

  lemma {:induction false} ExecsStart(n: nat, m: nat)
    requires n + m <= SLOTS && Inv(Started(n))
    ensures AllEnabled(Started(n), Execs(m)) && Run(Started(n), Execs(m)) == Started(n + m)
    decreases m
  {
    hide Inv, Started, Step, Enabled;
    if m > 0 {
      StartsOneMore(n);
      assert Execs(m)[1..] == Execs(m - 1);
      ExecsStart(n + 1, m - 1);
    }
  }

  /** What a tick leaves of every process. */
  predicate SameSegments(k: Kernel, r: Kernel) {
    && |k.procs| == |r.procs| == SLOTS
    && forall i :: 0 <= i < SLOTS ==>
         r.procs[i].segment == k.procs[i].segment && (r.procs[i].state == DEFUNCT <==> k.procs[i].state == DEFUNCT)
  }

  lemma WakeSameSegments(k: Kernel)
    requires k.Shaped()
    ensures SameSegments(k, WakeFrom(k, 0))
  {
    hide WakeFrom;
    forall i | 0 <= i < SLOTS
      ensures WakeFrom(k, 0).procs[i].segment == k.procs[i].segment
      ensures WakeFrom(k, 0).procs[i].state == DEFUNCT <==> k.procs[i].state == DEFUNCT
    {
      WakeOthers(k, 0, i);
    }
  }

  lemma SwitchSameSegments(k: Kernel, stackPointer: int)
    requires MidTick(k)
    ensures SameSegments(k, Switch(k, stackPointer))
  {
    hide SegmentsOwned;
    RequeueMid(k, stackPointer);
    var r := Requeue(k, stackPointer);
    if r.queue != [] {
      HeadWaits(r.(running := IDLE));
    }
  }

  lemma TickSameSegments(k: Kernel, stackPointer: int)
    requires Inv(k)
    ensures IdleNamed(k) && SameSegments(k, Tick(k, stackPointer))
  {
    InvNames(k);
    WakeMid(k, 0);
    hide Inv, MidTick, WakeFrom, Switch;
    WakeKeepsIdle(k, 0);
    WakeSameSegments(k);
    SwitchSameSegments(WakeFrom(k, 0), stackPointer);
  }

  lemma InvNames(k: Kernel)
    requires Inv(k)
    ensures IdleNamed(k)
  {
  }

  lemma {:induction false} TicksRun(k: Kernel, n: nat)
    requires Inv(k)
    ensures AllEnabled(k, Ticks(n)) && TickCount(Ticks(n)) == n && SameSegments(k, Run(k, Ticks(n)))
    decreases n
  {
    hide Inv, Tick;
    InvNames(k);
    if n > 0 {
      assert Ticks(n)[1..] == Ticks(n - 1);
      StepInv(k, DoTick(0));
      TickSameSegments(k, 0);
      TicksRun(Step(k, DoTick(0)), n - 1);
    }
  }

  lemma {:induction false} RunAppend(k: Kernel, a: seq<Op>, b: seq<Op>)
    requires Inv(k) && AllEnabled(k, a) && AllEnabled(Run(k, a), b)
    ensures AllEnabled(k, a + b) && Run(k, a + b) == Run(Run(k, a), b)
    decreases |a|
  {
    hide Step, QueueExact, SegmentsOwned;
    if a == [] {
      assert a + b == b;
    } else {
      assert (a + b)[1..] == a[1..] + b;
      StepInv(k, a[0]);
      RunAppend(Step(k, a[0]), a[1..], b);
    }
  }

  /** From boot, seven programs and seven ticks: the seventh program runs, and
      terminating would lose its segment. */
  lemma {:induction false} SeventhProcessLeaks()
    ensures var ops := Execs(7) + Ticks(7);
            && Inv(BOOTED) && AllEnabled(BOOTED, ops)
            && var k := Run(BOOTED, ops);
               && k.running == 6 && k.procs[6].state == RUNNING && SegmentOf(k, 6) == 6
               && !Inv(Terminate16(k))
  {
    hide Step, Enabled, AllEnabled, Run, QueueExact, StatesFit, SegmentsOwned, Terminate16;
    BootInv();
    BootStarted();
    ExecsStart(0, 7);
    var k := Started(7);
    TicksRun(k, 6);
    TicksRun(k, 7);
    SeventhRuns(k);
    RunAppend(BOOTED, Execs(7), Ticks(7));
    var r := Run(k, Ticks(7));
    SeventhOwns(r);
    TerminateKeepsInvIff(r);
  }

  lemma BootStarted()
    ensures Started(0) == BOOTED
  {
    assert Started(0).procs == BOOTED.procs && Started(0).queue == BOOTED.queue && Started(0).memory == BOOTED.memory;
  }

  lemma SeventhRuns(k: Kernel)
    requires Inv(k) && k == Started(7)
    requires AllEnabled(k, Ticks(6)) && AllEnabled(k, Ticks(7)) && TickCount(Ticks(6)) == 6
    ensures Run(k, Ticks(7)).running == 6
  {
    hide Step, Inv, Tick;
    var one := [DoTick(0)];
    assert Ticks(7) == Ticks(6) + one && Ticks(6)[..] == Ticks(6);
    var m := Run(k, Ticks(6));
    InvNames(m);
    StepInv(m, DoTick(0));
    BoundedWaiting(k, Ticks(6), DoTick(0), 6);
    assert one[1..] == [];
    RunAppend(k, Ticks(6), one);
  }

  lemma SeventhOwns(r: Kernel)
    requires Inv(r) && SameSegments(Started(7), r) && r.running == 6
    ensures Owns(r.procs, 6, 6) && r.procs[6].state == RUNNING && SegmentOf(r, 6) == 6
  {
    hide QueueExact;
    assert Started(7).procs[6] == Proc("p", STARTING, SegmentAddress(6), 0xFF00, 0);
  }
}
