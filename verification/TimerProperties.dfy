/** What the clock promises a device: periodic timers keep their beat and
    one-shot timers fire once, whatever else goes on and however the ticks are
    batched. */
module TimerProperties {
  import opened TimerReference

  /** When slot `i` has fired, in order. */
  function SlotTimes(trace: seq<Firing>, i: nat): seq<nat> {
    if trace == [] then []
    else
      var last := trace[|trace| - 1];
      SlotTimes(trace[..|trace| - 1], i) + if last.slot == i then [last.time] else []
  }

  ghost predicate Spares(h: Handlers, i: nat) {
    forall trace: seq<Firing>, k :: 0 <= k < |h(trace)| ==> h(trace)[k].slot != i
  }

  /** The operation neither commands nor unregisters slot `i`. */
  ghost predicate OpSpares(op: Op, i: nat) {
    match op
    case TickOne(h) => Spares(h, i)
    case TickMany(n, h) => Spares(h, i)
    case Issue(cmd) => cmd.slot != i
    case Enrol(_, _, _) => true
    case Dismiss(slot) => slot != i
  }

  // ----- One tick, seen from one slot -----

  lemma {:induction false} ExecAllSpares(c: Clock, cmds: seq<Command>, i: nat)
    requires i < |c.timers| && forall k :: 0 <= k < |cmds| ==> cmds[k].slot != i
    ensures |ExecAll(c, cmds).timers| == |c.timers|
    ensures ExecAll(c, cmds).timers[i] == c.timers[i]
    decreases |cmds|
  {
    if cmds != [] {
      ExecAllSpares(Exec(c, cmds[0]), cmds[1..], i);
    }
  }

  lemma {:induction false} FireFromSlot(c: Clock, due: seq<bool>, j: nat, h: Handlers, i: nat)
    requires j <= |due| && i < |c.timers| && i < |due| && Spares(h, i)
    ensures var d := FireFrom(c, due, j, h);
            && |d.timers| == |c.timers| && d.timers[i] == c.timers[i]
            && SlotTimes(d.trace, i) == SlotTimes(c.trace, i) + if j <= i && due[i] then [c.now] else []
    decreases |due| - j
  {
    if j < |due| {
      if due[j] {
        var trace := c.trace + [Firing(c.now, j)];
        assert trace[..|trace| - 1] == c.trace;
        ExecAllKeepsSlots(c.(trace := trace), h(trace));
        ExecAllSpares(c.(trace := trace), h(trace), i);
        FireFromSlot(Fire(c, j, h), due, j + 1, h, i);
      } else {
        FireFromSlot(c, due, j + 1, h, i);
      }
    }
  }

  lemma TickSlot(c: Clock, h: Handlers, i: nat)
    requires i < |c.timers| && Spares(h, i)
    ensures var d := Tick(c, h);
            && d.now == c.now + 1 && |d.timers| == |c.timers|
            && d.timers[i] == Rearm(c.timers[i], d.now)
            && SlotTimes(d.trace, i) ==
                 SlotTimes(c.trace, i) + if Due(c.timers[i], d.now) then [d.now] else []
  {
    TickKeepsSlots(c, h);
    var n := c.(now := c.now + 1);
    FireFromSlot(n.(timers := RearmAll(c.timers, n.now)), DueFlags(c.timers, n.now), 0, h, i);
  }

  // ----- Invariants of a run, seen from one slot -----

  /** T + p, T + 2p, ..., T + kp. */
  function Beats(T: nat, p: nat, k: nat): seq<nat> {
    if k == 0 then [] else Beats(T, p, k - 1) + [T + p * k]
  }

  /** Slot `i` was armed at T with period p when it had fired at `before`, and
      has fired at each of the k beats passed since. */
  predicate OnBeat(c: Clock, i: nat, T: nat, p: nat, k: nat, before: seq<nat>) {
    && i < |c.timers|
    && c.timers[i] == Timer(true, p, T + p * (k + 1), true, true)
    && T + p * k <= c.now < T + p * (k + 1)
    && SlotTimes(c.trace, i) == before + Beats(T, p, k)
  }

  /** The same for a timer armed once, for time D. */
  predicate OneShot(c: Clock, i: nat, p: nat, D: nat, before: seq<nat>) {
    && i < |c.timers|
    && c.timers[i] == Timer(true, p, D, c.now < D, false)
    && SlotTimes(c.trace, i) == before + if c.now < D then [] else [D]
  }

  ghost predicate Keeps(c: Clock, i: nat, T: nat, p: nat, before: seq<nat>) {
    exists k: nat :: OnBeat(c, i, T, p, k, before)
  }

  lemma TickOnBeat(c: Clock, h: Handlers, i: nat, T: nat, p: nat, before: seq<nat>)
    requires p > 0 && Keeps(c, i, T, p, before) && Spares(h, i)
    ensures Keeps(Tick(c, h), i, T, p, before)
  {
    var k: nat :| OnBeat(c, i, T, p, k, before);
    TickSlot(c, h, i);
    var d := Tick(c, h);
    if d.now < T + p * (k + 1) {
      assert OnBeat(d, i, T, p, k, before);
    } else {
      assert p * (k + 1) + p == p * (k + 2);
      assert before + Beats(T, p, k + 1) == before + Beats(T, p, k) + [d.now];
      assert OnBeat(d, i, T, p, k + 1, before);
    }
  }

  lemma {:induction false} TicksOnBeat(c: Clock, n: nat, h: Handlers, i: nat, T: nat, p: nat, before: seq<nat>)
    requires p > 0 && Keeps(c, i, T, p, before) && Spares(h, i)
    ensures Keeps(Ticks(c, n, h), i, T, p, before)
    decreases n
  {
    if n > 0 {
      TickOnBeat(c, h, i, T, p, before);
      TicksOnBeat(Tick(c, h), n - 1, h, i, T, p, before);
    }
  }

  lemma StepOnBeat(c: Clock, op: Op, i: nat, T: nat, p: nat, before: seq<nat>)
    requires |c.timers| >= 1 && p > 0 && Keeps(c, i, T, p, before) && OpSpares(op, i)
    ensures Keeps(Step(c, op), i, T, p, before)
  {
    match op
    case TickOne(h) => TickOnBeat(c, h, i, T, p, before);
    case TickMany(n, h) => TicksOnBeat(c, n, h, i, T, p, before);
    case _ =>
      var k: nat :| OnBeat(c, i, T, p, k, before);
      assert OnBeat(Step(c, op), i, T, p, k, before);
  }

  lemma {:induction false} RunOnBeat(c: Clock, ops: seq<Op>, i: nat, T: nat, p: nat, before: seq<nat>)
    requires |c.timers| >= 1 && p > 0 && Keeps(c, i, T, p, before)
    requires forall k :: 0 <= k < |ops| ==> OpSpares(ops[k], i)
    ensures Keeps(Run(c, ops), i, T, p, before)
    decreases |ops|
  {
    if ops != [] {
      StepKeepsSlots(c, ops[0]);
      StepOnBeat(c, ops[0], i, T, p, before);
      RunOnBeat(Step(c, ops[0]), ops[1..], i, T, p, before);
    }
  }

  lemma {:induction false} TicksOneShot(c: Clock, n: nat, h: Handlers, i: nat, p: nat, D: nat, before: seq<nat>)
    requires OneShot(c, i, p, D, before) && Spares(h, i)
    ensures OneShot(Ticks(c, n, h), i, p, D, before)
    decreases n
  {
    if n > 0 {
      TickSlot(c, h, i);
      TicksOneShot(Tick(c, h), n - 1, h, i, p, D, before);
    }
  }

  lemma {:induction false} RunOneShot(c: Clock, ops: seq<Op>, i: nat, p: nat, D: nat, before: seq<nat>)
    requires |c.timers| >= 1 && OneShot(c, i, p, D, before)
    requires forall k :: 0 <= k < |ops| ==> OpSpares(ops[k], i)
    ensures OneShot(Run(c, ops), i, p, D, before)
    decreases |ops|
  {
    if ops != [] {
      StepKeepsSlots(c, ops[0]);
      match ops[0] {
        case TickOne(h) => TickSlot(c, h, i);
        case TickMany(n, h) => TicksOneShot(c, n, h, i, p, D, before);
        case _ =>
      }
      RunOneShot(Step(c, ops[0]), ops[1..], i, p, D, before);
    }
  }

  // ----- Main results -----

  lemma TimesMonotone(p: nat, a: nat, b: nat)
    requires a <= b
    ensures p * a <= p * b
  {
    assert p * b == p * a + p * (b - a);
  }

  lemma {:induction false} BeatCount(elapsed: nat, p: nat, k: nat)
    requires p > 0 && p * k <= elapsed < p * (k + 1)
    ensures elapsed / p == k
  {
    var q := elapsed / p;
    assert p * q <= elapsed < p * q + p == p * (q + 1);
    if q < k {
      TimesMonotone(p, q + 1, k);
    } else if k < q {
      TimesMonotone(p, k + 1, q);
    }
  }

  lemma {:induction false} BeatsSoFar(c: Clock, i: nat, T: nat, p: nat, before: seq<nat>)
    requires p > 0 && Keeps(c, i, T, p, before)
    ensures c.now >= T && SlotTimes(c.trace, i) == before + Beats(T, p, (c.now - T) / p)
  {
    var k: nat :| OnBeat(c, i, T, p, k, before);
    BeatCount(c.now - T, p, k);
  }

  lemma {:induction false} JustArmed(c: Clock, i: nat, T: nat, p: nat)
    requires p > 0 && i < |c.timers| && c.timers[i] == Timer(true, p, T + p, true, true) && c.now == T
    ensures Keeps(c, i, T, p, SlotTimes(c.trace, i))
  {
    var before := SlotTimes(c.trace, i);
    assert before + Beats(T, p, 0) == before;
    assert OnBeat(c, i, T, p, 0, before);
  }

  lemma {:induction false} ArmedTimerKeepsItsBeat(c: Clock, i: nat, p: nat, ops: seq<Op>)
    requires p > 0 && i < |c.timers| && c.timers[i] == Timer(true, p, c.now + p, true, true)
    requires forall k :: 0 <= k < |ops| ==> OpSpares(ops[k], i)
    ensures var d := Run(c, ops);
            && d.now >= c.now
            && SlotTimes(d.trace, i) == SlotTimes(c.trace, i) + Beats(c.now, p, (d.now - c.now) / p)
  {
    hide Run;
    JustArmed(c, i, c.now, p);
    RunOnBeat(c, ops, i, c.now, p, SlotTimes(c.trace, i));
    BeatsSoFar(Run(c, ops), i, c.now, p, SlotTimes(c.trace, i));
  }

  /** A continuous timer armed now and then left alone fires exactly
      floor(elapsed / period) times, at the multiples of its period. */
  lemma {:induction false} ContinuousTimerKeepsItsBeat(c: Clock, i: nat, ticks: nat, ops: seq<Op>)
    requires Commandable(c.timers, i)
    requires forall k :: 0 <= k < |ops| ==> OpSpares(ops[k], i)
    ensures var d := Run(Exec(c, Activate(i, ticks, true)), ops);
            && d.now >= c.now
            && SlotTimes(d.trace, i) ==
                 SlotTimes(c.trace, i) + Beats(c.now, Clamp(ticks), (d.now - c.now) / Clamp(ticks))
  {
    hide Run, Beats;
    ArmedTimerKeepsItsBeat(Exec(c, Activate(i, ticks, true)), i, Clamp(ticks), ops);
  }

  /** The null timer beats from power-on, whatever is registered later. */
  lemma {:induction false} NullTimerKeepsItsBeat(c: Clock, p: nat, ops: seq<Op>)
    requires p > 0 && c == Clock([Timer(true, p, p, true, true)], 0, [])
    requires forall k :: 0 <= k < |ops| ==> OpSpares(ops[k], 0)
    ensures SlotTimes(Run(c, ops).trace, 0) == Beats(0, p, Run(c, ops).now / p)
  {
    hide Run, Beats;
    ArmedTimerKeepsItsBeat(c, 0, p, ops);
    assert SlotTimes(c.trace, 0) == [];
  }

  /** A one-shot timer armed now and then left alone fires exactly once, when
      its time comes. */
  lemma {:induction false} OneShotTimerFiresOnce(c: Clock, i: nat, ticks: nat, ops: seq<Op>)
    requires Commandable(c.timers, i)
    requires forall k :: 0 <= k < |ops| ==> OpSpares(ops[k], i)
    ensures var d, deadline := Run(Exec(c, Activate(i, ticks, false)), ops), c.now + Clamp(ticks);
            SlotTimes(d.trace, i) == SlotTimes(c.trace, i) + if d.now < deadline then [] else [deadline]
  {
    hide Run;
    RunOneShot(Exec(c, Activate(i, ticks, false)), ops, i, Clamp(ticks), c.now + Clamp(ticks), SlotTimes(c.trace, i));
  }

  function Batches(sizes: seq<nat>, h: Handlers): seq<Op> {
    seq(|sizes|, i requires 0 <= i < |sizes| => TickMany(sizes[i], h))
  }

  function Sum(sizes: seq<nat>): nat {
    if sizes == [] then 0 else sizes[0] + Sum(sizes[1..])
  }

  lemma {:induction false} SingleTicks(c: Clock, n: nat, h: Handlers)
    requires |c.timers| >= 1
    ensures Run(c, seq(n, _ => TickOne(h))) == Ticks(c, n, h)
    decreases n
  {
    if n > 0 {
      StepKeepsSlots(c, TickOne(h));
      assert seq(n, _ => TickOne(h))[1..] == seq(n - 1, _ => TickOne(h));
      SingleTicks(Tick(c, h), n - 1, h);
    }
  }

  /** Any way of cutting n ticks into batches gives the same firings, timers and
      time as n single ticks. */
  lemma {:induction false} BatchingIsInvisible(c: Clock, sizes: seq<nat>, h: Handlers)
    requires |c.timers| >= 1
    ensures Run(c, Batches(sizes, h)) == Run(c, seq(Sum(sizes), _ => TickOne(h)))
    decreases |sizes|
  {
    SingleTicks(c, Sum(sizes), h);
    if sizes != [] {
      TicksSplit(c, sizes[0], Sum(sizes[1..]), h);
      StepKeepsSlots(c, TickMany(sizes[0], h));
      assert Batches(sizes, h)[1..] == Batches(sizes[1..], h);
      BatchingIsInvisible(Ticks(c, sizes[0], h), sizes[1..], h);
      SingleTicks(Ticks(c, sizes[0], h), Sum(sizes[1..]), h);
    }
  }
}
