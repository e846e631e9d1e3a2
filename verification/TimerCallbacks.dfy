/** What callbacks do: their commands take effect inside the event, in the order
    in which the timers fire. */
module TimerCallbacks {
  import opened TimerReference
  import opened TimerProperties

  // ----- Which callbacks run in a tick -----

  /** The firings at time `now` of the slots below n, in slot order. */
  function Fired(timers: seq<Timer>, now: nat, n: nat): seq<Firing>
    requires n <= |timers|
  {
    if n == 0 then []
    else Fired(timers, now, n - 1)
         + if timers[n - 1].active && timers[n - 1].timeToFire == now then [Firing(now, n - 1)] else []
  }

  /** What the callback of slot i is given in the tick to come. */
  function Seen(c: Clock, i: nat): seq<Firing>
    requires i < |c.timers|
  {
    c.trace + Fired(c.timers, c.now + 1, i + 1)
  }

  predicate FiresNext(c: Clock, i: nat) {
    i < |c.timers| && c.timers[i].active && c.timers[i].timeToFire == c.now + 1
  }

  /** A run of the second loop of an event, from slot i on, as it was begun: `o` is
      the clock before the tick. */
  predicate Midway(o: Clock, c: Clock, i: nat) {
    && i <= |o.timers| && |c.timers| == |o.timers| && c.now == o.now + 1
    && c.trace == o.trace + Fired(o.timers, o.now + 1, i)
  }

  lemma MidwayNext(o: Clock, c: Clock, i: nat, h: Handlers)
    requires Midway(o, c, i) && i < |o.timers|
    ensures var d := if Due(o.timers[i], c.now) then Fire(c, i, h) else c;
            Midway(o, d, i + 1) && SameSlots(c.timers, d.timers)
    ensures Due(o.timers[i], c.now) ==> c.trace + [Firing(c.now, i)] == Seen(o, i)
    ensures Due(o.timers[i], c.now) <==> FiresNext(o, i)
  {
    var trace := c.trace + [Firing(c.now, i)];
    ExecAllKeepsSlots(c.(trace := trace), h(trace));
    if Due(o.timers[i], c.now) {
      assert trace == Seen(o, i);
    }
  }

  lemma {:induction false} FireFromTrace(o: Clock, c: Clock, i: nat, h: Handlers)
    requires Midway(o, c, i)
    ensures FireFrom(c, DueFlags(o.timers, c.now), i, h).trace == o.trace + Fired(o.timers, o.now + 1, |o.timers|)
    decreases |o.timers| - i
  {
    hide Fire, Midway, Due;
    var due := DueFlags(o.timers, c.now);
    assert c.now == o.now + 1 && i <= |o.timers| && c.trace == o.trace + Fired(o.timers, o.now + 1, i) by {
      MidwayMeans(o, c, i);
    }
    if i < |o.timers| {
      MidwayNext(o, c, i, h);
      var d := if due[i] then Fire(c, i, h) else c;
      MidwayMeans(o, d, i + 1);
      FireFromTrace(o, d, i + 1, h);
    }
  }

  lemma MidwayMeans(o: Clock, c: Clock, i: nat)
    requires Midway(o, c, i)
    ensures c.now == o.now + 1 && i <= |o.timers| == |c.timers| && c.trace == o.trace + Fired(o.timers, o.now + 1, i)
  {
  }

  lemma Begun(c: Clock)
    ensures var n := c.now + 1;
            Midway(c, Clock(RearmAll(c.timers, n), n, c.trace), 0)
  {
    assert c.trace + [] == c.trace;
  }

  /** A tick fires exactly the timers whose deadline it is, in slot order. */
  lemma {:induction false} TickFiresInOrder(c: Clock, h: Handlers)
    ensures Tick(c, h).trace == c.trace + Fired(c.timers, c.now + 1, |c.timers|)
  {
    hide FireFrom, Fired, RearmAll;
    Begun(c);
    FireFromTrace(c, Clock(RearmAll(c.timers, c.now + 1), c.now + 1, c.trace), 0, h);
  }

  // ----- The last command on a slot decides -----

  /** No command but the k-th and earlier ones is for slot j. */
  predicate LastFor(cmds: seq<Command>, k: nat, j: nat) {
    k < |cmds| && cmds[k].slot == j && forall l :: k < l < |cmds| ==> cmds[l].slot != j
  }

  /** What the command leaves of a timer at time `now`. */
  predicate Obeys(cmd: Command, now: nat, t: Timer) {
    match cmd
    case Activate(_, p, continuous) =>
      var period := if p < 1 then 1 else p;
      t == Timer(true, period, now + period, true, continuous)
    case Deactivate(_) => t.inUse && !t.active
  }

  lemma {:induction false} ExecAllLast(c: Clock, cmds: seq<Command>, k: nat, j: nat)
    requires LastFor(cmds, k, j) && Commandable(c.timers, j)
    ensures |ExecAll(c, cmds).timers| == |c.timers|
    ensures Obeys(cmds[k], c.now, ExecAll(c, cmds).timers[j])
    decreases |cmds|
  {
    var d := Exec(c, cmds[0]);
    if k == 0 {
      ExecAllSpares(d, cmds[1..], j);
    } else {
      ExecAllLast(d, cmds[1..], k - 1, j);
    }
  }

  /** No callback of a slot from i on commands slot j. */
  ghost predicate Untold(o: Clock, i: nat, h: Handlers, j: nat) {
    forall s, l :: i <= s < |o.timers| && FiresNext(o, s) && 0 <= l < |h(Seen(o, s))| ==> h(Seen(o, s))[l].slot != j
  }

  lemma {:induction false} FireFromUntold(o: Clock, c: Clock, i: nat, h: Handlers, j: nat)
    requires Midway(o, c, i) && Untold(o, i, h, j) && j < |c.timers|
    ensures var d := FireFrom(c, DueFlags(o.timers, c.now), i, h);
            |d.timers| == |c.timers| && d.timers[j] == c.timers[j]
    decreases |o.timers| - i
  {
    if i < |o.timers| {
      MidwayNext(o, c, i, h);
      if Due(o.timers[i], c.now) {
        var trace := c.trace + [Firing(c.now, i)];
        assert h(trace) == h(Seen(o, i));
        ExecAllSpares(c.(trace := trace), h(trace), j);
        FireFromUntold(o, Fire(c, i, h), i + 1, h, j);
      } else {
        FireFromUntold(o, c, i + 1, h, j);
      }
    }
  }

  lemma {:induction false} FireFromTold(o: Clock, c: Clock, i: nat, h: Handlers, s: nat, k: nat, j: nat)
    requires Midway(o, c, i) && i <= s && FiresNext(o, s) && Untold(o, s + 1, h, j)
    requires LastFor(h(Seen(o, s)), k, j) && Commandable(c.timers, j)
    ensures var d := FireFrom(c, DueFlags(o.timers, c.now), i, h);
            |d.timers| == |c.timers| && Obeys(h(Seen(o, s))[k], c.now, d.timers[j])
    decreases |o.timers| - i
  {
    hide Obeys, LastFor, Fired, Seen, Untold;
    MidwayNext(o, c, i, h);
    var d := if Due(o.timers[i], c.now) then Fire(c, i, h) else c;
    if i < s {
      FireFromTold(o, d, i + 1, h, s, k, j);
    } else {
      var trace := c.trace + [Firing(c.now, i)];
      ExecAllLast(c.(trace := trace), h(trace), k, j);
      FireFromUntold(o, d, i + 1, h, j);
    }
  }

  /** The last command that any callback gives slot j in a tick has been obeyed
      when the tick is over, whatever j's own deadline. */
  lemma {:induction false} LastCommandObeyed(c: Clock, h: Handlers, s: nat, k: nat, j: nat)
    requires FiresNext(c, s) && LastFor(h(Seen(c, s)), k, j) && Untold(c, s + 1, h, j)
    requires 0 < j < |c.timers| && c.timers[j].inUse
    ensures |Tick(c, h).timers| == |c.timers| && Obeys(h(Seen(c, s))[k], c.now + 1, Tick(c, h).timers[j])
  {
    hide FireFrom, Obeys, LastFor, Fired, Seen, Untold, Midway, FiresNext;
    Begun(c);
    var n := Clock(RearmAll(c.timers, c.now + 1), c.now + 1, c.trace);
    FireFromTold(c, n, 0, h, s, k, j);
  }

  /** A slot no callback commands is as its deadline leaves it. */
  lemma {:induction false} UntoldTimer(c: Clock, h: Handlers, j: nat)
    requires j < |c.timers| && Untold(c, 0, h, j)
    ensures |Tick(c, h).timers| == |c.timers|
    ensures Tick(c, h).timers[j] ==
              if !FiresNext(c, j) then c.timers[j]
              else if c.timers[j].continuous then c.timers[j].(timeToFire := c.now + 1 + c.timers[j].period)
              else c.timers[j].(active := false)
  {
    hide FireFrom, Fired, Seen, Untold, Midway;
    Begun(c);
    var n := Clock(RearmAll(c.timers, c.now + 1), c.now + 1, c.trace);
    FireFromUntold(c, n, 0, h, j);
  }

  // ----- Over runs -----

  lemma {:induction false} TicksSilent(c: Clock, n: nat, h: Handlers, i: nat)
    requires i < |c.timers| && !c.timers[i].active && c.timers[i].inUse && Spares(h, i)
    ensures var d := Ticks(c, n, h);
            && i < |d.timers| && !d.timers[i].active && d.timers[i].inUse
            && SlotTimes(d.trace, i) == SlotTimes(c.trace, i)
    decreases n
  {
    if n > 0 {
      TickSlot(c, h, i);
      TicksSilent(Tick(c, h), n - 1, h, i);
    }
  }

  /** A timer that is not active, left alone, never fires. */
  lemma {:induction false} RunSilent(c: Clock, ops: seq<Op>, i: nat)
    requires |c.timers| >= 1 && i < |c.timers| && !c.timers[i].active && c.timers[i].inUse
    requires forall k :: 0 <= k < |ops| ==> OpSpares(ops[k], i)
    ensures SlotTimes(Run(c, ops).trace, i) == SlotTimes(c.trace, i)
    decreases |ops|
  {
    if ops != [] {
      StepKeepsSlots(c, ops[0]);
      match ops[0] {
        case TickOne(h) => TickSlot(c, h, i);
        case TickMany(n, h) => TicksSilent(c, n, h, i);
        case _ =>
      }
      RunSilent(Step(c, ops[0]), ops[1..], i);
    }
  }

  /** What slot i has fired by the end of a run in which nothing else commanded it,
      if at time T it was obeying `cmd` and had fired at the times `before`. */
  predicate FiresAsTold(cmd: Command, T: nat, d: Clock, i: nat, before: seq<nat>) {
    d.now >= T &&
    match cmd
    case Activate(_, p, continuous) =>
      var period := if p < 1 then 1 else p;
      SlotTimes(d.trace, i) == before
        + if continuous then Beats(T, period, (d.now - T) / period) else if d.now < T + period then [] else [T + period]
    case Deactivate(_) => SlotTimes(d.trace, i) == before
  }

  lemma {:induction false} RunAsTold(c: Clock, cmd: Command, i: nat, ops: seq<Op>)
    requires |c.timers| >= 1 && i < |c.timers| && Obeys(cmd, c.now, c.timers[i])
    requires forall k :: 0 <= k < |ops| ==> OpSpares(ops[k], i)
    ensures FiresAsTold(cmd, c.now, Run(c, ops), i, SlotTimes(c.trace, i))
  {
    hide Run, Beats, SlotTimes;
    TimePasses(c, ops);
    match cmd
    case Activate(_, p, continuous) =>
      var period := if p < 1 then 1 else p;
      if continuous {
        ArmedTimerKeepsItsBeat(c, i, period, ops);
      } else {
        RunOneShot(c, ops, i, period, c.now + period, SlotTimes(c.trace, i));
      }
    case Deactivate(_) => RunSilent(c, ops, i);
  }

  /** Ticks asked for. */
  function Elapsed(ops: seq<Op>): nat {
    if ops == [] then 0
    else (match ops[0] case TickOne(_) => 1 case TickMany(n, _) => n case _ => 0) + Elapsed(ops[1..])
  }

  /** Time grows by exactly the ticks asked for. */
  lemma {:induction false} TimePasses(c: Clock, ops: seq<Op>)
    requires |c.timers| >= 1
    ensures Run(c, ops).now == c.now + Elapsed(ops)
    decreases |ops|
  {
    if ops != [] {
      StepKeepsSlots(c, ops[0]);
      match ops[0] {
        case TickOne(h) => TickKeepsSlots(c, h);
        case TickMany(n, h) => TicksKeepSlots(c, n, h);
        case _ =>
      }
      TimePasses(Step(c, ops[0]), ops[1..]);
    }
  }

  /** If slot s fires in a tick and the last command on slot j in that tick is the
      k-th of its callback, j does as that command says from then on: armed, it
      fires at the new deadline, and at every multiple of the period when it is
      continuous; deactivated, it does not fire again. */
  lemma {:induction false} CallbackTakesEffect(c: Clock, h: Handlers, s: nat, k: nat, j: nat, ops: seq<Op>)
    requires FiresNext(c, s) && LastFor(h(Seen(c, s)), k, j) && Untold(c, s + 1, h, j)
    requires 0 < j < |c.timers| && c.timers[j].inUse
    requires forall l :: 0 <= l < |ops| ==> OpSpares(ops[l], j)
    ensures var n := Tick(c, h);
            && |n.timers| >= 1
            && FiresAsTold(h(Seen(c, s))[k], c.now + 1, Run(n, ops), j, SlotTimes(n.trace, j))
  {
    hide Tick, Run, Obeys, FiresAsTold, Untold, Seen, SlotTimes;
    LastCommandObeyed(c, h, s, k, j);
    TickKeepsSlots(c, h);
    RunAsTold(Tick(c, h), h(Seen(c, s))[k], j, ops);
  }

  /** The same for a command the emulator issues between ticks, ... */
  lemma {:induction false} CommandTakesEffect(c: Clock, cmd: Command, ops: seq<Op>)
    requires 0 < cmd.slot < |c.timers| && c.timers[cmd.slot].inUse
    requires forall l :: 0 <= l < |ops| ==> OpSpares(ops[l], cmd.slot)
    ensures FiresAsTold(cmd, c.now, Run(c, [Issue(cmd)] + ops), cmd.slot, SlotTimes(c.trace, cmd.slot))
  {
    hide FiresAsTold, SlotTimes;
    assert ([Issue(cmd)] + ops)[1..] == ops;
    assert Obeys(cmd, c.now, Exec(c, cmd).timers[cmd.slot]);
    RunAsTold(Exec(c, cmd), cmd, cmd.slot, ops);
  }

  /** ... and for a registration: it takes the lowest free slot from 1 on, armed if
      it is to be active and silent if not, and touches no other. */
  lemma {:induction false} RegistrationTakesEffect(c: Clock, ticks: nat, continuous: bool, active: bool, i: nat,
                                                   ops: seq<Op>)
    requires 1 <= i <= |c.timers| && (forall j :: 1 <= j < i ==> c.timers[j].inUse)
    requires i < |c.timers| ==> !c.timers[i].inUse
    requires forall l :: 0 <= l < |ops| ==> OpSpares(ops[l], i)
    ensures var n := Step(c, Enrol(ticks, continuous, active));
            && |n.timers| == (if i == |c.timers| then i + 1 else |c.timers|)
            && forall j :: 0 <= j < |c.timers| && j != i ==> n.timers[j] == c.timers[j]
    ensures FiresAsTold(if active then Activate(i, ticks, continuous) else Deactivate(i), c.now,
                        Run(c, [Enrol(ticks, continuous, active)] + ops), i, SlotTimes(c.trace, i))
  {
    hide FiresAsTold, SlotTimes;
    var op := Enrol(ticks, continuous, active);
    assert FreeSlot(c.timers, 1) == i;
    assert ([op] + ops)[1..] == ops;
    RunAsTold(Step(c, op), if active then Activate(i, ticks, continuous) else Deactivate(i), i, ops);
  }

  /** An active timer cannot be unregistered; any other leaves its slot free, or,
      when it is the last, ends the list there. */
  lemma DismissalTakesEffect(c: Clock, i: nat)
    requires 0 < i < |c.timers| && c.timers[i].inUse
    ensures var d := Step(c, Dismiss(i));
            && d.now == c.now && d.trace == c.trace
            && if c.timers[i].active then d == c
               else if i == |c.timers| - 1 then d.timers == c.timers[..i]
               else |d.timers| == |c.timers| && !d.timers[i].inUse && !d.timers[i].active
                    && forall j :: 0 <= j < |c.timers| && j != i ==> d.timers[j] == c.timers[j]
  {
  }

  // ----- A timer that re-arms itself -----

  ghost predicate Renewing(cmds: seq<Command>, i: nat, p: nat) {
    exists k: nat :: LastFor(cmds, k, i) && cmds[k] == Activate(i, p, false)
  }

  /** Whenever slot i fires, its callback ends by arming it once more for p ticks
      later; nothing else commands it. */
  ghost predicate Renews(h: Handlers, i: nat, p: nat) {
    forall trace: seq<Firing> :: trace != [] ==>
      if trace[|trace| - 1].slot == i then Renewing(h(trace), i, p)
      else forall l :: 0 <= l < |h(trace)| ==> h(trace)[l].slot != i
  }

  /** Armed at T, renewed k times since. */
  predicate Renewed(c: Clock, i: nat, T: nat, p: nat, k: nat, before: seq<nat>) {
    && 0 < i < |c.timers|
    && c.timers[i] == Timer(true, p, T + p * (k + 1), true, false)
    && T + p * k <= c.now < T + p * (k + 1)
    && SlotTimes(c.trace, i) == before + Beats(T, p, k)
  }

  lemma {:induction false} FiredSlot(timers: seq<Timer>, now: nat, n: nat, trace: seq<Firing>, i: nat)
    requires n <= |timers|
    ensures SlotTimes(trace + Fired(timers, now, n), i) ==
              SlotTimes(trace, i) + if i < n && timers[i].active && timers[i].timeToFire == now then [now] else []
  {
    hide SlotTimes;
    if n == 0 {
      assert trace + [] == trace;
    } else {
      FiredSlot(timers, now, n - 1, trace, i);
      if timers[n - 1].active && timers[n - 1].timeToFire == now {
        OneMoreFiring(trace + Fired(timers, now, n - 1), Firing(now, n - 1), i);
        assert trace + Fired(timers, now, n) == trace + Fired(timers, now, n - 1) + [Firing(now, n - 1)];
      } else {
        assert Fired(timers, now, n) == Fired(timers, now, n - 1);
      }
    }
  }

  lemma OneMoreFiring(trace: seq<Firing>, f: Firing, i: nat)
    ensures SlotTimes(trace + [f], i) == SlotTimes(trace, i) + if f.slot == i then [f.time] else []
  {
    assert (trace + [f])[..|trace|] == trace;
  }

  lemma SeenEnds(c: Clock, s: nat)
    requires FiresNext(c, s)
    ensures var trace := Seen(c, s); trace != [] && trace[|trace| - 1] == Firing(c.now + 1, s)
  {
  }

  lemma RenewsTells(c: Clock, h: Handlers, i: nat, p: nat)
    requires Renews(h, i, p)
    ensures Untold(c, i + 1, h, i)
    ensures !FiresNext(c, i) ==> Untold(c, 0, h, i)
    ensures FiresNext(c, i) ==> Renewing(h(Seen(c, i)), i, p)
  {
    hide Renewing, Seen;
    forall s | FiresNext(c, s)
      ensures s != i ==> forall l :: 0 <= l < |h(Seen(c, s))| ==> h(Seen(c, s))[l].slot != i
    {
      SeenEnds(c, s);
    }
    if FiresNext(c, i) {
      SeenEnds(c, i);
    }
  }

  lemma {:induction false} TickRenews(c: Clock, h: Handlers, i: nat, T: nat, p: nat, k: nat, before: seq<nat>)
    requires p > 0 && Renewed(c, i, T, p, k, before) && Renews(h, i, p)
    ensures Renewed(Tick(c, h), i, T, p, if c.now + 1 < T + p * (k + 1) then k else k + 1, before)
  {
    hide Renews, Untold, Seen;
    RenewsTells(c, h, i, p);
    TickFiresInOrder(c, h);
    TickKeepsSlots(c, h);
    FiredSlot(c.timers, c.now + 1, |c.timers|, c.trace, i);
    assert p * (k + 1) + p == p * (k + 2);
    hide Tick, Fired;
    if FiresNext(c, i) {
      var l: nat :| LastFor(h(Seen(c, i)), l, i) && h(Seen(c, i))[l] == Activate(i, p, false);
      LastCommandObeyed(c, h, i, l, i);
      assert before + Beats(T, p, k + 1) == before + Beats(T, p, k) + [c.now + 1];
    } else {
      UntoldTimer(c, h, i);
    }
  }

  lemma {:induction false} TicksRenew(c: Clock, n: nat, h: Handlers, i: nat, T: nat, p: nat, k: nat, before: seq<nat>)
    returns (m: nat)
    requires p > 0 && Renewed(c, i, T, p, k, before) && Renews(h, i, p)
    ensures Renewed(Ticks(c, n, h), i, T, p, m, before)
    decreases n
  {
    hide Renews, Tick, Renewed;
    if n == 0 {
      m := k;
    } else {
      TickRenews(c, h, i, T, p, k, before);
      m := TicksRenew(Tick(c, h), n - 1, h, i, T, p, if c.now + 1 < T + p * (k + 1) then k else k + 1, before);
    }
  }

  /** A one-shot timer whose callback arms it again inside the event keeps a beat as
      a continuous one does, within one batch of ticks and of whatever size. */
  lemma {:induction false} SelfRenewingTimerKeepsItsBeat(c: Clock, n: nat, h: Handlers, i: nat, p: nat)
    requires 0 < i < |c.timers| && c.timers[i] == Timer(true, p, c.now + p, true, false)
    requires p > 0 && Renews(h, i, p)
    ensures SlotTimes(Ticks(c, n, h).trace, i) == SlotTimes(c.trace, i) + Beats(c.now, p, n / p)
  {
    hide Renews, Ticks;
    var before := SlotTimes(c.trace, i);
    assert before + Beats(c.now, p, 0) == before;
    var m := TicksRenew(c, n, h, i, c.now, p, 0, before);
    TicksKeepSlots(c, n, h);
    BeatCount(n, p, m);
  }
}
