/** The meaning of the Bochs timer framework, told the slow way.

    A clock has no countdown.  On every tick it looks at every timer, fires the
    ones whose deadline is this very tick, and runs their callbacks in slot
    order.  The countdown form in PcSystem.dfy is proved against it. */
module TimerReference {

  const MIN_ALLOWABLE_PERIOD: nat := 1
  const MAX_BIT64S: nat := 0x7fff_ffff_ffff_ffff

  datatype Timer = Timer(inUse: bool, period: nat, timeToFire: nat, active: bool, continuous: bool)

  /** One callback invocation. */
  datatype Firing = Firing(time: nat, slot: nat)

  /** What a callback, or the emulator between ticks, may ask of the framework. */
  datatype Command =
    | Activate(slot: nat, ticks: nat, continuous: bool)
    | Deactivate(slot: nat)

  /** All callbacks at once: given everything that has fired so far, the last
      entry being the timer that is firing now, the commands its callback issues. */
  type Handlers = seq<Firing> -> seq<Command>

  datatype Clock = Clock(timers: seq<Timer>, now: nat, trace: seq<Firing>)

  // ----- Single operations -----

  function Clamp(ticks: nat): nat {
    if ticks < MIN_ALLOWABLE_PERIOD then MIN_ALLOWABLE_PERIOD else ticks
  }

  predicate Commandable(timers: seq<Timer>, slot: nat) {
    0 < slot < |timers| && timers[slot].inUse
  }

  /** A timer armed at time `now` to fire `ticks` later. */
  function Armed(now: nat, ticks: nat, continuous: bool): Timer {
    Timer(true, Clamp(ticks), now + Clamp(ticks), true, continuous)
  }

  /** Commands on the null timer or on free slots are errors; no well-behaved
      handler issues one (see WellBehaved), and the clock ignores them. */
  function Exec(c: Clock, cmd: Command): Clock {
    if !Commandable(c.timers, cmd.slot) then c
    else match cmd
      case Activate(i, ticks, continuous) => c.(timers := c.timers[i := Armed(c.now, ticks, continuous)])
      case Deactivate(i) => c.(timers := c.timers[i := c.timers[i].(active := false)])
  }

  function ExecAll(c: Clock, cmds: seq<Command>): Clock
    decreases |cmds|
  {
    if cmds == [] then c else ExecAll(Exec(c, cmds[0]), cmds[1..])
  }

  /** First free slot from `i` on, or one past the end. */
  function FreeSlot(timers: seq<Timer>, i: nat): (slot: nat)
    requires i <= |timers|
    ensures i <= slot <= |timers|
    ensures slot < |timers| ==> !timers[slot].inUse
    ensures forall j :: i <= j < slot ==> timers[j].inUse
    decreases |timers| - i
  {
    if i == |timers| || !timers[i].inUse then i else FreeSlot(timers, i + 1)
  }

  function Register(c: Clock, ticks: nat, continuous: bool, active: bool): Clock
    requires |c.timers| >= 1
  {
    var i := FreeSlot(c.timers, 1);
    var t := Armed(c.now, ticks, continuous).(active := active);
    c.(timers := if i == |c.timers| then c.timers + [t] else c.timers[i := t])
  }

  /** An active timer cannot be unregistered. */
  function Unregister(c: Clock, slot: nat): Clock {
    if !Commandable(c.timers, slot) || c.timers[slot].active then c
    else if slot == |c.timers| - 1 then c.(timers := c.timers[..slot])
    else c.(timers := c.timers[slot := Timer(false, MAX_BIT64S, MAX_BIT64S, false, false)])
  }

  // ----- One tick -----

  predicate Due(t: Timer, now: nat) {
    t.active && t.timeToFire == now
  }

  /** What firing does to the timer itself, before its callback runs. */
  function Rearm(t: Timer, now: nat): Timer {
    if !Due(t, now) then t
    else if t.continuous then t.(timeToFire := t.timeToFire + t.period)
    else t.(active := false)
  }

  function DueFlags(timers: seq<Timer>, now: nat): seq<bool> {
    seq(|timers|, i requires 0 <= i < |timers| => Due(timers[i], now))
  }

  function RearmAll(timers: seq<Timer>, now: nat): seq<Timer> {
    seq(|timers|, i requires 0 <= i < |timers| => Rearm(timers[i], now))
  }

  function Fire(c: Clock, slot: nat, h: Handlers): Clock {
    var trace := c.trace + [Firing(c.now, slot)];
    ExecAll(c.(trace := trace), h(trace))
  }

  /** Runs the callbacks of the flagged slots from `i` on, in slot order.  The
      flags are a snapshot: deactivating a flagged timer does not silence it. */
  function FireFrom(c: Clock, due: seq<bool>, i: nat, h: Handlers): Clock
    requires i <= |due|
    decreases |due| - i
  {
    if i == |due| then c
    else FireFrom(if due[i] then Fire(c, i, h) else c, due, i + 1, h)
  }

  /** Everything that happens at time `c.now`. */
  function Service(c: Clock, h: Handlers): Clock {
    FireFrom(c.(timers := RearmAll(c.timers, c.now)), DueFlags(c.timers, c.now), 0, h)
  }

  function Tick(c: Clock, h: Handlers): Clock {
    Service(c.(now := c.now + 1), h)
  }

  function Ticks(c: Clock, n: nat, h: Handlers): Clock
    decreases n
  {
    if n == 0 then c else Ticks(Tick(c, h), n - 1, h)
  }

  // ----- Runs -----

  datatype Op =
    | TickOne(h: Handlers)
    | TickMany(n: nat, h: Handlers)
    | Issue(cmd: Command)
    | Enrol(ticks: nat, continuous: bool, active: bool)
    | Dismiss(slot: nat)

  function Step(c: Clock, op: Op): Clock
    requires |c.timers| >= 1
  {
    match op
    case TickOne(h) => Tick(c, h)
    case TickMany(n, h) => Ticks(c, n, h)
    case Issue(cmd) => Exec(c, cmd)
    case Enrol(ticks, continuous, active) => Register(c, ticks, continuous, active)
    case Dismiss(slot) => Unregister(c, slot)
  }

  function Run(c: Clock, ops: seq<Op>): Clock
    requires |c.timers| >= 1
    decreases |ops|
  {
    if ops == [] then c else
      StepKeepsSlots(c, ops[0]);
      Run(Step(c, ops[0]), ops[1..])
  }

  // ----- What commands and ticks leave alone -----

  predicate SameSlots(a: seq<Timer>, b: seq<Timer>) {
    |a| == |b| && forall i :: 0 <= i < |a| ==> a[i].inUse == b[i].inUse
  }

  lemma {:induction false} ExecAllKeepsSlots(c: Clock, cmds: seq<Command>)
    ensures var d := ExecAll(c, cmds);
            SameSlots(c.timers, d.timers) && d.now == c.now && d.trace == c.trace
    ensures |c.timers| > 0 ==> ExecAll(c, cmds).timers[0] == c.timers[0]
    decreases |cmds|
  {
    if cmds != [] {
      ExecAllKeepsSlots(Exec(c, cmds[0]), cmds[1..]);
    }
  }

  lemma {:induction false} FireFromKeepsSlots(c: Clock, due: seq<bool>, i: nat, h: Handlers)
    requires i <= |due|
    ensures var d := FireFrom(c, due, i, h);
            SameSlots(c.timers, d.timers) && d.now == c.now && c.trace <= d.trace
    decreases |due| - i
  {
    if i < |due| {
      var trace := c.trace + [Firing(c.now, i)];
      ExecAllKeepsSlots(c.(trace := trace), h(trace));
      FireFromKeepsSlots(if due[i] then Fire(c, i, h) else c, due, i + 1, h);
    }
  }

  lemma TickKeepsSlots(c: Clock, h: Handlers)
    ensures var d := Tick(c, h);
            SameSlots(c.timers, d.timers) && d.now == c.now + 1 && c.trace <= d.trace
  {
    var n := c.(now := c.now + 1);
    FireFromKeepsSlots(n.(timers := RearmAll(c.timers, n.now)), DueFlags(c.timers, n.now), 0, h);
  }

  lemma {:induction false} TicksKeepSlots(c: Clock, n: nat, h: Handlers)
    ensures var d := Ticks(c, n, h);
            SameSlots(c.timers, d.timers) && d.now == c.now + n && c.trace <= d.trace
    decreases n
  {
    if n > 0 {
      TickKeepsSlots(c, h);
      TicksKeepSlots(Tick(c, h), n - 1, h);
    }
  }

  lemma StepKeepsSlots(c: Clock, op: Op)
    requires |c.timers| >= 1
    ensures |Step(c, op).timers| >= 1
  {
    match op
    case TickOne(h) => TickKeepsSlots(c, h);
    case TickMany(n, h) => TicksKeepSlots(c, n, h);
    case Issue(cmd) =>
    case Enrol(ticks, continuous, active) => 
    case Dismiss(slot) =>
  }

  // ----- Skipping ticks on which nothing is due -----

  /** No active deadline at or before `time`. */
  predicate Quiet(timers: seq<Timer>, time: nat) {
    forall i :: 0 <= i < |timers| ==> timers[i].active ==> timers[i].timeToFire > time
  }

  lemma {:induction false} NothingFlagged(c: Clock, due: seq<bool>, i: nat, h: Handlers)
    requires i <= |due|
    requires forall j :: i <= j < |due| ==> !due[j]
    ensures FireFrom(c, due, i, h) == c
    decreases |due| - i
  {
    if i < |due| {
      NothingFlagged(c, due, i + 1, h);
    }
  }

  lemma {:induction false} SkipQuietTicks(c: Clock, n: nat, h: Handlers)
    requires Quiet(c.timers, c.now + n)
    ensures Ticks(c, n, h) == c.(now := c.now + n)
    decreases n
  {
    if n > 0 {
      var d := c.(now := c.now + 1);
      assert RearmAll(c.timers, d.now) == c.timers;
      NothingFlagged(d, DueFlags(c.timers, d.now), 0, h);
      SkipQuietTicks(d, n - 1, h);
    }
  }

  lemma {:induction false} TicksSplit(c: Clock, m: nat, n: nat, h: Handlers)
    ensures Ticks(c, m + n, h) == Ticks(Ticks(c, m, h), n, h)
    decreases m
  {
    if m > 0 {
      TicksSplit(Tick(c, h), m - 1, n, h);
    }
  }

  /** The jump `tickn` makes: with no deadline strictly before `c.now + n`, the
      first n ticks amount to one service at their end. */
  lemma JumpToDeadline(c: Clock, n: nat, h: Handlers)
    requires n > 0 && Quiet(c.timers, c.now + n - 1)
    ensures Ticks(c, n, h) == Service(c.(now := c.now + n), h)
  {
    SkipQuietTicks(c, n - 1, h);
    TicksSplit(c, n - 1, 1, h);
    var d := c.(now := c.now + n - 1);
    assert Ticks(d, 1, h) == Ticks(Tick(d, h), 0, h) == Tick(d, h);
  }
}
