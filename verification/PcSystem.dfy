/** The timer framework as Bochs runs it: up to 64 timers with 64-bit deadlines
    behind one 32-bit countdown that jumps from event to event.  Every method is
    proved to do what the tick-by-tick clock of TimerReference does. */
module PcSystemTimers {
  import opened TimerReference

  const BX_MAX_TIMERS: nat := 64
  const NULL_TIMER_INTERVAL: nat := 0x7fff_ffff
  const MAX_BIT64U: nat := 0xffff_ffff_ffff_ffff

  /** A value stored in a Bit32u. */
  function Bit32u(x: int): (r: nat)
    ensures 0 <= x < 0x1_0000_0000 ==> r == x
  {
    x % 0x1_0000_0000
  }

  /** Handlers that only command registered timers other than the null timer. */
  ghost predicate WellBehaved(h: Handlers, timers: seq<Timer>) {
    forall trace: seq<Firing>, k :: 0 <= k < |h(trace)| ==> Commandable(timers, h(trace)[k].slot)
  }

  lemma WellBehavedTransfers(h: Handlers, a: seq<Timer>, b: seq<Timer>)
    requires WellBehaved(h, a) && SameSlots(a, b)
    ensures WellBehaved(h, b)
  {
    forall trace: seq<Firing>, k | 0 <= k < |h(trace)|
      ensures Commandable(b, h(trace)[k].slot)
    {
      assert Commandable(a, h(trace)[k].slot);
    }
  }

  /** What the framework demands of a caller before an operation. */
  ghost predicate Permitted(c: Clock, op: Op) {
    match op
    case TickOne(h) => WellBehaved(h, c.timers) && c.now + 1 + NULL_TIMER_INTERVAL < MAX_BIT64U
    case TickMany(n, h) =>
      WellBehaved(h, c.timers) && n < 0x1_0000_0000 && c.now + n + NULL_TIMER_INTERVAL < MAX_BIT64U
    case Issue(cmd) => Commandable(c.timers, cmd.slot)
    case Enrol(_, _, _) => 1 <= |c.timers| && FreeSlot(c.timers, 1) < BX_MAX_TIMERS
    case Dismiss(slot) => Commandable(c.timers, slot)
  }

  ghost predicate AllPermitted(c: Clock, ops: seq<Op>)
    requires |c.timers| >= 1
    decreases |ops|
  {
    ops == [] ||
    (Permitted(c, ops[0]) && |Step(c, ops[0]).timers| >= 1 && AllPermitted(Step(c, ops[0]), ops[1..]))
  }

  class PcSystem {
    const timer: array<Timer>
    var numTimers: nat
    var triggeredTimer: nat
    var currCountdown: nat        // Bit32u
    var currCountdownPeriod: nat  // Bit32u
    var ticksTotal: nat
    var trace: seq<Firing>        // every callback invoked so far: all that callbacks can tell apart

    /** The countdown never outlives the nearest deadline, and the null timer
        keeps it within 32 bits. */
    ghost predicate Scheduled()
      reads this, timer
    {
      && timer.Length == BX_MAX_TIMERS
      && 1 <= numTimers <= BX_MAX_TIMERS
      && currCountdown <= currCountdownPeriod
      && 0 < currCountdownPeriod <= NULL_TIMER_INTERVAL
      && (forall i :: 0 <= i < numTimers && timer[i].active ==>
            && ticksTotal + currCountdownPeriod <= timer[i].timeToFire
            && timer[i].inUse && timer[i].period >= 1)
      && timer[0].inUse && timer[0].active && timer[0].continuous
      && timer[0].period == NULL_TIMER_INTERVAL
      && timer[0].timeToFire <= TimeTicks() + NULL_TIMER_INTERVAL
    }

    ghost predicate Valid()
      reads this, timer
    {
      Scheduled() && 0 < currCountdown
    }

    function TimeTicks(): nat
      requires currCountdown <= currCountdownPeriod
      reads this
    {
      ticksTotal + Bit32u(currCountdownPeriod - currCountdown)
    }

    /** The clock this countdown stands for. */
    ghost function Abs(): Clock
      requires timer.Length == BX_MAX_TIMERS && numTimers <= BX_MAX_TIMERS
      requires currCountdown <= currCountdownPeriod
      reads this, timer
    {
      Clock(timer[..numTimers], TimeTicks(), trace)
    }

    constructor ()
      ensures Valid()
      ensures Abs() == Clock([Timer(true, 0x7fff_ffff, 0x7fff_ffff, true, true)], 0, [])
      ensures fresh(timer)
    {
      timer := new Timer[BX_MAX_TIMERS](_ => Timer(false, 0, 0, false, false));
      numTimers := 1;
      triggeredTimer := 0;
      ticksTotal := 0;
      currCountdown := Bit32u(NULL_TIMER_INTERVAL);
      currCountdownPeriod := Bit32u(NULL_TIMER_INTERVAL);
      trace := [];
      new;
      timer[0] := Timer(true, NULL_TIMER_INTERVAL, NULL_TIMER_INTERVAL, true, true);
    }

    method ActivateTimerTicks(i: nat, ticks: nat, continuous: bool)
      requires Valid() && Commandable(timer[..numTimers], i)
      modifies this`currCountdown, this`currCountdownPeriod, timer
      ensures Valid() && Abs() == Exec(old(Abs()), Activate(i, ticks, continuous))
    {
      var ticks := if ticks < MIN_ALLOWABLE_PERIOD then MIN_ALLOWABLE_PERIOD else ticks;
      timer[i] := timer[i].(
        period := ticks,
        timeToFire := ticksTotal + Bit32u(currCountdownPeriod - currCountdown) + ticks,
        active := true,
        continuous := continuous);
      Skew(ticks);
    }

    /** Shortens the running countdown when a timer is armed inside it. */
    method Skew(ticks: nat)
      requires 0 < ticks
      requires 0 < currCountdown <= currCountdownPeriod <= NULL_TIMER_INTERVAL
      modifies this`currCountdown, this`currCountdownPeriod
      ensures 0 < currCountdown <= currCountdownPeriod <= NULL_TIMER_INTERVAL
      ensures TimeTicks() == old(TimeTicks())
      ensures currCountdown == if ticks < old(currCountdown) then ticks else old(currCountdown)
    {
      if ticks < currCountdown {
        currCountdownPeriod := Bit32u(currCountdownPeriod - Bit32u(currCountdown - Bit32u(ticks)));
        currCountdown := Bit32u(ticks);
      }
    }

    method DeactivateTimer(i: nat)
      requires Valid() && Commandable(timer[..numTimers], i)
      modifies timer
      ensures Valid() && Abs() == Exec(old(Abs()), Deactivate(i))
    {
      timer[i] := timer[i].(active := false);
    }

    method Perform(cmd: Command)
      requires Valid() && Commandable(timer[..numTimers], cmd.slot)
      modifies this`currCountdown, this`currCountdownPeriod, timer
      ensures Valid() && Abs() == Exec(old(Abs()), cmd)
    {
      match cmd
      case Activate(i, ticks, continuous) => ActivateTimerTicks(i, ticks, continuous);
      case Deactivate(i) => DeactivateTimer(i);
    }

    /** Slot 0 belongs to the null timer. */
    method FindFree() returns (i: nat)
      requires Valid()
      ensures i == FreeSlot(timer[..numTimers], 1)
    {
      i := 1;
      while i < numTimers
        invariant 1 <= i <= numTimers
        invariant FreeSlot(timer[..numTimers], i) == FreeSlot(timer[..numTimers], 1)
      {
        if !timer[i].inUse {
          break;
        }
        i := i + 1;
      }
    }

    /** Fills slot `i`, which may be the one just past the end. */
    method Install(i: nat, ticks: nat, continuous: bool, active: bool)
      requires Valid() && 1 <= i <= numTimers && i < BX_MAX_TIMERS && ticks >= 1
      modifies this`currCountdown, this`currCountdownPeriod, timer
      ensures Valid() && TimeTicks() == old(TimeTicks())
      ensures timer[i] == Armed(TimeTicks(), ticks, continuous).(active := active)
      ensures active ==> ticksTotal + currCountdownPeriod <= timer[i].timeToFire
      ensures forall j :: 0 <= j < BX_MAX_TIMERS && j != i ==> timer[j] == old(timer[j])
    {
      timer[i] := Timer(true, ticks,
                        ticksTotal + Bit32u(currCountdownPeriod - currCountdown) + ticks,
                        active, continuous);
      if active {
        Skew(ticks);
      }
    }

    method RegisterTimerTicks(ticks: nat, continuous: bool, active: bool) returns (i: nat)
      requires Valid() && FreeSlot(timer[..numTimers], 1) < BX_MAX_TIMERS
      modifies this`numTimers, this`currCountdown, this`currCountdownPeriod, timer
      ensures Valid() && Abs() == Register(old(Abs()), ticks, continuous, active)
      ensures i == FreeSlot(old(timer[..numTimers]), 1)
    {
      hide FreeSlot;
      var ticks := if ticks < MIN_ALLOWABLE_PERIOD then MIN_ALLOWABLE_PERIOD else ticks;
      ghost var before := Abs();
      i := FindFree();
      Install(i, ticks, continuous, active);
      if i == numTimers {
        numTimers := numTimers + 1;
        assert timer[..numTimers] == before.timers + [timer[i]];
      } else {
        assert timer[..numTimers] == before.timers[i := timer[i]];
      }
    }

    method UnregisterTimer(i: nat) returns (ok: bool)
      requires Valid() && Commandable(timer[..numTimers], i)
      modifies this`numTimers, timer
      ensures Valid() && Abs() == Unregister(old(Abs()), i)
      ensures ok == !old(timer[i].active)
    {
      if timer[i].active {
        return false;
      }
      timer[i] := Timer(false, MAX_BIT64S, MAX_BIT64S, timer[i].active, false);
      if i == numTimers - 1 {
        numTimers := numTimers - 1;
      }
      return true;
    }

    /** Invokes the callback of slot `i`. */
    method Callback(i: nat, h: Handlers)
      requires Valid() && WellBehaved(h, timer[..numTimers])
      modifies this`currCountdown, this`currCountdownPeriod, this`trace, timer
      ensures Valid() && Abs() == Fire(old(Abs()), i, h)
    {
      trace := trace + [Firing(TimeTicks(), i)];
      ghost var start := Abs();
      var cmds := h(trace);
      var k := 0;
      ExecAllKeepsSlots(start, cmds);
      while k < |cmds|
        invariant 0 <= k <= |cmds|
        invariant Valid() && SameSlots(start.timers, timer[..numTimers])
        invariant ExecAll(Abs(), cmds[k..]) == ExecAll(start, cmds)
      {
        Perform(cmds[k]);
        k := k + 1;
      }
    }

    /** The first loop of a countdown event: marks and rearms the timers due now,
        and finds the nearest deadline left. */
    method Sweep(triggered: array<bool>) returns (minTimeToFire: nat)
      requires timer.Length == BX_MAX_TIMERS == triggered.Length && numTimers <= BX_MAX_TIMERS
      requires ticksTotal < MAX_BIT64U
      requires forall i :: 0 <= i < numTimers && timer[i].active ==>
                 ticksTotal <= timer[i].timeToFire && timer[i].period >= 1
      modifies timer, triggered
      ensures timer[..numTimers] == RearmAll(old(timer[..numTimers]), ticksTotal)
      ensures triggered[..numTimers] == DueFlags(old(timer[..numTimers]), ticksTotal)
      ensures ticksTotal < minTimeToFire
      ensures forall i :: 0 <= i < numTimers && timer[i].active ==> minTimeToFire <= timer[i].timeToFire
    {
      minTimeToFire := MAX_BIT64U;
      var i := 0;
      while i < numTimers
        invariant 0 <= i <= numTimers
        invariant forall j :: 0 <= j < i ==>
                    timer[j] == Rearm(old(timer[j]), ticksTotal) && triggered[j] == Due(old(timer[j]), ticksTotal)
        invariant forall j :: i <= j < numTimers ==> timer[j] == old(timer[j])
        invariant forall j :: 0 <= j < i && timer[j].active ==> minTimeToFire <= timer[j].timeToFire
        invariant ticksTotal < minTimeToFire
      {
        triggered[i] := false;
        if timer[i].active {
          if ticksTotal == timer[i].timeToFire {
            triggered[i] := true;
            if !timer[i].continuous {
              timer[i] := timer[i].(active := false);
            } else {
              timer[i] := timer[i].(timeToFire := timer[i].timeToFire + timer[i].period);
              if timer[i].timeToFire < minTimeToFire {
                minTimeToFire := timer[i].timeToFire;
              }
            }
          } else {
            if timer[i].timeToFire < minTimeToFire {
              minTimeToFire := timer[i].timeToFire;
            }
          }
        }
        i := i + 1;
      }
    }

    /** The second loop: invokes the callbacks of the marked timers. */
    method RunCallbacks(triggered: array<bool>, h: Handlers)
      requires Valid() && WellBehaved(h, timer[..numTimers])
      requires triggered.Length == BX_MAX_TIMERS
      modifies this`currCountdown, this`currCountdownPeriod, this`triggeredTimer, this`trace, timer
      ensures Valid()
      ensures Abs() == FireFrom(old(Abs()), old(triggered[..numTimers]), 0, h)
    {
      ghost var start := Abs();
      ghost var due := triggered[..numTimers];
      var i := 0;
      while i < numTimers
        invariant 0 <= i <= numTimers == |due|
        invariant Valid() && WellBehaved(h, timer[..numTimers])
        invariant FireFrom(Abs(), due, i, h) == FireFrom(start, due, 0, h)
      {
        if triggered[i] {
          ghost var before := Abs();
          triggeredTimer := i;
          Callback(i, h);
          triggeredTimer := 0;
          ghost var grown := before.trace + [Firing(before.now, i)];
          ExecAllKeepsSlots(before.(trace := grown), h(grown));
          assert Abs() == ExecAll(before.(trace := grown), h(grown));
          WellBehavedTransfers(h, before.timers, timer[..numTimers]);
        }
        i := i + 1;
      }
    }

    /** The countdown has reached zero. */
    method CountdownEvent(h: Handlers)
      requires Scheduled() && currCountdown == 0
      requires TimeTicks() + NULL_TIMER_INTERVAL < MAX_BIT64U
      requires WellBehaved(h, timer[..numTimers])
      modifies this`currCountdown, this`currCountdownPeriod, this`ticksTotal,
               this`triggeredTimer, this`trace, timer
      ensures Valid() && Abs() == Service(old(Abs()), h)
    {
      hide FireFrom;
      ghost var start := Abs();
      ticksTotal := ticksTotal + currCountdownPeriod;
      var triggered := new bool[BX_MAX_TIMERS];
      var minTimeToFire := Sweep(triggered);
      assert timer[0] == timer[..numTimers][0] == Rearm(start.timers[0], start.now);
      currCountdownPeriod := Bit32u(minTimeToFire - ticksTotal);
      currCountdown := currCountdownPeriod;
      assert forall i :: 0 <= i < numTimers ==> timer[i] == timer[..numTimers][i];
      WellBehavedTransfers(h, start.timers, timer[..numTimers]);
      assert Valid();
      RunCallbacks(triggered, h);
    }

    method Tick1(h: Handlers)
      requires Valid() && WellBehaved(h, timer[..numTimers])
      requires TimeTicks() + 1 + NULL_TIMER_INTERVAL < MAX_BIT64U
      modifies this`currCountdown, this`currCountdownPeriod, this`ticksTotal,
               this`triggeredTimer, this`trace, timer
      ensures Valid() && Abs() == Tick(old(Abs()), h)
    {
      ghost var start := Abs();
      currCountdown := Bit32u(currCountdown - 1);
      if currCountdown == 0 {
        CountdownEvent(h);
      } else {
        SkipQuietTicks(start, 1, h);
        JumpToDeadline(start, 1, h);
      }
    }

    /** However many events the n ticks contain, the outcome is that of n single
        ticks of the clock; in particular time advances by exactly n. */
    method TickN(n: nat, h: Handlers)
      requires Valid() && WellBehaved(h, timer[..numTimers]) && n < 0x1_0000_0000
      requires TimeTicks() + n + NULL_TIMER_INTERVAL < MAX_BIT64U
      modifies this`currCountdown, this`currCountdownPeriod, this`ticksTotal,
               this`triggeredTimer, this`trace, timer
      ensures Valid() && Abs() == Ticks(old(Abs()), n, h)
      ensures TimeTicks() == old(TimeTicks()) + n
    {
      hide Ticks, Tick, Service, FireFrom;
      var left := n;
      ghost var start := Abs();
      TicksKeepSlots(start, n, h);
      while left >= currCountdown
        invariant Valid() && WellBehaved(h, timer[..numTimers])
        invariant 0 <= left < 0x1_0000_0000
        invariant Ticks(Abs(), left, h) == Ticks(start, n, h)
        invariant TimeTicks() + left == start.now + n
        decreases left
      {
        ghost var before := Abs();
        ghost var jump := currCountdown;
        left := Bit32u(left - currCountdown);
        currCountdown := 0;
        JumpToDeadline(before, jump, h);
        CountdownEvent(h);
        TicksSplit(before, jump, left, h);
        TicksKeepSlots(before, jump, h);
        WellBehavedTransfers(h, before.timers, timer[..numTimers]);
      }
      SkipQuietTicks(Abs(), left, h);
      currCountdown := Bit32u(currCountdown - left);
    }

    method Operate(op: Op)
      requires Valid() && Permitted(Abs(), op)
      modifies this`numTimers, this`currCountdown, this`currCountdownPeriod, this`ticksTotal,
               this`triggeredTimer, this`trace, timer
      ensures Valid() && Abs() == Step(old(Abs()), op)
    {
      match op
      case TickOne(h) => Tick1(h);
      case TickMany(n, h) => TickN(n, h);
      case Issue(cmd) => Perform(cmd);
      case Enrol(ticks, continuous, active) => var _ := RegisterTimerTicks(ticks, continuous, active);
      case Dismiss(slot) => var _ := UnregisterTimer(slot);
    }

    /** A whole session of the emulator is a run of the clock. */
    method Session(ops: seq<Op>)
      requires Valid() && AllPermitted(Abs(), ops)
      modifies this`numTimers, this`currCountdown, this`currCountdownPeriod, this`ticksTotal,
               this`triggeredTimer, this`trace, timer
      ensures Valid() && Abs() == Run(old(Abs()), ops)
    {
      ghost var start := Abs();
      var k := 0;
      while k < |ops|
        invariant 0 <= k <= |ops|
        invariant Valid() && AllPermitted(Abs(), ops[k..])
        invariant Run(Abs(), ops[k..]) == Run(start, ops)
      {
        assert ops[k..][1..] == ops[k + 1..];
        Operate(ops[k]);
        k := k + 1;
      }
    }
  }
}
