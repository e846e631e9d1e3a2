/** The student kernel's processes as plain values: who waits, in which order,
    who runs, and who owns which memory segment. */
module SchedulerModel {

  const SLOTS: nat := 8
  const IDLE: nat := 8       // stands for the idle process where a pool slot is expected
  const IDLE_NAME := "IDLE"

  datatype State = DEFUNCT | RUNNING | READY | BLOCKED | STARTING | SLEEPING

  datatype Proc = Proc(name: string, state: State, segment: int, stackPointer: int, sleepCounter: int)

  datatype Kernel = Kernel(procs: seq<Proc>, idle: Proc, queue: seq<nat>, running: nat, memory: seq<bool>) {
    ghost predicate Shaped() {
      && |procs| == SLOTS && |memory| == SLOTS && running <= IDLE
      && forall i :: 0 <= i < |queue| ==> queue[i] < SLOTS
    }
  }

  const BOOTED := Kernel(
    seq(SLOTS, _ => Proc("", DEFUNCT, 0, 0, 0)),
    Proc(IDLE_NAME, READY, 0, 0, 0),
    [], IDLE, seq(SLOTS, _ => false))

  // ----- exec -----

  function FirstFree(memory: seq<bool>, i: nat): (s: nat)
    requires i <= |memory|
    ensures i <= s <= |memory|
    ensures forall j :: i <= j < s ==> memory[j]
    ensures s < |memory| ==> !memory[s]
    decreases |memory| - i
  {
    if i == |memory| || !memory[i] then i else FirstFree(memory, i + 1)
  }

  function FirstDefunct(procs: seq<Proc>, i: nat): (s: nat)
    requires i <= |procs|
    ensures i <= s <= |procs|
    ensures forall j :: i <= j < s ==> procs[j].state != DEFUNCT
    ensures s < |procs| ==> procs[s].state == DEFUNCT
    decreases |procs| - i
  {
    if i == |procs| || procs[i].state == DEFUNCT then i else FirstDefunct(procs, i + 1)
  }

  /** kStrCopy copies at most six characters of the name. */
  function Stored(name: string): string {
    if |name| <= 6 then name else name[..6]
  }

  function SegmentAddress(s: int): int { 0x1000 * (s + 2) }

  /** `found` tells whether the program file exists.  The third case is the one
      in which the segment just taken is never given back. */
  function Exec(k: Kernel, found: bool, name: string): (Kernel, int)
    requires k.Shaped()
  {
    if !found then (k, -1)
    else
      var s, i := FirstFree(k.memory, 0), FirstDefunct(k.procs, 0);
      if s == SLOTS then (k, -2)
      else if i == SLOTS then (k.(memory := k.memory[s := true]), -2)
      else
        var p := Proc(Stored(name), STARTING, SegmentAddress(s), 0xFF00, k.procs[i].sleepCounter);
        (k.(memory := k.memory[s := true], procs := k.procs[i := p], queue := k.queue + [i]), 1)
  }

  // ----- terminate -----

  function Terminate(k: Kernel): Kernel
    requires k.Shaped() && k.running < SLOTS
  {
    var p := k.procs[k.running];
    var s := p.segment / 0x1000 - 2;
    k.(memory := if 0 <= s < SLOTS then k.memory[s := false] else k.memory,
       procs := k.procs[k.running := p.(state := DEFUNCT, name := "")])
  }

  // ----- the timer -----

  function RunningProc(k: Kernel): Proc
    requires k.Shaped()
  {
    if k.running == IDLE then k.idle else k.procs[k.running]
  }

  function SetRunning(k: Kernel, p: Proc): Kernel
    requires k.Shaped()
  {
    if k.running == IDLE then k.(idle := p) else k.(procs := k.procs[k.running := p])
  }

  /** One sleeper's turn in the loop that opens project 6's timer interrupt. */
  function WakeOne(k: Kernel, i: nat): Kernel
    requires k.Shaped() && i < SLOTS
  {
    var p := k.procs[i];
    if p.state != SLEEPING then k
    else if p.sleepCounter - 1 <= 0 then
      k.(procs := k.procs[i := p.(sleepCounter := p.sleepCounter - 1, state := READY)], queue := k.queue + [i])
    else k.(procs := k.procs[i := p.(sleepCounter := p.sleepCounter - 1)])
  }

  function WakeFrom(k: Kernel, i: nat): (r: Kernel)
    requires k.Shaped() && i <= SLOTS
    ensures r.Shaped() && r.running == k.running
    decreases SLOTS - i
  {
    if i == SLOTS then k else WakeFrom(WakeOne(k, i), i + 1)
  }

  predicate Requeues(p: Proc) {
    p.state != DEFUNCT && p.state != SLEEPING && p.name != IDLE_NAME
  }

  /** Saves the running process and, if it can go on, puts it at the tail. */
  function Requeue(k: Kernel, stackPointer: int): (r: Kernel)
    requires k.Shaped()
    ensures k.running < SLOTS || k.idle.name == IDLE_NAME ==> r.Shaped()
  {
    var p := RunningProc(k).(stackPointer := stackPointer);
    if Requeues(p) then SetRunning(k, p.(state := READY)).(queue := k.queue + [k.running])
    else SetRunning(k, p)
  }

  /** Takes the head of the queue, or the idle process. */
  function Dispatch(k: Kernel): Kernel
    requires k.Shaped()
  {
    if k.queue == [] then k.(running := IDLE)
    else
      var i := k.queue[0];
      k.(procs := k.procs[i := k.procs[i].(state := RUNNING)], queue := k.queue[1..], running := i)
  }

  ghost predicate IdleNamed(k: Kernel) {
    k.Shaped() && k.idle.name == IDLE_NAME
  }

  /** Project 5's timer interrupt. */
  function Switch(k: Kernel, stackPointer: int): Kernel
    requires IdleNamed(k)
  {
    Dispatch(Requeue(k, stackPointer))
  }

  /** Project 6's timer interrupt. */
  function Tick(k: Kernel, stackPointer: int): Kernel
    requires IdleNamed(k)
  {
    WakeKeepsIdle(k, 0);
    Switch(WakeFrom(k, 0), stackPointer)
  }

  lemma WakeKeepsIdle(k: Kernel, i: nat)
    requires k.Shaped() && i <= SLOTS
    ensures WakeFrom(k, i).idle == k.idle
    decreases SLOTS - i
  {
    if i < SLOTS {
      WakeKeepsIdle(WakeOne(k, i), i + 1);
    }
  }

  // ----- sleep -----

  /** A value stored in the compiler's 16-bit int. */
  function Int16(x: int): (r: int)
    ensures -0x8000 <= r < 0x8000
    ensures -0x8000 <= x < 0x8000 ==> r == x
    ensures (x - r) % 0x1_0000 == 0
  {
    (x + 0x8000) % 0x1_0000 - 0x8000
  }

  const TICKS_PER_SECOND: int := 125

  function FallAsleep(k: Kernel, seconds: int): Kernel
    requires k.Shaped()
  {
    SetRunning(k, RunningProc(k).(state := SLEEPING, sleepCounter := Int16(seconds * TICKS_PER_SECOND)))
  }

  /** The sleep call raises the timer interrupt itself. */
  function Sleep(k: Kernel, seconds: int, stackPointer: int): Kernel
    requires IdleNamed(k)
  {
    Tick(FallAsleep(k, seconds), stackPointer)
  }

  // ----- Runs -----

  datatype Op =
    | DoExec(found: bool, name: string)
    | DoTerminate
    | DoTick(stackPointer: int)
    | DoSleep(seconds: int, stackPointer: int)

  /** What can happen next.  A terminated process spins until the timer takes the
      processor away; only a live user process makes calls, apart from the
      programs started by the kernel itself. */
  ghost predicate Enabled(k: Kernel, op: Op)
    requires k.Shaped()
  {
    match op
    case DoExec(_, name) =>
      RunningProc(k).state != DEFUNCT && Stored(name) != IDLE_NAME
    case DoTerminate => k.running < SLOTS && k.procs[k.running].state == RUNNING
    case DoTick(_) => true
    case DoSleep(seconds, _) =>
      k.running < SLOTS && k.procs[k.running].state == RUNNING && Int16(seconds * TICKS_PER_SECOND) >= 2
  }

  function Step(k: Kernel, op: Op): Kernel
    requires IdleNamed(k) && (op.DoTerminate? ==> k.running < SLOTS)
  {
    match op
    case DoExec(found, name) => Exec(k, found, name).0
    case DoTerminate => Terminate(k)
    case DoTick(sp) => Tick(k, sp)
    case DoSleep(seconds, sp) => Sleep(k, seconds, sp)
  }
}
