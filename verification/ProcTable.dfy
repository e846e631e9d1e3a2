/** The process table as the kernel keeps it: eight control blocks linked into a
    ready queue by next and prev pointers, and a map of memory segments.  Each
    function is proved against SchedulerModel. */
module ProcTables {
  import opened SchedulerModel
  import opened SchedulerProperties

  class PCB {
    ghost const slot: nat   // position in the pool; IDLE for the idle process
    var name: string
    var state: State
    var segment: int
    var stackPointer: int
    var sleepCounter: int
    var next: PCB?
    var prev: PCB?

    constructor (ghost slot: nat)
      ensures this.slot == slot && next == null && prev == null
      ensures Value() == Proc("", DEFUNCT, 0, 0, 0)
    {
      this.slot := slot;
      name, state, segment, stackPointer, sleepCounter := "", DEFUNCT, 0, 0, 0;
      next, prev := null, null;
    }

    function Value(): Proc
      reads this
    {
      Proc(name, state, segment, stackPointer, sleepCounter)
    }
  }

  /** Neighbours in the queue point at each other. */
  ghost predicate Paired(pool: seq<PCB>, a: nat, b: nat, nexts: seq<PCB?>, prevs: seq<PCB?>)
    requires |pool| == |nexts| == |prevs| == SLOTS
  {
    a < SLOTS && b < SLOTS && nexts[a] == pool[b] && prevs[b] == pool[a]
  }

  /** The links spell out the queue.  Nothing is said about the tail's next
      pointer, nor about the next pointers of blocks outside the queue: the code
      leaves stale values in both. */
  ghost predicate Chain(pool: seq<PCB>, queue: seq<nat>, head: PCB?, tail: PCB?, nexts: seq<PCB?>, prevs: seq<PCB?>)
    requires |pool| == |nexts| == |prevs| == SLOTS
  {
    && Distinct(queue)
    && (forall i :: 0 <= i < |queue| ==> queue[i] < SLOTS)
    && head == (if queue == [] then null else pool[queue[0]])
    && tail == (if queue == [] then null else pool[queue[|queue| - 1]])
    && (forall i :: 0 <= i < |queue| - 1 ==> Paired(pool, queue[i], queue[i + 1], nexts, prevs))
    && (forall i :: 0 <= i < SLOTS && (i !in queue || i == queue[0]) ==> prevs[i] == null)
  }

  lemma ChainAppend(pool: seq<PCB>, queue: seq<nat>, head: PCB?, tail: PCB?, nexts: seq<PCB?>, prevs: seq<PCB?>,
                    p: nat)
    requires |pool| == |nexts| == |prevs| == SLOTS && p < SLOTS
    requires Chain(pool, queue, head, tail, nexts, prevs) && p !in queue
    ensures if queue == [] then Chain(pool, [p], pool[p], pool[p], nexts, prevs)
            else
              var last := queue[|queue| - 1];
              Chain(pool, queue + [p], head, pool[p], nexts[last := pool[p]], prevs[p := pool[last]])
  {
    if queue != [] {
      var last := queue[|queue| - 1];
      var q, n, v := queue + [p], nexts[last := pool[p]], prevs[p := pool[last]];
      forall i | 0 <= i < |q| - 1
        ensures Paired(pool, q[i], q[i + 1], n, v)
      {
        assert i < |queue| - 1 ==> Paired(pool, queue[i], queue[i + 1], nexts, prevs);
      }
    }
  }

  lemma ChainPop(pool: seq<PCB>, queue: seq<nat>, head: PCB?, tail: PCB?, nexts: seq<PCB?>, prevs: seq<PCB?>)
    requires |pool| == |nexts| == |prevs| == SLOTS
    requires Chain(pool, queue, head, tail, nexts, prevs) && queue != []
    ensures if |queue| == 1 then Chain(pool, queue[1..], null, null, nexts, prevs)
            else
              var n := if |queue| == 2 then nexts[queue[1] := null] else nexts;
              Chain(pool, queue[1..], pool[queue[1]], tail, n, prevs[queue[1] := null])
  {
    var q := queue[1..];
    assert queue == [queue[0]] + q;
    if |queue| > 1 {
      var n, v := if |queue| == 2 then nexts[queue[1] := null] else nexts, prevs[queue[1] := null];
      forall i | 0 <= i < |q| - 1
        ensures Paired(pool, q[i], q[i + 1], n, v)
      {
        assert Paired(pool, queue[i + 1], queue[i + 2], nexts, prevs);
      }
    }
  }

  lemma PrevOf(pool: seq<PCB>, queue: seq<nat>, head: PCB?, tail: PCB?, nexts: seq<PCB?>, prevs: seq<PCB?>, j: nat)
    requires |pool| == |nexts| == |prevs| == SLOTS
    requires Chain(pool, queue, head, tail, nexts, prevs) && j < |queue|
    ensures prevs[queue[j]] == if j == 0 then null else pool[queue[j - 1]]
    ensures j < |queue| - 1 ==> nexts[queue[j]] == pool[queue[j + 1]]
  {
    if j > 0 {
      assert Paired(pool, queue[j - 1], queue[j], nexts, prevs);
    }
    assert j < |queue| - 1 ==> Paired(pool, queue[j], queue[j + 1], nexts, prevs);
  }

  lemma ChainEnds(pool: seq<PCB>, queue: seq<nat>, head: PCB?, tail: PCB?, nexts: seq<PCB?>, prevs: seq<PCB?>)
    requires |pool| == |nexts| == |prevs| == SLOTS
    requires Chain(pool, queue, head, tail, nexts, prevs)
    ensures Distinct(queue) && forall i :: 0 <= i < |queue| ==> queue[i] < SLOTS
    ensures head == if queue == [] then null else pool[queue[0]]
    ensures tail == if queue == [] then null else pool[queue[|queue| - 1]]
    ensures forall i :: 0 <= i < SLOTS && i !in queue ==> prevs[i] == null
    ensures queue != [] ==> prevs[queue[0]] == null
  {
  }

  lemma UnlinkPaired(pool: seq<PCB>, queue: seq<nat>, nexts: seq<PCB?>, prevs: seq<PCB?>, n: seq<PCB?>, v: seq<PCB?>,
                     j: nat, i: nat)
    requires |pool| == |nexts| == |prevs| == |n| == |v| == SLOTS
    requires Distinct(queue) && j < |queue| && i < |queue| - 2
    requires forall m :: 0 <= m < |queue| ==> queue[m] < SLOTS
    requires forall m :: 0 <= m < |queue| - 1 ==> Paired(pool, queue[m], queue[m + 1], nexts, prevs)
    requires n == (if j == 0 then nexts
                   else nexts[queue[j - 1] := if j == |queue| - 1 then null
                     else pool[queue[j + 1]]])[queue[j] := null]
    requires v == (if j == |queue| - 1 then prevs
                   else prevs[queue[j + 1] := if j == 0 then null else pool[queue[j - 1]]])[queue[j] := null]
    ensures Paired(pool, queue[if i < j then i else i + 1], queue[if i + 1 < j then i + 1 else i + 2], n, v)
  {
    if i + 1 < j {
      assert Paired(pool, queue[i], queue[i + 1], nexts, prevs);
    } else if i >= j {
      assert Paired(pool, queue[i + 1], queue[i + 2], nexts, prevs);
    }
  }

  function Except(queue: seq<nat>, j: nat): seq<nat> {
    if j < |queue| then queue[..j] + queue[j + 1..] else queue
  }

  lemma ExceptParts(queue: seq<nat>, j: nat)
    requires Distinct(queue) && j < |queue|
    ensures var q := Except(queue, j);
            && |q| == |queue| - 1 && Distinct(q)
            && (forall i :: 0 <= i < |q| ==> q[i] == queue[if i < j then i else i + 1])
            && (forall p :: p in q <==> p in queue && p != queue[j])
  {
    var q := Except(queue, j);
    forall p | p in queue && p != queue[j]
      ensures p in q
    {
      var m :| 0 <= m < |queue| && queue[m] == p;
      assert q[if m < j then m else m - 1] == p;
    }
  }

  lemma UnlinkPrevs(pool: seq<PCB>, queue: seq<nat>, prevs: seq<PCB?>, v: seq<PCB?>, j: nat, i: nat)
    requires |pool| == |prevs| == |v| == SLOTS && i < SLOTS
    requires Distinct(queue) && j < |queue| && |queue| >= 2
    requires forall m :: 0 <= m < |queue| ==> queue[m] < SLOTS
    requires v == (if j == |queue| - 1 then prevs
                   else prevs[queue[j + 1] := if j == 0 then null else pool[queue[j - 1]]])[queue[j] := null]
    requires i !in queue || i == queue[0] ==> prevs[i] == null
    requires i !in queue || i == queue[j] || i == queue[if j == 0 then 1 else 0]
    ensures v[i] == null
  {
  }

  /** Taking the block at position j out of a queue of two or more. */
  lemma ChainUnlink(pool: seq<PCB>, queue: seq<nat>, head: PCB?, tail: PCB?, nexts: seq<PCB?>, prevs: seq<PCB?>,
                    j: nat)
    requires |pool| == |nexts| == |prevs| == SLOTS
    requires Chain(pool, queue, head, tail, nexts, prevs) && j < |queue| && |queue| >= 2
    ensures var p, last := queue[j], |queue| - 1;
            var after := if j == last then null else pool[queue[j + 1]];
            var before := if j == 0 then null else pool[queue[j - 1]];
            var nexts' := if j == 0 then nexts else nexts[queue[j - 1] := after];
            var prevs' := if j == last then prevs else prevs[queue[j + 1] := before];
            Chain(pool, Except(queue, j), if j == 0 then after else head, if j == last then before else tail,
                  nexts'[p := null], prevs'[p := null])
  {
    hide Except, Paired, Distinct;
    ExceptParts(queue, j);
    var p, last := queue[j], |queue| - 1;
    var q := Except(queue, j);
    var after := if j == last then null else pool[queue[j + 1]];
    var before := if j == 0 then null else pool[queue[j - 1]];
    var n := (if j == 0 then nexts else nexts[queue[j - 1] := after])[p := null];
    var v := (if j == last then prevs else prevs[queue[j + 1] := before])[p := null];
    forall i | 0 <= i < |q| - 1
      ensures Paired(pool, q[i], q[i + 1], n, v)
    {
      UnlinkPaired(pool, queue, nexts, prevs, n, v, j, i);
    }
    forall i | 0 <= i < SLOTS && (i !in q || i == q[0])
      ensures v[i] == null
    {
      UnlinkPrevs(pool, queue, prevs, v, j, i);
    }
  }

  lemma ChainRelease(pool: seq<PCB>, queue: seq<nat>, head: PCB?, tail: PCB?, nexts: seq<PCB?>, prevs: seq<PCB?>,
                     p: nat)
    requires |pool| == |nexts| == |prevs| == SLOTS && p < SLOTS && p !in queue
    requires Chain(pool, queue, head, tail, nexts, prevs)
    ensures Chain(pool, queue, head, tail, nexts[p := null], prevs)
    ensures prevs[p] == null && (queue != [] ==> prevs[queue[0]] == null)
  {
  }

  /** What closing the gap around block p and clearing its links does. */
  lemma ChainAfterRelease(pool: seq<PCB>, queue: seq<nat>, head: PCB?, tail: PCB?, nexts: seq<PCB?>,
                          prevs: seq<PCB?>, p: nat)
    returns (j: nat)
    requires |pool| == |nexts| == |prevs| == SLOTS && p < SLOTS
    requires forall i :: 0 <= i < SLOTS ==> pool[i].slot == i
    requires Chain(pool, queue, head, tail, nexts, prevs)
    requires p !in queue ==> nexts[p] == null || nexts[p] == head
    requires p in queue ==> |queue| >= 2 && (pool[p] == tail ==> nexts[p] == null)
    ensures if p in queue then j < |queue| && queue[j] == p else j == |queue|
    ensures var next, prev := nexts[p], prevs[p];
            && (next != null ==> next in pool) && (prev != null ==> prev in pool)
            && Chain(pool, Except(queue, j),
                     if prev == null && next != null then next else head,
                     if prev != null && next == null then prev else tail,
                     (if prev != null then nexts[prev.slot := next] else nexts)[p := null],
                     (if next != null then prevs[next.slot := prev] else prevs)[p := null])
  {
    hide Chain, Distinct;
    ChainEnds(pool, queue, head, tail, nexts, prevs);
    if p !in queue {
      j := |queue|;
      ChainRelease(pool, queue, head, tail, nexts, prevs, p);
      assert prevs[p := null] == prevs;
      if nexts[p] != null {
        assert prevs[head.slot := null] == prevs;
      }
    } else {
      j :| 0 <= j < |queue| && queue[j] == p;
      ChainUnlink(pool, queue, head, tail, nexts, prevs, j);
      PrevOf(pool, queue, head, tail, nexts, prevs, j);
    }
  }

  class ProcTable {
    const pcbPool: seq<PCB>
    const idleProc: PCB
    const memoryMap: array<bool>   // true is USED
    var running: PCB
    var readyHead: PCB?
    var readyTail: PCB?
    ghost var queue: seq<nat>      // the pool slots on the ready queue, in order

    ghost predicate Laid() {
      && |pcbPool| == SLOTS && memoryMap.Length == SLOTS
      && (forall i :: 0 <= i < SLOTS ==> pcbPool[i].slot == i)
      && idleProc.slot == IDLE
    }

    ghost function Nexts(): seq<PCB?>
      requires Laid()
      reads pcbPool
    {
      seq(SLOTS, i requires 0 <= i < SLOTS reads pcbPool => pcbPool[i].next)
    }

    ghost function Prevs(): seq<PCB?>
      requires Laid()
      reads pcbPool
    {
      seq(SLOTS, i requires 0 <= i < SLOTS reads pcbPool => pcbPool[i].prev)
    }

    ghost function Procs(): seq<Proc>
      requires Laid()
      reads pcbPool
    {
      seq(SLOTS, i requires 0 <= i < SLOTS reads pcbPool => pcbPool[i].Value())
    }

    ghost predicate LinksAre(nexts: seq<PCB?>, prevs: seq<PCB?>, procs: seq<Proc>)
      requires Laid()
      reads pcbPool
    {
      Nexts() == nexts && Prevs() == prevs && Procs() == procs
    }

    ghost predicate Linked()
      reads this, pcbPool
    {
      Laid() && Chain(pcbPool, queue, readyHead, readyTail, Nexts(), Prevs())
    }

    lemma QueueInRange()
      requires Linked()
      ensures forall i :: 0 <= i < |queue| ==> queue[i] < SLOTS
    {
    }

    ghost predicate Valid()
      reads this, pcbPool
    {
      Linked() && (running == idleProc || running in pcbPool)
    }

    ghost function Abs(): Kernel
      requires Laid()
      reads this, pcbPool, idleProc, memoryMap
    {
      Kernel(Procs(), idleProc.Value(), queue, running.slot, memoryMap[..])
    }

    constructor ()
      ensures Valid() && Abs() == BOOTED
      ensures forall i :: 0 <= i < SLOTS ==> Nexts()[i] == null
    {
      var pool: seq<PCB> := [];
      var i := 0;
      while i < SLOTS
        invariant 0 <= i == |pool| <= SLOTS
        invariant forall j :: 0 <= j < i ==>
                    && fresh(pool[j]) && pool[j].slot == j
                    && pool[j].next == null && pool[j].prev == null && pool[j].Value() == Proc("", DEFUNCT, 0, 0, 0)
      {
        var p := new PCB(i);
        pool := pool + [p];
        i := i + 1;
      }
      var idle := new PCB(IDLE);
      idle.name := IDLE_NAME;
      idle.state := READY;
      pcbPool := pool;
      idleProc := idle;
      memoryMap := new bool[SLOTS](_ => false);
      running := idle;
      readyHead, readyTail, queue := null, null, [];
    }

    // ----- Memory segments and free blocks -----

    method GetFreeMemorySegment() returns (s: int)
      requires Laid()
      modifies memoryMap
      ensures var free := FirstFree(old(memoryMap[..]), 0);
              if free == SLOTS then s == -1 && memoryMap[..] == old(memoryMap[..])
              else s == free && memoryMap[..] == old(memoryMap[..])[free := true]
    {
      var i := 0;
      while i < SLOTS
        invariant 0 <= i <= SLOTS
        invariant memoryMap[..] == old(memoryMap[..])
        invariant FirstFree(memoryMap[..], 0) == FirstFree(memoryMap[..], i)
      {
        if !memoryMap[i] {
          memoryMap[i] := true;
          return i;
        }
        i := i + 1;
      }
      return -1;
    }

    method ReleaseMemorySegment(s: nat)
      requires Laid() && s < SLOTS
      modifies memoryMap
      ensures memoryMap[..] == old(memoryMap[..])[s := false]
    {
      memoryMap[s] := false;
    }

    method GetFreePCB() returns (p: PCB?)
      requires Laid()
      modifies pcbPool
      ensures Nexts() == old(Nexts()) && Prevs() == old(Prevs())
      ensures var procs := old(Procs());
              var free := FirstDefunct(procs, 0);
              if free == SLOTS then p == null && Procs() == procs
              else p == pcbPool[free] && Procs() == procs[free := procs[free].(state := STARTING)]
    {
      ghost var procs := Procs();
      var i := 0;
      while i < SLOTS
        invariant 0 <= i <= SLOTS
        invariant FirstDefunct(procs, 0) == FirstDefunct(procs, i)
        modifies {}
      {
        if pcbPool[i].state == DEFUNCT {
          break;
        }
        i := i + 1;
      }
      if i == SLOTS {
        return null;
      }
      pcbPool[i].state := STARTING;
      assert Procs() == procs[i := procs[i].(state := STARTING)];
      return pcbPool[i];
    }

    // ----- Field assignments, as changes of the pool -----

    method SetState(pcb: PCB, s: State)
      requires Laid() && pcb in pcbPool
      modifies pcbPool
      ensures LinksAre(old(Nexts()), old(Prevs()), old(Procs())[pcb.slot := old(Procs())[pcb.slot].(state := s)])
    {
      pcb.state := s;
    }

    method SetSleepCounter(pcb: PCB, x: int)
      requires Laid() && pcb in pcbPool
      modifies pcbPool
      ensures LinksAre(old(Nexts()), old(Prevs()),
          old(Procs())[pcb.slot := old(Procs())[pcb.slot].(sleepCounter := x)])
    {
      pcb.sleepCounter := x;
    }

    method SetProgram(pcb: PCB, name: string, segment: int)
      requires Laid() && pcb in pcbPool
      modifies pcbPool
      ensures LinksAre(old(Nexts()), old(Prevs()),
                       old(Procs())[pcb.slot := Proc(Stored(name), STARTING, segment, 0xFF00, old(pcb.sleepCounter))])
    {
      pcb.name := Stored(name);
      pcb.state := STARTING;
      pcb.segment := segment;
      pcb.stackPointer := 0xFF00;
    }

    method SetNext(pcb: PCB, to: PCB?)
      requires Laid() && pcb in pcbPool
      modifies pcbPool
      ensures LinksAre(old(Nexts())[pcb.slot := to], old(Prevs()), old(Procs()))
    {
      pcb.next := to;
    }

    method SetPrev(pcb: PCB, to: PCB?)
      requires Laid() && pcb in pcbPool
      modifies pcbPool
      ensures LinksAre(old(Nexts()), old(Prevs())[pcb.slot := to], old(Procs()))
    {
      pcb.prev := to;
    }

    // ----- The ready queue -----

    /** The queue has elements: one, or two or more. */
    method LinkBehindTail(pcb: PCB)
      requires Laid() && pcb in pcbPool && readyHead != null && readyTail != null
      requires readyHead in pcbPool && readyTail in pcbPool
      modifies this`readyTail, pcbPool
      ensures readyTail == pcb
      ensures Nexts() == old(Nexts())[old(readyTail.slot) := pcb]
      ensures Prevs() == old(Prevs())[pcb.slot := old(readyTail)]
      ensures Procs() == old(Procs())
    {
      if readyHead == readyTail {
        SetNext(readyHead, pcb);
        readyTail := pcb;
        SetPrev(readyTail, readyHead);
      } else {
        SetPrev(pcb, readyTail);
        SetNext(readyTail, pcb);
        readyTail := pcb;
      }
    }

    method AddToReady(pcb: PCB)
      requires Linked() && pcb in pcbPool && pcb.slot !in queue
      modifies this`readyHead, this`readyTail, this`queue, pcbPool
      ensures Linked() && queue == old(queue) + [pcb.slot]
      ensures Procs() == old(Procs())
      ensures Nexts() == if old(queue) == [] then old(Nexts()) else old(Nexts())[old(queue)[|old(queue)| - 1] := pcb]
    {
      ghost var p, nexts, prevs := pcb.slot, Nexts(), Prevs();
      hide Chain, Distinct;
      assert pcb == pcbPool[p];
      ChainEnds(pcbPool, queue, readyHead, readyTail, nexts, prevs);
      ChainAppend(pcbPool, queue, readyHead, readyTail, nexts, prevs, p);
      queue := queue + [p];
      if readyHead == null {
        readyTail := pcb;
        readyHead := pcb;
        assert queue == [p];
      } else {
        LinkBehindTail(pcb);
      }
    }

    method RemoveFromReady() returns (temp: PCB?)
      requires Linked()
      modifies this`readyHead, this`readyTail, this`queue, pcbPool
      ensures Linked() && Procs() == old(Procs())
      ensures var q := old(queue);
              if q == [] then temp == null && queue == [] && Nexts() == old(Nexts())
              else
                && temp == pcbPool[q[0]] && queue == q[1..]
                && Nexts() == if |q| == 2 then old(Nexts())[q[1] := null] else old(Nexts())
    {
      ghost var q, nexts, prevs := queue, Nexts(), Prevs();
      if readyHead == null {
        return null;
      }
      ChainPop(pcbPool, q, readyHead, readyTail, nexts, prevs);
      PrevOf(pcbPool, q, readyHead, readyTail, nexts, prevs, 0);
      assert readyHead == readyTail <==> |q| == 1;
      assert |q| > 1 ==> readyHead.next == pcbPool[q[1]] && (readyHead.next == readyTail <==> |q| == 2);
      hide Chain;
      temp := readyHead;
      queue := queue[1..];
      if readyHead == readyTail {
        readyHead := null;
        readyTail := null;
        assert Nexts() == nexts && Prevs() == prevs;
      } else if readyHead.next == readyTail {
        readyHead.next.prev := null;
        readyHead := readyHead.next;
        readyTail.prev := null;
        readyHead.next := null;
        assert Nexts() == nexts[q[1] := null] && Prevs() == prevs[q[1] := null];
      } else {
        readyHead := readyHead.next;
        readyHead.prev := null;
        assert Nexts() == nexts && Prevs() == prevs[q[1] := null];
      }
    }

    /** Closes the gap around `pcb`. */
    method Unlink(pcb: PCB)
      requires Laid()
      requires (pcb.prev != null ==> pcb.prev in pcbPool) && (pcb.next != null ==> pcb.next in pcbPool)
      modifies this`readyHead, this`readyTail, pcbPool
      ensures readyHead == if old(pcb.prev == null && pcb.next != null) then old(pcb.next) else old(readyHead)
      ensures readyTail == if old(pcb.prev != null && pcb.next == null) then old(pcb.prev) else old(readyTail)
      ensures Nexts() == if old(pcb.prev) != null then old(Nexts())[old(pcb.prev.slot) := old(pcb.next)]
          else old(Nexts())
      ensures Prevs() == if old(pcb.next) != null then old(Prevs())[old(pcb.next.slot) := old(pcb.prev)]
          else old(Prevs())
      ensures Procs() == old(Procs())
    {
      if pcb.prev == null && pcb.next != null {
        readyHead := pcb.next;
        readyHead.prev := null;
      } else if pcb.prev != null && pcb.next != null {
        ghost var next, prev := pcb.next, pcb.prev;
        pcb.next.prev := pcb.prev;
        pcb.prev.next := pcb.next;
      } else if pcb.prev != null && pcb.next == null {
        readyTail := pcb.prev;
        readyTail.next := null;
      }
    }

    method Retire(pcb: PCB)
      requires Laid() && pcb in pcbPool
      modifies pcbPool
      ensures Nexts() == old(Nexts()) && Prevs() == old(Prevs())
      ensures Procs() == old(Procs())[pcb.slot := old(pcb.Value()).(state := DEFUNCT, name := "")]
    {
      pcb.state := DEFUNCT;
      pcb.name := "";
    }

    method ClearLinks(pcb: PCB)
      requires Laid() && pcb in pcbPool
      modifies pcbPool
      ensures Nexts() == old(Nexts())[pcb.slot := null] && Prevs() == old(Prevs())[pcb.slot := null]
      ensures Procs() == old(Procs())
    {
      pcb.next := null;
      pcb.prev := null;
    }

    /** Releases a block that is not queued and whose next pointer, if stale,
        points at the head; or takes a queued block out of a queue of two or more,
        provided a tail has no stale next pointer. */
    method ReleasePCB(pcb: PCB) returns (ghost j: nat)
      requires Linked() && pcb in pcbPool
      requires pcb.slot !in queue ==> pcb.next == null || pcb.next == readyHead
      requires pcb.slot in queue ==> |queue| >= 2 && (pcb == readyTail ==> pcb.next == null)
      modifies this`readyHead, this`readyTail, this`queue, pcbPool
      ensures Linked() && pcb.next == null
      ensures if pcb.slot in old(queue) then j < |old(queue)| && old(queue)[j] == pcb.slot else j == |old(queue)|
      ensures queue == Except(old(queue), j)
      ensures Procs() == old(Procs())[pcb.slot := old(pcb.Value()).(state := DEFUNCT, name := "")]
      ensures pcb.slot !in old(queue) ==> Nexts() == old(Nexts())[pcb.slot := null]
    {
      ghost var p, nexts, prevs := pcb.slot, Nexts(), Prevs();
      assert pcb == pcbPool[p];
      hide Chain, Distinct;
      j := ChainAfterRelease(pcbPool, queue, readyHead, readyTail, nexts, prevs, p);
      queue := Except(queue, j);
      Retire(pcb);
      Unlink(pcb);
      ClearLinks(pcb);
      assert Nexts()[p] == null;
    }
  }
}
