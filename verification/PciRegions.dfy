/** The BIOS giving addresses to PCI regions: three bump pointers, one per arena,
    each rounded up to the region's size. */
module PciRegions {
  import opened Bits

  const REGIONS: nat := 7
  const SPACE_IO: Word := 1
  const BIG: Word := 0x0400_0000
  const IO_START: Word := 0xc000
  const MEM_START: Word := 0xc000_0000
  const BIG_START: Word := 0x9000_0000

  datatype Arena = Io | Mem | BigMem

  /** What a region register reads back after all ones were written to it. */
  datatype Probe = Probe(device: nat, slot: nat, value: Word)

  datatype Region = Region(device: nat, slot: nat, arena: Arena, addr: Word, size: Word)

  datatype Cursors = Cursors(io: Word, mem: Word, big: Word) {
    function At(arena: Arena): Word {
      match arena case Io => io case Mem => mem case BigMem => big
    }

    function Moved(arena: Arena, next: Word): Cursors {
      match arena
      case Io => this.(io := next)
      case Mem => this.(mem := next)
      case BigMem => this.(big := next)
    }
  }

  /** ~(value & ~0xf) + 1 */
  function SizeOf(value: Word): Word { Add(Not(And(value, Not(0xf))), 1) }

  function ArenaOf(value: Word): Arena {
    if And(value, SPACE_IO) != 0 then Io else if SizeOf(value) >= BIG then BigMem else Mem
  }

  function Place(c: Cursors, p: Probe): Region {
    Region(p.device, p.slot, ArenaOf(p.value), RoundUp(c.At(ArenaOf(p.value)), SizeOf(p.value)), SizeOf(p.value))
  }

  function After(c: Cursors, p: Probe): Cursors {
    if p.value == 0 then c else c.Moved(ArenaOf(p.value), Add(Place(c, p).addr, SizeOf(p.value)))
  }

  /** The regions in the order they are given, over any devices. */
  function Assign(c: Cursors, probes: seq<Probe>): seq<Region>
    decreases |probes|
  {
    if probes == [] then []
    else (if probes[0].value == 0 then [] else [Place(c, probes[0])]) + Assign(After(c, probes[0]), probes[1..])
  }

  function AfterAll(c: Cursors, probes: seq<Probe>): Cursors
    decreases |probes|
  {
    if probes == [] then c else AfterAll(After(c, probes[0]), probes[1..])
  }

  // ----- What is required of the devices -----

  /** Neither rounding up nor stepping over the region wraps at 32 bits. */
  predicate NoWrap(p: Word, size: Word) {
    p + size - 1 < WRAP && RoundUp(p, size) + size < WRAP
  }

  predicate Roomy(c: Cursors, probes: seq<Probe>)
    decreases |probes|
  {
    probes == [] ||
    (&& (probes[0].value != 0 ==>
           PowerOfTwo(SizeOf(probes[0].value)) && NoWrap(c.At(ArenaOf(probes[0].value)), SizeOf(probes[0].value)))
     && Roomy(After(c, probes[0]), probes[1..]))
  }

  // ----- Properties -----

  /** Region a ends before region b begins. */
  predicate Before(a: Region, b: Region) { a.addr + a.size <= b.addr }

  /** A region is as its registers want it, between two positions of its arena's cursor. */
  predicate Within(r: Region, from: int, to: int) {
    && PowerOfTwo(r.size) && r.addr % r.size == 0
    && from <= r.addr && r.addr + r.size <= to
  }

  /** One region: aligned, above everything its arena has given out, and the
      cursor past it. */
  lemma {:induction false} PlaceFacts(c: Cursors, p: Probe)
    requires p.value != 0 && PowerOfTwo(SizeOf(p.value)) && NoWrap(c.At(ArenaOf(p.value)), SizeOf(p.value))
    ensures var r := Place(c, p);
            Within(r, c.At(r.arena), After(c, p).At(r.arena))
    ensures forall a :: c.At(a) <= After(c, p).At(a)
  {
    hide SizeOf, ArenaOf, RoundUp, PowerOfTwo;
    RoundsUp(c.At(ArenaOf(p.value)), SizeOf(p.value));
  }

  /** Over any devices and regions: every region given is aligned and lies
      between where its arena's cursor was and where it ends. */
  lemma {:induction false} AssignedWithin(c: Cursors, probes: seq<Probe>)
    requires Roomy(c, probes)
    ensures forall a :: c.At(a) <= AfterAll(c, probes).At(a)
    ensures forall r :: r in Assign(c, probes) ==> Within(r, c.At(r.arena), AfterAll(c, probes).At(r.arena))
    decreases |probes|
  {
    hide Place, After, PowerOfTwo, NoWrap, SizeOf, ArenaOf, Within;
    if probes != [] {
      var next, end := After(c, probes[0]), AfterAll(c, probes);
      AssignedWithin(next, probes[1..]);
      if probes[0].value != 0 {
        PlaceFacts(c, probes[0]);
        forall r | r in Assign(c, probes)
          ensures Within(r, c.At(r.arena), end.At(r.arena))
        {
          if r in Assign(next, probes[1..]) {
            WithinWider(r, next.At(r.arena), end.At(r.arena), c.At(r.arena), end.At(r.arena));
          } else {
            WithinWider(r, c.At(r.arena), next.At(r.arena), c.At(r.arena), end.At(r.arena));
          }
        }
      } else {
        Unmoved(c, probes[0]);
      }
    }
  }

  lemma WithinWider(r: Region, from: int, to: int, from': int, to': int)
    requires Within(r, from, to) && from' <= from && to <= to'
    ensures Within(r, from', to')
  {
    hide PowerOfTwo;
  }

  lemma WithinBefore(a: Region, b: Region, from: int, mid: int, mid': int, to: int)
    requires Within(a, from, mid) && mid <= mid' && Within(b, mid', to)
    ensures Before(a, b)
  {
    hide PowerOfTwo;
  }

  lemma Unmoved(c: Cursors, p: Probe)
    requires p.value == 0
    ensures After(c, p) == c
  {
  }

  ghost predicate Disjoint(rs: seq<Region>) {
    forall i, j :: 0 <= i < j < |rs| && rs[i].arena == rs[j].arena ==> Before(rs[i], rs[j])
  }

  /** No two regions of one arena overlap. */
  lemma {:induction false} AssignedDisjoint(c: Cursors, probes: seq<Probe>)
    requires Roomy(c, probes)
    ensures Disjoint(Assign(c, probes))
    decreases |probes|
  {
    hide Place, After, PowerOfTwo, NoWrap, SizeOf, ArenaOf, Within, Before;
    if probes != [] {
      var next, end := After(c, probes[0]), AfterAll(c, probes);
      AssignedDisjoint(next, probes[1..]);
      AssignedWithin(next, probes[1..]);
      if probes[0].value != 0 {
        PlaceFacts(c, probes[0]);
        var rs, rest := Assign(c, probes), Assign(next, probes[1..]);
        forall i, j | 0 <= i < j < |rs| && rs[i].arena == rs[j].arena
          ensures Before(rs[i], rs[j])
        {
          assert rs == [Place(c, probes[0])] + rest;
          assert rs[j] == rest[j - 1] && rs[j] in rest;
          if i > 0 {
            assert rs[i] == rest[i - 1];
          } else {
            assert rs[i] == Place(c, probes[0]);
            var a := rs[j].arena;
            WithinBefore(rs[i], rs[j], c.At(a), next.At(a), next.At(a), end.At(a));
          }
        }
      } else {
        assert Assign(c, probes) == Assign(next, probes[1..]);
      }
    }
  }

  // ----- Two arenas, one address space -----

  predicate Overlap(a: Region, b: Region) {
    a.addr < b.addr + b.size && b.addr < a.addr + a.size
  }

  ghost predicate Apart(rs: seq<Region>) {
    forall a, b :: a in rs && b in rs && a.arena == BigMem && b.arena == Mem ==> !Overlap(a, b)
  }

  /** The probes that go to one arena. */
  function Only(probes: seq<Probe>, arena: Arena): seq<Probe> {
    if probes == [] then []
    else
      (if probes[0].value != 0
        && ArenaOf(probes[0].value) == arena then [probes[0]] else []) + Only(probes[1..], arena)
  }

  /** An arena depends on its own probes alone. */
  lemma {:induction false} ArenasSeparate(c: Cursors, d: Cursors, probes: seq<Probe>, arena: Arena)
    requires c.At(arena) == d.At(arena)
    ensures AfterAll(c, probes).At(arena) == AfterAll(d, Only(probes, arena)).At(arena)
    ensures forall r :: r in Assign(d, Only(probes, arena)) <==> r in Assign(c, probes) && r.arena == arena
    decreases |probes|
  {
    hide SizeOf, ArenaOf, RoundUp;
    if probes != [] {
      var p, rest := probes[0], probes[1..];
      if p.value != 0 && ArenaOf(p.value) == arena {
        ArenasSeparate(After(c, p), After(d, p), rest, arena);
        assert Only(probes, arena) == [p] + Only(rest, arena);
        assert ([p] + Only(rest, arena))[1..] == Only(rest, arena);
        assert Place(c, p) == Place(d, p);
      } else {
        ArenasSeparate(After(c, p), d, rest, arena);
        assert Only(probes, arena) == Only(rest, arena);
      }
    }
  }

  lemma BigIsPow2()
    ensures Pow2(26) == BIG
  {
    assert Pow2(10) == 0x400;
    assert Pow2(20) == 0x10_0000;
  }

  lemma SmallerExponent(size: Word, k: nat)
    requires k < 32 && Pow2(k) == size
    ensures size < BIG ==> k <= 26
    ensures size >= BIG ==> k >= 26
  {
    hide Pow2;
    BigIsPow2();
    if k >= 26 {
      Pow2Grows(26, k);
    } else {
      Pow2Grows(k, 25);
      HalfOfBig();
    }
  }

  lemma HalfOfBig()
    ensures Pow2(25) < BIG
  {
    BigIsPow2();
  }

  /** Small regions start at every multiple of BIG they reach. */
  lemma MeetsMultiple(p: Word, size: Word, x: int)
    requires PowerOfTwo(size) && size < BIG && p + size - 1 < WRAP && p <= x && x % BIG == 0
    ensures RoundUp(p, size) <= x
    ensures x < RoundUp(p, size) + size ==> x == RoundUp(p, size)
  {
    hide Pow2, RoundUp;
    var k: nat :| k < 32 && Pow2(k) == size;
    SmallerExponent(size, k);
    BigIsPow2();
    SmallerDivides(x, k, 26);
    RoundsUp(p, size);
    var r := RoundUp(p, size);
    if x < r {
      MultiplesApart(x, r, size);
    }
    if r < x {
      MultiplesApart(r, x, size);
    }
  }

  lemma {:induction false} MemStartsAt(c: Cursors, probes: seq<Probe>, x: int)
    requires Roomy(c, probes) && c.mem <= x < AfterAll(c, probes).mem && x % BIG == 0
    ensures exists r :: r in Assign(c, probes) && r.arena == Mem && r.addr == x
    decreases |probes|
  {
    hide SizeOf, RoundUp, PowerOfTwo;
    if probes != [] {
      var p, next := probes[0], After(c, probes[0]);
      if p.value != 0 && ArenaOf(p.value) == Mem {
        MeetsMultiple(c.mem, SizeOf(p.value), x);
        if x < next.mem {
          assert Place(c, p) in Assign(c, probes);
        }
      }
      if x >= next.mem {
        MemStartsAt(next, probes[1..], x);
      }
    }
  }

  lemma {:induction false} BigIsAligned(c: Cursors, probes: seq<Probe>)
    requires Roomy(c, probes)
    ensures forall r :: r in Assign(c, probes) && r.arena == BigMem ==> r.addr % BIG == 0 && r.size > 0
    decreases |probes|
  {
    hide RoundUp, Pow2, SizeOf;
    if probes != [] {
      BigIsAligned(After(c, probes[0]), probes[1..]);
      var p := probes[0];
      if p.value != 0 && ArenaOf(p.value) == BigMem {
        PlaceFacts(c, p);
        var size := SizeOf(p.value);
        var k: nat :| k < 32 && Pow2(k) == size;
        SmallerExponent(size, k);
        BigIsPow2();
        SmallerDivides(Place(c, p).addr, 26, k);
      }
    }
  }

  /** A big region that reaches into the small arena meets one of its regions. */
  lemma BigMeetsSmall(c: Cursors, probes: seq<Probe>, r: Region) returns (m: Region)
    requires Roomy(c, probes) && c.mem % BIG == 0 && r.addr % BIG == 0 && r.size > 0
    requires r.addr < AfterAll(c, probes).mem && c.mem < r.addr + r.size && c.mem != AfterAll(c, probes).mem
    ensures m in Assign(c, probes) && m.arena == Mem && Overlap(r, m)
  {
    AssignedWithin(c, probes);
    hide Assign, AfterAll, Roomy, Within;
    var x := if r.addr <= c.mem then c.mem else r.addr;
    assert c.At(Mem) <= AfterAll(c, probes).At(Mem);
    MemStartsAt(c, probes, x);
    m :| m in Assign(c, probes) && m.arena == Mem && m.addr == x;
    WithinBounds(m, c.mem, AfterAll(c, probes).mem);
  }

  /** The small and the big memory arena stay apart exactly when, as scanning each
      arena's probes alone tells, the small one gives out nothing or every big
      region ends where the small arena starts or starts where it ends. */
  lemma {:induction false} MemoryApartIff(c: Cursors, probes: seq<Probe>)
    requires Roomy(c, probes) && c.mem % BIG == 0
    ensures var end := AfterAll(c, Only(probes, Mem)).mem;
            Apart(Assign(c, probes)) <==>
              end == c.mem
              || forall r :: r in Assign(c, Only(probes, BigMem)) ==> r.addr + r.size <= c.mem || end <= r.addr
  {
    hide Assign, AfterAll, Only, Roomy, Within;
    ArenasSeparate(c, c, probes, Mem);
    ArenasSeparate(c, c, probes, BigMem);
    AssignedWithin(c, probes);
    BigIsAligned(c, probes);
    var rs, end := Assign(c, probes), AfterAll(c, probes).mem;
    forall r | r in rs && r.arena == Mem
      ensures c.mem <= r.addr && 0 < r.size && r.addr + r.size <= end
    {
      WithinBounds(r, c.mem, end);
    }
    if Apart(rs) && end != c.mem {
      forall r | r in rs && r.arena == BigMem
        ensures r.addr + r.size <= c.mem || end <= r.addr
      {
        if r.addr < end && c.mem < r.addr + r.size {
          var m := BigMeetsSmall(c, probes, r);
        }
      }
    }
  }

  lemma WithinBounds(r: Region, from: int, to: int)
    requires Within(r, from, to)
    ensures from <= r.addr && 0 < r.size && r.addr + r.size <= to
  {
  }

  /** And need not beyond that: a 512 MB region makes the second 512 MB region
      start where the small arena does. */
  lemma {:induction false} MemoryArenasCanCollide()
    ensures var c := Cursors(IO_START, MEM_START, BIG_START);
            var p, q, s := Probe(0, 0, 0xe000_0000), Probe(0, 1, 0xe000_0000), Probe(0, 2, 0xffff_f000);
            && Roomy(c, [p, q, s])
            && Assign(c, [p, q, s]) == [Region(0, 0, BigMem, 0xa000_0000, 0x2000_0000),
                                        Region(0, 1, BigMem, 0xc000_0000, 0x2000_0000),
                                        Region(0, 2, Mem, 0xc000_0000, 0x1000)]
  {
    hide SizeOf, RoundUp, PowerOfTwo, ArenaOf, NoWrap, Place, After, Assign, Roomy;
    var c := Cursors(IO_START, MEM_START, BIG_START);
    var p, q, s := Probe(0, 0, 0xe000_0000), Probe(0, 1, 0xe000_0000), Probe(0, 2, 0xffff_f000);
    CollidingSizes();
    var c1, c2 := Cursors(IO_START, MEM_START, 0xc000_0000), Cursors(IO_START, MEM_START, 0xe000_0000);
    PlacedAt(c, p, 0x2000_0000, BigMem, 0xa000_0000);
    PlacedAt(c1, q, 0x2000_0000, BigMem, 0xc000_0000);
    PlacedAt(c2, s, 0x1000, Mem, 0xc000_0000);
    OneThenRest(c2, s, []);
    OneThenRest(c1, q, [s]);
    OneThenRest(c, p, [q, s]);
    Nothing(After(c2, s));
    assert [s] + [] == [s] && [q] + [s] == [q, s] && [p] + [q, s] == [p, q, s];
  }

  lemma PlacedAt(c: Cursors, p: Probe, size: Word, arena: Arena, addr: Word)
    requires p.value != 0 && SizeOf(p.value) == size && ArenaOf(p.value) == arena && PowerOfTwo(size)
    requires addr % size == 0 && c.At(arena) <= addr < c.At(arena) + size && addr + size < WRAP
    ensures Place(c, p) == Region(p.device, p.slot, arena, addr, size)
    ensures After(c, p) == c.Moved(arena, addr + size) && NoWrap(c.At(arena), size)
  {
    hide SizeOf, RoundUp, PowerOfTwo, ArenaOf;
    var r := RoundUp(c.At(arena), size);
    RoundsUp(c.At(arena), size);
    if addr < r {
      MultiplesApart(addr, r, size);
    } else if r < addr {
      MultiplesApart(r, addr, size);
    }
  }

  lemma OneThenRest(c: Cursors, p: Probe, rest: seq<Probe>)
    requires p.value != 0
    ensures Assign(c, [p] + rest) == [Place(c, p)] + Assign(After(c, p), rest)
    ensures Roomy(c, [p] + rest) <==>
              PowerOfTwo(SizeOf(p.value)) && NoWrap(c.At(ArenaOf(p.value)), SizeOf(p.value))
                && Roomy(After(c, p), rest)
  {
    hide Place, After, NoWrap, PowerOfTwo, SizeOf, ArenaOf;
    assert ([p] + rest)[1..] == rest;
  }

  lemma CollidingSizes()
    ensures SizeOf(0xe000_0000) == 0x2000_0000 && ArenaOf(0xe000_0000) == BigMem && PowerOfTwo(0x2000_0000)
    ensures SizeOf(0xffff_f000) == 0x1000 && ArenaOf(0xffff_f000) == Mem && PowerOfTwo(0x1000)
  {
    hide SizeOf, ArenaOf, PowerOfTwo;
    SizeIs(0xe000_0000);
    SizeIs(0xffff_f000);
    TwoPowers();
  }

  lemma TwoPowers()
    ensures PowerOfTwo(0x2000_0000) && PowerOfTwo(0x1000)
  {
    assert Pow2(4) == 0x10 && Pow2(12) == 0x1000;
    assert Pow2(20) == 0x10_0000;
    assert Pow2(29) == 0x2000_0000;
  }

  lemma SizeIs(value: Word)
    ensures SizeOf(value) == (0x1_0000_0000 - (value - value % 16)) % 0x1_0000_0000
    ensures ArenaOf(value) == if value % 2 == 1 then Io else if SizeOf(value) >= 0x0400_0000 then BigMem else Mem
  {
    hide And, Pow2;
    WordIsPow2();
    SixteenIsPow2();
    MaskRoundsDown(value, 4, 32);
    LowBit(value);
  }

  lemma SixteenIsPow2()
    ensures Pow2(4) == 0x10
  {
  }

  lemma LowBit(value: Word)
    ensures And(value, 1) == value % 2
  {
    assert value != 0 ==> And(value / 2, 0) == 0;
  }

  lemma {:induction false} AssignSplits(c: Cursors, a: seq<Probe>, b: seq<Probe>)
    ensures Assign(c, a + b) == Assign(c, a) + Assign(AfterAll(c, a), b)
    ensures AfterAll(c, a + b) == AfterAll(AfterAll(c, a), b)
    decreases |a|
  {
    hide Place, After;
    if a == [] {
      assert a + b == b;
    } else {
      assert (a + b)[1..] == a[1..] + b;
      AssignSplits(After(c, a[0]), a[1..], b);
    }
  }

  // ----- The BIOS -----

  /** The registers of device d read back. */
  function Probes(d: nat, readback: seq<Word>, n: nat): seq<Probe>
    requires n <= |readback|
  {
    if n == 0 then [] else Probes(d, readback, n - 1) + [Probe(d, n - 1, readback[n - 1])]
  }

  function AllProbes(devices: seq<seq<Word>>, n: nat): seq<Probe>
    requires n <= |devices| && forall d :: 0 <= d < |devices| ==> |devices[d]| == REGIONS
  {
    if n == 0 then [] else AllProbes(devices, n - 1) + Probes(n - 1, devices[n - 1], REGIONS)
  }

  // ----- What the devices get, read off their registers -----

  predicate Precedes(d: nat, i: nat, e: nat, j: nat) { d < e || (d == e && i < j) }

  /** The region is of the size and kind a register reading back `value` asks for. */
  predicate Asked(value: Word, r: Region) {
    && value != 0 && r.size == (0x1_0000_0000 - (value - value % 16)) % 0x1_0000_0000
    && r.arena == if value % 2 == 1 then Io else if r.size >= 0x0400_0000 then BigMem else Mem
  }

  ghost predicate Holds(rs: seq<Region>, d: nat, i: nat) {
    exists k :: 0 <= k < |rs| && rs[k].device == d && rs[k].slot == i
  }

  /** Each register that read back anything has one region, of its size and kind,
      no other register has any, and they come in order. */
  ghost predicate Served(devices: seq<seq<Word>>, rs: seq<Region>)
    requires forall d :: 0 <= d < |devices| ==> |devices[d]| == 7
  {
    && Sorted(rs)
    && (forall k :: 0 <= k < |rs| ==>
          rs[k].device < |devices| && rs[k].slot < 7 && Asked(devices[rs[k].device][rs[k].slot], rs[k]))
    && (forall d, i :: 0 <= d < |devices| && 0 <= i < 7 ==> (devices[d][i] != 0 <==> Holds(rs, d, i)))
  }

  lemma ProbeAt(d: nat, readback: seq<Word>, n: nat)
    requires n <= |readback|
    ensures |Probes(d, readback, n)| == n
    ensures forall i :: 0 <= i < n ==> Probes(d, readback, n)[i] == Probe(d, i, readback[i])
  {
  }

  lemma {:induction false} AllProbesAt(devices: seq<seq<Word>>, n: nat)
    requires n <= |devices| && forall d :: 0 <= d < |devices| ==> |devices[d]| == 7
    ensures |AllProbes(devices, n)| == 7 * n
    ensures forall k :: 0 <= k < 7 * n ==> AllProbes(devices, n)[k] == Probe(k / 7, k % 7, devices[k / 7][k % 7])
  {
    hide Probes;
    if n > 0 {
      AllProbesAt(devices, n - 1);
      ProbeAt(n - 1, devices[n - 1], 7);
    }
  }

  predicate FromProbe(p: Probe, r: Region) {
    r.device == p.device && r.slot == p.slot && Asked(p.value, r)
  }

  lemma PlacedFrom(c: Cursors, p: Probe)
    requires p.value != 0
    ensures FromProbe(p, Place(c, p))
  {
    hide SizeOf, ArenaOf, RoundUp;
    SizeIs(p.value);
  }

  lemma AssignUnfolds(c: Cursors, p: Probe, rest: seq<Probe>)
    ensures Assign(c, [p] + rest) == (if p.value == 0 then [] else [Place(c, p)]) + Assign(After(c, p), rest)
  {
    assert ([p] + rest)[1..] == rest;
  }

  ghost predicate Sourced(probes: seq<Probe>, r: Region) {
    exists p :: p in probes && FromProbe(p, r)
  }

  lemma {:induction false} AssignedSourced(c: Cursors, probes: seq<Probe>)
    ensures forall r :: r in Assign(c, probes) ==> Sourced(probes, r)
    decreases |probes|
  {
    hide Place, After, FromProbe, Assign;
    if probes == [] {
      Nothing(c);
    } else {
      var p, rest := probes[0], probes[1..];
      assert [p] + rest == probes;
      AssignUnfolds(c, p, rest);
      AssignedSourced(After(c, p), rest);
      if p.value != 0 {
        PlacedFrom(c, p);
      }
    }
  }

  lemma {:induction false} AssignedAll(c: Cursors, probes: seq<Probe>, p: Probe)
    requires p in probes && p.value != 0
    ensures exists r :: r in Assign(c, probes) && FromProbe(p, r)
    decreases |probes|
  {
    hide Place, After, FromProbe, Assign;
    var rest := probes[1..];
    assert [probes[0]] + rest == probes;
    AssignUnfolds(c, probes[0], rest);
    if p == probes[0] {
      PlacedFrom(c, p);
      assert Place(c, p) in Assign(c, probes);
    } else {
      AssignedAll(After(c, probes[0]), rest, p);
      var r :| r in Assign(After(c, probes[0]), rest) && FromProbe(p, r);
      assert r in Assign(c, probes);
    }
  }

  ghost predicate Sorted(rs: seq<Region>) {
    forall i, j :: 0 <= i < j < |rs| ==> Precedes(rs[i].device, rs[i].slot, rs[j].device, rs[j].slot)
  }

  lemma SortedFront(f: Region, rest: seq<Region>)
    requires Sorted(rest) && forall r :: r in rest ==> Precedes(f.device, f.slot, r.device, r.slot)
    ensures Sorted([f] + rest)
  {
    var rs := [f] + rest;
    forall i, j | 0 <= i < j < |rs|
      ensures Precedes(rs[i].device, rs[i].slot, rs[j].device, rs[j].slot)
    {
      assert rs[j] == rest[j - 1] && rs[j] in rest;
      if i > 0 {
        assert rs[i] == rest[i - 1];
      }
    }
  }

  lemma {:induction false} AssignedSorted(c: Cursors, probes: seq<Probe>)
    requires forall i, j :: 0 <= i < j < |probes| ==>
               Precedes(probes[i].device, probes[i].slot, probes[j].device, probes[j].slot)
    ensures Sorted(Assign(c, probes))
    decreases |probes|
  {
    hide Place, After, Asked, Assign, Sorted;
    if probes == [] {
      Nothing(c);
      EmptySorted();
    } else {
      var p, ps := probes[0], probes[1..];
      assert [p] + ps == probes;
      AssignUnfolds(c, p, ps);
      AssignedSorted(After(c, p), ps);
      var rest := Assign(After(c, p), ps);
      if p.value == 0 {
        assert [] + rest == rest;
      } else {
        PlacedFrom(c, p);
        AssignedSourced(After(c, p), ps);
        forall r | r in rest
          ensures Precedes(p.device, p.slot, r.device, r.slot)
        {
          var q :| q in ps && FromProbe(q, r);
        }
        SortedFront(Place(c, p), rest);
      }
    }
  }

  lemma EmptySorted()
    ensures Sorted([])
  {
  }

  lemma {:induction false} AssignedServes(c: Cursors, devices: seq<seq<Word>>)
    requires forall d :: 0 <= d < |devices| ==> |devices[d]| == 7
    ensures Served(devices, Assign(c, AllProbes(devices, |devices|)))
  {
    hide Assign, AllProbes, Asked;
    var probes := AllProbes(devices, |devices|);
    AllProbesAt(devices, |devices|);
    AssignedSorted(c, probes);
    AssignedSourced(c, probes);
    var rs := Assign(c, probes);
    forall k | 0 <= k < |rs|
      ensures rs[k].device < |devices| && rs[k].slot < 7 && Asked(devices[rs[k].device][rs[k].slot], rs[k])
    {
      assert rs[k] in rs && Sourced(probes, rs[k]);
    }
    forall d, i | 0 <= d < |devices| && 0 <= i < 7
      ensures devices[d][i] != 0 <==> Holds(rs, d, i)
    {
      var p := Probe(d, i, devices[d][i]);
      if p.value != 0 {
        assert probes[7 * d + i] == p;
        AssignedAll(c, probes, p);
        var r :| r in rs && FromProbe(p, r);
        var k :| 0 <= k < |rs| && rs[k] == r;
      }
      if Holds(rs, d, i) {
        var k :| 0 <= k < |rs| && rs[k].device == d && rs[k].slot == i;
        AskedSomething(p, rs[k]);
      }
    }
  }

  lemma AskedSomething(p: Probe, r: Region)
    requires FromProbe(p, r)
    ensures p.value != 0
  {
  }

  /** How far an arena that began at `start` has been given out. */
  function Reached(start: int, rs: seq<Region>, arena: Arena): int
    decreases |rs|
  {
    if rs == [] then start
    else Reached(if rs[0].arena == arena then rs[0].addr + rs[0].size else start, rs[1..], arena)
  }

  /** Every region starts at the first multiple of its size that its arena has left. */
  ghost predicate Snug(c: Cursors, rs: seq<Region>) {
    forall i :: 0 <= i < |rs| ==>
      var r, from := rs[i], Reached(c.At(rs[i].arena), rs[..i], rs[i].arena);
      r.size > 0 && r.addr % r.size == 0 && from <= r.addr < from + r.size
  }

  lemma PlaceSnug(c: Cursors, p: Probe)
    requires p.value != 0 && PowerOfTwo(SizeOf(p.value)) && NoWrap(c.At(ArenaOf(p.value)), SizeOf(p.value))
    ensures var r := Place(c, p);
            && r.size > 0 && r.addr % r.size == 0 && c.At(r.arena) <= r.addr < c.At(r.arena) + r.size
            && forall a :: After(c, p).At(a) == if r.arena == a then r.addr + r.size else c.At(a)
  {
    hide SizeOf, ArenaOf, RoundUp, PowerOfTwo;
    RoundsUp(c.At(ArenaOf(p.value)), SizeOf(p.value));
  }

  lemma {:induction false} AssignedSnug(c: Cursors, probes: seq<Probe>)
    requires Roomy(c, probes)
    ensures Snug(c, Assign(c, probes))
    ensures forall a :: AfterAll(c, probes).At(a) == Reached(c.At(a), Assign(c, probes), a)
    decreases |probes|
  {
    hide Place, After, PowerOfTwo, NoWrap, SizeOf, ArenaOf;
    if probes != [] {
      var p, next := probes[0], After(c, probes[0]);
      AssignedSnug(next, probes[1..]);
      var rs, rest := Assign(c, probes), Assign(next, probes[1..]);
      if p.value == 0 {
        Unmoved(c, p);
        assert rs == rest;
      } else {
        PlaceSnug(c, p);
        assert rs == [Place(c, p)] + rest;
        SnugFront(c, next, Place(c, p), rest);
      }
    }
  }

  lemma SnugFront(c: Cursors, next: Cursors, f: Region, rest: seq<Region>)
    requires Snug(next, rest) && f.size > 0 && f.addr % f.size == 0 && c.At(f.arena) <= f.addr < c.At(f.arena) + f.size
    requires forall a :: next.At(a) == if f.arena == a then f.addr + f.size else c.At(a)
    ensures Snug(c, [f] + rest)
    ensures forall a :: Reached(c.At(a), [f] + rest, a) == Reached(next.At(a), rest, a)
  {
    var rs := [f] + rest;
    assert rs[1..] == rest;
    forall i | 0 <= i < |rs|
      ensures var r, from := rs[i], Reached(c.At(rs[i].arena), rs[..i], rs[i].arena);
              r.size > 0 && r.addr % r.size == 0 && from <= r.addr < from + r.size
    {
      if i > 0 {
        assert rs[i] == rest[i - 1];
        assert rs[..i][1..] == rest[..i - 1];
      }
    }
  }

  class PciBios {
    var ioAddr: Word
    var memAddr: Word
    var bigmemAddr: Word
    var mapped: seq<Region>   // the addresses written to the devices, in order

    ghost function Abs(): Cursors
      reads this
    {
      Cursors(ioAddr, memAddr, bigmemAddr)
    }

    constructor (ramSize: Word)
      ensures mapped == [] && ioAddr == 0xc000 && memAddr == 0xc000_0000
      ensures bigmemAddr == if ramSize < 0x9000_0000 then 0x9000_0000 else ramSize
    {
      ioAddr := 0xc000;
      memAddr := 0xc000_0000;
      bigmemAddr := if ramSize < 0x9000_0000 then 0x9000_0000 else ramSize;
      mapped := [];
    }

    /** The default mapping of one device. */
    method InitDevice(d: nat, readback: seq<Word>)
      requires |readback| == REGIONS
      modifies this
      ensures Abs() == AfterAll(old(Abs()), Probes(d, readback, REGIONS))
      ensures mapped == old(mapped) + Assign(old(Abs()), Probes(d, readback, REGIONS))
    {
      hide Place, After, Assign, AfterAll;
      ghost var c, was := Abs(), mapped;
      Nothing(c);
      for i := 0 to REGIONS
        invariant Abs() == AfterAll(c, Probes(d, readback, i))
        invariant mapped == was + Assign(c, Probes(d, readback, i))
      {
        OneMore(c, Probes(d, readback, i), Probe(d, i, readback[i]));
        MapRegion(d, i, readback[i]);
      }
    }

    method MapRegion(d: nat, i: nat, val: Word)
      modifies this
      ensures Abs() == After(old(Abs()), Probe(d, i, val))
      ensures mapped == old(mapped) + if val == 0 then [] else [Place(old(Abs()), Probe(d, i, val))]
    {
      if val != 0 {
        var size := Add(Not(And(val, Not(0xf))), 1);
        var addr;
        if And(val, SPACE_IO) != 0 {
          addr := RoundUp(ioAddr, size);
          mapped := mapped + [Region(d, i, Io, addr, size)];
          ioAddr := Add(addr, size);
        } else if size >= 0x0400_0000 {
          addr := RoundUp(bigmemAddr, size);
          mapped := mapped + [Region(d, i, BigMem, addr, size)];
          bigmemAddr := Add(addr, size);
        } else {
          addr := RoundUp(memAddr, size);
          mapped := mapped + [Region(d, i, Mem, addr, size)];
          memAddr := Add(addr, size);
        }
      }
    }

    /** All devices one after another: every register present is given one region,
        of the size and in the arena it asks for, in order; each starts at the
        first multiple of its size left in its arena, so no two of an arena overlap. */
    method InitDevices(devices: seq<seq<Word>>)
      requires forall d :: 0 <= d < |devices| ==> |devices[d]| == REGIONS
      requires mapped == [] && Roomy(Abs(), AllProbes(devices, |devices|))
      modifies this
      ensures mapped == Assign(old(Abs()), AllProbes(devices, |devices|))
      ensures forall r :: r in mapped ==> Within(r, old(Abs()).At(r.arena), Abs().At(r.arena))
      ensures Disjoint(mapped)
      ensures Served(devices, mapped)
      ensures Snug(old(Abs()), mapped)
      ensures forall a :: Abs().At(a) == Reached(old(Abs()).At(a), mapped, a)
    {
      hide Served, Snug, Reached, Place, After, Assign, AfterAll, Roomy, Before, Within, PowerOfTwo;
      ghost var c := Abs();
      Nothing(c);
      for n := 0 to |devices|
        invariant Abs() == AfterAll(c, AllProbes(devices, n))
        invariant mapped == Assign(c, AllProbes(devices, n))
      {
        AssignSplits(c, AllProbes(devices, n), Probes(n, devices[n], REGIONS));
        InitDevice(n, devices[n]);
      }
      AssignedWithin(c, AllProbes(devices, |devices|));
      AssignedDisjoint(c, AllProbes(devices, |devices|));
      AssignedServes(c, devices);
      AssignedSnug(c, AllProbes(devices, |devices|));
    }
  }

  lemma Nothing(c: Cursors)
    ensures Assign(c, []) == [] && AfterAll(c, []) == c && Roomy(c, [])
  {
  }

  lemma OneMore(c: Cursors, probes: seq<Probe>, p: Probe)
    ensures AfterAll(c, probes + [p]) == After(AfterAll(c, probes), p)
    ensures Assign(c, probes + [p]) == Assign(c, probes) + if p.value == 0 then []
        else [Place(AfterAll(c, probes), p)]
  {
    hide Place, After;
    AssignSplits(c, probes, [p]);
    assert [p][1..] == [];
  }
}
