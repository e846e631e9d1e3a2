/** The multiprocessor configuration table: how the BIOS writes it, how an
    operating system reads it (MultiProcessor Specification 1.4, sections 4.2-4.3),
    and when the two agree. */
module MpTables {
  import opened Wrappers

  type Long = x: int | 0 <= x < 0x1_0000_0000

  const HEADER_BYTES: nat := 44

  // ----- Numbers in bytes -----

  function Le16(v: int): (r: seq<Byte>)
    ensures |r| == 2
  {
    [v % 256, v / 256 % 256]
  }

  function Le32(v: int): (r: seq<Byte>)
    ensures |r| == 4
  {
    [v % 256, v / 0x100 % 256, v / 0x1_0000 % 256, v / 0x100_0000 % 256]
  }

  function Value16(b: seq<Byte>, p: nat): nat
    requires p + 2 <= |b|
  {
    b[p] as int + 0x100 * b[p + 1] as int
  }

  function Value32(b: seq<Byte>, p: nat): Long
    requires p + 4 <= |b|
  {
    b[p] as int + 0x100 * b[p + 1] as int + 0x1_0000 * b[p + 2] as int + 0x100_0000 * b[p + 3] as int
  }

  lemma Le16Reads(v: nat)
    requires v < 0x1_0000
    ensures Value16(Le16(v), 0) == v
  {
  }

  lemma Le32Reads(v: Long)
    ensures Value32(Le32(v), 0) == v
  {
    ByteOf(v);
    ByteOf(v / 0x100);
    ByteOf(v / 0x1_0000);
    assert v / 0x1_0000 == v / 0x100 / 0x100 && v / 0x100_0000 == v / 0x1_0000 / 0x100;
  }

  lemma ByteOf(v: nat)
    ensures v == v % 0x100 + 0x100 * (v / 0x100)
  {
  }

  function Ascii(s: string): (r: seq<Byte>)
    ensures |r| == |s|
  {
    seq(|s|, i requires 0 <= i < |s| => s[i] as int % 256)
  }

  function Sum(b: seq<Byte>): nat {
    if b == [] then 0 else Sum(b[..|b| - 1]) + b[|b| - 1]
  }

  // ----- Reading a table -----

  datatype Entry =
    | Processor(id: Byte, version: Byte, flags: Byte, signature: Long, features: Long)
    | Bus(id: Byte, name: seq<Byte>)
    | IoApic(id: Byte, version: Byte, flags: Byte, address: Long)
    | Interrupt(kind: Byte, trigger: nat, bus: Byte, irq: Byte, apic: Byte, input: Byte)

  datatype Table = Table(revision: Byte, localApic: Long, entries: seq<Entry>)

  function EntryBytes(kind: Byte): nat { if kind == 0 then 20 else 8 }

  /** The first entry of some bytes: its first byte says what it is and so how long. */
  function ReadEntry(b: seq<Byte>): (r: Option<Entry>)
    ensures r.Some? ==> b != [] && EntryBytes(b[0]) <= |b|
  {
    if b == [] || |b| < EntryBytes(b[0]) then None
    else match b[0]
      case 0 => Some(Processor(b[1], b[2], b[3], Value32(b, 4), Value32(b, 8)))
      case 1 => Some(Bus(b[1], b[2..8]))
      case 2 => Some(IoApic(b[1], b[2], b[3], Value32(b, 4)))
      case 3 => Some(Interrupt(b[1], Value16(b, 2), b[4], b[5], b[6], b[7]))
      case _ => None
  }

  /** Exactly n entries, with no bytes left over. */
  function ReadEntries(b: seq<Byte>, n: nat): Option<seq<Entry>>
    decreases n
  {
    if n == 0 then (if b == [] then Some([]) else None)
    else
      var first := ReadEntry(b);
      if first.None? then None else
        var rest := ReadEntries(b[EntryBytes(b[0])..], n - 1);
        if rest.None? then None else Some([first.value] + rest.value)
  }

  function ReadTable(b: seq<Byte>): Option<Table> {
    if |b| < HEADER_BYTES || b[..4] != Ascii("PCMP") || Value16(b, 4) != |b| || Sum(b) % 256 != 0 then None
    else
      var entries := ReadEntries(b[HEADER_BYTES..], Value16(b, 34));
      if entries.None? then None else Some(Table(b[6], Value32(b, 36), entries.value))
  }

  // ----- What is to be written -----

  /** What the BIOS knows: processors, and the CPUID values of the first, if any. */
  datatype Machine = Machine(cpus: nat, signature: Long, features: Long, qemu: bool)

  function Cpu(m: Machine, i: nat): Entry {
    if m.signature != 0 then Processor(i % 256, 0x11, if i == 0 then 3 else 1, m.signature, m.features)
    else Processor(i % 256, 0x11, if i == 0 then 3 else 1, 0x600, 0x201)
  }

  function Cpus(m: Machine, n: nat): (r: seq<Entry>)
    ensures |r| == n
    ensures forall i :: 0 <= i < n ==> r[i] == Cpu(m, i)
  {
    if n == 0 then [] else Cpus(m, n - 1) + [Cpu(m, n - 1)]
  }

  function Irq(m: Machine, i: Byte): Entry {
    Interrupt(0, 0, 0, i, m.cpus % 256, if m.qemu && i == 0 then 2 else i)
  }

  /** The first n routes; QEMU has none for irq 2. */
  function Irqs(m: Machine, n: nat): (r: seq<Entry>)
    requires n <= 16
    ensures |r| == if m.qemu && n > 2 then n - 1 else n
    ensures !m.qemu ==> forall i :: 0 <= i < n ==> r[i] == Irq(m, i)
  {
    if n == 0 then []
    else Irqs(m, n - 1) + if m.qemu && n - 1 == 2 then [] else [Irq(m, n - 1)]
  }

  function Platform(m: Machine): seq<Entry> {
    [Bus(0, Ascii("ISA   ")), IoApic(m.cpus % 256, 0x11, 1, 0xfec0_0000)]
  }

  function Entries(m: Machine): seq<Entry> {
    Cpus(m, m.cpus) + Platform(m) + Irqs(m, 16)
  }

  // ----- Its bytes -----

  predicate WellFormed(e: Entry) {
    (e.Bus? ==> |e.name| == 6) && (e.Interrupt? ==> e.trigger < 0x1_0000)
  }

  function Encode(e: Entry): (r: seq<Byte>) {
    match e
    case Processor(id, version, flags, signature, features) =>
      [0, id, version, flags] + Le32(signature) + Le32(features) + [0, 0, 0, 0, 0, 0, 0, 0]
    case Bus(id, name) => [1, id] + name
    case IoApic(id, version, flags, address) => [2, id, version, flags] + Le32(address)
    case Interrupt(kind, trigger, bus, irq, apic, input) => [3, kind] + Le16(trigger) + [bus, irq, apic, input]
  }

  function EncodeAll(es: seq<Entry>): seq<Byte> {
    if es == [] then [] else EncodeAll(es[..|es| - 1]) + Encode(es[|es| - 1])
  }

  function Header(m: Machine): (r: seq<Byte>) {
    Ascii("PCMP") + Le16(0) + [4, 0] + Ascii(if m.qemu then "QEMUCPU " else "BOCHSCPU") + Ascii("0.1         ")
    + Le32(0) + Le16(0) + Le16(m.cpus + 18) + Le32(0xfee0_0000) + Le16(0) + [0, 0]
  }

  /** The table before its length and checksum are filled in. */
  function Draft(m: Machine): seq<Byte> { Header(m) + EncodeAll(Entries(m)) }

  function WithLength(b: seq<Byte>): (r: seq<Byte>)
    requires |b| >= HEADER_BYTES
    ensures |r| == |b|
  {
    b[4 := |b| % 256][5 := |b| / 256 % 256]
  }

  function WithChecksum(b: seq<Byte>): (r: seq<Byte>)
    requires |b| >= HEADER_BYTES
    ensures |r| == |b|
  {
    b[7 := (0 - Sum(b)) % 256]
  }

  lemma HeaderSize(m: Machine)
    ensures |Header(m)| == HEADER_BYTES && |Draft(m)| >= HEADER_BYTES
  {
  }

  function Image(m: Machine): seq<Byte> {
    HeaderSize(m);
    WithChecksum(WithLength(Draft(m)))
  }

  // ----- What is written is what is read -----

  lemma EntryReads(e: Entry, rest: seq<Byte>)
    requires WellFormed(e)
    ensures |Encode(e)| == EntryBytes(Encode(e)[0])
    ensures ReadEntry(Encode(e) + rest) == Some(e)
  {
    hide Le32, Le16, Value32, Value16;
    var b := Encode(e) + rest;
    match e
    case Processor(_, _, _, signature, features) =>
      Placed32(b, 4, signature);
      Placed32(b, 8, features);
    case Bus(_, name) => assert b[2..8] == name;
    case IoApic(_, _, _, address) => Placed32(b, 4, address);
    case Interrupt(_, trigger, _, _, _, _) => Placed16(b, 2, trigger);
  }

  lemma Placed32(b: seq<Byte>, p: nat, v: Long)
    requires p + 4 <= |b| && b[p..p + 4] == Le32(v)
    ensures Value32(b, p) == v
  {
    Le32Reads(v);
    var s := b[p..p + 4];
    assert s[0] == b[p] && s[1] == b[p + 1] && s[2] == b[p + 2] && s[3] == b[p + 3];
  }

  lemma Placed16(b: seq<Byte>, p: nat, v: nat)
    requires p + 2 <= |b| && v < 0x1_0000 && b[p..p + 2] == Le16(v)
    ensures Value16(b, p) == v
  {
    Le16Reads(v);
    var s := b[p..p + 2];
    assert s[0] == b[p] && s[1] == b[p + 1];
  }

  lemma {:induction false} EncodeFirst(es: seq<Entry>)
    requires es != []
    ensures EncodeAll(es) == Encode(es[0]) + EncodeAll(es[1..])
    decreases |es|
  {
    hide Encode;
    if |es| > 1 {
      var most := es[..|es| - 1];
      EncodeFirst(most);
      assert most[1..] == es[1..][..|es| - 2];
    } else {
      assert es[..0] == [] && es[1..] == [];
    }
  }

  /** A reader that expects n entries finds them, and nothing else, exactly when
      n were written. */
  lemma {:induction false} EntriesRead(es: seq<Entry>, n: nat)
    requires forall e :: e in es ==> WellFormed(e)
    ensures ReadEntries(EncodeAll(es), n) == if n == |es| then Some(es) else None
    decreases |es|
  {
    hide Encode, ReadEntry, EntryBytes;
    if es != [] {
      EncodeFirst(es);
      EntryReads(es[0], EncodeAll(es[1..]));
      EntryStarts(es[0], EncodeAll(es[1..]));
      var b := EncodeAll(es);
      assert b != [];
      if n > 0 {
        EntriesRead(es[1..], n - 1);
        assert b[EntryBytes(b[0])..] == EncodeAll(es[1..]);
        assert [es[0]] + es[1..] == es;
      }
    } else {
      NothingToRead();
    }
  }

  lemma EntryStarts(e: Entry, rest: seq<Byte>)
    requires WellFormed(e)
    ensures |Encode(e)| == EntryBytes((Encode(e) + rest)[0]) > 0
  {
  }

  lemma NothingToRead()
    ensures ReadEntry([]) == None
  {
  }

  /** The sum of bytes, however they are cut. */
  lemma {:induction false} SumOfParts(a: seq<Byte>, b: seq<Byte>, v: Byte)
    ensures Sum([]) == 0 && Sum([v]) == v
    ensures Sum(a + b) == Sum(a) + Sum(b)
    decreases |b|
  {
    assert [v][..0] == [];
    if b == [] {
      assert a + b == a;
    } else {
      var n := |b| - 1;
      assert (a + b)[..|a + b| - 1] == a + b[..n];
      SumOfParts(a, b[..n], v);
    }
  }

  lemma {:induction false} SumOfUpdate(b: seq<Byte>, p: nat, v: Byte)
    requires p < |b|
    ensures Sum(b[p := v]) == Sum(b) - b[p] + v
    decreases |b|
  {
    var n := |b| - 1;
    if p == n {
      assert b[p := v][..n] == b[..n];
    } else {
      SumOfUpdate(b[..n], p, v);
      assert b[p := v][..n] == b[..n][p := v];
    }
  }

  /** The checksum byte was zero, so the patched bytes sum to zero. */
  lemma ChecksumCancels(b: seq<Byte>)
    requires |b| >= HEADER_BYTES && b[7] == 0
    ensures Sum(WithChecksum(b)) % 256 == 0
  {
    hide Sum;
    SumOfUpdate(b, 7, (0 - Sum(b)) % 256);
  }

  lemma {:induction false} EncodedSize(es: seq<Entry>, others: nat)
    requires forall e :: e in es ==> WellFormed(e)
    requires others <= |es| && forall i :: 0 <= i < |es| ==> (es[i].Processor? <==> i < |es| - others)
    ensures |EncodeAll(es)| == 20 * (|es| - others) + 8 * others
    decreases |es|
  {
    hide Encode;
    if es != [] {
      var last := es[|es| - 1];
      EntrySize(last);
      EncodedSize(es[..|es| - 1], if others > 0 then others - 1 else 0);
    }
  }

  lemma EntrySize(e: Entry)
    requires WellFormed(e)
    ensures |Encode(e)| == if e.Processor? then 20 else 8
  {
  }

  lemma EntriesWellFormed(m: Machine)
    ensures forall e :: e in Entries(m) ==> WellFormed(e)
    ensures var others := if m.qemu then 17 else 18;
            && |Entries(m)| == m.cpus + others
            && |EncodeAll(Entries(m))| == 20 * m.cpus + 8 * others
  {
    IrqsAreInterrupts(m, 16);
    var es := Entries(m);
    forall i | 0 <= i < |es|
      ensures WellFormed(es[i]) && (es[i].Processor? <==> i < m.cpus)
    {
      if m.cpus + 2 <= i {
        assert es[i] == Irqs(m, 16)[i - m.cpus - 2] && es[i] in Irqs(m, 16);
      } else if m.cpus <= i {
        assert es[i] == Platform(m)[i - m.cpus];
      } else {
        assert es[i] == Cpu(m, i);
      }
    }
    EncodedSize(Entries(m), if m.qemu then 17 else 18);
  }

  lemma {:induction false} IrqsAreInterrupts(m: Machine, n: nat)
    requires n <= 16
    ensures forall e :: e in Irqs(m, n) ==> e.Interrupt? && WellFormed(e)
  {
    if n > 0 {
      IrqsAreInterrupts(m, n - 1);
    }
  }

  lemma HeaderFields(m: Machine)
    ensures var h := Header(m);
            && |h| == HEADER_BYTES
            && h[..4] == Ascii("PCMP") && h[6] == 4 && h[7] == 0
            && h[34..36] == Le16(m.cpus + 18)
            && h[36..40] == Le32(0xfee0_0000)
  {
  }

  /** The fixed fields of the finished header. */
  lemma HeaderReads(m: Machine)
    ensures var b := Image(m);
            && |b| == |Draft(m)|
            && b[..4] == Ascii("PCMP") && b[6] == 4
            && b[4..6] == Le16(|b|)
            && b[34..36] == Le16(m.cpus + 18)
            && b[36..40] == Le32(0xfee0_0000)
            && b[HEADER_BYTES..] == EncodeAll(Entries(m))
            && WithLength(Draft(m))[7] == 0
  {
    hide Sum, EncodeAll, Entries, Header, Le32, Ascii;
    HeaderSize(m);
    HeaderFields(m);
    var h, d := Header(m), Draft(m);
    assert d[..4] == h[..4] && d[6] == h[6] && d[7] == h[7];
    assert d[34..36] == h[34..36] && d[36..40] == h[36..40];
    assert d[HEADER_BYTES..] == EncodeAll(Entries(m));
  }

  /** An operating system recovers the processors, the bus, the I/O APIC and the
      sixteen routes exactly when the table length fits its field and the entry
      count is right, which for QEMU's fifteen routes it is not. */
  lemma {:induction false} TableReads(m: Machine)
    requires m.cpus + 18 < 0x1_0000
    ensures ReadTable(Image(m)) == if m.cpus <= 3267
        && !m.qemu then Some(Table(4, 0xfee0_0000, Entries(m))) else None
  {
    hide Sum, EncodeAll, Entries, Image, Draft, Le16, Le32, ReadEntries, WithChecksum, WithLength, Value16, Value32;
    var b := Image(m);
    HeaderSize(m);
    HeaderReads(m);
    EntriesWellFormed(m);
    DraftSize(m);
    EntriesRead(Entries(m), m.cpus + 18);
    ImageSums(m);
    Placed16(b, 34, m.cpus + 18);
    Placed32(b, 36, 0xfee0_0000);
    LengthField(b);
  }

  /** What that recovers, entry by entry.  Processors without CPUID are given the
      values of a Pentium Pro with floating point and APIC. */
  lemma MachineRecovered(m: Machine)
    requires m.cpus <= 255 && !m.qemu
    ensures var t := ReadTable(Image(m));
            && t.Some? && t.value.revision == 4 && t.value.localApic == 0xfee0_0000
            && |t.value.entries| == m.cpus + 18
            && (forall i :: 0 <= i < m.cpus ==>
                  var e := t.value.entries[i];
                  && e.Processor? && e.id == i && e.version == 0x11 && e.flags == (if i == 0 then 3 else 1)
                  && (m.signature != 0 ==> e.signature == m.signature && e.features == m.features)
                  && (m.signature == 0 ==> e.signature == 0x600 && e.features == 0x201))
            && (var e := t.value.entries[m.cpus];
                && e.Bus? && e.id == 0 && |e.name| == 6
                && forall i :: 0 <= i < 6 ==> e.name[i] as int == "ISA   "[i] as int)
            && t.value.entries[m.cpus + 1] == IoApic(m.cpus, 0x11, 1, 0xfec0_0000)
            && (forall i :: 0 <= i < 16 ==> t.value.entries[m.cpus + 2 + i] == Interrupt(0, 0, 0, i, m.cpus, i))
  {
    hide ReadTable, Image;
    TableReads(m);
    forall i | 0 <= i < 16
      ensures Entries(m)[m.cpus + 2 + i] == Interrupt(0, 0, 0, i, m.cpus, i)
    {
      assert Entries(m)[m.cpus + 2 + i] == Irqs(m, 16)[i] == Irq(m, i);
    }
    assert Entries(m)[m.cpus] == Platform(m)[0] && Entries(m)[m.cpus + 1] == Platform(m)[1];
    assert forall i :: 0 <= i < m.cpus ==> Entries(m)[i] == Cpu(m, i);
  }

  lemma DraftSize(m: Machine)
    ensures |Draft(m)| == HEADER_BYTES + |EncodeAll(Entries(m))|
  {
    HeaderSize(m);
  }

  lemma ImageSums(m: Machine)
    ensures Sum(Image(m)) % 256 == 0
  {
    hide Sum, Draft, WithLength, WithChecksum;
    HeaderSize(m);
    HeaderReads(m);
    ChecksumCancels(WithLength(Draft(m)));
  }

  lemma LengthField(b: seq<Byte>)
    requires |b| >= 6 && b[4..6] == Le16(|b|)
    ensures Value16(b, 4) == |b| <==> |b| < 0x1_0000
  {
    assert b[4] == b[4..6][0] && b[5] == b[4..6][1];
  }

  /** Processors and the I/O APIC have distinct identities exactly up to 255. */
  lemma IdentitiesDistinctIff(m: Machine)
    ensures (forall i, j :: 0 <= i < j <= m.cpus ==> Identity(m, i) != Identity(m, j)) <==> m.cpus <= 255
  {
    if m.cpus > 255 {
      assert Identity(m, 0) == Identity(m, 256);
    }
  }

  /** The identity in entry i, the I/O APIC counting as processor number m.cpus. */
  function Identity(m: Machine, i: nat): Byte
    requires i <= m.cpus
  {
    if i < m.cpus then Cpus(m, m.cpus)[i].id else Platform(m)[1].id
  }

  // ----- The BIOS writing it -----

  lemma EncodeMore(es: seq<Entry>, e: Entry)
    ensures EncodeAll(es + [e]) == EncodeAll(es) + Encode(e)
  {
    assert (es + [e])[..|es|] == es;
  }

  lemma {:induction false} EncodeJoined(a: seq<Entry>, b: seq<Entry>)
    ensures EncodeAll(a + b) == EncodeAll(a) + EncodeAll(b)
    decreases |b|
  {
    hide Encode;
    if b == [] {
      assert a + b == a;
    } else {
      assert (a + b)[..|a + b| - 1] == a + b[..|b| - 1];
      EncodeJoined(a, b[..|b| - 1]);
    }
  }

  /** The BIOS table area and the pointer into it.  `before` is the memory as the
      table was begun at `start`; what has been put there is `done` and, of the
      part now being written, `part`. */
  class TableWriter {
    const mem: array<Byte>
    const start: nat
    var q: nat
    ghost var before: seq<Byte>
    ghost var done: seq<Byte>
    ghost var part: seq<Byte>

    ghost predicate Valid()
      reads this, mem
    {
      && |before| == mem.Length
      && q == start + |done + part| <= mem.Length
      && mem[..] == before[..start] + (done + part) + before[q..]
    }

    constructor (area: array<Byte>, at: nat)
      requires at <= area.Length
      ensures Valid() && mem == area && start == at && done == part == [] && before == area[..]
    {
      mem, start, q, before, done, part := area, at, at, area[..], [], [];
    }

    method PutB(val: int)
      requires Valid() && q < mem.Length
      modifies this`q, this`part, mem
      ensures Valid() && q == old(q) + 1 && part == old(part) + [val % 256]
    {
      mem[q] := val % 256;
      q := q + 1;
      part := part + [val % 256];
      assert done + part == old(done + part) + [val % 256];
    }

    /** Ghost only: the part being written counts as done. */
    ghost method Close()
      requires Valid()
      modifies this`done, this`part
      ensures Valid() && done == old(done) + old(part) && part == []
    {
      done := done + part;
      part := [];
      assert done + part == old(done + part);
    }

    method PutStr(str: string)
      requires Valid() && q + |str| <= mem.Length
      modifies this`q, this`part, mem
      ensures Valid() && q == old(q) + |str| && part == old(part) + Ascii(str)
    {
      hide Valid;
      for i := 0 to |str|
        invariant Valid() && q == old(q) + i && part == old(part) + Ascii(str)[..i]
        modifies this`q, this`part, mem
      {
        PutB(str[i] as int);
        assert Ascii(str)[..i + 1] == Ascii(str)[..i] + [Ascii(str)[i]];
      }
    }

    method PutLe16(val: int)
      requires Valid() && q + 2 <= mem.Length
      modifies this`q, this`part, mem
      ensures Valid() && q == old(q) + 2 && part == old(part) + Le16(val)
    {
      hide Valid;
      PutB(val);
      PutB(val / 256);
    }

    method PutLe32(val: int)
      requires Valid() && q + 4 <= mem.Length
      modifies this`q, this`part, mem
      ensures Valid() && q == old(q) + 4 && part == old(part) + Le32(val)
    {
      hide Valid;
      PutB(val);
      PutB(val / 0x100);
      PutB(val / 0x1_0000);
      PutB(val / 0x100_0000);
    }

    method MpfChecksum(len: nat) returns (r: int)
      requires Valid() && part == [] && len == |done|
      ensures r == Sum(done) % 256
    {
      var sum: int := 0;
      for i := 0 to len
        invariant sum == Sum(done[..i])
      {
        assert mem[..][start + i] == done[i];
        assert done[..i + 1][..i] == done[..i];
        sum := sum + mem[start + i] as int;
      }
      assert done[..len] == done;
      r := sum % 256;
    }

    /** A byte already written, changed. */
    method Patch(at: nat, val: int)
      requires Valid() && part == [] && at < |done|
      modifies this`done, mem
      ensures Valid() && done == old(done)[at := val % 256]
    {
      assert done + part == done;
      mem[start + at] := val % 256;
      done := done[at := val % 256];
      assert done + part == done;
    }

    method PatchLength()
      requires Valid() && part == [] && |done| >= HEADER_BYTES
      modifies this`done, mem
      ensures Valid() && done == WithLength(old(done))
    {
      Span();
      hide Valid;
      var len := q - start;
      Patch(4, len);
      Patch(5, len / 256);
    }

    method PatchChecksum()
      requires Valid() && part == [] && |done| >= HEADER_BYTES
      modifies this`done, mem
      ensures Valid() && done == WithChecksum(old(done))
    {
      hide Sum;
      Span();
      hide Valid;
      var sum := MpfChecksum(q - start);
      NegatedByte(Sum(done), sum);
      Patch(7, -sum);
    }

    /** The length and the checksum filled in. */
    method Finish()
      requires Valid() && part == [] && |done| >= HEADER_BYTES
      modifies this`done, mem
      ensures Valid() && done == WithChecksum(WithLength(old(done)))
      ensures mem[start..q] == done
    {
      hide Valid, WithLength, WithChecksum;
      PatchLength();
      PatchChecksum();
      Span();
    }

    lemma Span()
      requires Valid() && part == []
      ensures start <= q <= mem.Length && mem[start..q] == done && q - start == |done|
    {
      assert done + part == done;
    }

    method PutIdentity(m: Machine)
      requires Valid() && part == [] && q + 28 <= mem.Length
      modifies this`q, this`part, mem
      ensures Valid() && q == old(q) + 28
      ensures part == Ascii("PCMP") + Le16(0) + [4, 0]
                      + Ascii(if m.qemu then "QEMUCPU " else "BOCHSCPU") + Ascii("0.1         ")
    {
      hide Valid, Le16, Ascii;
      PutStr("PCMP");
      PutLe16(0);
      PutB(4);
      PutB(0);
      assert part == Ascii("PCMP") + Le16(0) + [4, 0];
      PutStr(if m.qemu then "QEMUCPU " else "BOCHSCPU");
      PutStr("0.1         ");
    }

    method PutCounts(m: Machine)
      requires Valid() && q + 16 <= mem.Length
      modifies this`q, this`part, mem
      ensures Valid() && q == old(q) + 16
      ensures part == old(part) + Le32(0) + Le16(0) + Le16(m.cpus + 18) + Le32(0xfee0_0000) + Le16(0) + [0, 0]
    {
      hide Valid, Le16, Le32;
      PutLe32(0);
      PutLe16(0);
      PutLe16(m.cpus + 18);
      PutLe32(0xfee0_0000);
      PutLe16(0);
      ghost var most := part;
      PutB(0);
      PutB(0);
      assert part == most + [0, 0];
    }

    method PutHeader(m: Machine)
      requires Valid() && part == [] && q + HEADER_BYTES <= mem.Length
      modifies this`q, this`part, mem
      ensures Valid() && q == old(q) + HEADER_BYTES && part == Header(m)
    {
      hide Valid, Le16, Le32, Ascii;
      PutIdentity(m);
      PutCounts(m);
    }

    method PutCpuId(i: nat)
      requires Valid() && part == [] && q + 4 <= mem.Length
      modifies this`q, this`part, mem
      ensures Valid() && q == old(q) + 4 && part == [0, i % 256, 0x11, if i == 0 then 3 else 1]
    {
      hide Valid;
      PutB(0);
      PutB(i);
      PutB(0x11);
      if i == 0 {
        PutB(3);
      } else {
        PutB(1);
      }
    }

    method PutSignature(m: Machine)
      requires Valid() && q + 8 <= mem.Length
      modifies this`q, this`part, mem
      ensures Valid() && q == old(q) + 8
      ensures part == old(part) + Le32(Cpu(m, 0).signature) + Le32(Cpu(m, 0).features)
    {
      hide Valid;
      if m.signature != 0 {
        PutLe32(m.signature);
        PutLe32(m.features);
      } else {
        ghost var was := part;
        PutB(0);
        PutB(6);
        PutB(0);
        PutB(0);
        assert part == was + Le32(0x600);
        PutFeatures();
      }
    }

    method PutFeatures()
      requires Valid() && q + 4 <= mem.Length
      modifies this`q, this`part, mem
      ensures Valid() && q == old(q) + 4 && part == old(part) + Le32(0x201)
    {
      hide Valid;
      PutLe16(0x201);
      PutLe16(0);
    }

    method PutReserved()
      requires Valid() && q + 8 <= mem.Length
      modifies this`q, this`part, mem
      ensures Valid() && q == old(q) + 8 && part == old(part) + [0, 0, 0, 0, 0, 0, 0, 0]
    {
      hide Valid;
      PutLe16(0);
      PutLe16(0);
      PutLe16(0);
      PutLe16(0);
    }

    method PutCpu(m: Machine, i: nat)
      requires Valid() && part == [] && q + 20 <= mem.Length
      modifies this`q, this`part, mem
      ensures Valid() && q == old(q) + 20 && part == Encode(Cpu(m, i))
    {
      hide Valid, Le32;
      PutCpuId(i);
      PutSignature(m);
      PutReserved();
    }

    method PutBus()
      requires Valid() && part == [] && q + 8 <= mem.Length
      modifies this`q, this`part, mem
      ensures Valid() && q == old(q) + 8 && part == Encode(Bus(0, Ascii("ISA   ")))
    {
      hide Valid, Ascii;
      PutB(1);
      PutB(0);
      PutStr("ISA   ");
    }

    method PutIoApic(m: Machine)
      requires Valid() && part == [] && q + 8 <= mem.Length
      modifies this`q, this`part, mem
      ensures Valid() && q == old(q) + 8 && part == Encode(IoApic(m.cpus % 256, 0x11, 1, 0xfec0_0000))
    {
      hide Valid, Le32;
      PutB(2);
      PutB(m.cpus);
      PutB(0x11);
      PutB(1);
      PutLe32(0xfec0_0000);
    }

    method PutPlatform(m: Machine)
      requires Valid() && part == [] && q + 16 <= mem.Length
      modifies this`q, this`done, this`part, mem
      ensures Valid() && q == old(q) + 16 && part == [] && done == old(done) + EncodeAll(Platform(m))
    {
      hide Valid, Encode, Ascii;
      PlatformBytes(m);
      PutBus();
      Close();
      PutIoApic(m);
      Close();
    }

    method PutRoute(m: Machine, i: nat)
      requires Valid() && q + 4 <= mem.Length && i < 16
      modifies this`q, this`part, mem
      ensures Valid() && q == old(q) + 4
      ensures part == old(part) + [0, i, m.cpus % 256, if m.qemu && i == 0 then 2 else i]
    {
      hide Valid;
      PutB(0);
      PutB(i);
      PutB(m.cpus);
      PutB(if m.qemu && i == 0 then 2 else i);
    }

    method PutIrq(m: Machine, i: nat)
      requires Valid() && part == [] && q + 8 <= mem.Length && i < 16
      modifies this`q, this`part, mem
      ensures Valid() && q == old(q) + 8 && part == Encode(Irq(m, i))
    {
      hide Valid;
      PutB(3);
      PutB(0);
      PutB(0);
      PutB(0);
      assert part == [3, 0] + Le16(0);
      PutRoute(m, i);
    }

    /** The entries after the header. */
    method PutEntries(m: Machine)
      requires Valid() && part == [] && q + 20 * m.cpus + 8 * 18 <= mem.Length
      modifies this`q, this`done, this`part, mem
      ensures Valid() && part == [] && done == old(done) + EncodeAll(Entries(m))
    {
      hide Valid, Encode, Platform, Irq, EncodeAll;
      ghost var head := done;
      EncodeNone();
      for i := 0 to m.cpus
        invariant Valid() && part == [] && done == head + EncodeAll(Cpus(m, i)) && q == old(q) + 20 * i
        modifies this`q, this`done, this`part, mem
      {
        EncodeMore(Cpus(m, i), Cpu(m, i));
        Longer(head, EncodeAll(Cpus(m, i)), Encode(Cpu(m, i)));
        PutCpu(m, i);
        Close();
      }
      ghost var cpus := Cpus(m, m.cpus);
      EncodeJoined(cpus, Platform(m));
      Longer(head, EncodeAll(cpus), EncodeAll(Platform(m)));
      PutPlatform(m);
      ghost var es := cpus + Platform(m);
      assert es + [] == es;
      for i := 0 to 16
        invariant Valid() && part == [] && done == head + EncodeAll(es)
        invariant es == cpus + Platform(m) + Irqs(m, i)
        invariant q <= old(q) + 20 * m.cpus + 16 + 8 * i
        modifies this`q, this`done, this`part, mem
      {
        if !(m.qemu && i == 2) {
          EncodeMore(es, Irq(m, i));
          Longer(head, EncodeAll(es), Encode(Irq(m, i)));
          PutIrq(m, i);
          Close();
          es := es + [Irq(m, i)];
        }
      }
    }

    /** The whole table at `start`, and what a reader makes of it. */
    method MptableInit(m: Machine)
      requires Valid() && done == part == [] && m.cpus + 18 < 0x1_0000
      requires start + HEADER_BYTES + 20 * m.cpus + 8 * 18 <= mem.Length
      modifies this`q, this`done, this`part, mem
      ensures Valid() && part == [] && done == Image(m)
      ensures mem[start..q] == Image(m)
      ensures ReadTable(mem[start..q]) == if m.cpus <= 3267
          && !m.qemu then Some(Table(4, 0xfee0_0000, Entries(m))) else None
    {
      assert q == start;
      hide Valid, Header, EncodeAll, Entries, ReadTable, WithLength, WithChecksum;
      HeaderSize(m);
      PutHeader(m);
      Close();
      assert done == Header(m);
      PutEntries(m);
      assert done == Draft(m);
      Finish();
      TableReads(m);
    }
  }

  lemma PlatformBytes(m: Machine)
    ensures EncodeAll(Platform(m)) == Encode(Platform(m)[0]) + Encode(Platform(m)[1])
  {
    EncodeMore([], Platform(m)[0]);
    EncodeMore([Platform(m)[0]], Platform(m)[1]);
    assert Platform(m) == [Platform(m)[0]] + [Platform(m)[1]];
  }

  /** Negating a sum modulo 256 may wait for the remainder. */
  lemma NegatedByte(total: nat, sum: int)
    requires sum == total % 256
    ensures (-sum) % 256 == (0 - total) % 256
  {
  }

  lemma EncodeNone()
    ensures EncodeAll([]) == []
  {
  }

  lemma Longer(a: seq<Byte>, b: seq<Byte>, c: seq<Byte>)
    ensures a + b + c == a + (b + c)
  {
  }
}
