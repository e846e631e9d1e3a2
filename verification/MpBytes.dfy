/** The bytes of the multiprocessor table, at the offsets of the MultiProcessor
    Specification 1.4, sections 4.2 and 4.3. */
module MpBytes {
  import opened Wrappers
  import opened MpTables

  // ----- What has to stand where -----

  predicate Spells(b: seq<Byte>, s: string) {
    |b| == |s| && forall i :: 0 <= i < |s| ==> b[i] as int == s[i] as int
  }

  /** Two bytes, low byte first. */
  predicate Holds16(b: seq<Byte>, v: int) {
    |b| == 2 && b[0] as int + 0x100 * b[1] as int == v
  }

  /** Four bytes, low byte first. */
  predicate Holds32(b: seq<Byte>, v: int) {
    |b| == 4 && b[0] as int + 0x100 * b[1] as int + 0x1_0000 * b[2] as int + 0x100_0000 * b[3] as int == v
  }

  /** All of a table's header but the checksum in byte 7. */
  predicate HeaderSpelled(h: seq<Byte>, m: Machine, length: nat) {
    && |h| == 44 && Spells(h[..4], "PCMP") && Holds16(h[4..6], length % 0x1_0000) && h[6] == 4
    && Spells(h[8..16], if m.qemu then "QEMUCPU " else "BOCHSCPU") && Spells(h[16..28], "0.1         ")
    && h[28..34] == [0, 0, 0, 0, 0, 0] && Holds16(h[34..36], (m.cpus + 18) % 0x1_0000)
    && Holds32(h[36..40], 0xfee0_0000) && h[40..44] == [0, 0, 0, 0]
  }

  predicate ProcessorSpelled(e: seq<Byte>, m: Machine, i: nat) {
    && |e| == 20 && e[..4] == [0, i % 256, 0x11, if i == 0 then 3 else 1]
    && Holds32(e[4..8], if m.signature != 0 then m.signature else 0x600)
    && Holds32(e[8..12], if m.signature != 0 then m.features else 0x201)
    && e[12..] == [0, 0, 0, 0, 0, 0, 0, 0]
  }

  predicate BusSpelled(e: seq<Byte>) {
    |e| == 8 && e[..2] == [1, 0] && Spells(e[2..], "ISA   ")
  }

  predicate IoApicSpelled(e: seq<Byte>, m: Machine) {
    |e| == 8 && e[..4] == [2, m.cpus % 256, 0x11, 1] && Holds32(e[4..], 0xfec0_0000)
  }

  predicate RouteSpelled(e: seq<Byte>, m: Machine, irq: Byte) {
    e == [3, 0, 0, 0, 0, irq, m.cpus % 256, if m.qemu && irq == 0 then 2 else irq]
  }

  // ----- The entries -----

  /** Entry k lies after the entries before it. */
  lemma {:induction false} EntryAt(es: seq<Entry>, k: nat)
    requires k < |es|
    ensures var p, n := |EncodeAll(es[..k])|, |Encode(es[k])|;
            p + n <= |EncodeAll(es)| && EncodeAll(es)[p..p + n] == Encode(es[k])
  {
    hide EncodeAll, Encode;
    assert es[..k + 1] == es[..k] + [es[k]] && es[..k + 1] + es[k + 1..] == es;
    EncodeJoined(es[..k + 1], es[k + 1..]);
    EncodeMore(es[..k], es[k]);
  }

  lemma ProcessorBytes(m: Machine, i: nat)
    ensures ProcessorSpelled(Encode(Cpu(m, i)), m, i)
  {
    hide Le32;
    var e := Cpu(m, i);
    assert Encode(e)[4..8] == Le32(e.signature) && Encode(e)[8..12] == Le32(e.features);
    Held32(e.signature);
    Held32(e.features);
  }

  lemma Held32(v: Long)
    ensures Holds32(Le32(v), v)
  {
    Le32Reads(v);
  }

  lemma PlatformSpelled(m: Machine)
    ensures BusSpelled(Encode(Platform(m)[0])) && IoApicSpelled(Encode(Platform(m)[1]), m)
  {
    hide Le32, Ascii, Spells, Holds32;
    Held32(0xfec0_0000);
    AsciiSpells("ISA   ");
    BusBytes(Ascii("ISA   "));
    IoApicBytes(m.cpus % 256, 0xfec0_0000);
  }

  lemma BusBytes(name: seq<Byte>)
    ensures Encode(Bus(0, name))[..2] == [1, 0] && Encode(Bus(0, name))[2..] == name
  {
  }

  lemma IoApicBytes(id: Byte, address: Long)
    ensures Encode(IoApic(id, 0x11, 1, address))[..4] == [2, id, 0x11, 1]
    ensures Encode(IoApic(id, 0x11, 1, address))[4..] == Le32(address)
  {
    hide Le32;
  }

  lemma RouteBytes(m: Machine, i: Byte)
    ensures RouteSpelled(Encode(Irq(m, i)), m, i)
  {
  }

  /** The k-th route is that of irq k, or, for QEMU from the third on, of irq k + 1. */
  lemma {:induction false} RouteOf(m: Machine, n: nat, k: nat)
    requires n <= 16 && k < if m.qemu && n > 2 then n - 1 else n
    ensures Irqs(m, n)[k] == Irq(m, if m.qemu && k >= 2 then k + 1 else k)
    decreases n
  {
    hide Irq;
    if k < |Irqs(m, n - 1)| {
      RouteOf(m, n - 1, k);
    }
  }

  lemma RoutesBytes(m: Machine, k: nat)
    requires k < if m.qemu then 15 else 16
    ensures var b := EncodeAll(Irqs(m, 16));
            && |b| == 8 * (if m.qemu then 15 else 16)
            && RouteSpelled(b[8 * k..8 * k + 8], m, if m.qemu && k >= 2 then k + 1 else k)
  {
    hide Irqs, EncodeAll, Encode;
    var es := Irqs(m, 16);
    IrqsAreInterrupts(m, 16);
    forall i | 0 <= i < |es|
      ensures es[i].Interrupt?
    {
      assert es[i] in es;
    }
    EntryAt(es, k);
    EncodedSize(es[..k], k);
    EncodedSize(es, |es|);
    RouteOf(m, 16, k);
    RouteBytes(m, if m.qemu && k >= 2 then k + 1 else k);
  }

  lemma CpusBytes(m: Machine, i: nat)
    requires i <= m.cpus
    ensures var b := EncodeAll(Cpus(m, m.cpus));
            && |b| == 20 * m.cpus
            && (i < m.cpus ==> ProcessorSpelled(b[20 * i..20 * i + 20], m, i))
  {
    hide Cpus, EncodeAll, Encode;
    var es := Cpus(m, m.cpus);
    EncodedSize(es[..i], 0);
    EncodedSize(es, 0);
    if i < m.cpus {
      EntryAt(es, i);
      ProcessorBytes(m, i);
    }
  }

  // ----- The whole table -----

  /** Where the entries lie. */
  lemma {:induction false} GroupsLie(m: Machine)
    ensures var b, p := Image(m), 44 + 20 * m.cpus;
            && |b| == p + 16 + 8 * (if m.qemu then 15 else 16)
            && b[44..p] == EncodeAll(Cpus(m, m.cpus))
            && b[p..p + 16] == EncodeAll(Platform(m))
            && b[p + 16..] == EncodeAll(Irqs(m, 16))
  {
    hide Image, EncodeAll, Platform, Cpus, Irqs, Draft, Encode;
    HeaderReads(m);
    DraftSize(m);
    EncodeJoined(Cpus(m, m.cpus) + Platform(m), Irqs(m, 16));
    EncodeJoined(Cpus(m, m.cpus), Platform(m));
    CpusBytes(m, m.cpus);
    PlatformBytes(m);
    PlatformSpelled(m);
    RoutesBytes(m, 0);
    EntriesOf(m);
    Cut(Image(m), EncodeAll(Cpus(m, m.cpus)), EncodeAll(Platform(m)), EncodeAll(Irqs(m, 16)));
  }

  lemma EntriesOf(m: Machine)
    ensures Entries(m) == Cpus(m, m.cpus) + Platform(m) + Irqs(m, 16)
  {
  }

  lemma Cut(b: seq<Byte>, x: seq<Byte>, y: seq<Byte>, z: seq<Byte>)
    requires |b| >= 44 && b[44..] == x + y + z
    ensures var p := 44 + |x|;
            b[44..p] == x && b[p..p + |y|] == y && b[p + |y|..] == z && |b| == p + |y| + |z|
  {
    var s, p := b[44..], 44 + |x|;
    assert s[..|x|] == x && s[|x|..|x| + |y|] == y && s[|x| + |y|..] == z;
  }

  /** Every byte of the finished table but its checksum, which makes the sum zero. */
  lemma {:induction false} ImageSpelled(m: Machine)
    ensures var b, p := Image(m), 44 + 20 * m.cpus;
            && |b| == p + 16 + 8 * (if m.qemu then 15 else 16)
            && HeaderSpelled(b[..44], m, |b|)
            && (forall i :: 0 <= i < m.cpus ==> ProcessorSpelled(b[44 + 20 * i..64 + 20 * i], m, i))
            && BusSpelled(b[p..p + 8]) && IoApicSpelled(b[p + 8..p + 16], m)
            && (forall k :: 0 <= k < (if m.qemu then 15 else 16) ==>
                  RouteSpelled(b[p + 16 + 8 * k..p + 24 + 8 * k], m, if m.qemu && k >= 2 then k + 1 else k))
            && Sum(b) % 256 == 0
  {
    hide Image, EncodeAll, Encode, Platform, Cpus, Irqs, HeaderSpelled, ProcessorSpelled, RouteSpelled, Sum;
    var b, p := Image(m), 44 + 20 * m.cpus;
    GroupsLie(m);
    ImageSums(m);
    HeaderBytes(m);
    forall i | 0 <= i < m.cpus
      ensures ProcessorSpelled(b[44 + 20 * i..64 + 20 * i], m, i)
    {
      CpusBytes(m, i);
      Slice(b, 44, p, 20 * i, 20);
    }
    PlatformBytes(m);
    PlatformSpelled(m);
    Slice(b, p, p + 16, 0, 8);
    Slice(b, p, p + 16, 8, 8);
    forall k | 0 <= k < (if m.qemu then 15 else 16)
      ensures RouteSpelled(b[p + 16 + 8 * k..p + 24 + 8 * k], m, if m.qemu && k >= 2 then k + 1 else k)
    {
      RoutesBytes(m, k);
      Slice(b, p + 16, |b|, 8 * k, 8);
      assert b[p + 16..|b|] == b[p + 16..];
      assert p + 24 + 8 * k == p + 16 + 8 * k + 8;
    }
  }

  lemma Slice(b: seq<Byte>, from: nat, to: nat, at: nat, n: nat)
    requires from <= to <= |b| && at + n <= to - from
    ensures b[from..to][at..at + n] == b[from + at..from + at + n]
  {
    var x, y := b[from..to][at..at + n], b[from + at..from + at + n];
    assert |x| == |y| && forall i :: 0 <= i < n ==> x[i] == b[from + at + i] == y[i];
  }

  lemma {:induction false} HeaderBytes(m: Machine)
    ensures HeaderSpelled(Image(m)[..44], m, |Image(m)|)
  {
    hide Image, Draft, WithLength, WithChecksum, EncodeAll, Entries, Spells, Header;
    HeaderReads(m);
    DraftHeader(m);
    var b, h := Image(m)[..44], Header(m);
    HeaderStrings(m);
    assert b[..4] == h[..4] && b[8..16] == h[8..16] && b[16..28] == h[16..28] && b[28..34] == h[28..34];
    assert b[40..44] == h[40..44];
    assert b[4..6] == Image(m)[4..6] && b[34..36] == Image(m)[34..36] && b[36..40] == Image(m)[36..40];
    Held16(|Image(m)|);
    Held16(m.cpus + 18);
    Held32(0xfee0_0000);
  }

  lemma DraftHeader(m: Machine)
    ensures |Image(m)| == |Draft(m)| >= 44 && |Header(m)| == 44
    ensures forall k :: 0 <= k < 44 && k != 4 && k != 5 && k != 7 ==> Image(m)[k] == Header(m)[k]
  {
    HeaderSize(m);
    hide Header, EncodeAll, Entries, Sum;
  }

  lemma Held16(v: nat)
    ensures Holds16(Le16(v), v % 0x1_0000)
  {
    ByteOf(v);
    ByteOf(v / 0x100);
    Whole(v, v % 0x100 + 0x100 * (v / 0x100 % 0x100), v / 0x100 / 0x100);
  }

  lemma Whole(v: nat, r: nat, n: nat)
    requires v == r + 0x1_0000 * n && r < 0x1_0000
    ensures v % 0x1_0000 == r
  {
  }

  lemma HeaderStrings(m: Machine)
    ensures var h := Header(m);
            && |h| == 44 && Spells(h[..4], "PCMP")
            && Spells(h[8..16], if m.qemu then "QEMUCPU " else "BOCHSCPU") && Spells(h[16..28], "0.1         ")
            && h[28..34] == [0, 0, 0, 0, 0, 0] && h[40..44] == [0, 0, 0, 0]
  {
    hide Header, Le16, Le32, Ascii, Spells;
    var h, oem := Header(m), if m.qemu then "QEMUCPU " else "BOCHSCPU";
    AsciiSpells("PCMP");
    AsciiSpells(oem);
    AsciiSpells("0.1         ");
    var tail := [0, 0, 0, 0, 0, 0] + Le16(m.cpus + 18) + Le32(0xfee0_0000) + [0, 0, 0, 0];
    HeaderJoined(m, oem, tail);
    HeaderCut(h, Ascii("PCMP"), [0, 0, 4, 0], Ascii(oem), Ascii("0.1         "), tail);
    assert tail[..6] == [0, 0, 0, 0, 0, 0] && tail[12..16] == [0, 0, 0, 0];
  }

  lemma HeaderJoined(m: Machine, oem: string, tail: seq<Byte>)
    requires oem == if m.qemu then "QEMUCPU " else "BOCHSCPU"
    requires tail == [0, 0, 0, 0, 0, 0] + Le16(m.cpus + 18) + Le32(0xfee0_0000) + [0, 0, 0, 0]
    ensures Header(m) == Ascii("PCMP") + [0, 0, 4, 0] + Ascii(oem) + Ascii("0.1         ") + tail
  {
    NoBytes();
    hide Le16, Le32, Ascii;
    var a, b := Le16(m.cpus + 18), Le32(0xfee0_0000);
    var c := Ascii("PCMP") + [0, 0, 4, 0] + Ascii(oem) + Ascii("0.1         ");
    assert Ascii("PCMP") + [0, 0] + [4, 0] + Ascii(oem) + Ascii("0.1         ") == c;
    assert c + [0, 0, 0, 0] + [0, 0] + a + b + [0, 0] + [0, 0]
        == c + ([0, 0, 0, 0, 0, 0] + a + b + [0, 0, 0, 0]);
  }

  lemma HeaderCut(h: seq<Byte>, a: seq<Byte>, b: seq<Byte>, c: seq<Byte>, d: seq<Byte>, tail: seq<Byte>)
    requires h == a + b + c + d + tail && |a| == |b| == 4 && |c| == 8 && |d| == 12 && |tail| == 16
    ensures |h| == 44 && h[..4] == a && h[8..16] == c && h[16..28] == d
    ensures h[28..34] == tail[..6] && h[40..44] == tail[12..16]
  {
  }

  lemma AsciiSpells(s: string)
    requires forall i :: 0 <= i < |s| ==> s[i] as int < 128
    ensures Spells(Ascii(s), s)
  {
  }

  lemma NoBytes()
    ensures Le16(0) == [0, 0] && Le32(0) == [0, 0, 0, 0]
  {
  }
}
