/** The kernel's file calls over a sector-addressed disk, each proved against the
    functions of FloppyModel. */
module FloppyDisks {
  import opened Wrappers
  import opened FloppyModel
  import opened FloppyProperties
  import opened FloppyFiles
  import Bits

  const READ_ONE: int := 0x02 * 256 + 0x01
  const WRITE_ONE: int := 0x03 * 256 + 0x01

  // ----- Addresses -----

  /** The sector the BIOS reaches: track in the high byte of cx, sector in the
      low byte, head in the high byte of dx; 18 sectors a track, two heads. */
  function Lba(cx: int, dx: int): int {
    (cx / 256 * 2 + dx / 256) * 18 + cx % 256 - 1
  }

  function TrackAndSector(n: nat): int {
    n / 36 * 256 + (n % 18 + 1)
  }

  function Head(n: nat): int {
    n / 18 % 2 * 256
  }

  /** A packed address is on the disk and comes back as the sector it was made from. */
  lemma AddressReaches(n: nat)
    requires n < DISK_SECTORS
    ensures Lba(TrackAndSector(n), Head(n)) == n
    ensures var track, sector, head := TrackAndSector(n) / 256, TrackAndSector(n) % 256, Head(n) / 256;
            && 0 <= track < 80 && 1 <= sector <= 18 && 0 <= head < 2 && Head(n) % 256 == 0
            && n == (2 * track + head) * 18 + (sector - 1)
  {
    assert TrackAndSector(n) / 256 == n / 36;
    assert n / 36 * 2 + n / 18 % 2 == n / 18;
  }

  lemma AddressInjective(m: nat, n: nat)
    requires m < DISK_SECTORS && n < DISK_SECTORS
    requires TrackAndSector(m) == TrackAndSector(n) && Head(m) == Head(n)
    ensures m == n
  {
    AddressReaches(m);
    AddressReaches(n);
  }

  lemma SliceOfRest(s: seq<Byte>, n: nat, a: nat, b: nat)
    requires a <= b && n + b <= |s|
    ensures s[n..][a..b] == s[n + a..n + b]
  {
  }

  lemma {:induction false} WithDataNext(disk: seq<Sector>, list: seq<nat>, buf: seq<Byte>, z: nat)
    requires z < |list| && |buf| >= 512 * |list| && forall m :: 0 <= m < |list| ==> list[m] < |disk|
    ensures WithData(disk, list[..z + 1], buf) == WithData(disk, list[..z],
        buf)[list[z] := buf[512 * z..512 * (z + 1)]]
    decreases z
  {
    if z > 0 {
      WithDataNext(disk[list[0] := buf[..512]], list[1..], buf[512..], z - 1);
      assert list[..z + 1][1..] == list[1..][..z];
      assert list[..z][1..] == list[1..][..z - 1];
      SliceOfRest(buf, 512, 512 * (z - 1), 512 * z);
    } else {
      assert list[..0] == [] && list[..1] == [list[0]];
    }
  }

  /** Where the loop over a sector list stops. */
  lemma ListByte(dir: Sector, e: nat, k: nat)
    requires e < ENTRIES && k <= Length(dir, e) && Stops(dir, e)
    ensures ListIndex(e, k) < 512
    ensures dir[ListIndex(e, k)] == 0 <==> k == Length(dir, e)
  {
    ScanFacts(dir, ListIndex(e, 0));
  }

  class Floppy {
    var sectors: seq<Sector>

    ghost predicate Valid()
      reads this
    {
      |sectors| == DISK_SECTORS
    }

    constructor (image: seq<Sector>)
      requires |image| == DISK_SECTORS
      ensures Valid() && sectors == image
    {
      sectors := image;
    }

    method Mod(number: int, modulo: int) returns (temp: int)
      requires 0 < modulo
      ensures temp == if number < 0 then number else number % modulo
    {
      temp := number;
      var div := modulo;
      var next := modulo;
      ghost var q := 0;
      while next <= number
        invariant temp == number - q * div && next == (q + 1) * div
        invariant number >= 0 ==> temp >= 0
        invariant q > 0 ==> number >= 0
        decreases number - next
      {
        next := next + div;
        temp := temp - div;
        q := q + 1;
      }
      if number >= 0 {
        Bits.RemainderOf(number, div, q, temp);
      }
    }

    /** One sector moved by the BIOS between the disk and `buf` at `at`. */
    method Interrupt13(ax: int, buf: array<Byte>, at: nat, cx: int, dx: int)
      requires Valid() && at + 512 <= buf.Length && 0 <= Lba(cx, dx) < DISK_SECTORS
      modifies this, buf
      ensures Valid()
      ensures ax != WRITE_ONE ==> sectors == old(sectors)
      ensures ax == WRITE_ONE ==> sectors == old(sectors)[Lba(cx, dx) := old(buf[at..at + 512])]
      ensures ax != READ_ONE ==> buf[..] == old(buf[..])
      ensures ax == READ_ONE ==>
                buf[..] == old(buf[..at]) + old(sectors)[Lba(cx, dx)] + old(buf[at + 512..])
    {
      if ax == WRITE_ONE {
        sectors := sectors[Lba(cx, dx) := buf[at..at + 512]];
      } else if ax == READ_ONE {
        var data := sectors[Lba(cx, dx)];
        forall p | 0 <= p < 512 {
          buf[at + p] := data[p];
        }
        assert buf[..at] == old(buf[..at]);
        assert buf[at..at + 512] == data;
        assert buf[at + 512..] == old(buf[at + 512..]);
        assert buf[..] == buf[..at] + buf[at..at + 512] + buf[at + 512..];
      }
    }

    method Address(sector: nat) returns (cx: int, dx: int)
      requires sector < DISK_SECTORS
      ensures cx == TrackAndSector(sector) && dx == Head(sector) && Lba(cx, dx) == sector
      ensures 1 <= cx % 256 <= 18 && 0 <= dx / 256 < 2 && dx % 256 == 0
      ensures sector == (cx / 256 * 2 + dx / 256) * 18 + (cx % 256 - 1)
    {
      var relSector := Mod(sector, 18);
      relSector := relSector + 1;
      var head := Mod(sector / 18, 2);
      var track := sector / 36;
      cx := track * 256 + relSector;
      dx := head * 256 + 0x00;
      AddressReaches(sector);
    }

    method ReadSector(buf: array<Byte>, at: nat, sector: nat)
      requires Valid() && at + 512 <= buf.Length && sector < DISK_SECTORS
      modifies this, buf
      ensures Valid() && sectors == old(sectors)
      ensures buf[..] == old(buf[..at]) + sectors[sector] + old(buf[at + 512..])
    {
      var cx, dx := Address(sector);
      Interrupt13(0x02 * 256 + 0x01, buf, at, cx, dx);
    }

    method WriteSector(buf: array<Byte>, at: nat, sector: nat)
      requires Valid() && at + 512 <= buf.Length && sector < DISK_SECTORS
      modifies this, buf
      ensures Valid() && sectors == old(sectors)[sector := old(buf[at..at + 512])]
      ensures buf[..] == old(buf[..])
    {
      var cx, dx := Address(sector);
      Interrupt13(0x03 * 256 + 0x01, buf, at, cx, dx);
    }

    /** A fresh buffer holding one sector. */
    method Fetch(sector: nat) returns (buf: array<Byte>)
      requires Valid() && sector < DISK_SECTORS
      modifies this
      ensures Valid() && sectors == old(sectors)
      ensures fresh(buf) && buf.Length == 512 && buf[..] == sectors[sector]
    {
      buf := new Byte[512](_ => 0);
      ReadSector(buf, 0, sector);
    }

    method FindFile(name: seq<Byte>, dir: array<Byte>) returns (r: int)
      requires |name| == NAME_BYTES && dir.Length == 512
      ensures r == if Find(dir[..], name, 0) == ENTRIES then -1 else Find(dir[..], name, 0)
    {
      hide Find, NameOf, NameIndex;
      ghost var d := dir[..];
      var i := 0;
      while i < 16
        invariant 0 <= i <= ENTRIES && Find(d, name, 0) == Find(d, name, i)
      {
        FindFrom(d, name, i);
        NameIndexBound(i);
        if dir[NameIndex(i, 0)] == name[0] {
          var z := 0;
          for j := 0 to 6
            invariant z == 0 <==> forall l :: 0 <= l < j ==> d[NameIndex(i, l)] == name[l]
          {
            if dir[NameIndex(i, j)] != name[j] {
              z := -1;
            }
          }
          if z == 0 {
            return i;
          }
        }
        i := i + 1;
      }
      FindFrom(d, name, ENTRIES);
      return -1;
    }

    method FindFreeEntry(dir: array<Byte>) returns (r: int)
      requires dir.Length == 512
      ensures r == if FindFree(dir[..], 0) == ENTRIES then -1 else FindFree(dir[..], 0)
    {
      for i := 0 to 16
        invariant FindFree(dir[..], 0) == FindFree(dir[..], i)
      {
        if dir[NameIndex(i, 0)] == 0x00 {
          return i;
        }
      }
      return -1;
    }

    method FindEntry(name: seq<Byte>, dir: array<Byte>) returns (e: int)
      requires |name| == NAME_BYTES && dir.Length == 512
      ensures e == if Entry(dir[..], name) == ENTRIES then -1 else Entry(dir[..], name)
    {
      hide Find, FindFree;
      e := FindFile(name, dir);
      if e == -1 {
        e := FindFreeEntry(dir);
      }
    }

    /** The directory and the map written back. */
    method WriteBack(dir: array<Byte>, diskMap: array<Byte>)
      requires Valid() && dir.Length == diskMap.Length == 512 && dir != diskMap
      modifies this, dir, diskMap
      ensures Valid()
      ensures sectors == old(sectors)[DIR_SECTOR := old(dir[..])][MAP_SECTOR := old(diskMap[..])]
    {
      assert dir[..] == dir[0..512] && diskMap[..] == diskMap[0..512];
      WriteSector(dir, 0, 2);
      WriteSector(diskMap, 0, 1);
    }

    /** The sectors found are the first of `unused`. */
    method FindUnused(diskMap: array<Byte>, n: int) returns (unused: array<nat>, k: nat)
      requires diskMap.Length == 512 && n <= LIST_BYTES
      ensures fresh(unused) && unused.Length == LIST_BYTES
      ensures k <= LIST_BYTES && unused[..k] == FirstFit(diskMap[..], 0, if n < 0 then 0 else n)
    {
      hide FirstFit;
      unused := new nat[26](_ => 0);
      k := 0;
      var j := 0;
      ghost var free := diskMap[..];
      ghost var want := if n < 0 then 0 else n;
      ghost var found: seq<nat> := [];
      while j < 512 && k < n
        invariant 0 <= j <= 512 && k <= want && unused[..k] == found
        invariant FirstFit(free, 0, want) == found + FirstFit(free, j, want - k)
        modifies unused
      {
        FirstFitFrom(free, j, want - k);
        if diskMap[j] == 0x00 {
          Joined(found, j, FirstFit(free, j + 1, want - k - 1));
          unused[k] := j;
          k := k + 1;
          found := found + [j];
        }
        j := j + 1;
      }
      FirstFitFrom(free, j, want - k);
    }

    method CopyName(dir: array<Byte>, e: nat, name: seq<Byte>)
      requires dir.Length == 512 && e < ENTRIES && |name| == NAME_BYTES
      modifies dir
      ensures dir[..] == WithFile(old(dir[..]), e, name, [])
    {
      ghost var was := dir[..];
      for l := 0 to 6
        invariant forall p :: 0 <= p < 512 ==>
            dir[p] == if NameIndex(e, 0) <= p < NameIndex(e, l) then name[p - NameIndex(e, 0)] else was[p]
      {
        dir[NameIndex(e, l)] := name[l];
      }
    }

    method ReadFile(name: seq<Byte>, buf: array<Byte>) returns (r: int)
      requires Valid() && |name| == NAME_BYTES
      requires var e := Find(Dir(sectors), name, 0);
               e < ENTRIES ==> Stops(Dir(sectors), e) && 512 * Length(Dir(sectors), e) <= buf.Length
      modifies this, buf
      ensures Valid() && sectors == old(sectors)
      ensures var e := Find(Dir(sectors), name, 0);
              if e == ENTRIES then r == -1 && buf[..] == old(buf[..])
              else r == Length(Dir(sectors), e) && buf[..] == Content(sectors, e, 0) + old(buf[512 * r..])
    {
      hide Content, Length, Find, Stops;
      var dir := Fetch(DIR_SECTOR);
      var e := FindFile(name, dir);
      if e == -1 {
        return -1;
      }
      var k := 0;
      ContentLength(sectors, e, 0);
      ListByte(Dir(sectors), e, 0);
      assert buf[..] == old(buf[..]);
      ghost var disk := sectors;
      ghost var len := Length(Dir(disk), e);
      ghost var was := buf[..];
      while dir[ListIndex(e, k)] != 0
        invariant Valid() && sectors == disk && dir[..] == Dir(disk)
        invariant 0 <= k <= len && ListIndex(e, k) < 512
        invariant |buf[..]| == |was| && buf[512 * k..] == was[512 * k..]
        invariant Content(disk, e, 0) == buf[..512 * k] + Content(disk, e, k)
        decreases len - k
      {
        ListByte(Dir(disk), e, k);
        ListByte(Dir(disk), e, k + 1);
        ghost var before := buf[..];
        ReadSector(buf, 512 * k, dir[ListIndex(e, k)]);
        ReadOn(disk, e, k, before, buf[..]);
        k := k + 1;
      }
      ListByte(Dir(disk), e, k);
      ReadAll(disk, e, buf[..], was);
      return k;
    }

    /** Writes at most 26 sectors under the name; -1 when there is no entry.
        What happens when sectors run out is not specified. */
    method WriteFile(name: seq<Byte>, buf: array<Byte>, count: int) returns (r: int)
      requires Valid() && |name| == NAME_BYTES
      requires Entry(Dir(sectors), name) < ENTRIES ==>
                 && |FirstFit(Map(sectors), 0, Clamped(count))| == Clamped(count)
                 && (forall m :: 0 <= m < Clamped(count) ==> FirstFit(Map(sectors), 0, Clamped(count))[m] < 256)
                 && 512 * Clamped(count) <= buf.Length
      modifies this, buf
      ensures Valid() && buf[..] == old(buf[..])
      ensures r == -1 || r == if count > 26 then 26 else if count < 0 then 0 else count
      ensures var e, n := Entry(old(Dir(sectors)), name), Clamped(count);
              if e == ENTRIES then r == -1 && sectors == old(sectors)
              else r == n
                   && sectors == Create(old(sectors), e, name, FirstFit(old(Map(sectors)), 0, n), old(buf[..]))
    {
      hide Entry, FirstFit, ListIndex, WithFile, WithUsed, WithData, Create;
      ghost var disk, data := sectors, buf[..];
      var dir := Fetch(DIR_SECTOR);
      var diskMap := Fetch(MAP_SECTOR);
      var n := count;
      if n > 26 {
        n := 26;
      }
      var e := FindEntry(name, dir);
      if e == -1 {
        return -1;
      }
      var unused, k := FindUnused(diskMap, n);
      ghost var list := FirstFit(Map(disk), 0, Clamped(count));
      CopyName(dir, e, name);
      Record(dir, diskMap, e, unused, k, Dir(disk), Map(disk), name);
      RecordedAll(Dir(disk), e, name, list);
      WriteData(buf, dir, e, k, name, list);
      CreateIs(disk, e, name, list, data);
      WriteBack(dir, diskMap);
      return k;
    }

    method DeleteFile(name: seq<Byte>) returns (r: int)
      requires Valid() && |name| == NAME_BYTES
      requires var e := Find(Dir(sectors), name, 0); e < ENTRIES ==> Stops(Dir(sectors), e)
      modifies this
      ensures Valid()
      ensures var e := Find(old(Dir(sectors)), name, 0);
              if e == ENTRIES then r == -1 && sectors == old(sectors)
              else r == 1 && sectors == Delete(old(sectors), e)
    {
      hide Find, Length, NameIndex, ListIndex, WithoutFile, WithoutUsed, Stops;
      ghost var disk := sectors;
      var dir := Fetch(DIR_SECTOR);
      var e := FindFile(name, dir);
      var diskMap := Fetch(MAP_SECTOR);
      if e == -1 {
        return -1;
      }
      NameIndexBound(e);
      dir[NameIndex(e, 0)] := 0x00;
      Erase(dir, diskMap, e, Dir(disk), Map(disk));
      WriteBack(dir, diskMap);
      return 1;
    }

    /** Frees the sectors of entry e, in the map and in its list. */
    method Erase(dir: array<Byte>, diskMap: array<Byte>, e: nat, ghost dir0: Sector, ghost map0: Sector)
      requires dir.Length == diskMap.Length == 512 && dir != diskMap && e < ENTRIES && NameIndex(e, 0) < 512
      requires Stops(dir0, e)
      requires dir[..] == dir0[NameIndex(e, 0) := 0] && diskMap[..] == map0
      modifies dir, diskMap
      ensures dir[..] == WithoutFile(dir0, e, Length(dir0, e))
      ensures diskMap[..] == WithoutUsed(map0, ListOf(dir0, e))
    {
      hide Length, NameIndex, ListIndex, WithoutFile, WithoutUsed, ListOf, Stops;
      ghost var list, n := ListOf(dir0, e), Length(dir0, e);
      EraseNone(dir0, map0, e);
      ListByte(dir0, e, 0);
      EraseOne(dir0, map0, e, 0);
      assert list[..0] == [];
      var j := 0;
      while dir[ListIndex(e, j)] != 0x00
        invariant 0 <= j <= n && ListIndex(e, j) < 512 && dir[ListIndex(e, j)] == dir0[ListIndex(e, j)]
        invariant |list| == n && dir[..] == WithoutFile(dir0, e, j) && diskMap[..] == WithoutUsed(map0, list[..j])
        decreases n - j
        modifies dir, diskMap
      {
        ListByte(dir0, e, j);
        EraseOne(dir0, map0, e, j);
        diskMap[dir[ListIndex(e, j)]] := 0x00;
        dir[ListIndex(e, j)] := 0x00;
        j := j + 1;
        ListByte(dir0, e, j);
        EraseOne(dir0, map0, e, j);
      }
      ListByte(dir0, e, j);
      assert list[..j] == list;
    }

    /** One call, with the caller's buffer as a value. */
    method Serve(op: FileOp) returns (reply: Reply)
      requires Valid() && ListsSound(Dir(sectors)) && InScope(sectors, op)
      modifies this
      ensures Valid() && sectors == After(old(sectors), op) && reply == Answer(old(sectors), op)
    {
      hide Length, Content, ListsSound, Find, FindFree, FirstFit, Create, Delete;
      BoundedLists(sectors);
      ghost var disk := sectors;
      assert forall i :: 0 <= i < ENTRIES ==> Stops(Dir(disk), i);
      match op
      case Save(name, n, data) =>
        var buf := new Byte[|data|](i requires 0 <= i < |data| => data[i]);
        assert buf[..] == data;
        var r := WriteFile(name, buf, n);
        reply := Reply(r, []);
      case Load(name) =>
        var buf := new Byte[512 * MAX_SECTORS](_ => 0);
        var r := ReadFile(name, buf);
        if r == -1 {
          reply := Reply(-1, []);
        } else {
          ContentLength(disk, Find(Dir(disk), name, 0), 0);
          reply := Reply(r, buf[..512 * r]);
        }
      case Remove(name) =>
        var r := DeleteFile(name);
        reply := Reply(r, []);
    }

    /** Any run of calls behaves as the same calls on a map from names to
        contents, and leaves the disk sound. */
    method Session(ops: seq<FileOp>, ghost reserved: set<nat>) returns (replies: seq<Reply>)
      requires Valid() && Sound(sectors, reserved) && AllInScope(sectors, reserved, ops)
      modifies this
      ensures Valid() && Sound(sectors, reserved)
      ensures (Files(sectors), replies) == MapRun(old(Files(sectors)), ops)
    {
      hide InScope, After, Answer, MapAfter, MapAnswer, Files, ListsSound, NamesDistinct, MapSound;
      ghost var disk := sectors;
      RunRefines(disk, reserved, ops);
      replies := [];
      var i := 0;
      while i < |ops|
        invariant 0 <= i <= |ops| && Valid() && Sound(sectors, reserved)
        invariant AllInScope(sectors, reserved, ops[i..])
        invariant DiskRun(disk, reserved, ops).0 == DiskRun(sectors, reserved, ops[i..]).0
        invariant DiskRun(disk, reserved, ops).1 == replies + DiskRun(sectors, reserved, ops[i..]).1
        modifies this
      {
        assert ops[i..][1..] == ops[i + 1..];
        CallRefines(sectors, reserved, ops[i]);
        var reply := Serve(ops[i]);
        replies := replies + [reply];
        i := i + 1;
      }
      assert ops[i..] == [];
      assert DiskRun(sectors, reserved, ops[i..]) == (sectors, []);
      assert DiskRun(disk, reserved, ops).1 == replies + [] == replies;
    }

    /** Marks the first n unused sectors as taken, in the map and in entry e. */
    method Record(dir: array<Byte>, diskMap: array<Byte>, e: nat, unused: array<nat>, n: nat,
                  ghost dir0: Sector, ghost map0: Sector, ghost name: seq<Byte>)
      requires dir.Length == diskMap.Length == 512 && dir != diskMap && e < ENTRIES && |name| == NAME_BYTES
      requires n <= LIST_BYTES == unused.Length && forall m :: 0 <= m < n ==> 0 <= unused[m] < 512
      requires dir[..] == WithFile(dir0, e, name, []) && diskMap[..] == map0
      modifies dir, diskMap
      ensures dir[..] == WithFile(dir0, e, name, unused[..n]) && diskMap[..] == WithUsed(map0, unused[..n])
    {
      hide NameIndex, ListIndex, FileByte, WithFile, WithUsed;
      ghost var list: seq<nat> := unused[..n];
      WithNoneUsed(map0, list[..0]);
      var m := 0;
      while m < n
        invariant 0 <= m <= n
        invariant dir[..] == WithFile(dir0, e, name, list[..m])
        invariant diskMap[..] == WithUsed(map0, list[..m])
        modifies dir, diskMap
      {
        RecordOne(dir0, map0, e, name, list, m);
        diskMap[unused[m]] := 0xFF;
        dir[ListIndex(e, m)] := unused[m] % 256;
        m := m + 1;
      }
      assert list[..m] == list;
    }

    /** Writes the first k sectors of `buf` where the list of entry e says. */
    method WriteData(buf: array<Byte>, dir: array<Byte>, e: nat, k: nat, ghost name: seq<Byte>, ghost list: seq<nat>)
      requires Valid() && dir.Length == 512 && dir != buf && e < ENTRIES
      requires |name| == NAME_BYTES && k == |list| <= LIST_BYTES && 512 * k <= buf.Length
      requires forall m :: 0 <= m < k ==> ListIndex(e, m) < 512 && dir[ListIndex(e, m)] == list[m] < 256
      modifies this, buf
      ensures Valid() && buf[..] == old(buf[..])
      ensures sectors == WithData(old(sectors), list, buf[..])
    {
      hide ListIndex, WithData;
      ghost var disk, data := sectors, buf[..];
      WithDataNone(disk, data);
      var z := 0;
      while z < k
        invariant Valid() && 0 <= z <= k && buf[..] == data
        invariant sectors == WithData(disk, list[..z], data)
        modifies this, buf
      {
        WithDataNext(disk, list, data, z);
        assert buf[z * 512..z * 512 + 512] == data[512 * z..512 * (z + 1)];
        WriteSector(buf, z * 512, dir[ListIndex(e, z)]);
        z := z + 1;
      }
      assert list[..z] == list;
    }
  }

  function Clamped(count: int): nat {
    if count > LIST_BYTES then LIST_BYTES else if count < 0 then 0 else count
  }

  lemma ReadAll(disk: seq<Sector>, e: nat, buf: seq<Byte>, was: seq<Byte>)
    requires |disk| == DISK_SECTORS && e < ENTRIES
    requires var n := 512 * Length(Dir(disk), e);
             && n <= |buf| == |was| && buf[n..] == was[n..]
             && Content(disk, e, 0) == buf[..n] + Content(disk, e, Length(Dir(disk), e))
    ensures buf == Content(disk, e, 0) + was[512 * Length(Dir(disk), e)..]
  {
    var n := 512 * Length(Dir(disk), e);
    assert buf == buf[..n] + buf[n..];
  }

  /** One more sector read into place. */
  lemma ReadOn(disk: seq<Sector>, e: nat, k: nat, before: seq<Byte>, after: seq<Byte>)
    requires |disk| == DISK_SECTORS && e < ENTRIES && k < Length(Dir(disk), e)
    requires 512 * Length(Dir(disk), e) <= |before|
    requires after == before[..512 * k] + disk[Dir(disk)[ListIndex(e, k)]] + before[512 * k + 512..]
    requires Content(disk, e, 0) == before[..512 * k] + Content(disk, e, k)
    ensures |after| == |before|
    ensures after[512 * (k + 1)..] == before[512 * (k + 1)..]
    ensures Content(disk, e, 0) == after[..512 * (k + 1)] + Content(disk, e, k + 1)
  {
    var data := disk[Dir(disk)[ListIndex(e, k)]];
    assert after[..512 * (k + 1)] == before[..512 * k] + data;
  }

  lemma NameIndexBound(i: nat)
    requires i < ENTRIES
    ensures forall l :: 0 <= l < NAME_BYTES ==> NameIndex(i, l) < 512
  {
  }

  /** One step of the search, byte by byte. */
  lemma FindFrom(dir: Sector, name: seq<Byte>, i: nat)
    requires i <= ENTRIES && |name| == NAME_BYTES
    ensures i == ENTRIES ==> Find(dir, name, i) == ENTRIES
    ensures i < ENTRIES ==>
              Find(dir, name, i) == if forall l :: 0 <= l < NAME_BYTES ==> dir[NameIndex(i, l)] == name[l] then i
                                    else Find(dir, name, i + 1)
  {
    if i < ENTRIES {
      forall l | 0 <= l < NAME_BYTES
        ensures NameOf(dir, i)[l] == dir[NameIndex(i, l)]
      {
      }
    }
  }

  lemma Joined(a: seq<nat>, x: nat, b: seq<nat>)
    ensures a + ([x] + b) == (a + [x]) + b
  {
  }

  lemma WithDataNone(disk: seq<Sector>, buf: seq<Byte>)
    ensures WithData(disk, [], buf) == disk
  {
  }

  /** One more sector recorded in the list and the map. */
  lemma RecordOne(dir: Sector, diskMap: Sector, e: nat, name: seq<Byte>, list: seq<nat>, m: nat)
    requires e < ENTRIES && |name| == NAME_BYTES && m < |list| <= LIST_BYTES && list[m] < 512
    ensures ListIndex(e, m) < 512
    ensures WithFile(dir, e, name, list[..m + 1]) == WithFile(dir, e, name, list[..m])[ListIndex(e,
        m) := list[m] % 256]
    ensures WithUsed(diskMap, list[..m + 1]) == WithUsed(diskMap, list[..m])[list[m] := USED]
  {
    forall p | 0 <= p < 512
      ensures FileByte(dir, e, name, list[..m + 1], p)
              == if p == ListIndex(e, m) then list[m] % 256 else FileByte(dir, e, name, list[..m], p)
    {
    }
    assert list[..m + 1] == list[..m] + [list[m]];
  }

  lemma RecordedAll(dir: Sector, e: nat, name: seq<Byte>, list: seq<nat>)
    requires e < ENTRIES && |name| == NAME_BYTES && |list| <= LIST_BYTES
    requires forall z :: 0 <= z < |list| ==> list[z] < 256
    ensures forall z :: 0 <= z < |list| ==>
        ListIndex(e, z) < 512 && WithFile(dir, e, name, list)[ListIndex(e, z)] == list[z]
  {
    forall z | 0 <= z < |list|
      ensures ListIndex(e, z) < 512 && WithFile(dir, e, name, list)[ListIndex(e, z)] == list[z]
    {
      WithFileSlot(dir, e, name, list, e, z);
    }
  }

  lemma CreateIs(disk: seq<Sector>, e: nat, name: seq<Byte>, list: seq<nat>, buf: seq<Byte>)
    requires |disk| == DISK_SECTORS && e < ENTRIES && |name| == NAME_BYTES && |list| <= LIST_BYTES
    requires |buf| >= 512 * |list| && forall m :: 0 <= m < |list| ==> list[m] < |disk|
    ensures Create(disk, e, name, list, buf)
            == WithData(disk, list, buf)
               [DIR_SECTOR := WithFile(Dir(disk), e, name, list)][MAP_SECTOR := WithUsed(Map(disk), list)]
  {
  }

  lemma EraseNone(dir: Sector, diskMap: Sector, e: nat)
    requires e < ENTRIES
    ensures NameIndex(e, 0) < 512 && WithoutFile(dir, e, 0) == dir[NameIndex(e, 0) := 0]
    ensures WithoutUsed(diskMap, []) == diskMap
  {
  }

  /** One more sector erased, its byte still in the list before. */
  lemma EraseOne(dir: Sector, diskMap: Sector, e: nat, j: nat)
    requires e < ENTRIES && j <= Length(dir, e) && Stops(dir, e)
    ensures |ListOf(dir, e)| == Length(dir, e)
    ensures ListIndex(e, j) < 512 && WithoutFile(dir, e, j)[ListIndex(e, j)] == dir[ListIndex(e, j)]
    ensures j < Length(dir, e) ==>
              var s := dir[ListIndex(e, j)];
              && WithoutFile(dir, e, j + 1) == WithoutFile(dir, e, j)[ListIndex(e, j) := 0]
              && WithoutUsed(diskMap, ListOf(dir, e)[..j + 1]) == WithoutUsed(diskMap, ListOf(dir, e)[..j])[s := 0]
  {
    ListByte(dir, e, j);
    hide Length, Stops;
    assert WithoutFile(dir, e, j)[ListIndex(e, j)] == RemainingByte(dir, e, j, ListIndex(e, j));
    if j < Length(dir, e) {
      forall p | 0 <= p < 512
        ensures RemainingByte(dir, e, j + 1, p) == if p == ListIndex(e, j) then 0 else RemainingByte(dir, e, j, p)
      {
      }
      var list := ListOf(dir, e);
      assert list[..j + 1] == list[..j] + [dir[ListIndex(e, j)]];
    }
  }
}
