/** The floppy as a map from names to contents: calls on the disk and calls on
    the map give the same answers, over every run. */
module FloppyFiles {
  import opened Wrappers
  import opened FloppyModel
  import opened FloppyProperties

  // ----- Contents -----

  /** The contents from one sector on. */
  lemma ContentStep(disk: seq<Sector>, i: nat, k: nat)
    requires |disk| == DISK_SECTORS && i < ENTRIES && k <= Length(Dir(disk), i) <= LIST_BYTES
    ensures k == Length(Dir(disk), i) ==> Content(disk, i, k) == []
    ensures k < Length(Dir(disk), i) ==>
              Content(disk, i, k) == disk[Slot(Dir(disk), i, k)] + Content(disk, i, k + 1)
  {
  }

  lemma {:induction false} ContentSame(disk: seq<Sector>, disk': seq<Sector>, i: nat, k: nat)
    requires |disk| == |disk'| == DISK_SECTORS && i < ENTRIES
    requires k <= Length(Dir(disk), i) == Length(Dir(disk'), i) <= LIST_BYTES
    requires forall j :: k <= j < Length(Dir(disk), i) ==>
               Slot(Dir(disk'), i, j) == Slot(Dir(disk), i, j)
                 && disk'[Slot(Dir(disk), i, j)] == disk[Slot(Dir(disk), i, j)]
    ensures Content(disk', i, k) == Content(disk, i, k)
    decreases Length(Dir(disk), i) - k
  {
    hide Length, Dir, Slot, Content;
    ContentStep(disk, i, k);
    ContentStep(disk', i, k);
    if k < Length(Dir(disk), i) {
      ContentSame(disk, disk', i, k + 1);
    }
  }

  /** Contents that begin with the first n sectors of a buffer. */
  lemma {:induction false} ContentIs(disk: seq<Sector>, i: nat, buf: seq<Byte>, k: nat, n: nat)
    requires |disk| == DISK_SECTORS && i < ENTRIES
    requires k <= n <= Length(Dir(disk), i) <= LIST_BYTES && |buf| >= 512 * n
    requires forall j :: k <= j < n ==> disk[Slot(Dir(disk), i, j)] == buf[512 * j..512 * (j + 1)]
    ensures Content(disk, i, k) == buf[512 * k..512 * n] + Content(disk, i, n)
    decreases n - k
  {
    hide Length, Dir, Slot, Content;
    if k < n {
      ContentStep(disk, i, k);
      ContentIs(disk, i, buf, k + 1, n);
      Slices(buf, 512 * k, 512 * (k + 1), 512 * n);
      Append(buf[512 * k..512 * (k + 1)], buf[512 * (k + 1)..512 * n], Content(disk, i, n));
    } else {
      assert buf[512 * k..512 * n] == [];
    }
  }

  lemma Append(a: seq<Byte>, b: seq<Byte>, c: seq<Byte>)
    ensures a + (b + c) == (a + b) + c
  {
  }

  lemma Slices(s: seq<Byte>, a: nat, b: nat, c: nat)
    requires a <= b <= c <= |s|
    ensures s[a..b] + s[b..c] == s[a..c]
  {
  }

  lemma {:induction false} ContentLength(disk: seq<Sector>, i: nat, k: nat)
    requires |disk| == DISK_SECTORS && i < ENTRIES && k <= Length(Dir(disk), i)
    ensures |Content(disk, i, k)| == 512 * (Length(Dir(disk), i) - k)
    decreases Length(Dir(disk), i) - k
  {
    if k < Length(Dir(disk), i) {
      ContentLength(disk, i, k + 1);
    }
  }

  /** Sectors in a list are neither reserved nor free. */
  lemma ListedSectors(disk: seq<Sector>, reserved: set<nat>, i: nat)
    requires Sound(disk, reserved) && i < ENTRIES
    ensures forall k :: 0 <= k < Length(Dir(disk), i) ==>
              && Slot(Dir(disk), i, k) !in reserved
              && Map(disk)[Slot(Dir(disk), i, k)] != 0
  {
    hide Slot, Length;
    LengthFacts(Dir(disk), i);
    forall k | 0 <= k < Length(Dir(disk), i)
      ensures Slot(Dir(disk), i, k) !in reserved && Map(disk)[Slot(Dir(disk), i, k)] != 0
    {
      assert Owned(Dir(disk), Slot(Dir(disk), i, k));
    }
  }

  /** Writing a file leaves every other file's contents as they were. */
  lemma {:induction false} CreateKeepsOthers(disk: seq<Sector>, reserved: set<nat>, e: nat, name: seq<Byte>,
                                             n: nat, buf: seq<Byte>, i: nat)
    requires Sound(disk, reserved) && e < ENTRIES && |name| == NAME_BYTES
    requires Fits(Map(disk), n) && |buf| >= 512 * n && i < ENTRIES && i != e
    ensures var d := Create(disk, e, name, FirstFit(Map(disk), 0, n), buf);
            Length(Dir(d), i) == Length(Dir(disk), i) && Content(d, i, 0) == Content(disk, i, 0)
  {
    hide WithFile, WithUsed, WithData, FirstFit, Length, Slot, Content;
    var list := FirstFit(Map(disk), 0, n);
    var d := Create(disk, e, name, list, buf);
    FirstFitFresh(disk, reserved, list);
    CreateLength(Dir(disk), e, name, list, i);
    ListedSectors(disk, reserved, i);
    forall j | 0 <= j < Length(Dir(disk), i)
      ensures Slot(Dir(d), i, j) == Slot(Dir(disk), i, j) && d[Slot(Dir(disk), i, j)] == disk[Slot(Dir(disk), i, j)]
    {
      WithFileSlot(Dir(disk), e, name, list, i, j);
    }
    ContentSame(disk, d, i, 0);
  }

  /** A file reads back as the sectors that were written, followed by what a
      longer old list under the name still holds. */
  lemma {:induction false} CreateReadsBack(disk: seq<Sector>, reserved: set<nat>, e: nat, name: seq<Byte>, n: nat,
                                           buf: seq<Byte>)
    requires Sound(disk, reserved) && e < ENTRIES && |name| == NAME_BYTES
    requires Fits(Map(disk), n) && |buf| >= 512 * n
    ensures var d, before := Create(disk, e, name, FirstFit(Map(disk), 0, n), buf), Length(Dir(disk), e);
            && Length(Dir(d), e) == (if n > before then n else before)
            && Content(d, e, 0) == buf[..512 * n] + if n < before then Content(disk, e, n) else []
  {
    hide WithFile, WithUsed, WithData, FirstFit, Length, Slot, Content;
    var list := FirstFit(Map(disk), 0, n);
    var d := Create(disk, e, name, list, buf);
    FirstFitFresh(disk, reserved, list);
    CreateLength(Dir(disk), e, name, list, e);
    forall j | 0 <= j < n
      ensures d[Slot(Dir(d), e, j)] == buf[512 * j..512 * (j + 1)]
    {
      WithFileSlot(Dir(disk), e, name, list, e, j);
      WithDataAt(disk, list, buf, j);
      assert Map(disk)[list[j]] == 0;
    }
    ContentIs(d, e, buf, 0, n);
    if n < Length(Dir(disk), e) {
      OldTail(disk, reserved, e, name, n, buf);
    } else {
      ContentStep(d, e, n);
    }
  }

  lemma OldTail(disk: seq<Sector>, reserved: set<nat>, e: nat, name: seq<Byte>, n: nat, buf: seq<Byte>)
    requires Sound(disk, reserved) && e < ENTRIES && |name| == NAME_BYTES
    requires Fits(Map(disk), n) && |buf| >= 512 * n && n < Length(Dir(disk), e)
    ensures var d := Create(disk, e, name, FirstFit(Map(disk), 0, n), buf);
            Length(Dir(d), e) == Length(Dir(disk), e) && Content(d, e, n) == Content(disk, e, n)
  {
    hide WithFile, WithUsed, WithData, FirstFit, Length, Slot, Content;
    var list := FirstFit(Map(disk), 0, n);
    var d := Create(disk, e, name, list, buf);
    FirstFitFresh(disk, reserved, list);
    CreateLength(Dir(disk), e, name, list, e);
    ListedSectors(disk, reserved, e);
    forall j | n <= j < Length(Dir(disk), e)
      ensures Slot(Dir(d), e, j) == Slot(Dir(disk), e, j) && d[Slot(Dir(disk), e, j)] == disk[Slot(Dir(disk), e, j)]
    {
      WithFileSlot(Dir(disk), e, name, list, e, j);
    }
    ContentSame(disk, d, e, n);
  }

  /** Deleting a file leaves every other file's contents as they were. */
  lemma {:induction false} DeleteKeepsOthers(disk: seq<Sector>, reserved: set<nat>, e: nat, i: nat)
    requires Sound(disk, reserved) && e < ENTRIES && Length(Dir(disk), e) <= LIST_BYTES && i < ENTRIES && i != e
    ensures var d := Delete(disk, e);
            Length(Dir(d), i) == Length(Dir(disk), i) <= LIST_BYTES && Content(d, i, 0) == Content(disk, i, 0)
  {
    hide WithoutFile, WithoutUsed, Length, Slot, Content;
    var d := Delete(disk, e);
    DeleteLength(Dir(disk), e, i);
    ListedSectors(disk, reserved, i);
    forall j | 0 <= j < Length(Dir(disk), i)
      ensures Slot(Dir(d), i, j) == Slot(Dir(disk), i, j)
    {
      WithoutFileSlot(Dir(disk), e, Length(Dir(disk), e), i, j);
    }
    ContentSame(disk, d, i, 0);
  }

  /** Deleting a file just written gives back the map byte for byte, every list,
      and every sector but the directory and those the file was written to. */
  lemma {:induction false} DeleteUndoesCreate(disk: seq<Sector>, reserved: set<nat>, e: nat, name: seq<Byte>,
                                              n: nat, buf: seq<Byte>)
    requires Sound(disk, reserved) && e < ENTRIES && |name| == NAME_BYTES && Length(Dir(disk), e) == 0
    requires Fits(Map(disk), n) && |buf| >= 512 * n
    ensures var list := FirstFit(Map(disk), 0, n);
            var written := Create(disk, e, name, list, buf);
            && Length(Dir(written), e) == n
            && var back := Delete(written, e);
               && Map(back) == Map(disk)
               && (forall i, k :: 0 <= i < ENTRIES && 0 <= k < LIST_BYTES ==>
                   Slot(Dir(back), i, k) == Slot(Dir(disk), i, k))
               && (forall s :: 0 <= s < DISK_SECTORS && s != DIR_SECTOR && s !in list ==> back[s] == disk[s])
  {
    hide WithFile, WithoutFile, WithData, FirstFit, Length, Slot, ListOf;
    var list := FirstFit(Map(disk), 0, n);
    var written := Create(disk, e, name, list, buf);
    FirstFitFresh(disk, reserved, list);
    CreateReadsBack(disk, reserved, e, name, n, buf);
    var dir := WithFile(Dir(disk), e, name, list);
    CreatedListOf(Dir(disk), e, name, list);
    LengthFacts(Dir(disk), e);
    forall s | 0 <= s < 512
      ensures WithoutUsed(WithUsed(Map(disk), list), ListOf(dir, e))[s] == Map(disk)[s]
    {
    }
    forall i, k | 0 <= i < ENTRIES && 0 <= k < LIST_BYTES
      ensures Slot(WithoutFile(dir, e, n), i, k) == Slot(Dir(disk), i, k)
    {
      WithFileSlot(Dir(disk), e, name, list, i, k);
      WithoutFileSlot(dir, e, n, i, k);
    }
  }

  lemma CreatedListOf(dir: Sector, e: nat, name: seq<Byte>, list: seq<nat>)
    requires e < ENTRIES && |name| == NAME_BYTES
    requires ListsSound(dir) && Length(dir, e) == 0 && Fresh(dir, list)
    ensures var d := WithFile(dir, e, name, list);
            Length(d, e) == |list| && ListOf(d, e) == list
  {
    hide WithFile, Length;
    var d := WithFile(dir, e, name, list);
    CreateLength(dir, e, name, list, e);
    forall k | 0 <= k < |list|
      ensures ListOf(d, e)[k] == list[k]
    {
      WithFileSlot(dir, e, name, list, e, k);
      assert ListOf(d, e)[k] == Slot(d, e, k);
    }
  }

  // ----- Overwriting -----

  lemma WithNoFile(dir: Sector, e: nat, name: seq<Byte>)
    requires e < ENTRIES && NameOf(dir, e) == name
    ensures WithFile(dir, e, name, []) == dir
  {
    forall p | 0 <= p < 512
      ensures WithFile(dir, e, name, [])[p] == dir[p]
    {
      assert WithFile(dir, e, name, [])[p] == FileByte(dir, e, name, [], p);
      if NameIndex(e, 0) <= p < NameIndex(e, NAME_BYTES) {
        assert NameOf(dir, e)[p - NameIndex(e, 0)] == dir[p];
      }
    }
  }

  /** The first sector of an overwritten list is used and nobody's. */
  lemma OverwriteLoses(dir: Sector, diskMap: Sector, reserved: set<nat>, e: nat, name: seq<Byte>, list: seq<nat>)
    requires e < ENTRIES && |name| == NAME_BYTES && 0 < |list|
    requires ListsSound(dir) && 0 < Length(dir, e) && MapSound(dir, diskMap, reserved) && Fresh(dir, list)
    ensures !MapSound(WithFile(dir, e, name, list), WithUsed(diskMap, list), reserved)
  {
    hide WithFile, Slot, Length;
    var d := WithFile(dir, e, name, list);
    LengthFacts(dir, e);
    var s := Slot(dir, e, 0);
    assert Owned(dir, s);
    if Owned(d, s) {
      var i, k :| 0 <= i < ENTRIES && 0 <= k < LIST_BYTES && Slot(d, i, k) == s;
      WithFileSlot(dir, e, name, list, i, k);
    }
    assert !Owned(d, s) && s !in reserved;
  }

  /** Writing under a name keeps the file system sound exactly when there is
      nothing to write or the entry has no sectors: an old list is not freed. */
  lemma {:induction false} WriteSoundIff(disk: seq<Sector>, reserved: set<nat>, e: nat, name: seq<Byte>, n: nat,
                                         buf: seq<Byte>)
    requires Sound(disk, reserved) && Takes(Dir(disk), e, name)
    requires Fits(Map(disk), n) && |buf| >= 512 * n
    ensures Sound(Create(disk, e, name, FirstFit(Map(disk), 0, n), buf), reserved)
            <==> n == 0 || Length(Dir(disk), e) == 0
  {
    hide WithFile, WithUsed, NamesDistinct, MapSound, FirstFit, Length, Fresh;
    var list := FirstFit(Map(disk), 0, n);
    if Length(Dir(disk), e) == 0 {
      CreateSound(disk, reserved, e, name, n, buf);
    } else if n == 0 {
      WithNoFile(Dir(disk), e, name);
      WithNoneUsed(Map(disk), list);
      assert Create(disk, e, name, list, buf) == disk;
    } else {
      FirstFitFresh(disk, reserved, list);
      OverwriteLoses(Dir(disk), Map(disk), reserved, e, name, list);
    }
  }

  lemma WithNoneUsed(diskMap: Sector, list: seq<nat>)
    requires list == []
    ensures WithUsed(diskMap, list) == diskMap
  {
  }

  // ----- Twenty-six sectors -----

  lemma {:induction false} TwentySixWritten(disk: seq<Sector>, reserved: set<nat>, e: nat, name: seq<Byte>,
                                            buf: seq<Byte>)
    requires Sound(disk, reserved) && e < ENTRIES && |name| == NAME_BYTES && |buf| >= 512 * LIST_BYTES
    requires Named(FirstFit(Map(disk), 0, LIST_BYTES), LIST_BYTES)
    ensures var d := Create(disk, e, name, FirstFit(Map(disk), 0, LIST_BYTES), buf);
            forall m :: 0 <= m < LIST_BYTES ==>
              Slot(Dir(d), e, m) != 0 && d[Slot(Dir(d), e, m)] == buf[512 * m..512 * (m + 1)]
  {
    hide WithFile, WithUsed, WithData, FirstFit, Length, Slot, ListsSound, NamesDistinct, Owned;
    var list := FirstFit(Map(disk), 0, LIST_BYTES);
    var d := Create(disk, e, name, list, buf);
    forall m | 0 <= m < LIST_BYTES
      ensures Slot(Dir(d), e, m) != 0 && d[Slot(Dir(d), e, m)] == buf[512 * m..512 * (m + 1)]
    {
      assert Map(disk)[list[m]] == 0 && Map(disk)[0] != 0 && Map(disk)[1] != 0 && Map(disk)[2] != 0;
      WithFileSlot(Dir(disk), e, name, list, e, m);
      WithDataAt(disk, list, buf, m);
    }
  }

  /** A file of 26 sectors reads back exactly when the next entry is free; the last
      entry has none, and there the loop runs out of the sector. */
  lemma {:induction false} TwentySixReadBackIff(disk: seq<Sector>, reserved: set<nat>, e: nat, name: seq<Byte>,
                                                buf: seq<Byte>)
    requires Sound(disk, reserved) && e < ENTRIES && |name| == NAME_BYTES && |buf| >= 512 * LIST_BYTES
    requires Named(FirstFit(Map(disk), 0, LIST_BYTES), LIST_BYTES)
    ensures var d := Create(disk, e, name, FirstFit(Map(disk), 0, LIST_BYTES), buf);
            Stops(Dir(d), e) && Length(Dir(d), e) == LIST_BYTES && Content(d, e, 0) == buf[..512 * LIST_BYTES]
            <==> e < ENTRIES - 1 && Free(Dir(disk), e + 1)
  {
    TwentySixWritten(disk, reserved, e, name, buf);
    hide WithFile, WithUsed, WithData, FirstFit, Length, Slot, Sound, Content, Free;
    var list := FirstFit(Map(disk), 0, LIST_BYTES);
    var d := Create(disk, e, name, list, buf);
    if e < ENTRIES - 1 {
      TwentySixSectorsRunOn(Dir(d), e);
      WithFileName(Dir(disk), e, name, list, e + 1);
      if Free(Dir(disk), e + 1) {
        ContentIs(d, e, buf, 0, LIST_BYTES);
        ContentStep(d, e, LIST_BYTES);
      }
    }
  }

  lemma FormattedTakes(next: seq<Byte>)
    requires |next| == NAME_BYTES && next[0] != 0
    ensures Sound(Formatted(), {0, 1, 2}) && Takes(Dir(Formatted()), 1, next) && Fits(Map(Formatted()), 0)
    ensures Length(Dir(Formatted()), 0) == 0 && Length(Dir(Formatted()), 1) == 0 && Free(Dir(Formatted()), 0)
  {
    hide Sound, Formatted, NameOf, Free, FreeFrom, FirstFit, Length, Fits, InScope;
    FormattedEmpty();
    FormattedSound(next, 0, []);
    FitsIff(Map(Formatted()), 0);
    forall i | 0 <= i < ENTRIES
      ensures NameOf(Dir(Formatted()), i) != next
    {
      assert NameOf(Dir(Formatted()), i)[0] != next[0];
    }
  }

  /** An empty file changes neither the map nor another entry's list. */
  lemma EmptyFileWritten(disk: seq<Sector>, reserved: set<nat>, e: nat, name: seq<Byte>, i: nat)
    requires Sound(disk, reserved) && Takes(Dir(disk), e, name) && Fits(Map(disk), 0)
    requires Length(Dir(disk), e) == 0 && i < ENTRIES && i != e && Length(Dir(disk), i) == 0
    ensures var d := Create(disk, e, name, [], []);
            Sound(d, reserved) && Map(d) == Map(disk) && Length(Dir(d), i) == 0
  {
    SoundLists(disk, reserved);
    hide WithFile, WithData, WithUsed, Length, Free, Sound, NameOf, FirstFit, ListsSound, Takes, Fits;
    var none: seq<nat> := [];
    FirstFitFrom(Map(disk), 0, 0);
    WithNoneUsed(Map(disk), none);
    assert e < ENTRIES && |name| == NAME_BYTES && |disk| == DISK_SECTORS by { TakesShape(disk, reserved, e, name); }
    CreateLength(Dir(disk), e, name, none, i);
    CreateSound(disk, reserved, e, name, 0, []);
  }

  lemma TakesShape(disk: seq<Sector>, reserved: set<nat>, e: nat, name: seq<Byte>)
    requires Sound(disk, reserved) && Takes(Dir(disk), e, name)
    ensures e < ENTRIES && |name| == NAME_BYTES && |disk| == DISK_SECTORS
  {
  }

  lemma SoundLists(disk: seq<Sector>, reserved: set<nat>)
    requires Sound(disk, reserved)
    ensures ListsSound(Dir(disk))
  {
  }

  /** The shortest case of the other kind: 26 sectors in entry 0, an empty file in entry 1. */
  lemma {:induction false} TwentySixSectorsLost(name: seq<Byte>, next: seq<Byte>, buf: seq<Byte>)
    requires |name| == |next| == NAME_BYTES && name[0] != 0 && next[0] != 0 && |buf| >= 512 * LIST_BYTES
    ensures var disk := Create(Formatted(), 1, next, [], []);
            && Sound(disk, {0, 1, 2}) && Named(FirstFit(Map(disk), 0, LIST_BYTES), LIST_BYTES)
            && Free(Dir(disk), 0) && Length(Dir(disk), 0) == 0
            && Length(Dir(Create(disk, 0, name, FirstFit(Map(disk), 0, LIST_BYTES), buf)), 0) > LIST_BYTES
  {
    hide WithFile, WithData, FirstFit, Length, Slot, Free, Sound, FreeFrom, Formatted;
    var disk := Create(Formatted(), 1, next, [], []);
    FormattedEmpty();
    FormattedTakes(next);
    EmptyFileWritten(Formatted(), {0, 1, 2}, 1, next, 0);
    WithFileName(Dir(Formatted()), 1, next, [], 0);
    WithFileName(Dir(Formatted()), 1, next, [], 1);
    FirstFitFinds(Map(disk), 0, LIST_BYTES);
    TwentySixWritten(disk, {0, 1, 2}, 0, name, buf);
    var list := FirstFit(Map(disk), 0, LIST_BYTES);
    WithFileName(Dir(disk), 0, name, list, 1);
    TwentySixSectorsRunOn(Dir(Create(disk, 0, name, list, buf)), 0);
  }

  // ----- Names to contents -----

  /** The names in use among the first n entries. */
  function Names(dir: Sector, n: nat): (r: set<seq<Byte>>)
    requires n <= ENTRIES
    ensures forall x :: x in r ==> |x| == NAME_BYTES
  {
    if n == 0 then {} else Names(dir, n - 1) + if Free(dir, n - 1) then {} else {NameOf(dir, n - 1)}
  }

  lemma {:induction false} NameIn(dir: Sector, n: nat, i: nat)
    requires i < n <= ENTRIES && !Free(dir, i)
    ensures NameOf(dir, i) in Names(dir, n)
    decreases n
  {
    hide NameOf, Free;
    if i < n - 1 {
      NameIn(dir, n - 1, i);
    }
  }

  lemma {:induction false} NameFrom(dir: Sector, n: nat, x: seq<Byte>) returns (i: nat)
    requires n <= ENTRIES && x in Names(dir, n)
    ensures i < n && !Free(dir, i) && NameOf(dir, i) == x
    decreases n
  {
    hide NameOf, Free;
    if Free(dir, n - 1) || x != NameOf(dir, n - 1) {
      i := NameFrom(dir, n - 1, x);
    } else {
      i := n - 1;
    }
  }

  lemma {:induction false} NamesCount(dir: Sector, n: nat)
    requires n <= ENTRIES && NamesDistinct(dir)
    ensures |Names(dir, n)| <= n
    ensures |Names(dir, n)| == n <==> forall i :: 0 <= i < n ==> !Free(dir, i)
    decreases n
  {
    hide NameOf, Free;
    if n > 0 {
      NamesCount(dir, n - 1);
      if !Free(dir, n - 1) && NameOf(dir, n - 1) in Names(dir, n - 1) {
        var i := NameFrom(dir, n - 1, NameOf(dir, n - 1));
        assert false;
      }
    }
  }

  lemma NameFree(dir: Sector, i: nat)
    requires i < ENTRIES
    ensures Free(dir, i) <==> NameOf(dir, i)[0] == 0
  {
    assert dir[NameIndex(i, 0)] == NameOf(dir, i)[0];
  }

  lemma FindIs(dir: Sector, i: nat)
    requires NamesDistinct(dir) && i < ENTRIES && !Free(dir, i)
    ensures Find(dir, NameOf(dir, i), 0) == i
  {
    hide NameOf, Free;
    var r := Find(dir, NameOf(dir, i), 0);
    NameFree(dir, i);
    if r < ENTRIES {
      NameFree(dir, r);
    }
  }

  /** A name is found exactly when it is in use. */
  lemma FindsNames(dir: Sector, name: seq<Byte>)
    requires |name| == NAME_BYTES && name[0] != 0
    ensures Find(dir, name, 0) < ENTRIES <==> name in Names(dir, ENTRIES)
    ensures Find(dir, name, 0) < ENTRIES ==> !Free(dir, Find(dir, name, 0))
  {
    hide NameOf, Free, Names;
    var r := Find(dir, name, 0);
    if r < ENTRIES {
      NameFree(dir, r);
      NameIn(dir, ENTRIES, r);
    } else if name in Names(dir, ENTRIES) {
      var i := NameFrom(dir, ENTRIES, name);
      assert false;
    }
  }

  /** The files of a sound disk. */
  ghost function Files(disk: seq<Sector>): (r: map<seq<Byte>, seq<Byte>>)
    requires |disk| == DISK_SECTORS && ListsSound(Dir(disk))
    ensures r.Keys == Names(Dir(disk), ENTRIES)
  {
    map name | name in Names(Dir(disk), ENTRIES) :: Held(disk, Find(Dir(disk), name, 0))
  }

  ghost function Held(disk: seq<Sector>, i: nat): seq<Byte>
    requires |disk| == DISK_SECTORS && ListsSound(Dir(disk)) && i <= ENTRIES
  {
    if i == ENTRIES then [] else Content(disk, i, 0)
  }

  lemma FilesAt(disk: seq<Sector>, i: nat)
    requires |disk| == DISK_SECTORS && ListsSound(Dir(disk)) && NamesDistinct(Dir(disk))
    requires i < ENTRIES && !Free(Dir(disk), i)
    ensures NameOf(Dir(disk), i) in Files(disk) && Files(disk)[NameOf(Dir(disk), i)] == Content(disk, i, 0)
  {
    hide NameOf, Free, Names, Length, Content, NamesDistinct, Find;
    FindIs(Dir(disk), i);
    NameIn(Dir(disk), ENTRIES, i);
  }

  lemma FilesAre(disk: seq<Sector>, files: map<seq<Byte>, seq<Byte>>)
    requires |disk| == DISK_SECTORS && ListsSound(Dir(disk)) && NamesDistinct(Dir(disk))
    requires forall i :: 0 <= i < ENTRIES && !Free(Dir(disk), i) ==>
               NameOf(Dir(disk), i) in files && files[NameOf(Dir(disk), i)] == Content(disk, i, 0)
    requires forall x :: x in files ==>
        exists i :: 0 <= i < ENTRIES && !Free(Dir(disk), i) && NameOf(Dir(disk), i) == x
    ensures Files(disk) == files
  {
    hide NameOf, Free, Names, Length, Content, NamesDistinct, ListsSound, Files;
    forall x | x in Files(disk)
      ensures x in files && Files(disk)[x] == files[x]
    {
      var i := NameFrom(Dir(disk), ENTRIES, x);
      FilesAt(disk, i);
    }
    forall x | x in files
      ensures x in Files(disk)
    {
      var i :| 0 <= i < ENTRIES && !Free(Dir(disk), i) && NameOf(Dir(disk), i) == x;
      FilesAt(disk, i);
    }
  }

  lemma BoundedLists(disk: seq<Sector>)
    requires |disk| == DISK_SECTORS && ListsSound(Dir(disk))
    ensures forall i :: 0 <= i < ENTRIES ==> Length(Dir(disk), i) <= MAX_SECTORS
  {
  }

  lemma {:induction false} CreateFiles(disk: seq<Sector>, reserved: set<nat>, e: nat, name: seq<Byte>, n: nat,
                                       buf: seq<Byte>)
    requires Sound(disk, reserved) && Takes(Dir(disk), e, name) && Length(Dir(disk), e) == 0
    requires Fits(Map(disk), n) && |buf| >= 512 * n
    ensures var d := Create(disk, e, name, FirstFit(Map(disk), 0, n), buf);
            ListsSound(Dir(d)) && Files(d) == Files(disk)[name := buf[..512 * n]]
  {
    hide WithFile, WithUsed, WithData, FirstFit, Length, Content, ListsSound, MapSound, NamesDistinct, Names;
    hide NameOf, Free, Files;
    var list := FirstFit(Map(disk), 0, n);
    var d := Create(disk, e, name, list, buf);
    CreateSound(disk, reserved, e, name, n, buf);
    CreateReadsBack(disk, reserved, e, name, n, buf);
    forall i | 0 <= i < ENTRIES
      ensures NameOf(Dir(d), i) == (if i == e then name else NameOf(Dir(disk), i))
      ensures Free(Dir(d), i) == (i != e && Free(Dir(disk), i))
    {
      WithFileName(Dir(disk), e, name, list, i);
    }
    BoundedLists(d);
    var files := Files(disk)[name := buf[..512 * n]];
    forall i | 0 <= i < ENTRIES && !Free(Dir(d), i)
      ensures NameOf(Dir(d), i) in files && files[NameOf(Dir(d), i)] == Content(d, i, 0)
    {
      if i != e {
        FilesAt(disk, i);
        CreateKeepsOthers(disk, reserved, e, name, n, buf, i);
      }
    }
    forall x | x in files
      ensures exists i :: 0 <= i < ENTRIES && !Free(Dir(d), i) && NameOf(Dir(d), i) == x
    {
      if x == name {
        assert !Free(Dir(d), e);
      } else {
        var i := NameFrom(Dir(disk), ENTRIES, x);
        assert !Free(Dir(d), i);
      }
    }
    FilesAre(d, files);
  }

  lemma {:induction false} DeleteFiles(disk: seq<Sector>, reserved: set<nat>, e: nat)
    requires Sound(disk, reserved) && e < ENTRIES && !Free(Dir(disk), e) && Length(Dir(disk), e) <= LIST_BYTES
    ensures var d := Delete(disk, e);
            ListsSound(Dir(d)) && Files(d) == Files(disk) - {NameOf(Dir(disk), e)}
  {
    hide WithoutFile, WithoutUsed, Length, Content, ListsSound, MapSound, Names, NameOf, Free, Files;
    var d := Delete(disk, e);
    DeleteSound(disk, reserved, e);
    forall i | 0 <= i < ENTRIES
      ensures i != e ==> NameOf(Dir(d), i) == NameOf(Dir(disk), i)
      ensures Free(Dir(d), i) == (i == e || Free(Dir(disk), i))
    {
      WithoutFileName(Dir(disk), e, Length(Dir(disk), e), i);
    }
    BoundedLists(d);
    var files := Files(disk) - {NameOf(Dir(disk), e)};
    forall i | 0 <= i < ENTRIES && !Free(Dir(d), i)
      ensures NameOf(Dir(d), i) in files && files[NameOf(Dir(d), i)] == Content(d, i, 0)
    {
      FilesAt(disk, i);
      DeleteKeepsOthers(disk, reserved, e, i);
    }
    forall x | x in files
      ensures exists i :: 0 <= i < ENTRIES && !Free(Dir(d), i) && NameOf(Dir(d), i) == x
    {
      var i := NameFrom(Dir(disk), ENTRIES, x);
      assert !Free(Dir(d), i);
    }
    FilesAre(d, files);
  }

  // ----- Runs -----

  /** The first n sectors of a buffer. */
  function Sectors(buf: seq<Byte>, n: nat): seq<Byte> {
    if 512 * n <= |buf| then buf[..512 * n] else buf
  }

  /** What a call does to a map that has room for ENTRIES names. */
  function MapAfter(files: map<seq<Byte>, seq<Byte>>, op: FileOp): map<seq<Byte>, seq<Byte>>
  {
    match op
    case Save(name, n, buf) =>
      if name !in files && |files| == ENTRIES then files else files[name := Sectors(buf, n)]
    case Load(name) => files
    case Remove(name) => files - {name}
  }

  function MapAnswer(files: map<seq<Byte>, seq<Byte>>, op: FileOp): Reply {
    match op
    case Save(name, n, buf) => Reply(if name !in files && |files| == ENTRIES then -1 else n, [])
    case Load(name) => if name in files then Reply(|files[name]| / 512, files[name]) else Reply(-1, [])
    case Remove(name) => Reply(if name in files then 1 else -1, [])
  }

  lemma EntryTakes(disk: seq<Sector>, name: seq<Byte>)
    requires |disk| == DISK_SECTORS && ListsSound(Dir(disk)) && NamesDistinct(Dir(disk))
    requires |name| == NAME_BYTES && name[0] != 0
    ensures var e := Entry(Dir(disk), name);
            && (e == ENTRIES <==> name !in Files(disk) && |Files(disk)| == ENTRIES)
            && (e < ENTRIES ==> Takes(Dir(disk), e, name))
  {
    hide Length, Names, ListsSound, NamesDistinct, NameOf, Free, Files;
    var dir := Dir(disk);
    FindsNames(dir, name);
    NamesCount(dir, ENTRIES);
    FilesKeys(disk);
    var e := Find(dir, name, 0);
    forall i | 0 <= i < ENTRIES && NameOf(dir, i) == name
      ensures i == e
    {
      NameFree(dir, i);
      FindIs(dir, i);
    }
  }

  lemma FilesKeys(disk: seq<Sector>)
    requires |disk| == DISK_SECTORS && ListsSound(Dir(disk))
    ensures |Files(disk)| == |Names(Dir(disk), ENTRIES)|
  {
    assert |Files(disk)| == |Files(disk).Keys|;
  }

  lemma {:induction false} SaveRefines(disk: seq<Sector>, reserved: set<nat>, op: FileOp)
    requires op.Save? && Sound(disk, reserved) && InScope(disk, op)
    ensures var d := After(disk, op);
            && Sound(d, reserved)
            && Files(d) == MapAfter(Files(disk), op)
            && Answer(disk, op) == MapAnswer(Files(disk), op)
  {
    hide Length, Content, ListsSound, MapSound, NamesDistinct, Names, FirstFit, Create, Find, FindFree, Takes;
    hide Fits, Files, Entry;
    EntryTakes(disk, op.name);
    var e := Entry(Dir(disk), op.name);
    if e < ENTRIES {
      CreateSound(disk, reserved, e, op.name, op.n, op.buf);
      CreateFiles(disk, reserved, e, op.name, op.n, op.buf);
    }
  }

  lemma {:induction false} RemoveRefines(disk: seq<Sector>, reserved: set<nat>, op: FileOp)
    requires op.Remove? && Sound(disk, reserved) && InScope(disk, op)
    ensures var d := After(disk, op);
            && Sound(d, reserved)
            && Files(d) == MapAfter(Files(disk), op)
            && Answer(disk, op) == MapAnswer(Files(disk), op)
  {
    hide Length, Content, ListsSound, MapSound, NamesDistinct, Names, Delete, Files;
    FindsNames(Dir(disk), op.name);
    var e := Find(Dir(disk), op.name, 0);
    if e < ENTRIES {
      BoundedLists(disk);
      DeleteSound(disk, reserved, e);
      DeleteFiles(disk, reserved, e);
    } else {
      assert Files(disk) - {op.name} == Files(disk);
    }
  }

  lemma {:induction false} LoadRefines(disk: seq<Sector>, reserved: set<nat>, op: FileOp)
    requires op.Load? && Sound(disk, reserved) && InScope(disk, op)
    ensures Answer(disk, op) == MapAnswer(Files(disk), op)
  {
    hide Length, Content, ListsSound, MapSound, NamesDistinct, Names, Files;
    FindsNames(Dir(disk), op.name);
    var e := Find(Dir(disk), op.name, 0);
    if e < ENTRIES {
      BoundedLists(disk);
      LoadCounts(disk, e);
      FilesAt(disk, e);
    }
  }

  /** One call on the disk is one call on the map. */
  lemma {:induction false} CallRefines(disk: seq<Sector>, reserved: set<nat>, op: FileOp)
    requires Sound(disk, reserved) && InScope(disk, op)
    ensures var d := After(disk, op);
            && Sound(d, reserved)
            && Files(d) == MapAfter(Files(disk), op)
            && Answer(disk, op) == MapAnswer(Files(disk), op)
  {
    hide Sound, InScope, Answer, MapAnswer, Files;
    match op
    case Save(_, _, _) => SaveRefines(disk, reserved, op);
    case Load(_) => LoadRefines(disk, reserved, op);
    case Remove(_) => RemoveRefines(disk, reserved, op);
  }

  lemma LoadCounts(disk: seq<Sector>, e: nat)
    requires |disk| == DISK_SECTORS && e < ENTRIES
    ensures |Content(disk, e, 0)| / 512 == Length(Dir(disk), e)
  {
    ContentLength(disk, e, 0);
  }

  /** Calls one after another, each in scope when its turn comes; that the disk is
      sound by then is proved, not asked for. */
  ghost predicate AllInScope(disk: seq<Sector>, reserved: set<nat>, ops: seq<FileOp>)
    requires Sound(disk, reserved)
    decreases |ops|
  {
    ops == [] ||
    (InScope(disk, ops[0])
      && (CallRefines(disk, reserved, ops[0]); AllInScope(After(disk, ops[0]), reserved, ops[1..])))
  }

  ghost function DiskRun(disk: seq<Sector>, reserved: set<nat>, ops: seq<FileOp>): (seq<Sector>, seq<Reply>)
    requires Sound(disk, reserved) && AllInScope(disk, reserved, ops)
    decreases |ops|
  {
    if ops == [] then (disk, []) else
      CallRefines(disk, reserved, ops[0]);
      var (d, replies) := DiskRun(After(disk, ops[0]), reserved, ops[1..]);
      (d, [Answer(disk, ops[0])] + replies)
  }

  function MapRun(files: map<seq<Byte>, seq<Byte>>, ops: seq<FileOp>): (map<seq<Byte>, seq<Byte>>, seq<Reply>)
    decreases |ops|
  {
    if ops == [] then (files, []) else
      var (f, replies) := MapRun(MapAfter(files, ops[0]), ops[1..]);
      (f, [MapAnswer(files, ops[0])] + replies)
  }

  /** Over every run the disk stays sound, every answer is the map's answer,
      and the files are the map's. */
  lemma {:induction false} RunRefines(disk: seq<Sector>, reserved: set<nat>, ops: seq<FileOp>)
    requires Sound(disk, reserved) && AllInScope(disk, reserved, ops)
    ensures var (d, replies) := DiskRun(disk, reserved, ops);
            && Sound(d, reserved)
            && (Files(d), replies) == MapRun(Files(disk), ops)
    decreases |ops|
  {
    hide InScope, After, Answer, MapAfter, MapAnswer, Files;
    if ops != [] {
      CallRefines(disk, reserved, ops[0]);
      RunRefines(After(disk, ops[0]), reserved, ops[1..]);
    }
  }
}
