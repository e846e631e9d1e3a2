/** What file creation and deletion keep, and what they undo. */
module FloppyProperties {
  import opened Wrappers
  import opened FloppyModel

  // ----- Lists -----

  lemma {:induction false} ScanIs(dir: Sector, p: nat, n: nat)
    requires p + n < 512 && dir[p + n] == 0 && forall q :: p <= q < p + n ==> dir[q] != 0
    ensures Scan(dir, p) == n
    decreases n
  {
    if n > 0 {
      ScanIs(dir, p + 1, n - 1);
    }
  }

  lemma LengthFacts(dir: Sector, i: nat)
    requires i < ENTRIES && Length(dir, i) <= MAX_SECTORS
    ensures forall k :: 0 <= k < Length(dir, i) ==> Slot(dir, i, k) != 0
    ensures Slot(dir, i, Length(dir, i)) == 0
  {
    ScanFacts(dir, ListIndex(i, 0));
    forall k | 0 <= k < Length(dir, i)
      ensures Slot(dir, i, k) != 0
    {
      assert dir[ListIndex(i, 0) + k] != 0;
    }
  }

  lemma LengthIs(dir: Sector, i: nat, n: nat)
    requires i < ENTRIES && n <= MAX_SECTORS && Slot(dir, i, n) == 0
    requires forall k :: 0 <= k < n ==> Slot(dir, i, k) != 0
    ensures Length(dir, i) == n
  {
    forall q | ListIndex(i, 0) <= q < ListIndex(i, 0) + n
      ensures dir[q] != 0
    {
      assert Slot(dir, i, q - ListIndex(i, 0)) != 0;
    }
    ScanIs(dir, ListIndex(i, 0), n);
  }

  /** Why a list must not fill its 26 bytes: the count then comes out right only
      if the next entry's name starts with a zero byte, and the last entry's list
      runs up to the end of the sector. */
  lemma TwentySixSectorsRunOn(dir: Sector, i: nat)
    requires i < ENTRIES && forall k :: 0 <= k < LIST_BYTES ==> Slot(dir, i, k) != 0
    ensures Length(dir, i) >= LIST_BYTES
    ensures i < ENTRIES - 1 ==> (Length(dir, i) == LIST_BYTES <==> Free(dir, i + 1))
    ensures i == ENTRIES - 1 ==> Length(dir, i) == LIST_BYTES && !Stops(dir, i)
  {
    ScanFacts(dir, ListIndex(i, 0));
    assert NameIndex(i + 1, 0) == ListIndex(i, LIST_BYTES);
    forall q | ListIndex(i, 0) <= q < ListIndex(i, 0) + LIST_BYTES
      ensures dir[q] != 0
    {
      assert Slot(dir, i, q - ListIndex(i, 0)) != 0;
    }
    if i < ENTRIES - 1 && Free(dir, i + 1) {
      ScanIs(dir, ListIndex(i, 0), LIST_BYTES);
    }
  }

  // ----- Writing a file -----

  lemma WithFileName(dir: Sector, e: nat, name: seq<Byte>, list: seq<nat>, i: nat)
    requires e < ENTRIES && |name| == NAME_BYTES && |list| <= LIST_BYTES && i < ENTRIES
    ensures var d := WithFile(dir, e, name, list);
            && NameOf(d, i) == (if i == e then name else NameOf(dir, i))
            && Free(d, i) == (if i == e then name[0] == 0 else Free(dir, i))
  {
    var d := WithFile(dir, e, name, list);
    forall j | 0 <= j < NAME_BYTES
      ensures NameOf(d, i)[j] == if i == e then name[j] else NameOf(dir, i)[j]
    {
      assert NameOf(d, i)[j] == d[NameIndex(i, j)];
    }
    assert d[NameIndex(i, 0)] == FileByte(dir, e, name, list, NameIndex(i, 0));
  }

  lemma WithFileSlot(dir: Sector, e: nat, name: seq<Byte>, list: seq<nat>, i: nat, k: nat)
    requires e < ENTRIES && |name| == NAME_BYTES && |list| <= LIST_BYTES && i < ENTRIES && k < LIST_BYTES
    ensures Slot(WithFile(dir, e, name, list), i, k) == if i == e
        && k < |list| then list[k] % 256 else Slot(dir, i, k)
  {
  }

  /** A list of sectors fit for a new file. */
  ghost predicate Fresh(dir: Sector, list: seq<nat>) {
    && |list| <= MAX_SECTORS
    && (forall m :: 0 <= m < |list| ==> 0 < list[m] < 256)
    && (forall m, m' :: 0 <= m < m' < |list| ==> list[m] != list[m'])
    && (forall i, k :: 0 <= i < ENTRIES && 0 <= k < LIST_BYTES ==> Slot(dir, i, k) !in list)
  }

  /** The sectors of an old list beyond the new one stay. */
  lemma CreateLength(dir: Sector, e: nat, name: seq<Byte>, list: seq<nat>, i: nat)
    requires e < ENTRIES && |name| == NAME_BYTES && i < ENTRIES
    requires ListsSound(dir) && Fresh(dir, list)
    ensures Length(WithFile(dir, e, name, list), i) ==
              if i == e && |list| > Length(dir, e) then |list| else Length(dir, i)
  {
    hide WithFile, Slot, Length, Free;
    var d := WithFile(dir, e, name, list);
    LengthFacts(dir, i);
    var len := if i == e && |list| > Length(dir, e) then |list| else Length(dir, i);
    forall k | 0 <= k <= len
      ensures Slot(d, i, k) == 0 <==> k == len
    {
      WithFileSlot(dir, e, name, list, i, k);
    }
    LengthIs(d, i, len);
  }

  lemma CreateLists(dir: Sector, e: nat, name: seq<Byte>, list: seq<nat>)
    requires e < ENTRIES && |name| == NAME_BYTES && name[0] != 0
    requires ListsSound(dir) && Length(dir, e) == 0 && Fresh(dir, list)
    ensures ListsSound(WithFile(dir, e, name, list))
  {
    hide WithFile, Slot, Length, Free;
    var d := WithFile(dir, e, name, list);
    forall i | 0 <= i < ENTRIES
      ensures Length(d, i) == (if i == e then |list| else Length(dir, i)) && Free(d, i) == (i != e && Free(dir, i))
    {
      CreateLength(dir, e, name, list, i);
      WithFileName(dir, e, name, list, i);
    }
    forall i, k | 0 <= i < ENTRIES && 0 <= k < LIST_BYTES
      ensures Slot(d, i, k) == if i == e && k < |list| then list[k] else Slot(dir, i, k)
    {
      WithFileSlot(dir, e, name, list, i, k);
    }
  }

  /** First-fit sectors are in no list. */
  lemma FirstFitFresh(disk: seq<Sector>, reserved: set<nat>, list: seq<nat>)
    requires Sound(disk, reserved) && list == FirstFit(Map(disk), 0, |list|) && |list| <= MAX_SECTORS
    requires forall m :: 0 <= m < |list| ==> list[m] < 256
    ensures Fresh(Dir(disk), list)
  {
    hide Slot, Length;
    forall i, k | 0 <= i < ENTRIES && 0 <= k < LIST_BYTES
      ensures Slot(Dir(disk), i, k) !in list
    {
      var s := Slot(Dir(disk), i, k);
      assert s == 0 || Owned(Dir(disk), s);
      assert Map(disk)[s] != 0;
    }
  }

  lemma CreateMap(dir: Sector, diskMap: Sector, reserved: set<nat>, e: nat, name: seq<Byte>, list: seq<nat>)
    requires e < ENTRIES && |name| == NAME_BYTES
    requires ListsSound(dir) && Length(dir, e) == 0 && Fresh(dir, list) && MapSound(dir, diskMap, reserved)
    requires forall m :: 0 <= m < |list| ==> diskMap[list[m]] == 0
    ensures MapSound(WithFile(dir, e, name, list), WithUsed(diskMap, list), reserved)
  {
    hide WithFile, Slot, Length, Free;
    var d, u := WithFile(dir, e, name, list), WithUsed(diskMap, list);
    forall i, k | 0 <= i < ENTRIES && 0 <= k < LIST_BYTES
      ensures Slot(d, i, k) == if i == e && k < |list| then list[k] else Slot(dir, i, k)
    {
      WithFileSlot(dir, e, name, list, i, k);
    }
    forall s
      ensures Owned(d, s) <==> Owned(dir, s) || s in list
    {
      if Owned(dir, s) {
        var i, k :| 0 <= i < ENTRIES && 0 <= k < LIST_BYTES && Slot(dir, i, k) == s;
        assert Slot(d, i, k) == s;
      }
      if s in list {
        var m :| 0 <= m < |list| && list[m] == s;
        assert Slot(d, e, m) == s;
      }
    }
  }

  lemma CreateNames(dir: Sector, e: nat, name: seq<Byte>, list: seq<nat>)
    requires Takes(dir, e, name) && |list| <= LIST_BYTES && NamesDistinct(dir)
    ensures NamesDistinct(WithFile(dir, e, name, list))
  {
    hide WithFile;
    forall i | 0 <= i < ENTRIES
      ensures var d := WithFile(dir, e, name, list);
              NameOf(d, i) == (if i == e then name else NameOf(dir, i)) && Free(d, i) == (i != e && Free(dir, i))
    {
      WithFileName(dir, e, name, list, i);
    }
  }

  lemma WithDataAt(disk: seq<Sector>, list: seq<nat>, buf: seq<Byte>, m: nat)
    requires |buf| >= 512 * |list| && m < |list| && forall j :: 0 <= j < |list| ==> list[j] < |disk|
    requires forall j, j' :: 0 <= j < j' < |list| ==> list[j] != list[j']
    ensures WithData(disk, list, buf)[list[m]] == buf[512 * m..512 * (m + 1)]
    decreases m
  {
    if m > 0 {
      WithDataAt(disk[list[0] := buf[..512]], list[1..], buf[512..], m - 1);
    }
  }

  /** Writing a file whose entry holds no sectors keeps the file system sound. */
  lemma {:induction false} CreateSound(disk: seq<Sector>, reserved: set<nat>, e: nat, name: seq<Byte>, n: nat,
                                       buf: seq<Byte>)
    requires Sound(disk, reserved) && Takes(Dir(disk), e, name) && Length(Dir(disk), e) == 0
    requires Fits(Map(disk), n) && |buf| >= 512 * n
    ensures Sound(Create(disk, e, name, FirstFit(Map(disk), 0, n), buf), reserved)
  {
    hide WithFile, WithUsed, ListsSound, NamesDistinct, MapSound, WithData, FirstFit, Length, Fresh;
    var list := FirstFit(Map(disk), 0, n);
    FirstFitFresh(disk, reserved, list);
    CreateLists(Dir(disk), e, name, list);
    CreateNames(Dir(disk), e, name, list);
    CreateMap(Dir(disk), Map(disk), reserved, e, name, list);
  }

  // ----- Deleting a file -----

  lemma WithoutFileSlot(dir: Sector, e: nat, n: nat, i: nat, k: nat)
    requires e < ENTRIES && n <= LIST_BYTES && i < ENTRIES && k < LIST_BYTES
    ensures Slot(WithoutFile(dir, e, n), i, k) == if i == e && k < n then 0 else Slot(dir, i, k)
  {
    assert Slot(WithoutFile(dir, e, n), i, k) == RemainingByte(dir, e, n, ListIndex(i, k));
  }

  lemma WithoutFileName(dir: Sector, e: nat, n: nat, i: nat)
    requires e < ENTRIES && n <= LIST_BYTES && i < ENTRIES
    ensures var d := WithoutFile(dir, e, n);
            && NameOf(d, i) == (if i == e then NameOf(dir, i)[0 := 0] else NameOf(dir, i))
            && Free(d, i) == (i == e || Free(dir, i))
  {
    var d := WithoutFile(dir, e, n);
    forall j | 0 <= j < NAME_BYTES
      ensures NameOf(d, i)[j] == if i == e && j == 0 then 0 else NameOf(dir, i)[j]
    {
      assert NameOf(d, i)[j] == d[NameIndex(i, j)] == RemainingByte(dir, e, n, NameIndex(i, j));
    }
  }

  lemma DeleteLength(dir: Sector, e: nat, i: nat)
    requires e < ENTRIES && i < ENTRIES && ListsSound(dir)
    ensures Length(WithoutFile(dir, e, Length(dir, e)), i) == if i == e then 0 else Length(dir, i)
  {
    hide WithoutFile, Slot, Length, Free;
    var d := WithoutFile(dir, e, Length(dir, e));
    LengthFacts(dir, i);
    var len := if i == e then 0 else Length(dir, i);
    forall k | 0 <= k <= len
      ensures Slot(d, i, k) == 0 <==> k == len
    {
      WithoutFileSlot(dir, e, Length(dir, e), i, k);
    }
    LengthIs(d, i, len);
  }

  lemma DeleteLists(dir: Sector, e: nat)
    requires e < ENTRIES && ListsSound(dir)
    ensures ListsSound(WithoutFile(dir, e, Length(dir, e)))
  {
    hide WithoutFile, Slot, Length, Free;
    var d := WithoutFile(dir, e, Length(dir, e));
    forall i | 0 <= i < ENTRIES
      ensures Length(d, i) == (if i == e then 0 else Length(dir, i)) && Free(d, i) == (i == e || Free(dir, i))
    {
      DeleteLength(dir, e, i);
      WithoutFileName(dir, e, Length(dir, e), i);
    }
    DeletedSlots(dir, e);
  }

  lemma DeletedSlots(dir: Sector, e: nat)
    requires e < ENTRIES && ListsSound(dir)
    ensures forall i, k :: 0 <= i < ENTRIES && 0 <= k < LIST_BYTES ==>
              Slot(WithoutFile(dir, e, Length(dir, e)), i, k) == if i == e then 0 else Slot(dir, i, k)
  {
    hide WithoutFile, Slot, Length, Free;
    forall i, k | 0 <= i < ENTRIES && 0 <= k < LIST_BYTES
      ensures Slot(WithoutFile(dir, e, Length(dir, e)), i, k) == if i == e then 0 else Slot(dir, i, k)
    {
      WithoutFileSlot(dir, e, Length(dir, e), i, k);
    }
  }

  lemma DeleteNames(dir: Sector, e: nat)
    requires e < ENTRIES && Length(dir, e) <= LIST_BYTES && NamesDistinct(dir)
    ensures NamesDistinct(WithoutFile(dir, e, Length(dir, e)))
  {
    hide WithoutFile, Length;
    var d := WithoutFile(dir, e, Length(dir, e));
    forall i, j | 0 <= i < j < ENTRIES && !Free(d, i)
      ensures NameOf(d, i) != NameOf(d, j)
    {
      WithoutFileName(dir, e, Length(dir, e), i);
      WithoutFileName(dir, e, Length(dir, e), j);
      assert NameOf(d, i)[0] == d[NameIndex(i, 0)] != 0;
    }
  }

  lemma ListOfHas(dir: Sector, e: nat, s: int)
    requires e < ENTRIES && ListsSound(dir)
    ensures s in ListOf(dir, e) <==> s != 0 && exists k :: 0 <= k < LIST_BYTES && Slot(dir, e, k) == s
  {
    LengthFacts(dir, e);
    if s in ListOf(dir, e) {
      var k :| 0 <= k < Length(dir, e) && ListOf(dir, e)[k] == s;
      assert Slot(dir, e, k) == s;
    }
    if s != 0 && exists k :: 0 <= k < LIST_BYTES && Slot(dir, e, k) == s {
      var k :| 0 <= k < LIST_BYTES && Slot(dir, e, k) == s;
      assert ListOf(dir, e)[k] == s;
    }
  }

  lemma DeleteMap(dir: Sector, diskMap: Sector, reserved: set<nat>, e: nat)
    requires e < ENTRIES && ListsSound(dir) && MapSound(dir, diskMap, reserved)
    ensures MapSound(WithoutFile(dir, e, Length(dir, e)), WithoutUsed(diskMap, ListOf(dir, e)), reserved)
  {
    hide WithoutFile, Slot, Length, Free, ListOf;
    var d := WithoutFile(dir, e, Length(dir, e));
    DeletedSlots(dir, e);
    forall s
      ensures s in ListOf(dir, e) ==> Owned(dir, s)
      ensures Owned(d, s) <==> Owned(dir, s) && s !in ListOf(dir, e)
    {
      ListOfHas(dir, e, s);
      if Owned(dir, s) && s !in ListOf(dir, e) {
        var i, k :| 0 <= i < ENTRIES && 0 <= k < LIST_BYTES && Slot(dir, i, k) == s;
        assert Slot(d, i, k) == s;
      }
    }
  }

  /** Deleting any entry keeps the file system sound. */
  lemma {:induction false} DeleteSound(disk: seq<Sector>, reserved: set<nat>, e: nat)
    requires Sound(disk, reserved) && e < ENTRIES && Length(Dir(disk), e) <= LIST_BYTES
    ensures Sound(Delete(disk, e), reserved)
  {
    hide WithoutFile, WithoutUsed, ListsSound, NamesDistinct, MapSound, Length, ListOf;
    DeleteLists(Dir(disk), e);
    DeleteNames(Dir(disk), e);
    DeleteMap(Dir(disk), Map(disk), reserved, e);
  }

  // ----- When a file fits -----

  /** Free bytes of the map from j on, among the sectors a byte can name. */
  function FreeFrom(diskMap: Sector, j: nat): nat
    requires j <= 256
    decreases 256 - j
  {
    if j == 256 then 0 else (if diskMap[j] == 0 then 1 else 0) + FreeFrom(diskMap, j + 1)
  }

  predicate Named(list: seq<nat>, n: nat) {
    |list| == n && forall m :: 0 <= m < n ==> list[m] < 256
  }

  lemma NamedMore(j: nat, rest: seq<nat>, n: nat)
    requires j < 256 && n > 0
    ensures Named([j] + rest, n) <==> Named(rest, n - 1)
  {
    var list := [j] + rest;
    assert forall m :: 0 <= m < |rest| ==> list[m + 1] == rest[m];
  }

  lemma NamedPast(list: seq<nat>, n: nat)
    requires forall m :: 0 <= m < |list| ==> list[m] >= 256
    ensures Named(list, n) <==> |list| == n == 0
  {
    assert |list| > 0 ==> list[0] >= 256;
  }

  /** One step of first fit. */
  lemma FirstFitFrom(diskMap: Sector, j: nat, n: nat)
    requires j <= 512
    ensures j == 512 || n == 0 ==> FirstFit(diskMap, j, n) == []
    ensures j < 512 && n > 0 ==>
              FirstFit(diskMap, j, n) == if diskMap[j] == 0 then [j] + FirstFit(diskMap, j + 1, n - 1)
                                         else FirstFit(diskMap, j + 1, n)
  {
  }

  lemma {:induction false} FirstFitFinds(diskMap: Sector, j: nat, n: nat)
    requires j <= 256
    ensures Named(FirstFit(diskMap, j, n), n) <==> n <= FreeFrom(diskMap, j)
    decreases 256 - j
  {
    hide FirstFit, Named;
    FirstFitFrom(diskMap, j, n);
    NamedPast([], 0);
    if j == 256 {
      NamedPast(FirstFit(diskMap, j, n), n);
    } else if n > 0 {
      if diskMap[j] == 0 {
        FirstFitFinds(diskMap, j + 1, n - 1);
        NamedMore(j, FirstFit(diskMap, j + 1, n - 1), n);
      } else {
        FirstFitFinds(diskMap, j + 1, n);
      }
    }
  }

  /** First fit finds its sectors exactly when enough are free. */
  lemma FitsIff(diskMap: Sector, n: nat)
    ensures Fits(diskMap, n) <==> n <= MAX_SECTORS && n <= FreeFrom(diskMap, 0)
  {
    FirstFitFinds(diskMap, 0, n);
  }

  // ----- A disk to start from -----

  const BLANK: Sector := seq(512, _ => 0)

  function Formatted(): (r: seq<Sector>)
    ensures |r| == DISK_SECTORS
  {
    seq(DISK_SECTORS, s => if s == MAP_SECTOR then BLANK[0 := USED][1 := USED][2 := USED] else BLANK)
  }

  lemma {:induction false} AllFree(diskMap: Sector, j: nat)
    requires j <= 256 && forall s :: j <= s < 256 ==> diskMap[s] == 0
    ensures FreeFrom(diskMap, j) == 256 - j
    decreases 256 - j
  {
    if j < 256 {
      AllFree(diskMap, j + 1);
    }
  }

  lemma FormattedEmpty()
    ensures forall i :: 0 <= i < ENTRIES ==>
              && Length(Dir(Formatted()), i) == 0 && Free(Dir(Formatted()), i)
              && NameOf(Dir(Formatted()), i)[0] == 0
    ensures FreeFrom(Map(Formatted()), 0) == 253
  {
    var dir, diskMap := Dir(Formatted()), Map(Formatted());
    forall i | 0 <= i < ENTRIES
      ensures Length(dir, i) == 0 && Free(dir, i) && NameOf(dir, i)[0] == 0
    {
      LengthIs(dir, i, 0);
    }
    AllFree(diskMap, 3);
    assert FreeFrom(diskMap, 2) == FreeFrom(diskMap, 1) == FreeFrom(diskMap, 0) == 253;
  }

  /** A disk with nothing on it is sound, and has room for a file of any name and
      any size up to the limit. */
  lemma FormattedSound(name: seq<Byte>, n: nat, buf: seq<Byte>)
    requires |name| == NAME_BYTES && name[0] != 0 && n <= MAX_SECTORS && |buf| >= 512 * n
    ensures Sound(Formatted(), {0, 1, 2})
    ensures InScope(Formatted(), Save(name, n, buf))
  {
    FormattedEmpty();
    FitsIff(Map(Formatted()), n);
  }
}
