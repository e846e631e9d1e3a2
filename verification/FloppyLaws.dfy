/** The floppy byte by byte and call by call: where each byte of a file goes, and
    what a caller may expect of one answer given earlier ones. */
module FloppyLaws {
  import opened Wrappers
  import opened FloppyModel
  import opened FloppyProperties
  import opened FloppyFiles

  // ----- Where the bytes are -----

  /** Entry i holds this name: six bytes at 32 * i of sector 2. */
  predicate Bears(disk: seq<Sector>, i: nat, name: seq<Byte>)
    requires |disk| == 2880 && i < 16 && |name| == 6
  {
    forall j :: 0 <= j < 6 ==> disk[2][32 * i + j] == name[j]
  }

  /** The search finds the first entry with the name. */
  lemma FindIsFirst(disk: seq<Sector>, name: seq<Byte>)
    requires |disk| == 2880 && |name| == 6
    ensures var r := Find(Dir(disk), name, 0);
            && r <= 16 && (r < 16 ==> Bears(disk, r, name))
            && forall i :: 0 <= i < r ==> !Bears(disk, i, name)
  {
    hide Find;
    forall i | 0 <= i < 16
      ensures Bears(disk, i, name) <==> NameOf(Dir(disk), i) == name
    {
      assert forall j :: 0 <= j < 6 ==> NameOf(Dir(disk), i)[j] == disk[2][32 * i + j];
    }
  }

  /** A file is written to the first entry with its name or, when there is none, to
      the first whose name begins with a zero byte. */
  lemma EntryIsFirst(disk: seq<Sector>, name: seq<Byte>)
    requires |disk| == 2880 && |name| == 6
    ensures var r := Entry(Dir(disk), name);
            && r <= 16
            && ((exists i :: 0 <= i < 16 && Bears(disk, i, name)) ==>
                  r < 16 && Bears(disk, r, name) && forall i :: 0 <= i < r ==> !Bears(disk, i, name))
            && (!(exists i :: 0 <= i < 16 && Bears(disk, i, name)) ==>
                  && (r < 16 ==> disk[2][32 * r] == 0) && forall i :: 0 <= i < r ==> disk[2][32 * i] != 0)
  {
    hide Find, FindFree, Bears;
    FindIsFirst(disk, name);
    assert forall i :: 0 <= i < 16 ==> (Free(Dir(disk), i) <==> disk[2][32 * i] == 0);
  }

  /** Byte k of the sector list of entry e, which begins at byte 32 * e + 6 of sector 2. */
  function Listed(disk: seq<Sector>, e: nat, k: nat): Byte
    requires |disk| == 2880 && 32 * e + 6 + k < 512
  {
    disk[2][32 * e + 6 + k]
  }

  /** The list of entry e has n sectors: up to the first zero byte. */
  ghost predicate Lists(disk: seq<Sector>, e: nat, n: nat)
    requires |disk| == 2880 && e < 16
  {
    32 * e + 6 + n < 512 && Listed(disk, e, n) == 0 && forall k :: 0 <= k < n ==> Listed(disk, e, k) != 0
  }

  lemma LengthIs(disk: seq<Sector>, e: nat, n: nat)
    requires |disk| == 2880 && e < 16 && Lists(disk, e, n)
    ensures Length(Dir(disk), e) == n
  {
    ScanFacts(Dir(disk), ListIndex(e, 0));
    ListedAt(disk, e, n, Length(Dir(disk), e));
  }

  lemma ListedAt(disk: seq<Sector>, e: nat, n: nat, k: nat)
    requires |disk| == 2880 && e < 16 && Lists(disk, e, n)
    ensures k < n ==> 32 * e + 6 + k < 512 && disk[2][32 * e + 6 + k] != 0
  {
    assert k < n ==> Listed(disk, e, k) != 0;
  }

  /** What reading gives: the listed sectors one after another. */
  lemma {:induction false} ContentAt(disk: seq<Sector>, e: nat, n: nat, k: nat, b: nat)
    requires |disk| == 2880 && e < 16 && Lists(disk, e, n) && k < n && b < 512
    ensures |Content(disk, e, 0)| == 512 * n
    ensures Content(disk, e, 0)[512 * k + b] == disk[Listed(disk, e, k)][b]
  {
    hide Content, Length, Lists;
    LengthIs(disk, e, n);
    ContentLength(disk, e, 0);
    ContentFrom(disk, e, 0, k, b);
  }

  lemma {:induction false} ContentFrom(disk: seq<Sector>, e: nat, from: nat, k: nat, b: nat)
    requires |disk| == 2880 && e < 16 && from <= k < Length(Dir(disk), e) && b < 512
    ensures |Content(disk, e, from)| == 512 * (Length(Dir(disk), e) - from)
    ensures 32 * e + 6 + k < 512
    ensures Content(disk, e, from)[512 * (k - from) + b] == disk[disk[2][32 * e + 6 + k]][b]
    decreases k - from
  {
    hide Length;
    ContentLength(disk, e, from);
    if from < k {
      ContentFrom(disk, e, from + 1, k, b);
    }
  }

  predicate DistinctSectors(list: seq<nat>) {
    && (forall m, m' :: 0 <= m < m' < |list| ==> list[m] != list[m'])
    && forall m :: 0 <= m < |list| ==> 3 <= list[m] < 256
  }

  /** Writing: the name and the list go to the entry in sector 2, 0xFF to the map in
      sector 1, the data to the sectors listed; every other byte stays. */
  lemma {:induction false} CreateLayout(disk: seq<Sector>, e: nat, name: seq<Byte>, list: seq<nat>, buf: seq<Byte>)
    requires |disk| == 2880 && e < 16 && |name| == 6 && |list| <= 26 && |buf| >= 512 * |list|
    requires DistinctSectors(list)
    ensures var d := Create(disk, e, name, list, buf);
            && |d| == 2880
            && (forall j :: 0 <= j < 6 ==> d[2][32 * e + j] == name[j])
            && (forall k :: 0 <= k < |list| ==> d[2][32 * e + 6 + k] == list[k])
            && (forall p :: 0 <= p < 512 && !(32 * e <= p < 32 * e + 6 + |list|) ==> d[2][p] == disk[2][p])
            && (forall s :: 0 <= s < 512 ==> d[1][s] == if s in list then 0xFF else disk[1][s])
            && (forall m :: 0 <= m < |list| ==> d[list[m]] == buf[512 * m..512 * m + 512])
            && (forall s :: 0 <= s < 2880 && s != 1 && s != 2 && s !in list ==> d[s] == disk[s])
  {
    hide WithData;
    var d := Create(disk, e, name, list, buf);
    forall m | 0 <= m < |list|
      ensures d[list[m]] == buf[512 * m..512 * m + 512]
    {
      WithDataAt(disk, list, buf, m);
    }
    forall j | 0 <= j < 6
      ensures d[2][32 * e + j] == name[j]
    {
      assert d[2][32 * e + j] == FileByte(Dir(disk), e, name, list, 32 * e + j);
    }
    forall k | 0 <= k < |list|
      ensures d[2][32 * e + 6 + k] == list[k]
    {
      assert d[2][32 * e + 6 + k] == FileByte(Dir(disk), e, name, list, 32 * e + 6 + k);
    }
  }

  /** Deleting: the first byte of the name, the list and the list's bytes in the map
      become zero; every other byte stays. */
  lemma {:induction false} DeleteLayout(disk: seq<Sector>, e: nat, n: nat)
    requires |disk| == 2880 && e < 16 && Lists(disk, e, n)
    ensures var d := Delete(disk, e);
            && |d| == 2880
            && (forall p :: 0 <= p < 512 ==>
                  d[2][p] == if p == 32 * e || 32 * e + 6 <= p < 32 * e + 6 + n then 0 else disk[2][p])
            && (forall s :: 0 <= s < 512 ==>
                  d[1][s] == if exists k :: 0 <= k < n && Listed(disk, e, k) == s then 0 else disk[1][s])
            && (forall s :: 0 <= s < 2880 && s != 1 && s != 2 ==> d[s] == disk[s])
  {
    LengthIs(disk, e, n);
    hide Length;
    var d, list := Delete(disk, e), ListOf(Dir(disk), e);
    assert |list| == n && forall k :: 0 <= k < n ==> list[k] == Listed(disk, e, k);
    forall s | 0 <= s < 512
      ensures s in list <==> exists k :: 0 <= k < n && Listed(disk, e, k) == s
    {
      if s in list {
        var k :| 0 <= k < |list| && list[k] == s;
        assert Listed(disk, e, k) == s;
      }
    }
    forall p | 0 <= p < 512
      ensures d[2][p] == if p == 32 * e || 32 * e + 6 <= p < 32 * e + 6 + n then 0 else disk[2][p]
    {
      assert d[2][p] == RemainingByte(Dir(disk), e, n, p);
    }
  }

  /** The sectors chosen are the lowest free ones: none is passed over. */
  lemma {:induction false} FirstFitLowest(diskMap: Sector, j: nat, n: nat)
    requires j <= 512
    ensures var r := FirstFit(diskMap, j, n);
            && (forall s, m :: 0 <= m < |r| && j <= s < r[m] && diskMap[s] == 0 ==> s in r)
            && (|r| < n ==> forall s :: j <= s < 512 && diskMap[s] == 0 ==> s in r)
    decreases 512 - j
  {
    if j < 512 && n > 0 {
      FirstFitLowest(diskMap, j + 1, if diskMap[j] == 0 then n - 1 else n);
    }
  }

  // ----- What answers have to do with one another -----

  lemma {:induction false} RepliesCount(files: map<seq<Byte>, seq<Byte>>, ops: seq<FileOp>)
    ensures |MapRun(files, ops).1| == |ops|
    decreases |ops|
  {
    hide MapAfter, MapAnswer;
    if ops != [] {
      RepliesCount(MapAfter(files, ops[0]), ops[1..]);
    }
  }

  /** The last answer is given by the map as the calls before leave it. */
  lemma {:induction false} LastReply(files: map<seq<Byte>, seq<Byte>>, ops: seq<FileOp>)
    requires ops != []
    ensures |MapRun(files, ops).1| == |ops|
    ensures MapRun(files, ops).1[|ops| - 1] == MapAnswer(MapRun(files, ops[..|ops| - 1]).0, ops[|ops| - 1])
    decreases |ops|
  {
    hide MapAfter, MapAnswer;
    RepliesCount(files, ops);
    if |ops| > 1 {
      var next := MapAfter(files, ops[0]);
      LastReply(next, ops[1..]);
      assert ops[1..][..|ops| - 2] == ops[..|ops| - 1][1..];
      assert MapRun(files, ops).1 == [MapAnswer(files, ops[0])] + MapRun(next, ops[1..]).1;
    }
  }

  /** Calls that only read the name, or are about other names. */
  predicate LeavesAlone(ops: seq<FileOp>, name: seq<Byte>) {
    forall i :: 0 <= i < |ops| && ops[i].name == name ==> ops[i].Load?
  }

  lemma {:induction false} NameKept(files: map<seq<Byte>, seq<Byte>>, ops: seq<FileOp>, name: seq<Byte>)
    requires LeavesAlone(ops, name)
    ensures name in MapRun(files, ops).0 <==> name in files
    ensures name in files ==> MapRun(files, ops).0[name] == files[name]
    decreases |ops|
  {
    if ops != [] {
      assert ops[0].name == name ==> ops[0].Load?;
      NameKept(MapAfter(files, ops[0]), ops[1..], name);
    }
  }

  /** Calls that do not save the name. */
  predicate NeverSaves(ops: seq<FileOp>, name: seq<Byte>) {
    forall i :: 0 <= i < |ops| ==> !(ops[i].Save? && ops[i].name == name)
  }

  lemma {:induction false} NameStaysAway(files: map<seq<Byte>, seq<Byte>>, ops: seq<FileOp>, name: seq<Byte>)
    requires NeverSaves(ops, name) && name !in files
    ensures name !in MapRun(files, ops).0
    decreases |ops|
  {
    if ops != [] {
      NameStaysAway(MapAfter(files, ops[0]), ops[1..], name);
    }
  }

  /** The map as the calls between the first and the last leave it. */
  lemma MapBetween(files: map<seq<Byte>, seq<Byte>>, ops: seq<FileOp>)
    requires |ops| >= 2
    ensures var last := |ops| - 1;
            && MapRun(files, ops[..last]).0 == MapRun(MapAfter(files, ops[0]), ops[1..last]).0
            && MapRun(files, ops).1 != [] && MapRun(files, ops).1[0] == MapAnswer(files, ops[0])
  {
    hide MapAfter, MapAnswer;
    var last := |ops| - 1;
    assert ops[..last][1..] == ops[1..last];
  }

  lemma {:induction false} MapReadsBack(files: map<seq<Byte>, seq<Byte>>, ops: seq<FileOp>)
    requires |ops| >= 2 && ops[0].Save? && LeavesAlone(ops[1..|ops| - 1], ops[0].name)
    requires ops[|ops| - 1].name == ops[0].name && 512 * ops[0].n <= |ops[0].buf|
    ensures var replies, last := MapRun(files, ops).1, ops[|ops| - 1];
            && |replies| == |ops|
            && (replies[0] != Reply(-1, []) ==>
                  && replies[0] == Reply(ops[0].n, [])
                  && (last.Load? ==> replies[|ops| - 1] == Reply(ops[0].n, ops[0].buf[..512 * ops[0].n]))
                  && (last.Remove? ==> replies[|ops| - 1] == Reply(1, [])))
  {
    hide MapRun, LeavesAlone;
    LastReply(files, ops);
    MapBetween(files, ops);
    NameKept(MapAfter(files, ops[0]), ops[1..|ops| - 1], ops[0].name);
  }

  /** A file that was saved is read back, and can be removed, as long as nothing
      else was saved or removed under its name. */
  lemma {:induction false} SavedReadsBack(disk: seq<Sector>, reserved: set<nat>, ops: seq<FileOp>)
    requires Sound(disk, reserved) && AllInScope(disk, reserved, ops) && |ops| >= 2 && ops[0].Save?
    requires LeavesAlone(ops[1..|ops| - 1], ops[0].name) && ops[|ops| - 1].name == ops[0].name
    ensures var replies, last := DiskRun(disk, reserved, ops).1, ops[|ops| - 1];
            && |replies| == |ops| && 512 * ops[0].n <= |ops[0].buf|
            && (replies[0] != Reply(-1, []) ==>
                  && replies[0] == Reply(ops[0].n, [])
                  && (last.Load? ==> replies[|ops| - 1] == Reply(ops[0].n, ops[0].buf[..512 * ops[0].n]))
                  && (last.Remove? ==> replies[|ops| - 1] == Reply(1, [])))
  {
    InScopeFirst(disk, reserved, ops);
    RunRefines(disk, reserved, ops);
    hide Sound, AllInScope, DiskRun, Files, MapRun, LeavesAlone, ListsSound;
    MapReadsBack(Files(disk), ops);
  }

  lemma InScopeFirst(disk: seq<Sector>, reserved: set<nat>, ops: seq<FileOp>)
    requires Sound(disk, reserved) && AllInScope(disk, reserved, ops) && ops != [] && ops[0].Save?
    ensures 512 * ops[0].n <= |ops[0].buf|
  {
  }

  lemma {:induction false} MapIsGone(files: map<seq<Byte>, seq<Byte>>, ops: seq<FileOp>)
    requires |ops| >= 2 && ops[0].Remove?
    requires NeverSaves(ops[1..], ops[0].name) && ops[|ops| - 1].name == ops[0].name
    ensures var replies := MapRun(files, ops).1; |replies| == |ops| && replies[|ops| - 1] == Reply(-1, [])
  {
    hide MapRun;
    var last := |ops| - 1;
    assert ops[1..][last - 1] == ops[last];
    assert forall i :: 0 <= i < last - 1 ==> ops[1..last][i] == ops[1..][i];
    LastReply(files, ops);
    MapBetween(files, ops);
    NameStaysAway(MapAfter(files, ops[0]), ops[1..last], ops[0].name);
  }

  /** A file that was removed is gone until it is saved again. */
  lemma {:induction false} RemovedIsGone(disk: seq<Sector>, reserved: set<nat>, ops: seq<FileOp>)
    requires Sound(disk, reserved) && AllInScope(disk, reserved, ops) && |ops| >= 2 && ops[0].Remove?
    requires NeverSaves(ops[1..], ops[0].name) && ops[|ops| - 1].name == ops[0].name
    ensures var replies := DiskRun(disk, reserved, ops).1;
            |replies| == |ops| && replies[|ops| - 1] == Reply(-1, [])
  {
    RunRefines(disk, reserved, ops);
    hide Sound, AllInScope, DiskRun, Files, MapRun, NeverSaves, ListsSound;
    MapIsGone(Files(disk), ops);
  }

  /** A save is refused exactly when no entry bears the name and none is free. */
  lemma {:induction false} SaveRefusedIff(disk: seq<Sector>, reserved: set<nat>, ops: seq<FileOp>)
    requires Sound(disk, reserved) && AllInScope(disk, reserved, ops) && ops != [] && ops[0].Save?
    requires |disk| == 2880 && |ops[0].name| == 6
    ensures var replies := DiskRun(disk, reserved, ops).1;
            replies != [] && (replies[0] == Reply(-1, []) <==>
              forall i :: 0 <= i < 16 ==> !Bears(disk, i, ops[0].name) && disk[2][32 * i] != 0)
  {
    EntryIsFirst(disk, ops[0].name);
    hide Sound, Entry, Bears;
  }
}
