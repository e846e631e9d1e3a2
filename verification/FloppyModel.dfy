/** The floppy file system as a value: a directory of sixteen files in sector 2,
    a map of used sectors in sector 1, and the sectors themselves. */
module FloppyModel {
  import opened Wrappers

  type Sector = s: seq<Byte> | |s| == 512 witness seq(512, _ => 0)

  const DISK_SECTORS: nat := 2880
  const MAP_SECTOR: nat := 1
  const DIR_SECTOR: nat := 2
  const ENTRIES: nat := 16
  const NAME_BYTES: nat := 6
  const LIST_BYTES: nat := 26
  const MAX_SECTORS: nat := 25     // the list loops stop only at a zero byte
  const USED: Byte := 0xFF

  // ----- The directory as the struct dirEntry lays it out -----

  function NameIndex(i: nat, j: nat): nat { 32 * i + j }

  function ListIndex(i: nat, k: nat): nat { 32 * i + NAME_BYTES + k }

  function NameOf(dir: Sector, i: nat): (r: seq<Byte>)
    requires i < ENTRIES
    ensures |r| == NAME_BYTES
  {
    dir[NameIndex(i, 0)..NameIndex(i, NAME_BYTES)]
  }

  function Slot(dir: Sector, i: nat, k: nat): Byte
    requires i < ENTRIES && k < LIST_BYTES
  {
    dir[ListIndex(i, k)]
  }

  predicate Free(dir: Sector, i: nat)
    requires i < ENTRIES
  {
    dir[NameIndex(i, 0)] == 0
  }

  /** How far a loop that stops at a zero byte gets from position p. */
  function Scan(dir: Sector, p: nat): nat
    requires p <= 512
    decreases 512 - p
  {
    if p == 512 || dir[p] == 0 then 0 else 1 + Scan(dir, p + 1)
  }

  lemma {:induction false} ScanFacts(dir: Sector, p: nat)
    requires p <= 512
    ensures p + Scan(dir, p) <= 512
    ensures forall q :: p <= q < p + Scan(dir, p) ==> dir[q] != 0
    ensures p + Scan(dir, p) < 512 ==> dir[p + Scan(dir, p)] == 0
    decreases 512 - p
  {
    if p < 512 && dir[p] != 0 {
      ScanFacts(dir, p + 1);
    }
  }

  /** The number of sectors of file i, as the loops that stop only at a zero byte
      count them. */
  function Length(dir: Sector, i: nat): (r: nat)
    requires i < ENTRIES
    ensures ListIndex(i, r) <= 512
  {
    ScanFacts(dir, ListIndex(i, 0));
    Scan(dir, ListIndex(i, 0))
  }

  /** The count stops inside the directory sector. */
  predicate Stops(dir: Sector, i: nat)
    requires i < ENTRIES
  {
    ListIndex(i, Length(dir, i)) < 512
  }

  /** The entry with this name from entry i on, or ENTRIES. */
  function Find(dir: Sector, name: seq<Byte>, i: nat): (r: nat)
    requires i <= ENTRIES && |name| == NAME_BYTES
    ensures i <= r <= ENTRIES
    ensures r < ENTRIES ==> NameOf(dir, r) == name
    ensures forall j :: i <= j < r ==> NameOf(dir, j) != name
    decreases ENTRIES - i
  {
    if i == ENTRIES || NameOf(dir, i) == name then i else Find(dir, name, i + 1)
  }

  function FindFree(dir: Sector, i: nat): (r: nat)
    requires i <= ENTRIES
    ensures i <= r <= ENTRIES
    ensures r < ENTRIES ==> Free(dir, r)
    ensures forall j :: i <= j < r ==> !Free(dir, j)
    decreases ENTRIES - i
  {
    if i == ENTRIES || Free(dir, i) then i else FindFree(dir, i + 1)
  }

  /** The first n free sectors from j on, or all there are. */
  function FirstFit(diskMap: Sector, j: nat, n: nat): (r: seq<nat>)
    requires j <= 512
    ensures |r| <= n
    ensures forall m :: 0 <= m < |r| ==> j <= r[m] < 512 && diskMap[r[m]] == 0
    ensures forall m, m' :: 0 <= m < m' < |r| ==> r[m] < r[m']
    decreases 512 - j
  {
    if j == 512 || n == 0 then []
    else if diskMap[j] == 0 then [j] + FirstFit(diskMap, j + 1, n - 1)
    else FirstFit(diskMap, j + 1, n)
  }

  // ----- The disk -----

  function Dir(disk: seq<Sector>): Sector
    requires |disk| == DISK_SECTORS
  {
    disk[DIR_SECTOR]
  }

  function Map(disk: seq<Sector>): Sector
    requires |disk| == DISK_SECTORS
  {
    disk[MAP_SECTOR]
  }

  /** `reserved` sectors are in use but belong to no file.  Every other used byte
      of the map belongs to exactly one place in one list; lists end in zeros,
      and free entries hold nothing else. */
  ghost predicate Sound(disk: seq<Sector>, reserved: set<nat>) {
    && |disk| == DISK_SECTORS
    && 0 in reserved && MAP_SECTOR in reserved && DIR_SECTOR in reserved
    && ListsSound(Dir(disk))
    && NamesDistinct(Dir(disk))
    && MapSound(Dir(disk), Map(disk), reserved)
  }

  ghost predicate ListsSound(dir: Sector) {
    && (forall i, k :: 0 <= i < ENTRIES && Length(dir, i) <= k < LIST_BYTES ==> Slot(dir, i, k) == 0)
    && (forall i :: 0 <= i < ENTRIES ==> Length(dir, i) <= MAX_SECTORS && (Free(dir, i) ==> Length(dir, i) == 0))
    && (forall i, k, i', k' ::
          (0 <= i < ENTRIES && 0 <= k < LIST_BYTES && 0 <= i' < ENTRIES && 0 <= k' < LIST_BYTES
           && Slot(dir, i, k) == Slot(dir, i', k') != 0) ==> i == i' && k == k')
  }

  ghost predicate NamesDistinct(dir: Sector) {
    forall i, j :: 0 <= i < j < ENTRIES && !Free(dir, i) ==> NameOf(dir, i) != NameOf(dir, j)
  }

  ghost predicate Owned(dir: Sector, s: int) {
    s != 0 && exists i, k :: 0 <= i < ENTRIES && 0 <= k < LIST_BYTES && Slot(dir, i, k) == s
  }

  ghost predicate MapSound(dir: Sector, diskMap: Sector, reserved: set<nat>) {
    && (forall s :: 0 <= s < 512 ==> (diskMap[s] != 0 <==> s in reserved || Owned(dir, s)))
    && (forall s :: Owned(dir, s) ==> s !in reserved)
  }

  /** The bytes of file i, from its k-th sector on. */
  function Content(disk: seq<Sector>, i: nat, k: nat): seq<Byte>
    requires |disk| == DISK_SECTORS && i < ENTRIES && k <= Length(Dir(disk), i)
    decreases Length(Dir(disk), i) - k
  {
    if k == Length(Dir(disk), i) then []
    else disk[Dir(disk)[ListIndex(i, k)]] + Content(disk, i, k + 1)
  }

  // ----- Operations -----

  function FileByte(dir: Sector, e: nat, name: seq<Byte>, list: seq<nat>, p: nat): Byte
    requires e < ENTRIES && |name| == NAME_BYTES && |list| <= LIST_BYTES && p < 512
  {
    if NameIndex(e, 0) <= p < NameIndex(e, NAME_BYTES) then name[p - NameIndex(e, 0)]
    else if ListIndex(e, 0) <= p < ListIndex(e, |list|) then list[p - ListIndex(e, 0)] % 256
    else dir[p]
  }

  /** Directory entry e given a name and a sector list. */
  function WithFile(dir: Sector, e: nat, name: seq<Byte>, list: seq<nat>): (r: Sector)
    requires e < ENTRIES && |name| == NAME_BYTES && |list| <= LIST_BYTES
  {
    seq(512, p requires 0 <= p < 512 => FileByte(dir, e, name, list, p))
  }

  function WithUsed(diskMap: Sector, list: seq<nat>): (r: Sector) {
    seq(512, s requires 0 <= s < 512 => if s in list then USED else diskMap[s])
  }

  /** The sectors of `list` filled from `buf`. */
  function WithData(disk: seq<Sector>, list: seq<nat>, buf: seq<Byte>): (r: seq<Sector>)
    requires |buf| >= 512 * |list| && forall m :: 0 <= m < |list| ==> list[m] < |disk|
    ensures |r| == |disk|
    ensures forall s :: 0 <= s < |disk| && s !in list ==> r[s] == disk[s]
    decreases |list|
  {
    if list == [] then disk else WithData(disk[list[0] := buf[..512]], list[1..], buf[512..])
  }

  /** Writing a new file; `list` are the sectors chosen. */
  function Create(disk: seq<Sector>, e: nat, name: seq<Byte>, list: seq<nat>, buf: seq<Byte>): (r: seq<Sector>)
    requires |disk| == DISK_SECTORS && e < ENTRIES && |name| == NAME_BYTES && |list| <= LIST_BYTES
    requires |buf| >= 512 * |list| && forall m :: 0 <= m < |list| ==> list[m] < |disk|
    ensures |r| == |disk|
  {
    WithData(disk, list, buf)[DIR_SECTOR := WithFile(Dir(disk), e, name, list)][MAP_SECTOR := WithUsed(Map(disk),
      list)]
  }

  function RemainingByte(dir: Sector, e: nat, n: nat, p: nat): Byte
    requires e < ENTRIES && p < 512
  {
    if p == NameIndex(e, 0) || ListIndex(e, 0) <= p < ListIndex(e, n) then 0 else dir[p]
  }

  /** Directory entry e without its name's first byte and its first n sectors. */
  function WithoutFile(dir: Sector, e: nat, n: nat): (r: Sector)
    requires e < ENTRIES
  {
    seq(512, p requires 0 <= p < 512 => RemainingByte(dir, e, n, p))
  }

  function WithoutUsed(diskMap: Sector, list: seq<Byte>): (r: Sector) {
    seq(512, s requires 0 <= s < 512 => if s in list then 0 else diskMap[s])
  }

  /** The sector list of entry e. */
  function ListOf(dir: Sector, e: nat): seq<Byte>
    requires e < ENTRIES
  {
    dir[ListIndex(e, 0)..ListIndex(e, Length(dir, e))]
  }

  function Delete(disk: seq<Sector>, e: nat): (r: seq<Sector>)
    requires |disk| == DISK_SECTORS && e < ENTRIES
    ensures |r| == |disk|
  {
    disk[DIR_SECTOR := WithoutFile(Dir(disk), e, Length(Dir(disk), e))]
        [MAP_SECTOR := WithoutUsed(Map(disk), ListOf(Dir(disk), e))]
  }

  /** The entry a file of this name is written to, or ENTRIES. */
  function Entry(dir: Sector, name: seq<Byte>): (r: nat)
    requires |name| == NAME_BYTES
    ensures r <= ENTRIES
  {
    var e := Find(dir, name, 0);
    if e < ENTRIES then e else FindFree(dir, 0)
  }

  // ----- Calls -----

  datatype FileOp = Save(name: seq<Byte>, n: nat, buf: seq<Byte>) | Load(name: seq<Byte>) | Remove(name: seq<Byte>)

  datatype Reply = Reply(code: int, bytes: seq<Byte>)

  /** Entry e may take the name: it is the one that has it, or a free one when none has. */
  ghost predicate Takes(dir: Sector, e: nat, name: seq<Byte>) {
    && e < ENTRIES
    && |name| == NAME_BYTES && name[0] != 0
    && (Free(dir, e) || NameOf(dir, e) == name)
    && forall i :: 0 <= i < ENTRIES && i != e ==> NameOf(dir, i) != name
  }

  /** First fit finds n sectors whose numbers fit a byte. */
  ghost predicate Fits(diskMap: Sector, n: nat) {
    && n <= MAX_SECTORS
    && |FirstFit(diskMap, 0, n)| == n
    && forall m :: 0 <= m < n ==> FirstFit(diskMap, 0, n)[m] < 256
  }

  /** A call whose name is a name and, when it writes, whose entry holds no
      sectors yet and whose sectors can be found. */
  ghost predicate InScope(disk: seq<Sector>, op: FileOp) {
    && |disk| == DISK_SECTORS && |op.name| == NAME_BYTES && op.name[0] != 0
    && (op.Save? ==>
          && |op.buf| >= 512 * op.n
          && (Entry(Dir(disk), op.name) < ENTRIES ==>
                Length(Dir(disk), Entry(Dir(disk), op.name)) == 0 && Fits(Map(disk), op.n)))
  }

  ghost function After(disk: seq<Sector>, op: FileOp): (r: seq<Sector>)
    requires InScope(disk, op) && ListsSound(Dir(disk))
  {
    match op
    case Save(name, n, buf) =>
      var e := Entry(Dir(disk), name);
      if e == ENTRIES then disk else Create(disk, e, name, FirstFit(Map(disk), 0, n), buf)
    case Load(name) => disk
    case Remove(name) =>
      var e := Find(Dir(disk), name, 0);
      if e == ENTRIES then disk else Delete(disk, e)
  }

  ghost function Answer(disk: seq<Sector>, op: FileOp): Reply
    requires InScope(disk, op) && ListsSound(Dir(disk))
  {
    match op
    case Save(name, n, buf) => Reply(if Entry(Dir(disk), name) == ENTRIES then -1 else n, [])
    case Load(name) =>
      var e := Find(Dir(disk), name, 0);
      if e == ENTRIES then Reply(-1, []) else Reply(Length(Dir(disk), e), Content(disk, e, 0))
    case Remove(name) => Reply(if Find(Dir(disk), name, 0) == ENTRIES then -1 else 1, [])
  }
}
