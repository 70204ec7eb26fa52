/** fs/dir.c: directory entries in the twelve direct blocks of a directory inode. */
module Directories {
  import opened Words
  import opened Bitmaps
  import opened Volume
  import opened Partitions
  import opened DirData

  // ---------- what a directory is ----------

  ghost predicate Shaped(grid: seq<Row>) {
    |grid| == 12 && forall k :: 0 <= k < 12 ==> |grid[k]| == PER_SECTOR
  }

  ghost predicate GoodEntry(e: Entry) {
    if Live(e) then GoodName(e.name) && 0 <= e.ino < 4096 && (e.ftype == FT_REGULAR || e.ftype == FT_DIRECTORY)
        else e == EMPTY
  }

  /** Live entries have good names and numbers, the others are all zero. */
  ghost predicate Clean(grid: seq<Row>)
    requires Shaped(grid)
  {
    forall k, i :: 0 <= k < 12 && 0 <= i < PER_SECTOR ==> GoodEntry(grid[k][i])
  }

  /** Every live entry is the one its name leads to, and every name leads to a live entry. */
  ghost predicate Located(grid: seq<Row>, at: map<Str, (int, int)>)
    requires Shaped(grid)
  {
    && (forall k, i :: 0 <= k < 12 && 0 <= i < PER_SECTOR && Live(grid[k][i]) ==>
          grid[k][i].name in at && at[grid[k][i].name] == (k, i))
    && (forall n :: n in at ==>
          && 0 <= at[n].0 < 12 && 0 <= at[n].1 < PER_SECTOR
          && Live(grid[at[n].0][at[n].1]) && grid[at[n].0][at[n].1].name == n)
  }

  predicate IsDot(e: Entry) {
    e.name == DOT || e.name == DOTDOT
  }

  /** "." and ".." are the first two entries. */
  ghost predicate Dots(self: int, grid: seq<Row>)
    requires Shaped(grid)
  {
    && grid[0][0] == Entry(DOT, self, FT_DIRECTORY)
    && grid[0][1].name == DOTDOT && grid[0][1].ftype == FT_DIRECTORY
  }

  /** Besides the dots no two entries name the same inode. */
  ghost predicate OneEach(grid: seq<Row>, of: map<int, (int, int)>)
    requires Shaped(grid)
  {
    forall k, i :: 0 <= k < 12 && 0 <= i < PER_SECTOR && Live(grid[k][i]) && !IsDot(grid[k][i]) ==>
      grid[k][i].ino in of && of[grid[k][i].ino] == (k, i)
  }

  /** The first block is there; every other block holds a live entry or is not there. */
  ghost predicate Used(slots: seq<int>, grid: seq<Row>)
    requires Shaped(grid)
  {
    && |slots| == SLOTS && slots[0] != 0
    && (forall k :: 12 <= k < SLOTS ==> slots[k] == 0)
    && (forall k :: 0 <= k < 12 && slots[k] == 0 ==> grid[k] == EmptyRow())
    && (forall k :: 1 <= k < 12 && slots[k] != 0 ==> LiveRow(grid[k]) != [])
  }

  ghost predicate DirOk(self: int, slots: seq<int>, size: int, grid: seq<Row>, ix: Index) {
    && Shaped(grid) && Clean(grid) && Located(grid, ix.at) && Dots(self, grid) && OneEach(grid, ix.of)
    && Used(slots, grid) && size == 24 * |LiveList(grid)|
  }

  /** The sectors hold the entries of the grid. */
  ghost predicate GridIs(data: seq<Sector>, grid: seq<Row>) {
    |data| == 140 && |grid| == 12 && forall k :: 0 <= k < 12 ==> RowIs(data[k], grid[k])
  }

  function Put(grid: seq<Row>, k: nat, i: nat, e: Entry): (g: seq<Row>)
    requires k < |grid| && i < |grid[k]|
  {
    grid[k := grid[k][i := e]]
  }

  /** The number of live entries after an update. */
  lemma PutCount(grid: seq<Row>, k: nat, i: nat, e: Entry)
    requires k < |grid| && i < |grid[k]|
    ensures |LiveList(Put(grid, k, i, e))| == |LiveList(grid)| + One(e) - One(grid[k][i])
  {
    LiveRowUpdate(grid[k], i, e);
    LiveListUpdate(grid, k, grid[k][i := e]);
  }

  /** A new entry may go into the directory: a new name, and an inode that has no entry here. */
  ghost predicate Insertable(grid: seq<Row>, ix: Index, e: Entry)
    requires Shaped(grid)
  {
    && Live(e) && GoodEntry(e) && !IsDot(e) && e.name !in ix.at
    && forall k, i :: 0 <= k < 12 && 0 <= i < PER_SECTOR && Live(grid[k][i]) && !IsDot(grid[k][i]) ==>
         grid[k][i].ino != e.ino
  }

  function IndexPut(ix: Index, k: nat, i: nat, e: Entry): Index {
    Index(ix.at[e.name := (k, i)], ix.of[e.ino := (k, i)])
  }

  function IndexDrop(ix: Index, e: Entry): Index {
    Index(ix.at - {e.name}, ix.of)
  }

  lemma InsertLocated(grid: seq<Row>, ix: Index, k: nat, i: nat, e: Entry)
    requires Shaped(grid) && Located(grid, ix.at) && OneEach(grid, ix.of) && Insertable(grid, ix, e)
    requires k < 12 && i < PER_SECTOR && !Live(grid[k][i])
    ensures Located(Put(grid, k, i, e), IndexPut(ix, k, i, e).at)
      && OneEach(Put(grid, k, i, e), IndexPut(ix, k, i, e).of)
  {
  }

  lemma PutClean(self: int, grid: seq<Row>, k: nat, i: nat, e: Entry)
    requires Shaped(grid) && Clean(grid) && Dots(self, grid) && GoodEntry(e)
    requires k < 12 && i < PER_SECTOR && !(k == 0 && i <= 1)
    ensures Shaped(Put(grid, k, i, e)) && Clean(Put(grid, k, i, e)) && Dots(self, Put(grid, k, i, e))
  {
  }

  /** Inserting at a free slot keeps a directory a directory. */
  lemma InsertOk(self: int, slots: seq<int>, slots': seq<int>, size: int, grid: seq<Row>, ix: Index, k: nat, i: nat,
      e: Entry)
    requires DirOk(self, slots, size, grid, ix) && Insertable(grid, ix, e)
    requires k < 12 && i < PER_SECTOR && !Live(grid[k][i])
    requires |slots'| == SLOTS && slots'[k] != 0 && forall q :: 0 <= q < SLOTS && q != k ==> slots'[q] == slots[q]
    ensures DirOk(self, slots', size + 24, Put(grid, k, i, e), IndexPut(ix, k, i, e))
  {
    hide Located, OneEach, Used;
    PutClean(self, grid, k, i, e);
    InsertLocated(grid, ix, k, i, e);
    PutCount(grid, k, i, e);
    InsertUsed(slots, slots', grid, k, i, e);
    hide Clean, Dots, Insertable;
  }

  lemma InsertUsed(slots: seq<int>, slots': seq<int>, grid: seq<Row>, k: nat, i: nat, e: Entry)
    requires Shaped(grid) && Used(slots, grid) && k < 12 && i < PER_SECTOR && Live(e)
    requires |slots'| == SLOTS && slots'[k] != 0 && forall q :: 0 <= q < SLOTS && q != k ==> slots'[q] == slots[q]
    ensures Used(slots', Put(grid, k, i, e))
  {
    LiveRowHas(grid[k][i := e], i);
  }

  lemma DeleteLocated(grid: seq<Row>, ix: Index, k: nat, i: nat)
    requires Shaped(grid) && Located(grid, ix.at) && OneEach(grid, ix.of)
    requires k < 12 && i < PER_SECTOR && Live(grid[k][i])
    ensures Located(Put(grid, k, i, EMPTY), IndexDrop(ix, grid[k][i]).at) && OneEach(Put(grid, k, i, EMPTY), ix.of)
  {
  }

  lemma DeleteUsed(slots: seq<int>, slots': seq<int>, grid: seq<Row>, k: nat, i: nat)
    requires Shaped(grid) && Clean(grid) && Used(slots, grid) && k < 12 && i < PER_SECTOR && Live(grid[k][i])
    requires |slots'| == SLOTS && forall q :: 0 <= q < SLOTS && q != k ==> slots'[q] == slots[q]
    requires slots'[k] == if k > 0 && |LiveRow(grid[k])| == 1 then 0 else slots[k]
    ensures Used(slots', Put(grid, k, i, EMPTY))
  {
    var row := grid[k][i := EMPTY];
    LiveRowUpdate(grid[k], i, EMPTY);
    if slots'[k] == 0 {
      assert slots[k] != 0 by { assert grid[k][i] != EmptyRow()[i]; }
      NothingLive(row);
    }
  }

  /** Deleting an entry other than the dots keeps a directory a directory. */
  lemma DeleteOk(self: int, slots: seq<int>, slots': seq<int>, size: int, grid: seq<Row>, ix: Index, k: nat, i: nat)
    requires DirOk(self, slots, size, grid, ix)
    requires k < 12 && i < PER_SECTOR && Live(grid[k][i]) && !IsDot(grid[k][i])
    requires |slots'| == SLOTS && forall q :: 0 <= q < SLOTS && q != k ==> slots'[q] == slots[q]
    requires slots'[k] == if k > 0 && |LiveRow(grid[k])| == 1 then 0 else slots[k]
    ensures DirOk(self, slots', size - 24, Put(grid, k, i, EMPTY), IndexDrop(ix, grid[k][i]))
  {
    PutClean(self, grid, k, i, EMPTY);
    DeleteLocated(grid, ix, k, i);
    PutCount(grid, k, i, EMPTY);
    DeleteUsed(slots, slots', grid, k, i);
    hide Clean, Located, OneEach, Dots, Used;
  }

  /** A clean row without live entries is the empty row. */
  lemma NothingLive(row: Row)
    requires |row| == PER_SECTOR && LiveRow(row) == [] && forall i :: 0 <= i < PER_SECTOR ==> GoodEntry(row[i])
    ensures row == EmptyRow()
  {
    forall i | 0 <= i < PER_SECTOR ensures row[i] == EMPTY {
      if Live(row[i]) {
        LiveRowHas(row, i);
      }
    }
  }

  // ---------- reading a directory ----------

  datatype Option<T> = None | Some(value: T)

  /** Inode self of state v is the directory d. */
  ghost predicate DirAt(v: View, self: nat, d: Dir) {
    && self in v.inodes && self in v.slots && self in v.data
    && Lists(v.disk, v.inodes[self], v.slots[self]) && Backs(v.disk, v.slots[self], v.data[self])
    && GridIs(v.data[self], d.grid) && DirOk(self, v.slots[self], v.inodes[self].size, d.grid, d.ix)
  }

  /** What the block addresses mean for a directory. */
  lemma DirBlocks(v: View, self: nat, d: Dir, all: seq<int>)
    requires DirAt(v, self, d) && all == AllBlocks(v.disk, v.inodes[self])
    ensures all[0] != 0 && forall k :: 12 <= k < 140 ==> all[k] == 0
    ensures forall k :: 0 <= k < 12 && all[k] != 0 ==> RowIs(Sec(v.disk, all[k]), d.grid[k])
    ensures forall k :: 0 <= k < 12 && all[k] == 0 ==> d.grid[k] == EmptyRow()
  {
    hide RowIs, Clean, Located, OneEach, Dots;
  }

  /** The inner loop of search_dir_entry. */
  method SearchSector(buf: Sector, name: Str, ghost row: Row) returns (i: nat)
    requires RowIs(buf, row) && NoZero(name)
    ensures i <= PER_SECTOR && (forall q :: 0 <= q < i ==> row[q].name != name)
    ensures i < PER_SECTOR ==> row[i] == Entry(name, InoAt(buf, i), TypeAt(buf, i))
  {
    i := 0;
    while i < PER_SECTOR
      invariant 0 <= i <= PER_SECTOR
      invariant forall q :: 0 <= q < i ==> row[q].name != name
    {
      MatchesIsName(buf, i, row[i], name);
      if NameMatches(buf, i, name) {
        return;
      }
      i := i + 1;
    }
  }

  /** What the loops over a directory's blocks need to know of them. */
  ghost predicate BlocksOf(disk: Disk, all: seq<int>, grid: seq<Row>) {
    && |all| == 140 && Shaped(grid) && Clean(grid) && all[0] != 0 && (forall k :: 12 <= k < 140 ==> all[k] == 0)
    && (forall k :: 0 <= k < 12 && all[k] != 0 ==> RowIs(Sec(disk, all[k]), grid[k]))
    && (forall k :: 0 <= k < 12 && all[k] == 0 ==> grid[k] == EmptyRow())
  }

  /** The outer loop of search_dir_entry. */
  method SearchBlocks(disk: Disk, all: seq<int>, name: Str, ghost grid: seq<Row>)
      returns (r: Option<Entry>, ghost k: nat, ghost i: nat)
    requires BlocksOf(disk, all, grid) && NoZero(name) && |name| >= 1
    ensures r.Some? ==> k < 12 && i < PER_SECTOR && r.value == grid[k][i] && grid[k][i].name == name && Live(grid[k][i])
    ensures r.None? ==> forall q, j :: 0 <= q < 12 && 0 <= j < PER_SECTOR ==> grid[q][j].name != name
  {
    var b := 0;
    k, i := 0, 0;
    while b < 140
      invariant 0 <= b <= 140
      invariant forall q, j :: 0 <= q < b && q < 12 && 0 <= j < PER_SECTOR ==> grid[q][j].name != name
    {
      if all[b] != 0 {
        var buf := Sec(disk, all[b]);
        var slot := SearchSector(buf, name, grid[b]);
        if slot < PER_SECTOR {
          assert GoodEntry(grid[b][slot]);
          return Some(Entry(name, InoAt(buf, slot), TypeAt(buf, slot))), b, slot;
        }
      }
      b := b + 1;
    }
    r := None;
  }

  lemma BlocksOfDir(v: View, self: nat, d: Dir)
    requires DirAt(v, self, d)
    ensures |v.inodes[self].sectors| == 13 && BlocksOf(v.disk, AllBlocks(v.disk, v.inodes[self]), d.grid)
  {
    DirBlocks(v, self, d, AllBlocks(v.disk, v.inodes[self]));
    hide RowIs, Located, OneEach, Used, Dots, Lists, Backs, AllBlocks;
  }

  /** search_dir_entry: the entry of that name, or nothing. */
  method SearchDirEntry(p: Partition, self: nat, name: Str, ghost d: Dir) returns (r: Option<Entry>)
    requires DirAt(p.V(), self, d) && NoZero(name) && |name| >= 1
    ensures r.Some? <==> name in d.ix.at
    ensures r.Some? ==> var (k, i) := d.ix.at[name];
      0 <= k < |d.grid| && 0 <= i < |d.grid[k]| && r.value == d.grid[k][i]
  {
    BlocksOfDir(p.V(), self, d);
    hide BlocksOf, Backs, Lists, GridIs, Used, Clean, OneEach;
    ghost var k, i;
    r, k, i := SearchBlocks(p.disk, AllBlocks(p.disk, p.inodes[self]), name, d.grid);
  }

  // ---------- sync_dir_entry ----------

  /** The first free slot of a sector, or PER_SECTOR. */
  method FreeSlot(buf: Sector, ghost row: Row) returns (i: nat)
    requires RowIs(buf, row)
    ensures i <= PER_SECTOR && (forall q :: 0 <= q < i ==> Live(row[q])) && (i < PER_SECTOR ==> !Live(row[i]))
  {
    i := 0;
    while i < PER_SECTOR && TypeAt(buf, i) != FT_UNKNOWN
      invariant 0 <= i <= PER_SECTOR && forall q :: 0 <= q < i ==> Live(row[q])
    {
      i := i + 1;
    }
  }

  ghost predicate FullRow(row: Row) {
    forall i :: 0 <= i < |row| ==> Live(row[i])
  }

  lemma {:induction false} FullRowCount(row: Row)
    requires FullRow(row)
    ensures |LiveRow(row)| == |row|
  {
    if |row| > 0 {
      FullRowCount(row[..|row| - 1]);
    }
  }

  lemma {:induction false} FullGridCount(grid: seq<Row>)
    requires forall k :: 0 <= k < |grid| ==> |grid[k]| == PER_SECTOR && FullRow(grid[k])
    ensures |LiveList(grid)| == PER_SECTOR * |grid|
  {
    if |grid| > 0 {
      FullGridCount(grid[..|grid| - 1]);
      FullRowCount(grid[|grid| - 1]);
    }
  }

  /** Where sync_dir_entry puts an entry: the first block that is missing or has a free slot. */
  ghost predicate FirstPlace(all: seq<int>, grid: seq<Row>, k: int, i: int) {
    && 0 <= k < 12 && |all| == 140 && Shaped(grid)
    && (forall q :: 0 <= q < k ==> all[q] != 0 && FullRow(grid[q]))
    && (if all[k] == 0 then i == 0
        else 0 <= i < PER_SECTOR && !Live(grid[k][i]) && forall j :: 0 <= j < i ==> Live(grid[k][j]))
  }

  /** All blocks before some missing one are full. */
  ghost predicate NeedsBlock(all: seq<int>, grid: seq<Row>) {
    exists k :: 0 <= k < 12 && k < |all| && k < |grid| && all[k] == 0
      && forall q :: 0 <= q < k ==> all[q] != 0 && FullRow(grid[q])
  }

  lemma PlaceDecides(all: seq<int>, grid: seq<Row>, k: nat, i: nat)
    requires FirstPlace(all, grid, k, i)
    ensures NeedsBlock(all, grid) <==> all[k] == 0
  {
    if all[k] != 0 {
      assert !FullRow(grid[k]);
    }
  }

  /** Some block has room when there are fewer than 252 entries. */
  lemma RoomSomewhere(grid: seq<Row>)
    requires Shaped(grid) && |LiveList(grid)| < 252
    ensures exists k :: 0 <= k < 12 && !FullRow(grid[k])
  {
    if forall k :: 0 <= k < 12 ==> FullRow(grid[k]) {
      FullGridCount(grid);
    }
  }

  /** The search of sync_dir_entry, for a directory with fewer than 252 entries. */
  method FindPlace(disk: Disk, all: seq<int>, ghost grid: seq<Row>) returns (k: nat, i: nat)
    requires |all| == 140 && Shaped(grid) && |LiveList(grid)| < 252
    requires forall k :: 0 <= k < 12 && all[k] != 0 ==> RowIs(Sec(disk, all[k]), grid[k])
    ensures FirstPlace(all, grid, k, i)
  {
    RoomSomewhere(grid);
    k, i := 0, 0;
    while all[k] != 0
      invariant 0 <= k < 12 && i == 0
      invariant forall q :: 0 <= q < k ==> all[q] != 0 && FullRow(grid[q])
      decreases 12 - k
    {
      var slot := FreeSlot(Sec(disk, all[k]), grid[k]);
      if slot < PER_SECTOR {
        return k, slot;
      }
      assert FullRow(grid[k]);
      k := k + 1;
    }
  }

  /** The directory after e went to slot i of block k. */
  function Inserted(d: Dir, k: nat, i: nat, e: Entry): (d': Dir)
    requires k < |d.grid| && i < |d.grid[k]|
  {
    Dir(Put(d.grid, k, i, e), IndexPut(d.ix, k, i, e))
  }

  /** A sound state in which inode self is a directory with data and list as given. */
  lemma DirAgain(v': View, self: nat, d': Dir)
    requires Sound(v') && self in v'.inodes && self in v'.data && self in v'.slots
    requires GridIs(v'.data[self], d'.grid) && DirOk(self, v'.slots[self], v'.inodes[self].size, d'.grid, d'.ix)
    ensures DirAt(v', self, d')
  {
    InodeOf(v', self);
    hide Sound, GridIs, DirOk;
  }

  lemma GridPut(data: seq<Sector>, grid: seq<Row>, k: nat, sec: Sector, row: Row)
    requires GridIs(data, grid) && k < 12 && RowIs(sec, row)
    ensures GridIs(data[k := sec], grid[k := row])
  {
    hide RowIs;
  }

  /** From v to v' only inode self may have changed, and its first block stayed where it was. */
  ghost predicate DirChanged(v: View, v': View, self: nat) {
    && OnlyChanged(v, v', self) && self in v.slots && self in v'.slots
    && |v.slots[self]| == |v'.slots[self]| == SLOTS && v'.slots[self][0] == v.slots[self][0]
  }

  lemma FirstStays(v: View, v': View, self: nat, d: Dir, k: nat, b: int)
    requires DirAt(v, self, d) && OnlyChanged(v, v', self) && k < |v.slots[self]|
    requires v'.slots[self] == v.slots[self]
      || (v'.slots[self] == v.slots[self][k := b] && (k > 0 || v.slots[self][k] == 0))
    ensures DirChanged(v, v', self)
  {
    hide Shaped, Clean, Located, Dots, OneEach, LiveList, GridIs, Lists, Backs;
  }

  /** An entry written into an existing block. */
  lemma InsertedAt(v: View, self: nat, d: Dir, k: nat, i: nat, e: Entry, sec: Sector)
    requires Sound(v) && DirAt(v, self, d) && Insertable(d.grid, d.ix, e)
    requires k < 12 && i < PER_SECTOR && v.slots[self][k] != 0 && !Live(d.grid[k][i])
    requires sec == PutEntry(Sec(v.disk, v.slots[self][k]), i, e)
    ensures var v' := Rewritten(v, self, k, sec, v.inodes[self].size + 24);
            Sound(v') && DirChanged(v, v', self) && DirAt(v', self, Inserted(d, k, i, e))
  {
    var v' := Rewritten(v, self, k, sec, v.inodes[self].size + 24);
    assert v.data[self][k] == Sec(v.disk, v.slots[self][k]);
    assert RowIs(v.data[self][k], d.grid[k]);
    hide Sound, Lists, Backs, RowIs;
    RewrittenSound(v, self, k, sec, v.inodes[self].size + 24);
    RowPut(v.data[self][k], d.grid[k], i, e);
    GridPut(v.data[self], d.grid, k, sec, d.grid[k][i := e]);
    hide GridIs, Insertable;
    InsertOk(self, v.slots[self], v.slots[self], v.inodes[self].size, d.grid, d.ix, k, i, e);
    hide DirOk;
    DirAgain(v', self, Inserted(d, k, i, e));
    FirstStays(v, v', self, d, k, 0);
  }

  /** An entry written into a new block. */
  lemma InsertedNew(v: View, self: nat, d: Dir, k: nat, b: int, e: Entry, sec: Sector)
    requires Sound(v) && DirAt(v, self, d) && Insertable(d.grid, d.ix, e)
    requires k < 12 && v.slots[self][k] == 0 && 0 <= b - v.start < |v.bits| && !v.bits[b - v.start]
    requires |e.name| <= 16 && sec == PutEntry(ZeroSector(), 0, e)
    ensures |v.inodes[self].sectors| == 13 && |d.grid| == 12 && |d.grid[k]| == PER_SECTOR
    ensures var v' := Claimed(v, self, k, b, sec, v.inodes[self].size + 24);
            Sound(v') && DirChanged(v, v', self) && DirAt(v', self, Inserted(d, k, 0, e))
  {
    hide DirOk, Accounted, Lists, Backs, RowIs, GridIs, Insertable, PutEntry;
    StartPositive(v);
    hide Sound;
    DirParts(v, self, d);
    MissingRow(v, self, d, k);
    var size := v.inodes[self].size + 24;
    ClaimedSound(v, self, k, b, sec, size);
    EmptyRowIs();
    InsertableEntry(d, e);
    RowPut(ZeroSector(), d.grid[k], 0, e);
    GridPut(v.data[self], d.grid, k, sec, d.grid[k][0 := e]);
    InsertOk(self, v.slots[self], v.slots[self][k := b], v.inodes[self].size, d.grid, d.ix, k, 0, e);
    DirAgain(Claimed(v, self, k, b, sec, size), self, Inserted(d, k, 0, e));
    FirstStays(v, Claimed(v, self, k, b, sec, size), self, d, k, b);
  }

  lemma Consts()
    ensures PER_SECTOR == 21 && SLOTS == 141
  {
  }

  lemma DirParts(v: View, self: nat, d: Dir)
    requires DirAt(v, self, d)
    ensures self in v.inodes && self in v.slots && self in v.data
    ensures |v.inodes[self].sectors| == 13 && |v.slots[self]| == SLOTS && |v.data[self]| == 140 && Shaped(d.grid)
    ensures forall k :: 0 <= k < 12 ==> v.inodes[self].sectors[k] == v.slots[self][k]
  {
  }

  lemma MissingRow(v: View, self: nat, d: Dir, k: nat)
    requires DirAt(v, self, d) && k < 12 && v.slots[self][k] == 0
    ensures d.grid[k] == EmptyRow()
  {
  }

  lemma InsertableEntry(d: Dir, e: Entry)
    requires Shaped(d.grid) && Insertable(d.grid, d.ix, e)
    ensures |e.name| <= 15 && NoZero(e.name) && IsU32(e.ino) && IsU32(e.ftype)
  {
  }

  /** From v to v' entry e went into the first free place of directory self, which is d and becomes d'. */
  ghost predicate InsertDone(v: View, v': View, self: nat, d: Dir, d': Dir, e: Entry) {
    && Sound(v') && DirChanged(v, v', self) && DirAt(v', self, d') && self in v.inodes && |v.inodes[self].sectors| == 13
    && exists k: nat, i: nat ::
         FirstPlace(AllBlocks(v.disk, v.inodes[self]), d.grid, k, i) && d' == Inserted(d, k, i, e)
  }

  /** sync_dir_entry: the entry goes into the first free slot, in a new block when all slots of the
      blocks before are taken.  A full disk stops the kernel (ok is false). */
  method SyncDirEntry(p: Partition, self: nat, e: Entry, ghost d: Dir) returns (ok: bool, ghost d': Dir)
    requires Sound(p.V()) && DirAt(p.V(), self, d) && Insertable(d.grid, d.ix, e) && |LiveList(d.grid)| < 252
    modifies p`disk, p`inodes, p`data, p`bits, p`dbits, p`slots, p`owner
    ensures self in old(p.V()).inodes && |old(p.V()).inodes[self].sectors| == 13
    ensures !ok <==>
      Free(old(p.V()).bits) == 0 && NeedsBlock(AllBlocks(old(p.V()).disk, old(p.V()).inodes[self]), d.grid)
    ensures ok ==> InsertDone(old(p.V()), p.V(), self, d, d', e)
    ensures ok && old(p.dbits) == old(p.bits) ==> p.dbits == p.bits
  {
    Consts();
    hide *;
    ghost var v := p.V();
    p.Fields();
    BlocksOfDir(v, self, d);
    DirParts(v, self, d);
    var all := AllBlocks(p.disk, p.inodes[self]);
    RowsOf(p.disk, all, d.grid);
    var k, i := FindPlace(p.disk, all, d.grid);
    PlaceDecides(all, d.grid, k, i);
    PlaceIn(v, self, d, all, k, i);
    if all[k] == 0 {
      ok := InsertNew(p, self, k, e, d);
    } else {
      ok := true;
      InsertAt(p, self, k, i, e, d);
    }
    d' := Inserted(d, k, i, e);
    if ok {
      InsertIsDone(v, p.V(), self, d, e, k, i);
    }
  }

  lemma RowsOf(disk: Disk, all: seq<int>, grid: seq<Row>)
    requires BlocksOf(disk, all, grid)
    ensures |all| == 140 && forall k :: 0 <= k < 12 && all[k] != 0 ==> RowIs(Sec(disk, all[k]), grid[k])
  {
    hide RowIs;
  }

  lemma PlaceIn(v: View, self: nat, d: Dir, all: seq<int>, k: nat, i: nat)
    requires DirAt(v, self, d) && |v.inodes[self].sectors| == 13 && all == AllBlocks(v.disk, v.inodes[self])
    requires FirstPlace(all, d.grid, k, i)
    ensures k < 12 && k < |d.grid| && i < |d.grid[k]| && self in v.slots && k < |v.slots[self]|
    ensures all[k] == v.slots[self][k] && (all[k] == 0 ==> i == 0)
    ensures all[k] != 0 ==> i < PER_SECTOR && !Live(d.grid[k][i])
  {
    DirParts(v, self, d);
    hide DirAt;
  }

  lemma InsertIsDone(v: View, v': View, self: nat, d: Dir, e: Entry, k: nat, i: nat)
    requires self in v.inodes && |v.inodes[self].sectors| == 13 && k < |d.grid| && i < |d.grid[k]|
    requires FirstPlace(AllBlocks(v.disk, v.inodes[self]), d.grid, k, i)
    requires Sound(v') && DirChanged(v, v', self) && DirAt(v', self, Inserted(d, k, i, e))
    ensures InsertDone(v, v', self, d, Inserted(d, k, i, e), e)
  {
    hide Sound, DirChanged, DirAt, FirstPlace, AllBlocks, Inserted;
  }

  /** dir.c:139-185 for a direct block. */
  method InsertNew(p: Partition, self: nat, k: nat, e: Entry, ghost d: Dir) returns (ok: bool)
    requires Sound(p.V()) && DirAt(p.V(), self, d) && Insertable(d.grid, d.ix, e)
    requires k < 12 && p.slots[self][k] == 0
    modifies p`disk, p`inodes, p`data, p`bits, p`dbits, p`slots, p`owner
    ensures ok <==> Free(old(p.V()).bits) > 0
    ensures ok ==>
      && Sound(p.V()) && DirChanged(old(p.V()), p.V(), self) && k < |d.grid| && 0 < |d.grid[k]|
      && DirAt(p.V(), self, Inserted(d, k, 0, e))
    ensures ok && old(p.dbits) == old(p.bits) ==> p.dbits == p.bits
  {
    Consts();
    hide *;
    ghost var v := p.V();
    p.Fields();
    SoundAccounts(v);
    DirParts(v, self, d);
    InsertableEntry(d, e);
    var sec := PutEntry(ZeroSector(), 0, e);
    var lba;
    ok, lba := p.ClaimAndWrite(self, k, sec, p.inodes[self].size + 24);
    if ok {
      ClearBit(v.bits, lba - v.start);
      InsertedNew(v, self, d, k, lba, e, sec);
    }
  }

  lemma ClearBit(bits: seq<bool>, j: int)
    requires LeastRun(bits, j, 1)
    ensures 0 <= j < |bits| && !bits[j]
  {
    assert RunAt(bits, j, 1);
  }

  /** dir.c:189-199 */
  method InsertAt(p: Partition, self: nat, k: nat, i: nat, e: Entry, ghost d: Dir)
    requires Sound(p.V()) && DirAt(p.V(), self, d) && Insertable(d.grid, d.ix, e)
    requires k < 12 && p.slots[self][k] != 0 && i < PER_SECTOR && !Live(d.grid[k][i])
    modifies p`disk, p`inodes, p`data
    ensures Sound(p.V()) && DirChanged(old(p.V()), p.V(), self) && k < |d.grid| && i < |d.grid[k]|
      && DirAt(p.V(), self, Inserted(d, k, i, e))
  {
    Consts();
    hide *;
    ghost var v := p.V();
    p.Fields();
    DirParts(v, self, d);
    InsertableEntry(d, e);
    var lba := p.inodes[self].sectors[k];
    var sec := PutEntry(Sec(p.disk, lba), i, e);
    InsertedAt(v, self, d, k, i, e, sec);
    p.Rewrite(self, k, lba, sec, p.inodes[self].size + 24);
  }

  // ---------- delete_dir_entry ----------

  /** Live entries of a row besides the dots. */
  function Others(row: Row): (n: nat) {
    if |row| == 0 then 0
    else Others(row[..|row| - 1]) + if Live(row[|row| - 1]) && !IsDot(row[|row| - 1]) then 1 else 0
  }

  lemma {:induction false} OthersIsLive(row: Row)
    requires forall i :: 0 <= i < |row| && Live(row[i]) ==> !IsDot(row[i])
    ensures Others(row) == |LiveRow(row)|
  {
    if |row| > 0 {
      OthersIsLive(row[..|row| - 1]);
    }
  }

  /** Entry e is the one delete_dir_entry looks for. */
  predicate Wanted(e: Entry, ino: int) {
    Live(e) && !IsDot(e) && e.ino == ino
  }

  /** "." is among the live entries. */
  predicate HasDot(row: Row) {
    |row| > 0 && (HasDot(row[..|row| - 1]) || (Live(row[|row| - 1]) && row[|row| - 1].name == DOT))
  }

  lemma {:induction false} HasDotAt(row: Row, i: nat)
    requires i < |row| && Live(row[i]) && row[i].name == DOT
    ensures HasDot(row)
  {
    if i < |row| - 1 {
      HasDotAt(row[..|row| - 1], i);
    }
  }

  lemma {:induction false} HasNoDot(row: Row)
    requires forall i :: 0 <= i < |row| && Live(row[i]) ==> !IsDot(row[i])
    ensures !HasDot(row)
  {
    if |row| > 0 {
      HasNoDot(row[..|row| - 1]);
    }
  }

  /** How delete_dir_entry sees one slot: "." itself, another entry, or neither. */
  method Classify(buf: Sector, i: nat, ghost e: Entry) returns (dot: bool, other: bool)
    requires SlotIs(buf, i, e)
    ensures dot <==> Live(e) && e.name == DOT
    ensures other <==> Live(e) && !IsDot(e)
  {
    assert NoZero(DOT) && NoZero(DOTDOT);
    MatchesIsName(buf, i, e, DOT);
    MatchesIsName(buf, i, e, DOTDOT);
    dot := TypeAt(buf, i) != FT_UNKNOWN && NameMatches(buf, i, DOT);
    other := TypeAt(buf, i) != FT_UNKNOWN && !NameMatches(buf, i, DOT) && !NameMatches(buf, i, DOTDOT);
  }

  lemma OneMore(row: Row, i: nat)
    requires i < |row|
    ensures Others(row[..i + 1]) == Others(row[..i]) + if Live(row[i]) && !IsDot(row[i]) then 1 else 0
    ensures HasDot(row[..i + 1]) <==> HasDot(row[..i]) || (Live(row[i]) && row[i].name == DOT)
  {
    assert row[..i + 1][..i] == row[..i];
  }

  /** The pass over one sector (dir.c:245-264): how many entries besides the dots, whether "." is
      among them, and the slot of the wanted inode. */
  method ScanSector(buf: Sector, ino: int, ghost row: Row) returns (cnt: nat, first: bool, found: nat)
    requires RowIs(buf, row)
    requires forall i, j :: 0 <= i < j < PER_SECTOR ==> !(Wanted(row[i], ino) && Wanted(row[j], ino))
    ensures cnt == Others(row) && (first <==> HasDot(row))
    ensures found <= PER_SECTOR && (found < PER_SECTOR ==> Wanted(row[found], ino))
    ensures found == PER_SECTOR ==> forall i :: 0 <= i < PER_SECTOR ==> !Wanted(row[i], ino)
  {
    cnt, first, found := 0, false, PER_SECTOR;
    var i := 0;
    while i < PER_SECTOR
      invariant 0 <= i <= PER_SECTOR && cnt == Others(row[..i]) && (first <==> HasDot(row[..i]))
      invariant found == PER_SECTOR || (found < i && Wanted(row[found], ino))
      invariant found == PER_SECTOR ==> forall q :: 0 <= q < i ==> !Wanted(row[q], ino)
    {
      OneMore(row, i);
      assert SlotIs(buf, i, row[i]);
      var dot, other := Classify(buf, i, row[i]);
      if dot {
        first := true;
      } else if other {
        cnt := cnt + 1;
        if InoAt(buf, i) == ino {
          assert found == PER_SECTOR;   // ASSERT(dir_entry_found == NULL)
          found := i;
        }
      }
      i := i + 1;
    }
    assert row[..i] == row;
  }

  /** No inode is wanted twice. */
  ghost predicate Unique(grid: seq<Row>, ino: int)
    requires Shaped(grid)
  {
    forall k, i, k', i' :: 0 <= k < 12 && 0 <= i < PER_SECTOR && 0 <= k' < 12 && 0 <= i' < PER_SECTOR ==>
      (Wanted(grid[k][i], ino) && Wanted(grid[k'][i'], ino) ==> k == k' && i == i')
  }

  /** The loop over the blocks (dir.c:231-269), up to the block that holds the entry. */
  method FindEntry(disk: Disk, all: seq<int>, ino: int, ghost grid: seq<Row>)
    returns (found: bool, k: nat, i: nat, cnt: nat, first: bool)
    requires BlocksOf(disk, all, grid) && Unique(grid, ino)
    ensures found ==> k < 12 && all[k] != 0 && i < PER_SECTOR && Wanted(grid[k][i], ino)
    ensures found ==> cnt == Others(grid[k]) && (first <==> HasDot(grid[k]))
    ensures !found ==> forall q, j :: 0 <= q < 12 && 0 <= j < PER_SECTOR ==> !Wanted(grid[q][j], ino)
  {
    k, i, cnt, first, found := 0, 0, 0, false, false;
    while k < 140
      invariant 0 <= k <= 140
      invariant forall q, j :: 0 <= q < k && q < 12 && 0 <= j < PER_SECTOR ==> !Wanted(grid[q][j], ino)
    {
      if all[k] != 0 {
        cnt, first, i := ScanSector(Sec(disk, all[k]), ino, grid[k]);
        if i < PER_SECTOR {
          found := true;
          return;
        }
      }
      k := k + 1;
    }
  }

  function Deleted(d: Dir, k: nat, i: nat): (d': Dir)
    requires k < |d.grid| && i < |d.grid[k]|
  {
    Dir(Put(d.grid, k, i, EMPTY), IndexDrop(d.ix, d.grid[k][i]))
  }

  /** What delete_dir_entry finds out about the block: it goes iff it is not the first and holds
      only this entry. */
  lemma BlockGoes(v: View, self: nat, d: Dir, k: nat)
    requires DirAt(v, self, d) && k < 12
    ensures Others(d.grid[k]) == 1 && !HasDot(d.grid[k]) <==> k > 0 && |LiveRow(d.grid[k])| == 1
  {
    hide Clean, OneEach, Used, Lists, Backs, GridIs;
    if k == 0 {
      HasDotAt(d.grid[0], 0);
    } else {
      assert d.grid[0][0].name == DOT && d.grid[0][1].name == DOTDOT;
      OthersIsLive(d.grid[k]);
      HasNoDot(d.grid[k]);
    }
  }

  lemma UniqueOf(d: Dir, ino: int)
    requires Shaped(d.grid) && OneEach(d.grid, d.ix.of)
    ensures Unique(d.grid, ino)
    ensures forall k, i :: 0 <= k < 12 && 0 <= i < PER_SECTOR && Wanted(d.grid[k][i], ino) ==>
        ino in d.ix.of && d.ix.of[ino] == (k, i)
  {
  }

  /** The entry is cleared in its sector. */
  lemma ClearedAt(v: View, self: nat, d: Dir, k: nat, i: nat, sec: Sector)
    requires Sound(v) && DirAt(v, self, d) && k < 12 && i < PER_SECTOR && v.slots[self][k] != 0
    requires Live(d.grid[k][i]) && !IsDot(d.grid[k][i]) && !(k > 0 && |LiveRow(d.grid[k])| == 1)
    requires sec == ClearEntry(Sec(v.disk, v.slots[self][k]), i)
    ensures var v' := Rewritten(v, self, k, sec, v.inodes[self].size - 24);
            Sound(v') && DirChanged(v, v', self) && DirAt(v', self, Deleted(d, k, i))
  {
    assert v.data[self][k] == Sec(v.disk, v.slots[self][k]);
    assert RowIs(v.data[self][k], d.grid[k]);
    hide Sound, Lists, Backs, RowIs, ClearEntry;
    var size := v.inodes[self].size - 24;
    RewrittenSound(v, self, k, sec, size);
    RowClear(v.data[self][k], d.grid[k], i);
    GridPut(v.data[self], d.grid, k, sec, d.grid[k][i := EMPTY]);
    hide GridIs;
    DeleteOk(self, v.slots[self], v.slots[self], v.inodes[self].size, d.grid, d.ix, k, i);
    hide DirOk;
    DirAgain(Rewritten(v, self, k, sec, size), self, Deleted(d, k, i));
    FirstStays(v, Rewritten(v, self, k, sec, size), self, d, k, 0);
  }

  /** The whole block is given back. */
  lemma BlockGone(v: View, self: nat, d: Dir, k: nat, i: nat)
    requires Sound(v) && DirAt(v, self, d) && 0 < k < 12 && i < PER_SECTOR && v.slots[self][k] != 0
    requires Live(d.grid[k][i]) && !IsDot(d.grid[k][i]) && |LiveRow(d.grid[k])| == 1
    ensures |v.inodes[self].sectors| == 13 && |v.slots[self]| == SLOTS && |v.data[self]| == 140
      && 0 <= v.slots[self][k] - v.start < |v.bits|
    ensures var v' := Released(v, self, k, v.inodes[self].size - 24);
            Sound(v') && DirChanged(v, v', self) && DirAt(v', self, Deleted(d, k, i))
  {
    hide Sound, Lists, Backs, RowIs, DirOk, GridIs;
    DirParts(v, self, d);
    var size := v.inodes[self].size - 24;
    ReleasedSound(v, self, k, size);
    LastOne(v, self, d, k, i);
    EmptyRowIs();
    GridPut(v.data[self], d.grid, k, ZeroSector(), d.grid[k][i := EMPTY]);
    DeleteOk(self, v.slots[self], v.slots[self][k := 0], v.inodes[self].size, d.grid, d.ix, k, i);
    DirAgain(Released(v, self, k, size), self, Deleted(d, k, i));
    FirstStays(v, Released(v, self, k, size), self, d, k, 0);
  }

  lemma LastOne(v: View, self: nat, d: Dir, k: nat, i: nat)
    requires DirAt(v, self, d) && k < 12 && i < PER_SECTOR && Live(d.grid[k][i]) && |LiveRow(d.grid[k])| == 1
    ensures d.grid[k][i := EMPTY] == EmptyRow()
  {
    hide Located, OneEach, Used, Lists, Backs, GridIs;
    LiveRowUpdate(d.grid[k], i, EMPTY);
    NothingLive(d.grid[k][i := EMPTY]);
  }

  /** dir.c:271-318: the entry found is cleared, or its whole block given back. */
  method RemoveAt(p: Partition, self: nat, k: nat, i: nat, cnt: nat, first: bool, ghost d: Dir)
    requires Sound(p.V()) && DirAt(p.V(), self, d) && k < 12 && i < PER_SECTOR && p.V().slots[self][k] != 0
    requires Live(d.grid[k][i]) && !IsDot(d.grid[k][i]) && cnt == Others(d.grid[k]) && (first <==> HasDot(d.grid[k]))
    modifies p`disk, p`inodes, p`data, p`bits, p`dbits, p`slots, p`owner
    ensures Sound(p.V()) && DirChanged(old(p.V()), p.V(), self) && k < |d.grid| && i < |d.grid[k]|
      && DirAt(p.V(), self, Deleted(d, k, i))
    ensures old(p.dbits) == old(p.bits) ==> p.dbits == p.bits
  {
    Consts();
    hide *;
    ghost var v := p.V();
    p.Fields();
    DirParts(v, self, d);
    BlockGoes(v, self, d, k);
    var size := p.inodes[self].size - 24;
    if cnt == 1 && !first {
      BlockGone(v, self, d, k, i);
      p.GiveBack(self, k, size);
    } else {
      var lba := p.inodes[self].sectors[k];
      var sec := ClearEntry(Sec(p.disk, lba), i);
      ClearedAt(v, self, d, k, i, sec);
      p.Rewrite(self, k, lba, sec, size);
    }
  }

  /** delete_dir_entry: the entry of inode ino, unless it is "." or "..", leaves the directory, and
      its block with it when nothing else is in it; without such an entry nothing happens. */
  method DeleteDirEntry(p: Partition, self: nat, ino: int, ghost d: Dir) returns (found: bool, ghost d': Dir)
    requires Sound(p.V()) && DirAt(p.V(), self, d)
    modifies p`disk, p`inodes, p`data, p`bits, p`dbits, p`slots, p`owner
    ensures Shaped(d.grid)
    ensures !found ==>
      p.V() == old(p.V()) && forall k, i :: 0 <= k < 12 && 0 <= i < PER_SECTOR ==> !Wanted(d.grid[k][i], ino)
    ensures found ==> Sound(p.V()) && DirChanged(old(p.V()), p.V(), self) && DirAt(p.V(), self, d')
    ensures found ==> ino in d.ix.of && var (k, i) := d.ix.of[ino];
      0 <= k < 12 && 0 <= i < PER_SECTOR && Wanted(d.grid[k][i], ino) && d' == Deleted(d, k, i)
    ensures old(p.dbits) == old(p.bits) ==> p.dbits == p.bits
  {
    ghost var v := p.V();
    d' := d;
    BlocksOfDir(v, self, d);
    DirParts(v, self, d);
    UniqueOf(d, ino);
    hide Sound, DirAt, BlocksOf, Unique, AllBlocks;
    var k, i, cnt, first;
    found, k, i, cnt, first := FindEntry(p.disk, AllBlocks(p.disk, p.inodes[self]), ino, d.grid);
    if found {
      RemoveAt(p, self, k, i, cnt, first, d);
      d' := Deleted(d, k, i);
    }
  }

  // ---------- dir_read ----------

  lemma RowGrows(row: Row, i: nat)
    requires i < |row|
    ensures LiveRow(row[..i + 1]) == LiveRow(row[..i]) + if Live(row[i]) then [row[i]] else []
    ensures LiveRow(row[..i + 1]) <= LiveRow(row)
  {
    assert row[..i + 1][..i] == row[..i];
    ListPrefix([row], 0, i + 1);
    assert LiveList([row][..0]) == [];
    assert LiveList([row]) == LiveRow(row);
  }

  lemma NothingYet()
    ensures LiveRow([]) == []
  {
  }

  /** One sector of dir_read (dir.c:356-375): entries before position 24n are skipped, c of them lie
      in earlier sectors. */
  method ReadSector(buf: Sector, cur0: nat, pos: nat, ghost c: nat, ghost n: nat, ghost row: Row)
      returns (r: Option<Entry>, cur: nat)
    requires RowIs(buf, row) && cur0 == 24 * c && pos == 24 * n && c <= n
    ensures n - c < |LiveRow(row)| ==> r == Some(LiveRow(row)[n - c])
    ensures n - c >= |LiveRow(row)| ==> r == None && cur == 24 * (c + |LiveRow(row)|)
  {
    hide LiveRow, InoAt, TypeAt, EntryAt;
    assert row[..0] == [];
    NothingYet();
    var i := 0;
    cur := cur0;
    r := None;
    while i < PER_SECTOR
      invariant 0 <= i <= PER_SECTOR && cur == 24 * (c + |LiveRow(row[..i])|) && c + |LiveRow(row[..i])| <= n
    {
      RowGrows(row, i);
      assert SlotIs(buf, i, row[i]);
      if TypeAt(buf, i) != FT_UNKNOWN {
        if cur < pos {
          cur := cur + 24;
        } else {
          EntryAtIs(buf, i, row[i]);
          return Some(EntryAt(buf, i)), cur;
        }
      }
      i := i + 1;
    }
    assert row[..i] == row;
  }

  lemma GridGrows(grid: seq<Row>, k: nat)
    requires k < |grid|
    ensures LiveList(grid[..k + 1]) == LiveList(grid[..k]) + LiveRow(grid[k])
    ensures LiveList(grid[..k + 1]) <= LiveList(grid)
  {
    assert grid[..k + 1][..k] == grid[..k];
    ListPrefix(grid, k, |grid[k]|);
    assert grid[k][..|grid[k]|] == grid[k];
  }

  /** The block loop of dir_read; block_cnt is 12 because a directory has no indirect table. */
  method ReadBlocks(disk: Disk, all: seq<int>, size: int, pos: nat, ghost n: nat, ghost grid: seq<Row>)
      returns (r: Option<Entry>, pos': nat)
    requires BlocksOf(disk, all, grid) && size == 24 * |LiveList(grid)| && pos == 24 * n
    ensures n < |LiveList(grid)| ==> r == Some(LiveList(grid)[n]) && pos' == pos + 24
    ensures n >= |LiveList(grid)| ==> r == None && pos' == pos
  {
    var k, cur := 0, 0;
    while k < 12
      invariant 0 <= k <= 12 && cur == 24 * |LiveList(grid[..k])| && |LiveList(grid[..k])| <= n
    {
      if pos >= size {
        return None, pos;
      }
      GridGrows(grid, k);
      if all[k] != 0 {
        r, cur := ReadSector(Sec(disk, all[k]), cur, pos, |LiveList(grid[..k])|, n, grid[k]);
        if r.Some? {
          return r, pos + 24;
        }
      } else {
        DeadRow(EmptyRow());
      }
      k := k + 1;
    }
    assert grid[..k] == grid;
    return None, pos;
  }

  /** dir_read at position 24n: the n-th live entry and the position after it, or nothing at the end. */
  method DirRead(p: Partition, self: nat, pos: nat, ghost n: nat, ghost d: Dir) returns (r: Option<Entry>, pos': nat)
    requires DirAt(p.V(), self, d) && pos == 24 * n
    ensures n < |LiveList(d.grid)| ==> r == Some(LiveList(d.grid)[n]) && pos' == 24 * (n + 1)
    ensures n >= |LiveList(d.grid)| ==> r == None && pos' == pos
  {
    BlocksOfDir(p.V(), self, d);
    assert p.inodes[self].size == 24 * |LiveList(d.grid)|;
    hide DirAt, BlocksOf, AllBlocks;
    r, pos' := ReadBlocks(p.disk, AllBlocks(p.disk, p.inodes[self]), p.inodes[self].size, pos, n, d.grid);
  }

  /** Reading from position 0 until nothing comes lists every live entry exactly once, in order. */
  method ListDirectory(p: Partition, self: nat, ghost d: Dir) returns (entries: seq<Entry>)
    requires DirAt(p.V(), self, d)
    ensures entries == LiveList(d.grid)
  {
    BlocksOfDir(p.V(), self, d);
    var disk, all, size := p.disk, AllBlocks(p.disk, p.inodes[self]), p.inodes[self].size;
    assert size == 24 * |LiveList(d.grid)|;
    entries := ReadAll(disk, all, size, d.grid);
  }

  /** The loop of a caller of dir_read. */
  lemma NextListed(list: seq<Entry>, n: nat)
    requires n < |list|
    ensures list[..n] + [list[n]] == list[..n + 1]
  {
  }

  method ReadAll(disk: Disk, all: seq<int>, size: int, ghost grid: seq<Row>) returns (entries: seq<Entry>)
    requires BlocksOf(disk, all, grid) && size == 24 * |LiveList(grid)|
    ensures entries == LiveList(grid)
  {
    hide BlocksOf, LiveList;
    entries := [];
    var pos := 0;
    while true
      invariant |entries| <= |LiveList(grid)| && entries == LiveList(grid)[..|entries|]
      invariant pos == 24 * |entries|
      decreases |LiveList(grid)| - |entries|
    {
      var r;
      r, pos := ReadBlocks(disk, all, size, pos, |entries|, grid);
      if r.None? {
        return;
      }
      NextListed(LiveList(grid), |entries|);
      entries := entries + [r.value];
    }
  }

  /** dir_is_empty compares i_size with two entries: true exactly when only the dots are left. */
  method DirIsEmpty(p: Partition, self: nat, ghost d: Dir) returns (empty: bool)
    requires DirAt(p.V(), self, d)
    ensures empty <==> |LiveList(d.grid)| == 2
  {
    hide Clean, Located, OneEach, Used, Dots, GridIs, Lists, Backs;
    empty := p.inodes[self].size == 24 * 2;
  }

  lemma {:induction false} TwoRows(grid: seq<Row>, k: nat)
    requires 0 < k < |grid|
    ensures |LiveList(grid)| >= |LiveRow(grid[0])| + |LiveRow(grid[k])|
  {
    var n := |grid| - 1;
    if k < n {
      TwoRows(grid[..n], k);
    } else {
      RowInside(grid[..n], 0);
    }
  }

  lemma {:induction false} RowInside(grid: seq<Row>, k: nat)
    requires k < |grid|
    ensures |LiveList(grid)| >= |LiveRow(grid[k])|
  {
    var n := |grid| - 1;
    if k < n {
      RowInside(grid[..n], k);
    }
  }

  /** The assertion of dir_remove (dir.c:392-396): a directory with only the dots holds its first
      block and no other, nor an indirect table. */
  lemma EmptyDirHasOneBlock(v: View, self: nat, d: Dir)
    requires DirAt(v, self, d) && |LiveList(d.grid)| == 2
    ensures |v.inodes[self].sectors| == 13 && v.inodes[self].sectors[0] != 0
    ensures forall k :: 1 <= k < 13 ==> v.inodes[self].sectors[k] == 0
  {
    hide Clean, Located, OneEach, GridIs, Backs, TableWord;
    LiveRowUpdate(d.grid[0], 0, EMPTY);
    LiveRowUpdate(d.grid[0][0 := EMPTY], 1, EMPTY);
    forall k | 1 <= k < 12 ensures v.slots[self][k] == 0 {
      TwoRows(d.grid, k);
    }
  }

  // ---------- the finite map a directory stands for ----------

  /** What each name leads to. */
  ghost function Names(d: Dir): (m: map<Str, Entry>)
    requires Shaped(d.grid) && Located(d.grid, d.ix.at)
  {
    map n | n in d.ix.at :: d.grid[d.ix.at[n].0][d.ix.at[n].1]
  }

  /** Insertion adds one binding to the map. */
  lemma InsertNames(d: Dir, k: nat, i: nat, e: Entry)
    requires Shaped(d.grid) && Located(d.grid, d.ix.at) && OneEach(d.grid, d.ix.of) && Insertable(d.grid, d.ix, e)
    requires k < 12 && i < PER_SECTOR && !Live(d.grid[k][i])
    ensures var d' := Inserted(d, k, i, e);
      Shaped(d'.grid) && Located(d'.grid, d'.ix.at) && Names(d') == Names(d)[e.name := e]
  {
    InsertLocated(d.grid, d.ix, k, i, e);
  }

  /** Deletion removes one binding from the map. */
  lemma DeleteNames(d: Dir, k: nat, i: nat)
    requires Shaped(d.grid) && Located(d.grid, d.ix.at) && OneEach(d.grid, d.ix.of)
    requires k < 12 && i < PER_SECTOR && Live(d.grid[k][i])
    ensures var d' := Deleted(d, k, i);
            Shaped(d'.grid) && Located(d'.grid, d'.ix.at) && Names(d') == Names(d) - {d.grid[k][i].name}
  {
    DeleteLocated(d.grid, d.ix, k, i);
  }
}
