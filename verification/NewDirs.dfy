/** What sys_mkdir and partition_format write for a new directory: a sector with "." and "..". */
module NewDirs {
  import opened Words
  import opened Volume
  import opened Partitions
  import opened DirData
  import opened Directories

  function DotEntry(self: nat): (e: Entry) {
    Entry(DOT, self, FT_DIRECTORY)
  }

  function DotDotEntry(parent: nat): (e: Entry) {
    Entry(DOTDOT, parent, FT_DIRECTORY)
  }

  /** The sector io_buf holds when it is written (fs.c:588-602). */
  function DotsSector(self: nat, parent: nat): (s: Sector) {
    PutEntry(PutEntry(ZeroSector(), 0, DotEntry(self)), 1, DotDotEntry(parent))
  }

  function EmptyGrid(): (g: seq<Row>)
    ensures |g| == 12 && forall k :: 0 <= k < 12 ==> g[k] == EmptyRow()
  {
    seq(12, _ => EmptyRow())
  }

  function DotsGrid(self: nat, parent: nat): (g: seq<Row>) {
    Put(Put(EmptyGrid(), 0, 0, DotEntry(self)), 0, 1, DotDotEntry(parent))
  }

  function NewDir(self: nat, parent: nat): (d: Dir) {
    Dir(DotsGrid(self, parent), Index(map[DOT := (0, 0), DOTDOT := (0, 1)], map[]))
  }

  lemma DotNames()
    ensures |DOT| <= 15 && |DOTDOT| <= 15 && NoZero(DOT) && NoZero(DOTDOT) && GoodName(DOT) && GoodName(DOTDOT)
      && DOT != DOTDOT
  {
  }

  lemma {:induction false} NothingListed(grid: seq<Row>)
    requires forall k :: 0 <= k < |grid| ==> grid[k] == EmptyRow()
    ensures LiveList(grid) == []
  {
    if |grid| > 0 {
      NothingListed(grid[..|grid| - 1]);
      DeadRow(grid[|grid| - 1]);
    }
  }

  lemma DotsCount(self: nat, parent: nat)
    ensures |LiveList(DotsGrid(self, parent))| == 2
  {
    NothingListed(EmptyGrid());
    PutCount(EmptyGrid(), 0, 0, DotEntry(self));
    PutCount(Put(EmptyGrid(), 0, 0, DotEntry(self)), 0, 1, DotDotEntry(parent));
  }

  lemma DotsThere(self: nat, parent: nat)
    requires self < 4096 && parent < 4096
    ensures RowIs(DotsSector(self, parent), DotsGrid(self, parent)[0])
  {
    DotNames();
    EmptyRowIs();
    RowPut(ZeroSector(), EmptyRow(), 0, DotEntry(self));
    RowPut(PutEntry(ZeroSector(), 0, DotEntry(self)), EmptyRow()[0 := DotEntry(self)], 1, DotDotEntry(parent));
  }

  lemma DotsCells(self: nat, parent: nat, k: int, i: int)
    requires 0 <= k < 12 && 0 <= i < PER_SECTOR
    ensures Shaped(DotsGrid(self, parent))
    ensures DotsGrid(self, parent)[k][i] ==
      if k == 0 && i == 0 then DotEntry(self) else if k == 0 && i == 1 then DotDotEntry(parent) else EMPTY
  {
  }

  /** Nothing but the dots: a directory in good order. */
  lemma NewDirOk(self: nat, parent: nat, slots: seq<int>)
    requires self < 4096 && parent < 4096 && |slots| == SLOTS && slots[0] != 0
      && forall k :: 1 <= k < SLOTS ==> slots[k] == 0
    ensures DirOk(self, slots, 48, NewDir(self, parent).grid, NewDir(self, parent).ix)
  {
    var g := DotsGrid(self, parent);
    DotNames();
    DotsCount(self, parent);
    forall k: int, i: int | 0 <= k < 12 && 0 <= i < PER_SECTOR
      ensures Shaped(g)
      ensures g[k][i] == if k == 0 && i == 0 then DotEntry(self)
          else if k == 0 && i == 1 then DotDotEntry(parent) else EMPTY
    {
      DotsCells(self, parent, k, i);
    }
    DotsCells(self, parent, 0, 0);
    assert forall k :: 1 <= k < 12 ==> g[k] == EmptyRow();
    hide DotsGrid, Put, LiveList, NoZero, GoodName;
    assert Clean(g);
  }

  /** sys_mkdir's new directory is there, once its block is claimed and written. */
  lemma NewDirAt(v: View, self: nat, parent: nat, b: int)
    requires Sound(v) && self in v.inodes && self in v.slots && self in v.data
    requires self < 4096 && parent < 4096 && b != 0
    requires v.slots[self] == Zeros(SLOTS)[0 := b] && v.inodes[self].size == 48
    requires |v.data[self]| == 140 && v.data[self][0] == DotsSector(self, parent)
    requires forall k :: 1 <= k < 140 ==> v.data[self][k] == ZeroSector()
    ensures DirAt(v, self, NewDir(self, parent))
  {
    hide Sound, RowIs, DotsSector, DirOk, DotsGrid, EmptyRow, Zeros;
    NewDirOk(self, parent, v.slots[self]);
    NewGrid(self, parent, v.data[self]);
    DirAgain(v, self, NewDir(self, parent));
  }

  lemma NewGrid(self: nat, parent: nat, data: seq<Sector>)
    requires self < 4096 && parent < 4096 && |data| == 140 && data[0] == DotsSector(self, parent)
    requires forall k :: 1 <= k < 140 ==> data[k] == ZeroSector()
    ensures GridIs(data, NewDir(self, parent).grid)
  {
    DotsThere(self, parent);
    EmptyRowIs();
    DotsCells(self, parent, 0, 0);
    hide RowIs, DotsSector;
    forall k | 0 <= k < 12 ensures RowIs(data[k], DotsGrid(self, parent)[k]) {
      assert k > 0 ==> DotsGrid(self, parent)[k] == EmptyRow();
    }
  }
}
