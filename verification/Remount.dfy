/** What a later mount reads: the inode table on disk holds the inodes as they are in memory. */
module Remount {
  import opened Words
  import opened Volume
  import opened Partitions
  import opened FileIo
  import opened DirData
  import opened Directories
  import opened DirTree
  import opened FsState
  import opened FileSystem
  import opened InodeRecords
  import Table = InodeTable

  /** The inode bitmap on disk is that of w, and reading the record of every number it marks gives exactly
      the inodes of w. */
  ghost predicate Remounts(w: World, table: Disk, lba: int, dibits: seq<bool>) {
    dibits == w.ibits && Found(table, lba, dibits) == w.v.inodes
  }

  /** Block addresses fit in 32 bits. */
  lemma AddressFits(v: View, i: nat, k: nat)
    requires Sound(v) && i in v.inodes && k < 13
    ensures |v.inodes[i].sectors| == 13 && IsU32(v.inodes[i].sectors[k])
  {
    InodeOf(v, i);
    SoundAccounts(v);
    hide Sound, TableWord, Backs;
    var j := if k < 12 then k else TABLE_SLOT;
    assert v.slots[i][j] == v.inodes[i].sectors[k];
    assert v.slots[i][j] != 0 ==> v.slots[i][j] in v.owner;
  }

  lemma {:induction false} LiveInRow(row: Row)
    ensures |LiveRow(row)| <= |row|
  {
    if |row| > 0 {
      LiveInRow(row[..|row| - 1]);
    }
  }

  lemma {:induction false} FewEntries(grid: seq<Row>)
    requires forall k :: 0 <= k < |grid| ==> |grid[k]| == PER_SECTOR
    ensures |LiveList(grid)| <= PER_SECTOR * |grid|
  {
    if |grid| > 0 {
      FewEntries(grid[..|grid| - 1]);
      LiveInRow(grid[|grid| - 1]);
    }
  }

  lemma DirSizeFits(v: View, i: nat, d: Dir)
    requires DirAt(v, i, d)
    ensures i in v.inodes && IsU32(v.inodes[i].size)
  {
    SizeIs(v, i, d);
    ShapedIn(v, i, d);
    FewEntries(d.grid);
    hide DirAt, LiveList;
  }

  lemma FileSizeFits(v: View, bytes: map<nat, seq<Byte>>, i: nat)
    requires Sound(v) && Files(v, bytes) && i in bytes
    ensures i in v.inodes && IsU32(v.inodes[i].size)
  {
    FileOf(v, bytes, i);
    FileSize(v, i, bytes[i]);
    MaxFile();
    hide Sound, Files, FileAt;
  }

  lemma DirOrFile(w: World, i: nat)
    requires FsOk(w) && i in w.v.inodes
    ensures i in w.tree.dirs || i in w.bytes
  {
    FsParts(w);
    hide FsOk, Sound, Files, DirsOk, RootFirst, Coupled, TreeOk;
  }

  /** So does the size of every file and directory. */
  lemma SizeFits(w: World, i: nat)
    requires FsOk(w) && i in w.v.inodes
    ensures IsU32(w.v.inodes[i].size)
  {
    hide *;
    FsParts(w);
    DirOrFile(w, i);
    if i in w.tree.dirs {
      DirIn(w, i);
      DirSizeFits(w.v, i, w.dirs[i]);
    } else {
      FileSizeFits(w.v, w.bytes, i);
    }
  }

  lemma StorableIs(i: nat, ind: Inode)
    requires i < 4096 && IsU32(ind.size) && |ind.sectors| == 13 && forall k :: 0 <= k < 13 ==> IsU32(ind.sectors[k])
    ensures Table.Storable(RecordOf(i, ind))
  {
  }

  lemma InodeStorable(w: World, i: nat)
    requires FsOk(w) && i in w.v.inodes
    ensures Table.Storable(RecordOf(i, w.v.inodes[i]))
  {
    hide *;
    FsParts(w);
    SizeFits(w, i);
    NumbersAre(w);
    AddressFits(w.v, i, 0);
    forall k | 0 <= k < 13 ensures IsU32(w.v.inodes[i].sectors[k]) {
      AddressFits(w.v, i, k);
    }
    StorableIs(i, w.v.inodes[i]);
  }

  lemma NumbersAre(w: World)
    requires FsOk(w)
    ensures |w.ibits| == 4096 && forall i: nat :: i in w.v.inodes <==> i < 4096 && w.ibits[i]
  {
    FsParts(w);
    hide FsOk, Sound, Files, DirsOk, RootFirst, Coupled, TreeOk;
  }

  lemma SyncedRemounts(w: World, table: Disk, lba: int, dibits: seq<bool>)
    requires FsOk(w) && OnDiskBut(table, lba, w.v.inodes, {}) && dibits == w.ibits
    ensures Remounts(w, table, lba, dibits)
  {
    hide *;
    NumbersAre(w);
    forall i | i in w.v.inodes ensures LoadedInode(table, lba, i) == w.v.inodes[i] {
      InodeStorable(w, i);
      ThereIn(table, lba, w.v.inodes, i);
      StoredIsLoaded(table, lba, i, w.v.inodes[i]);
    }
    RemountsIs(w, table, lba);
  }

  lemma ThereIn(table: Disk, lba: int, inodes: map<nat, Inode>, i: nat)
    requires OnDiskBut(table, lba, inodes, {}) && i in inodes
    ensures InTable(table, lba, i, inodes[i])
  {
    hide InTable;
  }

  lemma RemountsIs(w: World, table: Disk, lba: int)
    requires forall i: nat :: i in w.v.inodes <==> i < |w.ibits| && w.ibits[i]
    requires forall i :: i in w.v.inodes ==> LoadedInode(table, lba, i) == w.v.inodes[i]
    ensures Remounts(w, table, lba, w.ibits)
  {
    hide LoadedInode;
  }
}
