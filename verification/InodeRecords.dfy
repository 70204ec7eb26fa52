/** The inodes of a partition and their records in the inode table on disk. */
module InodeRecords {
  import opened Words
  import opened Volume
  import Table = InodeTable

  /** The inode as inode_sync stores it. */
  function RecordOf(i: nat, ind: Inode): (r: Table.MemInode) {
    Table.MemInode(i, ind.size, 0, false, ind.sectors)
  }

  ghost predicate InTable(disk: Disk, lba: int, i: nat, ind: Inode) {
    i < Table.MAX_INO && |ind.sectors| == 13 && Table.RecordIs(disk, lba, i, Table.Image(RecordOf(i, ind)))
  }

  /** The record of every inode but those in `dirty` is on disk. */
  ghost predicate OnDiskBut(disk: Disk, lba: int, inodes: map<nat, Inode>, dirty: set<nat>) {
    forall i :: i in inodes && i !in dirty ==> InTable(disk, lba, i, inodes[i])
  }

  /** Inodes that changed in memory are dirty. */
  lemma Dirtied(disk: Disk, lba: int, inodes: map<nat, Inode>, inodes': map<nat, Inode>, dirty: set<nat>)
    requires OnDiskBut(disk, lba, inodes, {})
    requires forall i :: i in inodes' && i !in dirty ==> i in inodes && inodes'[i] == inodes[i]
    ensures OnDiskBut(disk, lba, inodes', dirty)
  {
    hide InTable;
  }

  lemma AllDirty(disk: Disk, lba: int, inodes: map<nat, Inode>)
    ensures OnDiskBut(disk, lba, inodes, inodes.Keys)
  {
  }

  /** inode_sync: the inode's record is on disk, and no other record changed. */
  method Sync(was: Disk, lba: int, i: nat, ind: Inode, ghost inodes: map<nat, Inode>, ghost dirty: set<nat>)
      returns (disk: Disk)
    requires i < Table.MAX_INO && |ind.sectors| == 13
    ensures i in inodes && inodes[i] == ind && OnDiskBut(was, lba, inodes, dirty) ==>
      OnDiskBut(disk, lba, inodes, dirty - {i})
  {
    disk := Table.PutRecord(was, lba, i, Table.Image(RecordOf(i, ind)), lba + Table.TABLE_SECTORS);
    hide Table.Image, Table.RecordIs, Table.Overwritten;
    if i in inodes && inodes[i] == ind && OnDiskBut(was, lba, inodes, dirty) {
      forall j | j in inodes && j !in dirty - {i} ensures InTable(disk, lba, j, inodes[j]) {
        if j != i {
          assert InTable(was, lba, j, inodes[j]);
          Table.RecordsAfter(was, disk, lba, i, Table.Image(RecordOf(i, ind)), j, Table.Image(RecordOf(j, inodes[j])));
        }
      }
    }
  }

  /** inode_delete: the record becomes zeros, and no other record changes. */
  method Delete(was: Disk, lba: int, i: nat, ghost inodes: map<nat, Inode>) returns (disk: Disk)
    requires i < Table.MAX_INO
    ensures i !in inodes && OnDiskBut(was, lba, inodes, {}) ==> OnDiskBut(disk, lba, inodes, {})
    ensures BytesOf(disk, lba, i) == seq(Table.INODE_SIZE, _ => 0)
  {
    var b: seq<Byte> := seq(Table.INODE_SIZE, _ => 0);
    disk := Table.PutRecord(was, lba, i, b, lba + Table.TABLE_SECTORS);
    BytesAre(disk, lba, i, b);
    hide BytesOf, Table.Image, Table.RecordIs, Table.Overwritten;
    if i !in inodes && OnDiskBut(was, lba, inodes, {}) {
      forall j | j in inodes ensures InTable(disk, lba, j, inodes[j]) {
        assert InTable(was, lba, j, inodes[j]);
        Table.RecordsAfter(was, disk, lba, i, b, j, Table.Image(RecordOf(j, inodes[j])));
      }
    }
  }

  // ---------- reading the table back ----------

  /** The 76 bytes of record no, wherever the sectors part them. */
  ghost function BytesOf(disk: Disk, lba: int, no: nat): (b: seq<Byte>)
    ensures |b| == Table.INODE_SIZE
  {
    seq(Table.INODE_SIZE, j requires 0 <= j < Table.INODE_SIZE =>
      var a := Table.INODE_SIZE * no + j; Sec(disk, lba + a / 512)[a % 512])
  }

  /** The inode that a reader of the record finds. */
  ghost function LoadedInode(disk: Disk, lba: int, no: nat): (ind: Inode) {
    var m := Table.FromBytes(BytesOf(disk, lba, no));
    Inode(m.size, m.sectors)
  }

  lemma BytesAre(disk: Disk, lba: int, no: nat, x: seq<Byte>)
    requires Table.RecordIs(disk, lba, no, x) && no < Table.MAX_INO
    ensures BytesOf(disk, lba, no) == x
  {
    forall j | 0 <= j < Table.INODE_SIZE ensures BytesOf(disk, lba, no)[j] == x[j] {
      var a := Table.INODE_SIZE * no + j;
      assert a == 512 * (a / 512) + a % 512;
      assert Table.ByteAt(disk, lba, a / 512, a % 512) == x[j];
    }
  }

  /** A stored inode is read back as it was. */
  lemma StoredIsLoaded(disk: Disk, lba: int, i: nat, ind: Inode)
    requires InTable(disk, lba, i, ind) && Table.Storable(RecordOf(i, ind))
    ensures LoadedInode(disk, lba, i) == ind
  {
    var r := RecordOf(i, ind);
    BytesAre(disk, lba, i, Table.Image(r));
    Table.ImageRoundTrip(r);
    hide Table.Image, Table.FromBytes, Table.RecordIs;
  }

  /** The inodes a mount finds: those marked in the inode bitmap, each read from its record. */
  ghost function Found(disk: Disk, lba: int, ibits: seq<bool>): (inodes: map<nat, Inode>) {
    map i: nat | i < |ibits| && ibits[i] :: LoadedInode(disk, lba, i)
  }
}
