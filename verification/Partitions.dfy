/** struct partition: one mounted partition with its disk sectors, bitmaps and inodes. */
module Partitions {
  import opened Words
  import opened Bitmaps
  import opened Volume
  import BitmapSync

  /** Free blocks. */
  function Free(bits: seq<bool>): (n: nat) {
    |bits| - Count(bits)
  }

  /** A partition's state as a value: first data sector, disk, block bitmap, inodes, the block
      list of every inode, the owner of every block in use, and the data behind every inode. */
  datatype View = View(start: nat, disk: Disk, bits: seq<bool>, inodes: map<nat, Inode>,
                       slots: SlotMap, owner: Owners, data: map<nat, seq<Sector>>)

  ghost predicate Accounts(v: View) {
    Accounted(v.bits, v.start, v.slots, v.owner)
  }

  ghost predicate SameKeys(v: View) {
    v.slots.Keys == v.inodes.Keys == v.data.Keys
  }

  /** Bookkeeping agrees: every block list is what inode and indirect table say, the data is what
      lies behind it, and the block bitmap marks exactly the blocks held. */
  ghost predicate Sound(v: View) {
    && Accounts(v) && SameKeys(v)
    && (forall i :: i in v.inodes ==> Lists(v.disk, v.inodes[i], v.slots[i]))
    && (forall i :: i in v.inodes ==> Backs(v.disk, v.slots[i], v.data[i]))
  }

  /** From v to v' only inode i may have changed: its record, its block list, its data. */
  ghost predicate OnlyChanged(v: View, v': View, i: nat) {
    && v'.start == v.start && |v'.bits| == |v.bits|
    && i in v'.inodes && v'.inodes == v.inodes[i := v'.inodes[i]]
    && i in v'.slots && v'.slots == v.slots[i := v'.slots[i]]
    && i in v'.data && v'.data == v.data[i := v'.data[i]]
  }

  /** What one inode of a sound state looks like. */
  lemma InodeOf(v: View, i: nat)
    requires Sound(v) && i in v.inodes
    ensures i in v.slots && i in v.data && Lists(v.disk, v.inodes[i], v.slots[i])
      && Backs(v.disk, v.slots[i], v.data[i])
  {
  }

  lemma SoundAccounts(v: View)
    requires Sound(v)
    ensures Accounts(v)
  {
  }

  function ZeroData(): (d: seq<Sector>)
    ensures |d| == 140 && forall k :: 0 <= k < 140 ==> d[k] == ZeroSector()
  {
    seq(140, _ => ZeroSector())
  }

  /** inode_init: size zero and no blocks. */
  function NewInode(): (ind: Inode) {
    Inode(0, Zeros(13))
  }

  ghost function Entered(v: View, i: nat): (v': View) {
    v.(inodes := v.inodes[i := NewInode()], slots := v.slots[i := Zeros(SLOTS)], data := v.data[i := ZeroData()])
  }

  // ---------- the elementary changes of a sound state ----------

  /** A data sector of inode i is written and its size set. */
  ghost function Rewritten(v: View, i: nat, k: nat, sec: Sector, size: int): (v': View)
    requires i in v.inodes && i in v.slots && i in v.data && k < |v.slots[i]| && k < |v.data[i]|
  {
    var d: seq<Sector> := v.data[i][k := sec];
    v.(disk := v.disk[v.slots[i][k] := sec], inodes := v.inodes[i := v.inodes[i].(size := size)],
      data := v.data[i := d])
  }

  lemma RewrittenSound(v: View, i: nat, k: nat, sec: Sector, size: int)
    requires Sound(v) && i in v.inodes && i in v.slots && i in v.data
    requires k < 140 && |v.slots[i]| == SLOTS && |v.data[i]| == 140 && v.slots[i][k] != 0
    ensures Sound(Rewritten(v, i, k, sec, size)) && OnlyChanged(v, Rewritten(v, i, k, sec, size), i)
  {
    var w := Rewritten(v, i, k, sec, size);
    hide Accounted, Backs, TableWord;
    forall j | j in w.inodes ensures Lists(w.disk, w.inodes[j], w.slots[j]) {
      WriteKeepsList(v.bits, v.start, v.slots, v.owner, v.disk, i, k, sec, j, v.inodes[j]);
    }
    hide Lists;
    forall j | j in w.inodes ensures Backs(w.disk, w.slots[j], w.data[j]) {
      WriteKeepsData(v.bits, v.start, v.slots, v.owner, v.disk, i, k, sec, j, v.data[j]);
    }
  }

  /** A free block b becomes direct block k of inode i and is written. */
  ghost function Claimed(v: View, i: nat, k: nat, b: int, sec: Sector, size: int): (v': View)
    requires i in v.inodes && i in v.slots && i in v.data && k < |v.slots[i]| && k < |v.data[i]|
    requires k < |v.inodes[i].sectors| && 0 <= b - v.start < |v.bits|
  {
    var d: seq<Sector> := v.data[i][k := sec];
    View(v.start, v.disk[b := sec], v.bits[b - v.start := true],
         v.inodes[i := Inode(size, v.inodes[i].sectors[k := b])],
         v.slots[i := v.slots[i][k := b]], v.owner[b := (i, k)], v.data[i := d])
  }

  lemma ClaimedSound(v: View, i: nat, k: nat, b: int, sec: Sector, size: int)
    requires Sound(v) && i in v.inodes && i in v.slots && i in v.data && |v.inodes[i].sectors| == 13
    requires k < 12 && |v.slots[i]| == SLOTS && |v.data[i]| == 140 && v.slots[i][k] == 0
    requires 0 <= b - v.start < |v.bits| && !v.bits[b - v.start]
    ensures Sound(Claimed(v, i, k, b, sec, size)) && OnlyChanged(v, Claimed(v, i, k, b, sec, size), i)
  {
    var w := Claimed(v, i, k, b, sec, size);
    hide Accounted, Lists, Backs;
    Claim(v.bits, v.start, v.slots, v.owner, i, k, b);
    forall j | j in w.inodes
      ensures Lists(w.disk, w.inodes[j], w.slots[j]) && Backs(w.disk, w.slots[j], w.data[j])
    {
      ClaimedLists(v, w, i, k, b, sec, size, j);
      ClaimedBacks(v, w, i, k, b, sec, size, j);
    }
  }

  lemma ClaimedLists(v: View, w: View, i: nat, k: nat, b: int, sec: Sector, size: int, j: nat)
    requires Sound(v) && i in v.inodes && i in v.slots && i in v.data && |v.inodes[i].sectors| == 13
    requires k < 12 && |v.slots[i]| == SLOTS && |v.data[i]| == 140 && v.slots[i][k] == 0
    requires 0 <= b - v.start < |v.bits| && !v.bits[b - v.start]
    requires w == Claimed(v, i, k, b, sec, size) && j in w.inodes && Accounts(w)
    ensures Lists(w.disk, w.inodes[j], w.slots[j])
  {
    hide Accounted, Backs, TableWord;
    InodeOf(v, j);
    hide Sound;
    assert Lists(v.disk, w.inodes[j], w.slots[j]);
    hide Lists;
    StartPositive(w);
    WriteKeepsList(w.bits, w.start, w.slots, w.owner, v.disk, i, k, sec, j, w.inodes[j]);
  }

  lemma StartPositive(w: View)
    requires Accounts(w)
    ensures w.start > 0
  {
  }

  lemma ClaimedBacks(v: View, w: View, i: nat, k: nat, b: int, sec: Sector, size: int, j: nat)
    requires Sound(v) && i in v.inodes && i in v.slots && i in v.data && |v.inodes[i].sectors| == 13
    requires k < 12 && |v.slots[i]| == SLOTS && |v.data[i]| == 140 && v.slots[i][k] == 0
    requires 0 <= b - v.start < |v.bits| && !v.bits[b - v.start]
    requires w == Claimed(v, i, k, b, sec, size) && j in w.inodes
    ensures Backs(w.disk, w.slots[j], w.data[j])
  {
    hide Lists;
    assert Backs(v.disk, v.slots[j], v.data[j]);
    assert b !in v.owner;
    assert forall q :: 0 <= q < 140 && v.slots[j][q] != 0 ==> v.slots[j][q] in v.owner;
    assert b != 0;
  }

  /** Direct block k of inode i is given back. */
  ghost function Released(v: View, i: nat, k: nat, size: int): (v': View)
    requires i in v.inodes && i in v.slots && i in v.data && k < |v.slots[i]| && k < |v.data[i]|
    requires k < |v.inodes[i].sectors| && 0 <= v.slots[i][k] - v.start < |v.bits|
  {
    var d: seq<Sector> := v.data[i][k := ZeroSector()];
    View(v.start, v.disk, v.bits[v.slots[i][k] - v.start := false],
         v.inodes[i := Inode(size, v.inodes[i].sectors[k := 0])],
         v.slots[i := v.slots[i][k := 0]], v.owner - {v.slots[i][k]}, v.data[i := d])
  }

  lemma ReleasedSound(v: View, i: nat, k: nat, size: int)
    requires Sound(v) && i in v.inodes && i in v.slots && i in v.data && |v.inodes[i].sectors| == 13
    requires k < 12 && |v.slots[i]| == SLOTS && |v.data[i]| == 140 && v.slots[i][k] != 0
    ensures 0 <= v.slots[i][k] - v.start < |v.bits|
    ensures Sound(Released(v, i, k, size)) && OnlyChanged(v, Released(v, i, k, size), i)
  {
    hide Accounted, Lists, Backs;
    Release(v.bits, v.start, v.slots, v.owner, i, k);
    ReleasedLists(v, i, k, size);
    ReleasedBacks(v, i, k, size);
  }

  lemma ReleasedLists(v: View, i: nat, k: nat, size: int)
    requires Sound(v) && i in v.inodes && i in v.slots && i in v.data && |v.inodes[i].sectors| == 13
    requires k < 12 && |v.slots[i]| == SLOTS && |v.data[i]| == 140 && 0 <= v.slots[i][k] - v.start < |v.bits|
    ensures var w := Released(v, i, k, size); Lists(w.disk, w.inodes[i], w.slots[i])
  {
    hide Accounted, Backs, TableWord;
    InodeOf(v, i);
    hide Sound;
  }

  lemma ReleasedBacks(v: View, i: nat, k: nat, size: int)
    requires Sound(v) && i in v.inodes && i in v.slots && i in v.data && |v.inodes[i].sectors| == 13
    requires k < 12 && |v.slots[i]| == SLOTS && |v.data[i]| == 140 && 0 <= v.slots[i][k] - v.start < |v.bits|
    ensures var w := Released(v, i, k, size); Backs(w.disk, w.slots[i], w.data[i])
  {
    hide Accounted, Lists;
    InodeOf(v, i);
    hide Sound;
  }

  /** A freshly formatted partition. */
  ghost function Formatted(start: nat, blocks: nat, root: Sector): (v: View) {
    View(start, map[start := root], seq(blocks, k => k == 0), map[0 := Inode(48, Zeros(13)[0 := start])],
         map[0 := Zeros(SLOTS)[0 := start]], map[start := (0, 0)], map[0 := ZeroData()[0 := root]])
  }

  lemma FormattedSound(start: nat, blocks: nat, root: Sector)
    requires 0 < start && 0 < blocks && start + blocks <= U32_LIMIT
    ensures Sound(Formatted(start, blocks, root))
  {
    var v := Formatted(start, blocks, root);
    assert Accounts(v);
    hide Accounted;
    assert Backs(v.disk, v.slots[0], v.data[0]);
    assert Lists(v.disk, v.inodes[0], v.slots[0]);
  }

  /** A bit changed and synced leaves nothing stale. */
  lemma ExactAfter(was: BitmapSync.Maps, j: int, v: bool)
    requires 0 <= j < |was.bits|
    ensures was.disk == was.bits ==>
      BitmapSync.Synced(BitmapSync.Maps(was.bits[j := v], was.disk), j) ==
      BitmapSync.Maps(was.bits[j := v], was.bits[j := v])
  {
    if was.disk == was.bits {
      BitmapSync.StoredExact(was, j, v);
    }
    hide BitmapSync.Synced;
  }

  class Partition {
    const start: nat                  // data_start_lba
    var disk: Disk
    var bits: seq<bool>               // block_bitmap
    var dbits: seq<bool>              // its sectors on disk
    var ibits: seq<bool>              // inode_bitmap
    var inodes: map<nat, Inode>
    ghost var slots: SlotMap
    ghost var owner: Owners
    ghost var data: map<nat, seq<Sector>>
    ghost var bytes: map<nat, seq<Byte>>    // what every regular file holds

    /** partition_format and mount_partition: block 0 and inode 0 belong to the root directory,
        whose first sector is given; every other block and inode is free. */
    constructor (start: nat, blocks: nat, inodeCount: nat, root: Sector)
      requires blocks > 0 && inodeCount > 0
      ensures V() == Formatted(start, blocks, root) && bytes == map[] && dbits == bits
      ensures ibits == seq(inodeCount, k => k == 0)
    {
      this.start := start;
      disk := map[start := root];
      bits := seq(blocks, k => k == 0);
      dbits := seq(blocks, k => k == 0);
      ibits := seq(inodeCount, k => k == 0);
      inodes := map[0 := Inode(48, Zeros(13)[0 := start])];
      slots := map[0 := Zeros(SLOTS)[0 := start]];
      owner := map[start := (0, 0)];
      data := map[0 := ZeroData()[0 := root]];
      bytes := map[];
    }

    ghost function V(): View
      reads this
    {
      View(start, disk, bits, inodes, slots, owner, data)
    }

    /** The block bitmap in memory and on disk. */
    ghost function M(): BitmapSync.Maps
      reads `bits, `dbits
    {
      BitmapSync.Maps(bits, dbits)
    }

    lemma MapsAre()
      ensures M() == BitmapSync.Maps(bits, dbits)
    {
    }

    lemma Fields()
      ensures V() == View(start, disk, bits, inodes, slots, owner, data)
    {
    }

    /** block_bitmap_alloc, with the slot the caller is about to fill.  A full bitmap stops the
        kernel (ok is false). */
    method BlockAlloc(ghost i: nat, ghost k: nat) returns (ok: bool, lba: int)
      requires Accounts(V())
      requires i in slots && k < SLOTS && slots[i][k] == 0
      modifies `bits, `slots, `owner
      ensures ok <==> Free(old(bits)) > 0
      ensures ok ==>
        && Accounts(V()) && Free(bits) == Free(old(bits)) - 1
        && LeastRun(old(bits), lba - start, 1) && bits == old(bits)[lba - start := true]
        && slots == old(slots)[i := old(slots)[i][k := lba]] && 0 < lba < U32_LIMIT
        && owner == old(owner)[lba := (i, k)]
    {
      assert WellSized(slots);
      hide Accounted, WellSized;
      var r := ScanBits(bits, 1);
      CountFull(bits);
      if r.Panic? {
        return false, 0;
      }
      assert RunAt(bits, r.index, 1) && !bits[r.index];
      ok, lba := true, start + r.index;
      Claim(bits, start, slots, owner, i, k, lba);
      CountUpdate(bits, r.index, true);
      bits := bits[r.index := true];
      slots := slots[i := slots[i][k := lba]];
      owner := owner[lba := (i, k)];
    }

    /** bitmap_sync for the bit of a block. */
    method SyncBlock(lba: int)
      modifies `dbits
      ensures BitmapSync.Maps(bits, dbits) == BitmapSync.Synced(BitmapSync.Maps(bits, old(dbits)), lba - start)
    {
      dbits := BitmapSync.Synced(BitmapSync.Maps(bits, dbits), lba - start).disk;
    }

    /** ide_write of data sector k of inode i, and its new size. */
    method Rewrite(i: nat, ghost k: nat, lba: int, sec: Sector, size: int)
      requires i in inodes && i in slots && i in data && k < |slots[i]| && k < |data[i]| && lba == slots[i][k]
      modifies `disk, `inodes, `data
      ensures V() == Rewritten(old(V()), i, k, sec, size)
    {
      disk := disk[lba := sec];
      inodes := inodes[i := inodes[i].(size := size)];
      ghost var d: seq<Sector> := data[i][k := sec];
      data := data[i := d];
    }

    /** A new direct block for inode i, written at once. */
    method ClaimAndWrite(i: nat, k: nat, sec: Sector, size: int) returns (ok: bool, lba: int)
      requires Accounts(V()) && i in inodes && |inodes[i].sectors| == 13 && i in data && |data[i]| == 140
      requires i in slots && |slots[i]| == SLOTS && k < 12 && slots[i][k] == 0
      modifies `disk, `inodes, `data, `bits, `dbits, `slots, `owner
      ensures ok <==> Free(old(V()).bits) > 0
      ensures ok ==> LeastRun(old(V()).bits, lba - start, 1) && V() == Claimed(old(V()), i, k, lba, sec, size)
      ensures ok && old(dbits) == old(bits) ==> dbits == bits
    {
      hide Accounts, BitmapSync.Synced;
      ghost var was := BitmapSync.Maps(bits, dbits);
      ok, lba := BlockAlloc(i, k);
      if ok {
        BitmapSync.FirstIs(was.bits, lba - start);
        SyncBlock(lba);
        ExactAfter(was, lba - start, true);
        inodes := inodes[i := Inode(size, inodes[i].sectors[k := lba])];
        disk := disk[lba := sec];
        ghost var d: seq<Sector> := data[i][k := sec];
        data := data[i := d];
      }
    }

    /** bitmap_set(.., 0) for direct block k of inode i, whose address is cleared. */
    method GiveBack(i: nat, k: nat, size: int)
      requires i in inodes && |inodes[i].sectors| == 13 && i in data && |data[i]| == 140
      requires i in slots && |slots[i]| == SLOTS && k < 12 && slots[i][k] == inodes[i].sectors[k]
      requires 0 <= slots[i][k] - start < |bits|
      modifies `inodes, `data, `bits, `dbits, `slots, `owner
      ensures V() == Released(old(V()), i, k, size)
      ensures old(dbits) == old(bits) ==> dbits == bits
    {
      hide BitmapSync.Synced;
      var lba := inodes[i].sectors[k];
      ghost var was := BitmapSync.Maps(bits, dbits);
      bits := bits[lba - start := false];
      SyncBlock(lba);
      ExactAfter(was, lba - start, false);
      inodes := inodes[i := Inode(size, inodes[i].sectors[k := 0])];
      slots := slots[i := slots[i][k := 0]];
      owner := owner - {lba};
      ghost var d: seq<Sector> := data[i][k := ZeroSector()];
      data := data[i := d];
    }

    /** The last lines of inode_release: the bitmaps as computed, the inode number free again. */
    method Drop(i: nat, newBits: seq<bool>, newDisk: seq<bool>, ghost newOwner: Owners)
      requires i < |ibits|
      modifies `bits, `dbits, `slots, `owner, `inodes, `data, `ibits
      ensures V() == View(start, old(V()).disk, newBits, old(V()).inodes - {i}, old(V()).slots - {i}, newOwner,
          old(V()).data - {i})
      ensures ibits == old(ibits)[i := false] && bits == newBits && dbits == newDisk
    {
      bits, dbits := newBits, newDisk;
      owner := newOwner;
      inodes := inodes - {i};
      slots := slots - {i};
      data := data - {i};
      ibits := ibits[i := false];
    }

    /** inode_bitmap_alloc and inode_init: the least free number gets an empty inode. */
    method InodeAlloc() returns (r: ScanResult)
      modifies `inodes, `slots, `data, `ibits
      ensures ScanSpec(old(ibits), true, 1, r) && !r.NotFound?
      ensures r.Panic? ==> V() == old(V()) && ibits == old(ibits)
      ensures r.At? ==>
        r.index < |old(ibits)| && ibits == old(ibits)[r.index := true] && V() == Entered(old(V()), r.index)
    {
      r := ScanBits(ibits, 1);
      if r.At? {
        assert RunAt(ibits, r.index, 1);
        ibits := ibits[r.index := true];
        inodes := inodes[r.index := NewInode()];
        slots := slots[r.index := Zeros(SLOTS)];
        data := data[r.index := ZeroData()];
      }
    }
  }
}
