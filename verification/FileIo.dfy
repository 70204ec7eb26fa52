/** fs/file.c: file_write and file_read. */
module FileIo {
  import opened Words
  import opened Bitmaps
  import opened Volume
  import opened FileData
  import opened Partitions
  import BitmapSync

  // ---------- collecting blocks for a write ----------

  /** Slots has..will of s' are newly filled, the others are those of s. */
  ghost predicate Filled(s: seq<int>, s': seq<int>, has: nat, will: nat) {
    && |s| == |s'| == SLOTS && has <= will <= 140
    && (forall k :: 0 <= k < SLOTS && !(has <= k < will) ==> s'[k] == s[k])
    && (forall k :: has <= k < will ==> s'[k] != 0)
  }

  /** The inode record after its block list became s: same size and table, direct blocks of s. */
  ghost predicate Follows(ind: Inode, ind0: Inode, s: seq<int>) {
    && |ind.sectors| == |ind0.sectors| == 13 && |s| == SLOTS
    && ind.size == ind0.size && ind.sectors[12] == ind0.sectors[12]
    && forall k :: 0 <= k < 12 ==> ind.sectors[k] == s[k]
  }

  /** all_blocks holds s's addresses between from and to, and is all0 elsewhere. */
  ghost predicate Collected(all0: seq<int>, all: seq<int>, s: seq<int>, from: nat, to: nat) {
    && |all| == |all0| == 140 && |s| == SLOTS
    && forall k :: 0 <= k < 140 ==> all[k] == if from <= k < to then s[k] else all0[k]
  }

  /** Only block list, direct blocks and bitmap moved, and only inode ino's. */
  ghost predicate Extended(v: View, v': View, ino: nat) {
    && v'.start == v.start && |v'.bits| == |v.bits| && v'.disk == v.disk && v'.data == v.data
    && ino in v'.slots && v'.slots == v.slots[ino := v'.slots[ino]]
    && ino in v'.inodes && v'.inodes == v.inodes[ino := v'.inodes[ino]]
  }

  /** One block more: what a pass of the block loops does to block list, all_blocks and inode. */
  lemma BlockStep(s0: seq<int>, s: seq<int>, all0: seq<int>, all: seq<int>, ind: Inode, ind0: Inode,
                  has: nat, k: nat, b: int)
    requires Filled(s0, s, has, k) && Collected(all0, all, s, has, k) && Follows(ind, ind0, s)
    requires k < 140 && b != 0
    ensures Filled(s0, s[k := b], has, k + 1) && Collected(all0, all[k := b], s[k := b], has, k + 1)
    ensures k < 12 ==> Follows(ind.(sectors := ind.sectors[k := b]), ind0, s[k := b])
    ensures k >= 12 ==> Follows(ind, ind0, s[k := b])
  {
  }

  /** From v to v1 the data slots has..will of inode ino got blocks: in the block list, in the
      inode's direct blocks and in all_blocks; the disk is untouched. */
  ghost predicate Allocated(v: View, v1: View, ino: nat, has: nat, will: nat, all0: seq<int>, all: seq<int>) {
    && Accounts(v1) && Extended(v, v1, ino) && ino in v.slots && ino in v.inodes
    && Filled(v.slots[ino], v1.slots[ino], has, will)
    && Collected(all0, all, v1.slots[ino], has, will)
    && Follows(v1.inodes[ino], v.inodes[ino], v1.slots[ino])
  }

  /** A block list that can be extended from has on. */
  ghost predicate Extensible(v: View, ino: nat, has: nat) {
    && Accounts(v) && ino in v.slots && ino in v.inodes && |v.slots[ino]| == SLOTS && has <= 140
    && (forall k :: has <= k < 140 ==> v.slots[ino][k] == 0)
    && Follows(v.inodes[ino], v.inodes[ino], v.slots[ino])
  }

  /** The block loops after index k - 1. */
  ghost predicate Growing(v: View, v1: View, ino: nat, has: nat, k: nat, all0: seq<int>, all: seq<int>) {
    && k <= 140 && Allocated(v, v1, ino, has, k, all0, all) && |v1.slots[ino]| == SLOTS
    && forall q :: k <= q < 140 ==> v1.slots[ino][q] == 0
  }

  lemma GrowingStart(v: View, ino: nat, has: nat, all0: seq<int>)
    requires Extensible(v, ino, has) && |all0| == 140
    ensures Growing(v, v, ino, has, has, all0, all0)
  {
    hide Accounts;
    assert v.slots == v.slots[ino := v.slots[ino]] && v.inodes == v.inodes[ino := v.inodes[ino]];
  }

  lemma GrowingReady(v: View, v1: View, ino: nat, has: nat, k: nat, all0: seq<int>, all: seq<int>)
    requires Growing(v, v1, ino, has, k, all0, all)
    ensures Accounts(v1) && ino in v1.slots && |v1.slots[ino]| == SLOTS == 141 && ino in v1.inodes && |all| == 140
    ensures |v1.inodes[ino].sectors| == 13 && (k < 140 ==> v1.slots[ino][k] == 0)
    ensures Allocated(v, v1, ino, has, k, all0, all)
  {
    hide Accounts;
  }

  /** Block lba became block k of the inode. */
  lemma GrowingStep(v: View, v1: View, v2: View, ino: nat, has: nat, k: nat, all0: seq<int>, all: seq<int>, lba: int)
    requires Growing(v, v1, ino, has, k, all0, all) && k < 140 && lba != 0 && Accounts(v2)
    requires ino in v1.slots && |v1.slots[ino]| == SLOTS && ino in v1.inodes && |v1.inodes[ino].sectors| == 13
    requires |all| == 140 && |v2.bits| == |v1.bits|
    requires v2 == v1.(bits := v2.bits, owner := v2.owner, slots := v1.slots[ino := v1.slots[ino][k := lba]],
                       inodes := v2.inodes)
    requires v2.inodes ==
      if k < 12 then v1.inodes[ino := v1.inodes[ino].(sectors := v1.inodes[ino].sectors[k := lba])] else v1.inodes
    ensures Growing(v, v2, ino, has, k + 1, all0, all[k := lba])
  {
    hide Accounts;
    BlockStep(v.slots[ino], v1.slots[ino], all0, all, v1.inodes[ino], v.inodes[ino], has, k, lba);
    hide Filled, Collected, Follows;
  }

  /** The block loops of file_write (situations 1, 2 and 3): one new block for every index from
      has up to will, its bit synced.  Direct blocks go into the inode, all of them into all_blocks. */
  method AllocBlocks(p: Partition, ino: nat, has: nat, will: nat, all0: seq<int>)
    returns (ok: bool, all: seq<int>)
    requires Extensible(p.V(), ino, has) && has <= will <= 140 && |all0| == 140
    modifies p`bits, p`dbits, p`slots, p`owner, p`inodes
    ensures ok <==> Free(old(p.bits)) >= will - has
    ensures ok ==> Free(p.bits) == Free(old(p.bits)) - (will - has)
    ensures ok ==> Allocated(old(p.V()), p.V(), ino, has, will, all0, all)
    ensures ok ==> p.M() == BitmapSync.TakenAll(old(p.M()), will - has)
  {
    hide *;
    ghost var v, maps := p.V(), p.M();
    p.Fields();
    BitmapSync.TakenNone(maps);
    GrowingStart(v, ino, has, all0);
    all := all0;
    var k := has;
    while k < will
      invariant has <= k <= will && Growing(v, p.V(), ino, has, k, all0, all)
      invariant Free(p.bits) == Free(v.bits) - (k - has) && v.bits == old(p.bits)
      invariant p.M() == BitmapSync.TakenAll(maps, k - has)
    {
      ghost var v1, m1 := p.V(), p.M();
      p.Fields();
      p.MapsAre();
      GrowingReady(v, v1, ino, has, k, all0, all);
      var lba;
      ok, lba := p.BlockAlloc(ino, k);
      if !ok {
        return;
      }
      ghost var vb := p.V();
      p.Fields();
      BitInside(v1.bits, lba - p.start);
      p.SyncBlock(lba);
      p.MapsAre();
      BitmapSync.OneMoreTaken(maps, k - has, m1, lba - p.start, p.M());
      if k < 12 {
        p.inodes := p.inodes[ino := p.inodes[ino].(sectors := p.inodes[ino].sectors[k := lba])];
      }
      p.Fields();
      SameBooks(vb, p.V());
      GrowingStep(v, v1, p.V(), ino, has, k, all0, all, lba);
      all := all[k := lba];
      k := k + 1;
    }
    GrowingReady(v, p.V(), ino, has, k, all0, all);
    ok := true;
  }

  // ---------- the three situations of file_write ----------

  /** What collecting the blocks for a write achieves: the books are right, only inode ino
      changed, its size and its data below has are the old ones, it holds will blocks, and
      all_blocks lists every block the write will touch. */
  ghost predicate Ready(v: View, v': View, ino: nat, has: nat, will: nat, all: seq<int>) {
    && Sound(v') && OnlyChanged(v, v', ino) && ino in v.inodes && ino in v.data
    && v'.inodes[ino].size == v.inodes[ino].size
    && |v'.slots[ino]| == SLOTS && Holds(v'.slots[ino], will)
    && |v.data[ino]| == |v'.data[ino]| == 140
    && (forall k :: 0 <= k < has && k < 140 ==> v'.data[ino][k] == v.data[ino][k])
    && |all| == 140 && (forall k :: has - 1 <= k < will && 0 <= k < 140 ==> all[k] == v'.slots[ino][k])
  }

  lemma BackingOf(disk: Disk, s: seq<int>) returns (d: seq<Sector>)
    requires |s| == SLOTS
    ensures Backs(disk, s, d)
  {
    d := seq(140, k requires 0 <= k < 140 => Behind(disk, s[k]));
  }

  /** An inode's new record, list and data fit the disk; nobody else changed: the books are right. */
  lemma SoundAgain(v: View, v': View, ino: nat)
    requires Sound(v) && ino in v.inodes && Accounts(v') && v'.disk == v.disk && OnlyChanged(v, v', ino)
    requires Lists(v'.disk, v'.inodes[ino], v'.slots[ino]) && Backs(v'.disk, v'.slots[ino], v'.data[ino])
    ensures Sound(v')
  {
    hide Accounted, Lists, Backs;
  }

  /** Situation 1 in terms of states: nothing but direct blocks was added. */
  lemma ReadyDirect(v: View, v1: View, ino: nat, has: nat, will: nat, all0: seq<int>, all: seq<int>, d: seq<Sector>)
    requires Sound(v) && Allocated(v, v1, ino, has, will, all0, all) && Backs(v1.disk, v1.slots[ino], d)
    requires has <= will <= 12 && |v.slots[ino]| == SLOTS && Holds(v.slots[ino], has)
    requires has >= 1 ==> all0[has - 1] == v.slots[ino][has - 1]
    ensures Ready(v, v1.(data := v1.data[ino := d]), ino, has, will, all)
  {
    hide Sound, Accounted, TableWord, Behind;
    InodeOf(v, ino);
    SoundAgain(v, v1.(data := v1.data[ino := d]), ino);
  }

  /** The record of an inode agrees with its block list, which can be extended. */
  lemma SoundRecord(v: View, ino: nat, has: nat)
    requires Sound(v) && ino in v.inodes && ino in v.slots && |v.slots[ino]| == SLOTS && Holds(v.slots[ino], has)
    ensures Extensible(v, ino, has) && v.inodes[ino].sectors[12] == v.slots[ino][TABLE_SLOT]
  {
    hide Accounted, TableWord;
    InodeOf(v, ino);
  }

  // ---------- situations 2 and 3: the indirect table ----------

  /** The state between: the table has been allocated in situation 2, or nothing happened in 3. */
  ghost predicate TableThere(v: View, v0: View, ino: nat, has: nat) {
    && Extended(v, v0, ino) && Extensible(v0, ino, has) && ino in v.slots && ino in v.inodes
    && |v.slots[ino]| == SLOTS
    && (forall k :: 0 <= k < 140 ==> v0.slots[ino][k] == v.slots[ino][k])
    && v0.inodes[ino].size == v.inodes[ino].size && v0.inodes[ino].sectors[12] == v0.slots[ino][TABLE_SLOT] != 0
  }

  /** A state whose block list for inode ino is complete in memory, table sector not yet written. */
  ghost predicate TableDue(v: View, v1: View, ino: nat, has: nat, will: nat) {
    && Accounts(v1) && Extended(v, v1, ino) && ino in v.slots && ino in v.inodes && 12 < will
    && |v.slots[ino]| == |v1.slots[ino]| == SLOTS && Holds(v1.slots[ino], will)
    && Follows(v1.inodes[ino], v1.inodes[ino], v1.slots[ino])
    && v1.inodes[ino].sectors[12] == v1.slots[ino][TABLE_SLOT] && v1.inodes[ino].size == v.inodes[ino].size
    && forall k :: 0 <= k < has && k < 140 ==> v1.slots[ino][k] == v.slots[ino][k]
  }

  lemma DueAfterAlloc(v: View, v0: View, v1: View, ino: nat, has: nat, will: nat, all0: seq<int>, all: seq<int>)
    requires TableThere(v, v0, ino, has) && Holds(v.slots[ino], has) && 12 < will
    requires Allocated(v0, v1, ino, has, will, all0, all)
    requires forall k :: 12 <= k < 140 ==> all0[k] == v.slots[ino][k]
    requires has <= 12 ==> 1 <= has && all0[has - 1] == v.slots[ino][has - 1]
    ensures TableDue(v, v1, ino, has, will) && all[12..140] == v1.slots[ino][12..140]
    ensures forall k :: has - 1 <= k < will && 0 <= k < 140 ==> all[k] == v1.slots[ino][k]
  {
    hide Accounts;
  }

  /** The table is written: whose list, whose data? */
  function TableDone(v1: View, ino: nat, sec: Sector, d: seq<Sector>): (v': View)
    requires ino in v1.slots && |v1.slots[ino]| == SLOTS
  {
    v1.(disk := v1.disk[v1.slots[ino][TABLE_SLOT] := sec], data := v1.data[ino := d])
  }

  lemma SlotsU32(v: View, i: nat)
    requires Accounts(v) && i in v.slots
    ensures |v.slots[i]| == SLOTS && forall k :: 0 <= k < SLOTS ==> IsU32(v.slots[i][k])
  {
  }

  lemma OthersListed(v: View, v1: View, ino: nat, sec: Sector, j: nat)
    requires Sound(v) && Accounts(v1) && Extended(v, v1, ino) && ino in v.inodes && v1.slots[ino][TABLE_SLOT] != 0
    requires j in v.inodes && j != ino
    ensures Lists(v1.disk[v1.slots[ino][TABLE_SLOT] := sec], v.inodes[j], v.slots[j])
    ensures Backs(v1.disk[v1.slots[ino][TABLE_SLOT] := sec], v.slots[j], v.data[j])
  {
    hide Accounted, Lists, Backs;
    InodeOf(v, j);
    WriteKeepsList(v1.bits, v1.start, v1.slots, v1.owner, v1.disk, ino, TABLE_SLOT, sec, j, v.inodes[j]);
    WriteKeepsData(v1.bits, v1.start, v1.slots, v1.owner, v1.disk, ino, TABLE_SLOT, sec, j, v.data[j]);
  }

  lemma TableSound(v: View, v1: View, ino: nat, has: nat, will: nat, sec: Sector, d: seq<Sector>)
    requires Sound(v) && TableDue(v, v1, ino, has, will) && sec == TableBytes(v1.slots[ino][12..140])
    requires Backs(v1.disk[v1.slots[ino][TABLE_SLOT] := sec], v1.slots[ino], d)
    ensures Sound(TableDone(v1, ino, sec, d)) && OnlyChanged(v, TableDone(v1, ino, sec, d), ino)
  {
    hide Accounted, Backs;
    SlotsU32(v1, ino);
    WriteTable(v1.disk, v1.inodes[ino], v1.slots[ino], sec);
    forall j | j in v.inodes && j != ino
      ensures Lists(v1.disk[v1.slots[ino][TABLE_SLOT] := sec], v.inodes[j], v.slots[j])
      ensures Backs(v1.disk[v1.slots[ino][TABLE_SLOT] := sec], v.slots[j], v.data[j])
    {
      OthersListed(v, v1, ino, sec, j);
    }
    hide Lists, TableBytes;
  }

  /** The blocks below has still lie on the same, unwritten sectors. */
  lemma TableKeepsPrefix(v: View, v1: View, ino: nat, has: nat, will: nat, sec: Sector, d: seq<Sector>, k: nat)
    requires Sound(v) && TableDue(v, v1, ino, has, will) && k < has && k < 140
    requires Backs(v1.disk[v1.slots[ino][TABLE_SLOT] := sec], v1.slots[ino], d)
    ensures ino in v.data && |v.data[ino]| == 140 && d[k] == v.data[ino][k]
  {
    InodeOf(v, ino);
    var s := v1.slots[ino];
    hide Sound, Lists, Holds, Follows;
    assert s[k] != 0 ==> v1.owner[s[k]] == (ino, k);
    assert v1.owner[s[TABLE_SLOT]] == (ino, TABLE_SLOT);
  }

  lemma ReadyIndirect(v: View, v1: View, ino: nat, has: nat, will: nat, all: seq<int>, sec: Sector, d: seq<Sector>)
    requires Sound(v) && TableDue(v, v1, ino, has, will) && sec == TableBytes(v1.slots[ino][12..140])
    requires Backs(v1.disk[v1.slots[ino][TABLE_SLOT] := sec], v1.slots[ino], d)
    requires |all| == 140 && forall k :: has - 1 <= k < will && 0 <= k < 140 ==> all[k] == v1.slots[ino][k]
    ensures Ready(v, TableDone(v1, ino, sec, d), ino, has, will, all)
  {
    hide Sound, Accounts, TableBytes;
    TableSound(v, v1, ino, has, will, sec, d);
    InodeOf(v, ino);
    forall k | 0 <= k < has && k < 140 ensures d[k] == v.data[ino][k] {
      TableKeepsPrefix(v, v1, ino, has, will, sec, d, k);
    }
    hide Lists;
  }

  /** Inode ino holds has blocks. */
  ghost predicate HasBlocks(v: View, ino: nat, has: nat) {
    Sound(v) && ino in v.inodes && ino in v.slots && |v.slots[ino]| == SLOTS && Holds(v.slots[ino], has)
  }

  /** The record of inode ino when it holds has blocks. */
  lemma Record(v: View, ino: nat, has: nat)
    requires HasBlocks(v, ino, has)
    ensures Sound(v) && Extensible(v, ino, has) && ino in v.inodes && ino in v.slots
    ensures |v.inodes[ino].sectors| == 13 && |v.slots[ino]| == SLOTS && Holds(v.slots[ino], has)
    ensures v.inodes[ino].sectors[12] == v.slots[ino][TABLE_SLOT]
    ensures forall k :: 0 <= k < 12 ==> v.inodes[ino].sectors[k] == v.slots[ino][k]
  {
    SoundRecord(v, ino, has);
    hide Sound, Accounts, Holds;
  }

  /** all_blocks with nothing but the last block held. */
  function LastOnly(ind: Inode, has: nat): (all: seq<int>)
    requires |ind.sectors| == 13 && 1 <= has <= 12
  {
    Zeros(140)[has - 1 := ind.sectors[has - 1]]
  }

  lemma LastOnlyIs(v: View, ino: nat, has: nat)
    requires HasBlocks(v, ino, has) && 1 <= has <= 12 && |v.inodes[ino].sectors| == 13
    ensures |LastOnly(v.inodes[ino], has)| == 140 && LastOnly(v.inodes[ino], has)[has - 1] == v.slots[ino][has - 1]
    ensures forall k :: 12 <= k < 140 ==> LastOnly(v.inodes[ino], has)[k] == v.slots[ino][k]
  {
    Record(v, ino, has);
    hide Sound, Extensible, Zeros;
  }

  lemma AllocatedIs(v: View, v1: View, ino: nat, has: nat, will: nat, all0: seq<int>, all: seq<int>)
    requires Allocated(v, v1, ino, has, will, all0, all)
    ensures ino in v1.slots && |v1.slots[ino]| == SLOTS && ino in v.slots && |v.slots[ino]| == SLOTS && |all| == 140
  {
  }

  /** Situation 1: the direct blocks suffice. */
  method GrowDirect(p: Partition, ino: nat, has: nat, will: nat) returns (ok: bool, all: seq<int>)
    requires HasBlocks(p.V(), ino, has) && 1 <= has < will <= 12
    modifies p`bits, p`dbits, p`slots, p`owner, p`inodes, p`data
    ensures ok <==> Free(old(p.V()).bits) >= will - has
    ensures ok ==> Free(p.V().bits) == Free(old(p.V()).bits) - (will - has)
    ensures ok ==> Ready(old(p.V()), p.V(), ino, has, will, all)
    ensures ok ==> p.M() == BitmapSync.TakenAll(old(p.M()), will - has)
  {
    hide *;
    ghost var v := p.V();
    p.Fields();
    Record(v, ino, has);
    LastOnlyIs(v, ino, has);
    var all0 := LastOnly(p.inodes[ino], has);
    ok, all := AllocBlocks(p, ino, has, will, all0);
    p.Fields();
    if ok {
      ghost var v1 := p.V();
      AllocatedIs(v, v1, ino, has, will, all0, all);
      ghost var d := BackingOf(p.disk, p.slots[ino]);
      ReadyDirect(v, v1, ino, has, will, all0, all, d);
      p.data := p.data[ino := d];
      p.Fields();
    }
  }

  /** The table block of situation 2 (file.c:327-335). */
  method AllocTable(p: Partition, ino: nat, ghost has: nat) returns (ok: bool, table: int)
    requires HasBlocks(p.V(), ino, has) && 1 <= has <= 12
    modifies p`bits, p`dbits, p`slots, p`owner, p`inodes
    ensures ok <==> Free(old(p.V()).bits) >= 1
    ensures ok ==> Free(p.V().bits) == Free(old(p.V()).bits) - 1
    ensures ok ==> TableThere(old(p.V()), p.V(), ino, has) && Extensible(p.V(), ino, has)
    ensures ok ==> p.M() == BitmapSync.Taken(old(p.M()))
  {
    TableSlots();
    hide *;
    ghost var v := p.V();
    p.Fields();
    Record(v, ino, has);
    AccountsOf(v, ino, has);
    ghost var maps := p.M();
    p.MapsAre();
    ok, table := p.BlockAlloc(ino, TABLE_SLOT);
    p.Fields();
    if ok {
      ghost var v1 := p.V();
      BitInside(v.bits, table - v.start);
      p.MapsAre();
      BitmapSync.OneTaken(maps, table - v.start);
      p.inodes := p.inodes[ino := p.inodes[ino].(sectors := p.inodes[ino].sectors[12 := table])];
      p.Fields();
      SameBooks(v1, p.V());
      TableIsThere(v, p.V(), ino, has, table);
    }
  }

  lemma BitInside(bits: seq<bool>, j: int)
    requires LeastRun(bits, j, 1)
    ensures 0 <= j < |bits|
  {
    assert RunAt(bits, j, 1);
  }

  /** The books do not depend on the inode records. */
  lemma SameBooks(v: View, v': View)
    requires Accounts(v) && v'.bits == v.bits && v'.start == v.start && v'.slots == v.slots && v'.owner == v.owner
    ensures Accounts(v')
  {
  }

  lemma TableSlots()
    ensures TABLE_SLOT == 140 && SLOTS == 141
  {
  }

  lemma AccountsOf(v: View, ino: nat, has: nat)
    requires HasBlocks(v, ino, has) && has <= 12
    ensures Accounts(v) && ino in v.slots && |v.slots[ino]| == SLOTS && v.slots[ino][TABLE_SLOT] == 0
  {
    SoundAccounts(v);
    hide Sound, Accounts;
  }

  lemma TableIsThere(v: View, v0: View, ino: nat, has: nat, table: int)
    requires HasBlocks(v, ino, has) && 1 <= has <= 12 && Accounts(v0) && table != 0 && |v.inodes[ino].sectors| == 13
    requires v0.start == v.start && |v0.bits| == |v.bits| && v0.disk == v.disk && v0.data == v.data
    requires v0.slots == v.slots[ino := v.slots[ino][TABLE_SLOT := table]]
    requires v0.inodes == v.inodes[ino := v.inodes[ino].(sectors := v.inodes[ino].sectors[12 := table])]
    ensures TableThere(v, v0, ino, has) && Extensible(v0, ino, has)
  {
    Record(v, ino, has);
    hide Sound, Accounts, Extensible;
    assert Follows(v0.inodes[ino], v0.inodes[ino], v0.slots[ino]);
    assert Extensible(v0, ino, has) by {
      ExtensibleIs(v0, ino, has);
    }
  }

  lemma ExtensibleIs(v: View, ino: nat, has: nat)
    requires Accounts(v) && ino in v.slots && ino in v.inodes && |v.slots[ino]| == SLOTS && has <= 140
    requires (forall k :: has <= k < 140 ==> v.slots[ino][k] == 0)
      && Follows(v.inodes[ino], v.inodes[ino], v.slots[ino])
    ensures Extensible(v, ino, has)
  {
    hide Accounts, Follows;
  }

  /** Writing the collected table back to its sector (file.c:361 and 384). */
  method WriteBack(p: Partition, ino: nat, has: nat, will: nat, all: seq<int>, ghost v: View)
    requires ino in p.V().slots && |p.V().slots[ino]| == SLOTS
    requires Sound(v) && TableDue(v, p.V(), ino, has, will) && |all| == 140
    requires all[12..140] == p.V().slots[ino][12..140]
    requires forall k :: has - 1 <= k < will && 0 <= k < 140 ==> all[k] == p.V().slots[ino][k]
    modifies p`disk, p`data
    ensures Ready(v, p.V(), ino, has, will, all) && p.V().bits == old(p.V()).bits
  {
    TableSlots();
    hide *;
    ghost var v1 := p.V();
    p.Fields();
    DueParts(v, v1, ino, has, will);
    var sec: Sector := TableBytes(all[12..140]);
    ghost var d := BackingOf(p.disk[p.slots[ino][TABLE_SLOT] := sec], p.slots[ino]);
    ReadyIndirect(v, v1, ino, has, will, all, sec, d);
    TableDoneIs(v1, ino, sec, d);
    p.disk := p.disk[p.inodes[ino].sectors[12] := sec];
    p.data := p.data[ino := d];
    p.Fields();
  }

  lemma DueParts(v: View, v1: View, ino: nat, has: nat, will: nat)
    requires TableDue(v, v1, ino, has, will)
    ensures ino in v1.inodes && ino in v1.slots && |v1.slots[ino]| == SLOTS && |v1.inodes[ino].sectors| == 13
    ensures v1.inodes[ino].sectors[12] == v1.slots[ino][TABLE_SLOT]
  {
    hide Accounts;
  }

  lemma TableDoneIs(v1: View, ino: nat, sec: Sector, d: seq<Sector>)
    requires ino in v1.slots && |v1.slots[ino]| == SLOTS
    ensures TableDone(v1, ino, sec, d) ==
      v1.(disk := v1.disk[v1.slots[ino][TABLE_SLOT] := sec], data := v1.data[ino := d])
  {
  }

  /** Situation 2: the old blocks are direct, the new ones reach the indirect table, which is
      allocated first and written when all blocks are there. */
  method GrowMixed(p: Partition, ino: nat, has: nat, will: nat) returns (ok: bool, all: seq<int>)
    requires HasBlocks(p.V(), ino, has) && 1 <= has <= 12 < will <= 140
    modifies p`bits, p`dbits, p`slots, p`owner, p`inodes, p`disk, p`data
    ensures ok <==> Free(old(p.V()).bits) >= will - has + 1
    ensures ok ==> Free(p.V().bits) == Free(old(p.V()).bits) - (will - has + 1)
    ensures ok ==> Ready(old(p.V()), p.V(), ino, has, will, all)
    ensures ok ==> p.M() == BitmapSync.TakenAll(BitmapSync.Taken(old(p.M())), will - has)
  {
    hide *;
    ghost var v := p.V();
    p.Fields();
    Record(v, ino, has);
    LastOnlyIs(v, ino, has);
    var all0 := LastOnly(p.inodes[ino], has);
    all := all0;
    var table;
    ok, table := AllocTable(p, ino, has);
    p.Fields();
    if ok {
      ghost var v0 := p.V();
      ok, all := AllocBlocks(p, ino, has, will, all0);
      p.Fields();
      if ok {
        ghost var v1 := p.V();
        AllocatedIs(v0, v1, ino, has, will, all0, all);
        DueAfterAlloc(v, v0, v1, ino, has, will, all0, all);
        WriteBack(p, ino, has, will, all, v);
        p.Fields();
      }
    }
  }

  /** ide_read of the indirect table into all_blocks + 12. */
  function Loaded(disk: Disk, t: int): (all: seq<int>)
    ensures |all| == 140 && forall k :: 12 <= k < 140 ==> all[k] == WordAt(Sec(disk, t), k - 12)
  {
    seq(140, k requires 0 <= k < 140 => if k < 12 then 0 else WordAt(Sec(disk, t), k - 12))
  }

  /** Situation 3: the indirect table exists; it is read, extended and written back. */
  method GrowIndirect(p: Partition, ino: nat, has: nat, will: nat) returns (ok: bool, all: seq<int>)
    requires HasBlocks(p.V(), ino, has) && 12 < has <= will <= 140
    modifies p`bits, p`dbits, p`slots, p`owner, p`inodes, p`disk, p`data
    ensures ok <==> Free(old(p.V()).bits) >= will - has
    ensures ok ==> Free(p.V().bits) == Free(old(p.V()).bits) - (will - has)
    ensures ok ==> Ready(old(p.V()), p.V(), ino, has, will, all)
    ensures ok ==> p.M() == BitmapSync.TakenAll(old(p.M()), will - has)
  {
    hide *;
    ghost var v := p.V();
    p.Fields();
    Record(v, ino, has);
    LoadedIs(v, ino, has);
    var all0 := Loaded(p.disk, p.inodes[ino].sectors[12]);
    ok, all := AllocBlocks(p, ino, has, will, all0);
    p.Fields();
    if ok {
      ghost var v1 := p.V();
      AllocatedIs(v, v1, ino, has, will, all0, all);
      DueAfterAlloc(v, v, v1, ino, has, will, all0, all);
      WriteBack(p, ino, has, will, all, v);
      p.Fields();
    }
  }

  /** The table on disk lists the indirect blocks. */
  lemma LoadedIs(v: View, ino: nat, has: nat)
    requires HasBlocks(v, ino, has) && 12 < has && |v.inodes[ino].sectors| == 13
    ensures forall k :: 12 <= k < 140 ==> Loaded(v.disk, v.inodes[ino].sectors[12])[k] == v.slots[ino][k]
    ensures TableThere(v, v, ino, has)
  {
    Record(v, ino, has);
    InodeOf(v, ino);
    hide Sound, Accounts, Backs, Loaded;
  }

  // ---------- writing the data ----------

  /** What the data loop moves: the disk, the data behind the file, and its size. */
  datatype Tape = Tape(disk: Disk, data: seq<Sector>, size: int)

  /** One sector of block list s written, and a new size. */
  function WriteSector(t: Tape, s: seq<int>, k: nat, sec: Sector, size: int): (t': Tape)
    requires k < |s| && k < |t.data|
  {
    Tape(t.disk[s[k] := sec], t.data[k := sec], size)
  }

  /** A set of states that no write of a held data sector leaves. */
  ghost predicate Closed(good: iset<Tape>, s: seq<int>) {
    && |s| == SLOTS
    && (forall t :: t in good ==> |t.data| == 140)
    && forall t, k: nat, sec, size :: t in good && k < 140 && s[k] != 0 ==> WriteSector(t, s, k, sec, size) in good
  }

  /** io_buf of one pass: zeros or the sector read, with the chunk copied in at off. */
  function Patched(read: Sector, first: bool, off: nat, chunk: seq<Byte>): (sec: Sector)
    requires off + |chunk| <= 512
    ensures forall j :: 0 <= j < |chunk| ==> sec[off + j] == chunk[j]
    ensures first ==> forall j :: 0 <= j < off ==> sec[j] == read[j]
  {
    var io := if first then read else ZeroSector();
    SpliceAt(io, off, chunk);
    Splice(io, off, chunk)
  }

  /** Every block a write of n more bytes touches is held and listed in all_blocks. */
  ghost predicate Listed(slots: seq<int>, all: seq<int>, size: int, n: nat) {
    && |slots| == SLOTS && |all| == 140 && 0 <= size && size + n < MAX_FILE
    && forall k :: size / 512 <= k <= (size + n) / 512 ==> 0 <= k < 140 && slots[k] != 0 && all[k] == slots[k]
  }

  /** fd_pos after a write that ends at `size`: one before the end, in 32 bits. */
  function PosAfter(size: int): (pos: int) {
    if size == 0 then U32_LIMIT - 1 else size - 1
  }

  /** It is the position whose successor, in 32 bits, is the end. */
  lemma PosBeforeEnd(size: int)
    requires 0 <= size < U32_LIMIT
    ensures 0 <= PosAfter(size) < U32_LIMIT && (PosAfter(size) + 1) % U32_LIMIT == size
  {
  }

  lemma PosAdvance(size: int, n: nat)
    requires 0 <= size && size + n < U32_LIMIT
    ensures (PosAfter(size) + n) % U32_LIMIT == PosAfter(size + n)
  {
  }

  /** The data loop of file_write (file.c:389-413): buffer zeroed, the first sector read, chunk
      copied in, sector written, size and position advanced. */
  method WriteLoop(ghost good: iset<Tape>, ghost s: seq<int>, ghost d0: seq<Sector>, ghost b: seq<Byte>,
                   all: seq<int>, buf: seq<Byte>, disk0: Disk, size0: int)
    returns (disk: Disk, size: int, pos: int, ghost d: seq<Sector>)
    requires Listed(s, all, size0, |buf|) && Spells(d0, size0, b) && d0[size0 / 512] == Sec(disk0, all[size0 / 512])
    requires Closed(good, s) && Tape(disk0, d0, size0) in good
    ensures Tape(disk, d, size) in good && Spells(d, size, b + buf)
    ensures size == size0 + |buf| && pos == PosAfter(size)
  {
    d, disk, size := d0, disk0, size0;
    var first, written := true, 0;
    pos := (size - 1) % U32_LIMIT;
    assert b + buf[..0] == b;
    while written < |buf|
      invariant 0 <= written <= |buf| && size == size0 + written
      invariant Tape(disk, d, size) in good && Spells(d, size, b + buf[..written])
      invariant pos == PosAfter(size)
      invariant if first then written == 0 && d == d0 && disk == disk0 else written == |buf| || size % 512 == 0
    {
      var k, off, left := size / 512, size % 512, |buf| - written;
      var chunk := if left < 512 - off then left else 512 - off;
      var more := buf[written .. written + chunk];
      assert size0 / 512 <= k <= (size0 + |buf|) / 512;
      var sec := Patched(Sec(disk, all[k]), first, off, more);
      AppendChunk(d, size, b + buf[..written], k, off, more, sec);
      TakeMore(b, buf, written, chunk);
      assert WriteSector(Tape(disk, d, size), s, k, sec, size + chunk) in good;
      disk, d := disk[all[k] := sec], d[k := sec];
      PosAdvance(size, chunk);
      first, size, pos, written := false, size + chunk, (pos + chunk) % U32_LIMIT, written + chunk;
    }
    assert buf[..written] == buf;
  }

  // ---------- file_write ----------

  /** Every regular file's block list has the shape file_write keeps, and its sectors spell its bytes. */
  ghost predicate Files(v: View, bytes: map<nat, seq<Byte>>) {
    forall i :: i in bytes ==>
      && i in v.inodes && i in v.slots && i in v.data && |v.slots[i]| == SLOTS
      && FileShape(v.slots[i], v.inodes[i].size) && Spells(v.data[i], v.inodes[i].size, bytes[i])
  }

  /** -1 for a file that would grow past 71680 bytes, a stopped kernel, the bytes written, or a write
      whose new size 32 bits do not hold, which goes on with the wrong size and is not followed. */
  datatype WriteResult = TooLarge | Halted | Wrote(count: nat) | Overrun

  /** What a write does before it looks at blocks, n being the size the file would have. */
  predicate SizeAnswer(n: nat, r: WriteResult) {
    && (r == TooLarge <==> n % U32_LIMIT > MAX_FILE)
    && (r == Overrun <==> n >= U32_LIMIT && n % U32_LIMIT <= MAX_FILE)
  }

  /** Blocks used by n data blocks: the table comes with the thirteenth. */
  function Cost(n: nat): (c: nat) {
    if n > 12 then n + 1 else n
  }

  /** The blocks a write of n bytes takes from the bitmap. */
  function Need(slots: seq<int>, size: nat, n: nat): (c: int)
    requires |slots| == SLOTS
  {
    Cost((size + n) / 512 + 1) - Cost(BlockCount(slots, size))
  }

  /** The first write gives the file its first block (file.c:254-266). */
  method FirstBlock(p: Partition, ino: nat) returns (ok: bool, ghost all: seq<int>)
    requires HasBlocks(p.V(), ino, 0)
    modifies p`bits, p`dbits, p`slots, p`owner, p`inodes, p`data
    ensures ok <==> Free(old(p.V()).bits) >= 1
    ensures ok ==> Free(p.V().bits) == Free(old(p.V()).bits) - 1
    ensures ok ==> Ready(old(p.V()), p.V(), ino, 0, 1, all)
    ensures ok ==> p.M() == BitmapSync.TakenAll(old(p.M()), 1)
  {
    hide *;
    ghost var v := p.V();
    p.Fields();
    Record(v, ino, 0);
    var all0 := Zeros(140);
    ok, all := AllocBlocks(p, ino, 0, 1, all0);
    p.Fields();
    if ok {
      ghost var v1 := p.V();
      AllocatedIs(v, v1, ino, 0, 1, all0, all);
      ghost var d := BackingOf(p.disk, p.slots[ino]);
      ReadyDirect(v, v1, ino, 0, 1, all0, all, d);
      p.data := p.data[ino := d];
      p.Fields();
    }
  }

  /** Collecting the blocks of a write, whichever situation it is (file.c:276-386). */
  method Collect(p: Partition, ino: nat, has: nat, will: nat) returns (ok: bool, all: seq<int>)
    requires HasBlocks(p.V(), ino, has) && 1 <= has <= will <= 140
    modifies p`bits, p`dbits, p`slots, p`owner, p`inodes, p`disk, p`data
    ensures ok <==> Free(old(p.V()).bits) >= Cost(will) - Cost(has)
    ensures ok ==> Free(p.V().bits) == Free(old(p.V()).bits) - (Cost(will) - Cost(has))
    ensures ok ==> Ready(old(p.V()), p.V(), ino, has, will, all)
    ensures ok ==> p.M() == BitmapSync.Grown(old(p.M()), has, will)
  {
    hide *;
    ghost var v := p.V();
    p.Fields();
    BitmapSync.GrownIs(p.M(), has, will);
    Record(v, ino, has);
    CostIs(has);
    CostIs(will);
    if will == has {
      ok := true;
      if has <= 12 {
        LastOnlyIs(v, ino, has);
        all := LastOnly(p.inodes[ino], has);
      } else {
        LoadedIs(v, ino, has);
        all := Loaded(p.disk, p.inodes[ino].sectors[12]);
      }
      ReadyAlready(v, ino, has, all);
    } else if will <= 12 {
      ok, all := GrowDirect(p, ino, has, will);
    } else if has <= 12 {
      ok, all := GrowMixed(p, ino, has, will);
    } else {
      ok, all := GrowIndirect(p, ino, has, will);
    }
  }

  lemma CostIs(n: nat)
    ensures Cost(n) == if n > 12 then n + 1 else n
  {
  }

  /** Nothing to collect. */
  lemma ReadyAlready(v: View, ino: nat, has: nat, all: seq<int>)
    requires HasBlocks(v, ino, has) && 1 <= has <= 140 && |all| == 140 && all[has - 1] == v.slots[ino][has - 1]
    ensures Ready(v, v, ino, has, has, all)
  {
    InodeOf(v, ino);
    hide Sound, Lists, Holds;
    assert v.inodes[ino := v.inodes[ino]] == v.inodes && v.slots[ino := v.slots[ino]] == v.slots
      && v.data[ino := v.data[ino]] == v.data;
  }

  // ---------- storing the bytes ----------

  /** State v with another disk, and another size and data for inode ino. */
  ghost function Restate(v: View, ino: nat, t: Tape): (v': View)
    requires ino in v.inodes
  {
    v.(disk := t.disk, inodes := v.inodes[ino := v.inodes[ino].(size := t.size)], data := v.data[ino := t.data])
  }

  /** Writing a data sector of inode ino, and any size, keeps the books right. */
  lemma SectorWritten(v: View, ino: nat, t: Tape, k: nat, sec: Sector, size: int)
    requires ino in v.inodes && ino in v.slots && |v.slots[ino]| == SLOTS && k < 140 && v.slots[ino][k] != 0
    requires |t.data| == 140 && Sound(Restate(v, ino, t))
    ensures Sound(Restate(v, ino, WriteSector(t, v.slots[ino], k, sec, size)))
  {
    var w := Restate(v, ino, t);
    hide Sound;
    RewrittenSound(w, ino, k, sec, size);
    var d: seq<Sector> := t.data[k := sec];
    assert w.data[ino := d] == v.data[ino := d];
    assert w.inodes[ino := w.inodes[ino].(size := size)] == v.inodes[ino := v.inodes[ino].(size := size)];
  }

  /** The states the data loop may pass through. */
  ghost function Good(v: View, ino: nat): iset<Tape>
    requires ino in v.inodes
  {
    iset t: Tape | |t.data| == 140 && Sound(Restate(v, ino, t))
  }

  lemma GoodClosed(v: View, ino: nat)
    requires Sound(v) && ino in v.inodes && ino in v.slots && |v.slots[ino]| == SLOTS && ino in v.data
      && |v.data[ino]| == 140
    ensures Closed(Good(v, ino), v.slots[ino])
    ensures Tape(v.disk, v.data[ino], v.inodes[ino].size) in Good(v, ino)
  {
    var s := v.slots[ino];
    hide Sound;
    assert Restate(v, ino, Tape(v.disk, v.data[ino], v.inodes[ino].size)) == v by {
      assert v.inodes[ino := v.inodes[ino]] == v.inodes && v.data[ino := v.data[ino]] == v.data;
    }
    forall t, k: nat, sec, size | t in Good(v, ino) && k < 140 && s[k] != 0
      ensures WriteSector(t, s, k, sec, size) in Good(v, ino)
    {
      SectorWritten(v, ino, t, k, sec, size);
    }
  }

  /** From v to v' the bytes `more` were appended to inode ino, whose bytes were b, and nothing
      else happened. */
  ghost predicate Appended(v: View, v': View, ino: nat, b: seq<Byte>, more: seq<Byte>) {
    && Sound(v') && ino in v.inodes && OnlyChanged(v, v', ino) && v'.slots == v.slots
    && v'.inodes[ino].size == v.inodes[ino].size + |more|
    && Spells(v'.data[ino], v'.inodes[ino].size, b + more)
  }

  lemma Stored(v: View, ino: nat, t: Tape, b: seq<Byte>, more: seq<Byte>)
    requires Sound(v) && ino in v.inodes && t in Good(v, ino)
    requires Spells(t.data, t.size, b + more) && t.size == v.inodes[ino].size + |more|
    ensures Appended(v, Restate(v, ino, t), ino, b, more)
  {
    hide Sound, Lists, Backs, Spells;
    InodeOf(v, ino);
    RestateIs(v, ino, t);
    assert t.data == Restate(v, ino, t).data[ino];
  }

  /** The data loop on the partition. */
  method Store(p: Partition, ino: nat, all: seq<int>, buf: seq<Byte>, ghost b: seq<Byte>) returns (pos: int)
    requires Storable(p.V(), ino, all, |buf|, b)
    modifies p`disk, p`inodes, p`data
    ensures Appended(old(p.V()), p.V(), ino, b, buf)
    ensures pos == PosAfter(|b| + |buf|)
  {
    hide *;
    ghost var v := p.V();
    p.Fields();
    StoreReady(v, ino, all, |buf|, b);
    var disk, size;
    ghost var d;
    disk, size, pos, d := WriteLoop(Good(v, ino), v.slots[ino], v.data[ino], b, all, buf, p.disk, p.inodes[ino].size);
    Stored(v, ino, Tape(disk, d, size), b, buf);
    RestateIs(v, ino, Tape(disk, d, size));
    p.disk := disk;
    p.inodes := p.inodes[ino := p.inodes[ino].(size := size)];
    p.data := p.data[ino := d];
    p.Fields();
  }

  lemma RestateIs(v: View, ino: nat, t: Tape)
    requires ino in v.inodes
    ensures Restate(v, ino, t) ==
      v.(disk := t.disk, inodes := v.inodes[ino := v.inodes[ino].(size := t.size)], data := v.data[ino := t.data])
  {
  }

  /** What the data loop starts from. */
  lemma StoreReady(v: View, ino: nat, all: seq<int>, n: nat, b: seq<Byte>)
    requires Storable(v, ino, all, n, b)
    ensures Sound(v) && ino in v.inodes && ino in v.slots && ino in v.data
      && Listed(v.slots[ino], all, v.inodes[ino].size, n)
    ensures var size := v.inodes[ino].size;
      && Spells(v.data[ino], size, b) && |b| == size && |v.data[ino]| == 140 && |all| == 140 && 0 <= size / 512 < 140
      && v.data[ino][size / 512] == Sec(v.disk, all[size / 512])
    ensures Closed(Good(v, ino), v.slots[ino]) && Tape(v.disk, v.data[ino], v.inodes[ino].size) in Good(v, ino)
  {
    InodeOf(v, ino);
    GoodClosed(v, ino);
    hide Sound, Lists, Closed, Good;
  }

  /** One file of a sound state. */
  ghost predicate FileAt(v: View, ino: nat, b: seq<Byte>) {
    && ino in v.inodes && ino in v.slots && ino in v.data && |v.slots[ino]| == SLOTS && |v.inodes[ino].sectors| == 13
    && v.inodes[ino].sectors[0] == v.slots[ino][0]
    && FileShape(v.slots[ino], v.inodes[ino].size) && Spells(v.data[ino], v.inodes[ino].size, b)
  }

  lemma FileOf(v: View, bytes: map<nat, seq<Byte>>, ino: nat)
    requires Sound(v) && Files(v, bytes) && ino in bytes
    ensures FileAt(v, ino, bytes[ino])
  {
    InodeOf(v, ino);
    hide Sound, Backs, Spells, FileShape;
  }

  /** The file has its first block; nothing else happened. */
  ghost predicate FirstDone(v: View, v1: View, ino: nat, b: seq<Byte>) {
    && Sound(v1) && ino in v.inodes && OnlyChanged(v, v1, ino)
    && v1.inodes[ino].size == v.inodes[ino].size && 0 <= v.inodes[ino].size < MAX_FILE
    && Spells(v1.data[ino], v1.inodes[ino].size, b)
    && |v1.slots[ino]| == SLOTS && Holds(v1.slots[ino], v1.inodes[ino].size / 512 + 1)
  }

  lemma FirstIsDone(v: View, v1: View, ino: nat, b: seq<Byte>, all: seq<int>)
    requires Sound(v) && FileAt(v, ino, b)
    requires if v.slots[ino][0] == 0 then Ready(v, v1, ino, 0, 1, all) else v1 == v
    ensures FirstDone(v, v1, ino, b)
  {
    hide Sound;
  }

  /** Blocks the first write of a file costs. */
  ghost function FirstNeed(v: View, ino: nat): (n: nat)
    requires ino in v.slots && |v.slots[ino]| == SLOTS
  {
    if v.slots[ino][0] == 0 then 1 else 0
  }

  method EnsureFirst(p: Partition, ino: nat, ghost b: seq<Byte>) returns (ok: bool)
    requires Sound(p.V()) && FileAt(p.V(), ino, b)
    modifies p`bits, p`dbits, p`slots, p`owner, p`inodes, p`data
    ensures ok <==> Free(old(p.V()).bits) >= FirstNeed(old(p.V()), ino)
    ensures ok ==> Free(p.V().bits) == Free(old(p.V()).bits) - FirstNeed(old(p.V()), ino)
    ensures ok ==> FirstDone(old(p.V()), p.V(), ino, b)
    ensures ok ==> p.M() == BitmapSync.TakenAll(old(p.M()), FirstNeed(old(p.V()), ino))
  {
    hide *;
    ghost var v := p.V();
    p.Fields();
    ghost var all := [];
    ok := true;
    BitmapSync.TakenNone(p.M());
    FirstParts(v, ino, b);
    if p.inodes[ino].sectors[0] == 0 {
      ok, all := FirstBlock(p, ino);
    }
    if ok {
      FirstIsDone(v, p.V(), ino, b, all);
    }
  }

  lemma FirstParts(v: View, ino: nat, b: seq<Byte>)
    requires Sound(v) && FileAt(v, ino, b)
    ensures ino in v.inodes && ino in v.slots && |v.slots[ino]| == SLOTS && |v.inodes[ino].sectors| == 13
    ensures v.inodes[ino].sectors[0] == v.slots[ino][0] && FirstNeed(v, ino) == (if v.slots[ino][0] == 0 then 1 else 0)
    ensures v.slots[ino][0] == 0 ==> HasBlocks(v, ino, 0)
  {
    hide Sound, Spells;
  }

  /** Every block the write needs is held and listed; nothing else happened. */
  ghost predicate Prepared(v: View, v2: View, ino: nat, n: nat, b: seq<Byte>, all: seq<int>) {
    && Sound(v2) && ino in v.inodes && OnlyChanged(v, v2, ino)
    && v2.inodes[ino].size == v.inodes[ino].size && 0 <= v.inodes[ino].size && v.inodes[ino].size + n < MAX_FILE
    && Spells(v2.data[ino], v2.inodes[ino].size, b)
    && |v2.slots[ino]| == SLOTS && Holds(v2.slots[ino], (v2.inodes[ino].size + n) / 512 + 1)
    && Listed(v2.slots[ino], all, v2.inodes[ino].size, n)
  }

  lemma IsPrepared(v: View, v1: View, v2: View, ino: nat, n: nat, b: seq<Byte>, all: seq<int>)
    requires FirstDone(v, v1, ino, b) && v.inodes[ino].size + n < MAX_FILE
    requires Ready(v1, v2, ino, v.inodes[ino].size / 512 + 1, (v.inodes[ino].size + n) / 512 + 1, all)
    ensures Prepared(v, v2, ino, n, b, all)
  {
    hide Sound, Spells;
    var size := v.inodes[ino].size;
    SameBytes(v1.data[ino], v2.data[ino], size, b, size / 512 + 1);
    assert Listed(v2.slots[ino], all, size, n);
    hide Listed, Holds;
  }

  lemma NeedSplit(v: View, ino: nat, n: nat, b: seq<Byte>, has: nat, will: nat)
    requires FileAt(v, ino, b) && has == v.inodes[ino].size / 512 + 1 && will == (v.inodes[ino].size + n) / 512 + 1
    ensures Need(v.slots[ino], v.inodes[ino].size, n) == FirstNeed(v, ino) + Cost(will) - Cost(has)
    ensures Cost(has) <= Cost(will)
  {
    hide Spells, Holds;
  }

  lemma HasBlocksNow(v: View, v1: View, ino: nat, b: seq<Byte>, has: nat)
    requires FirstDone(v, v1, ino, b) && has == v.inodes[ino].size / 512 + 1
    ensures HasBlocks(v1, ino, has)
  {
    hide Sound, Spells, Holds;
  }

  /** The write can be prepared: a file with room for n more bytes. */
  ghost predicate Writable(v: View, ino: nat, n: nat, b: seq<Byte>, has: nat, will: nat) {
    && Sound(v) && FileAt(v, ino, b) && v.inodes[ino].size + n < MAX_FILE
    && has == v.inodes[ino].size / 512 + 1 && will == (v.inodes[ino].size + n) / 512 + 1
  }

  lemma WritableParts(v: View, ino: nat, n: nat, b: seq<Byte>, has: nat, will: nat)
    requires Writable(v, ino, n, b, has, will)
    ensures Sound(v) && FileAt(v, ino, b) && ino in v.inodes && ino in v.slots && |v.slots[ino]| == SLOTS
    ensures 0 <= v.inodes[ino].size && v.inodes[ino].size + n < MAX_FILE
    ensures has == v.inodes[ino].size / 512 + 1 && will == (v.inodes[ino].size + n) / 512 + 1
  {
    hide Sound, Spells, Holds;
  }

  /** The blocks for the write: the first one if need be, then the rest. */
  method Prepare(p: Partition, ino: nat, has: nat, will: nat, ghost n: nat, ghost b: seq<Byte>)
    returns (ok: bool, all: seq<int>)
    requires Writable(p.V(), ino, n, b, has, will) && 1 <= has <= will <= 140
    modifies p`bits, p`dbits, p`slots, p`owner, p`inodes, p`disk, p`data
    ensures ok <==> Free(old(p.V()).bits) >= old(Need(p.V().slots[ino], p.V().inodes[ino].size, n))
    ensures ok ==> Free(p.V().bits) == Free(old(p.V()).bits) - old(Need(p.V().slots[ino], p.V().inodes[ino].size, n))
    ensures ok ==> Prepared(old(p.V()), p.V(), ino, n, b, all)
    ensures ok ==> p.M() == BitmapSync.Written(old(p.M()), FirstNeed(old(p.V()), ino), has, will)
  {
    hide *;
    ghost var v := p.V();
    all := [];
    WritableParts(v, ino, n, b, has, will);
    NeedSplit(v, ino, n, b, has, will);
    BitmapSync.WrittenIs(p.M(), FirstNeed(v, ino), has, will);
    ok := EnsureFirst(p, ino, b);
    if ok {
      ghost var v1 := p.V();
      HasBlocksNow(v, v1, ino, b, has);
      ok, all := Collect(p, ino, has, will);
      if ok {
        IsPrepared(v, v1, p.V(), ino, n, b, all);
      }
    }
  }

  /** From v to v' the bytes buf were appended to file ino and nothing else changed. */
  ghost predicate WriteDone(v: View, v': View, bytes: map<nat, seq<Byte>>, bytes': map<nat, seq<Byte>>, ino: nat,
      buf: seq<Byte>) {
    Sound(v') && Files(v', bytes') && OnlyChanged(v, v', ino) && ino in bytes
      && bytes' == bytes[ino := bytes[ino] + buf]
  }

  /** Other files are untouched, the written one has its new bytes. */
  lemma IsDone(v: View, v2: View, v': View, ino: nat, bytes: map<nat, seq<Byte>>, all: seq<int>, buf: seq<Byte>)
    requires Files(v, bytes) && ino in bytes && Prepared(v, v2, ino, |buf|, bytes[ino], all)
    requires Appended(v2, v', ino, bytes[ino], buf)
    ensures WriteDone(v, v', bytes, bytes[ino := bytes[ino] + buf], ino, buf)
  {
    hide Sound, Spells, Listed;
    assert FileShape(v'.slots[ino], v'.inodes[ino].size);
    hide FileShape, Holds;
  }

  /** Store can start. */
  ghost predicate Storable(v: View, ino: nat, all: seq<int>, n: nat, b: seq<Byte>) {
    && Sound(v) && ino in v.inodes && ino in v.slots && Listed(v.slots[ino], all, v.inodes[ino].size, n)
    && ino in v.data && Spells(v.data[ino], v.inodes[ino].size, b)
  }

  lemma IsStorable(v: View, v2: View, ino: nat, all: seq<int>, n: nat, b: seq<Byte>)
    requires Prepared(v, v2, ino, n, b, all)
    ensures Storable(v2, ino, all, n, b) && v2.inodes[ino].size == |b|
  {
    hide Sound, Listed, Holds;
  }

  /** file_write after its size checks. */
  method Append(p: Partition, ino: nat, buf: seq<Byte>, has: nat, will: nat, ghost bytes: map<nat, seq<Byte>>)
    returns (ok: bool, pos: int)
    requires Files(p.V(), bytes) && ino in bytes
    requires Writable(p.V(), ino, |buf|, bytes[ino], has, will) && 1 <= has <= will <= 140
    modifies p`bits, p`dbits, p`slots, p`owner, p`inodes, p`disk, p`data
    ensures ok <==> Free(old(p.V()).bits) >= old(Need(p.V().slots[ino], p.V().inodes[ino].size, |buf|))
    ensures ok ==>
      Free(p.V().bits) == Free(old(p.V()).bits) - old(Need(p.V().slots[ino], p.V().inodes[ino].size, |buf|))
    ensures ok ==> WriteDone(old(p.V()), p.V(), bytes, bytes[ino := bytes[ino] + buf], ino, buf)
    ensures ok ==> pos == PosAfter(|bytes[ino]| + |buf|)
    ensures ok ==> p.M() == BitmapSync.Written(old(p.M()), FirstNeed(old(p.V()), ino), has, will)
  {
    hide *;
    ghost var v := p.V();
    var all;
    pos := 0;
    WritableParts(v, ino, |buf|, bytes[ino], has, will);
    ok, all := Prepare(p, ino, has, will, |buf|, bytes[ino]);
    if ok {
      ghost var v2 := p.V();
      p.Fields();
      IsStorable(v, v2, ino, all, |buf|, bytes[ino]);
      pos := Store(p, ino, all, buf, bytes[ino]);
      p.Fields();
      IsDone(v, v2, p.V(), ino, bytes, all, buf);
    }
  }

  /** The block bitmap in memory and on disk after a write of n bytes to a file of that size. */
  ghost function MapsAfter(v: View, dbits: seq<bool>, ino: nat, size: nat, n: nat): (m: BitmapSync.Maps)
    requires ino in v.slots && |v.slots[ino]| == SLOTS
  {
    BitmapSync.Written(BitmapSync.Maps(v.bits, dbits), FirstNeed(v, ino), size / 512 + 1, (size + n) / 512 + 1)
  }

  lemma MapsAfterIs(v: View, dbits: seq<bool>, ino: nat, size: nat, n: nat)
    requires ino in v.slots && |v.slots[ino]| == SLOTS
    ensures MapsAfter(v, dbits, ino, size, n) ==
      BitmapSync.Written(BitmapSync.Maps(v.bits, dbits), FirstNeed(v, ino), size / 512 + 1, (size + n) / 512 + 1)
  {
    hide FirstNeed;
  }

  /** file_write: too large a file is refused, exactly 71680 bytes or a full disk stop the kernel,
      and otherwise the bytes are appended to this file and nothing else changes. */
  method FileWrite(p: Partition, ino: nat, buf: seq<Byte>) returns (r: WriteResult, pos: int)
    requires Sound(p.V()) && Files(p.V(), p.bytes) && ino in p.bytes
    modifies p`bits, p`dbits, p`slots, p`owner, p`inodes, p`disk, p`data, p`bytes
    ensures SizeAnswer(|old(p.bytes)[ino]| + |buf|, r)
    ensures r == TooLarge ==> p.V() == old(p.V()) && p.bytes == old(p.bytes)
    ensures r == Halted <==>
      || |old(p.bytes)[ino]| + |buf| == MAX_FILE
      || (|old(p.bytes)[ino]| + |buf| < MAX_FILE &&
          Free(old(p.V()).bits) < Need(old(p.V()).slots[ino], |old(p.bytes)[ino]|, |buf|))
    ensures r.Wrote? ==>
      && r.count == |buf|
      && Sound(p.V()) && Files(p.V(), p.bytes) && OnlyChanged(old(p.V()), p.V(), ino)
      && p.bytes == old(p.bytes)[ino := old(p.bytes)[ino] + buf]
      && 0 <= pos < U32_LIMIT && (pos + 1) % U32_LIMIT == |p.bytes[ino]|
      && Free(p.V().bits) == Free(old(p.V()).bits) - Need(old(p.V()).slots[ino], |old(p.bytes)[ino]|, |buf|)
    ensures r == TooLarge ==> p.dbits == old(p.dbits)
    ensures r.Wrote? ==>
      && |old(p.bytes)[ino]| + |buf| < MAX_FILE && ino in old(p.V()).slots && |old(p.V()).slots[ino]| == SLOTS
      && p.M() == MapsAfter(old(p.V()), old(p.dbits), ino, |old(p.bytes)[ino]|, |buf|)
  {
    MaxFile();
    hide *;
    ghost var v, b := p.V(), p.bytes[ino];
    p.Fields();
    pos := 0;
    FileOf(v, p.bytes, ino);
    FileSize(v, ino, b);
    var size := p.inodes[ino].size;
    SizeAnswers(size + |buf|);
    if (size + |buf|) % U32_LIMIT > MAX_FILE {
      return TooLarge, 0;
    }
    if size + |buf| >= U32_LIMIT {
      return Overrun, 0;
    }
    var has, will := size / 512 + 1, (size + |buf|) / 512 + 1;
    if will > 140 {
      return Halted, 0;
    }
    IsWritable(v, ino, |buf|, b, has, will);
    PosBeforeEnd(size + |buf|);
    p.MapsAre();
    MapsAfterIs(v, p.dbits, ino, size, |buf|);
    var ok;
    ok, pos := Append(p, ino, buf, has, will, p.bytes);
    p.Fields();
    if ok {
      WriteDoneIs(v, p.V(), p.bytes, p.bytes[ino := b + buf], ino, buf);
    }
    p.bytes := p.bytes[ino := b + buf];
    p.Fields();
    r := if ok then Wrote(|buf|) else Halted;
  }

  lemma SizeAnswers(n: nat)
    ensures SizeAnswer(n, TooLarge) <==> n % U32_LIMIT > MAX_FILE
    ensures SizeAnswer(n, Overrun) <==> n >= U32_LIMIT && n % U32_LIMIT <= MAX_FILE
    ensures n < U32_LIMIT ==> n % U32_LIMIT == n
    ensures forall r: WriteResult :: r != TooLarge && r != Overrun ==> (SizeAnswer(n, r) <==> n <= MAX_FILE)
  {
  }

  lemma MaxFile()
    ensures MAX_FILE == 71680 && U32_LIMIT == 0x1_0000_0000
  {
  }

  lemma FileSize(v: View, ino: nat, b: seq<Byte>)
    requires FileAt(v, ino, b)
    ensures ino in v.inodes && ino in v.slots && |v.slots[ino]| == SLOTS && |b| == v.inodes[ino].size < MAX_FILE
  {
    hide Holds;
  }

  lemma IsWritable(v: View, ino: nat, n: nat, b: seq<Byte>, has: nat, will: nat)
    requires Sound(v) && FileAt(v, ino, b) && v.inodes[ino].size + n < MAX_FILE
    requires has == v.inodes[ino].size / 512 + 1 && will == (v.inodes[ino].size + n) / 512 + 1
    ensures Writable(v, ino, n, b, has, will)
  {
    hide Sound, FileAt;
  }

  lemma WriteDoneIs(v: View, v': View, bytes: map<nat, seq<Byte>>, bytes': map<nat, seq<Byte>>, ino: nat,
      buf: seq<Byte>)
    requires WriteDone(v, v', bytes, bytes', ino, buf)
    ensures Sound(v') && Files(v', bytes') && OnlyChanged(v, v', ino)
  {
    hide Sound, Files, OnlyChanged;
  }

  // ---------- file_read ----------

  /** -1 at the end of the file, a stopped kernel, the bytes read, or a read past the block list. */
  datatype ReadResult = AtEnd | ReadHalted | Read(bytes: seq<Byte>) | Wild

  /** Collecting the blocks from start to stop (file.c:452-493). */
  method CollectRead(disk: Disk, ind: Inode, start: nat, stop: nat, ghost s: seq<int>) returns (all: seq<int>)
    requires Lists(disk, ind, s) && start <= stop < 140 && (stop >= 12 ==> ind.sectors[12] != 0)
    ensures |all| == 140 && forall k :: start <= k <= stop ==> all[k] == s[k]
  {
    if start == stop {
      all := if stop < 12 then Zeros(140)[stop := ind.sectors[stop]] else Loaded(disk, ind.sectors[12]);
    } else {
      all := if stop < 12 then Zeros(140) else Loaded(disk, ind.sectors[12]);
      var k := start;
      while k <= stop && k < 12
        invariant start <= k <= stop + 1 && |all| == 140 && (k <= 12 || k == start)
        invariant forall q :: start <= q < k && q < 12 ==> all[q] == s[q]
        invariant stop >= 12 ==> forall q :: 12 <= q < 140 ==> all[q] == s[q]
      {
        all := all[k := ind.sectors[k]];
        k := k + 1;
      }
    }
  }

  /** The read loop (file.c:498-513): each pass copies what one sector holds. */
  method ReadLoop(disk: Disk, all: seq<int>, pos0: nat, n: nat, ghost d: seq<Sector>, ghost size: int,
      ghost b: seq<Byte>)
    returns (out: seq<Byte>, pos: nat)
    requires Spells(d, size, b) && pos0 + n <= size && |all| == 140
    requires forall k :: 512 * k < pos0 + n && pos0 / 512 <= k < 140 ==> d[k] == Sec(disk, all[k])
    ensures out == b[pos0 .. pos0 + n] && pos == pos0 + n
  {
    out, pos := [], pos0;
    var left := n;
    while left > 0
      invariant 0 <= left <= n && pos == pos0 + n - left
      invariant out == b[pos0 .. pos]
    {
      var k, off := pos / 512, pos % 512;
      var chunk := if left < 512 - off then left else 512 - off;
      ReadChunk(d, size, b, pos, chunk);
      assert d[k] == Sec(disk, all[k]);
      out := out + Sec(disk, all[k])[off .. off + chunk];
      assert b[pos0 .. pos] + b[pos .. pos + chunk] == b[pos0 .. pos + chunk];
      pos, left := pos + chunk, left - chunk;
    }
  }

  /** A descriptor's position: inside the file, at its end, or the all-ones word a zero-length
      first write leaves. */
  ghost predicate PosOk(pos: int, size: int) {
    0 <= pos <= size || pos == U32_LIMIT - 1
  }

  /** What the block list says of the sectors a read touches. */
  lemma ReadBlocks(v: View, ino: nat, b: seq<Byte>, pos: nat, n: nat, all: seq<int>)
    requires Sound(v) && FileAt(v, ino, b) && pos + n <= v.inodes[ino].size && |all| == 140
    requires forall k :: pos / 512 <= k <= (pos + n) / 512 && k < 140 ==> all[k] == v.slots[ino][k]
    ensures forall k :: 512 * k < pos + n && pos / 512 <= k < 140 ==> v.data[ino][k] == Sec(v.disk, all[k])
  {
    InodeOf(v, ino);
    hide Sound, Lists, Spells;
    forall k | 512 * k < pos + n && pos / 512 <= k < 140 ensures v.data[ino][k] == Sec(v.disk, all[k]) {
      assert k <= (pos + n) / 512 && k <= v.inodes[ino].size / 512;
      assert v.slots[ino][k] != 0;
    }
  }

  lemma ReadNeedsTable(v: View, ino: nat, b: seq<Byte>, stop: nat)
    requires Sound(v) && FileAt(v, ino, b) && 12 <= stop <= v.inodes[ino].size / 512
    ensures v.inodes[ino].sectors[12] != 0
  {
    InodeOf(v, ino);
    hide Sound, Spells, Backs;
  }

  /** The bytes to read, in the 32-bit arithmetic of file.c:426-431. */
  function Span(size: int, pos: int, count: nat): (n: int) {
    if (pos + count) % U32_LIMIT > size then (size - pos) % U32_LIMIT else count
  }

  /** file_read after its checks. */
  method ReadSlice(p: Partition, ino: nat, pos0: nat, n: nat, ghost b: seq<Byte>) returns (out: seq<Byte>, pos: nat)
    requires Sound(p.V()) && FileAt(p.V(), ino, b) && pos0 + n <= |b| && (pos0 + n) / 512 < 139
    ensures out == b[pos0 .. pos0 + n] && pos == pos0 + n
  {
    ghost var v := p.V();
    var ind := p.inodes[ino];
    var start, stop := pos0 / 512, (pos0 + n) / 512;
    assert |b| == ind.size;
    hide Sound, FileShape, Spells;
    InodeOf(v, ino);
    if stop >= 12 {
      ReadNeedsTable(v, ino, b, stop);
    }
    hide Lists, Backs;
    var all := CollectRead(p.disk, ind, start, stop, p.slots[ino]);
    ReadBlocks(v, ino, b, pos0, n, all);
    out, pos := ReadLoop(p.disk, all, pos0, n, p.data[ino], ind.size, b);
  }

  /** The end of the read is beyond what 32 bits hold: the code then takes the count for good and runs
      past its block list. */
  predicate Wraps(pos: int, count: nat) {
    pos != U32_LIMIT - 1 && pos + count >= U32_LIMIT
  }

  /** file_read: exactly the slice from the position on, -1 at the end of the file; a read that
      ends in block 139 or later stops the kernel.  Nothing on the partition changes. */
  method FileRead(p: Partition, ino: nat, pos0: int, count: nat) returns (r: ReadResult, pos: int)
    requires Sound(p.V()) && Files(p.V(), p.bytes) && ino in p.bytes
    requires PosOk(pos0, |p.bytes[ino]|) && count < U32_LIMIT
    ensures r == AtEnd <==> pos0 == |p.bytes[ino]| && count > 0 && !Wraps(pos0, count)
    ensures r == Wild <==> Wraps(pos0, count) && pos0 / 512 < 139
    ensures r == ReadHalted <==>
      || (pos0 / 512 >= 139 && (pos0 == U32_LIMIT - 1 || Wraps(pos0, count)))
      || (!Wraps(pos0, count) && (pos0 + count) / 512 >= 139 && |p.bytes[ino]| / 512 >= 139 && r != AtEnd)
    ensures r.Read? ==>
      && 0 <= pos0 <= pos <= |p.bytes[ino]| && r.bytes == p.bytes[ino][pos0 .. pos]
      && |r.bytes| <= count && (|r.bytes| < count ==> pos == |p.bytes[ino]|)
    ensures !r.Read? ==> pos == pos0
  {
    MaxFile();
    hide *;
    ghost var v, b := p.V(), p.bytes[ino];
    p.Fields();
    FileOf(v, p.bytes, ino);
    FileSize(v, ino, b);
    var size := p.inodes[ino].size;
    SpanEnd(size, pos0, count);
    var n := Span(size, pos0, count);
    pos := pos0;
    if (pos + count) % U32_LIMIT > size && n == 0 {
      return AtEnd, pos;
    }
    if pos / 512 >= 139 || ((pos + n) % U32_LIMIT) / 512 >= 139 {
      return ReadHalted, pos;
    }
    if Wraps(pos, count) {
      return Wild, pos;
    }
    var out;
    out, pos := ReadSlice(p, ino, pos, n, b);
    r := Read(out);
  }

  /** Which reads the assertions on the block numbers stop. */
  lemma SpanEnd(size: int, pos: int, count: nat)
    requires 0 <= size < MAX_FILE && PosOk(pos, size) && count < U32_LIMIT
    ensures var n := Span(size, pos, count);
      var past := (pos + count) % U32_LIMIT > size && n == 0;
      var stops := pos / 512 >= 139 || ((pos + n) % U32_LIMIT) / 512 >= 139;
      && (past <==> pos == size && count > 0 && !Wraps(pos, count))
      && (!past && !Wraps(pos, count) ==>
           (stops <==> pos == U32_LIMIT - 1 || ((pos + count) / 512 >= 139 && size / 512 >= 139)))
      && (pos == U32_LIMIT - 1 ==> !past && stops && pos / 512 >= 139)
      && (Wraps(pos, count) ==> !past && (stops <==> pos / 512 >= 139))
      && (!past && !stops && !Wraps(pos, count) ==>
           && 0 <= pos <= size && 0 <= n <= count && pos + n <= size && (pos + n) / 512 < 139
           && (n < count ==> pos + n == size))
  {
    assert Wraps(pos, count) ==> (pos + count) % U32_LIMIT == pos + count - U32_LIMIT;
    assert !Wraps(pos, count) && pos != U32_LIMIT - 1 ==> (pos + count) % U32_LIMIT == pos + count;
  }

  /** A write, then a read on the same descriptor: it starts one before the end, so that it gives the last
      byte written and leaves the position at the end; the kernel stops exactly for a file that reaches
      block 139. */
  method WriteThenRead(p: Partition, ino: nat, buf: seq<Byte>, count: nat)
      returns (w: WriteResult, r: ReadResult, pos: int)
    requires Sound(p.V()) && Files(p.V(), p.bytes) && ino in p.bytes && buf != [] && 0 < count < U32_LIMIT
    modifies p`bits, p`dbits, p`slots, p`owner, p`inodes, p`disk, p`data, p`bytes
    ensures w.Wrote? ==> p.bytes == old(p.bytes)[ino := old(p.bytes)[ino] + buf]
    ensures w.Wrote? && |p.bytes[ino]| + count <= U32_LIMIT ==>
      && (r == ReadHalted <==> |p.bytes[ino]| / 512 >= 139) && (r.Read? || r == ReadHalted)
      && (r.Read? ==> r.bytes == [buf[|buf| - 1]] && pos == |p.bytes[ino]|)
  {
    MaxFile();
    hide *;
    w, pos := FileWrite(p, ino, buf);
    r := AtEnd;
    if w.Wrote? {
      ghost var b := p.bytes[ino];
      SizeBelow(p.V(), p.bytes, ino);
      JustBefore(pos, |b|, count);
      r, pos := FileRead(p, ino, pos, count);
    }
  }

  lemma SizeBelow(v: View, bytes: map<nat, seq<Byte>>, ino: nat)
    requires Sound(v) && Files(v, bytes) && ino in bytes
    ensures |bytes[ino]| < MAX_FILE
  {
    FileOf(v, bytes, ino);
    FileSize(v, ino, bytes[ino]);
    hide *;
  }

  lemma JustBefore(pos: int, size: int, count: nat)
    requires 0 <= pos < U32_LIMIT && (pos + 1) % U32_LIMIT == size && 0 < size < MAX_FILE && 0 < count < U32_LIMIT
    ensures pos == size - 1 && PosOk(pos, size) && (Wraps(pos, count) <==> size + count > U32_LIMIT)
    ensures (pos + count) / 512 >= size / 512
  {
  }
}
