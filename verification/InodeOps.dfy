/** fs/inode.c and the allocation half of fs/file.c: taking and releasing inodes. */
module InodeOps {
  import opened Bitmaps
  import opened Volume
  import opened Partitions
  import BitmapSync

  // ---------- a new inode ----------

  lemma EnteredSound(v: View, i: nat)
    requires Sound(v) && i !in v.inodes
    ensures Sound(Entered(v, i))
  {
    Enter(v.bits, v.start, v.slots, v.owner, i);
    hide Accounted;
    assert Lists(v.disk, NewInode(), Zeros(SLOTS)) && Backs(v.disk, Zeros(SLOTS), ZeroData());
    hide Lists, Backs;
  }

  // ---------- releasing an inode ----------

  /** How many blocks a list holds. */
  function BlocksIn(s: seq<int>): (n: nat) {
    if |s| == 0 then 0 else BlocksIn(s[..|s| - 1]) + if s[|s| - 1] != 0 then 1 else 0
  }

  lemma {:induction false} BlocksInUpdate(s: seq<int>, k: nat)
    requires k < |s| && s[k] != 0
    ensures BlocksIn(s[k := 0]) == BlocksIn(s) - 1
  {
    var n := |s| - 1;
    if k == n {
      assert s[k := 0][..n] == s[..n];
    } else {
      assert s[k := 0][..n] == s[..n][k := 0];
      BlocksInUpdate(s[..n], k);
    }
  }

  lemma {:induction false} NoBlocksIn(s: seq<int>)
    requires forall k :: 0 <= k < |s| ==> s[k] == 0
    ensures BlocksIn(s) == 0
  {
    if |s| > 0 {
      NoBlocksIn(s[..|s| - 1]);
    }
  }

  /** Giving back the block in slot k: one bit cleared, one block fewer in the list. */
  lemma ReleaseStep(bits: seq<bool>, start: nat, m: SlotMap, owner: Owners, ino: nat, k: nat)
    requires Accounted(bits, start, m, owner) && ino in m && k < SLOTS && m[ino][k] != 0
    ensures var j := m[ino][k] - start;
      && 0 <= j < |bits| && Accounted(bits[j := false], start, m[ino := m[ino][k := 0]], owner - {m[ino][k]})
      && |bits| - Count(bits[j := false]) == |bits| - Count(bits) + 1
      && BlocksIn(m[ino][k := 0]) == BlocksIn(m[ino]) - 1
  {
    Release(bits, start, m, owner, ino, k);
    var j := m[ino][k] - start;
    assert bits[j];
    hide Accounted;
    CountUpdate(bits, j, false);
    BlocksInUpdate(m[ino], k);
  }

  /** What the books look like while inode ino, whose list was s0, gives back its blocks: slots
      below `done` are empty, the table is gone once `table` is set. */
  ghost predicate Releasing(bits0: seq<bool>, bits: seq<bool>, start: nat, m0: SlotMap, m: SlotMap, owner: Owners,
      ino: nat, done: nat, table: bool) {
    && Accounted(bits, start, m, owner) && ino in m0 && ino in m && m == m0[ino := m[ino]]
    && |bits| == |bits0| && |m0[ino]| == |m[ino]| == SLOTS && done <= 140
    && (forall k :: 0 <= k < done ==> m[ino][k] == 0)
    && (forall k :: done <= k < 140 ==> m[ino][k] == m0[ino][k])
    && m[ino][TABLE_SLOT] == (if table then 0 else m0[ino][TABLE_SLOT])
    && Free(bits) + BlocksIn(m[ino]) == Free(bits0) + BlocksIn(m0[ino])
  }

  lemma ReleasingStep(bits0: seq<bool>, bits: seq<bool>, start: nat, m0: SlotMap, m: SlotMap, owner: Owners, ino: nat,
      done: nat)
    requires Releasing(bits0, bits, start, m0, m, owner, ino, done, true) && done < 140
    ensures m[ino][done] == 0 ==> Releasing(bits0, bits, start, m0, m, owner, ino, done + 1, true)
    ensures m[ino][done] != 0 ==>
      var j := m[ino][done] - start;
      0 <= j < |bits| && Releasing(bits0, bits[j := false], start, m0, m[ino := m[ino][done := 0]],
        owner - {m[ino][done]}, ino, done + 1, true)
  {
    hide Accounted;
    if m[ino][done] != 0 {
      ReleaseStep(bits, start, m, owner, ino, done);
    }
  }

  /** Steps 1a to 1c of inode_release (inode.c:167-201): every block of the list is given back. */
  method FreeBlocks(bits0: seq<bool>, start: nat, all: seq<int>, table: int, ghost m0: SlotMap, ghost owner0: Owners,
      ghost ino: nat, disk0: seq<bool>)
    returns (bits: seq<bool>, disk: seq<bool>, ghost m: SlotMap, ghost owner: Owners)
    requires Accounted(bits0, start, m0, owner0) && ino in m0 && |all| == 140
    requires forall k :: 0 <= k < 140 ==> all[k] == m0[ino][k]
    requires table == m0[ino][TABLE_SLOT]
    ensures Releasing(bits0, bits, start, m0, m, owner, ino, 140, true)
    ensures disk0 == bits0 ==> disk == bits
  {
    hide BitmapSync.Synced;
    bits, disk, m, owner := bits0, disk0, m0, owner0;
    if table != 0 {
      ReleaseStep(bits, start, m, owner, ino, TABLE_SLOT);
      ExactAfter(BitmapSync.Maps(bits, disk), table - start, false);
      bits := bits[table - start := false];
      disk := BitmapSync.Synced(BitmapSync.Maps(bits, disk), table - start).disk;
      m := m[ino := m[ino][TABLE_SLOT := 0]];
      owner := owner - {table};
    }
    var k := 0;
    while k < 140
      invariant 0 <= k <= 140 && Releasing(bits0, bits, start, m0, m, owner, ino, k, true)
      invariant disk0 == bits0 ==> disk == bits
    {
      ReleasingStep(bits0, bits, start, m0, m, owner, ino, k);
      if all[k] != 0 {
        ExactAfter(BitmapSync.Maps(bits, disk), all[k] - start, false);
        bits := bits[all[k] - start := false];
        disk := BitmapSync.Synced(BitmapSync.Maps(bits, disk), all[k] - start).disk;
        owner := owner - {all[k]};
        m := m[ino := m[ino][k := 0]];
      }
      k := k + 1;
    }
  }

  /** From v to v' inode i and its blocks are gone; everybody else is as before. */
  ghost predicate Removed(v: View, v': View, i: nat) {
    && v'.start == v.start && |v'.bits| == |v.bits| && v'.disk == v.disk
    && v'.inodes == v.inodes - {i} && v'.slots == v.slots - {i} && v'.data == v.data - {i}
  }

  lemma RemovedSound(v: View, v': View, m: SlotMap, ino: nat)
    requires Sound(v) && ino in v.inodes && Removed(v, v', ino)
    requires Releasing(v.bits, v'.bits, v.start, v.slots, m, v'.owner, ino, 140, true)
    ensures Sound(v') && Free(v'.bits) == Free(v.bits) + BlocksIn(v.slots[ino])
  {
    hide Accounted, Lists, Backs;
    NoBlocksIn(m[ino]);
    assert m[ino] == Zeros(SLOTS);
    Leave(v'.bits, v.start, m, v'.owner, ino);
    assert m - {ino} == v.slots - {ino};
  }

  lemma ListOf(v: View, ino: nat)
    requires Sound(v) && ino in v.inodes
    ensures Accounts(v) && |v.inodes[ino].sectors| == 13 && ino in v.slots && |v.slots[ino]| == SLOTS
    ensures v.inodes[ino].sectors[12] == v.slots[ino][TABLE_SLOT]
    ensures forall k :: 0 <= k < 140 ==> AllBlocks(v.disk, v.inodes[ino])[k] == v.slots[ino][k]
  {
    InodeOf(v, ino);
    hide Sound, Backs, TableWord, AllBlocks;
    SoundAccounts(v);
  }

  /** inode_release: all blocks of the inode go back to the bitmap, and its number with them. */
  method InodeRelease(p: Partition, ino: nat)
    requires Sound(p.V()) && ino in p.V().inodes && ino < |p.ibits|
    modifies p`bits, p`dbits, p`slots, p`owner, p`inodes, p`data, p`ibits
    ensures Sound(p.V()) && Removed(old(p.V()), p.V(), ino) && p.ibits == old(p.ibits)[ino := false]
    ensures ino in old(p.V()).slots && Free(p.V().bits) == Free(old(p.V()).bits) + BlocksIn(old(p.V()).slots[ino])
    ensures old(p.dbits) == old(p.bits) ==> p.dbits == p.bits
  {
    hide *;
    ghost var v := p.V();
    p.Fields();
    ListOf(v, ino);
    AccountsIs(v);
    var bits, disk;
    ghost var m, owner;
    bits, disk, m, owner := FreeBlocks(p.bits, p.start, AllBlocks(p.disk, p.inodes[ino]), p.inodes[ino].sectors[12],
      p.slots, p.owner, ino, p.dbits);
    p.Drop(ino, bits, disk, owner);
    RemovedNow(v, p.V(), m, ino, bits, owner);
    RemovedSound(v, p.V(), m, ino);
  }

  lemma AccountsIs(v: View)
    requires Accounts(v)
    ensures Accounted(v.bits, v.start, v.slots, v.owner)
  {
  }

  lemma RemovedNow(v: View, v': View, m: SlotMap, ino: nat, bits: seq<bool>, owner: Owners)
    requires Releasing(v.bits, bits, v.start, v.slots, m, owner, ino, 140, true)
    requires v' == View(v.start, v.disk, bits, v.inodes - {ino}, v.slots - {ino}, owner, v.data - {ino})
    ensures Removed(v, v', ino) && v'.bits == bits && v'.owner == owner
  {
    hide Accounted;
  }
}
