/** Block accounting over the whole partition: every set bit of the block bitmap is one block of
    one live inode, and the numbers add up. */
module Accounting {
  import opened Bitmaps
  import opened Volume
  import opened Partitions
  import opened FileData
  import opened FileIo
  import opened DirData
  import opened Directories
  import opened DirTree
  import opened InodeOps
  import opened FsState
  import opened FileSystem

  /** Slot k of inode i holds block b. */
  ghost predicate HoldsBlock(m: SlotMap, i: nat, k: nat, b: int) {
    i in m && k < |m[i]| && m[i][k] == b
  }

  lemma MarkedIsHeld(bits: seq<bool>, start: nat, m: SlotMap, owner: Owners, b: int)
    requires Accounted(bits, start, m, owner) && start <= b < start + |bits|
    ensures bits[b - start] <==> exists i, k :: HoldsBlock(m, i, k, b)
  {
    if bits[b - start] {
      assert start + (b - start) in owner;
      assert HoldsBlock(m, owner[b].0, owner[b].1, b);
    }
  }

  lemma HeldOnce(bits: seq<bool>, start: nat, m: SlotMap, owner: Owners, b: int)
    requires Accounted(bits, start, m, owner) && b != 0
    ensures forall i, k, i', k' :: HoldsBlock(m, i, k, b) && HoldsBlock(m, i', k', b) ==> i == i' && k == k'
  {
  }

  /** The set bits of the block bitmap are exactly the disjoint union of the blocks that the live
      inodes list: their data blocks and their indirect tables. */
  lemma BitsAreBlocks(w: World, b: int)
    requires FsOk(w) && w.v.start <= b < w.v.start + |w.v.bits|
    ensures w.v.slots.Keys == w.tree.dirs + w.tree.files
    ensures w.v.bits[b - w.v.start] <==> exists i, k :: HoldsBlock(w.v.slots, i, k, b)
    ensures forall i, k, i', k' :: HoldsBlock(w.v.slots, i, k, b) && HoldsBlock(w.v.slots, i', k', b) ==>
        i == i' && k == k'
  {
    hide *;
    FsParts(w);
    BooksIn(w);
    StartPositive(w.v);
    MarkedIsHeld(w.v.bits, w.v.start, w.v.slots, w.v.owner, b);
    HeldOnce(w.v.bits, w.v.start, w.v.slots, w.v.owner, b);
  }

  lemma BooksIn(w: World)
    requires Sound(w.v) && Numbered(w.v, w.ibits, w.tree)
    ensures Accounts(w.v) && Accounted(w.v.bits, w.v.start, w.v.slots, w.v.owner)
    ensures w.v.slots.Keys == w.tree.dirs + w.tree.files && forall i :: i in w.v.slots ==> i < MAX_INODES
  {
    hide Lists, Backs, Accounted;
    assert forall i :: i in w.v.slots ==> i in w.v.inodes;
  }

  // ---------- the numbers ----------

  /** Blocks held by the inodes below n. */
  ghost function TotalBelow(m: SlotMap, n: nat): (t: nat) {
    if n == 0 then 0 else TotalBelow(m, n - 1) + if n - 1 in m then BlocksIn(m[n - 1]) else 0
  }

  lemma {:induction false} TotalSame(m: SlotMap, m': SlotMap, n: nat)
    requires forall i :: i < n ==> (i in m <==> i in m') && (i in m ==> m[i] == m'[i])
    ensures TotalBelow(m, n) == TotalBelow(m', n)
  {
    if n > 0 {
      TotalSame(m, m', n - 1);
    }
  }

  /** All blocks of inode i given back, from slot k on. */
  lemma {:induction false} ReleaseAll(bits: seq<bool>, start: nat, m: SlotMap, owner: Owners, i: nat, k: nat)
    returns (bits': seq<bool>, owner': Owners)
    requires Accounted(bits, start, m, owner) && i in m && k <= SLOTS && |m[i]| == SLOTS
      && forall q :: 0 <= q < k ==> m[i][q] == 0
    ensures |bits'| == |bits| && Accounted(bits', start, m - {i}, owner')
      && Count(bits') == Count(bits) - BlocksIn(m[i])
    decreases SLOTS - k
  {
    hide Accounted;
    if k == SLOTS {
      NoBlocksIn(m[i]);
      assert m[i] == Zeros(SLOTS);
      Leave(bits, start, m, owner, i);
      bits', owner' := bits, owner;
    } else if m[i][k] == 0 {
      bits', owner' := ReleaseAll(bits, start, m, owner, i, k + 1);
    } else {
      ReleaseStep(bits, start, m, owner, i, k);
      var m1 := m[i := m[i][k := 0]];
      bits', owner' := ReleaseAll(bits[m[i][k] - start := false], start, m1, owner - {m[i][k]}, i, k + 1);
      assert m1 - {i} == m - {i};
    }
  }

  lemma {:induction false} NoneSet(b: seq<bool>)
    requires forall j :: 0 <= j < |b| ==> !b[j]
    ensures Count(b) == 0
  {
    if |b| > 0 {
      NoneSet(b[..|b| - 1]);
    }
  }

  lemma {:induction false} CountIsTotal(bits: seq<bool>, start: nat, m: SlotMap, owner: Owners, n: nat)
    requires Accounted(bits, start, m, owner) && forall i :: i in m ==> i < n
    ensures Count(bits) == TotalBelow(m, n)
    decreases n
  {
    if n == 0 {
      assert forall j :: 0 <= j < |bits| ==> !bits[j];
      NoneSet(bits);
    } else {
      assert WellSized(m);
      hide Accounted;
      if n - 1 in m {
        var bits', owner' := ReleaseAll(bits, start, m, owner, n - 1, 0);
        CountIsTotal(bits', start, m - {n - 1}, owner', n - 1);
        TotalSame(m, m - {n - 1}, n - 1);
      } else {
        CountIsTotal(bits, start, m, owner, n - 1);
      }
    }
  }

  /** Nothing leaks: free blocks and the blocks of the live inodes are all the blocks there are. */
  lemma NothingLeaks(w: World)
    requires FsOk(w)
    ensures Free(w.v.bits) + TotalBelow(w.v.slots, MAX_INODES) == |w.v.bits|
  {
    hide FsOk, Files, DirsOk, RootFirst, Coupled, TreeOk, Sound, Numbered, Accounted;
    FsParts(w);
    BooksIn(w);
    CountIsTotal(w.v.bits, w.v.start, w.v.slots, w.v.owner, MAX_INODES);
  }

  // ---------- what one file or directory holds ----------

  /** The first n entries are set, the rest are not. */
  lemma {:induction false} FirstBlocks(s: seq<int>, n: nat)
    requires n <= |s| && (forall k :: 0 <= k < n ==> s[k] != 0) && (forall k :: n <= k < |s| ==> s[k] == 0)
    ensures BlocksIn(s) == n
  {
    if |s| > 0 {
      FirstBlocks(s[..|s| - 1], if n == |s| then n - 1 else n);
    }
  }

  /** A file holds one block more than its whole blocks once it has been written, and a table
      beyond twelve. */
  lemma FileBlocks(slots: seq<int>, size: nat)
    requires |slots| == SLOTS && FileShape(slots, size)
    ensures BlocksIn(slots) == Cost(BlockCount(slots, size))
  {
    var n := BlockCount(slots, size);
    assert slots[..140] == slots[..|slots| - 1];
    FirstBlocks(slots[..140], n);
  }

  /** The blocks of one inode and of all the others. */
  lemma {:induction false} TotalWithout(m: SlotMap, i: nat, n: nat)
    requires i in m && i < n
    ensures TotalBelow(m, n) == TotalBelow(m - {i}, n) + BlocksIn(m[i])
  {
    if i == n - 1 {
      TotalSame(m, m - {i}, n - 1);
    } else {
      TotalWithout(m, i, n - 1);
    }
  }

  /** Removing a file gives back exactly the blocks it held, which is what its writes took, and the
      directory's block when the entry was the last in it. */
  lemma UnlinkGivesBack(w: World, w': World, p: nat, name: Str, x: nat)
    requires FsOk(w) && x in w.bytes && Gone(w, w', p, name, x)
    ensures p in w.v.slots && p in w'.v.slots
    ensures x in w.v.slots && |w.v.slots[x]| == SLOTS
    ensures Free(w'.v.bits) + BlocksIn(w'.v.slots[p]) ==
            Free(w.v.bits) + BlocksIn(w.v.slots[p]) + Cost(BlockCount(w.v.slots[x], |w.bytes[x]|))
  {
    hide *;
    GoneIs(w, w', p, name, x);
    NothingLeaks(w);
    NothingLeaks(w');
    FsParts(w);
    FsParts(w');
    BooksIn(w);
    BooksIn(w');
    FileHolds(w, x);
    TotalWithout(w.v.slots, x, MAX_INODES);
    TotalWithout(w.v.slots - {x}, p, MAX_INODES);
    TotalWithout(w'.v.slots, p, MAX_INODES);
    assert w.v.slots - {x} - {p} == w.v.slots - {p, x};
  }

  lemma FileHolds(w: World, x: nat)
    requires Files(w.v, w.bytes) && x in w.bytes
    ensures x in w.v.slots && |w.v.slots[x]| == SLOTS
    ensures BlocksIn(w.v.slots[x]) == Cost(BlockCount(w.v.slots[x], |w.bytes[x]|))
  {
    FileBlocks(w.v.slots[x], |w.bytes[x]|);
    hide BlocksIn, FileShape, BlockCount;
  }

  lemma GoneIs(w: World, w': World, p: nat, name: Str, x: nat)
    requires Gone(w, w', p, name, x)
    ensures FsOk(w') && p != x && p in w.v.slots && p in w'.v.slots && |w'.v.bits| == |w.v.bits|
    ensures w'.v.slots - {p} == w.v.slots - {p, x}
  {
    hide FsOk, WithoutChild;
  }

  // ---------- back to the beginning ----------

  lemma RootAlone(w: World)
    requires FsOk(w) && w.tree.dirs == {0} && w.tree.files == {}
    ensures 0 in w.v.slots && |w.v.slots[0]| == SLOTS && w.v.slots[0][0] == w.v.start
    ensures forall k :: 1 <= k < SLOTS ==> w.v.slots[0][k] == 0
  {
    FsParts(w);
    RootIn(w);
    DirIn(w, 0);
    assert forall s :: s in w.tree.link ==> s.dir != 0 by {
      hide FsOk, Sound, Files, DirsOk, RootFirst, Coupled, Numbered, DirAt;
    }
    EmptyIsChildless(w, 0);
    EmptyDirHasOneBlock(w.v, 0, w.dirs[0]);
    hide FsOk, Sound, Files, DirsOk, Coupled, Numbered, TreeOk;
    hide DirOk, GridIs, Backs;
  }

  /** However the file system came there: once nothing but the root is left, every block but the
      root's own is free again. */
  lemma BlankAgain(w: World, b: int)
    requires FsOk(w) && w.tree.dirs == {0} && w.tree.files == {} && w.v.start <= b < w.v.start + |w.v.bits|
    ensures w.v.bits[b - w.v.start] <==> b == w.v.start
  {
    hide *;
    BitsAreBlocks(w, b);
    RootAlone(w);
    FsParts(w);
    BooksIn(w);
    StartPositive(w.v);
    RootHolds(w.v.slots, w.v.start, b);
  }

  lemma RootHolds(m: SlotMap, start: int, b: int)
    requires m.Keys == {0} && |m[0]| == SLOTS && m[0][0] == start && (forall k :: 1 <= k < SLOTS ==> m[0][k] == 0)
      && b != 0
    ensures (exists i, k :: HoldsBlock(m, i, k, b)) <==> b == start
  {
    assert HoldsBlock(m, 0, 0, start);
    if i: nat, k: nat :| HoldsBlock(m, i, k, b) {
      assert i in m.Keys;
    }
  }
}
