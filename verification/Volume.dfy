/** Blocks of one partition: the disk, the block bitmap and who owns which block.
    A block address of 0 means "no block".  */
module Volume {
  import opened Words
  import opened Bitmaps

  const TABLE_SLOT := 140     // slot number we give to i_sectors[12], the indirect table
  const SLOTS := 141          // 12 direct blocks, 128 indirect blocks and the table

  type Disk = map<int, Sector>

  /** The fields of struct inode that reach the disk: i_size and i_sectors[13]. */
  datatype Inode = Inode(size: int, sectors: seq<int>)

  function ZeroSector(): (s: Sector) {
    seq(512, _ => 0)
  }

  /** ide_read of one sector. */
  function Sec(disk: Disk, lba: int): (s: Sector) {
    if lba in disk then disk[lba] else ZeroSector()
  }

  /** Word i of the indirect table in sector t; no table reads as no blocks. */
  function TableWord(disk: Disk, t: int, i: nat): (w: int)
    requires i < 128
  {
    if t == 0 then 0 else WordAt(Sec(disk, t), i)
  }

  /** s lists every block address an inode holds: 12 direct, 128 indirect, the table itself. */
  ghost predicate Lists(disk: Disk, ind: Inode, s: seq<int>) {
    && |ind.sectors| == 13 && |s| == SLOTS && s[TABLE_SLOT] == ind.sectors[12]
    && (forall k :: 0 <= k < 12 ==> s[k] == ind.sectors[k])
    && (forall k :: 12 <= k < 140 ==> s[k] == TableWord(disk, ind.sectors[12], k - 12))
  }

  /** The sector behind an address; an empty slot reads as zeros. */
  function Behind(disk: Disk, b: int): (s: Sector) {
    if b == 0 then ZeroSector() else Sec(disk, b)
  }

  /** d is the data behind the 140 data slots of block list s. */
  ghost predicate Backs(disk: Disk, s: seq<int>, d: seq<Sector>) {
    |s| == SLOTS && |d| == 140 && forall k :: 0 <= k < 140 ==> d[k] == Behind(disk, s[k])
  }

  /** The 140 block addresses, as the loops of dir.c, fs.c and inode_release collect them. */
  function AllBlocks(disk: Disk, ind: Inode): (all: seq<int>)
    requires |ind.sectors| == 13
    ensures |all| == 140 && (forall k :: 0 <= k < 12 ==> all[k] == ind.sectors[k])
    ensures forall k :: 12 <= k < 140 ==> all[k] == TableWord(disk, ind.sectors[12], k - 12)
  {
    seq(140, k requires 0 <= k < 140 => if k < 12 then ind.sectors[k] else TableWord(disk, ind.sectors[12], k - 12))
  }

  function Zeros(n: nat): (z: seq<int>)
    ensures |z| == n && forall k :: 0 <= k < n ==> z[k] == 0
  {
    seq(n, _ => 0)
  }

  // ---------- ownership of blocks ----------

  type SlotMap = map<nat, seq<int>>
  type Owners = map<int, (nat, int)>

  ghost predicate WellSized(m: SlotMap) {
    forall i :: i in m ==> |m[i]| == SLOTS
  }

  /** Every block an inode holds is recorded as owned by that inode and that slot alone. */
  ghost predicate Recorded(m: SlotMap, owner: Owners)
    requires WellSized(m)
  {
    forall i, k :: i in m && 0 <= k < SLOTS && m[i][k] != 0 ==>
      m[i][k] in owner && owner[m[i][k]] == (i, k)
  }

  /** Every recorded block is really held. */
  ghost predicate Held(m: SlotMap, owner: Owners)
    requires WellSized(m)
  {
    forall b :: b in owner ==>
      b != 0 && owner[b].0 in m && 0 <= owner[b].1 < SLOTS && m[owner[b].0][owner[b].1] == b
  }

  /** The set bits of the block bitmap are exactly the owned blocks. */
  ghost predicate Marked(bits: seq<bool>, start: nat, owner: Owners) {
    && (forall b :: b in owner ==> start <= b < start + |bits| && bits[b - start])
    && (forall j :: 0 <= j < |bits| && bits[j] ==> start + j in owner)
  }

  ghost predicate Accounted(bits: seq<bool>, start: nat, m: SlotMap, owner: Owners) {
    0 < start && start + |bits| <= U32_LIMIT && WellSized(m) && Recorded(m, owner) && Held(m, owner)
      && Marked(bits, start, owner)
  }

  /** A clear bit's block goes to slot k of inode i. */
  lemma Claim(bits: seq<bool>, start: nat, m: SlotMap, owner: Owners, i: nat, k: nat, b: int)
    requires Accounted(bits, start, m, owner)
    requires i in m && k < SLOTS && m[i][k] == 0 && start <= b < start + |bits| && !bits[b - start]
    ensures 0 < b < U32_LIMIT && b !in owner
    ensures Accounted(bits[b - start := true], start, m[i := m[i][k := b]], owner[b := (i, k)])
  {
    assert b !in owner;
    var m' := m[i := m[i][k := b]];
    var owner' := owner[b := (i, k)];
    assert Recorded(m', owner') by {
      forall p, q | p in m' && 0 <= q < SLOTS && m'[p][q] != 0
        ensures m'[p][q] in owner' && owner'[m'[p][q]] == (p, q)
      {
        if p != i || q != k {
          assert m'[p][q] == m[p][q];
        }
      }
    }
  }

  /** Slot k of inode i gives its block back. */
  lemma Release(bits: seq<bool>, start: nat, m: SlotMap, owner: Owners, i: nat, k: nat)
    requires Accounted(bits, start, m, owner)
    requires i in m && k < SLOTS && m[i][k] != 0
    ensures start <= m[i][k] < start + |bits|
    ensures Accounted(bits[m[i][k] - start := false], start, m[i := m[i][k := 0]], owner - {m[i][k]})
  {
    var b := m[i][k];
    assert b in owner && owner[b] == (i, k);
    var m' := m[i := m[i][k := 0]];
    var owner' := owner - {b};
    assert Recorded(m', owner') by {
      forall p, q | p in m' && 0 <= q < SLOTS && m'[p][q] != 0
        ensures m'[p][q] in owner' && owner'[m'[p][q]] == (p, q)
      {
        assert m'[p][q] == m[p][q];
      }
    }
    assert Held(m', owner') by {
      forall c | c in owner'
        ensures c != 0 && owner'[c].0 in m' && 0 <= owner'[c].1 < SLOTS && m'[owner'[c].0][owner'[c].1] == c
      {
        assert c in owner && c != b;
      }
    }
  }

  /** An inode that holds nothing can come. */
  lemma Enter(bits: seq<bool>, start: nat, m: SlotMap, owner: Owners, i: nat)
    requires Accounted(bits, start, m, owner) && i !in m
    ensures Accounted(bits, start, m[i := Zeros(SLOTS)], owner)
  {
    var m' := m[i := Zeros(SLOTS)];
    forall p, q | p in m' && 0 <= q < SLOTS && m'[p][q] != 0
      ensures m'[p][q] in owner && owner[m'[p][q]] == (p, q)
    {
      assert m'[p][q] == m[p][q];
    }
  }

  /** An inode that holds nothing can go. */
  lemma Leave(bits: seq<bool>, start: nat, m: SlotMap, owner: Owners, i: nat)
    requires Accounted(bits, start, m, owner) && i in m && m[i] == Zeros(SLOTS)
    ensures Accounted(bits, start, m - {i}, owner)
  {
  }

  /** Two holders of the same block are the same slot of the same inode. */
  lemma OneHolder(bits: seq<bool>, start: nat, m: SlotMap, owner: Owners, i: nat, k: nat, i': nat, k': nat)
    requires Accounted(bits, start, m, owner)
    requires i in m && i' in m && k < SLOTS && k' < SLOTS && m[i][k] == m[i'][k'] != 0
    ensures i == i' && k == k'
  {
  }

  // ---------- writing sectors ----------

  /** Writing a block of inode i leaves the data of inode j alone, except at the slot written. */
  lemma WriteKeepsData(bits: seq<bool>, start: nat, m: SlotMap, owner: Owners, disk: Disk, i: nat, k: nat, s: Sector,
                       j: nat, d: seq<Sector>)
    requires Accounted(bits, start, m, owner) && i in m && k < SLOTS && m[i][k] != 0
    requires j in m && Backs(disk, m[j], d)
    ensures j != i || k == TABLE_SLOT ==> Backs(disk[m[i][k] := s], m[j], d)
    ensures j == i && k < 140 ==> Backs(disk[m[i][k] := s], m[j], d[k := s])
  {
    assert owner[m[i][k]] == (i, k);
    assert forall q :: 0 <= q < 140 && m[j][q] != 0 ==> owner[m[j][q]] == (j, q);
  }

  /** Writing a block of inode i leaves the block list of inode j alone, unless it is j's table. */
  lemma WriteKeepsList(bits: seq<bool>, start: nat, m: SlotMap, owner: Owners, disk: Disk, i: nat, k: nat, s: Sector,
                       j: nat, ind: Inode)
    requires Accounted(bits, start, m, owner) && i in m && k < SLOTS && m[i][k] != 0
    requires j in m && Lists(disk, ind, m[j]) && (j != i || k < 140)
    ensures Lists(disk[m[i][k] := s], ind, m[j])
  {
    var t := ind.sectors[12];
    assert owner[m[i][k]] == (i, k);
    assert t != 0 ==> owner[m[j][TABLE_SLOT]] == (j, TABLE_SLOT);
    assert t != 0 ==> Sec(disk[m[i][k] := s], t) == Sec(disk, t);
  }

  /** Writing the indirect words of a list into its table sector makes it the list on disk. */
  lemma WriteTable(disk: Disk, ind: Inode, s: seq<int>, sec: Sector)
    requires |ind.sectors| == 13 && |s| == SLOTS && ind.sectors[12] == s[TABLE_SLOT] != 0
    requires forall k :: 0 <= k < 12 ==> s[k] == ind.sectors[k]
    requires forall k :: 0 <= k < SLOTS ==> IsU32(s[k])
    requires sec == TableBytes(s[12..140])
    ensures Lists(disk[ind.sectors[12] := sec], ind, s)
  {
    forall k | 12 <= k < 140 ensures s[k] == WordAt(sec, k - 12) {
      WordAtTable(s[12..140], k - 12);
    }
  }
}
