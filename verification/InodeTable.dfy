/** The inode table on disk (fs/inode.c): 4096 records of 76 bytes packed over 608 sectors, and the
    list of open inodes in front of it. */
module InodeTable {
  import opened Words
  import opened Volume

  const INODE_SIZE := 76
  const TABLE_SECTORS := 608     // 4096 * 76 / 512
  const MAX_INO := 4096

  /** struct inode in memory. */
  datatype MemInode = MemInode(no: int, size: int, opens: int, deny: bool, sectors: seq<int>)

  predicate Storable(i: MemInode) {
    0 <= i.no < MAX_INO && IsU32(i.size) && |i.sectors| == 13 && forall k :: 0 <= k < 13 ==> IsU32(i.sectors[k])
  }

  /** The words inode_sync writes: open count, write_deny and the list links are zeroed. */
  function Words19(i: MemInode): (ws: seq<int>)
    requires |i.sectors| == 13
    ensures |ws| == 19
  {
    [i.no, i.size, 0, 0] + i.sectors + [0, 0]
  }

  function Image(i: MemInode): (bytes: seq<Byte>)
    requires |i.sectors| == 13
    ensures |bytes| == INODE_SIZE
  {
    TableBytes(Words19(i))
  }

  /** The record a reader sees in 76 bytes. */
  function FromBytes(bytes: seq<Byte>): (i: MemInode)
    requires |bytes| == INODE_SIZE
  {
    MemInode(WordAt(bytes, 0), WordAt(bytes, 1), WordAt(bytes, 2), WordAt(bytes, 3) != 0,
             seq(13, k requires 0 <= k < 13 => WordAt(bytes, 4 + k)))
  }

  lemma ImageRoundTrip(i: MemInode)
    requires Storable(i)
    ensures FromBytes(Image(i)) == i.(opens := 0, deny := false)
  {
    var ws := Words19(i);
    forall k | 0 <= k < 19 ensures WordAt(TableBytes(ws), k) == ws[k] {
      assert IsU32(ws[k]);
      WordAtTable(ws, k);
    }
    hide TableBytes, WordAt;
    assert FromBytes(Image(i)).sectors == i.sectors;
  }

  // ---------- the table as one string of bytes ----------

  /** Byte r of table sector q; it is byte 512 * q + r of the table. */
  ghost function ByteAt(disk: Disk, lba: int, q: int, r: int): (b: int) {
    if 0 <= r < 512 then Sec(disk, lba + q)[r] else 0
  }

  ghost function Patched(at: nat, b: seq<Byte>, a: int, was: int): (now: int) {
    if at <= a < at + |b| then b[a - at] else was
  }

  /** From disk to disk' the table's bytes from `at` on became b; the rest of the table and every
      sector outside it are as before. */
  ghost predicate Overwritten(disk: Disk, disk': Disk, lba: int, at: nat, b: seq<Byte>) {
    && (forall q, r :: 0 <= q < TABLE_SECTORS && 0 <= r < 512 ==>
          ByteAt(disk', lba, q, r) == Patched(at, b, 512 * q + r, ByteAt(disk, lba, q, r)))
    && (forall s :: !(lba <= s < lba + TABLE_SECTORS) ==> Sec(disk', s) == Sec(disk, s))
  }

  lemma SecUpdate(disk: Disk, x: int, s: Sector, y: int)
    ensures Sec(disk[x := s], y) == if y == x then s else Sec(disk, y)
  {
  }

  lemma SpliceByte(buf: seq<Byte>, off: nat, b: seq<Byte>, r: nat)
    requires off + |b| <= |buf| && r < |buf|
    ensures Splice(buf, off, b)[r] == Patched(off, b, r, buf[r])
  {
  }

  lemma OneByte(disk: Disk, lba: int, sec: nat, off: nat, b: seq<Byte>, q: int, r: int)
    requires off + |b| <= 512 && 0 <= q && 0 <= r < 512
    ensures ByteAt(disk[lba + sec := Splice(Sec(disk, lba + sec), off, b)], lba, q, r) ==
            Patched(512 * sec + off, b, 512 * q + r, ByteAt(disk, lba, q, r))
  {
    var s := Sec(disk, lba + sec);
    SecUpdate(disk, lba + sec, Splice(s, off, b), lba + q);
    SpliceByte(s, off, b, r);
    hide Sec, Splice;
    if q != sec {
      assert 512 * q + r < 512 * sec || 512 * q + r >= 512 * sec + 512;
    }
  }

  lemma WriteOne(disk: Disk, lba: int, sec: nat, off: nat, b: seq<Byte>)
    requires sec < TABLE_SECTORS && off + |b| <= 512
    ensures Overwritten(disk, disk[lba + sec := Splice(Sec(disk, lba + sec), off, b)], lba, 512 * sec + off, b)
  {
    hide Splice, Sec, ByteAt, Patched;
    var disk' := disk[lba + sec := Splice(Sec(disk, lba + sec), off, b)];
    forall q, r | 0 <= q < TABLE_SECTORS && 0 <= r < 512
      ensures ByteAt(disk', lba, q, r) == Patched(512 * sec + off, b, 512 * q + r, ByteAt(disk, lba, q, r))
    {
      OneByte(disk, lba, sec, off, b, q, r);
    }
    forall s | !(lba <= s < lba + TABLE_SECTORS) ensures Sec(disk', s) == Sec(disk, s) {
      SecUpdate(disk, lba + sec, Splice(Sec(disk, lba + sec), off, b), s);
    }
  }

  /** ide_write of two sectors. */
  function Write2(disk: Disk, lba: int, buf: seq<Byte>): (disk': Disk)
    requires |buf| == 1024
  {
    disk[lba := buf[..512]][lba + 1 := buf[512..]]
  }

  lemma Write2At(disk: Disk, lba: int, buf: seq<Byte>, y: int)
    requires |buf| == 1024
    ensures Sec(Write2(disk, lba, buf), y) ==
      if y == lba then buf[..512] else if y == lba + 1 then buf[512..] else Sec(disk, y)
  {
  }

  lemma TwoBytes(disk: Disk, lba: int, sec: nat, off: nat, b: seq<Byte>, q: int, r: int)
    requires off + |b| <= 1024 && 0 <= q && 0 <= r < 512
    ensures var buf := Splice(Sec(disk, lba + sec) + Sec(disk, lba + sec + 1), off, b);
            ByteAt(Write2(disk, lba + sec, buf), lba, q, r) ==
              Patched(512 * sec + off, b, 512 * q + r, ByteAt(disk, lba, q, r))
  {
    var both := Sec(disk, lba + sec) + Sec(disk, lba + sec + 1);
    var buf := Splice(both, off, b);
    Write2At(disk, lba + sec, buf, lba + q);
    SpliceByte(both, off, b, r);
    SpliceByte(both, off, b, 512 + r);
    hide Sec, Splice, Write2;
    if q != sec && q != sec + 1 {
      assert 512 * q + r < 512 * sec || 512 * q + r >= 512 * sec + 1024;
    }
  }

  lemma WriteTwo(disk: Disk, lba: int, sec: nat, off: nat, b: seq<Byte>)
    requires sec + 1 < TABLE_SECTORS && off + |b| <= 1024
    ensures var buf := Splice(Sec(disk, lba + sec) + Sec(disk, lba + sec + 1), off, b);
      Overwritten(disk, Write2(disk, lba + sec, buf), lba, 512 * sec + off, b)
  {
    hide Splice, Sec, ByteAt, Patched, Write2;
    var buf := Splice(Sec(disk, lba + sec) + Sec(disk, lba + sec + 1), off, b);
    var disk' := Write2(disk, lba + sec, buf);
    forall q, r | 0 <= q < TABLE_SECTORS && 0 <= r < 512
      ensures ByteAt(disk', lba, q, r) == Patched(512 * sec + off, b, 512 * q + r, ByteAt(disk, lba, q, r))
    {
      TwoBytes(disk, lba, sec, off, b, q, r);
    }
    forall s | !(lba <= s < lba + TABLE_SECTORS) ensures Sec(disk', s) == Sec(disk, s) {
      Write2At(disk, lba + sec, buf, s);
    }
  }

  /** inode_locate: where record no starts, and whether it runs into the next sector. */
  method Locate(lba: int, no: nat) returns (two: bool, secLba: int, off: nat)
    requires no < MAX_INO
    ensures secLba - lba >= 0 && 512 * (secLba - lba) + off == INODE_SIZE * no && off < 512
    ensures two <==> off + INODE_SIZE > 512
    ensures secLba + (if two then 1 else 0) < lba + TABLE_SECTORS
  {
    var at := no * INODE_SIZE;
    off := at % 512;
    two := 512 - off < INODE_SIZE;
    secLba := lba + at / 512;
  }

  /** A buffer of one sector, as file_write hands to inode_sync, is large enough for inode no exactly when
      its record stays in one sector.  Inode 6 is the first whose record does not, and it comes back
      every 128 numbers. */
  lemma OneSectorBuffer(no: nat)
    ensures (INODE_SIZE * no) % 512 + INODE_SIZE <= 512 <==> (19 * no) % 128 < 110
    ensures no < 6 ==> (19 * no) % 128 < 110
    ensures no % 128 == 6 ==> (19 * no) % 128 == 114
  {
    var q, r := (19 * no) / 128, (19 * no) % 128;
    assert INODE_SIZE * no == 4 * (19 * no) == 512 * q + 4 * r;
    Within(q, 4 * r);
    if no % 128 == 6 {
      assert 19 * no == 128 * (19 * (no / 128)) + 114;
    }
  }

  lemma Within(q: nat, a: nat)
    requires a < 512
    ensures (512 * q + a) % 512 == a
  {
  }

  // ---------- records ----------

  /** The 76 bytes of record no are x. */
  ghost predicate RecordIs(disk: Disk, lba: int, no: nat, x: seq<Byte>) {
    && |x| == INODE_SIZE
    && forall q, r :: 0 <= q < TABLE_SECTORS && 0 <= r < 512 && 0 <= 512 * q + r - INODE_SIZE * no < INODE_SIZE ==>
         ByteAt(disk, lba, q, r) == x[512 * q + r - INODE_SIZE * no]
  }

  /** Overwriting one record makes it that record and leaves every other alone. */
  lemma RecordsAfter(disk: Disk, disk': Disk, lba: int, no: nat, b: seq<Byte>, n: nat, x: seq<Byte>)
    requires |b| == INODE_SIZE && Overwritten(disk, disk', lba, INODE_SIZE * no, b)
    ensures RecordIs(disk', lba, no, b)
    ensures n != no && RecordIs(disk, lba, n, x) ==> RecordIs(disk', lba, n, x)
  {
    hide ByteAt;
    assert n != no ==> INODE_SIZE * n >= INODE_SIZE * no + INODE_SIZE || INODE_SIZE * no >= INODE_SIZE * n + INODE_SIZE;
  }

  /** What a reader finds at the place inode_locate names. */
  lemma ReadRecord(disk: Disk, lba: int, no: nat, x: seq<Byte>, sec: nat, off: nat)
    requires RecordIs(disk, lba, no, x) && 512 * sec + off == INODE_SIZE * no && off < 512
    requires sec + (if off + INODE_SIZE > 512 then 1 else 0) < TABLE_SECTORS
    ensures var buf := Sec(disk, lba + sec) + Sec(disk, lba + sec + 1); buf[off .. off + INODE_SIZE] == x
    ensures off + INODE_SIZE <= 512 ==> Sec(disk, lba + sec)[off .. off + INODE_SIZE] == x
  {
    hide Sec;
    var buf := Sec(disk, lba + sec) + Sec(disk, lba + sec + 1);
    forall j | 0 <= j < INODE_SIZE ensures buf[off + j] == x[j] {
      if off + j < 512 {
        assert ByteAt(disk, lba, sec, off + j) == x[j];
      } else {
        assert ByteAt(disk, lba, sec + 1, off + j - 512) == x[j];
      }
    }
  }

  /** The read, modify and write cycle of inode_sync and inode_delete. */
  method PutRecord(was: Disk, lba: int, no: nat, b: seq<Byte>, limit: int) returns (disk: Disk)
    requires no < MAX_INO && |b| == INODE_SIZE && lba + TABLE_SECTORS <= limit
    ensures Overwritten(was, disk, lba, INODE_SIZE * no, b) && RecordIs(disk, lba, no, b)
  {
    Sizes();
    hide *;
    var two, at, off := Locate(lba, no);
    assert at <= limit;                        // the assertions of inode.c:48 and inode.c:140
    if two {
      WriteTwo(was, lba, at - lba, off, b);
      disk := Write2(was, at, Splice(Sec(was, at) + Sec(was, at + 1), off, b));
    } else {
      WriteOne(was, lba, at - lba, off, b);
      disk := was[at := Splice(Sec(was, at), off, b)];
    }
    RecordsAfter(was, disk, lba, no, b, no, b);
  }

  // ---------- the list of open inodes ----------

  ghost predicate Distinct(open: seq<MemInode>) {
    && (forall k :: 0 <= k < |open| ==> open[k].opens > 0)
    && (forall k, l :: 0 <= k < l < |open| ==> open[k].no != open[l].no)
  }

  /** How often inode no is open. */
  function OpenCount(open: seq<MemInode>, no: int): (n: int) {
    if open == [] then 0 else if open[0].no == no then open[0].opens else OpenCount(open[1..], no)
  }

  lemma {:induction false} CountAt(open: seq<MemInode>, k: nat, no: int)
    requires k <= |open| && (forall l :: 0 <= l < k ==> open[l].no != no) && (k < |open| ==> open[k].no == no)
    ensures OpenCount(open, no) == if k < |open| then open[k].opens else 0
  {
    if k > 0 {
      CountAt(open[1..], k - 1, no);
    }
  }

  lemma {:induction false} CountOther(open: seq<MemInode>, k: nat, i: MemInode, no: int)
    requires k < |open| && open[k].no == i.no != no
    ensures OpenCount(open[k := i], no) == OpenCount(open, no)
    ensures OpenCount(open[..k] + open[k + 1..], no) == OpenCount(open, no)
  {
    if k == 0 {
      assert open[0 := i][1..] == open[1..];
      assert open[..0] + open[1..] == open[1..];
    } else {
      CountOther(open[1..], k - 1, i, no);
      assert open[k := i][1..] == open[1..][k - 1 := i];
      var cut := open[..k] + open[k + 1..];
      assert cut[0] == open[0] && cut[1..] == open[1..][..k - 1] + open[1..][k..];
    }
  }

  class Table {
    const lba: int                 // sb->inode_table_lba
    const limit: int               // start_lba + sec_cnt
    var disk: Disk
    var open: seq<MemInode>        // open_inodes, front first

    constructor (lba: int, limit: int)
      ensures this.lba == lba && this.limit == limit && disk == map[] && open == []
    {
      this.lba, this.limit, disk, open := lba, limit, map[], [];
    }

    /** inode_sync: exactly the 76 bytes of the record change. */
    method Sync(i: MemInode)
      requires Storable(i) && lba + TABLE_SECTORS <= limit
      modifies `disk
      ensures Overwritten(old(disk), disk, lba, INODE_SIZE * i.no, Image(i)) && RecordIs(disk, lba, i.no, Image(i))
    {
      Put(i.no, Image(i));
    }

    /** inode_delete: the record becomes zeros. */
    method Delete(no: nat)
      requires no < MAX_INO && lba + TABLE_SECTORS <= limit
      modifies `disk
      ensures Overwritten(old(disk), disk, lba, INODE_SIZE * no, seq(INODE_SIZE, _ => 0))
    {
      Put(no, seq(INODE_SIZE, _ => 0));
    }

    /** The read, modify and write cycle of both. */
    method Put(no: nat, b: seq<Byte>)
      requires no < MAX_INO && |b| == INODE_SIZE && lba + TABLE_SECTORS <= limit
      modifies `disk
      ensures Overwritten(old(disk), disk, lba, INODE_SIZE * no, b) && RecordIs(disk, lba, no, b)
    {
      disk := PutRecord(disk, lba, no, b, limit);
    }

    /** inode_open: an open inode is counted once more, any other is read from its record and put
        in front with a count of 1. */
    method Open(no: nat, ghost x: seq<Byte>) returns (r: MemInode)
      requires no < MAX_INO && Distinct(open) && RecordIs(disk, lba, no, x) && FromBytes(x).no == no
      modifies `open
      ensures Distinct(open) && r in open && r.no == no && CountsChanged(old(open), open, no, 1)
      ensures OpenCount(old(open), no) == 0 ==> r == FromBytes(x).(opens := 1) && open == [r] + old(open)
      ensures OpenCount(old(open), no) > 0 ==> OpenedAgain(old(open), open, r)
    {
      hide *;
      var k := Find(no);
      FoundCount(open, k, no);
      if k < |open| {
        r := open[k].(opens := open[k].opens + 1);
        CountAgain(open, k, r);
        AgainIs(open, k, r);
        open := open[k := r];
        assert open[k] == r;
      } else {
        r := Load(no, x);
        CountNew(open, r);
        open := [r] + open;
        assert open[0] == r;
      }
    }

    /** The record read from disk, over one sector or two. */
    method Load(no: nat, ghost x: seq<Byte>) returns (r: MemInode)
      requires no < MAX_INO && RecordIs(disk, lba, no, x)
      ensures |x| == INODE_SIZE && r == FromBytes(x).(opens := 1)
    {
      Sizes();
      assert |x| == INODE_SIZE;
      hide *;
      var two, at, off := Locate(lba, no);
      ReadRecord(disk, lba, no, x, at - lba, off);
      var buf := Sec(disk, at);
      if two {
        buf := buf + Sec(disk, at + 1);
      }
      r := FromBytes(buf[off .. off + INODE_SIZE]).(opens := 1);
    }

    /** The search through the list. */
    method Find(no: nat) returns (k: nat)
      ensures k <= |open| && (forall l :: 0 <= l < k ==> open[l].no != no) && (k < |open| ==> open[k].no == no)
    {
      k := 0;
      while k < |open| && open[k].no != no
        invariant 0 <= k <= |open| && forall l :: 0 <= l < k ==> open[l].no != no
      {
        k := k + 1;
      }
    }

    /** inode_close: the last close takes the inode off the list. */
    method Close(no: nat)
      requires Distinct(open) && OpenCount(open, no) > 0
      modifies `open
      ensures Distinct(open) && CountsChanged(old(open), open, no, -1) && ClosedOnce(old(open), open, no)
    {
      var k := Find(no);
      FoundCount(open, k, no);
      var i := open[k].(opens := open[k].opens - 1);
      CountLess(open, k, i);
      open := if i.opens == 0 then open[..k] + open[k + 1..] else open[k := i];
    }
  }

  /** The inode was in the list and is the same but for its count; so is the rest of the list. */
  ghost predicate OpenedAgain(open: seq<MemInode>, open': seq<MemInode>, r: MemInode) {
    exists k :: 0 <= k < |open| && r == open[k].(opens := open[k].opens + 1) && open' == open[k := r]
  }

  /** One inode of that number counts one less, or is gone with its last count; the rest of the list stays. */
  ghost predicate ClosedOnce(open: seq<MemInode>, open': seq<MemInode>, no: int) {
    exists k :: 0 <= k < |open| && open[k].no == no &&
      open' == if open[k].opens == 1 then open[..k] + open[k + 1..] else open[k := open[k].(opens := open[k].opens - 1)]
  }

  /** Inode no is open by `more` more; all others as often as before. */
  ghost predicate CountsChanged(open: seq<MemInode>, open': seq<MemInode>, no: int, more: int) {
    && OpenCount(open', no) == OpenCount(open, no) + more
    && forall n :: n != no ==> OpenCount(open', n) == OpenCount(open, n)
  }

  lemma AgainIs(open: seq<MemInode>, k: nat, r: MemInode)
    requires k < |open| && r == open[k].(opens := open[k].opens + 1)
    ensures OpenedAgain(open, open[k := r], r)
  {
  }

  lemma FoundCount(open: seq<MemInode>, k: nat, no: int)
    requires Distinct(open) && k <= |open| && (forall l :: 0 <= l < k ==> open[l].no != no)
      && (k < |open| ==> open[k].no == no)
    ensures OpenCount(open, no) == (if k < |open| then open[k].opens else 0)
      && (k < |open| <==> OpenCount(open, no) > 0)
  {
    CountAt(open, k, no);
  }

  lemma CountAgain(open: seq<MemInode>, k: nat, i: MemInode)
    requires Distinct(open) && k < |open| && i == open[k].(opens := open[k].opens + 1)
    ensures Distinct(open[k := i]) && CountsChanged(open, open[k := i], i.no, 1)
  {
    FoundCount(open, k, i.no);
    FoundCount(open[k := i], k, i.no);
    forall n | n != i.no ensures OpenCount(open[k := i], n) == OpenCount(open, n) {
      CountOther(open, k, i, n);
    }
  }

  lemma CountNew(open: seq<MemInode>, i: MemInode)
    requires Distinct(open) && OpenCount(open, i.no) == 0 && i.opens == 1
    ensures Distinct([i] + open) && CountsChanged(open, [i] + open, i.no, 1)
  {
    assert ([i] + open)[1..] == open;
    forall k | 0 <= k < |open| ensures open[k].no != i.no {
      FoundCount(open, k, open[k].no);
    }
  }

  lemma CountLess(open: seq<MemInode>, k: nat, i: MemInode)
    requires Distinct(open) && k < |open| && i == open[k].(opens := open[k].opens - 1)
    ensures var open' := if i.opens == 0 then open[..k] + open[k + 1..] else open[k := i];
            Distinct(open') && CountsChanged(open, open', i.no, -1)
  {
    var open' := if i.opens == 0 then open[..k] + open[k + 1..] else open[k := i];
    FoundCount(open, k, i.no);
    FoundCount(open', if i.opens == 0 then |open'| else k, i.no);
    forall n | n != i.no ensures OpenCount(open', n) == OpenCount(open, n) {
      CountOther(open, k, i, n);
    }
  }

  lemma Sizes()
    ensures INODE_SIZE == 76 && TABLE_SECTORS == 608 && MAX_INO == 4096
  {
  }

  // ---------- runs of inode_sync and inode_delete ----------

  datatype RecordWrite = RecordWrite(no: nat, bytes: seq<Byte>)

  /** The disks before and after each of a series of record writes. */
  ghost predicate WriteRun(disks: seq<Disk>, lba: int, ws: seq<RecordWrite>) {
    && |disks| == |ws| + 1
    && forall k :: 0 <= k < |ws| ==>
         |ws[k].bytes| == INODE_SIZE && Overwritten(disks[k], disks[k + 1], lba, INODE_SIZE * ws[k].no, ws[k].bytes)
  }

  lemma {:induction false} LaterWrites(disks: seq<Disk>, lba: int, ws: seq<RecordWrite>, k: nat, n: nat)
    requires WriteRun(disks, lba, ws) && k < n < |disks|
    requires forall l :: k < l < n ==> ws[l].no != ws[k].no
    ensures RecordIs(disks[n], lba, ws[k].no, ws[k].bytes)
    decreases n
  {
    hide Overwritten, RecordIs;
    var l := n - 1;
    assert Overwritten(disks[l], disks[l + 1], lba, INODE_SIZE * ws[l].no, ws[l].bytes);
    if k < l {
      LaterWrites(disks, lba, ws, k, l);
    }
    RecordsAfter(disks[l], disks[l + 1], lba, ws[l].no, ws[l].bytes, ws[k].no, ws[k].bytes);
  }

  /** Whatever else was synced or deleted since inode i was, an uncached inode_open of its number
      returns the same number, size and block addresses, open once and writable. */
  lemma SyncThenOpen(disks: seq<Disk>, lba: int, ws: seq<RecordWrite>, k: nat, i: MemInode)
    requires WriteRun(disks, lba, ws) && k < |ws| && Storable(i) && ws[k] == RecordWrite(i.no, Image(i))
    requires forall l :: k < l < |ws| ==> ws[l].no != i.no
    ensures RecordIs(disks[|ws|], lba, i.no, Image(i))
    ensures FromBytes(Image(i)).no == i.no && FromBytes(Image(i)).(opens := 1) == i.(opens := 1, deny := false)
  {
    hide Overwritten, RecordIs, Image, FromBytes;
    LaterWrites(disks, lba, ws, k, |ws|);
    ImageRoundTrip(i);
  }
}
