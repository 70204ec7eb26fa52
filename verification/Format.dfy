/** partition_format (fs/fs.c): how a partition is divided, and the block bitmap it starts with. */
module Format {
  import opened Bitmaps

  const BITS_PER_SECTOR := 4096
  const META := 611              // boot block, super block, inode bitmap and the 608 sectors of the inode table

  function DivUp(a: int, b: int): (q: int)
    requires b > 0
  {
    (a + b - 1) / b
  }

  /** Sectors left for bitmap and data; the first guess at the bitmap's size; the bits used; the
      bitmap's size from these. */
  datatype Layout = Layout(free: int, guess: int, bitLen: int, sects: int)

  function LayoutOf(secCnt: int): (l: Layout) {
    var free := secCnt - META;
    var guess := DivUp(free, BITS_PER_SECTOR);
    var bitLen := free - guess;
    Layout(free, guess, bitLen, DivUp(bitLen, BITS_PER_SECTOR))
  }

  /** Data blocks between data_start_lba and the end of the partition. */
  function Blocks(l: Layout): (n: int) {
    l.free - l.sects
  }

  /** Bits a to b become v. */
  function Fill(bits: seq<bool>, a: int, b: int, v: bool): (r: seq<bool>)
    requires 0 <= a <= b <= |bits|
    ensures |r| == |bits| && forall j :: 0 <= j < |bits| ==> r[j] == if a <= j < b then v else bits[j]
  {
    seq(|bits|, j requires 0 <= j < |bits| => if a <= j < b then v else bits[j])
  }

  /** The block bitmap as it is built in a buffer of bufBits zero bits and written (fs.c:131-149): the
      root's bit, ones to the end of the last sector, and the used bits of the last byte cleared
      again, one too many. */
  method BlockBitmap(l: Layout, bufBits: nat) returns (bits: seq<bool>)
    requires l.bitLen >= 1 && l.sects == DivUp(l.bitLen, BITS_PER_SECTOR) && bufBits >= BITS_PER_SECTOR * (l.sects + 1)
    ensures |bits| == BITS_PER_SECTOR * l.sects
    ensures forall j :: 0 <= j < |bits| ==> (bits[j] <==> (j == 0 && l.bitLen >= 8) || j > l.bitLen)
  {
    var buf := seq(bufBits, _ => false);
    buf := buf[0 := true];
    var lastByte, lastBit := l.bitLen / 8, l.bitLen % 8;
    var lastSize := 512 - lastByte % 512;
    SectorEnd(l.bitLen, l.sects);
    buf := Fill(buf, 8 * lastByte, 8 * (lastByte + lastSize), true);
    ghost var filled := buf;
    var i := 0;
    while i <= lastBit
      invariant 0 <= i <= lastBit + 1 && |buf| == bufBits
      invariant forall j :: 0 <= j < bufBits ==> buf[j] == (filled[j] && !(8 * lastByte <= j < 8 * lastByte + i))
    {
      buf := buf[8 * lastByte + i := false];
      i := i + 1;
    }
    bits := buf[..BITS_PER_SECTOR * l.sects];
  }

  /** The ones reach to the end of the sector that holds the last bit, which is the bitmap's last
      sector unless the bits fill it exactly. */
  lemma SectorEnd(bitLen: int, sects: int)
    requires bitLen >= 1 && sects == DivUp(bitLen, BITS_PER_SECTOR)
    ensures var lastByte := bitLen / 8;
      var end := 8 * (lastByte + (512 - lastByte % 512));
      && BITS_PER_SECTOR * sects <= end <= BITS_PER_SECTOR * (sects + 1) && 1 <= sects
      && 8 * lastByte + bitLen % 8 == bitLen
  {
    var q, r := bitLen / BITS_PER_SECTOR, bitLen % BITS_PER_SECTOR;
    assert bitLen == BITS_PER_SECTOR * q + r;
    assert bitLen / 8 == 512 * q + r / 8;
    assert (bitLen / 8) % 512 == r / 8;
    assert sects == if r == 0 then q else q + 1;
  }

  /** The bitmap offers a block beyond the end of the partition exactly when the bits do not fill the
      bitmap's last sector and the first guess at its size was right. */
  lemma OffersTooMuch(secCnt: int, bits: seq<bool>)
    requires var l := LayoutOf(secCnt);
      && l.bitLen >= 1 && |bits| == BITS_PER_SECTOR * l.sects
      && forall j :: 0 <= j < |bits| ==> (bits[j] <==> (j == 0 && l.bitLen >= 8) || j > l.bitLen)
    ensures var l := LayoutOf(secCnt);
      (exists j :: Blocks(l) <= j < |bits| && !bits[j]) <==> l.bitLen % BITS_PER_SECTOR != 0 && l.sects == l.guess
  {
    var l := LayoutOf(secCnt);
    SectorEnd(l.bitLen, l.sects);
    assert l.sects <= l.guess;
    if l.bitLen % BITS_PER_SECTOR != 0 && l.sects == l.guess {
      assert l.bitLen < |bits| && !bits[l.bitLen];
    }
  }

  /** For example on 5000 sectors: 4387 data blocks, and bit 4387 is clear. */
  lemma OffersOneMore(bits: seq<bool>)
    requires var l := LayoutOf(5000);
      && |bits| == BITS_PER_SECTOR * l.sects
      && forall j :: 0 <= j < |bits| ==> (bits[j] <==> (j == 0 && l.bitLen >= 8) || j > l.bitLen)
    ensures var l := LayoutOf(5000);
      l.bitLen == 4387 == Blocks(l) < |bits| == 8192 && !bits[4387] && exists j :: Blocks(l) <= j < |bits| && !bits[j]
  {
    var l := LayoutOf(5000);
    assert l == Layout(4389, 2, 4387, 2);
    OffersTooMuch(5000, bits);
  }

  /** How many blocks the bitmap offers, the extra one included. */
  function Offered(l: Layout): (n: int)
    requires l.bitLen >= 0 && l.sects >= 0
    ensures n >= 0
  {
    if l.bitLen + 1 <= BITS_PER_SECTOR * l.sects then l.bitLen + 1 else BITS_PER_SECTOR * l.sects
  }

  /** What is written is the bitmap of a partition of that many blocks, block 0 taken and all others
      free, with set bits behind it. */
  lemma StartsAs(l: Layout, bits: seq<bool>)
    requires l.bitLen >= 8 && l.sects >= 1 && |bits| == BITS_PER_SECTOR * l.sects
    requires forall j :: 0 <= j < |bits| ==> (bits[j] <==> (j == 0 && l.bitLen >= 8) || j > l.bitLen)
    ensures bits == seq(Offered(l), k => k == 0) + Ones(|bits| - Offered(l))
  {
    var want := seq(Offered(l), k => k == 0) + Ones(|bits| - Offered(l));
    assert |want| == |bits|;
    forall j | 0 <= j < |bits| ensures bits[j] == want[j] {
    }
  }

  /** The set bits behind it are never allocated: whatever the bits in front have become, the scan for one
      bit answers as if they were all there is. */
  lemma TailNeverTaken(b: seq<bool>, k: nat, past: bool, r: ScanResult)
    requires ScanSpec(b + Ones(k), past, 1, r)
    ensures ScanSpec(b, true, 1, r)
  {
    PaddedScan(b, k, 1, r);
  }
}
