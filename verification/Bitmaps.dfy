/** lib/kernel/bitmap.c: a bitmap kept in bytes, specified by a sequence of booleans. */
module Bitmaps {

  // ---------- specification on sequences of booleans ----------

  /** n consecutive clear bits start at i. */
  ghost predicate RunAt(b: seq<bool>, i: int, n: nat) {
    0 <= i && i + n <= |b| && forall j :: i <= j < i + n ==> !b[j]
  }

  /** i is the least index that starts n consecutive clear bits. */
  ghost predicate LeastRun(b: seq<bool>, i: int, n: nat) {
    RunAt(b, i, n) && forall k :: 0 <= k < i ==> !RunAt(b, k, n)
  }

  ghost predicate NoRun(b: seq<bool>, n: nat) {
    forall k :: 0 <= k < |b| ==> !RunAt(b, k, n)
  }

  ghost predicate Full(b: seq<bool>) {
    forall j :: 0 <= j < |b| ==> b[j]
  }

  function SetRun(b: seq<bool>, i: nat, n: nat, v: bool): (r: seq<bool>)
    requires i + n <= |b|
    ensures |r| == |b|
    ensures forall j :: 0 <= j < |b| ==> r[j] == (if i <= j < i + n then v else b[j])
  {
    b[..i] + seq(n, _ => v) + b[i + n..]
  }

  /** What a scan can do: stop the kernel on its assertion, report failure, or find a run. */
  datatype ScanResult = Panic | NotFound | At(index: nat)

  /** The specification of the scan: for one bit the bitmap itself is searched,
      for several bits the search also looks at one bit past the end. */
  ghost predicate ScanSpec(b: seq<bool>, past: bool, cnt: nat, r: ScanResult) {
    match r
    case Panic => Full(b)
    case NotFound => !Full(b) && cnt > 1 && NoRun(b + [past], cnt)
    case At(i) => !Full(b) && LeastRun(if cnt == 1 then b else b + [past], i, cnt)
  }

  /** The scan's answer is determined by the bits. */
  lemma ScanSpecUnique(b: seq<bool>, past: bool, cnt: nat, r: ScanResult, r': ScanResult)
    requires cnt >= 1 && ScanSpec(b, past, cnt, r) && ScanSpec(b, past, cnt, r')
    ensures r == r'
  {
    var e := if cnt == 1 then b else b + [past];
    assert r.At? ==> RunAt(e, r.index, cnt);
    assert r'.At? ==> RunAt(e, r'.index, cnt);
  }

  /** The scan of several bits strays past the end exactly when the bit there reads as
      clear, the last cnt - 1 bits are clear and no run lies inside: the condition is
      checkable before the call. */
  ghost predicate StraysPastEnd(b: seq<bool>, past: bool, cnt: nat) {
    cnt > 1 && !past && cnt - 1 <= |b| && RunAt(b, |b| - (cnt - 1), cnt - 1) && NoRun(b, cnt)
  }

  lemma ScanStaysInside(b: seq<bool>, past: bool, cnt: nat, r: ScanResult)
    requires cnt >= 1 && ScanSpec(b, past, cnt, r) && !r.Panic?
    ensures !StraysPastEnd(b, past, cnt) <==>
            match r
            case Panic => false
            case NotFound => NoRun(b, cnt)
            case At(i) => LeastRun(b, i, cnt)
  {
    var e := b + [past];
    if cnt > 1 {
      if r.At? {
        var i := r.index;
        assert forall j :: 0 <= j < |b| ==> e[j] == b[j];
        if i + cnt <= |b| {
          assert RunAt(b, i, cnt);
          forall k | 0 <= k < i ensures !RunAt(b, k, cnt) {
            assert !RunAt(e, k, cnt);
          }
        } else {
          assert i + cnt == |b| + 1;
          assert !e[|b|];
          assert RunAt(b, |b| - (cnt - 1), cnt - 1);
          forall k | 0 <= k < |b| ensures !RunAt(b, k, cnt) {
            if RunAt(b, k, cnt) {
              assert RunAt(e, k, cnt);
            }
          }
        }
      } else {
        forall k | 0 <= k < |b| ensures !RunAt(b, k, cnt) {
          assert !RunAt(e, k, cnt);
        }
        if StraysPastEnd(b, past, cnt) {
          assert RunAt(e, |b| - (cnt - 1), cnt);
        }
      }
    }
  }

  /** A run found after earlier runs were marked used is disjoint from every one of them. */
  lemma RunsDisjoint(b: seq<bool>, i: nat, n: nat, k: int, m: nat)
    requires i + n <= |b| && RunAt(SetRun(b, i, n, true), k, m)
    ensures k + m <= i || i + n <= k || m == 0 || n == 0
  {
    var j := if k < i then i else k;
    assert i <= j < i + n ==> SetRun(b, i, n, true)[j];
  }

  lemma FirstIsLeast(b: seq<bool>, i: nat)
    requires i < |b| && !b[i] && Full(b[..i])
    ensures LeastRun(b, i, 1)
  {
    forall k | 0 <= k < i ensures !RunAt(b, k, 1) {
      assert b[..i][k] == b[k];
    }
  }

  /** The state of the scan for several bits: the last `count` bits before `next` are clear,
      the bit before them is set, and no run ends before `next`. */
  ghost predicate Scanned(e: seq<bool>, next: nat, count: nat, cnt: nat) {
    && count <= next <= |e| && count < cnt
    && (forall j :: next - count <= j < next ==> !e[j])
    && (count < next ==> e[next - count - 1])
    && forall k :: 0 <= k && k + cnt <= next ==> !RunAt(e, k, cnt)
  }

  lemma ScannedStart(e: seq<bool>, start: nat, cnt: nat)
    requires start < |e| && !e[start] && cnt >= 2 && forall j :: 0 <= j < start ==> e[j]
    ensures Scanned(e, start + 1, 1, cnt)
  {
    forall k | 0 <= k && k + cnt <= start + 1 ensures !RunAt(e, k, cnt) {
      assert e[k];
    }
  }

  lemma BeforeStart(e: seq<bool>, start: nat)
    requires start <= |e| && Full(e[..start])
    ensures forall j :: 0 <= j < start ==> e[j]
  {
    assert forall j :: 0 <= j < start ==> e[j] == e[..start][j];
  }

  lemma ScannedEnd(e: seq<bool>, count: nat, cnt: nat)
    requires Scanned(e, |e|, count, cnt)
    ensures NoRun(e, cnt)
  {
  }

  lemma ScannedStep(e: seq<bool>, next: nat, count: nat, cnt: nat)
    requires Scanned(e, next, count, cnt) && next < |e|
    ensures var c := if e[next] then 0 else count + 1;
            if c == cnt then LeastRun(e, next - cnt + 1, cnt) else Scanned(e, next + 1, c, cnt)
  {
    var c := if e[next] then 0 else count + 1;
    if c < cnt {
      forall k | 0 <= k && k + cnt <= next + 1 ensures !RunAt(e, k, cnt) {
        if k + cnt == next + 1 {
          assert k <= next - c;
          assert e[next - c];
        }
      }
    }
  }

  // ---------- counting ----------

  /** The number of set bits. */
  function Count(b: seq<bool>): (n: nat)
    ensures n <= |b|
  {
    if |b| == 0 then 0 else (if b[|b| - 1] then 1 else 0) + Count(b[..|b| - 1])
  }

  lemma {:induction false} CountUpdate(b: seq<bool>, i: nat, v: bool)
    requires i < |b|
    ensures Count(b[i := v]) == Count(b) + (if v then 1 else 0) - (if b[i] then 1 else 0)
  {
    var n := |b| - 1;
    if i == n {
      assert b[i := v][..n] == b[..n];
    } else {
      assert b[i := v][..n] == b[..n][i := v];
      CountUpdate(b[..n], i, v);
    }
  }

  lemma {:induction false} CountFull(b: seq<bool>)
    ensures Count(b) == |b| <==> Full(b)
  {
    if |b| > 0 {
      var n := |b| - 1;
      CountFull(b[..n]);
      assert b == b[..n] + [b[n]];
      assert forall j :: 0 <= j < n ==> b[..n][j] == b[j];
    }
  }

  // ---------- the bytes ----------

  /** The mask 1 << k. */
  function Mask(k: nat): (m: bv8)
    requires k < 8
  {
    if k == 0 then 1 else if k == 1 then 2 else if k == 2 then 4 else if k == 3 then 8
    else if k == 4 then 16 else if k == 5 then 32 else if k == 6 then 64 else 128
  }

  predicate Bit(b: bv8, k: nat)
    requires k < 8
  {
    b & Mask(k) != 0
  }

  lemma AllOnes(b: bv8)
    ensures b == 0xFF <==> forall k: nat :: k < 8 ==> Bit(b, k)
  {
    assert b == 0xFF ==> forall k: nat :: k < 8 ==> Bit(b, k) by {
      forall k: nat | k < 8 ensures b == 0xFF ==> Bit(b, k) {
        assert k == 0 || k == 1 || k == 2 || k == 3 || k == 4 || k == 5 || k == 6 || k == 7;
      }
    }
    if forall k: nat :: k < 8 ==> Bit(b, k) {
      assert Bit(b, 0) && Bit(b, 1) && Bit(b, 2) && Bit(b, 3);
      assert Bit(b, 4) && Bit(b, 5) && Bit(b, 6) && Bit(b, 7);
    }
  }

  lemma SetBit(b: bv8, k: nat, j: nat)
    requires k < 8 && j < 8
    ensures Bit(b | Mask(k), j) == (j == k || Bit(b, j))
    ensures Bit(b & !Mask(k), j) == (j != k && Bit(b, j))
  {
  }

  /** Every bit of a byte string, in order. */
  function BitsOf(bytes: seq<bv8>): (s: seq<bool>)
    ensures |s| == 8 * |bytes|
  {
    seq(8 * |bytes|, i requires 0 <= i < 8 * |bytes| => Bit(bytes[i / 8], i % 8))
  }

  function WithBit(b: bv8, k: nat, v: bool): (r: bv8)
    requires k < 8
    ensures forall j: nat :: j < 8 ==> Bit(r, j) == (if j == k then v else Bit(b, j))
  {
    assert forall j: nat :: j < 8 ==> Bit(b | Mask(k), j) == (j == k || Bit(b, j)) by {
      forall j: nat | j < 8 ensures Bit(b | Mask(k), j) == (j == k || Bit(b, j)) { SetBit(b, k, j); }
    }
    assert forall j: nat :: j < 8 ==> Bit(b & !Mask(k), j) == (j != k && Bit(b, j)) by {
      forall j: nat | j < 8 ensures Bit(b & !Mask(k), j) == (j != k && Bit(b, j)) { SetBit(b, k, j); }
    }
    if v then b | Mask(k) else b & !Mask(k)
  }

  /** Changing one byte's bit changes that one bit of the whole. */
  lemma BitsOfWithBit(bytes: seq<bv8>, i: nat, v: bool)
    requires i < 8 * |bytes|
    ensures BitsOf(bytes[i / 8 := WithBit(bytes[i / 8], i % 8, v)]) == BitsOf(bytes)[i := v]
  {
    var after := bytes[i / 8 := WithBit(bytes[i / 8], i % 8, v)];
    forall j | 0 <= j < 8 * |bytes| ensures BitsOf(after)[j] == BitsOf(bytes)[i := v][j] {
      assert j == 8 * (j / 8) + j % 8 && i == 8 * (i / 8) + i % 8;
    }
  }

  lemma OnesFull(bytes: seq<bv8>, k: nat)
    requires k <= |bytes| && forall j :: 0 <= j < k ==> bytes[j] == 0xFF
    ensures Full(BitsOf(bytes)[..8 * k])
  {
    forall j | 0 <= j < 8 * k ensures BitsOf(bytes)[j] {
      AllOnes(bytes[j / 8]);
    }
  }

  /** Byte k is the first with a clear bit and m is the first clear bit in it. */
  lemma OpenByte(bytes: seq<bv8>, k: nat, m: nat)
    requires k < |bytes| && m < 8 && !Bit(bytes[k], m) && forall j: nat :: j < m ==> Bit(bytes[k], j)
    requires Full(BitsOf(bytes)[..8 * k])
    ensures !BitsOf(bytes)[8 * k + m] && Full(BitsOf(bytes)[..8 * k + m])
  {
    var s := BitsOf(bytes);
    assert (8 * k + m) / 8 == k && (8 * k + m) % 8 == m;
    forall j | 0 <= j < 8 * k + m ensures s[j] {
      if j < 8 * k {
        assert s[..8 * k][j];
      } else {
        assert j / 8 == k && j % 8 == j - 8 * k;
      }
    }
  }

  method FirstClearInByte(b: bv8) returns (m: nat)
    requires b != 0xFF
    ensures m < 8 && !Bit(b, m) && forall j: nat :: j < m ==> Bit(b, j)
  {
    AllOnes(b);
    m := 0;
    while Bit(b, m)
      invariant m < 8
      invariant forall j: nat :: j < m ==> Bit(b, j)
      decreases 8 - m
    {
      assert m < 7 by {
        assert exists j: nat :: j < 8 && !Bit(b, j);
      }
      m := m + 1;
    }
  }

  /** A bitmap of `len` bytes; `bits` is the memory it lies in, which goes on past the end. */
  class Bitmap {
    const len: nat
    const bits: array<bv8>

    constructor (n: nat, memory: array<bv8>)
      requires n < memory.Length
      ensures len == n && bits == memory && Valid()
    {
      len := n;
      bits := memory;
    }

    ghost predicate Valid() {
      len < bits.Length
    }

    /** Every bit of the memory, in order. */
    ghost function Memory(): (s: seq<bool>)
      reads bits
    {
      BitsOf(bits[..])
    }

    /** The bits of the bitmap itself. */
    ghost function Contents(): (s: seq<bool>)
      requires Valid()
      reads bits
      ensures |s| == 8 * len
    {
      Memory()[..8 * len]
    }

    /** The bit just past the end. */
    ghost function Past(): bool
      requires Valid()
      reads bits
    {
      Memory()[8 * len]
    }

    /** bitmap_init: every bit clear, the memory behind untouched. */
    method Init()
      requires Valid()
      modifies bits
      ensures Contents() == seq(8 * len, _ => false)
      ensures Memory()[8 * len..] == old(Memory()[8 * len..])
    {
      var i := 0;
      while i < len
        invariant i <= len
        invariant forall j :: 0 <= j < i ==> bits[j] == 0
        invariant forall j :: len <= j < bits.Length ==> bits[j] == old(bits[j])
      {
        bits[i] := 0;
        i := i + 1;
      }
      forall j | 0 <= j < 8 * len ensures !Contents()[j] {
        assert bits[j / 8] == 0;
      }
      assert Contents() == seq(8 * len, _ => false);
    }

    /** bitmap_scan_test */
    method Test(i: nat) returns (used: bool)
      requires i < 8 * bits.Length
      ensures used == Memory()[i]
    {
      used := Bit(bits[i / 8], i % 8);
    }

    /** bitmap_set */
    method Set(i: nat, v: bool)
      requires Valid() && i < 8 * bits.Length
      modifies bits
      ensures Memory() == old(Memory()[i := v])
      ensures i < 8 * len ==> Contents() == old(Contents()[i := v]) && Past() == old(Past())
    {
      BitsOfWithBit(bits[..], i, v);
      var k := i / 8;
      assert WithBit(bits[k], i % 8, v) == if v then bits[k] | Mask(i % 8) else bits[k] & !Mask(i % 8);
      if v {
        bits[k] := bits[k] | Mask(i % 8);
      } else {
        bits[k] := bits[k] & !Mask(i % 8);
      }
      assert bits[..] == old(bits[..])[k := WithBit(old(bits[k]), i % 8, v)];
    }

    /** The first byte that is not all ones, or the length. */
    method FirstOpenByte() returns (k: nat)
      requires Valid()
      ensures k <= len && forall j :: 0 <= j < k ==> bits[j] == 0xFF
      ensures k < len ==> bits[k] != 0xFF
    {
      k := 0;
      while bits[k] == 0xFF && k < len
        invariant k <= len
        invariant forall j :: 0 <= j < k ==> bits[j] == 0xFF
        decreases len - k
      {
        k := k + 1;
      }
    }

    /** The first clear bit: bytes first, then the bits of the byte found. */
    method FirstClear() returns (r: ScanResult)
      requires Valid()
      ensures !r.NotFound?
      ensures r == Panic ==> Full(Contents())
      ensures r.At? ==> r.index < 8 * len && !Contents()[r.index] && Full(Contents()[..r.index])
    {
      var k := FirstOpenByte();
      OnesFull(bits[..], k);
      assert Contents()[..8 * k] == BitsOf(bits[..])[..8 * k];
      if k == len {
        assert Contents()[..8 * k] == Contents();
        return Panic;
      }
      var m := FirstClearInByte(bits[k]);
      OpenByte(bits[..], k, m);
      r := At(8 * k + m);
      assert Contents()[..r.index] == BitsOf(bits[..])[..r.index];
    }

    /** The search for a run of several bits, from the first clear bit on. */
    method ScanRun(start: nat, cnt: nat, ghost e: seq<bool>) returns (r: ScanResult)
      requires Valid() && cnt >= 2 && start < 8 * len
      requires |e| == 8 * len + 1 && e == Memory()[..8 * len + 1]
      requires !e[start] && Full(e[..start])
      ensures !r.Panic?
      ensures if r.At? then LeastRun(e, r.index, cnt) else NoRun(e, cnt)
    {
      BeforeStart(e, start);
      ScannedStart(e, start, cnt);
      assert len < bits.Length && |Memory()| == 8 * bits.Length;
      hide *;
      var left := 8 * len - start;
      var next := start + 1;
      var count := 1;
      r := NotFound;
      while left > 0
        invariant left == 8 * len + 1 - next && start + 1 <= next <= 8 * len + 1
        invariant Scanned(e, next, count, cnt)
      {
        left := left - 1;
        var used := Test(next);
        assert used == e[next];
        ScannedStep(e, next, count, cnt);
        if !used {
          count := count + 1;
        } else {
          count := 0;
        }
        if count == cnt {
          r := At(next - cnt + 1);
          return;
        }
        next := next + 1;
      }
      ScannedEnd(e, count, cnt);
    }

    /** bitmap_scan */
    method Scan(cnt: nat) returns (r: ScanResult)
      requires Valid() && cnt >= 1
      ensures ScanSpec(Contents(), Past(), cnt, r)
    {
      r := FirstClear();
      ghost var b := Contents();
      if r == Panic {
        return;
      }
      if cnt == 1 {
        FirstIsLeast(b, r.index);
      } else {
        ghost var e := b + [Past()];
        assert e == Memory()[..8 * len + 1];
        assert e[..r.index] == b[..r.index];
        r := ScanRun(r.index, cnt, e);
      }
    }

    /** Scanning for a run and marking it used, the pattern of vaddr_get, palloc,
        block_bitmap_alloc, inode_bitmap_alloc and allocate_pid.  A scan that strays past the end
        marks the bit there as well. */
    method Allocate(cnt: nat) returns (r: ScanResult)
      requires Valid() && cnt >= 1
      modifies bits
      ensures ScanSpec(old(Contents()), old(Past()), cnt, r)
      ensures !r.At? ==> Memory() == old(Memory())
      ensures r.At? ==> r.index + cnt <= 8 * len + 1 && Memory() == SetRun(old(Memory()), r.index, cnt, true)
      ensures StraysPastEnd(old(Contents()), old(Past()), cnt) ==> r.At? && r.index + cnt == 8 * len + 1
      ensures !StraysPastEnd(old(Contents()), old(Past()), cnt) ==>
        && (r == NotFound <==> !Full(old(Contents())) && NoRun(old(Contents()), cnt))
        && (r.At? ==>
             LeastRun(old(Contents()), r.index, cnt) && Contents() == SetRun(old(Contents()), r.index, cnt, true))
    {
      r := Scan(cnt);
      ghost var b, m := Contents(), Memory();
      AllocateEnds(b, Past(), cnt, r);
      hide Full, LeastRun, NoRun, StraysPastEnd, ScanSpec;
      if r.At? {
        MarkRun(r.index, cnt);
        assert r.index + cnt <= |b| ==> SetRun(m, r.index, cnt, true)[..|b|] == SetRun(b, r.index, cnt, true);
      }
    }

    /** Setting the bits of a run one after the other. */
    method MarkRun(start: nat, cnt: nat)
      requires Valid() && start + cnt <= 8 * bits.Length
      modifies bits
      ensures Memory() == SetRun(old(Memory()), start, cnt, true)
    {
      hide *;
      ghost var m := Memory();
      MemorySize();
      SetNone(m, start);
      var i := 0;
      while i < cnt
        invariant i <= cnt && |m| == 8 * bits.Length && Memory() == SetRun(m, start, i, true)
      {
        Set(start + i, true);
        SetMore(m, start, i);
        i := i + 1;
      }
    }

    lemma MemoryIs()
      ensures Memory() == BitsOf(bits[..])
    {
    }

    lemma ContentsAre(b: seq<bool>, k: nat)
      requires Valid() && Memory() == b + Ones(k + 8) && |b| + k == 8 * len
      ensures Contents() == b + Ones(k) && Past()
    {
    }

    lemma MemorySize()
      ensures |Memory()| == 8 * bits.Length
    {
    }
  }

  lemma SetNone(b: seq<bool>, i: nat)
    requires i <= |b|
    ensures SetRun(b, i, 0, true) == b
  {
  }

  lemma SetMore(b: seq<bool>, i: nat, n: nat)
    requires i + n < |b|
    ensures SetRun(b, i, n + 1, true) == SetRun(b, i, n, true)[i + n := true]
  {
  }

  lemma AllocateEnds(b: seq<bool>, past: bool, cnt: nat, r: ScanResult)
    requires cnt >= 1 && ScanSpec(b, past, cnt, r)
    ensures r.At? ==> r.index + cnt <= |b| + 1
    ensures StraysPastEnd(b, past, cnt) ==> r.At? && r.index + cnt == |b| + 1
    ensures !StraysPastEnd(b, past, cnt) ==>
      (r == NotFound <==> !Full(b) && NoRun(b, cnt)) && (r.At? ==> LeastRun(b, r.index, cnt))
  {
    assert r.At? ==> RunAt(if cnt == 1 then b else b + [past], r.index, cnt);
    if r != Panic {
      ScanStaysInside(b, past, cnt, r);
    }
    if StraysPastEnd(b, past, cnt) {
      var k := |b| - (cnt - 1);
      assert !b[k];
      assert RunAt(b + [past], k, cnt);
      assert forall i :: i + cnt <= |b| && RunAt(b + [past], i, cnt) ==> RunAt(b, i, cnt);
    }
  }

  // ---------- a bitmap given as a sequence ----------

  function Ones(n: nat): (b: seq<bool>)
    ensures |b| == n && forall k :: 0 <= k < n ==> b[k]
  {
    seq(n, _ => true)
  }

  /** Set bits behind the end are never found. */
  lemma PaddedRun(b: seq<bool>, n: nat, i: int, cnt: nat)
    requires cnt >= 1
    ensures RunAt(b + Ones(n), i, cnt) <==> RunAt(b, i, cnt)
  {
    var e := b + Ones(n);
    if RunAt(e, i, cnt) {
      assert forall j :: |b| <= j < |e| ==> e[j];
      assert !e[i + cnt - 1];
      assert forall j :: i <= j < i + cnt && j < |b| ==> e[j] == b[j];
    }
  }

  lemma PaddedScan(b: seq<bool>, n: nat, cnt: nat, r: ScanResult)
    requires cnt >= 1 && ScanSpec(b + Ones(n), true, cnt, r)
    ensures ScanSpec(b, true, cnt, r)
    ensures r == Panic <==> Full(b)
    ensures r == NotFound <==> !Full(b) && NoRun(b, cnt)
    ensures r.At? ==> LeastRun(b, r.index, cnt)
  {
    var e := b + Ones(n);
    assert Full(e) <==> Full(b) by {
      assert forall j :: 0 <= j < |b| ==> e[j] == b[j];
    }
    assert e + [true] == b + Ones(n + 1) && b + [true] == b + Ones(1);
    forall k ensures (RunAt(e, k, cnt) <==> RunAt(b, k, cnt)) && (RunAt(e + [true], k, cnt) <==> RunAt(b, k, cnt))
      && (RunAt(b + [true], k, cnt) <==> RunAt(b, k, cnt)) {
      PaddedRun(b, n, k, cnt);
      PaddedRun(b, n + 1, k, cnt);
      PaddedRun(b, 1, k, cnt);
    }
    hide RunAt;
    assert forall k :: RunAt(b, k, cnt) ==> RunAt(e + [true], k, cnt) && RunAt(e, k, cnt);
  }

  /** The bits laid out in bytes, the bits behind them set. */
  method LayOut(b: seq<bool>) returns (bm: Bitmap, ghost k: nat)
    ensures bm.Valid() && bm.Contents() == b + Ones(k) && bm.Past()
  {
    hide *;
    var n := (|b| + 7) / 8;
    var memory := new bv8[n + 1](_ => 0xFF);
    bm := new Bitmap(n, memory);
    AllOnesAre(memory[..], b);
    bm.MemoryIs();
    var i := 0;
    while i < |b|
      invariant i <= |b| && bm.Memory() == b[..i] + Ones(8 * (n + 1) - i)
    {
      bm.Set(i, b[i]);
      OneMore(b, i, 8 * (n + 1));
      i := i + 1;
    }
    k := 8 * n - |b|;
    bm.ContentsAre(b, k);
  }

  lemma AllOnesAre(bytes: seq<bv8>, b: seq<bool>)
    requires forall j :: 0 <= j < |bytes| ==> bytes[j] == 0xFF
    ensures BitsOf(bytes) == b[..0] + Ones(8 * |bytes|)
  {
    OnesFull(bytes, |bytes|);
  }

  lemma OneMore(b: seq<bool>, i: nat, n: nat)
    requires i < |b| && i < n
    ensures (b[..i] + Ones(n - i))[i := b[i]] == b[..i + 1] + Ones(n - (i + 1))
  {
  }

  /** bitmap_scan of the bits, the bits behind them reading as set. */
  method ScanBits(b: seq<bool>, cnt: nat) returns (r: ScanResult)
    requires cnt >= 1
    ensures ScanSpec(b, true, cnt, r)
    ensures r == Panic <==> Full(b)
    ensures r == NotFound <==> !Full(b) && NoRun(b, cnt)
    ensures r.At? ==> LeastRun(b, r.index, cnt)
  {
    hide *;
    ghost var k;
    var bm;
    bm, k := LayOut(b);
    r := bm.Scan(cnt);
    PaddedScan(b, k, cnt, r);
  }
}
