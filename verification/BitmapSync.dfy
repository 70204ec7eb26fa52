/** The block bitmap in memory and its copy on disk, which bitmap_sync (fs/file.c) brings up to date one
    sector at a time. */
module BitmapSync {
  import opened Bitmaps

  const BITS_IN_SECTOR := 4096

  /** The bitmap in memory and on disk. */
  datatype Maps = Maps(bits: seq<bool>, disk: seq<bool>)

  predicate SameSector(i: int, j: int) {
    i / BITS_IN_SECTOR == j / BITS_IN_SECTOR
  }

  /** bitmap_sync for bit j: the sector that holds it is copied to disk. */
  function Synced(m: Maps, j: int): (m': Maps)
    ensures m'.bits == m.bits && |m'.disk| == |m.disk|
    ensures forall t :: 0 <= t < |m.disk| ==>
      m'.disk[t] == if t < |m.bits| && SameSector(t, j) then m.bits[t] else m.disk[t]
  {
    m.(disk := seq(|m.disk|, t requires 0 <= t < |m.disk| =>
      if t < |m.bits| && SameSector(t, j) then m.bits[t] else m.disk[t]))
  }

  /** A bit is changed and its sector synced. */
  function Stored(m: Maps, j: int, v: bool): (m': Maps)
    requires 0 <= j < |m.bits|
  {
    Synced(m.(bits := m.bits[j := v]), j)
  }

  /** Nothing is stale. */
  predicate Exact(m: Maps) {
    m.disk == m.bits
  }

  lemma StoredExact(m: Maps, j: int, v: bool)
    requires Exact(m) && 0 <= j < |m.bits|
    ensures Exact(Stored(m, j, v))
  {
    hide Synced;
  }

  // ---------- allocation ----------

  /** The least clear bit, or the length when all are set. */
  function FirstClear(b: seq<bool>): (j: nat)
    ensures j <= |b| && (j < |b| ==> !b[j]) && forall i :: 0 <= i < j ==> b[i]
  {
    if b == [] then 0 else if !b[0] then 0 else 1 + FirstClear(b[1..])
  }

  lemma FirstIs(b: seq<bool>, j: int)
    requires LeastRun(b, j, 1)
    ensures 0 <= j < |b| && !b[j] && j == FirstClear(b)
  {
    assert RunAt(b, j, 1);
    var f := FirstClear(b);
    if f < |b| {
      assert RunAt(b, f, 1);
    }
    hide FirstClear;
  }

  /** block_bitmap_alloc alone. */
  function Taken(m: Maps): (m': Maps) {
    var j := FirstClear(m.bits);
    if j == |m.bits| then m else m.(bits := m.bits[j := true])
  }

  /** block_bitmap_alloc and bitmap_sync. */
  function TakenSynced(m: Maps): (m': Maps) {
    var j := FirstClear(m.bits);
    if j == |m.bits| then m else Stored(m, j, true)
  }

  /** n times. */
  function TakenAll(m: Maps, n: nat): (m': Maps) {
    if n == 0 then m else TakenSynced(TakenAll(m, n - 1))
  }

  lemma TakenNone(m: Maps)
    ensures TakenAll(m, 0) == m
  {
  }

  lemma OneTaken(m: Maps, j: int)
    requires LeastRun(m.bits, j, 1)
    ensures 0 <= j < |m.bits| && Taken(m) == Maps(m.bits[j := true], m.disk)
  {
    FirstIs(m.bits, j);
    hide FirstClear;
  }

  /** One round of the allocation loop. */
  lemma OneMoreTaken(m0: Maps, n: nat, m: Maps, j: int, m': Maps)
    requires m == TakenAll(m0, n) && LeastRun(m.bits, j, 1) && 0 <= j < |m.bits|
    requires m' == Synced(Maps(m.bits[j := true], m.disk), j)
    ensures m' == TakenAll(m0, n + 1)
  {
    FirstIs(m.bits, j);
    hide FirstClear, Synced;
  }

  lemma {:induction false} TakenAllExact(m: Maps, n: nat)
    requires Exact(m)
    ensures Exact(TakenAll(m, n))
  {
    hide Exact, Stored;
    if n > 0 {
      TakenAllExact(m, n - 1);
      var m1 := TakenAll(m, n - 1);
      if FirstClear(m1.bits) != |m1.bits| {
        StoredExact(m1, FirstClear(m1.bits), true);
      }
    }
  }

  // ---------- the blocks of a write ----------

  /** The blocks that file_write takes for a file that has `has` and will have `will` data blocks: in
      situation 2 the table comes first, and its bit is not synced (fs/file.c:326-335). */
  function Grown(m: Maps, has: nat, will: nat): (m': Maps)
    requires has <= will
  {
    if has <= 12 < will then TakenAll(Taken(m), will - has) else TakenAll(m, will - has)
  }

  /** With the block of a first write, if there is one, before that. */
  function Written(m: Maps, first: nat, has: nat, will: nat): (m': Maps)
    requires has <= will
  {
    Grown(TakenAll(m, first), has, will)
  }

  lemma GrownIs(m: Maps, has: nat, will: nat)
    requires has <= will
    ensures Grown(m, has, will) ==
      if has <= 12 < will then TakenAll(Taken(m), will - has) else TakenAll(m, will - has)
    ensures has == will ==> Grown(m, has, will) == m
  {
  }

  lemma WrittenIs(m: Maps, first: nat, has: nat, will: nat)
    requires has <= will
    ensures Written(m, first, has, will) == Grown(TakenAll(m, first), has, will)
  {
  }

  /** The bit of the new table is stale: everything up to the bit that follows it is taken, and that one is
      in a later sector. */
  ghost predicate StaleAt(m: Maps, t: int, next: int) {
    && |m.disk| == |m.bits| && 0 <= t < next < |m.bits| && !SameSector(t, next)
    && (forall i :: 0 <= i <= next ==> m.bits[i]) && !m.disk[t]
  }

  lemma StaleStays(m: Maps, t: int, next: int)
    requires StaleAt(m, t, next)
    ensures StaleAt(TakenSynced(m), t, next)
  {
    var j := FirstClear(m.bits);
    if j < |m.bits| {
      assert j > next;
      assert t / BITS_IN_SECTOR < next / BITS_IN_SECTOR <= j / BITS_IN_SECTOR;
    }
    hide FirstClear;
  }

  lemma {:induction false} StaleAll(m: Maps, t: int, next: int, n: nat)
    requires StaleAt(TakenSynced(m), t, next) && n >= 1
    ensures StaleAt(TakenAll(m, n), t, next)
  {
    hide StaleAt, TakenSynced;
    if n == 1 {
      assert TakenAll(m, 1) == TakenSynced(TakenAll(m, 0)) == TakenSynced(m);
    } else {
      StaleAll(m, t, next, n - 1);
      StaleStays(TakenAll(m, n - 1), t, next);
    }
  }

  lemma {:induction false} TakenShift(m: Maps, n: nat)
    ensures TakenAll(TakenSynced(m), n) == TakenSynced(TakenAll(m, n))
  {
    hide TakenSynced;
    if n > 0 {
      TakenShift(m, n - 1);
    }
  }

  lemma TakenMore(m: Maps, n: nat)
    requires n >= 1
    ensures TakenAll(m, n) == TakenSynced(TakenAll(m, n - 1))
  {
  }

  /** The table's bit and the one taken next share a sector of the bitmap. */
  predicate TableCovered(b: seq<bool>) {
    var t := FirstClear(b);
    t < |b| && SameSector(t, FirstClear(b[t := true]))
  }

  lemma CoveredIs(b: seq<bool>, t: int)
    requires t == FirstClear(b) < |b|
    ensures TableCovered(b) <==> SameSector(t, FirstClear(b[t := true]))
  {
    hide FirstClear;
  }

  /** After the table and the first block behind it. */
  lemma TableAndNext(m: Maps, t: int, next: int)
    requires Exact(m) && t == FirstClear(m.bits) < |m.bits| && next == FirstClear(m.bits[t := true]) < |m.bits|
    ensures SameSector(t, next) ==> Exact(TakenSynced(Taken(m)))
    ensures !SameSector(t, next) ==> StaleAt(TakenSynced(Taken(m)), t, next)
  {
    var m1 := Taken(m);
    assert m1 == Maps(m.bits[t := true], m.bits) && t < next;
    var m2 := TakenSynced(m1);
    assert m2 == Synced(Maps(m1.bits[next := true], m.bits), next);
    assert forall i :: 0 <= i < next ==> m1.bits[i];
    hide FirstClear, Taken, TakenSynced, Synced, SameSector;
    if SameSector(t, next) {
      SameAsItself(t, next);
    }
  }

  lemma SameAsItself(i: int, j: int)
    ensures SameSector(j, j) && (SameSector(i, j) <==> SameSector(j, i))
  {
  }

  /** Situation 2 of file_write, exactly: with at least one block after the table, the bitmap on disk is
      right afterwards if and only if the least two clear bits share a sector. */
  lemma TableExact(m: Maps, n: nat)
    requires Exact(m) && n >= 1 && FirstClear(m.bits) < |m.bits|
    requires FirstClear(m.bits[FirstClear(m.bits) := true]) < |m.bits|
    ensures Exact(TakenAll(Taken(m), n)) <==> TableCovered(m.bits)
  {
    hide *;
    var t := FirstClear(m.bits);
    var next, m1 := FirstClear(m.bits[t := true]), Taken(m);
    CoveredIs(m.bits, t);
    TableAndNext(m, t, next);
    TakenShift(m1, n - 1);
    TakenMore(m1, n);
    if SameSector(t, next) {
      TakenAllExact(TakenSynced(m1), n - 1);
    } else {
      StaleAll(m1, t, next, n);
      StaleInexact(TakenAll(m1, n), t, next);
    }
  }

  lemma StaleInexact(m: Maps, t: int, next: int)
    requires StaleAt(m, t, next)
    ensures !Exact(m)
  {
    assert m.bits[t] && !m.disk[t];
  }

  /** A write that creates the table leaves its bit stale on disk: the two bits that follow a first
      block, if one is taken, are in different sectors. */
  predicate StaleTable(b: seq<bool>, first: nat, has: nat, will: nat) {
    has <= 12 < will && !TableCovered(TakenAll(Maps(b, b), first).bits)
  }

  lemma FirstAt(b: seq<bool>, j: nat)
    requires j < |b| && !b[j] && forall i :: 0 <= i < j ==> b[i]
    ensures FirstClear(b) == j
  {
    hide FirstClear;
  }

  lemma ClearThere(b: seq<bool>)
    requires Count(b) < |b|
    ensures var j := FirstClear(b); j < |b| && Count(b[j := true]) == Count(b) + 1
  {
    CountFull(b);
    var j := FirstClear(b);
    assert j == |b| ==> Full(b);
    hide FirstClear, Count;
    CountUpdate(b, j, true);
  }

  lemma FirstTaken(m: Maps, first: nat)
    requires Exact(m) && first <= 1 && Count(m.bits) + first <= |m.bits|
    ensures var m1 := TakenAll(m, first);
      Exact(m1) && |m1.bits| == |m.bits| && Count(m1.bits) == Count(m.bits) + first
  {
    TakenAllExact(m, first);
    if first == 1 {
      ClearThere(m.bits);
      TakenMore(m, 1);
      TakenNone(m);
      assert TakenSynced(m).bits == m.bits[FirstClear(m.bits) := true];
    }
    hide FirstClear, Count, Synced;
  }

  /** What a write does to the bitmap on disk, exactly: it is right afterwards if and only if the write
      does not leave the bit of a new table stale. */
  lemma WrittenExact(m: Maps, first: nat, has: nat, will: nat)
    requires Exact(m) && has <= will && first <= 1
    requires Count(m.bits) + first + (if has <= 12 < will then 2 else 0) <= |m.bits|
    ensures Exact(Written(m, first, has, will)) <==> !StaleTable(m.bits, first, has, will)
  {
    hide *;
    var m1 := TakenAll(m, first);
    StaleIs(m, first, has, will);
    WrittenIs(m, first, has, will);
    GrownIs(m1, has, will);
    FirstTaken(m, first);
    if has <= 12 < will {
      ClearThere(m1.bits);
      ClearThere(m1.bits[FirstClear(m1.bits) := true]);
      TableExact(m1, will - has);
    } else {
      TakenAllExact(m1, will - has);
    }
  }

  lemma StaleIs(m: Maps, first: nat, has: nat, will: nat)
    requires Exact(m)
    ensures StaleTable(m.bits, first, has, will) <==> has <= 12 < will && !TableCovered(TakenAll(m, first).bits)
  {
    assert m == Maps(m.bits, m.bits);
    hide TakenAll, TableCovered;
  }

  /** For example the last free bit of one sector goes to the table, and the first of the next to the
      block behind it. */
  lemma StaleCase(b: seq<bool>)
    requires |b| == 8192 && forall j :: 0 <= j < 8192 ==> (b[j] <==> j < 4095)
    ensures StaleTable(b, 0, 12, 13)
  {
    TakenNone(Maps(b, b));
    FirstAt(b, 4095);
    FirstAt(b[4095 := true], 4096);
    CoveredIs(b, 4095);
    hide FirstClear, TakenAll;
  }
}
