/** malloc_page and mfree_page (kernel/memory.c) for one region of one address space. */
module PageAlloc {
  import opened Bitmaps
  import opened Paging
  import opened PageTables
  import opened PageSpace
  import opened Frames

  /** palloc in the pool from a to b: the first clear bit, or -1 where the kernel stops. */
  method Palloc(used: seq<bool>, a: int, b: int) returns (x: int)
    requires 0 <= a <= b <= |used|
    ensures x == -1 <==> forall k :: a <= k < b ==> used[k]
    ensures x != -1 ==> a <= x < b && !used[x] && forall k :: a <= k < x ==> used[k]
  {
    var r := ScanBits(used[a .. b], 1);
    InPool(used, a, b, r);
    x := if r.At? then a + r.index else -1;
  }

  lemma InPool(used: seq<bool>, a: int, b: int, r: ScanResult)
    requires 0 <= a <= b <= |used| && ScanSpec(used[a .. b], true, 1, r)
    ensures !r.At? <==> forall k :: a <= k < b ==> used[k]
    ensures r.At? ==> a + r.index < b && !used[a + r.index] && forall k :: a <= k < a + r.index ==> used[k]
  {
    var pool := used[a .. b];
    assert forall k :: a <= k < b ==> used[k] == pool[k - a];
    if r.At? {
      assert RunAt(pool, r.index, 1);
      forall k | a <= k < a + r.index ensures used[k] {
        assert !RunAt(pool, k - a, 1);
      }
    }
  }

  /** A word of memory reached by a pointer. */
  function Load(mem: Mem, dir: int, p: int): (w: int)
    requires 0 <= p < BIG * WORDS
  {
    match Walk(mem, dir, p)
    case Fault => 0
    case Place(f, off) => if f in mem && 0 <= off / 4 < |mem[f]| then mem[f][off / 4] else 0
  }

  function Store(mem: Mem, dir: int, p: int, w: int): (mem': Mem)
    requires 0 <= p < BIG * WORDS
  {
    match Walk(mem, dir, p)
    case Fault => mem
    case Place(f, off) => if f in mem && 0 <= off / 4 < |mem[f]| then mem[f := mem[f][off / 4 := w]] else mem
  }

  function VAddr(s: int, j: int): (v: int) {
    (s + j) * PAGE
  }

  lemma VAddrIs(s: int, j: int)
    requires 0 <= s + j < SELF * WORDS
    ensures 0 <= VAddr(s, j) < BIG * WORDS && VAddr(s, j) / BIG == PageI(s, j)
      && VAddr(s, j) / PAGE % WORDS == PageK(s, j)
  {
    var n := s + j;
    Split(n / WORDS, n % WORDS, 0);
    assert VAddr(s, j) == n / WORDS * BIG + n % WORDS * PAGE;
  }

  /** The pointers of page_table_add reach the entries of page j. */
  lemma Pointers(s: Space, j: int)
    requires Ok(s) && 0 <= j < |s.live|
    ensures 0 <= s.start + j < SELF * WORDS
    ensures var v := VAddr(s.start, j);
      && 0 <= v < BIG * WORDS && 0 <= PdePtr(v) < BIG * WORDS && 0 <= PtePtr(v) < BIG * WORDS
      && s.dir in s.mem && |s.mem[s.dir]| == WORDS && 0 <= PageI(s.start, j) < SELF && 0 <= PageK(s.start, j) < WORDS
      && Load(s.mem, s.dir, PdePtr(v)) == s.mem[s.dir][PageI(s.start, j)]
      && (HasTable(s, j) <==> Present(s.mem[s.dir][PageI(s.start, j)]))
  {
    Parts(s);
    PageBounds(s.start, j);
    VAddrIs(s.start, j);
    var v := VAddr(s.start, j);
    PdeReached(s.mem, s.dir, v);
    PteReached(s.mem, s.dir, v);
    TableOf(s.mem, s.dir, s.tab, PageI(s.start, j));
    hide Ok, TablesOk, LiveOk, OwnOk, TabsOk, UsedOk, Fits, Present, FrameOf, PdePtr, PtePtr, Walk, VAddr, PageI, PageK;
  }

  /** Storing through pte_ptr sets the entry of page j and loading reads it. */
  lemma ThroughPte(s: Space, j: int, w: int)
    requires Ok(s) && 0 <= j < |s.live| && HasTable(s, j)
    ensures 0 <= s.start + j < SELF * WORDS
    ensures var v := VAddr(s.start, j);
      && 0 <= v < BIG * WORDS && 0 <= PtePtr(v) < BIG * WORDS
      && Store(s.mem, s.dir, PtePtr(v), w) == EntrySet(s, j, w)
      && var e := Load(s.mem, s.dir, PtePtr(v));
         FrameAt(s, j) == (if Present(e) then FrameOf(e) else NONE) && (Present(e) <==> FrameAt(s, j) != NONE)
  {
    Pointers(s, j);
    Parts(s);
    var v := VAddr(s.start, j);
    VAddrIs(s.start, j);
    PteReached(s.mem, s.dir, v);
    hide Ok, TablesOk, LiveOk, OwnOk, TabsOk, UsedOk, Fits, Present, FrameOf, PdePtr, PtePtr, Walk, VAddr, PageI, PageK;
  }

  /** Storing a table's frame through pde_ptr, then clearing the page that pte_ptr now points into. */
  lemma ThroughPde(s: Space, j: int, t: int)
    requires Ok(s) && 0 <= j < |s.live| && !HasTable(s, j) && InPools(s, t) && !s.used[t - s.base]
    ensures 0 <= s.start + j < SELF * WORDS && s.dir in s.mem && 0 <= PageI(s.start, j) < |s.mem[s.dir]|
    ensures var v := VAddr(s.start, j);
      && 0 <= v < BIG * WORDS && 0 <= PdePtr(v) < BIG * WORDS && 0 <= PtePtr(v) < BIG * WORDS
      && var mem1 := Store(s.mem, s.dir, PdePtr(v), Entry(t));
         && Walk(mem1, s.dir, PtePtr(v)).Place? && Walk(mem1, s.dir, PtePtr(v)).frame == t
         && mem1[t := Zeros()] == TableAdded(s.mem, s.dir, PageI(s.start, j), t)
  {
    Pointers(s, j);
    Parts(s);
    ClearFrame(s, t);
    var v, i := VAddr(s.start, j), PageI(s.start, j);
    VAddrIs(s.start, j);
    PdeReached(s.mem, s.dir, v);
    var mem1 := WithWord(s.mem, s.dir, i, Entry(t));
    EntryIs(t);
    StillMapped(s.mem, s.dir, i, Entry(t));
    PteReached(mem1, s.dir, v);
    hide Ok, TablesOk, LiveOk, OwnOk, TabsOk, UsedOk, Fits, Present, FrameOf, PdePtr, PtePtr, Walk, VAddr, PageI,
      PageK, Entry, SelfMapped;
  }

  lemma StillMapped(mem: Mem, dir: int, i: int, w: int)
    requires SelfMapped(mem, dir) && 0 <= i < SELF && dir in mem && i < |mem[dir]|
    ensures SelfMapped(WithWord(mem, dir, i, w), dir)
  {
    hide Entry;
  }

  // ---------- the code ----------

  datatype Alloc = Stopped | NoSpace | Pages(first: nat)

  class Allocator {
    const dir: int              // the page directory's frame
    const start: int            // first page of the region
    const base: int             // first frame of the pools
    const split: int            // frames of the kernel pool
    const lo: int               // the pool the region's frames come from
    const hi: int
    var mem: Mem
    var vbits: seq<bool>        // vaddr_bitmap
    var used: seq<bool>         // the bits of both pools
    ghost var live: seq<bool>
    ghost var tab: map<int, int>
    ghost var own: map<int, Owner>
    ghost var others: set<int>

    ghost function S(): Space
      reads this
    {
      Space(mem, dir, start, live, used, base, split, lo, hi, tab, own, others)
    }

    lemma Fields()
      ensures S() == Space(mem, dir, start, live, used, base, split, lo, hi, tab, own, others)
    {
    }

    /** An address space whose tables and pools are in order. */
    constructor (s: Space)
      requires Ok(s)
      ensures S() == s && vbits == s.live
    {
      dir, start, base, split, lo, hi := s.dir, s.start, s.base, s.split, s.lo, s.hi;
      mem, vbits, used := s.mem, s.live, s.used;
      live, tab, own, others := s.live, s.tab, s.own, s.others;
    }

    /** The branch of page_table_add for a directory entry that is not present: a frame of the kernel
        pool becomes its empty table. */
    method AddTable(j: nat) returns (ok: bool)
      requires Ok(S()) && j < |S().live| && !HasTable(S(), j)
      modifies `mem, `used, `tab, `own
      ensures ok <==> KernelFree(old(S())) >= 1
      ensures ok ==> TakesTable(old(S()), S(), j)
      ensures !ok ==> S() == old(S())
      ensures ok ==> Ok(S()) && HasTable(S(), j) && NewTable(old(S()), S(), j)
    {
      hide *;
      ghost var s := S();
      Fields();
      FitsIs(s);
      var x := Palloc(used, 0, split);
      KernelFreeIs(s, x);
      if x == -1 {
        return false;
      }
      ok := true;
      var t := base + x;
      PoolIs(s, t);
      ThroughPde(s, j, t);
      Pointers(s, j);
      AddTableOk(s, j, t);
      AddTableTakes(s, j, t);
      var v := VAddr(start, j);
      used := used[x := true];
      mem := Store(mem, dir, PdePtr(v), Entry(t));
      mem := mem[Walk(mem, dir, PtePtr(v)).frame := Zeros()];
      tab := tab[t := PageI(start, j)];
      own := own[t := Table(PageI(start, j))];
      Fields();
      TabledIs(s, PageI(start, j), t);
    }

    /** palloc and page_table_add for page j: a frame of the data pool, then a table if there is none
        yet, then the entry.  A pool without a clear frame stops the kernel (ok is false). */
    method MapPage(j: nat) returns (ok: bool)
      requires Ok(S()) && j < |S().live| && !S().live[j]
      modifies `mem, `used, `tab, `own, `live, `others
      ensures ok <==> Room(old(S()), 1, TablesFor(old(S()), j))
      ensures ok ==> Ok(S()) && MapsPage(old(S()), S(), j) && TakesFrames(old(S()), S(), j)
    {
      hide *;
      ghost var s := S();
      Fields();
      FitsIs(s);
      var x := Palloc(used, lo, hi);
      DataFreeIs(s, x, j);
      if x == -1 {
        return false;
      }
      ok := true;
      var f := base + x;
      PoolIs(s, f);
      FreshIs(s, f);
      ReservedOk(s, f);
      ReservedIs(s, f, j);
      used := used[x := true];
      others := others + {f};
      Fields();
      ReservedTakes(s, S(), x, j);
      Pointers(S(), j);
      var v := VAddr(start, j);
      if !Present(Load(mem, dir, PdePtr(v))) {
        ghost var r := S();
        ok := AddTable(j);
        if !ok {
          return;
        }
        PreparedTable(s, r, S(), j, f);
        WithTable(s, r, S(), j);
      } else {
        WithoutTable(s, S(), j);
      }
      ghost var r := S();
      Fields();
      MapReserved(s, r, j, f);
      ThroughPte(r, j, Entry(f));
      assert !Present(Load(mem, dir, PtePtr(v)));                // "pte repeat" cannot happen
      mem := Store(mem, dir, PtePtr(v), Entry(f));
      own := own[f := Data(j)];
      live := live[j := true];
      others := others - {f};
      Fields();
      MappedIs(r, j, f);
      MappedTakes(s, r, S(), j, f);
    }

    /** malloc_page: cnt pages in a row, each on a frame of its own that nobody used. */
    method MallocPage(cnt: nat) returns (r: Alloc)
      requires Ok(S()) && vbits == S().live && 0 < cnt < 3840
      modifies this
      ensures r == Stopped <==> Full(old(vbits)) || FramesShort(old(S()), cnt)
      ensures r == NoSpace <==> !Full(old(vbits)) && NoRun(old(vbits), cnt)
      ensures r == NoSpace ==> S() == old(S()) && vbits == old(vbits)
      ensures r.Pages? ==>
        && Ok(S()) && vbits == S().live && LeastRun(old(vbits), r.first, cnt) && Allocated(old(S()), S(), r.first, cnt)
        && Served(old(S()), S(), PagesFrom(|old(vbits)|, r.first, cnt), |old(vbits)|)
    {
      hide *;
      ghost var s := S();
      Fields();
      var found := ScanBits(vbits, cnt);
      if found == Panic {
        return Stopped;
      }
      if found == NotFound {
        NoneShort(s, cnt);
        return NoSpace;
      }
      var first := found.index;
      RunIs(vbits, first, cnt);
      FramesShortIs(s, first, cnt);
      ghost var want := PagesFrom(|s.live|, first, cnt);
      WantIs(s, first, cnt);
      vbits := SetRun(vbits, first, cnt, true);
      Fields();
      AllocatedNone(s, first);
      var c := 0;
      while c < cnt
        invariant 0 <= c <= cnt && first + cnt <= |s.live| && Ok(S()) && Allocated(s, S(), first, c)
          && vbits == SetRun(s.live, first, cnt, true)
        invariant |want| == |s.live| && Served(s, S(), want, first + c)
      {
        ghost var s1 := S();
        NextFree(s, s1, first, c, cnt);
        var ok := MapPage(first + c);
        if !ok {
          NotEnough(s, s1, want, first + c);
          return Stopped;
        }
        ServedMore(s, s1, S(), want, first + c);
        AllocatedMore(s, s1, S(), first, c);
        c := c + 1;
      }
      AllocatedLive(s, S(), first, cnt);
      ServedSkip(s, S(), want, first + cnt, |want|);
      ServedAll(s, S(), want);
      r := Pages(first);
    }

    /** pfree of page j's frame and page_table_pte_remove. */
    method UnmapPage(j: nat)
      requires Ok(S()) && j < |S().live| && S().live[j]
      modifies `mem, `used, `own, `live
      ensures Ok(S()) && FreesPage(old(S()), S(), j)
    {
      hide *;
      ghost var s := S();
      Fields();
      LiveHasTable(s, j);
      var v := VAddr(start, j);
      ThroughPte(s, j, 0);
      Parts(s);
      LiveFrame(s, j);
      LiveMapped(s, j);
      var e := Load(mem, dir, PtePtr(v));
      var f := FrameOf(e);
      assert lo <= f - base < hi;                         // the assertions of memory.c:474 and memory.c:486
      ThroughPte(s, j, e - 1);
      ClearedBit(e);
      UnmappedOk(s, j, e - 1);
      PoolIs(s, f);
      used := used[f - base := false];
      mem := Store(mem, dir, PtePtr(v), e - 1);
      live := live[j := false];
      own := own - {f};
      Fields();
      UnmappedIs(s, j, e - 1);
      FreesIs(s, j, e - 1);
    }

    /** mfree_page of cnt pages in use. */
    method MfreePage(first: nat, cnt: nat)
      requires Ok(S()) && vbits == S().live && 1 <= cnt && first + cnt <= |S().live|
      requires forall j :: first <= j < first + cnt ==> S().live[j]
      modifies this
      ensures Ok(S()) && vbits == S().live && Freed(old(S()), S(), first, cnt)
    {
      hide *;
      ghost var s := S();
      Fields();
      FreedNone(s, first);
      var c := 0;
      while c < cnt
        invariant 0 <= c <= cnt && first + cnt <= |s.live| && Ok(S()) && Freed(s, S(), first, c) && vbits == s.live
      {
        ghost var s1 := S();
        NextLive(s, s1, first, c, cnt);
        UnmapPage(first + c);
        FreedMore(s, s1, S(), first, c);
        c := c + 1;
      }
      FreedLive(s, S(), first, cnt);
      Fields();
      vbits := SetRun(vbits, first, cnt, false);
      Fields();
    }
  }

  /** The cnt pages from `first` on, out of n. */
  function PagesFrom(n: nat, first: nat, cnt: nat): (want: seq<bool>)
    ensures |want| == n && forall j :: 0 <= j < n ==> want[j] == (first <= j < first + cnt)
  {
    seq(n, j => first <= j < first + cnt)
  }

  /** There are cnt free pages in a row, but the pools do not have the frames for them. */
  ghost predicate FramesShort(s: Space, cnt: nat) {
    exists first: nat :: LeastRun(s.live, first, cnt) && !Enough(s, PagesFrom(|s.live|, first, cnt))
  }

  lemma FramesShortIs(s: Space, first: nat, cnt: nat)
    requires LeastRun(s.live, first, cnt) && cnt >= 1
    ensures FramesShort(s, cnt) <==> !Enough(s, PagesFrom(|s.live|, first, cnt))
  {
    hide Enough;
    forall f: nat | LeastRun(s.live, f, cnt) ensures f == first {
      assert RunAt(s.live, f, cnt) && RunAt(s.live, first, cnt);
    }
  }

  lemma NoneShort(s: Space, cnt: nat)
    requires NoRun(s.live, cnt) && cnt >= 1
    ensures !FramesShort(s, cnt)
  {
    hide Enough;
    assert forall f: nat :: RunAt(s.live, f, cnt) ==> f < |s.live|;
  }

  /** From s to s' page j's table took a frame of the kernel pool. */
  ghost predicate TakesTable(s: Space, s': Space, j: int) {
    && Taken(s, s', 0, 1) && s'.start == s.start && |s'.live| == |s.live|
    && forall k :: 0 <= k < |s.live| ==> (HasTable(s', k) <==> HasTable(s, k) || SameTable(s, j, k))
  }

  lemma KernelFreeIs(s: Space, x: int)
    requires Ok(s) && 0 <= s.split <= |s.used|
    requires x == -1 <==> forall k :: 0 <= k < s.split ==> s.used[k]
    ensures x != -1 <==> KernelFree(s) >= 1
  {
    hide Ok;
    ClearNone(s.used, 0, s.split);
  }

  lemma DataFreeIs(s: Space, x: int, j: int)
    requires 0 <= s.lo <= s.hi <= |s.used|
    requires x == -1 <==> forall k :: s.lo <= k < s.hi ==> s.used[k]
    ensures x == -1 ==> !Room(s, 1, TablesFor(s, j))
  {
    hide HasTable;
    ClearNone(s.used, s.lo, s.hi);
  }

  lemma PoolsApartIs(s: Space)
    requires Ok(s)
    ensures PoolsApart(s)
  {
    Parts(s);
  }

  /** Setting a frame of the data pool aside; then a table may be needed. */
  lemma ReservedTakes(s: Space, r: Space, x: int, j: int)
    requires Ok(s) && s.lo <= x < s.hi && 0 <= x < |s.used| && !s.used[x]
      && r == s.(used := s.used[x := true], others := r.others)
    ensures Taken(s, r, 1, 0) && forall k :: HasTable(r, k) <==> HasTable(s, k)
    ensures Room(s, 1, TablesFor(s, j)) <==> HasTable(r, j) || KernelFree(r) >= 1
  {
    PoolsApartIs(s);
    hide Ok;
    DataTaken(s, r, x);
    assert forall k :: HasTable(r, k) <==> HasTable(s, k);
    hide HasTable, DataFree, KernelFree;
  }

  lemma AddTableTakes(s: Space, j: int, t: int)
    requires Ok(s) && 0 <= j < |s.live| && !HasTable(s, j) && InPools(s, t) && t - s.base < s.split
      && !s.used[t - s.base]
    requires s.dir in s.mem && 0 <= PageI(s.start, j) < |s.mem[s.dir]| && Ok(Tabled(s, PageI(s.start, j), t))
    ensures TakesTable(s, Tabled(s, PageI(s.start, j), t), j)
  {
    var s' := Tabled(s, PageI(s.start, j), t);
    PoolsApartIs(s);
    ClearFrame(s, t);
    EntryIs(t);
    assert s'.mem[s'.dir] == s.mem[s.dir][PageI(s.start, j) := Entry(t)];
    hide Ok, PageI, PageK, HasTable, Present, FrameOf, Entry;
    TableTaken(s, s', t - s.base);
    forall k | 0 <= k < |s.live| ensures HasTable(s', k) <==> HasTable(s, k) || SameTable(s, j, k) {
      TableThere(s, k);
      TableThere(s', k);
    }
  }

  /** The table was there: only the page's frame is taken. */
  lemma WithoutTable(s: Space, r: Space, j: int)
    requires Ok(s) && 0 <= j < |s.live| && HasTable(r, j) && Taken(s, r, 1, 0) && r.start == s.start
      && |r.live| == |s.live|
    requires forall k :: HasTable(r, k) <==> HasTable(s, k)
    ensures TakesFrames(s, r, j)
  {
    hide Ok, HasTable, Taken, PageI;
    forall k | 0 <= k < |s.live| && SameTable(s, j, k) ensures HasTable(s, k) {
      TableThere(s, j);
      TableThere(s, k);
    }
  }

  /** A table was added after the page's frame was set aside. */
  lemma WithTable(s: Space, r0: Space, r: Space, j: int)
    requires Taken(s, r0, 1, 0) && TakesTable(r0, r, j) && r0.start == s.start && |r0.live| == |s.live|
      && !HasTable(r0, j)
    requires forall k :: HasTable(r0, k) <==> HasTable(s, k)
    ensures TakesFrames(s, r, j)
  {
    hide HasTable, Taken, PageI;
    TakenTwice(s, r0, r, 1, 0, 0, 1);
  }

  /** Setting the page's entry takes no frame more. */
  lemma MappedTakes(s: Space, r: Space, s': Space, j: int, f: int)
    requires TakesFrames(s, r, j) && Ok(r) && Ok(s') && |s'.live| == |r.live| && 0 <= j < |r.live| && HasTable(r, j)
    requires InPools(r, f)
      && s' == r.(mem := EntrySet(r, j, Entry(f)), live := s'.live, own := s'.own, others := s'.others)
    ensures TakesFrames(s, s', j)
  {
    Parts(r);
    SetTables(r, s'.(others := r.others), j, Entry(f));
    hide Ok, HasTable, Taken, PageI, TablesOk, Fits, LiveOk, OwnOk, TabsOk, UsedOk, EntrySet, Present;
    SameFrames(s, r, s', 1, TablesFor(s, j));
    forall k | 0 <= k < |s.live| ensures HasTable(s', k) <==> HasTable(r, k) {
      TableThere(r, k);
      TableThere(s', k);
    }
  }

  lemma SameFrames(s: Space, r: Space, s': Space, p: nat, t: nat)
    requires Taken(s, r, p, t) && s'.used == r.used && s'.lo == r.lo && s'.hi == r.hi && s'.split == r.split
    ensures Taken(s, s', p, t)
  {
  }

  lemma WantIs(s: Space, first: nat, cnt: nat)
    requires first + cnt <= |s.live|
    ensures var want := PagesFrom(|s.live|, first, cnt);
      && |want| == |s.live| && Served(s, s, want, first)
      && (forall j :: first <= j < first + cnt ==> want[j]) && forall j :: first + cnt <= j < |want| ==> !want[j]
  {
    var want := PagesFrom(|s.live|, first, cnt);
    hide Served;
    ServedNone(s, want);
    ServedSkip(s, s, want, 0, first);
  }

  /** Page k has a table exactly when its directory entry is present. */
  lemma TableThere(s: Space, k: int)
    requires Ok(s) && 0 <= k < |s.live|
    ensures s.dir in s.mem && 0 <= PageI(s.start, k) < |s.mem[s.dir]|
    ensures HasTable(s, k) <==> Present(s.mem[s.dir][PageI(s.start, k)])
  {
    Pointers(s, k);
    hide Ok, HasTable, Present, FrameOf, PageI, PageK, Load, PdePtr, PtePtr, VAddr;
  }

  /** From s to s' page j's directory entry got a table in a frame that was clear; no mapping changed. */
  ghost predicate NewTable(s: Space, s': Space, j: int) {
    exists t :: InPools(s, t) && t - s.base < s.split && !s.used[t - s.base] && s.dir in s.mem
      && 0 <= PageI(s.start, j) < |s.mem[s.dir]|
      && s' == Tabled(s, PageI(s.start, j), t)
  }

  lemma FitsIs(s: Space)
    requires Ok(s)
    ensures 0 <= s.lo <= s.hi <= |s.used| && 0 <= s.split <= |s.used|
  {
  }

  lemma PoolIs(s: Space, f: int)
    ensures InPools(s, f) <==> 0 <= f - s.base < |s.used|
  {
  }

  lemma TabledIs(s: Space, i: int, t: int)
    requires s.dir in s.mem && 0 <= i < |s.mem[s.dir]| && 0 <= t - s.base < |s.used| && InPools(s, t)
    ensures Tabled(s, i, t) ==
      Space(TableAdded(s.mem, s.dir, i, t), s.dir, s.start, s.live, s.used[t - s.base := true], s.base, s.split,
            s.lo, s.hi, s.tab[t := i], s.own[t := Table(i)], s.others)
  {
  }

  lemma AddTableOk(s: Space, j: int, t: int)
    requires Ok(s) && 0 <= j < |s.live| && !HasTable(s, j) && InPools(s, t) && t - s.base < s.split
      && !s.used[t - s.base]
    ensures s.dir in s.mem && 0 <= PageI(s.start, j) < |s.mem[s.dir]|
    ensures Ok(Tabled(s, PageI(s.start, j), t)) && HasTable(Tabled(s, PageI(s.start, j), t), j)
      && NewTable(s, Tabled(s, PageI(s.start, j), t), j)
  {
    Pointers(s, j);
    hide Ok, Present, FrameOf, VAddr, PdePtr, PtePtr, PageI, PageK, Load;
    TabledOk(s, PageI(s.start, j), t);
    Pointers(Tabled(s, PageI(s.start, j), t), j);
  }

  /** From s to s' page j, and no other, got a frame that was clear; tables may have been added. */
  ghost predicate MapsPage(s: Space, s': Space, j: int) {
    && SameRegion(s, s') && 0 <= j < |s.live| && s'.live == s.live[j := true] && s'.others == s.others
    && FreshFrame(s, FrameAt(s', j))
    && (forall j' :: 0 <= j' < |s.live| && j' != j ==> FrameAt(s', j') == FrameAt(s, j'))
    && (forall x :: 0 <= x < |s.used| && s.used[x] ==> s'.used[x]) && Private(s, s') && OtherEntries(s, s', j)
  }

  /** No directory entry but that of page j changed. */
  ghost predicate OtherEntries(s: Space, s': Space, j: int) {
    && s.dir in s.mem && s'.dir in s'.mem && |s.mem[s.dir]| == |s'.mem[s'.dir]| == WORDS
    && forall q :: 0 <= q < WORDS && q != PageI(s.start, j) ==> s'.mem[s'.dir][q] == s.mem[s.dir][q]
  }

  const USER_TABLES := 768      // the directory entries of user space

  /** A region in user space, whose tables are all this space's own. */
  ghost predicate UserSpace(s: Space) {
    && s.start + |s.live| <= USER_TABLES * WORDS && s.dir in s.mem && |s.mem[s.dir]| == WORDS
    && forall i :: 0 <= i < USER_TABLES && Present(s.mem[s.dir][i]) ==> FrameOf(s.mem[s.dir][i]) in s.own
  }

  /** A user space stays one, and but for the directory no frame of a page, of others, or outside the
      pools is written. */
  ghost predicate Private(s: Space, s': Space) {
    UserSpace(s) ==> UserSpace(s') && forall g :: Content(s, g) ==> g in s'.mem && s'.mem[g] == s.mem[g]
  }

  ghost predicate Content(s: Space, g: int) {
    g in s.mem && g != s.dir && (g in s.others || !InPools(s, g) || (g in s.own && s.own[g].Data?))
  }

  ghost predicate SameRegion(s: Space, s': Space) {
    && s'.dir == s.dir && s'.start == s.start && s'.base == s.base && s'.split == s.split && s'.lo == s.lo
    && s'.hi == s.hi
    && |s'.live| == |s.live| && |s'.used| == |s.used|
  }

  ghost predicate FreshFrame(s: Space, f: int) {
    InPools(s, f) && s.lo <= f - s.base < s.hi && !s.used[f - s.base]
  }

  /** Between setting frame f aside and mapping it: tables may have been added. */
  ghost predicate Prepared(s: Space, r: Space, j: int, f: int) {
    && InPools(s, f) && SameRegion(s, r) && (forall g :: g in s.own ==> g in r.own && r.own[g] == s.own[g])
    && r.used[f - s.base] && r.live == s.live && r.others == s.others + {f} && f !in r.tab && HasTable(r, j)
    && OtherEntries(s, r, j)
    && (forall j' :: 0 <= j' < |s.live| ==> FrameAt(r, j') == FrameAt(s, j'))
    && (forall x :: 0 <= x < |s.used| && s.used[x] ==> r.used[x]) && Private(s, r)
  }

  lemma FreshIs(s: Space, f: int)
    requires InPools(s, f) && s.lo <= f - s.base < s.hi && !s.used[f - s.base]
    ensures FreshFrame(s, f)
  {
  }

  lemma ReservedIs(s: Space, f: int, j: int)
    requires Ok(s) && FreshFrame(s, f) && 0 <= j < |s.live|
    ensures InPools(s, f) && Ok(Reserved(s, f))
    ensures Reserved(s, f) == s.(used := s.used[f - s.base := true], others := s.others + {f})
    ensures HasTable(Reserved(s, f), j) ==> Prepared(s, Reserved(s, f), j, f)
  {
    hide Ok;
    ReservedOk(s, f);
    TableThere(s, j);
    DirWords(s);
    hide FrameAt;
  }

  lemma DirWords(s: Space)
    requires Ok(s)
    ensures s.dir in s.mem && |s.mem[s.dir]| == WORDS
  {
    Parts(s);
  }

  lemma PreparedTable(s: Space, r0: Space, r: Space, j: int, f: int)
    requires Ok(s) && FreshFrame(s, f) && r0 == Reserved(s, f) && 0 <= j < |s.live| && !HasTable(r0, j)
    requires Ok(r) && HasTable(r, j) && NewTable(r0, r, j)
    ensures Prepared(s, r, j, f)
  {
    hide Ok, FrameAt, HasTable, TablesOk, LiveOk, OwnOk, TabsOk, UsedOk, Fits, Private;
    ReservedOk(s, f);
    var i := PageI(r0.start, j);
    var t :| InPools(r0, t) && t - r0.base < r0.split && !r0.used[t - r0.base] && r0.dir in r0.mem
      && 0 <= i < |r0.mem[r0.dir]| && r == Tabled(r0, i, t);
    ClearFrame(r0, t);
    NewTableFrames(r0, j, t);
    TabledPrivate(r0, i, t);
    ReservedPrivate(s, f, r);
    DirWords(s);
    PreparedParts(s, r, i, t, j, f);
  }

  lemma NewTableFrames(r0: Space, j: int, t: int)
    requires Ok(r0) && 0 <= j < |r0.live| && !HasTable(r0, j) && InPools(r0, t) && !r0.used[t - r0.base]
    ensures r0.dir in r0.mem && 0 <= PageI(r0.start, j) < |r0.mem[r0.dir]|
    ensures forall j' :: 0 <= j' < |r0.live| ==> FrameAt(Tabled(r0, PageI(r0.start, j), t), j') == FrameAt(r0, j')
  {
    hide Ok, FrameAt, TablesOk, LiveOk, OwnOk, TabsOk, UsedOk, Fits, HasTable, Load, PdePtr, PtePtr, VAddr, Present,
      FrameOf;
    Pointers(r0, j);
    Parts(r0);
    ClearFrame(r0, t);
    TabledFrames(r0, PageI(r0.start, j), t);
  }

  lemma ReservedPrivate(s: Space, f: int, r: Space)
    requires InPools(s, f) && f !in s.own && Private(Reserved(s, f), r)
    ensures Private(s, r)
  {
    assert UserSpace(s) ==> UserSpace(Reserved(s, f));
    assert forall g :: Content(s, g) ==> Content(Reserved(s, f), g);
  }

  lemma PreparedParts(s: Space, r: Space, i: int, t: int, j: int, f: int)
    requires InPools(s, f) && InPools(s, t) && t != f && t !in s.own && f !in s.tab && Private(s, r) && HasTable(r, j)
    requires s.dir in s.mem && 0 <= i < |s.mem[s.dir]| == WORDS && r == Tabled(Reserved(s, f), i, t)
      && i == PageI(s.start, j) && t != s.dir
    requires forall j' :: 0 <= j' < |s.live| ==> FrameAt(r, j') == FrameAt(s, j')
    ensures Prepared(s, r, j, f)
  {
    assert OtherEntries(s, r, j);
    hide FrameAt, HasTable, Private, TableAdded, OtherEntries;
  }

  lemma TabledPrivate(s: Space, i: int, t: int)
    requires InPools(s, t) && t !in s.others && t !in s.own && t != s.dir && s.dir in s.mem && 0 <= i < |s.mem[s.dir]|
      && t >= 0
    ensures Private(s, Tabled(s, i, t))
  {
    EntryIs(t);
    hide Entry, Present, FrameOf;
  }

  lemma MappedPrivate(s: Space, j: int, f: int)
    requires HasTable(s, j) && 0 <= j < |s.live| && InPools(s, f) && Ok(s)
    requires s.dir in Mapped(s, j, f).mem && Mapped(s, j, f).mem[s.dir] == s.mem[s.dir]
    ensures Private(s, Mapped(s, j, f))
  {
    Parts(s);
    PageBounds(s.start, j);
    assert UserSpace(s) ==> PageI(s.start, j) < USER_TABLES;
    TableOf(s.mem, s.dir, s.tab, PageI(s.start, j));
    hide Ok, TablesOk, LiveOk, UsedOk, Fits, Entry, Present, FrameOf, FrameAt, PageI, PageK;
  }

  /** The reserved frame is mapped. */
  lemma MapReserved(s: Space, r: Space, j: int, f: int)
    requires Ok(s) && FreshFrame(s, f) && 0 <= j < |s.live| && !s.live[j] && Ok(r) && Prepared(s, r, j, f)
    ensures FrameAt(r, j) == NONE && InPools(r, f) && r.used[f - r.base] && HasTable(Unreserved(r, f), j)
    ensures Ok(Mapped(Unreserved(r, f), j, f)) && MapsPage(s, Mapped(Unreserved(r, f), j, f), j)
  {
    hide Ok;
    ClearFrame(s, f);
    Parts(s);
    Parts(r);
    UnreservedOk(r, f);
    var u := Unreserved(r, f);
    hide Present, FrameOf, PageI, PageK;
    MappedOk(u, j, f);
    Parts(u);
    SetTables(u, Mapped(u, j, f), j, Entry(f));
    MappedPrivate(u, j, f);
    PrivateTwice(s, r, u, Mapped(u, j, f), f);
    assert OtherEntries(s, Mapped(u, j, f), j);
    hide OtherEntries, Private, FrameAt, HasTable, TablesOk, OwnOk, TabsOk, UsedOk, Fits;
    assert s.others + {f} - {f} == s.others;
    assert FrameAt(s, j) == NONE;
    hide LiveOk;
    var s' := Mapped(u, j, f);
    assert s'.others == s.others;
    assert forall x :: 0 <= x < |s.used| && s.used[x] ==> s'.used[x];
  }

  lemma PrivateTwice(s: Space, r: Space, u: Space, s': Space, f: int)
    requires InPools(r, f) && u == Unreserved(r, f) && r.others == s.others + {f} && f !in s.others && f !in r.own
      && r.dir == s.dir
    requires f !in s.own && (forall g :: g in s.own ==> g in r.own && r.own[g] == s.own[g])
    requires Private(s, r) && Private(u, s') && SameRegion(s, r)
    ensures Private(s, s')
  {
    hide Present, FrameOf;
    assert UserSpace(r) ==> UserSpace(u);
  }

  lemma MappedIs(r: Space, j: int, f: int)
    requires InPools(r, f) && HasTable(r, j) && HasTable(Unreserved(r, f), j) && 0 <= j < |r.live| && r.used[f - r.base]
    ensures Mapped(Unreserved(r, f), j, f) ==
      r.(mem := EntrySet(r, j, Entry(f)), live := r.live[j := true], own := r.own[f := Data(j)],
        others := r.others - {f})
  {
    hide HasTable, Entry;
    assert r.used[f - r.base := false][f - r.base := true] == r.used;
  }

  // ---------- runs of pages ----------

  /** From s to s' the c pages from `first` on got frames that were clear; nothing else moved. */
  ghost predicate Allocated(s: Space, s': Space, first: nat, c: nat) {
    && SameRegion(s, s') && first + c <= |s.live| && s'.live == SetRun(s.live, first, c, true) && s'.others == s.others
    && (forall j :: 0 <= j < |s.live| && !(first <= j < first + c) ==> FrameAt(s', j) == FrameAt(s, j))
    && (forall j :: first <= j < first + c ==> FreshFrame(s, FrameAt(s', j)))
    && (forall x :: 0 <= x < |s.used| && s.used[x] ==> s'.used[x])
  }

  lemma RunIs(bits: seq<bool>, i: int, n: nat)
    requires LeastRun(bits, i, n)
    ensures 0 <= i && i + n <= |bits|
  {
    assert RunAt(bits, i, n);
  }

  lemma AllocatedNone(s: Space, first: nat)
    requires first <= |s.live|
    ensures Allocated(s, s, first, 0)
  {
    hide FrameAt;
    assert SetRun(s.live, first, 0, true) == s.live;
  }

  lemma NextFree(s: Space, s1: Space, first: nat, c: nat, cnt: nat)
    requires Allocated(s, s1, first, c) && c < cnt && LeastRun(s.live, first, cnt)
    ensures first + c < |s1.live| && !s1.live[first + c]
  {
    hide FrameAt;
    assert RunAt(s.live, first, cnt);
  }

  lemma AllocatedMore(s: Space, s1: Space, s2: Space, first: nat, c: nat)
    requires Allocated(s, s1, first, c) && first + c < |s.live| && MapsPage(s1, s2, first + c)
    ensures Allocated(s, s2, first, c + 1)
  {
    hide FrameAt;
    assert SetRun(s.live, first, c, true)[first + c := true] == SetRun(s.live, first, c + 1, true);
    forall j | first <= j < first + c + 1 ensures FreshFrame(s, FrameAt(s2, j)) {
      if j < first + c {
        assert FreshFrame(s, FrameAt(s1, j));
      }
    }
  }

  lemma AllocatedLive(s: Space, s': Space, first: nat, cnt: nat)
    requires Allocated(s, s', first, cnt)
    ensures first + cnt <= |s.live| && s'.live == SetRun(s.live, first, cnt, true)
  {
  }

  /** From s to s' page j gave its frame back. */
  ghost predicate FreesPage(s: Space, s': Space, j: int) {
    && SameRegion(s, s') && 0 <= j < |s.live| && s'.live == s.live[j := false] && s'.others == s.others
    && (forall j' :: 0 <= j' < |s.live| && j' != j ==> FrameAt(s', j') == FrameAt(s, j'))
    && InPools(s, FrameAt(s, j)) && s'.used == s.used[FrameAt(s, j) - s.base := false]
  }

  lemma LiveMapped(s: Space, j: int)
    requires LiveOk(s) && 0 <= j < |s.live| && s.live[j]
    ensures FrameAt(s, j) != NONE
  {
  }

  lemma ClearedBit(e: int)
    requires Present(e)
    ensures !Present(e - 1)
  {
  }

  lemma UnmappedIs(s: Space, j: int, w: int)
    requires HasTable(s, j) && 0 <= j < |s.live| && InPools(s, FrameAt(s, j))
    ensures Unmapped(s, j, w) ==
      s.(mem := EntrySet(s, j, w), live := s.live[j := false], used := s.used[FrameAt(s, j) - s.base := false],
        own := s.own - {FrameAt(s, j)})
  {
  }

  lemma FreesIs(s: Space, j: int, w: int)
    requires HasTable(s, j) && 0 <= j < |s.live| && InPools(s, FrameAt(s, j))
    requires forall j' :: 0 <= j' < |s.live| ==>
        FrameAt(Unmapped(s, j, w), j') == if j' == j then NONE else FrameAt(s, j')
    ensures FreesPage(s, Unmapped(s, j, w), j)
  {
    hide FrameAt, HasTable;
  }

  /** From s to s' the c pages from `first` on gave their frames back; nothing else moved. */
  ghost predicate Freed(s: Space, s': Space, first: nat, c: nat) {
    && SameRegion(s, s') && first + c <= |s.live| && s'.live == SetRun(s.live, first, c, false) && s'.others == s.others
    && (forall j :: 0 <= j < |s.live| && !(first <= j < first + c) ==> FrameAt(s', j) == FrameAt(s, j))
    && (forall x :: 0 <= x < |s.used| ==>
          s'.used[x] == (s.used[x] && !exists j :: first <= j < first + c && FrameAt(s, j) == s.base + x))
  }

  lemma FreedNone(s: Space, first: nat)
    requires first <= |s.live|
    ensures Freed(s, s, first, 0)
  {
    hide FrameAt;
    assert SetRun(s.live, first, 0, false) == s.live;
  }

  lemma NextLive(s: Space, s1: Space, first: nat, c: nat, cnt: nat)
    requires Freed(s, s1, first, c) && c < cnt && first + cnt <= |s.live|
      && forall j :: first <= j < first + cnt ==> s.live[j]
    ensures first + c < |s1.live| && s1.live[first + c]
  {
    hide FrameAt;
  }

  lemma FreedMore(s: Space, s1: Space, s2: Space, first: nat, c: nat)
    requires Freed(s, s1, first, c) && first + c < |s.live| && FreesPage(s1, s2, first + c)
    ensures Freed(s, s2, first, c + 1)
  {
    hide FrameAt;
    assert SetRun(s.live, first, c, false)[first + c := false] == SetRun(s.live, first, c + 1, false);
    assert FrameAt(s1, first + c) == FrameAt(s, first + c);
  }

  lemma FreedLive(s: Space, s': Space, first: nat, cnt: nat)
    requires Freed(s, s', first, cnt)
    ensures first + cnt <= |s.live| && s'.live == SetRun(s.live, first, cnt, false)
  {
  }

  /** mfree_page undoes malloc_page: the same pages are in use on the same frames as before, and no
      data frame stays taken. */
  lemma FreeUndoes(s: Space, s1: Space, s2: Space, first: nat, cnt: nat)
    requires Allocated(s, s1, first, cnt) && Freed(s1, s2, first, cnt) && Ok(s) && Ok(s1) && Ok(s2)
      && RunAt(s.live, first, cnt)
    ensures s2.live == s.live && forall j :: 0 <= j < |s.live| ==> FrameAt(s2, j) == FrameAt(s, j)
    ensures forall j :: first <= j < first + cnt ==> !s2.used[FrameAt(s1, j) - s.base]
  {
    assert SetRun(SetRun(s.live, first, cnt, true), first, cnt, false) == s.live;
    Parts(s);
    Parts(s2);
    hide Ok, FrameAt, TablesOk, OwnOk, TabsOk, UsedOk, Fits;
    forall j | first <= j < first + cnt ensures FrameAt(s2, j) == FrameAt(s, j) {
      assert !s.live[j] && !s2.live[j];
    }
    forall j | first <= j < first + cnt ensures !s2.used[FrameAt(s1, j) - s.base] {
      assert FreshFrame(s, FrameAt(s1, j));
    }
  }
}
