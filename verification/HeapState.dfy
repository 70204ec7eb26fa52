/** The kernel's heap (kernel/memory.c): arenas of small blocks in seven size classes, runs of pages
    for large requests, and the books about them. */
module HeapState {
  import opened Bitmaps

  const PAGE := 4096
  const HEADER := 12             // sizeof(struct arena)
  const CLASSES := 7

  /** block_desc_init: 16 bytes, doubled six times. */
  function BlockSize(d: int): (n: int)
    requires 0 <= d < CLASSES
  {
    match d
    case 0 => 16
    case 1 => 32
    case 2 => 64
    case 3 => 128
    case 4 => 256
    case 5 => 512
    case _ => 1024
  }

  /** blocks_per_arena */
  function PerArena(d: int): (n: int)
    requires 0 <= d < CLASSES
  {
    (PAGE - HEADER) / BlockSize(d)
  }

  /** The classes double in size from 16 bytes, and as many blocks are in an arena as fit behind its header. */
  lemma Sizes(d: int)
    requires 0 <= d < CLASSES
    ensures 3 <= PerArena(d) && 16 <= BlockSize(d) <= 1024
    ensures HEADER + PerArena(d) * BlockSize(d) <= PAGE < HEADER + (PerArena(d) + 1) * BlockSize(d)
    ensures if d == 0 then BlockSize(d) == 16 else BlockSize(d) == 2 * BlockSize(d - 1)
  {
  }

  /** A page holds an arena of small blocks, with cnt of them free, or starts a large one of cnt pages. */
  datatype Arena = Small(d: int, cnt: int) | Large(cnt: int)

  /** Block k of the arena in page p. */
  datatype Blk = Blk(p: int, k: int)

  /** The arenas by page, the free list of each class, which pages are taken, and as history: which
      blocks of an arena are free, and which arena a page belongs to. */
  datatype Heap = Heap(arenas: map<int, Arena>, free: seq<seq<Blk>>, vbits: seq<bool>,
                       avail: map<int, set<int>>, owner: map<int, int>, foreign: set<int>)

  function Pages(a: Arena): (n: int) {
    if a.Small? then 1 else a.cnt
  }

  ghost predicate NoDup(q: seq<Blk>) {
    forall i, j :: 0 <= i < j < |q| ==> q[i] != q[j]
  }

  /** A small arena's count is the number of its free blocks. */
  ghost predicate ArenasOk(h: Heap) {
    && |h.free| == CLASSES
    && (forall p :: p in h.arenas && h.arenas[p].Small? ==>
          && 0 <= h.arenas[p].d < CLASSES && p in h.avail && h.arenas[p].cnt == |h.avail[p]|
          && forall k :: k in h.avail[p] ==> 0 <= k < PerArena(h.arenas[p].d))
    && (forall p :: p in h.arenas && h.arenas[p].Large? ==> h.arenas[p].cnt >= 1)
  }

  /** Block b is a free block of an arena of class d. */
  predicate FreeBlock(h: Heap, d: int, b: Blk) {
    b.p in h.arenas && h.arenas[b.p].Small? && h.arenas[b.p].d == d && b.p in h.avail && b.k in h.avail[b.p]
  }

  /** Each free list holds exactly the free blocks of the arenas of its class, each once. */
  ghost predicate ListsOk(h: Heap)
    requires |h.free| == CLASSES
  {
    forall d :: 0 <= d < CLASSES ==>
      NoDup(h.free[d]) && forall b :: b in h.free[d] <==> FreeBlock(h, d, b)
  }

  /** Arenas lie on pages of their own, and exactly these, and the pages others took, are taken. */
  ghost predicate PagesOk(h: Heap) {
    && (forall p :: p in h.arenas ==> Covers(h, p, Pages(h.arenas[p])))
    && (forall q :: q in h.owner ==>
          0 <= q < |h.vbits| && q !in h.foreign && h.owner[q] in h.arenas
            && h.owner[q] <= q < h.owner[q] + Pages(h.arenas[h.owner[q]]))
    && (forall q :: 0 <= q < |h.vbits| ==> (h.vbits[q] <==> q in h.owner || q in h.foreign))
  }

  ghost predicate Covers(h: Heap, p: int, n: int) {
    forall q :: p <= q < p + n ==> q in h.owner && h.owner[q] == p
  }

  ghost predicate Books(h: Heap) {
    ArenasOk(h) && ListsOk(h) && PagesOk(h)
  }

  /** Not all blocks of the arena are free. */
  predicate InUse(a: Arena) {
    a.Small? && 0 <= a.d < CLASSES ==> a.cnt < PerArena(a.d)
  }

  /** No arena but perhaps that in page x has all its blocks free. */
  ghost predicate TightBut(h: Heap, x: int) {
    forall p :: p in h.arenas && p != x ==> InUse(h.arenas[p])
  }

  ghost predicate Tight(h: Heap) {
    forall p :: p in h.arenas ==> InUse(h.arenas[p])
  }

  ghost predicate Ok(h: Heap) {
    Books(h) && Tight(h)
  }

  /** Block k of page p has been handed out and not been given back. */
  ghost predicate Live(h: Heap, b: Blk) {
    && b.p in h.arenas && h.arenas[b.p].Small? && 0 <= h.arenas[b.p].d < CLASSES && b.p in h.avail
    && 0 <= b.k < PerArena(h.arenas[b.p].d) && b.k !in h.avail[b.p]
  }

  // ---------- block taken, block given back ----------

  ghost function Took(h: Heap, d: int): (h': Heap)
    requires |h.free| == CLASSES && 0 <= d < CLASSES && h.free[d] != []
    requires h.free[d][0].p in h.arenas && h.arenas[h.free[d][0].p].Small? && h.free[d][0].p in h.avail
  {
    var b := h.free[d][0];
    h.(arenas := h.arenas[b.p := h.arenas[b.p].(cnt := h.arenas[b.p].cnt - 1)], free := h.free[d := h.free[d][1..]],
       avail := h.avail[b.p := h.avail[b.p] - {b.k}])
  }

  /** A set of numbers below n has at most n members, and n only if it has them all. */
  lemma {:induction false} Bounded(s: set<int>, n: nat)
    requires forall k :: k in s ==> 0 <= k < n
    ensures |s| <= n && (|s| == n ==> forall k :: 0 <= k < n ==> k in s)
  {
    if n == 0 {
      assert forall k :: k !in s;
      assert s == {};
    } else {
      var s' := s - {n - 1};
      Bounded(s', n - 1);
      assert |s'| == |s| - if n - 1 in s then 1 else 0;
    }
  }

  lemma TookOk(h: Heap, d: int)
    requires Books(h) && 0 <= d < CLASSES && h.free[d] != [] && TightBut(h, h.free[d][0].p)
    ensures FreeBlock(h, d, h.free[d][0]) && Ok(Took(h, d)) && Live(Took(h, d), h.free[d][0])
  {
    var b := h.free[d][0];
    assert b in h.free[d];
    var h' := Took(h, d);
    assert |h.avail[b.p] - {b.k}| == |h.avail[b.p]| - 1;
    Bounded(h.avail[b.p], PerArena(d));
    TookLists(h, d);
    hide ListsOk, NoDup, PerArena;
    assert ArenasOk(h');
    assert PagesOk(h');
  }

  lemma TookLists(h: Heap, d: int)
    requires |h.free| == CLASSES && ListsOk(h) && 0 <= d < CLASSES && h.free[d] != [] && FreeBlock(h, d, h.free[d][0])
    ensures ListsOk(Took(h, d))
  {
    var b, h' := h.free[d][0], Took(h, d);
    var rest := h.free[d][1..];
    assert forall x :: x in h.free[d] <==> x == b || x in rest;
    assert b !in rest;
    hide NoDup;
    assert NoDup(rest) by {
      TailNoDup(h.free[d]);
    }
  }

  lemma TailNoDup(q: seq<Blk>)
    requires NoDup(q) && q != []
    ensures NoDup(q[1..])
  {
  }

  ghost function Gave(h: Heap, b: Blk): (h': Heap)
    requires |h.free| == CLASSES && b.p in h.arenas && h.arenas[b.p].Small? && 0 <= h.arenas[b.p].d < CLASSES
      && b.p in h.avail
  {
    var d := h.arenas[b.p].d;
    h.(arenas := h.arenas[b.p := h.arenas[b.p].(cnt := h.arenas[b.p].cnt + 1)], free := h.free[d := h.free[d] + [b]],
       avail := h.avail[b.p := h.avail[b.p] + {b.k}])
  }

  lemma GaveOk(h: Heap, b: Blk)
    requires Ok(h) && Live(h, b)
    ensures Books(Gave(h, b)) && TightBut(Gave(h, b), b.p)
  {
    var h', d := Gave(h, b), h.arenas[b.p].d;
    assert |h.avail[b.p] + {b.k}| == |h.avail[b.p]| + 1;
    GaveLists(h, b);
    hide ListsOk, NoDup, PerArena;
    assert ArenasOk(h');
    assert PagesOk(h');
  }

  lemma GaveLists(h: Heap, b: Blk)
    requires |h.free| == CLASSES && ListsOk(h) && Live(h, b)
    ensures ListsOk(Gave(h, b))
  {
    var h', d := Gave(h, b), h.arenas[b.p].d;
    var q := h.free[d] + [b];
    assert forall x :: x in q <==> x in h.free[d] || x == b;
    assert b !in h.free[d];
    hide NoDup;
    assert NoDup(q) by {
      MoreNoDup(h.free[d], b);
    }
  }

  lemma MoreNoDup(q: seq<Blk>, b: Blk)
    requires NoDup(q) && b !in q
    ensures NoDup(q + [b])
  {
  }

  // ---------- an arena of small blocks comes ----------

  /** The blocks 0 to n - 1 of page p, in order. */
  function Blocks(p: int, n: nat): (q: seq<Blk>)
    ensures |q| == n && forall k :: 0 <= k < n ==> q[k] == Blk(p, k)
  {
    seq(n, k => Blk(p, k))
  }

  /** The numbers below n. */
  ghost function Below(n: nat): (s: set<int>)
    ensures |s| == n && forall k :: k in s <==> 0 <= k < n
  {
    if n == 0 then {} else Below(n - 1) + {n - 1}
  }

  ghost function WithArena(h: Heap, p: int, d: int): (h': Heap)
    requires |h.free| == CLASSES && 0 <= d < CLASSES && 0 <= p < |h.vbits|
  {
    h.(arenas := h.arenas[p := Small(d, PerArena(d))], free := h.free[d := h.free[d] + Blocks(p, PerArena(d))],
       vbits := h.vbits[p := true], avail := h.avail[p := Below(PerArena(d))], owner := h.owner[p := p])
  }

  lemma WithArenaOk(h: Heap, p: int, d: int)
    requires Ok(h) && 0 <= d < CLASSES && 0 <= p < |h.vbits| && !h.vbits[p] && h.free[d] == []
    ensures Books(WithArena(h, p, d)) && TightBut(WithArena(h, p, d), p) && WithArena(h, p, d).free[d][0] == Blk(p, 0)
  {
    FreePage(h, p);
    Sizes(d);
    ArenaLists(h, p, d);
    ArenaArenas(h, p, d);
    ArenaPages(h, p, d);
    hide ArenasOk, ListsOk, PagesOk, NoDup, PerArena, Below;
  }

  /** A page whose bit is clear belongs to no arena. */
  lemma FreePage(h: Heap, p: int)
    requires ArenasOk(h) && PagesOk(h) && 0 <= p < |h.vbits| && !h.vbits[p]
    ensures p !in h.owner && p !in h.arenas && p !in h.foreign
  {
    hide PerArena;
    assert p in h.arenas ==> p <= p < p + Pages(h.arenas[p]);
  }

  lemma ArenaArenas(h: Heap, p: int, d: int)
    requires ArenasOk(h) && 0 <= d < CLASSES && 0 <= p < |h.vbits| && PerArena(d) >= 0
    ensures ArenasOk(WithArena(h, p, d))
  {
    hide PerArena, Blocks;
  }

  lemma ArenaPages(h: Heap, p: int, d: int)
    requires |h.free| == CLASSES && PagesOk(h) && 0 <= d < CLASSES && 0 <= p < |h.vbits| && PerArena(d) >= 0
    requires p !in h.owner && p !in h.arenas && p !in h.foreign
    ensures PagesOk(WithArena(h, p, d))
  {
    hide PerArena, Blocks, Below;
  }

  lemma ArenaLists(h: Heap, p: int, d: int)
    requires |h.free| == CLASSES && ListsOk(h) && 0 <= d < CLASSES && 0 <= p < |h.vbits| && p !in h.arenas
      && h.free[d] == [] && PerArena(d) >= 0
    ensures ListsOk(WithArena(h, p, d))
  {
    hide PerArena, Below, Blocks, ListsOk;
    var h' := WithArena(h, p, d);
    forall e | 0 <= e < CLASSES ensures NoDup(h'.free[e]) && forall b :: b in h'.free[e] <==> FreeBlock(h', e, b) {
      if e == d {
        ArenaOwnList(h, p, d);
      } else {
        ArenaOtherList(h, p, d, e);
      }
    }
    ListsAre(h');
  }

  lemma ListsAre(h: Heap)
    requires |h.free| == CLASSES
    requires forall e :: 0 <= e < CLASSES ==> NoDup(h.free[e]) && forall b :: b in h.free[e] <==> FreeBlock(h, e, b)
    ensures ListsOk(h)
  {
  }

  lemma ArenaOtherList(h: Heap, p: int, d: int, e: int)
    requires |h.free| == CLASSES && ListsOk(h) && 0 <= d < CLASSES && 0 <= e < CLASSES && e != d && 0 <= p < |h.vbits|
      && p !in h.arenas && PerArena(d) >= 0
    ensures var h' := WithArena(h, p, d); NoDup(h'.free[e]) && forall b :: b in h'.free[e] <==> FreeBlock(h', e, b)
  {
    hide PerArena, Below, Blocks, NoDup;
    var h' := WithArena(h, p, d);
    assert forall b :: FreeBlock(h', e, b) <==> FreeBlock(h, e, b);
  }

  lemma ArenaOwnList(h: Heap, p: int, d: int)
    requires |h.free| == CLASSES && ListsOk(h) && 0 <= d < CLASSES && 0 <= p < |h.vbits| && p !in h.arenas
      && h.free[d] == [] && PerArena(d) >= 0
    ensures var h' := WithArena(h, p, d); NoDup(h'.free[d]) && forall b :: b in h'.free[d] <==> FreeBlock(h', d, b)
  {
    var h', n := WithArena(h, p, d), PerArena(d);
    hide PerArena;
    assert h'.free[d] == Blocks(p, n);
    assert forall b :: !FreeBlock(h, d, b);
    hide ListsOk;
    forall b ensures b in h'.free[d] <==> FreeBlock(h', d, b) {
      if FreeBlock(h', d, b) {
        assert b.p != p ==> FreeBlock(h, d, b);
        assert Blocks(p, n)[b.k] == b;
      }
    }
  }

  // ---------- an arena of small blocks goes ----------

  /** list_remove of block b. */
  function Removed(q: seq<Blk>, b: Blk): (q': seq<Blk>) {
    if q == [] then [] else if q[0] == b then q[1..] else [q[0]] + Removed(q[1..], b)
  }

  /** The list without the blocks below n of page p. */
  function Sieve(q: seq<Blk>, p: int, n: int): (q': seq<Blk>) {
    if q == [] then []
    else if q[0].p == p && 0 <= q[0].k < n then Sieve(q[1..], p, n)
    else [q[0]] + Sieve(q[1..], p, n)
  }

  lemma {:induction false} SieveIn(q: seq<Blk>, p: int, n: int, b: Blk)
    ensures b in Sieve(q, p, n) <==> b in q && !(b.p == p && 0 <= b.k < n)
  {
    if q != [] {
      SieveIn(q[1..], p, n, b);
      assert b in q <==> b == q[0] || b in q[1..];
    }
  }

  lemma {:induction false} SieveNoDup(q: seq<Blk>, p: int, n: int)
    requires NoDup(q)
    ensures NoDup(Sieve(q, p, n))
  {
    if q != [] {
      SieveNoDup(q[1..], p, n);
      SieveIn(q[1..], p, n, q[0]);
      assert q[0] !in q[1..];
    }
  }

  lemma {:induction false} SieveNone(q: seq<Blk>, p: int)
    ensures Sieve(q, p, 0) == q
  {
    if q != [] {
      SieveNone(q[1..], p);
    }
  }

  /** Taking block n off as well. */
  lemma {:induction false} SieveStep(q: seq<Blk>, p: int, n: int)
    requires NoDup(q) && n >= 0
    ensures Removed(Sieve(q, p, n), Blk(p, n)) == Sieve(q, p, n + 1)
  {
    if q != [] {
      var rest := q[1..];
      SieveStep(rest, p, n);
      if q[0] == Blk(p, n) {
        assert q[0] !in rest;
        SieveSame(rest, p, n);
      }
    }
  }

  lemma {:induction false} SieveSame(q: seq<Blk>, p: int, n: int)
    requires Blk(p, n) !in q && n >= 0
    ensures Sieve(q, p, n + 1) == Sieve(q, p, n)
  {
    if q != [] {
      SieveSame(q[1..], p, n);
      assert q[0] != Blk(p, n);
    }
  }

  ghost function Dropped(h: Heap, p: int): (h': Heap)
    requires |h.free| == CLASSES && p in h.arenas && h.arenas[p].Small? && 0 <= h.arenas[p].d < CLASSES
      && 0 <= p < |h.vbits|
  {
    var d := h.arenas[p].d;
    h.(arenas := h.arenas - {p}, free := h.free[d := Sieve(h.free[d], p, PerArena(d))], vbits := h.vbits[p := false],
       avail := h.avail - {p}, owner := h.owner - {p})
  }

  /** An arena whose blocks are all free can go. */
  lemma DroppedOk(h: Heap, p: int)
    requires Books(h) && TightBut(h, p) && p in h.arenas && h.arenas[p].Small? && 0 <= h.arenas[p].d < CLASSES
    ensures 0 <= p < |h.vbits| && Ok(Dropped(h, p))
  {
    OwnPage(h, p);
    DroppedLists(h, p);
    DroppedPages(h, p);
    hide ListsOk, PagesOk, NoDup, PerArena, Sieve;
  }

  lemma OwnPage(h: Heap, p: int)
    requires ArenasOk(h) && PagesOk(h) && p in h.arenas
    ensures p in h.owner && h.owner[p] == p && 0 <= p < |h.vbits| && p !in h.foreign
  {
    hide PerArena;
    assert p <= p < p + Pages(h.arenas[p]);
  }

  lemma DroppedLists(h: Heap, p: int)
    requires ArenasOk(h) && ListsOk(h) && p in h.arenas && h.arenas[p].Small? && 0 <= h.arenas[p].d < CLASSES
      && 0 <= p < |h.vbits|
    ensures ListsOk(Dropped(h, p))
  {
    var h', d := Dropped(h, p), h.arenas[p].d;
    hide PerArena, Sieve, NoDup;
    SieveNoDup(h.free[d], p, PerArena(d));
    forall b ensures b in h'.free[d] <==> FreeBlock(h', d, b) {
      SieveIn(h.free[d], p, PerArena(d), b);
    }
    forall e | 0 <= e < CLASSES && e != d ensures NoDup(h'.free[e])
      && forall b :: b in h'.free[e] <==> FreeBlock(h', e, b) {
      assert forall b :: FreeBlock(h', e, b) <==> FreeBlock(h, e, b);
    }
    hide ListsOk;
    ListsAre(h');
  }

  lemma DroppedPages(h: Heap, p: int)
    requires |h.free| == CLASSES && PagesOk(h) && p in h.arenas && h.arenas[p].Small? && 0 <= h.arenas[p].d < CLASSES
      && 0 <= p < |h.vbits|
    requires p in h.owner && h.owner[p] == p && p !in h.foreign
    ensures PagesOk(Dropped(h, p))
  {
    hide PerArena, Sieve;
  }

  // ---------- large arenas ----------

  ghost function OwnedRun(owner: map<int, int>, p: int, n: nat): (o: map<int, int>) {
    if n == 0 then owner else OwnedRun(owner, p, n - 1)[p + n - 1 := p]
  }

  lemma {:induction false} OwnedAt(owner: map<int, int>, p: int, n: nat, q: int)
    ensures q in OwnedRun(owner, p, n) <==> q in owner || p <= q < p + n
    ensures q in OwnedRun(owner, p, n) ==> OwnedRun(owner, p, n)[q] == if p <= q < p + n then p else owner[q]
  {
    if n > 0 {
      OwnedAt(owner, p, n - 1, q);
    }
  }

  ghost function UnownedRun(owner: map<int, int>, p: int, n: nat): (o: map<int, int>) {
    if n == 0 then owner else UnownedRun(owner, p, n - 1) - {p + n - 1}
  }

  lemma {:induction false} UnownedAt(owner: map<int, int>, p: int, n: nat, q: int)
    ensures q in UnownedRun(owner, p, n) <==> q in owner && !(p <= q < p + n)
    ensures q in UnownedRun(owner, p, n) ==> UnownedRun(owner, p, n)[q] == owner[q]
  {
    if n > 0 {
      UnownedAt(owner, p, n - 1, q);
    }
  }

  ghost function WithLarge(h: Heap, p: nat, n: nat): (h': Heap)
    requires p + n <= |h.vbits|
  {
    h.(arenas := h.arenas[p := Large(n)], vbits := SetRun(h.vbits, p, n, true), owner := OwnedRun(h.owner, p, n))
  }

  lemma WithLargeOk(h: Heap, p: nat, n: nat)
    requires Ok(h) && n >= 1 && RunAt(h.vbits, p, n)
    ensures p + n <= |h.vbits| && Ok(WithLarge(h, p, n))
  {
    hide PerArena, PagesOk, ListsOk, ArenasOk, OwnedRun, SetRun;
    forall q | p <= q < p + n ensures q !in h.owner && q !in h.arenas && q !in h.foreign {
      FreePage(h, q);
    }
    ListCount(h);
    LargePages(h, p, n);
    LargeLists(h, p, n);
    LargeArenas(h, p, n);
  }

  lemma ListCount(h: Heap)
    requires ArenasOk(h)
    ensures |h.free| == CLASSES
  {
  }

  lemma LargeArenas(h: Heap, p: nat, n: nat)
    requires ArenasOk(h) && n >= 1 && p + n <= |h.vbits|
    ensures ArenasOk(WithLarge(h, p, n))
  {
    hide PerArena, OwnedRun, SetRun;
  }

  lemma LargePages(h: Heap, p: nat, n: nat)
    requires PagesOk(h) && n >= 1 && p + n <= |h.vbits|
    requires forall q :: p <= q < p + n ==> q !in h.owner && q !in h.arenas && q !in h.foreign
    ensures PagesOk(WithLarge(h, p, n))
  {
    var h' := WithLarge(h, p, n);
    hide OwnedRun, SetRun;
    forall x | x in h'.arenas ensures Covers(h', x, Pages(h'.arenas[x])) {
      LargeCovers(h, p, n, x);
    }
    forall q | q in h'.owner
      ensures 0 <= q < |h'.vbits| && q !in h'.foreign && h'.owner[q] in h'.arenas
        && h'.owner[q] <= q < h'.owner[q] + Pages(h'.arenas[h'.owner[q]])
    {
      OwnedAt(h.owner, p, n, q);
    }
    forall q | 0 <= q < |h'.vbits| ensures h'.vbits[q] <==> q in h'.owner || q in h'.foreign {
      OwnedAt(h.owner, p, n, q);
    }
    hide WithLarge, Covers;
  }

  lemma LargeCovers(h: Heap, p: nat, n: nat, x: int)
    requires PagesOk(h) && p + n <= |h.vbits| && x in WithLarge(h, p, n).arenas
    requires forall q :: p <= q < p + n ==> q !in h.owner
    ensures Covers(WithLarge(h, p, n), x, Pages(WithLarge(h, p, n).arenas[x]))
  {
    var h' := WithLarge(h, p, n);
    assert x != p ==> Covers(h, x, Pages(h.arenas[x]));
    hide PagesOk, OwnedRun, SetRun;
    forall q | x <= q < x + Pages(h'.arenas[x]) ensures q in h'.owner && h'.owner[q] == x {
      OwnedAt(h.owner, p, n, q);
    }
  }

  lemma LargeLists(h: Heap, p: nat, n: nat)
    requires |h.free| == CLASSES && ListsOk(h) && p + n <= |h.vbits| && p !in h.arenas
    ensures ListsOk(WithLarge(h, p, n))
  {
    hide OwnedRun, SetRun, NoDup;
    var h' := WithLarge(h, p, n);
    assert forall e, b :: FreeBlock(h', e, b) <==> FreeBlock(h, e, b);
  }

  ghost function WithoutLarge(h: Heap, p: nat): (h': Heap)
    requires p in h.arenas && h.arenas[p].Large? && 0 <= h.arenas[p].cnt && p + h.arenas[p].cnt <= |h.vbits|
  {
    h.(arenas := h.arenas - {p}, vbits := SetRun(h.vbits, p, h.arenas[p].cnt, false),
      owner := UnownedRun(h.owner, p, h.arenas[p].cnt))
  }

  lemma WithoutLargeOk(h: Heap, p: nat)
    requires Ok(h) && p in h.arenas && h.arenas[p].Large?
    ensures 0 <= h.arenas[p].cnt && p + h.arenas[p].cnt <= |h.vbits| && Ok(WithoutLarge(h, p))
  {
    LargeEnd(h, p);
    UnlargePages(h, p);
    UnlargeLists(h, p);
    hide PerArena, PagesOk, ListsOk, UnownedRun, SetRun;
  }

  lemma LargeEnd(h: Heap, p: nat)
    requires ArenasOk(h) && PagesOk(h) && p in h.arenas && h.arenas[p].Large?
    ensures 1 <= h.arenas[p].cnt && p + h.arenas[p].cnt <= |h.vbits|
  {
    hide PerArena;
    var q := p + h.arenas[p].cnt - 1;
    assert q in h.owner;
  }

  lemma UnlargePages(h: Heap, p: nat)
    requires PagesOk(h) && p in h.arenas && h.arenas[p].Large? && 1 <= h.arenas[p].cnt
      && p + h.arenas[p].cnt <= |h.vbits|
    ensures PagesOk(WithoutLarge(h, p))
  {
    var h', n := WithoutLarge(h, p), h.arenas[p].cnt;
    assert Covers(h, p, n);
    hide UnownedRun, SetRun;
    forall x | x in h'.arenas ensures Covers(h', x, Pages(h'.arenas[x])) {
      UnlargeCovers(h, p, x);
    }
    forall q | q in h'.owner
      ensures 0 <= q < |h'.vbits| && q !in h'.foreign && h'.owner[q] in h'.arenas
        && h'.owner[q] <= q < h'.owner[q] + Pages(h'.arenas[h'.owner[q]])
    {
      UnownedAt(h.owner, p, n, q);
    }
    forall q | 0 <= q < |h'.vbits| ensures h'.vbits[q] <==> q in h'.owner || q in h'.foreign {
      UnownedAt(h.owner, p, n, q);
    }
    hide WithoutLarge, Covers;
  }

  lemma UnlargeCovers(h: Heap, p: nat, x: int)
    requires PagesOk(h) && p in h.arenas && h.arenas[p].Large? && 1 <= h.arenas[p].cnt
      && p + h.arenas[p].cnt <= |h.vbits|
    requires x in WithoutLarge(h, p).arenas
    ensures Covers(WithoutLarge(h, p), x, Pages(WithoutLarge(h, p).arenas[x]))
  {
    var h', n := WithoutLarge(h, p), h.arenas[p].cnt;
    assert Covers(h, p, n) && Covers(h, x, Pages(h.arenas[x]));
    hide PagesOk, UnownedRun, SetRun;
    forall q | x <= q < x + Pages(h'.arenas[x]) ensures q in h'.owner && h'.owner[q] == x {
      UnownedAt(h.owner, p, n, q);
    }
  }

  lemma UnlargeLists(h: Heap, p: nat)
    requires |h.free| == CLASSES && ListsOk(h) && p in h.arenas && h.arenas[p].Large? && 0 <= h.arenas[p].cnt
      && p + h.arenas[p].cnt <= |h.vbits|
    ensures ListsOk(WithoutLarge(h, p))
  {
    hide UnownedRun, SetRun, NoDup;
    var h' := WithoutLarge(h, p);
    assert forall e, b :: FreeBlock(h', e, b) <==> FreeBlock(h, e, b);
  }
}
