/** The code of sys_malloc and sys_free over the books of the heap. */
module HeapOps {
  import opened Words
  import opened Bitmaps
  import PageAlloc
  import opened HeapPages
  import opened HeapState
  import opened HeapAlloc

  /** The piece has the same place and size in both. */
  predicate Shape(h: Heap, h': Heap, x: Piece) {
    var p := PageOf(x);
    p in h.arenas && p in h'.arenas &&
    if x.Block? then h.arenas[p].Small? && h'.arenas[p].Small? && h.arenas[p].d == h'.arenas[p].d
    else h.arenas[p].Large? && h'.arenas[p] == h.arenas[p]
  }

  lemma ShapeIs(h: Heap, h': Heap, x: Piece)
    requires Shape(h, h', x)
    ensures From(h', x) == From(h, x) && To(h', x) == To(h, x)
  {
  }

  lemma SameTwice(h: Heap, h1: Heap, m: Bytes, m1: Bytes, m2: Bytes, x: Piece)
    requires Shape(h, h1, x) && SameBytes(h, m, m1, x) && SameBytes(h1, m1, m2, x)
    ensures SameBytes(h, m, m2, x)
  {
  }

  // ---------- what each change does to the pieces handed out ----------

  lemma TookOut(h: Heap, d: int, x: Piece)
    requires Books(h) && 0 <= d < CLASSES && h.free[d] != [] && FreeBlock(h, d, h.free[d][0])
    ensures Out(Took(h, d), x) <==> Out(h, x) || x == Block(h.free[d][0])
    ensures Out(h, x) ==> Shape(h, Took(h, d), x)
  {
    hide PerArena, BlockSize, ListsOk, PagesOk;
  }

  lemma GaveOut(h: Heap, b: Blk, x: Piece)
    requires Ok(h) && Live(h, b)
    ensures Out(Gave(h, b), x) <==> Out(h, x) && x != Block(b)
    ensures Out(h, x) ==> Shape(h, Gave(h, b), x)
  {
    hide PerArena, BlockSize, ListsOk, PagesOk;
  }

  lemma ArenaOut(h: Heap, p: int, d: int, x: Piece)
    requires Ok(h) && 0 <= d < CLASSES && 0 <= p < |h.vbits| && !h.vbits[p]
    ensures PerArena(d) >= 0 && (Out(WithArena(h, p, d), x) <==> Out(h, x))
    ensures Out(h, x) ==> Shape(h, WithArena(h, p, d), x)
  {
    Sizes(d);
    FreePage(h, p);
    hide PerArena, BlockSize, ListsOk, PagesOk, Blocks;
  }

  /** An arena whose blocks are all free has nothing handed out. */
  lemma DroppedOut(h: Heap, p: int, x: Piece)
    requires Books(h) && p in h.arenas && h.arenas[p].Small? && 0 <= p < |h.vbits|
      && h.arenas[p].cnt == PerArena(h.arenas[p].d)
    ensures Out(Dropped(h, p), x) <==> Out(h, x)
    ensures Out(h, x) ==> Shape(h, Dropped(h, p), x)
  {
    Sizes(h.arenas[p].d);
    Bounded(h.avail[p], PerArena(h.arenas[p].d));
    hide PerArena, BlockSize, ListsOk, PagesOk, Sieve;
  }

  lemma LargeOut(h: Heap, p: nat, n: nat, x: Piece)
    requires Ok(h) && n >= 1 && RunAt(h.vbits, p, n)
    ensures p + n <= |h.vbits| && (Out(WithLarge(h, p, n), x) <==> Out(h, x) || x == Run(p)) && !Out(h, Run(p))
    ensures Out(h, x) ==> Shape(h, WithLarge(h, p, n), x)
  {
    FreePage(h, p);
    hide PerArena, BlockSize, ListsOk, PagesOk, OwnedRun, SetRun;
  }

  lemma UnlargeOut(h: Heap, p: nat, x: Piece)
    requires Ok(h) && p in h.arenas && h.arenas[p].Large? && 0 <= h.arenas[p].cnt && p + h.arenas[p].cnt <= |h.vbits|
    ensures Out(WithoutLarge(h, p), x) <==> Out(h, x) && x != Run(p)
    ensures Out(WithoutLarge(h, p), x) ==> Shape(h, WithoutLarge(h, p), x)
  {
    hide PerArena, BlockSize, ListsOk, PagesOk, UnownedRun, SetRun;
  }

  // ---------- what sys_malloc and sys_free promise ----------

  /** Null, the kernel stopped for want of a page, or a piece of memory. */
  datatype Ptr = Null | Stopped | Got(x: Piece)

  /** The pages others took are the same. */
  ghost predicate SamePages(h: Heap, h': Heap) {
    h'.foreign == h.foreign && |h'.vbits| == |h.vbits|
  }

  /** From (h, mem) to (h', mem') piece x was handed out: new, at least size bytes, all zero; every
      other piece is still there with the same bytes. */
  ghost predicate Hands(h: Heap, mem: Bytes, h': Heap, mem': Bytes, size: int, x: Piece) {
    && Out(h', x) && !Out(h, x) && To(h', x) - From(h', x) >= size && ReadsZero(h', mem', x) && SamePages(h, h')
    && (forall y :: Out(h', y) <==> Out(h, y) || y == x)
    && (forall y :: Out(h, y) ==> SameBytes(h, mem, mem', y) && Shape(h, h', y))
  }

  /** From h to h' piece x was taken back; every other piece is still there. */
  ghost predicate TakesBack(h: Heap, h': Heap, x: Piece) {
    && SamePages(h, h')
    && (forall y :: Out(h', y) <==> Out(h, y) && y != x)
    && (forall y :: Out(h', y) ==> Shape(h, h', y))
  }

  const MAX_PAGES := 3840      // malloc_page takes fewer pages than this

  /** How many pages a large request takes: DIV_ROUND_UP(size + sizeof(struct arena), PG_SIZE). */
  function PageCount(size: int): (n: int) {
    (size + HEADER + PAGE - 1) / PAGE
  }

  /** They hold the header and the bytes asked for, and one page less would not. */
  lemma PageCountIs(size: int)
    requires size > 1024
    ensures PageCount(size) >= 1 && PAGE * (PageCount(size) - 1) < size + HEADER <= PAGE * PageCount(size)
  {
  }

  /** Class d is the smallest whose blocks hold size bytes. */
  predicate Suits(size: int, d: int) {
    0 <= d < CLASSES && size <= BlockSize(d) && (d > 0 ==> BlockSize(d - 1) < size)
  }

  /** Every block of the class that suits the size is handed out. */
  ghost predicate ClassUsedUp(h: Heap, size: int) {
    exists d :: Suits(size, d) && d < |h.free| && h.free[d] == []
  }

  lemma ClassUsedUpIs(h: Heap, size: int, d: int)
    requires Suits(size, d) && d < |h.free|
    ensures ClassUsedUp(h, size) <==> h.free[d] == []
  {
    assert forall c :: Suits(size, c) ==> c == d;
  }

  /** There are free pages, but not enough of them in a row. */
  ghost predicate NoPages(bits: seq<bool>, size: int) {
    1 <= PageCount(size) < MAX_PAGES && !Full(bits) && NoRun(bits, PageCount(size))
  }

  lemma NoPagesIs(bits: seq<bool>, size: int)
    ensures NoPages(bits, size) <==> 1 <= PageCount(size) < MAX_PAGES && !Full(bits) && NoRun(bits, PageCount(size))
  {
  }

  /** The choice of a size class. */
  method PickClass(size: int) returns (d: int)
    requires 0 < size <= 1024
    ensures Suits(size, d)
  {
    d := 0;
    while size > BlockSize(d)
      invariant 0 <= d < CLASSES && (d > 0 ==> BlockSize(d - 1) < size)
      decreases CLASSES - d
    {
      d := d + 1;
    }
  }

  lemma SuitsIs(size: int, d: int)
    requires Suits(size, d)
    ensures 0 <= d < CLASSES && size <= BlockSize(d)
  {
  }

  // ---------- what sys_malloc and sys_free do ----------

  /** A block of class d is on its list: it was, or a new arena in the first free page put it there. */
  ghost predicate Stocks(h: Heap, m: Bytes, h1: Heap, m1: Bytes, d: int) {
    && |h.free| == CLASSES && 0 <= d < CLASSES && PerArena(d) >= 0
    && if h.free[d] != [] then h1 == h && m1 == m else exists p :: NewArenaAt(h, m, h1, m1, d, p)
  }

  ghost predicate NewArenaAt(h: Heap, m: Bytes, h1: Heap, m1: Bytes, d: int, p: int)
    requires |h.free| == CLASSES && 0 <= d < CLASSES && PerArena(d) >= 0
  {
    0 <= p < |h.vbits| && LeastRun(h.vbits, p, 1) && h1 == WithArena(h, p, d) && m1 == m[p := ZeroBytes(PAGE)]
  }

  /** The first block of class d's list is taken and cleared. */
  ghost predicate Takes(h1: Heap, m1: Bytes, h': Heap, m': Bytes, d: int, b: Blk) {
    TakeReady(h1, d) && b == h1.free[d][0] && HasRoom(m1, b, d) && h' == Took(h1, d) && m' == Cleared(m1, b, d)
  }

  ghost predicate GetsBlock(h: Heap, m: Bytes, h': Heap, m': Bytes, size: int, b: Blk) {
    exists d, h1, m1 :: Suits(size, d) && Stocks(h, m, h1, m1, d) && Takes(h1, m1, h', m', d, b)
  }

  /** The first run of free pages long enough becomes a large arena, cleared. */
  ghost predicate GetsRun(h: Heap, m: Bytes, h': Heap, m': Bytes, size: int, p: int) {
    && p >= 0 && PageCount(size) >= 1 && p + PageCount(size) <= |h.vbits| && LeastRun(h.vbits, p, PageCount(size))
    && h' == WithLarge(h, p, PageCount(size)) && m' == ZeroPages(m, p, PageCount(size))
  }

  /** sys_malloc when it returns piece x. */
  ghost predicate GetsPiece(h: Heap, m: Bytes, h': Heap, m': Bytes, size: int, x: Piece) {
    if size > 1024 then x.Run? && GetsRun(h, m, h', m', size, x.p)
    else size > 0 && x.Block? && GetsBlock(h, m, h', m', size, x.b)
  }

  ghost predicate GiveReady(h: Heap, b: Blk) {
    |h.free| == CLASSES && b.p in h.arenas && h.arenas[b.p].Small? && 0 <= h.arenas[b.p].d < CLASSES && b.p in h.avail
  }

  /** A block goes back to its list, and its arena to the page allocator when all its blocks are there. */
  ghost predicate GivesBlock(h: Heap, h': Heap, b: Blk) {
    && GiveReady(h, b)
    && var h1 := Gave(h, b);
       if h.arenas[b.p].cnt + 1 == PerArena(h.arenas[b.p].d) then DropReady(h1, b.p) && h' == Dropped(h1, b.p)
           else h' == h1
  }

  ghost predicate GivesRun(h: Heap, h': Heap, p: int) {
    p >= 0 && p in h.arenas && h.arenas[p].Large? && 0 <= h.arenas[p].cnt && p + h.arenas[p].cnt <= |h.vbits|
      && h' == WithoutLarge(h, p)
  }

  /** sys_free of piece x. */
  ghost predicate GivesPiece(h: Heap, h': Heap, x: Piece) {
    match x
    case Block(b) => GivesBlock(h, h', b)
    case Run(p) => GivesRun(h, h', p)
  }

  /** sys_malloc keeps the heap in order and hands out a new piece. */
  lemma GetsKeeps(h: Heap, m: Bytes, h': Heap, m': Bytes, size: int, x: Piece)
    requires Ok(h) && Backed(h, m) && GetsPiece(h, m, h', m', size, x)
    ensures Ok(h') && Backed(h', m') && Hands(h, m, h', m', size, x)
  {
    hide Ok, Backed, Hands, WithLarge, ZeroPages, LeastRun, Stocks, Takes, Suits, PageCount;
    if size > 1024 {
      PageCountIs(size);
      LeastIsRun(h.vbits, x.p, PageCount(size));
      LargeStep(h, m, x.p, PageCount(size), size);
    } else {
      var d, h1, m1 :| Suits(size, d) && Stocks(h, m, h1, m1, d) && Takes(h1, m1, h', m', d, x.b);
      BlockKeeps(h, m, h1, m1, h', m', size, d, x.b);
    }
  }

  lemma BlockKeeps(h: Heap, m: Bytes, h1: Heap, m1: Bytes, h': Heap, m': Bytes, size: int, d: int, b: Blk)
    requires Ok(h) && Backed(h, m) && 0 < size && Suits(size, d) && Stocks(h, m, h1, m1, d)
      && Takes(h1, m1, h', m', d, b)
    ensures Ok(h') && Backed(h', m') && Hands(h, m, h', m', size, Block(b))
  {
    hide Ok, Backed, Hands, Took, Cleared, WithArena, LeastRun, TakeReady, HasRoom, PerArena, BlockSize;
    StocksStep(h, m, h1, m1, d);
    TakeStep(h, m, h1, m1, d, size);
  }

  lemma StocksStep(h: Heap, m: Bytes, h1: Heap, m1: Bytes, d: int)
    requires Ok(h) && Backed(h, m) && Stocks(h, m, h1, m1, d)
    ensures Stocked(h, m, h1, m1, d)
  {
    hide Ok, Backed, Stocked, WithArena, LeastRun, PerArena;
    if h.free[d] != [] {
      NoArenaStep(h, m, d);
    } else {
      var p :| NewArenaAt(h, m, h1, m1, d, p);
      LeastIsRun(h.vbits, p, 1);
      assert !h.vbits[p];
      ArenaStep(h, m, p, d);
    }
  }

  /** sys_free keeps the heap in order and takes back that piece. */
  lemma GivesKeeps(h: Heap, m: Bytes, h': Heap, x: Piece)
    requires Ok(h) && Backed(h, m) && Out(h, x) && GivesPiece(h, h', x)
    ensures Ok(h') && Backed(h', m) && TakesBack(h, h', x)
  {
    if x.Run? {
      hide Ok, Backed, Out, TakesBack, WithoutLarge;
      UnlargeStep(h, m, x.p);
    } else {
      BlockParts(h, x.b);
      hide Ok, Backed, Out, TakesBack, Gave, Dropped, Live, PerArena, TightBut, Books, DropReady;
      GiveStep(h, m, x.b);
      if h.arenas[x.b.p].cnt + 1 == PerArena(h.arenas[x.b.p].d) {
        DropStep(h, m, x.b);
      } else {
        StayStep(h, x.b);
      }
    }
  }

  /** The free blocks of a class are a queue: after a block has gone back, the next request that its class suits
      gets the block that was free longest, which is that one exactly when no other was free. */
  lemma LongestFree(h: Heap, m: Bytes, h1: Heap, h': Heap, m': Bytes, b: Blk, size: int, c: Blk)
    requires Ok(h) && Out(h, Block(b)) && GivesBlock(h, h1, b) && h1 == Gave(h, b)
    requires Suits(size, h.arenas[b.p].d) && GetsBlock(h1, m, h', m', size, c)
    ensures 0 <= h.arenas[b.p].d < |h.free|
    ensures var q := h.free[h.arenas[b.p].d]; c == (if q == [] then b else q[0]) && (c == b <==> q == [])
  {
    BlockParts(h, b);
    hide Ok, Out, Gave, Suits, Stocks, Takes, GivesBlock, Live;
    var d := h.arenas[b.p].d;
    NotFree(h, b);
    GaveIs(h, b);
    var e, h2, m2 :| Suits(size, e) && Stocks(h1, m, h2, m2, e) && Takes(h2, m2, h', m', e, c);
    OneClass(size, d, e);
    FirstTaken(h1, m, h2, m2, h', m', d, c);
  }

  lemma NotFree(h: Heap, b: Blk)
    requires Ok(h) && Live(h, b) && b.p in h.arenas && h.arenas[b.p].Small? && 0 <= h.arenas[b.p].d < |h.free|
    ensures b !in h.free[h.arenas[b.p].d]
  {
    hide PerArena, BlockSize, PagesOk;
  }

  lemma OneClass(size: int, d: int, e: int)
    requires Suits(size, d) && Suits(size, e)
    ensures d == e
  {
  }

  lemma FirstTaken(h: Heap, m: Bytes, h1: Heap, m1: Bytes, h': Heap, m': Bytes, d: int, c: Blk)
    requires Stocks(h, m, h1, m1, d) && Takes(h1, m1, h', m', d, c) && 0 <= d < |h.free| && h.free[d] != []
    ensures c == h.free[d][0]
  {
    hide Took, Cleared, HasRoom, WithArena, PerArena;
  }

  // ---------- the code ----------

  class KernelHeap {
    const pool: int                  // bytes of the memory pool
    const pages: PageAlloc.Allocator   // the pages of the heap, their tables and frames
    var arenas: map<int, Arena>
    var free: seq<seq<Blk>>          // free_list of each class
    var mem: Bytes
    ghost var avail: map<int, set<int>>
    ghost var owner: map<int, int>
    ghost var foreign: set<int>

    ghost function H(): Heap
      reads this, pages
    {
      Heap(arenas, free, pages.vbits, avail, owner, foreign)
    }

    lemma Fields()
      ensures H() == Heap(arenas, free, pages.vbits, avail, owner, foreign)
    {
    }

    /** Books, memory and page allocator are in order. */
    ghost predicate Valid()
      reads this, pages
    {
      Ok(H()) && Backed(H(), mem) && Paged(pages)
    }

    /** Pages are needed and malloc_page cannot return: too many asked for, none free, or no frames. */
    ghost predicate NoPageLeft(size: int)
      reads this, pages
    {
      if size > 1024 then PageCount(size) >= MAX_PAGES || Lacking(pages, PageCount(size))
      else ClassUsedUp(H(), size) && Lacking(pages, 1)
    }

    lemma NoPageLeftIs(size: int)
      ensures NoPageLeft(size) <==>
              if size > 1024 then PageCount(size) >= MAX_PAGES || Lacking(pages, PageCount(size))
              else ClassUsedUp(H(), size) && Lacking(pages, 1)
    {
    }

    lemma ValidIs()
      ensures Valid() <==> Ok(H()) && Backed(H(), mem) && Paged(pages)
    {
    }

    /** block_desc_init: an empty heap over pages some of which others took. */
    constructor (pool: int, pages: PageAlloc.Allocator, mem: Bytes, ghost foreign: set<int>)
      requires Paged(pages) && forall q :: 0 <= q < |pages.vbits| ==> q in mem && |mem[q]| == PAGE
      requires forall q :: 0 <= q < |pages.vbits| ==> (pages.vbits[q] <==> q in foreign)
      ensures Valid() && this.pool == pool && this.pages == pages && forall x :: !Out(H(), x)
    {
      this.pool, this.pages, this.mem, this.foreign := pool, pages, mem, foreign;
      arenas, avail, owner := map[], map[], map[];
      free := seq(CLASSES, _ => []);
      new;
      EmptyOk(pages.vbits, foreign);
      hide Paged, Ok;
    }

    /** A new arena of class d: a page, cleared, its blocks on the free list. */
    method NewArena(d: int) returns (ok: bool, p: int)
      requires Valid() && 0 <= d < CLASSES && |H().free| == CLASSES && H().free[d] == []
      modifies this, pages
      ensures ok <==> !old(Lacking(pages, 1))
      ensures ok ==> Paged(pages) && PerArena(d) >= 0 && NewArenaAt(old(H()), old(mem), H(), mem, d, p)
    {
      hide *;
      ghost var h := H();
      ghost var m := mem;
      Fields();
      ValidIs();
      ClassSizes(d);
      var r := TakePages(pages, 1);
      OnePage(h.vbits, if r.At? then r.index else 0);
      if r == Panic {
        return false, 0;
      }
      ok, p := true, r.index;
      mem := mem[p := ZeroBytes(PAGE)];
      arenas := arenas[p := Small(d, PerArena(d))];
      var list := AddBlocks(free[d], p, PerArena(d));
      free := free[d := list];
      avail := avail[p := Below(PerArena(d))];
      owner := owner[p := p];
      Fields();
      WithArenaIs(h, p, d);
      NewArenaIs(h, m, H(), mem, d, p);
    }

    /** The first free block of class d is taken and cleared. */
    method TakeBlock(d: int) returns (b: Blk)
      requires Books(H()) && 0 <= d < CLASSES && |H().free| == CLASSES && H().free[d] != []
        && FreeBlock(H(), d, H().free[d][0])
      requires HasRoom(mem, H().free[d][0], d)
      modifies this
      ensures Takes(old(H()), old(mem), H(), mem, d, b)
    {
      hide *;
      ghost var h := H();
      ghost var m := mem;
      Fields();
      FreeIs(h, d, h.free[d][0]);
      b := free[d][0];
      free := free[d := free[d][1..]];
      mem := Cleared(mem, b, d);
      var a := arenas[b.p];
      arenas := arenas[b.p := a.(cnt := a.cnt - 1)];
      avail := avail[b.p := avail[b.p] - {b.k}];
      Fields();
      TookIs(h, d);
      TakesIs(h, m, H(), mem, d, b);
    }

    /** sys_malloc of up to 1024 bytes. */
    method MallocSmall(size: int) returns (r: Ptr)
      requires Valid() && 0 < size <= 1024
      modifies this, pages
      ensures r != Null
      ensures r == Stopped <==> ClassUsedUp(old(H()), size) && old(Lacking(pages, 1))
      ensures r.Got? ==> Valid() && GetsPiece(old(H()), old(mem), H(), mem, size, r.x)
    {
      hide *;
      ghost var h := H();
      ghost var m := mem;
      Fields();
      ValidIs();
      BooksOf(h);
      var d := PickClass(size);
      SuitsIs(size, d);
      ClassUsedUpIs(h, size, d);
      ClassSizes(d);
      if free[d] == [] {
        var ok, p := NewArena(d);
        if !ok {
          return Stopped;
        }
        StocksNew(h, m, H(), mem, d, p);
      } else {
        StocksOld(h, m, d);
      }
      ghost var h1, m1 := H(), mem;
      StocksStep(h, m, h1, m1, d);
      StepParts(h, m, h1, m1, d);
      var b := TakeBlock(d);
      r := Got(Block(b));
      GetsBlockIs(h, m, h1, m1, H(), mem, size, d, b);
      GetsKeeps(h, m, H(), mem, size, Block(b));
      ValidIs();
    }

    /** sys_malloc of more than 1024 bytes: whole pages, cleared. */
    method MallocLarge(size: int) returns (r: Ptr)
      requires Valid() && size > 1024
      modifies this, pages
      ensures r == Stopped <==> PageCount(size) >= MAX_PAGES || old(Lacking(pages, PageCount(size)))
      ensures r == Null <==> NoPages(old(H()).vbits, size)
      ensures r == Null ==> Valid() && H() == old(H()) && mem == old(mem)
      ensures r.Got? ==> Valid() && GetsPiece(old(H()), old(mem), H(), mem, size, r.x)
    {
      hide *;
      ghost var h := H();
      ghost var m := mem;
      Fields();
      ValidIs();
      PageCountIs(size);
      var n := PageCount(size);
      NoPagesIs(h.vbits, size);
      if n >= MAX_PAGES {
        return Stopped;                     // the assertion of malloc_page
      }
      MostPages();
      var found := TakePages(pages, n);
      if found == Panic {
        return Stopped;
      }
      if found == NotFound {
        Fields();
        ValidIs();
        return Null;
      }
      var p := found.index;
      mem := ZeroPages(mem, p, n);
      arenas := arenas[p := Large(n)];
      owner := OwnedRun(owner, p, n);
      Fields();
      WithLargeIs(h, p, n);
      GetsRunIs(h, m, H(), mem, size, p);
      GetsKeeps(h, m, H(), mem, size, Run(p));
      ValidIs();
      r := Got(Run(p));
    }

    /** sys_malloc */
    method Malloc(size: int) returns (r: Ptr)
      requires Valid()
      modifies this, pages
      ensures r == Null ==> Valid() && H() == old(H()) && mem == old(mem)
      ensures r == Null <==> size <= 0 || size > pool || (size > 1024 && NoPages(old(H()).vbits, size))
      ensures r == Stopped <==> 0 < size <= pool && old(NoPageLeft(size))
      ensures r.Got? ==> Valid() && 0 < size <= pool && GetsPiece(old(H()), old(mem), H(), mem, size, r.x)
      ensures r.Got? ==> Hands(old(H()), old(mem), H(), mem, size, r.x)
    {
      hide *;
      ghost var h := H();
      ghost var m := mem;
      ValidIs();
      NoPageLeftIs(size);
      if !(size > 0 && size <= pool) {
        return Null;
      }
      if size > 1024 {
        r := MallocLarge(size);
      } else {
        r := MallocSmall(size);
      }
      if r.Got? {
        GetsKeeps(h, m, H(), mem, size, r.x);
      }
    }

    /** sys_free of a small block: back on its list, and the arena back to the page allocator when that
        was the last of its blocks. */
    method FreeBlk(b: Blk)
      requires Valid() && Out(H(), Block(b))
      modifies this, pages
      ensures Valid() && mem == old(mem) && GivesPiece(old(H()), H(), Block(b))
    {
      hide *;
      ghost var h := H();
      Fields();
      ValidIs();
      BlockParts(h, b);
      var a := arenas[b.p];
      free := free[a.d := free[a.d] + [b]];
      arenas := arenas[b.p := a.(cnt := a.cnt + 1)];
      avail := avail[b.p := avail[b.p] + {b.k}];
      Fields();
      GaveIs(h, b);
      if a.cnt + 1 == PerArena(a.d) {
        ghost var h1 := H();
        DropParts(h, mem, b);
        DroppedIs(h1, b.p);
        var list := RemoveBlocks(free[a.d], b.p, PerArena(a.d));
        free := free[a.d := list];
        GivePages(pages, b.p, 1);
        OnePage(h.vbits, b.p);
        arenas := arenas - {b.p};
        avail := avail - {b.p};
        owner := owner - {b.p};
        Fields();
      }
      GivesBlockIs(h, H(), b);
      GivesKeeps(h, mem, H(), Block(b));
      ValidIs();
    }

    /** sys_free of a large piece. */
    method FreeRun(p: nat)
      requires Valid() && Out(H(), Run(p))
      modifies this, pages
      ensures Valid() && mem == old(mem) && GivesPiece(old(H()), H(), Run(p))
    {
      hide *;
      ghost var h := H();
      Fields();
      ValidIs();
      RunParts(h, p);
      var n := arenas[p].cnt;
      GivePages(pages, p, n);
      arenas := arenas - {p};
      owner := UnownedRun(owner, p, n);
      Fields();
      WithoutLargeIs(h, p);
      GivesRunIs(h, H(), p);
      GivesKeeps(h, mem, H(), Run(p));
      ValidIs();
    }

    /** sys_free of the address of a piece handed out: the arena is found by clearing the low bits. */
    method Free(a: int, ghost x: Piece)
      requires Valid() && Out(H(), x) && a == From(H(), x)
      modifies this, pages
      ensures Valid() && mem == old(mem) && GivesPiece(old(H()), H(), x) && TakesBack(old(H()), H(), x)
    {
      hide *;
      ghost var h := H();
      Fields();
      ValidIs();
      PieceAt(h, x);
      var p := ArenaOf(a);
      if arenas[p].Large? {
        FreeRun(p);
      } else {
        var d := arenas[p].d;
        FreeBlk(Blk(p, (a - PAGE * p - HEADER) / BlockSize(d)));
      }
      GivesKeeps(h, mem, H(), x);
    }
  }

  lemma EmptyOk(vbits: seq<bool>, foreign: set<int>)
    requires forall q :: 0 <= q < |vbits| ==> (vbits[q] <==> q in foreign)
    ensures Ok(Heap(map[], seq(CLASSES, _ => []), vbits, map[], map[], foreign))
  {
  }

  lemma MostPages()
    ensures MAX_PAGES == 3840
  {
  }

  lemma OnePage(bits: seq<bool>, p: int)
    ensures Full(bits) || !NoRun(bits, 1)
    ensures 0 <= p < |bits| ==>
      SetRun(bits, p, 1, true) == bits[p := true] && SetRun(bits, p, 1, false) == bits[p := false]
  {
    if !Full(bits) {
      var j :| 0 <= j < |bits| && !bits[j];
      assert RunAt(bits, j, 1);
    }
  }

  lemma NewArenaIs(h: Heap, m: Bytes, h1: Heap, m1: Bytes, d: int, p: int)
    requires |h.free| == CLASSES && 0 <= d < CLASSES && PerArena(d) >= 0
    requires 0 <= p < |h.vbits| && LeastRun(h.vbits, p, 1) && h1 == WithArena(h, p, d) && m1 == m[p := ZeroBytes(PAGE)]
    ensures NewArenaAt(h, m, h1, m1, d, p)
  {
  }

  lemma StocksNew(h: Heap, m: Bytes, h1: Heap, m1: Bytes, d: int, p: int)
    requires |h.free| == CLASSES && 0 <= d < CLASSES && PerArena(d) >= 0 && h.free[d] == []
      && NewArenaAt(h, m, h1, m1, d, p)
    ensures Stocks(h, m, h1, m1, d)
  {
  }

  lemma StocksOld(h: Heap, m: Bytes, d: int)
    requires |h.free| == CLASSES && 0 <= d < CLASSES && PerArena(d) >= 0 && h.free[d] != []
    ensures Stocks(h, m, h, m, d)
  {
  }

  lemma TakesIs(h1: Heap, m1: Bytes, h': Heap, m': Bytes, d: int, b: Blk)
    requires TakeReady(h1, d) && b == h1.free[d][0] && HasRoom(m1, b, d) && h' == Took(h1, d) && m' == Cleared(m1, b, d)
    ensures Takes(h1, m1, h', m', d, b)
  {
  }

  lemma GetsBlockIs(h: Heap, m: Bytes, h1: Heap, m1: Bytes, h': Heap, m': Bytes, size: int, d: int, b: Blk)
    requires 0 < size <= 1024 && Suits(size, d) && Stocks(h, m, h1, m1, d) && Takes(h1, m1, h', m', d, b)
    ensures GetsPiece(h, m, h', m', size, Block(b))
  {
    hide Suits, Stocks, Takes;
  }

  lemma GetsRunIs(h: Heap, m: Bytes, h': Heap, m': Bytes, size: int, p: int)
    requires size > 1024 && p >= 0 && PageCount(size) >= 1 && p + PageCount(size) <= |h.vbits|
      && LeastRun(h.vbits, p, PageCount(size))
    requires h' == WithLarge(h, p, PageCount(size)) && m' == ZeroPages(m, p, PageCount(size))
    ensures GetsPiece(h, m, h', m', size, Run(p))
  {
  }

  lemma GivesBlockIs(h: Heap, h': Heap, b: Blk)
    requires GiveReady(h, b)
    requires var h1 := Gave(h, b);
      if h.arenas[b.p].cnt + 1 == PerArena(h.arenas[b.p].d) then DropReady(h1, b.p) && h' == Dropped(h1, b.p)
          else h' == h1
    ensures GivesPiece(h, h', Block(b))
  {
  }

  lemma GivesRunIs(h: Heap, h': Heap, p: int)
    requires p >= 0 && p in h.arenas && h.arenas[p].Large? && 0 <= h.arenas[p].cnt && p + h.arenas[p].cnt <= |h.vbits|
      && h' == WithoutLarge(h, p)
    ensures GivesPiece(h, h', Run(p))
  {
  }

  ghost predicate TakeReady(h: Heap, d: int) {
    && |h.free| == CLASSES && 0 <= d < CLASSES && h.free[d] != []
    && h.free[d][0].p in h.arenas && h.arenas[h.free[d][0].p].Small? && h.free[d][0].p in h.avail
  }

  lemma ClassSizes(d: int)
    requires 0 <= d < CLASSES
    ensures PerArena(d) >= 3 && BlockSize(d) >= 16 && PAGE == 4096
  {
    Sizes(d);
  }

  lemma WithArenaIs(h: Heap, p: int, d: int)
    requires |h.free| == CLASSES && 0 <= d < CLASSES && 0 <= p < |h.vbits| && PerArena(d) >= 0
    ensures WithArena(h, p, d) ==
      Heap(h.arenas[p := Small(d, PerArena(d))], h.free[d := h.free[d] + Blocks(p, PerArena(d))], h.vbits[p := true],
           h.avail[p := Below(PerArena(d))], h.owner[p := p], h.foreign)
  {
  }

  lemma FreeIs(h: Heap, d: int, b: Blk)
    requires FreeBlock(h, d, b)
    ensures b.p in h.arenas && h.arenas[b.p].Small? && h.arenas[b.p].d == d && b.p in h.avail && b.k in h.avail[b.p]
  {
  }

  lemma TookIs(h: Heap, d: int)
    requires |h.free| == CLASSES && 0 <= d < CLASSES && h.free[d] != []
    requires h.free[d][0].p in h.arenas && h.arenas[h.free[d][0].p].Small? && h.free[d][0].p in h.avail
    ensures TakeReady(h, d)
    ensures var b := h.free[d][0];
      Took(h, d) ==
      Heap(h.arenas[b.p := h.arenas[b.p].(cnt := h.arenas[b.p].cnt - 1)], h.free[d := h.free[d][1..]], h.vbits,
           h.avail[b.p := h.avail[b.p] - {b.k}], h.owner, h.foreign)
  {
  }

  /** The loop that puts the blocks of a new arena on the free list. */
  method AddBlocks(list0: seq<Blk>, p: int, n: nat) returns (list: seq<Blk>)
    ensures list == list0 + Blocks(p, n)
  {
    list := list0;
    var k := 0;
    assert Blocks(p, 0) == [];
    while k < n
      invariant 0 <= k <= n && list == list0 + Blocks(p, k)
    {
      assert Blocks(p, k + 1) == Blocks(p, k) + [Blk(p, k)];
      list := list + [Blk(p, k)];
      k := k + 1;
    }
  }

  lemma BooksOf(h: Heap)
    requires Ok(h)
    ensures Books(h) && |h.free| == CLASSES && ArenasOk(h) && PagesOk(h) && ListsOk(h)
  {
  }

  /** With a free block of class d there: the books, and every piece handed out as it was. */
  ghost predicate Stocked(h: Heap, m: Bytes, h1: Heap, m1: Bytes, d: int) {
    && Books(h1) && 0 <= d < CLASSES && h1.free[d] != [] && TightBut(h1, h1.free[d][0].p) && Backed(h1, m1)
    && FreeBlock(h1, d, h1.free[d][0]) && SamePages(h, h1)
    && (forall y :: Out(h1, y) <==> Out(h, y))
    && (forall y :: Out(h, y) ==> SameBytes(h, m, m1, y) && Shape(h, h1, y))
  }

  lemma SameSame(h: Heap, mem: Bytes, x: Piece)
    requires Ok(h) && Backed(h, mem) && Out(h, x)
    ensures SameBytes(h, mem, mem, x) && Shape(h, h, x)
  {
    BooksOf(h);
    OutParts(h, x);
    assert Shape(h, h, x);
    hide *;
    var q := PageOf(x);
    InOwner(h, q);
    if x.Block? {
      BackedAt(h, mem, q);
      SameBlock(h, mem, mem, x.b);
    } else {
      forall r | q <= r < q + h.arenas[q].cnt ensures r in mem {
        RunPage(h, q, r);
        BackedAt(h, mem, r);
      }
      SameRun(h, mem, mem, q);
    }
  }

  lemma NoArenaStep(h: Heap, m: Bytes, d: int)
    requires Ok(h) && Backed(h, m) && 0 <= d < CLASSES && |h.free| == CLASSES && h.free[d] != []
    ensures Stocked(h, m, h, m, d)
  {
    BooksOf(h);
    assert h.free[d][0] in h.free[d];
    assert FreeBlock(h, d, h.free[d][0]);
    assert TightBut(h, h.free[d][0].p);
    hide Ok, Out, Books, SameBytes, FreeBlock, Backed, TightBut, ArenasOk, ListsOk, PagesOk;
    forall y | Out(h, y) ensures SameBytes(h, m, m, y) && Shape(h, h, y) {
      SameSame(h, m, y);
    }
  }

  lemma ArenaStep(h: Heap, m: Bytes, p: int, d: int)
    requires Ok(h) && Backed(h, m) && 0 <= d < CLASSES && |h.free| == CLASSES && h.free[d] == [] && 0 <= p < |h.vbits|
      && !h.vbits[p] && PerArena(d) >= 0
    ensures Stocked(h, m, WithArena(h, p, d), m[p := ZeroBytes(PAGE)], d)
  {
    BooksOf(h);
    FreePage(h, p);
    WithArenaOk(h, p, d);
    var h1 := WithArena(h, p, d);
    ArenaFirst(h, p, d);
    assert Backed(h1, m[p := ZeroBytes(PAGE)]) && SamePages(h, h1);
    hide Ok, Out, Books, Shape, SameBytes, FreeBlock, Backed, TightBut, ArenasOk, ListsOk, PagesOk, WithArena, PerArena;
    forall y ensures Out(h1, y) <==> Out(h, y) {
      ArenaOut(h, p, d, y);
    }
    forall y | Out(h, y) ensures SameBytes(h, m, m[p := ZeroBytes(PAGE)], y) && Shape(h, h1, y) {
      ArenaOut(h, p, d, y);
      OtherPage(h, m, p, ZeroBytes(PAGE), y);
    }
  }

  lemma ArenaFirst(h: Heap, p: int, d: int)
    requires |h.free| == CLASSES && 0 <= d < CLASSES && 0 <= p < |h.vbits| && h.free[d] == [] && PerArena(d) >= 0
    ensures WithArena(h, p, d).free[d] != [] && WithArena(h, p, d).free[d][0] == Blk(p, 0)
      && FreeBlock(WithArena(h, p, d), d, Blk(p, 0))
  {
    Sizes(d);
    hide PerArena;
  }

  lemma StepParts(h: Heap, m: Bytes, h1: Heap, m1: Bytes, d: int)
    requires Stocked(h, m, h1, m1, d)
    ensures Books(h1) && 0 <= d < CLASSES && |h1.free| == CLASSES && h1.free[d] != [] && FreeBlock(h1, d, h1.free[d][0])
    ensures HasRoom(m1, h1.free[d][0], d)
  {
    hide Out, SameBytes, ListsOk, PerArena;
    RoomIn(h1, m1, d, h1.free[d][0]);
  }

  lemma RoomIn(h: Heap, mem: Bytes, d: int, b: Blk)
    requires Books(h) && Backed(h, mem) && FreeBlock(h, d, b) && 0 <= d < CLASSES
    ensures HasRoom(mem, b, d) && 0 <= b.k < PerArena(d)
  {
    assert 0 <= b.k < PerArena(d);
    Offsets(b, d);
    Sizes(d);
    InOwner(h, b.p);
    BackedAt(h, mem, b.p);
    hide PerArena, BlockSize, Books;
  }

  lemma TakeStep(h: Heap, m: Bytes, h1: Heap, m1: Bytes, d: int, size: int)
    requires Ok(h) && Stocked(h, m, h1, m1, d) && TakeReady(h1, d) && HasRoom(m1, h1.free[d][0], d)
      && 0 < size <= BlockSize(d)
    ensures var b := h1.free[d][0];
      && Ok(Took(h1, d)) && Backed(Took(h1, d), Cleared(m1, b, d))
      && Hands(h, m, Took(h1, d), Cleared(m1, b, d), size, Block(b))
  {
    var b := h1.free[d][0];
    var h2, m2 := Took(h1, d), Cleared(m1, b, d);
    TookOk(h1, d);
    NotOut(h1, d, b);
    ClearedBacked(h1, m1, b, d);
    ClearedZero(h1, m1, b, d);
    assert Backed(h2, m2) && SamePages(h, h2);
    TookSize(h1, d);
    hide Ok, Out, Books, Shape, SameBytes, FreeBlock, Backed, TightBut, ArenasOk, ListsOk, PagesOk, Took, Cleared,
      PerArena, BlockSize, ReadsZero;
    forall y ensures Out(h2, y) <==> Out(h, y) || y == Block(b) {
      TookOut(h1, d, y);
    }
    forall y | Out(h, y) ensures SameBytes(h, m, m2, y) && Shape(h, h2, y) {
      TookOut(h1, d, y);
      OtherBlock(h1, m1, b, d, y);
      SameTwice(h, h1, m, m1, m2, y);
      ShapeTwice(h, h1, h2, y);
    }
  }

  lemma ShapeTwice(h: Heap, h1: Heap, h2: Heap, x: Piece)
    requires Shape(h, h1, x) && Shape(h1, h2, x)
    ensures Shape(h, h2, x)
  {
  }

  lemma NotOut(h: Heap, d: int, b: Blk)
    requires FreeBlock(h, d, b)
    ensures !Out(h, Block(b))
  {
  }

  lemma ClearedBacked(h: Heap, m: Bytes, b: Blk, d: int)
    requires HasRoom(m, b, d) && Backed(h, m)
    ensures Backed(h, Cleared(m, b, d))
  {
    hide Splice, BlockSize;
  }

  lemma ClearedZero(h: Heap, m: Bytes, b: Blk, d: int)
    requires HasRoom(m, b, d) && TakeReady(h, d) && h.free[d][0] == b && h.arenas[b.p].d == d
    ensures ReadsZero(Took(h, d), Cleared(m, b, d), Block(b))
  {
    SpliceAt(m[b.p], HEADER + b.k * BlockSize(d), ZeroBytes(BlockSize(d)));
    hide Splice, BlockSize;
    var page, o, z := Cleared(m, b, d)[b.p], HEADER + b.k * BlockSize(d), BlockSize(d);
    forall i | o <= i < o + z ensures page[i] == 0 {
      assert page[o + (i - o)] == ZeroBytes(z)[i - o];
    }
  }

  lemma TookSize(h: Heap, d: int)
    requires TakeReady(h, d) && h.arenas[h.free[d][0].p].d == d
    ensures To(Took(h, d), Block(h.free[d][0])) - From(Took(h, d), Block(h.free[d][0])) == BlockSize(d)
  {
    hide BlockSize, BlockAddr;
  }

  // ---------- large pieces ----------

  lemma LeastIsRun(bits: seq<bool>, p: int, n: nat)
    requires LeastRun(bits, p, n)
    ensures RunAt(bits, p, n) && 0 <= p && p + n <= |bits|
  {
  }

  lemma WithLargeIs(h: Heap, p: nat, n: nat)
    requires p + n <= |h.vbits|
    ensures WithLarge(h, p, n) ==
      Heap(h.arenas[p := Large(n)], h.free, SetRun(h.vbits, p, n, true), h.avail, OwnedRun(h.owner, p, n), h.foreign)
  {
  }

  lemma LargeStep(h: Heap, m: Bytes, p: nat, n: nat, size: int)
    requires Ok(h) && Backed(h, m) && n >= 1 && RunAt(h.vbits, p, n) && PAGE * n - HEADER >= size
    ensures p + n <= |h.vbits| && Ok(WithLarge(h, p, n)) && Backed(WithLarge(h, p, n), ZeroPages(m, p, n))
    ensures Hands(h, m, WithLarge(h, p, n), ZeroPages(m, p, n), size, Run(p))
  {
    WithLargeOk(h, p, n);
    var h2, m2 := WithLarge(h, p, n), ZeroPages(m, p, n);
    LargeBacked(h, m, p, n);
    LargeZero(h, m, p, n);
    LargeOut(h, p, n, Run(p));
    assert To(h2, Run(p)) - From(h2, Run(p)) == PAGE * n - HEADER;
    hide Ok, Out, Books, Shape, SameBytes, Backed, WithLarge, ZeroPages, ReadsZero, From, To, RunAt;
    forall y ensures Out(h2, y) <==> Out(h, y) || y == Run(p) {
      LargeOut(h, p, n, y);
    }
    forall y | Out(h, y) ensures SameBytes(h, m, m2, y) && Shape(h, h2, y) {
      LargeOut(h, p, n, y);
      LargeSame(h, m, p, n, y);
    }
  }

  lemma LargeBacked(h: Heap, m: Bytes, p: nat, n: nat)
    requires Backed(h, m) && p + n <= |h.vbits|
    ensures Backed(WithLarge(h, p, n), ZeroPages(m, p, n))
  {
    hide ZeroPages, OwnedRun;
    forall q | 0 <= q < |h.vbits| ensures q in ZeroPages(m, p, n) && |ZeroPages(m, p, n)[q]| == PAGE {
      ZeroPagesAt(m, p, n, q);
    }
  }

  lemma LargeZero(h: Heap, m: Bytes, p: nat, n: nat)
    requires p + n <= |h.vbits|
    ensures ReadsZero(WithLarge(h, p, n), ZeroPages(m, p, n), Run(p))
  {
    hide ZeroPages, OwnedRun;
    forall q | p <= q < p + n ensures q in ZeroPages(m, p, n) && ZeroPages(m, p, n)[q] == ZeroBytes(PAGE) {
      ZeroPagesAt(m, p, n, q);
    }
  }

  lemma LargeSame(h: Heap, m: Bytes, p: nat, n: nat, y: Piece)
    requires Ok(h) && Backed(h, m) && n >= 1 && RunAt(h.vbits, p, n) && Out(h, y)
    ensures SameBytes(h, m, ZeroPages(m, p, n), y)
  {
    BooksOf(h);
    OutParts(h, y);
    var q := PageOf(y);
    forall r | p <= r < p + n ensures r !in h.owner {
      FreePage(h, r);
    }
    hide *;
    InOwner(h, q);
    if y.Block? {
      BackedAt(h, m, q);
      ZeroPagesAt(m, p, n, q);
      SameBlock(h, m, ZeroPages(m, p, n), y.b);
    } else {
      forall r | q <= r < q + h.arenas[q].cnt ensures r in m && r in ZeroPages(m, p, n)
        && ZeroPages(m, p, n)[r] == m[r] {
        RunPage(h, q, r);
        BackedAt(h, m, r);
        ZeroPagesAt(m, p, n, r);
      }
      SameRun(h, m, ZeroPages(m, p, n), q);
    }
  }

  // ---------- giving back ----------

  lemma BlockParts(h: Heap, b: Blk)
    requires Ok(h) && Out(h, Block(b))
    ensures |h.free| == CLASSES && b.p in h.arenas && h.arenas[b.p].Small? && 0 <= h.arenas[b.p].d < CLASSES
      && b.p in h.avail && Live(h, b)
    ensures PerArena(h.arenas[b.p].d) >= 3 && GiveReady(h, b)
  {
    BooksOf(h);
    Sizes(h.arenas[b.p].d);
    hide PerArena;
  }

  lemma GaveIs(h: Heap, b: Blk)
    requires |h.free| == CLASSES && b.p in h.arenas && h.arenas[b.p].Small? && 0 <= h.arenas[b.p].d < CLASSES
      && b.p in h.avail
    ensures var a := h.arenas[b.p];
      Gave(h, b) == Heap(h.arenas[b.p := a.(cnt := a.cnt + 1)], h.free[a.d := h.free[a.d] + [b]], h.vbits,
                         h.avail[b.p := h.avail[b.p] + {b.k}], h.owner, h.foreign)
  {
  }

  lemma GiveStep(h: Heap, m: Bytes, b: Blk)
    requires Ok(h) && Live(h, b) && Backed(h, m)
    ensures Books(Gave(h, b)) && TightBut(Gave(h, b), b.p) && TakesBack(h, Gave(h, b), Block(b))
      && Backed(Gave(h, b), m)
  {
    GaveOk(h, b);
    assert Backed(Gave(h, b), m);
    hide Ok, Out, Books, Shape, Gave, Live, TightBut, Backed;
    forall y ensures Out(Gave(h, b), y) <==> Out(h, y) && y != Block(b) {
      GaveOut(h, b, y);
    }
    forall y | Out(Gave(h, b), y) ensures Shape(h, Gave(h, b), y) {
      GaveOut(h, b, y);
    }
  }

  lemma StayStep(h: Heap, b: Blk)
    requires Ok(h) && Live(h, b) && Books(Gave(h, b)) && TightBut(Gave(h, b), b.p)
    requires h.arenas[b.p].cnt + 1 != PerArena(h.arenas[b.p].d)
    ensures Ok(Gave(h, b))
  {
    hide Books, PerArena;
  }

  lemma DropStep(h: Heap, m: Bytes, b: Blk)
    requires Ok(h) && Live(h, b) && Books(Gave(h, b)) && TightBut(Gave(h, b), b.p)
      && TakesBack(h, Gave(h, b), Block(b)) && Backed(Gave(h, b), m)
    requires h.arenas[b.p].cnt + 1 == PerArena(h.arenas[b.p].d)
    ensures var h1 := Gave(h, b);
      && DropReady(h1, b.p) && NoDup(h1.free[h1.arenas[b.p].d]) && h1.arenas[b.p].d == h.arenas[b.p].d
      && Ok(Dropped(h1, b.p)) && TakesBack(h, Dropped(h1, b.p), Block(b)) && Backed(Dropped(h1, b.p), m)
  {
    var h1 := Gave(h, b);
    DroppedOk(h1, b.p);
    ListNoDup(h1, b.p);
    assert DropReady(h1, b.p);
    var h2 := Dropped(h1, b.p);
    assert Backed(h2, m);
    assert h1.arenas[b.p].cnt == PerArena(h1.arenas[b.p].d) && h1.arenas[b.p].d == h.arenas[b.p].d;
    hide Ok, Out, Books, Shape, Gave, Live, TightBut, Backed, Dropped, PerArena, NoDup;
    forall y ensures Out(h2, y) <==> Out(h, y) && y != Block(b) {
      DroppedOut(h1, b.p, y);
    }
    forall y | Out(h2, y) ensures Shape(h, h2, y) {
      DroppedOut(h1, b.p, y);
      ShapeTwice(h, h1, h2, y);
    }
  }

  lemma DropParts(h: Heap, m: Bytes, b: Blk)
    requires Ok(h) && Backed(h, m) && Live(h, b) && GiveReady(h, b)
      && h.arenas[b.p].cnt + 1 == PerArena(h.arenas[b.p].d)
    ensures var h1 := Gave(h, b);
      DropReady(h1, b.p) && NoDup(h1.free[h1.arenas[b.p].d]) && h1.arenas[b.p].d == h.arenas[b.p].d
    ensures 0 <= b.p < |h.vbits| && h.vbits[b.p]
  {
    BooksOf(h);
    OwnPage(h, b.p);
    hide Ok, Books, Backed, Gave, Live, PerArena, DropReady, NoDup, ArenasOk, ListsOk, TightBut, TakesBack, Dropped;
    GiveStep(h, m, b);
    DropStep(h, m, b);
  }

  ghost predicate DropReady(h: Heap, p: int) {
    |h.free| == CLASSES && p in h.arenas && h.arenas[p].Small? && 0 <= h.arenas[p].d < CLASSES && 0 <= p < |h.vbits|
  }

  lemma ListNoDup(h: Heap, p: int)
    requires Books(h) && p in h.arenas && h.arenas[p].Small?
    ensures |h.free| == CLASSES && 0 <= h.arenas[p].d < CLASSES && NoDup(h.free[h.arenas[p].d])
  {
    hide NoDup, PerArena;
  }

  lemma DroppedIs(h: Heap, p: int)
    requires DropReady(h, p)
    ensures |h.free| == CLASSES && 0 <= h.arenas[p].d < CLASSES && 0 <= p < |h.vbits|
    ensures var d := h.arenas[p].d;
      Dropped(h, p) == Heap(h.arenas - {p}, h.free[d := Sieve(h.free[d], p, PerArena(d))], h.vbits[p := false],
                            h.avail - {p}, h.owner - {p}, h.foreign)
  {
  }

  /** The loop that takes the blocks of an arena off the free list. */
  method RemoveBlocks(list0: seq<Blk>, p: int, n: nat) returns (list: seq<Blk>)
    requires NoDup(list0)
    ensures list == Sieve(list0, p, n)
  {
    SieveNone(list0, p);
    list := list0;
    var k := 0;
    while k < n
      invariant 0 <= k <= n && list == Sieve(list0, p, k)
    {
      SieveStep(list0, p, k);
      list := Removed(list, Blk(p, k));
      k := k + 1;
    }
  }

  lemma RunParts(h: Heap, p: nat)
    requires Ok(h) && Out(h, Run(p))
    ensures p in h.arenas && h.arenas[p].Large? && 1 <= h.arenas[p].cnt && p + h.arenas[p].cnt <= |h.vbits|
    ensures forall q :: p <= q < p + h.arenas[p].cnt ==> h.vbits[q]
  {
    BooksOf(h);
    LargeEnd(h, p);
    hide ListsOk, PerArena;
    forall q | p <= q < p + h.arenas[p].cnt ensures h.vbits[q] {
      RunPage(h, p, q);
    }
  }

  lemma UnlargeStep(h: Heap, m: Bytes, p: nat)
    requires Ok(h) && Backed(h, m) && p in h.arenas && h.arenas[p].Large? && 0 <= h.arenas[p].cnt
      && p + h.arenas[p].cnt <= |h.vbits|
    ensures Ok(WithoutLarge(h, p)) && Backed(WithoutLarge(h, p), m) && TakesBack(h, WithoutLarge(h, p), Run(p))
  {
    WithoutLargeOk(h, p);
    var h2 := WithoutLarge(h, p);
    assert Backed(h2, m);
    hide Ok, Out, Shape, WithoutLarge, Backed;
    forall y ensures Out(h2, y) <==> Out(h, y) && y != Run(p) {
      UnlargeOut(h, p, y);
    }
    forall y | Out(h2, y) ensures Shape(h, h2, y) {
      UnlargeOut(h, p, y);
    }
  }

  lemma WithoutLargeIs(h: Heap, p: nat)
    requires p in h.arenas && h.arenas[p].Large? && 0 <= h.arenas[p].cnt && p + h.arenas[p].cnt <= |h.vbits|
    ensures WithoutLarge(h, p) ==
      Heap(h.arenas - {p}, h.free, SetRun(h.vbits, p, h.arenas[p].cnt, false), h.avail,
        UnownedRun(h.owner, p, h.arenas[p].cnt), h.foreign)
  {
  }

  /** An arena's count is the number of its blocks on the free list of its class, where each is once. */
  lemma CountIsListed(h: Heap, p: int)
    requires Ok(h) && p in h.arenas && h.arenas[p].Small?
    ensures 0 <= h.arenas[p].d < |h.free| && NoDup(h.free[h.arenas[p].d])
    ensures h.arenas[p].cnt == |set b | b in h.free[h.arenas[p].d] && b.p == p :: b.k|
  {
    var listed := set b | b in h.free[h.arenas[p].d] && b.p == p :: b.k;
    assert listed == h.avail[p] by {
      forall k ensures k in listed <==> k in h.avail[p] {
        assert Blk(p, k) in h.free[h.arenas[p].d] <==> FreeBlock(h, h.arenas[p].d, Blk(p, k));
      }
    }
    hide PerArena, PagesOk;
  }

  /** From the address of a piece, block2arena leads to its arena, and the rest gives the block. */
  lemma PieceAt(h: Heap, x: Piece)
    requires Ok(h) && Out(h, x)
    ensures var p := ArenaOf(From(h, x)); p == PageOf(x) && p >= 0 && p in h.arenas
    ensures var p := PageOf(x);
      if h.arenas[p].Large? then x == Run(p)
      else
        && 0 <= h.arenas[p].d < CLASSES && BlockSize(h.arenas[p].d) > 0
        && x == Block(Blk(p, (From(h, x) - PAGE * p - HEADER) / BlockSize(h.arenas[p].d)))
  {
    BooksOf(h);
    OutParts(h, x);
    InOwner(h, PageOf(x));
    if x.Block? {
      var d := h.arenas[x.b.p].d;
      BlockToArena(x.b, d);
      Sizes(d);
      assert From(h, x) - PAGE * x.b.p - HEADER == x.b.k * BlockSize(d);
      Divides(x.b.k, d);
    }
    hide Ok, Books, ArenasOk, ListsOk, PagesOk, PerArena, BlockSize;
  }

  lemma Divides(k: int, d: int)
    requires 0 <= d < CLASSES
    ensures k * BlockSize(d) / BlockSize(d) == k
  {
    match d
    case 0 => assert k * 16 / 16 == k;
    case 1 => assert k * 32 / 32 == k;
    case 2 => assert k * 64 / 64 == k;
    case 3 => assert k * 128 / 128 == k;
    case 4 => assert k * 256 / 256 == k;
    case 5 => assert k * 512 / 512 == k;
    case _ => assert k * 1024 / 1024 == k;
  }
}
