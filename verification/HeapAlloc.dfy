/** sys_malloc and sys_free (kernel/memory.c) in one address space. */
module HeapAlloc {
  import opened Words
  import opened HeapState

  // ---------- addresses ----------

  /** arena2block */
  function BlockAddr(b: Blk, d: int): (a: int)
    requires 0 <= d < CLASSES
  {
    PAGE * b.p + HEADER + b.k * BlockSize(d)
  }

  /** block2arena: the address with its low twelve bits cleared, as a page number. */
  function ArenaOf(a: int): (p: int) {
    a / PAGE
  }

  lemma BlockInside(b: Blk, d: int)
    requires 0 <= d < CLASSES && 0 <= b.k < PerArena(d)
    ensures PAGE * b.p + HEADER <= BlockAddr(b, d) && BlockAddr(b, d) + BlockSize(d) <= PAGE * (b.p + 1)
  {
    Sizes(d);
    var n, k, z := PerArena(d), b.k, BlockSize(d);
    assert (k + 1) * z <= n * z;
  }

  /** block2arena undoes arena2block. */
  lemma BlockToArena(b: Blk, d: int)
    requires 0 <= d < CLASSES && 0 <= b.k < PerArena(d)
    ensures ArenaOf(BlockAddr(b, d)) == b.p
  {
    BlockInside(b, d);
    Sizes(d);
  }

  lemma BlocksApart(p: int, k: int, l: int, d: int)
    requires 0 <= d < CLASSES && k < l
    ensures BlockAddr(Blk(p, k), d) + BlockSize(d) <= BlockAddr(Blk(p, l), d)
  {
    Sizes(d);
    assert (l - k) * BlockSize(d) >= BlockSize(d);
  }

  // ---------- what has been handed out ----------

  /** A piece of memory: a small block, or all of a large arena behind its header. */
  datatype Piece = Block(b: Blk) | Run(p: int)

  ghost predicate Out(h: Heap, x: Piece) {
    match x
    case Block(b) => Live(h, b)
    case Run(p) => p in h.arenas && h.arenas[p].Large?
  }

  function From(h: Heap, x: Piece): (a: int) {
    match x
    case Block(b) => if b.p in h.arenas && h.arenas[b.p].Small? && 0 <= h.arenas[b.p].d < CLASSES
      then BlockAddr(b, h.arenas[b.p].d) else 0
    case Run(p) => PAGE * p + HEADER
  }

  function To(h: Heap, x: Piece): (a: int) {
    match x
    case Block(b) => From(h, x)
      + if b.p in h.arenas && h.arenas[b.p].Small? && 0 <= h.arenas[b.p].d < CLASSES then BlockSize(h.arenas[b.p].d)
        else 0
    case Run(p) => if p in h.arenas then PAGE * (p + h.arenas[p].cnt) else 0
  }

  function PageOf(x: Piece): (p: int) {
    match x
    case Block(b) => b.p
    case Run(p) => p
  }

  /** A piece lies within the pages of its arena, behind the header. */
  lemma PieceInside(h: Heap, x: Piece)
    requires ArenasOk(h) && Out(h, x)
    ensures PageOf(x) in h.arenas
      && PAGE * PageOf(x) + HEADER <= From(h, x) <= To(h, x) <= PAGE * (PageOf(x) + Pages(h.arenas[PageOf(x)]))
  {
    if x.Block? {
      BlockInside(x.b, h.arenas[x.b.p].d);
      Sizes(h.arenas[x.b.p].d);
    }
    hide PerArena, BlockAddr, BlockSize;
  }

  /** Different arenas lie on different pages. */
  lemma ArenasApart(h: Heap, p: int, q: int)
    requires ArenasOk(h) && PagesOk(h) && p in h.arenas && q in h.arenas && p < q
    ensures p + Pages(h.arenas[p]) <= q
  {
    hide PerArena;
    assert Covers(h, p, Pages(h.arenas[p])) && Covers(h, q, Pages(h.arenas[q]));
    assert q in h.owner && h.owner[q] == q;
  }

  /** The pieces handed out are pairwise disjoint. */
  lemma PiecesDisjoint(h: Heap, x: Piece, y: Piece)
    requires Ok(h) && Out(h, x) && Out(h, y) && x != y
    ensures To(h, x) <= From(h, y) || To(h, y) <= From(h, x)
  {
    PieceInside(h, x);
    PieceInside(h, y);
    var p, q := PageOf(x), PageOf(y);
    if p < q {
      ArenasApart(h, p, q);
    } else if q < p {
      ArenasApart(h, q, p);
    } else {
      SamePage(h, x, y);
    }
    hide Ok, Out, From, To;
  }

  lemma SamePage(h: Heap, x: Piece, y: Piece)
    requires ArenasOk(h) && Out(h, x) && Out(h, y) && x != y && PageOf(x) == PageOf(y)
    ensures To(h, x) <= From(h, y) || To(h, y) <= From(h, x)
  {
    var p, d := PageOf(x), h.arenas[PageOf(x)].d;
    var k, l := x.b.k, y.b.k;
    assert x.b == Blk(p, k) && y.b == Blk(p, l);
    if k < l {
      BlocksApart(p, k, l, d);
    } else {
      BlocksApart(p, l, k, d);
    }
    hide PerArena, BlockAddr, BlockSize;
  }

  /** No piece touches the header of any arena. */
  lemma ClearOfHeaders(h: Heap, x: Piece, q: int)
    requires Ok(h) && Out(h, x) && q in h.arenas
    ensures To(h, x) <= PAGE * q || PAGE * q + HEADER <= From(h, x)
  {
    PieceInside(h, x);
    var p := PageOf(x);
    if p < q {
      ArenasApart(h, p, q);
    } else if q < p {
      ArenasApart(h, q, p);
      assert Pages(h.arenas[q]) >= 1;
    }
    hide Ok, Out, From, To;
  }

  /** When everything has been given back no arena is left: the heap holds no page. */
  lemma NothingLeft(h: Heap)
    requires Ok(h) && forall x :: !Out(h, x)
    ensures h.arenas == map[] && forall q :: 0 <= q < |h.vbits| ==> (h.vbits[q] <==> q in h.foreign)
  {
    forall p | p in h.arenas ensures false {
      SomethingOut(h, p);
    }
    assert h.arenas.Keys == {};
  }

  /** Every arena has something handed out. */
  lemma SomethingOut(h: Heap, p: int)
    requires Ok(h) && p in h.arenas
    ensures exists x :: Out(h, x) && PageOf(x) == p
  {
    if h.arenas[p].Large? {
      assert Out(h, Run(p));
    } else {
      var n := PerArena(h.arenas[p].d);
      Sizes(h.arenas[p].d);
      Bounded(h.avail[p], n);
      if forall k :: 0 <= k < n ==> k in h.avail[p] {
        AllIn(h.avail[p], n);
      }
      var k :| 0 <= k < n && k !in h.avail[p];
      assert Out(h, Block(Blk(p, k)));
    }
  }

  lemma {:induction false} AllIn(s: set<int>, n: nat)
    requires forall k :: 0 <= k < n ==> k in s
    ensures |s| >= n
  {
    if n > 0 {
      AllIn(s - {n - 1}, n - 1);
    }
  }

  // ---------- contents ----------

  /** Memory by page. */
  type Bytes = map<int, seq<Byte>>

  function ZeroBytes(n: nat): (z: seq<Byte>)
    ensures |z| == n && forall k :: 0 <= k < n ==> z[k] == 0
  {
    seq(n, _ => 0)
  }

  /** memset of the n pages from p on. */
  function ZeroPages(mem: Bytes, p: int, n: nat): (m: Bytes) {
    if n == 0 then mem else ZeroPages(mem, p, n - 1)[p + n - 1 := ZeroBytes(PAGE)]
  }

  lemma {:induction false} ZeroPagesAt(mem: Bytes, p: int, n: nat, q: int)
    ensures q in ZeroPages(mem, p, n) <==> q in mem || p <= q < p + n
    ensures q in ZeroPages(mem, p, n) ==> ZeroPages(mem, p, n)[q] == if p <= q < p + n then ZeroBytes(PAGE) else mem[q]
  {
    if n > 0 {
      ZeroPagesAt(mem, p, n - 1, q);
    }
  }

  ghost predicate Backed(h: Heap, mem: Bytes) {
    forall q :: 0 <= q < |h.vbits| ==> q in mem && |mem[q]| == PAGE
  }

  /** The bytes of a piece are the same in both memories. */
  ghost predicate SameBytes(h: Heap, mem: Bytes, mem': Bytes, x: Piece) {
    match x
    case Block(b) =>
      && b.p in h.arenas && h.arenas[b.p].Small? && 0 <= h.arenas[b.p].d < CLASSES && b.p in mem && b.p in mem'
      && var o, n := HEADER + b.k * BlockSize(h.arenas[b.p].d), BlockSize(h.arenas[b.p].d);
         0 <= o && o + n <= |mem[b.p]| == |mem'[b.p]| && mem'[b.p][o .. o + n] == mem[b.p][o .. o + n]
    case Run(p) =>
      && p in h.arenas && h.arenas[p].Large?
      && forall q :: p <= q < p + h.arenas[p].cnt ==> q in mem && q in mem' && mem'[q] == mem[q]
  }

  /** The piece reads as zeros. */
  ghost predicate ReadsZero(h: Heap, mem: Bytes, x: Piece) {
    match x
    case Block(b) =>
      && b.p in h.arenas && h.arenas[b.p].Small? && 0 <= h.arenas[b.p].d < CLASSES && b.p in mem
      && var o, n := HEADER + b.k * BlockSize(h.arenas[b.p].d), BlockSize(h.arenas[b.p].d);
         0 <= o && o + n <= |mem[b.p]| && forall i :: o <= i < o + n ==> mem[b.p][i] == 0
    case Run(p) =>
      && p in h.arenas && h.arenas[p].Large?
      && forall q :: p <= q < p + h.arenas[p].cnt ==> q in mem && mem[q] == ZeroBytes(PAGE)
  }

  /** A page that only other pieces lie on may change. */
  lemma OtherPage(h: Heap, mem: Bytes, p: int, page: seq<Byte>, x: Piece)
    requires Books(h) && Backed(h, mem) && Out(h, x) && p !in h.owner
    ensures SameBytes(h, mem, mem[p := page], x)
  {
    OutParts(h, x);
    var q := PageOf(x);
    hide *;
    InOwner(h, q);
    if x.Block? {
      BackedAt(h, mem, q);
      SameBlock(h, mem, mem[p := page], x.b);
    } else {
      forall r | q <= r < q + h.arenas[q].cnt ensures r in mem && r in mem[p := page] && mem[p := page][r] == mem[r] {
        RunPage(h, q, r);
        BackedAt(h, mem, r);
      }
      SameRun(h, mem, mem[p := page], q);
    }
  }

  lemma OutParts(h: Heap, x: Piece)
    requires Books(h) && Out(h, x)
    ensures ArenasOk(h) && PagesOk(h) && PageOf(x) in h.arenas
    ensures x.Block? ==>
      && PageOf(x) == x.b.p && h.arenas[x.b.p].Small? && 0 <= h.arenas[x.b.p].d < CLASSES
      && 0 <= x.b.k < PerArena(h.arenas[x.b.p].d)
    ensures x.Run? ==> PageOf(x) == x.p && h.arenas[x.p].Large?
  {
    hide ListsOk, PerArena;
  }

  lemma BackedAt(h: Heap, mem: Bytes, q: int)
    requires Backed(h, mem) && 0 <= q < |h.vbits|
    ensures q in mem && |mem[q]| == PAGE
  {
  }

  lemma SameBlock(h: Heap, mem: Bytes, mem': Bytes, b: Blk)
    requires b.p in h.arenas && h.arenas[b.p].Small? && 0 <= h.arenas[b.p].d < CLASSES
      && 0 <= b.k < PerArena(h.arenas[b.p].d)
    requires b.p in mem && |mem[b.p]| == PAGE && b.p in mem' && mem'[b.p] == mem[b.p]
    ensures SameBytes(h, mem, mem', Block(b))
  {
    Offsets(b, h.arenas[b.p].d);
    Sizes(h.arenas[b.p].d);
    hide PerArena, BlockSize;
  }

  lemma SameRun(h: Heap, mem: Bytes, mem': Bytes, p: int)
    requires p in h.arenas && h.arenas[p].Large?
      && forall q :: p <= q < p + h.arenas[p].cnt ==> q in mem && q in mem' && mem'[q] == mem[q]
    ensures SameBytes(h, mem, mem', Run(p))
  {
  }

  lemma RunPage(h: Heap, q: int, r: int)
    requires Books(h) && q in h.arenas && h.arenas[q].Large? && q <= r < q + h.arenas[q].cnt
    ensures r in h.owner && h.owner[r] == q && 0 <= r < |h.vbits|
  {
    hide PerArena, ListsOk;
    assert Covers(h, q, Pages(h.arenas[q]));
    assert r in h.owner;
  }

  lemma InOwner(h: Heap, q: int)
    requires ArenasOk(h) && PagesOk(h) && q in h.arenas
    ensures q in h.owner && 0 <= q < |h.vbits|
  {
    OwnPage(h, q);
  }

  lemma Offsets(b: Blk, d: int)
    requires 0 <= d < CLASSES && 0 <= b.k < PerArena(d)
    ensures HEADER <= HEADER + b.k * BlockSize(d) && HEADER + b.k * BlockSize(d) + BlockSize(d) <= PAGE
  {
    BlockInside(b, d);
    hide PerArena, BlockSize;
  }

  /** Clearing a block that is free leaves every piece alone. */
  lemma OtherBlock(h: Heap, mem: Bytes, b: Blk, d: int, x: Piece)
    requires Books(h) && Backed(h, mem) && Out(h, x) && FreeBlock(h, d, b) && 0 <= d < CLASSES
    ensures HasRoom(mem, b, d) && SameBytes(h, mem, Cleared(mem, b, d), x)
  {
    BlockRoom(h, mem, d, b);
    FreeParts(h, d, b);
    OutParts(h, x);
    var mem' := Cleared(mem, b, d);
    hide *;
    var q := PageOf(x);
    InOwner(h, q);
    if x.Block? {
      BackedAt(h, mem, q);
      if q == b.p {
        SplicedBlock(h, mem, b, x.b);
      } else {
        ClearedAt(mem, b, d, q);
        SameBlock(h, mem, mem', x.b);
      }
    } else {
      OwnPage(h, b.p);
      forall r | q <= r < q + h.arenas[q].cnt ensures r in mem && r in mem' && mem'[r] == mem[r] {
        RunPage(h, q, r);
        BackedAt(h, mem, r);
        ClearedAt(mem, b, d, r);
      }
      SameRun(h, mem, mem', q);
    }
  }

  lemma BlockRoom(h: Heap, mem: Bytes, d: int, b: Blk)
    requires Books(h) && Backed(h, mem) && FreeBlock(h, d, b) && 0 <= d < CLASSES
    ensures 0 <= b.k < PerArena(d) && HasRoom(mem, b, d)
  {
    FreeParts(h, d, b);
    Offsets(b, d);
    Sizes(d);
    InOwner(h, b.p);
    BackedAt(h, mem, b.p);
    hide PerArena, BlockSize, Books;
  }

  predicate HasRoom(mem: Bytes, b: Blk, d: int) {
    && 0 <= d < CLASSES && b.p in mem && |mem[b.p]| == PAGE && BlockSize(d) >= 0
    && 0 <= HEADER + b.k * BlockSize(d) && HEADER + b.k * BlockSize(d) + BlockSize(d) <= PAGE
  }

  /** memset of block b. */
  function Cleared(mem: Bytes, b: Blk, d: int): (mem': Bytes)
    requires HasRoom(mem, b, d)
  {
    mem[b.p := Splice(mem[b.p], HEADER + b.k * BlockSize(d), ZeroBytes(BlockSize(d)))]
  }

  lemma ClearedAt(mem: Bytes, b: Blk, d: int, q: int)
    requires HasRoom(mem, b, d) && q in mem && q != b.p
    ensures q in Cleared(mem, b, d) && Cleared(mem, b, d)[q] == mem[q]
  {
  }

  lemma FreeParts(h: Heap, d: int, b: Blk)
    requires Books(h) && FreeBlock(h, d, b) && 0 <= d < CLASSES
    ensures ArenasOk(h) && PagesOk(h) && b.p in h.arenas && h.arenas[b.p].Small? && h.arenas[b.p].d == d
      && 0 <= b.k < PerArena(d)
    ensures forall c :: Out(h, Block(c)) && c.p == b.p ==> c.k != b.k
  {
    hide ListsOk, PerArena;
  }

  lemma SplicedBlock(h: Heap, mem: Bytes, b: Blk, c: Blk)
    requires b.p in h.arenas && h.arenas[b.p].Small? && 0 <= h.arenas[b.p].d < CLASSES && c.p == b.p && c.k != b.k
    requires 0 <= b.k < PerArena(h.arenas[b.p].d) && 0 <= c.k < PerArena(h.arenas[b.p].d) && b.p in mem
      && |mem[b.p]| == PAGE
    ensures HasRoom(mem, b, h.arenas[b.p].d) && SameBytes(h, mem, Cleared(mem, b, h.arenas[b.p].d), Block(c))
  {
    var d := h.arenas[b.p].d;
    Offsets(b, d);
    Offsets(c, d);
    Sizes(d);
    SpliceApart(mem[b.p], b.k, c.k, d);
    hide PerArena, BlockSize, Splice;
  }

  lemma SpliceApart(page: seq<Byte>, k: int, l: int, d: int)
    requires 0 <= d < CLASSES && |page| == PAGE && 0 <= k < PerArena(d) && 0 <= l < PerArena(d) && k != l
    ensures var z := BlockSize(d); var o, m := HEADER + k * z, HEADER + l * z;
      && 0 <= o && o + z <= PAGE && 0 <= m && m + z <= PAGE && z >= 0
      && Splice(page, o, ZeroBytes(z))[m .. m + z] == page[m .. m + z]
  {
    Offsets(Blk(0, k), d);
    Offsets(Blk(0, l), d);
    Sizes(d);
    if k < l {
      BlocksApart(0, k, l, d);
    } else {
      BlocksApart(0, l, k, d);
    }
    var z := BlockSize(d);
    SpliceAt(page, HEADER + k * z, ZeroBytes(z));
    hide PerArena, BlockSize, Splice;
  }
}
