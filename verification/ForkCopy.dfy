/** The address-space half of fork: create_page_dir (userprog/process.c) and copy_body_stack3
    (userprog/fork.c). */
module ForkCopy {
  import opened Paging
  import opened PageTables
  import opened PageSpace
  import opened Frames
  import opened PageAlloc

  // ---------- create_page_dir ----------

  /** Frame d becomes a page directory: nothing in user space, the kernel entries of the current
      directory, and itself as the last entry. */
  function NewDirectory(mem: Mem, cur: int, d: int): (mem': Mem)
    requires cur in mem && |mem[cur]| == WORDS
  {
    mem[d := Zeros()[..USER_TABLES] + mem[cur][USER_TABLES..SELF] + [Entry(d)]]
  }

  /** create_page_dir in the frame d that get_kernel_pages gave. */
  method CreatePageDir(mem: Mem, cur: int, d: int) returns (mem': Mem)
    requires cur in mem && |mem[cur]| == WORDS && d != cur
    ensures mem' == NewDirectory(mem, cur, d)
  {
    mem' := mem[d := Zeros()];                                            // get_kernel_pages clears the page
    mem' := mem'[d := mem'[d][..USER_TABLES] + mem'[cur][USER_TABLES..]];   // memcpy of the kernel entries
    mem' := mem'[d := mem'[d][SELF := Entry(d)]];
    hide Entry;
    assert mem'[d] == Zeros()[..USER_TABLES] + mem[cur][USER_TABLES..SELF] + [Entry(d)];
    assert mem' == mem[d := mem'[d]];
  }

  lemma NewDirectoryEntries(mem: Mem, cur: int, d: int)
    requires cur in mem && |mem[cur]| == WORDS
    ensures var m := NewDirectory(mem, cur, d);
      && d in m && |m[d]| == WORDS && m[d][SELF] == Entry(d)
      && (forall i :: 0 <= i < USER_TABLES ==> m[d][i] == 0)
      && (forall i :: USER_TABLES <= i < SELF ==> m[d][i] == mem[cur][i])
  {
    hide Entry;
  }

  lemma NewDirectoryOk(mem: Mem, cur: int, d: int, tab: map<int, int>)
    requires TablesOk(mem, cur, tab) && cur in mem && |mem[cur]| == WORDS && d in mem && d >= 0 && d !in tab && d != cur
    ensures TablesOk(NewDirectory(mem, cur, d), d, tab)
  {
    NewDirectoryEntries(mem, cur, d);
    assert !Present(0);
    hide Entry, Present, FrameOf, NewDirectory;
    var m := NewDirectory(mem, cur, d);
    KeysOf(mem, cur, d);
    forall i | 0 <= i < SELF && Present(m[d][i])
      ensures FrameOf(m[d][i]) in m && FrameOf(m[d][i]) != d && FrameOf(m[d][i]) in tab && tab[FrameOf(m[d][i])] == i
    {
      assert i >= USER_TABLES && m[d][i] == mem[cur][i];
    }
  }

  lemma KeysOf(mem: Mem, cur: int, d: int)
    requires cur in mem && |mem[cur]| == WORDS && d in mem
    ensures NewDirectory(mem, cur, d).Keys == mem.Keys
      && forall g :: g in mem && g != d ==> NewDirectory(mem, cur, d)[g] == mem[g]
  {
    hide Entry;
  }

  /** Kernel space is shared, user space is empty. */
  lemma NewDirectoryMaps(mem: Mem, cur: int, d: int, tab: map<int, int>, i: int, k: int)
    requires TablesOk(mem, cur, tab) && cur in mem && |mem[cur]| == WORDS && d in mem && d !in tab && d != cur
    requires 0 <= i < SELF && 0 <= k < WORDS
    ensures Frame(NewDirectory(mem, cur, d), d, i, k) == if i < USER_TABLES then NONE else Frame(mem, cur, i, k)
  {
    NewDirectoryEntries(mem, cur, d);
    KeysOf(mem, cur, d);
    if i > 0 {
      TableOf(mem, cur, tab, i);
    }
    assert !Present(0);
    hide TablesOk, Entry, Present, FrameOf, NewDirectory;
  }

  predicate BitSet(used: seq<bool>, base: int, f: int) {
    0 <= f - base < |used| && used[f - base]
  }

  /** The frames in use. */
  ghost function InUse(used: seq<bool>, base: int): (fs: set<int>) {
    set f | base <= f < base + |used| && BitSet(used, base, f)
  }

  /** A new address space with n pages from page start on, whose frames come from lo to hi, before
      anything is mapped: every frame in use is somebody else's. */
  ghost function NewSpace(s: Space, d: int, start: int, n: nat, lo: int, hi: int): (c: Space)
    requires s.dir in s.mem && |s.mem[s.dir]| == WORDS
  {
    s.(mem := NewDirectory(s.mem, s.dir, d), dir := d, start := start, live := seq(n, _ => false), lo := lo, hi := hi,
       own := map[], others := InUse(s.used, s.base))
  }

  /** The child's address space before anything is copied. */
  ghost function ChildSpace(s: Space, d: int): (c: Space)
    requires s.dir in s.mem && |s.mem[s.dir]| == WORDS
  {
    NewSpace(s, d, s.start, |s.live|, s.lo, s.hi)
  }

  lemma ChildSpaceOk(s: Space, d: int)
    requires Ok(s) && s.start + |s.live| <= USER_TABLES * WORDS && InPools(s, d) && d in s.others && d !in s.tab
      && d != s.dir
    ensures s.dir in s.mem && |s.mem[s.dir]| == WORDS && Ok(ChildSpace(s, d)) && UserSpace(ChildSpace(s, d))
  {
    assert WORDS <= s.start && 0 <= s.lo <= s.hi <= |s.used| && ((s.lo == 0 && s.hi == s.split) || s.lo == s.split) by {
      Parts(s);
    }
    NewSpaceOk(s, d, s.start, |s.live|, s.lo, s.hi);
  }

  /** The space of a first process, made while the kernel's directory was active: its pages start at
      0x8048000 and its frames come from behind the kernel pool. */
  lemma FirstSpaceOk(s: Space, d: int, n: nat)
    requires Ok(s) && 0x8048 + n <= USER_TABLES * WORDS && InPools(s, d) && d in s.others && d !in s.tab && d != s.dir
    ensures s.dir in s.mem && |s.mem[s.dir]| == WORDS
    ensures Ok(NewSpace(s, d, 0x8048, n, s.split, |s.used|)) && UserSpace(NewSpace(s, d, 0x8048, n, s.split, |s.used|))
  {
    assert 0 <= s.split <= |s.used| by {
      Parts(s);
    }
    NewSpaceOk(s, d, 0x8048, n, s.split, |s.used|);
  }

  lemma NewSpaceOk(s: Space, d: int, start: int, n: nat, lo: int, hi: int)
    requires Ok(s) && WORDS <= start && start + n <= USER_TABLES * WORDS && InPools(s, d) && d in s.others
      && d !in s.tab && d != s.dir
    requires 0 <= lo <= hi <= |s.used| && ((lo == 0 && hi == s.split) || lo == s.split)
    ensures s.dir in s.mem && |s.mem[s.dir]| == WORDS
    ensures Ok(NewSpace(s, d, start, n, lo, hi)) && UserSpace(NewSpace(s, d, start, n, lo, hi))
  {
    hide Ok;
    Parts(s);
    DirIn(s);
    DirFrame(s, d);
    hide TablesOk, LiveOk, Present, FrameOf, Frame, NewDirectory, FrameAt;
    NewDirectoryOk(s.mem, s.dir, d, s.tab);
    var c := NewSpace(s, d, start, n, lo, hi);
    NewLive(s, d, start, n, lo, hi);
    KeysOf(s.mem, s.dir, d);
    NewUser(s, d, start, n, lo, hi);
    assert Fits(c) && OwnOk(c) && UsedOk(c);
    assert TabsOk(c);
    OkIs(c);
  }

  lemma DirIn(s: Space)
    requires TablesOk(s.mem, s.dir, s.tab)
    ensures s.dir in s.mem && |s.mem[s.dir]| == WORDS
  {
  }

  lemma DirFrame(s: Space, d: int)
    requires Fits(s) && UsedOk(s) && InPools(s, d) && d in s.others
    ensures d in s.mem && d >= 0 && s.used[d - s.base]
  {
  }

  lemma NewLive(s: Space, d: int, start: int, n: nat, lo: int, hi: int)
    requires TablesOk(s.mem, s.dir, s.tab) && s.dir in s.mem && |s.mem[s.dir]| == WORDS && d in s.mem && d !in s.tab
      && d != s.dir
    requires WORDS <= start && start + n <= USER_TABLES * WORDS
    ensures LiveOk(NewSpace(s, d, start, n, lo, hi))
  {
    var c := NewSpace(s, d, start, n, lo, hi);
    forall j | 0 <= j < |c.live| ensures FrameAt(c, j) == NONE {
      PageBounds(start, j);
      NewDirectoryMaps(s.mem, s.dir, d, s.tab, PageI(start, j), PageK(start, j));
    }
    hide FrameAt, TablesOk;
  }

  lemma NewUser(s: Space, d: int, start: int, n: nat, lo: int, hi: int)
    requires s.dir in s.mem && |s.mem[s.dir]| == WORDS && start + n <= USER_TABLES * WORDS
    ensures UserSpace(NewSpace(s, d, start, n, lo, hi))
  {
    NewDirectoryEntries(s.mem, s.dir, d);
    assert !Present(0);
    hide Present, FrameOf, Entry, NewDirectory;
  }

  // ---------- copy_body_stack3 ----------

  /** A frame in use before the copy, in the pools or outside, other than the child's directory. */
  ghost predicate Elsewhere(c: Space, g: int) {
    g in c.mem && g != c.dir && (g in c.others || !InPools(c, g))
  }

  /** Page j of the parent, whose directory is dp, is there, on a frame of its own among those in use
      before the copy, and so are the directory and the table that lead to it. */
  ghost predicate ParentPage(c: Space, dp: int, j: int) {
    var i, k := PageI(c.start, j), PageK(c.start, j);
    && 0 <= i < WORDS && 0 <= k < WORDS
    && Elsewhere(c, dp) && |c.mem[dp]| == WORDS && Present(c.mem[dp][i])
    && var t := FrameOf(c.mem[dp][i]);
       && Elsewhere(c, t) && |c.mem[t]| == WORDS && Present(c.mem[t][k])
       && Elsewhere(c, FrameOf(c.mem[t][k])) && |c.mem[FrameOf(c.mem[t][k])]| == WORDS
  }

  ghost predicate ParentPages(c: Space, dp: int, bits: seq<bool>) {
    |bits| == |c.live| && forall j :: 0 <= j < |bits| && bits[j] ==> ParentPage(c, dp, j)
  }

  /** A parent whose books are in order has its pages ready to be copied. */
  lemma ParentReady(s: Space, d: int)
    requires Ok(s) && UserSpace(s) && InPools(s, s.dir) && InPools(s, d) && d in s.others && d !in s.tab && d != s.dir
    ensures s.dir in s.mem && |s.mem[s.dir]| == WORDS && ParentPages(ChildSpace(s, d), s.dir, s.live)
  {
    hide Ok;
    Parts(s);
    DirIn(s);
    forall j | 0 <= j < |s.live| && s.live[j] ensures ParentPage(ChildSpace(s, d), s.dir, j) {
      PageReady(s, d, j);
    }
    hide TablesOk, LiveOk, OwnOk, TabsOk, UsedOk, Fits, ParentPage, UserSpace;
  }

  lemma PageReady(s: Space, d: int, j: int)
    requires Ok(s) && UserSpace(s) && InPools(s, s.dir) && InPools(s, d) && d in s.others && d != s.dir
      && s.dir in s.mem && |s.mem[s.dir]| == WORDS
    requires 0 <= j < |s.live| && s.live[j]
    ensures ParentPage(ChildSpace(s, d), s.dir, j)
  {
    hide Ok;
    Parts(s);
    LiveHasTable(s, j);
    LiveFrame(s, j);
    PageBounds(s.start, j);
    var c, i, k := ChildSpace(s, d), PageI(s.start, j), PageK(s.start, j);
    var t := FrameOf(s.mem[s.dir][i]);
    DirFrame(s, d);
    KeysOf(s.mem, s.dir, d);
    TableOf(s.mem, s.dir, s.tab, i);
    assert i < USER_TABLES && t in s.own;
    FrameInUse(s, s.dir);
    FrameInUse(s, t);
    FrameInUse(s, FrameAt(s, j));
    FrameWords(s, FrameAt(s, j));
    assert Present(s.mem[t][k]) && FrameOf(s.mem[t][k]) == FrameAt(s, j) by {
      hide TablesOk, OwnOk, TabsOk, UsedOk, Fits, Present, FrameOf, NewDirectory, InUse;
    }
    hide TablesOk, LiveOk, OwnOk, TabsOk, UsedOk, Fits, Present, FrameOf, NewDirectory, InUse, PageI, PageK, FrameAt;
  }

  lemma FrameWords(s: Space, f: int)
    requires TablesOk(s.mem, s.dir, s.tab) && f in s.mem
    ensures |s.mem[f]| == WORDS
  {
  }

  /** A frame of the space or of others in the pools is in use. */
  lemma FrameInUse(s: Space, f: int)
    requires Fits(s) && OwnOk(s) && UsedOk(s)
      && (f in s.own || (f in s.others && InPools(s, f)) || (f == s.dir && InPools(s, f)))
    ensures f in InUse(s.used, s.base) && f in s.mem
  {
    hide FrameAt, Present, FrameOf;
  }

  /** The frame of page j under directory dp. */
  function FrameIn(mem: Mem, dp: int, start: int, j: int): (f: int) {
    Frame(mem, dp, PageI(start, j), PageK(start, j))
  }

  /** Nothing that was there before the copy has been written, the child's directory apart. */
  ghost predicate Kept(c0: Space, c: Space) {
    forall g :: Elsewhere(c0, g) ==> g in c.mem && c.mem[g] == c0.mem[g]
  }

  /** The kernel's entries of the directory, and the entry for itself, are the same. */
  ghost predicate KernelHalf(c0: Space, c: Space) {
    && c0.dir in c0.mem && c.dir in c.mem && |c0.mem[c0.dir]| == |c.mem[c.dir]| == WORDS
    && forall q :: USER_TABLES <= q < WORDS ==> c.mem[c.dir][q] == c0.mem[c0.dir][q]
  }

  /** The parent's page is where it was and holds what it held. */
  lemma ParentKept(c0: Space, c: Space, dp: int, j: int)
    requires ParentPage(c0, dp, j) && Kept(c0, c) && c.start == c0.start
    ensures var f := FrameIn(c0.mem, dp, c0.start, j);
      FrameIn(c.mem, dp, c.start, j) == f && f in c0.mem && f in c.mem && c.mem[f] == c0.mem[f]
        && |c0.mem[f]| == WORDS && f != NONE
  {
    hide Present, FrameOf, PageI, PageK;
  }

  /** The first n pages of the parent have been copied. */
  ghost predicate Copied(c0: Space, c: Space, dp: int, bits: seq<bool>, n: int) {
    && SameRegion(c0, c) && c.others == c0.others && UserSpace(c) && Kept(c0, c) && KernelHalf(c0, c)
    && |bits| == |c0.live|
    && (forall j :: 0 <= j < |c.live| ==> c.live[j] == (j < n && bits[j]))
    && (forall j :: 0 <= j < n && j < |c.live| && bits[j] ==> PageCopied(c0, c, dp, j))
    && (forall x :: 0 <= x < |c0.used| && c0.used[x] ==> c.used[x])
  }

  /** Page j of the child is on a frame that was clear before, and equal to the parent's. */
  ghost predicate PageCopied(c0: Space, c: Space, dp: int, j: int) {
    && FreshFrame(c0, FrameAt(c, j)) && FrameAt(c, j) in c.mem && FrameIn(c0.mem, dp, c0.start, j) in c0.mem
    && c.mem[FrameAt(c, j)] == c0.mem[FrameIn(c0.mem, dp, c0.start, j)]
  }

  ghost function Written(c: Space, f: int, words: seq<int>): (c': Space) {
    c.(mem := c.mem[f := words])
  }

  /** Writing a page of one's own changes no mapping. */
  lemma WrittenOk(c: Space, j: int, words: seq<int>)
    requires Ok(c) && 0 <= j < |c.live| && c.live[j] && |words| == WORDS
    ensures var c' := Written(c, FrameAt(c, j), words);
      && Ok(c') && (UserSpace(c) ==> UserSpace(c')) && c'.mem.Keys == c.mem.Keys
      && forall j' :: 0 <= j' < |c.live| ==> FrameAt(c', j') == FrameAt(c, j')
  {
    hide Ok;
    Parts(c);
    LiveFrame(c, j);
    var f := FrameAt(c, j);
    var c' := Written(c, f, words);
    DataNotTable(c, f);
    forall j' | 0 <= j' < |c.live| ensures FrameAt(c', j') == FrameAt(c, j') {
      WrittenFrame(c, f, words, j');
    }
    WrittenTables(c, f, words);
    hide TablesOk, FrameAt, Present, FrameOf;
    assert Fits(c') && LiveOk(c') && OwnOk(c') && TabsOk(c') && UsedOk(c');
    OkIs(c');
  }

  lemma DataNotTable(c: Space, f: int)
    requires Fits(c) && OwnOk(c) && TabsOk(c) && f in c.own && c.own[f].Data?
    ensures f !in c.tab && f != c.dir && f in c.mem
  {
    hide FrameAt, Present, FrameOf;
  }

  lemma WrittenFrame(c: Space, f: int, words: seq<int>, j: int)
    requires TablesOk(c.mem, c.dir, c.tab) && Fits(c) && 0 <= j < |c.live| && f !in c.tab && f != c.dir && f in c.mem
    ensures FrameAt(Written(c, f, words), j) == FrameAt(c, j)
  {
    PageBounds(c.start, j);
    TableOf(c.mem, c.dir, c.tab, PageI(c.start, j));
    hide TablesOk, Present, FrameOf, PageI, PageK;
  }

  lemma WrittenTables(c: Space, f: int, words: seq<int>)
    requires TablesOk(c.mem, c.dir, c.tab) && f !in c.tab && f != c.dir && f in c.mem && |words| == WORDS
    ensures TablesOk(Written(c, f, words).mem, c.dir, c.tab)
  {
    hide Present, FrameOf, Entry;
  }

  lemma CopiedNone(c0: Space, dp: int, bits: seq<bool>)
    requires UserSpace(c0) && |bits| == |c0.live| && forall j :: 0 <= j < |c0.live| ==> !c0.live[j]
    ensures Copied(c0, c0, dp, bits, 0)
  {
    assert KernelHalf(c0, c0);
    hide FrameAt, UserSpace, Frame;
  }

  lemma CopiedSkip(c0: Space, c: Space, dp: int, bits: seq<bool>, n: int)
    requires Copied(c0, c, dp, bits, n) && 0 <= n < |bits| && !bits[n]
    ensures Copied(c0, c, dp, bits, n + 1)
  {
    hide FrameAt, UserSpace, Frame, PageCopied, Kept;
  }

  /** Mapping page n in the child and filling it copies one page more. */
  lemma CopiedStep(c0: Space, c: Space, c1: Space, dp: int, bits: seq<bool>, n: int, words: seq<int>)
    requires Ok(c) && Ok(c1) && Copied(c0, c, dp, bits, n) && 0 <= n < |bits| && bits[n] && MapsPage(c, c1, n)
    requires ParentPage(c0, dp, n) && |words| == WORDS
    requires FrameIn(c0.mem, dp, c0.start, n) in c0.mem && words == c0.mem[FrameIn(c0.mem, dp, c0.start, n)]
    ensures var c2 := Written(c1, FrameAt(c1, n), words); Ok(c2) && Copied(c0, c2, dp, bits, n + 1)
  {
    hide Ok, FrameAt, UserSpace, Frame, FrameIn, ParentPage;
    WrittenOk(c1, n, words);
    var f := FrameAt(c1, n);
    var c2 := Written(c1, f, words);
    Parts(c1);
    LiveFrame(c1, n);
    hide TablesOk, LiveOk, OwnOk, TabsOk, UsedOk, Fits, Private, PageCopied, Kept;
    StepKept(c0, c, c1, n, words);
    StepKernel(c0, c, c1, n, words);
    hide KernelHalf;
    forall j | 0 <= j < n + 1 && j < |c2.live| && bits[j] ensures PageCopied(c0, c2, dp, j) {
      if j < n {
        StepPage(c0, c, c1, dp, n, words, j);
      } else {
        StepNew(c0, c, c1, dp, n, words);
      }
    }
  }

  lemma StepKept(c0: Space, c: Space, c1: Space, n: int, words: seq<int>)
    requires Kept(c0, c) && SameRegion(c0, c) && c.others == c0.others && UserSpace(c) && MapsPage(c, c1, n)
    requires FrameAt(c1, n) !in c.others
    ensures Kept(c0, Written(c1, FrameAt(c1, n), words)) && UserSpace(c1)
  {
    hide FrameAt, UserSpace, Frame;
    assert forall g :: Elsewhere(c0, g) ==> Content(c, g);
  }

  lemma StepKernel(c0: Space, c: Space, c1: Space, n: int, words: seq<int>)
    requires KernelHalf(c0, c) && UserSpace(c) && MapsPage(c, c1, n) && FrameAt(c1, n) != c1.dir
    ensures KernelHalf(c0, Written(c1, FrameAt(c1, n), words))
  {
    assert PageI(c.start, n) < USER_TABLES;
    hide FrameAt, Private, PageI;
  }

  lemma StepPage(c0: Space, c: Space, c1: Space, dp: int, n: int, words: seq<int>, j: int)
    requires Ok(c) && Ok(c1) && UserSpace(c) && MapsPage(c, c1, n) && 0 <= j < n < |c.live| && c.live[j]
      && PageCopied(c0, c, dp, j)
    requires FrameAt(Written(c1, FrameAt(c1, n), words), j) == FrameAt(c1, j)
    ensures PageCopied(c0, Written(c1, FrameAt(c1, n), words), dp, j)
  {
    hide Ok, FrameAt, UserSpace, Frame, FrameIn;
    Parts(c);
    LiveFrame(c, j);
    DataNotTable(c, FrameAt(c, j));
    assert FrameAt(c1, j) == FrameAt(c, j);
    FramesDistinct(c1, j, n);
    hide TablesOk, LiveOk, OwnOk, TabsOk, UsedOk, Fits;
    assert Content(c, FrameAt(c, j));
  }

  lemma StepNew(c0: Space, c: Space, c1: Space, dp: int, n: int, words: seq<int>)
    requires SameRegion(c0, c) && MapsPage(c, c1, n) && (forall x :: 0 <= x < |c0.used| && c0.used[x] ==> c.used[x])
    requires FrameAt(Written(c1, FrameAt(c1, n), words), n) == FrameAt(c1, n)
    requires FrameIn(c0.mem, dp, c0.start, n) in c0.mem && words == c0.mem[FrameIn(c0.mem, dp, c0.start, n)]
    ensures PageCopied(c0, Written(c1, FrameAt(c1, n), words), dp, n)
  {
    hide FrameAt, Frame, FrameIn, Private;
  }

  /** copy_body_stack3: every page marked in the parent's bitmap is copied.  `a` is the child's address
      space; dp is the parent's directory, active again after every page.  The bitmap is a whole
      number of bytes. */
  method CopyBody(a: Allocator, dp: int, bits: seq<bool>) returns (ok: bool)
    requires Ok(a.S()) && UserSpace(a.S()) && (forall j :: 0 <= j < |a.S().live| ==> !a.S().live[j])
    requires ParentPages(a.S(), dp, bits) && |bits| % 8 == 0
    modifies a
    ensures ok <==> Enough(old(a.S()), bits)
    ensures ok ==> Ok(a.S()) && Copied(old(a.S()), a.S(), dp, bits, |bits|)
  {
    hide *;
    ghost var c0 := a.S();
    PagesLength(c0, dp, bits);
    CopiedNone(c0, dp, bits);
    ServedNone(c0, bits);
    var idxByte := 0;
    while idxByte < |bits| / 8
      invariant 0 <= idxByte <= |bits| / 8 && Ok(a.S()) && Copied(c0, a.S(), dp, bits, 8 * idxByte)
        && Served(c0, a.S(), bits, 8 * idxByte)
    {
      var idxBit := 0;
      while idxBit < 8
        invariant 0 <= idxBit <= 8 && Ok(a.S()) && Copied(c0, a.S(), dp, bits, 8 * idxByte + idxBit)
          && Served(c0, a.S(), bits, 8 * idxByte + idxBit)
      {
        ghost var c := a.S();
        ok := CopyPage(a, dp, bits, 8 * idxByte + idxBit, c0);
        if !ok {
          NotEnough(c0, c, bits, 8 * idxByte + idxBit);
          return;
        }
        idxBit := idxBit + 1;
      }
      idxByte := idxByte + 1;
    }
    assert |bits| == 8 * idxByte;
    ServedAll(c0, a.S(), bits);
    ok := true;
  }

  lemma PagesLength(c: Space, dp: int, bits: seq<bool>)
    requires ParentPages(c, dp, bits)
    ensures |bits| == |c.live|
  {
  }

  /** One bit of the bitmap. */
  method CopyPage(a: Allocator, dp: int, bits: seq<bool>, n: int, ghost c0: Space) returns (ok: bool)
    requires 0 <= n < |bits| && Ok(a.S()) && Copied(c0, a.S(), dp, bits, n) && ParentPages(c0, dp, bits)
      && Served(c0, a.S(), bits, n)
    modifies a
    ensures ok <==> !bits[n] || Room(old(a.S()), 1, TablesFor(old(a.S()), n))
    ensures ok ==> Ok(a.S()) && Copied(c0, a.S(), dp, bits, n + 1) && Served(c0, a.S(), bits, n + 1)
  {
    hide *;
    ok := true;
    ghost var c := a.S();
    if !bits[n] {
      CopiedSkip(c0, c, dp, bits, n);
      ServedSkip(c0, c, bits, n, n + 1);
      return;
    }
    CopiedParts(c0, c, dp, bits, n);
    ParentKept(c0, c, dp, n);
    a.Fields();
    var from := FrameIn(a.mem, dp, a.start, n);
    var buf := a.mem[from];                      // memcpy(buf_page, prog_vaddr)
    ok := a.MapPage(n);                          // get_a_page_without_opvaddrbitmap in the child
    if !ok {
      return;
    }
    ghost var c1 := a.S();
    a.Fields();
    CopiedStep(c0, c, c1, dp, bits, n, buf);
    LiveNow(c, c1, n);
    WrittenTakes(c, c1, n, buf);
    ServedMore(c0, c, Written(c1, FrameAt(c1, n), buf), bits, n);
    FrameInIs(c1, n);
    var to := FrameIn(a.mem, a.dir, a.start, n);
    a.mem := a.mem[to := buf];                   // memcpy(prog_vaddr, buf_page)
    a.Fields();
    WrittenIs(c1, to, buf);
  }

  /** Filling the page takes no frame. */
  lemma WrittenTakes(c: Space, c1: Space, j: int, words: seq<int>)
    requires TakesFrames(c, c1, j) && Ok(c1) && 0 <= j < |c1.live| && c1.live[j] && |words| == WORDS
    ensures TakesFrames(c, Written(c1, FrameAt(c1, j), words), j)
  {
    WrittenOk(c1, j, words);
    var f := FrameAt(c1, j);
    var c2 := Written(c1, f, words);
    assert f != c1.dir by {
      Parts(c1);
      LiveFrame(c1, j);
      DataNotTable(c1, f);
    }
    hide Ok, HasTable, Taken, PageI, FrameAt, Present, UserSpace;
    SameFrames(c, c1, c2, 1, TablesFor(c, j));
    forall k | 0 <= k < |c1.live| ensures HasTable(c2, k) <==> HasTable(c1, k) {
      TableThere(c1, k);
      TableThere(c2, k);
    }
  }

  lemma LiveNow(c: Space, c1: Space, n: int)
    requires MapsPage(c, c1, n)
    ensures 0 <= n < |c1.live| && c1.live[n]
  {
  }

  lemma CopiedParts(c0: Space, c: Space, dp: int, bits: seq<bool>, n: int)
    requires Copied(c0, c, dp, bits, n) && 0 <= n < |bits| && bits[n] && ParentPages(c0, dp, bits)
    ensures n < |c.live| && !c.live[n] && ParentPage(c0, dp, n) && Kept(c0, c) && c.start == c0.start
  {
    hide FrameAt, UserSpace, Frame, PageCopied, Kept, ParentPage;
  }

  lemma FrameInIs(c: Space, j: int)
    ensures FrameIn(c.mem, c.dir, c.start, j) == FrameAt(c, j)
  {
  }

  lemma WrittenIs(c: Space, f: int, words: seq<int>)
    ensures Written(c, f, words) == c.(mem := c.mem[f := words])
  {
  }

  lemma ParentInUse(c0: Space, dp: int, j: int)
    requires Ok(c0) && ParentPage(c0, dp, j)
    ensures !FreshFrame(c0, FrameIn(c0.mem, dp, c0.start, j))
  {
    Parts(c0);
    var f := FrameIn(c0.mem, dp, c0.start, j);
    assert f in c0.others || !InPools(c0, f) by {
      hide Ok, TablesOk, LiveOk, OwnOk, TabsOk, UsedOk, Fits, Present, FrameOf, PageI, PageK;
    }
    hide Ok, TablesOk, LiveOk, OwnOk, TabsOk, Frame;
  }

  /** After a successful copy: every page of the parent's bitmap is in the child with the same words, on
      a frame that was free before, while the parent's page is still on its own frame, unchanged. */
  lemma ForkCopies(c0: Space, c: Space, dp: int, bits: seq<bool>, j: int)
    requires Ok(c0) && Copied(c0, c, dp, bits, |bits|) && ParentPages(c0, dp, bits) && 0 <= j < |bits|
    ensures j < |c.live| && c.live[j] == bits[j]
    ensures bits[j] ==>
      var fp, fc := FrameIn(c0.mem, dp, c0.start, j), FrameAt(c, j);
      && FrameIn(c.mem, dp, c.start, j) == fp && fp in c0.mem && fp in c.mem && c.mem[fp] == c0.mem[fp]
      && fc in c.mem && c.mem[fc] == c0.mem[fp] && FreshFrame(c0, fc) && fc != fp
  {
    hide Ok, FrameAt, UserSpace, Frame, FrameIn;
    if bits[j] {
      assert ParentPage(c0, dp, j);
      ParentInUse(c0, dp, j);
      ParentKept(c0, c, dp, j);
      assert PageCopied(c0, c, dp, j);
    }
  }

  /** A frame of the parent's, or outside the pools, is kept by the copy. */
  lemma FrameKept(s: Space, d: int, c: Space, g: int)
    requires Ok(s) && s.dir in s.mem && |s.mem[s.dir]| == WORDS && d in s.mem && Kept(ChildSpace(s, d), c)
    requires g in s.mem && g != d && (g in s.own || g in s.others || !InPools(s, g))
    ensures g in c.mem && c.mem[g] == s.mem[g]
  {
    Parts(s);
    KeysOf(s.mem, s.dir, d);
    if InPools(s, g) {
      FrameInUse(s, g);
    }
    hide Ok, TablesOk, LiveOk, OwnOk, TabsOk, UsedOk, Fits, NewDirectory, InUse;
    assert Elsewhere(ChildSpace(s, d), g);
  }

  /** The kernel's half of the directory is shared: every entry but the last is the parent's, which is
      what it was, and leads to the same table with the same entries. */
  lemma KernelShared(s: Space, d: int, c: Space, q: int, k: int)
    requires Ok(s) && s.dir in s.mem && |s.mem[s.dir]| == WORDS && d in s.mem && d !in s.tab && d != s.dir
    requires Kept(ChildSpace(s, d), c) && KernelHalf(ChildSpace(s, d), c) && c.dir == d
    requires USER_TABLES <= q < SELF && 0 <= k < WORDS
    ensures s.dir in c.mem && c.mem[s.dir] == s.mem[s.dir] && c.dir in c.mem && |c.mem[c.dir]| == WORDS
    ensures c.mem[c.dir][q] == c.mem[s.dir][q] && c.mem[c.dir][SELF] == Entry(d)
    ensures Frame(c.mem, c.dir, q, k) == Frame(c.mem, s.dir, q, k) == Frame(s.mem, s.dir, q, k)
  {
    hide Ok;
    Parts(s);
    assert s.dir in s.others || !InPools(s, s.dir);
    FrameKept(s, d, c, s.dir);
    NewDirectoryEntries(s.mem, s.dir, d);
    TableOf(s.mem, s.dir, s.tab, q);
    var t := FrameOf(s.mem[s.dir][q]);
    if Present(s.mem[s.dir][q]) {
      assert t in s.own || t in s.others || !InPools(s, t);
      FrameKept(s, d, c, t);
    }
    hide TablesOk, LiveOk, OwnOk, TabsOk, UsedOk, Fits, Kept, NewDirectory, InUse, Present, FrameOf, Entry;
  }

  /** The whole of a successful fork copy from a parent in order: the child has the parent's pages on
      frames that were free, with equal words; the parent's pages are where they were, unchanged; and
      the two share the kernel. */
  lemma ForkDone(s: Space, d: int, c: Space, j: int, q: int, k: int)
    requires Ok(s) && UserSpace(s) && InPools(s, s.dir) && InPools(s, d) && d in s.others && d !in s.tab && d != s.dir
    requires s.dir in s.mem && |s.mem[s.dir]| == WORDS && Copied(ChildSpace(s, d), c, s.dir, s.live, |s.live|)
    requires 0 <= j < |s.live| && USER_TABLES <= q < SELF && 0 <= k < WORDS
    ensures j < |c.live| && c.live[j] == s.live[j]
    ensures s.live[j] ==>
      var fp, fc := FrameAt(s, j), FrameAt(c, j);
      && FrameIn(c.mem, s.dir, s.start, j) == fp && fp in s.mem && fp in c.mem && c.mem[fp] == s.mem[fp]
      && fc in c.mem && c.mem[fc] == s.mem[fp] && FreshFrame(s, fc) && fc != fp
    ensures s.dir in c.mem && c.dir == d && c.dir in c.mem && |c.mem[s.dir]| == |c.mem[c.dir]| == WORDS
    ensures c.mem[c.dir][q] == c.mem[s.dir][q] && Frame(c.mem, c.dir, q, k) == Frame(c.mem, s.dir, q, k)
  {
    hide *;
    var c0 := ChildSpace(s, d);
    UserEnds(s);
    ChildSpaceOk(s, d);
    ParentReady(s, d);
    ForkCopies(c0, c, s.dir, s.live, j);
    CopiedKeeps(c0, c, s.dir, s.live, |s.live|);
    ChildIs(s, d);
    FrameThere(s, d);
    KernelShared(s, d, c, q, k);
    if s.live[j] {
      SamePage(s, d, j);
    }
  }

  lemma UserEnds(s: Space)
    requires UserSpace(s)
    ensures s.start + |s.live| <= USER_TABLES * WORDS
  {
  }

  lemma CopiedKeeps(c0: Space, c: Space, dp: int, bits: seq<bool>, n: int)
    requires Copied(c0, c, dp, bits, n)
    ensures Kept(c0, c) && KernelHalf(c0, c) && c.dir == c0.dir && c.start == c0.start && |c.live| == |c0.live|
  {
    hide FrameAt, UserSpace, Frame, PageCopied, Kept, KernelHalf;
  }

  lemma ChildIs(s: Space, d: int)
    requires s.dir in s.mem && |s.mem[s.dir]| == WORDS
    ensures ChildSpace(s, d).dir == d && ChildSpace(s, d).start == s.start && |ChildSpace(s, d).live| == |s.live|
    ensures forall f :: FreshFrame(ChildSpace(s, d), f) <==> FreshFrame(s, f)
  {
  }

  lemma FrameThere(s: Space, d: int)
    requires Ok(s) && InPools(s, d) && d in s.others
    ensures d in s.mem
  {
    Parts(s);
  }

  /** Before the copy the parent's page is where it is in its own space. */
  lemma SamePage(s: Space, d: int, j: int)
    requires Ok(s) && s.dir in s.mem && |s.mem[s.dir]| == WORDS && InPools(s, d) && d in s.others && d !in s.tab
      && d != s.dir
    requires 0 <= j < |s.live| && s.live[j]
    ensures FrameIn(ChildSpace(s, d).mem, s.dir, s.start, j) == FrameAt(s, j)
    ensures FrameAt(s, j) in s.mem && FrameAt(s, j) in ChildSpace(s, d).mem
      && ChildSpace(s, d).mem[FrameAt(s, j)] == s.mem[FrameAt(s, j)]
  {
    hide Ok;
    Parts(s);
    FrameThere(s, d);
    LiveFrame(s, j);
    LiveHasTable(s, j);
    PageBounds(s.start, j);
    FrameInUse(s, FrameAt(s, j));
    TableOf(s.mem, s.dir, s.tab, PageI(s.start, j));
    KeysOf(s.mem, s.dir, d);
    hide TablesOk, LiveOk, OwnOk, TabsOk, UsedOk, Fits, NewDirectory, InUse, Present, FrameOf, PageI, PageK;
  }
}
