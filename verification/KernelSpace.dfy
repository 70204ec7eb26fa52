/** The kernel's address space as boot/loader.s and mem_init (kernel/memory.c) leave it: the first of
    all the spaces that malloc_page, mfree_page and fork make out of each other. */
module KernelSpace {
  import opened Paging
  import opened PageTables
  import opened PageSpace

  const DIR := 0x100             // PAGE_DIR_TABLE_ADDR
  const FIRST := 0x101           // the table of entry 768, with those of entries 769 to 1022 behind it
  const POOLS := 0x200           // the first 2 MB are taken
  const HEAP := 0xC0200          // K_HEAP_START
  const HALF := 768

  /** The table of kernel entry i. */
  function TableFrame(i: int): (t: int) {
    FIRST + i - HALF
  }

  /** Entry 0 and the kernel half, and the directory itself as the last entry. */
  function BootEntry(i: int): (w: int) {
    if i == 0 then Entry(FIRST)
        else if HALF <= i < SELF then Entry(TableFrame(i)) else if i == SELF then Entry(DIR) else 0
  }

  /** Only the first megabyte is mapped, to itself. */
  function BootWord(f: int, k: int): (w: int) {
    if f == DIR then BootEntry(k) else if f == FIRST && k < 256 then Entry(k) else 0
  }

  function BootFrame(f: int): (words: seq<int>) {
    seq(WORDS, k => BootWord(f, k))
  }

  function BootMem(frames: nat): (mem: Mem) {
    map f | 0 <= f < frames :: BootFrame(f)
  }

  function EntryOf(t: int): (i: int) {
    t - FIRST + HALF
  }

  function BootTables(): (tab: map<int, int>) {
    map t | FIRST <= t < POOLS :: EntryOf(t)
  }

  /** The kernel heap over pools of kernel and user frames, all free, as whole bytes of their bitmaps. */
  function BootSpace(kernel: nat, user: nat): (s: Space) {
    Space(BootMem(POOLS + 8 * kernel + 8 * user), DIR, HEAP, seq(8 * kernel, _ => false),
          seq(8 * kernel + 8 * user, _ => false), POOLS, 8 * kernel, 0, 8 * kernel, BootTables(), map[], {})
  }

  lemma BootWords(i: int)
    requires 0 <= i < WORDS
    ensures Present(BootEntry(i)) <==> i == 0 || HALF <= i
    ensures i == 0 ==> FrameOf(BootEntry(i)) == FIRST
    ensures HALF <= i < SELF ==> FrameOf(BootEntry(i)) == TableFrame(i)
  {
    EntryIs(FIRST);
    EntryIs(DIR);
    if HALF <= i < SELF {
      EntryIs(TableFrame(i));
    }
    assert !Present(0);
    hide Entry, Present, FrameOf;
  }

  lemma BootTablesOk(n: nat)
    requires n >= POOLS
    ensures TablesOk(BootMem(n), DIR, BootTables())
  {
    var mem := BootMem(n);
    forall i | 0 <= i < SELF && Present(mem[DIR][i])
      ensures var t := FrameOf(mem[DIR][i]);
        t in mem && t != DIR && t in BootTables() && (BootTables()[t] == i || i == 0)
    {
      BootWords(i);
    }
    assert mem[DIR][SELF] == Entry(DIR);
    hide Entry, Present, FrameOf;
  }

  /** No page of the heap is mapped: the pages of entry 768 from the third megabyte on, and those of
      the entries behind it, have no frame yet. */
  lemma BootUnmapped(n: nat, i: int, k: int)
    requires n >= POOLS && HALF <= i < SELF && 0 <= k < WORDS && (i == HALF ==> k >= 256)
    ensures Frame(BootMem(n), DIR, i, k) == NONE
  {
    BootWords(i);
    assert !Present(0);
    hide Entry, Present, FrameOf;
    assert BootMem(n)[TableFrame(i)][k] == 0;
  }

  /** The first space is in order, with every page and every frame free. */
  lemma BootSpaceOk(kernel: nat, user: nat)
    requires HEAP + 8 * kernel <= SELF * WORDS
    ensures Ok(BootSpace(kernel, user))
  {
    var s := BootSpace(kernel, user);
    BootTablesOk(POOLS + 8 * kernel + 8 * user);
    forall j | 0 <= j < |s.live| ensures FrameAt(s, j) == NONE {
      BootUnmapped(POOLS + 8 * kernel + 8 * user, PageI(s.start, j), PageK(s.start, j));
    }
    hide TablesOk, FrameAt, Frame, BootWord;
    assert Fits(s) && LiveOk(s) && OwnOk(s) && TabsOk(s) && UsedOk(s);
    OkIs(s);
  }
}
