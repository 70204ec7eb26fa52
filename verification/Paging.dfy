/** 32-bit paging as section 4.3 of the Intel SDM Volume 3A describes it, and the kernel's way to its
    own page tables: the last entry of every page directory is the directory itself. */
module Paging {

  /** Physical memory, by frame: 1024 words each. */
  type Mem = map<int, seq<int>>

  const WORDS := 1024          // words, entries and tables per frame
  const SELF := 1023           // the directory entry that is the directory itself
  const PAGE := 4096
  const BIG := 0x400000        // what one directory entry covers

  /** A page-table word: frame number and flags; the kernel sets user, writable and present. */
  function Entry(f: int): (w: int) {
    f * PAGE + 7
  }

  predicate Present(w: int) {
    w % 2 == 1
  }

  /** Words are unsigned. */
  function FrameOf(w: int): (f: int)
    ensures f >= 0
  {
    if w >= 0 then w / PAGE else 0
  }

  lemma EntryIs(f: int)
    requires f >= 0
    ensures Present(Entry(f)) && FrameOf(Entry(f)) == f
  {
  }

  ghost predicate Words(mem: Mem) {
    forall f :: f in mem ==> |mem[f]| == WORDS
  }

  datatype Place = Place(frame: int, off: int) | Fault

  /** The walk: bits 31 to 22 index the directory, bits 21 to 12 the table, bits 11 to 0 are the
      offset; an entry that is not present faults. */
  function Walk(mem: Mem, dir: int, v: int): (p: Place)
    requires 0 <= v < BIG * WORDS
  {
    var i, k := v / BIG, v / PAGE % WORDS;
    if dir !in mem || |mem[dir]| != WORDS || !Present(mem[dir][i]) then Fault
    else
      var t := FrameOf(mem[dir][i]);
      if t !in mem || |mem[t]| != WORDS || !Present(mem[t][k]) then Fault
      else Place(FrameOf(mem[t][k]), v % PAGE)
  }

  /** pte_ptr: 0xFFC00000 + ((vaddr & 0xFFC00000) >> 10) + PTE_IDX(vaddr) * 4 */
  function PtePtr(v: int): (p: int)
    requires 0 <= v < BIG * WORDS
  {
    0xFFC00000 + (v / BIG * BIG) / 1024 + v / PAGE % WORDS * 4
  }

  /** pde_ptr: 0xFFFFF000 + PDE_IDX(vaddr) * 4 */
  function PdePtr(v: int): (p: int)
    requires 0 <= v < BIG * WORDS
  {
    0xFFFFF000 + v / BIG * 4
  }

  lemma Split(i: int, k: int, o: int)
    requires 0 <= i < WORDS && 0 <= k < WORDS && 0 <= o < PAGE
    ensures var v := i * BIG + k * PAGE + o;
      0 <= v < BIG * WORDS && v / BIG == i && v / PAGE % WORDS == k && v % PAGE == o
  {
    var v := i * BIG + k * PAGE + o;
    assert v / PAGE == i * WORDS + k;
  }

  lemma Indices(v: int)
    requires 0 <= v < BIG * WORDS
    ensures 0 <= v / BIG < WORDS && 0 <= v / PAGE % WORDS < WORDS
    ensures PtePtr(v) == SELF * BIG + v / BIG * PAGE + v / PAGE % WORDS * 4
    ensures PdePtr(v) == SELF * BIG + SELF * PAGE + v / BIG * 4
  {
    var i := v / BIG;
    assert (i * BIG) / 1024 == i * PAGE;
  }

  /** The directory maps itself. */
  ghost predicate SelfMapped(mem: Mem, dir: int) {
    Words(mem) && dir in mem && dir >= 0 && mem[dir][SELF] == Entry(dir)
  }

  /** pde_ptr(v) leads to the directory entry of v. */
  lemma PdeReached(mem: Mem, dir: int, v: int)
    requires SelfMapped(mem, dir) && 0 <= v < BIG * WORDS
    ensures 0 <= PdePtr(v) < BIG * WORDS && Walk(mem, dir, PdePtr(v)) == Place(dir, v / BIG * 4)
  {
    Indices(v);
    Split(SELF, SELF, v / BIG * 4);
    EntryIs(dir);
    hide Present, FrameOf, PdePtr, Entry;
  }

  /** pte_ptr(v) leads to the table entry of v when its directory entry is present, and faults
      otherwise. */
  lemma PteReached(mem: Mem, dir: int, v: int)
    requires SelfMapped(mem, dir) && 0 <= v < BIG * WORDS
    ensures 0 <= PtePtr(v) < BIG * WORDS && 0 <= v / BIG < WORDS
    ensures Walk(mem, dir, PtePtr(v)) ==
      if Present(mem[dir][v / BIG]) then Place(FrameOf(mem[dir][v / BIG]), v / PAGE % WORDS * 4) else Fault
  {
    Indices(v);
    Split(SELF, v / BIG, v / PAGE % WORDS * 4);
    EntryIs(dir);
    hide Present, FrameOf, PtePtr, Entry;
  }
}
