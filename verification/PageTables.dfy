/** Page tables as a mapping from pages to frames, and what one change of an entry does to it. */
module PageTables {
  import opened Paging

  const NONE := -1

  /** The frame that table entry k under directory entry i maps, or NONE. */
  function Frame(mem: Mem, dir: int, i: int, k: int): (f: int) {
    if 0 <= i < WORDS && 0 <= k < WORDS && dir in mem && |mem[dir]| == WORDS && Present(mem[dir][i]) then
      var t := FrameOf(mem[dir][i]);
      if t in mem && |mem[t]| == WORDS && Present(mem[t][k]) then FrameOf(mem[t][k]) else NONE
    else NONE
  }

  /** Every present entry but the last leads to a table, the first one apart to a table of its own; tab
      says which entry a table belongs to.  The first entry of the kernel's directory shares its
      table with entry 768. */
  ghost predicate TablesOk(mem: Mem, dir: int, tab: map<int, int>) {
    && SelfMapped(mem, dir)
    && forall i :: 0 <= i < SELF && Present(mem[dir][i]) ==>
         FrameOf(mem[dir][i]) in mem && FrameOf(mem[dir][i]) != dir && FrameOf(mem[dir][i]) in tab
           && (tab[FrameOf(mem[dir][i])] == i || i == 0)
  }

  function WithWord(mem: Mem, f: int, k: int, w: int): (mem': Mem)
    requires f in mem && 0 <= k < |mem[f]|
  {
    mem[f := mem[f][k := w]]
  }

  /** Entry (i, k) is set to w. */
  function PteSet(mem: Mem, dir: int, i: int, k: int, w: int): (mem': Mem)
    requires dir in mem && 0 <= i < |mem[dir]| && FrameOf(mem[dir][i]) in mem && 0 <= k < |mem[FrameOf(mem[dir][i])]|
  {
    WithWord(mem, FrameOf(mem[dir][i]), k, w)
  }

  lemma TableOf(mem: Mem, dir: int, tab: map<int, int>, i: int)
    requires TablesOk(mem, dir, tab) && 1 <= i < SELF
    ensures dir in mem && |mem[dir]| == WORDS && mem[dir][SELF] == Entry(dir)
    ensures Present(mem[dir][i]) ==>
      var t := FrameOf(mem[dir][i]); t in mem && |mem[t]| == WORDS && t != dir && t in tab && tab[t] == i
  {
    hide Present, FrameOf, Entry;
  }

  /** Exactly the mapping of page (i, k) changes. */
  lemma PteSetAt(mem: Mem, dir: int, tab: map<int, int>, i: int, k: int, w: int, i': int, k': int)
    requires TablesOk(mem, dir, tab) && 1 <= i < SELF && 0 <= k < WORDS && 1 <= i' < SELF && 0 <= k' < WORDS
    requires dir in mem && 0 <= i < |mem[dir]| && Present(mem[dir][i]) && FrameOf(mem[dir][i]) in mem
      && 0 <= k < |mem[FrameOf(mem[dir][i])]|
    ensures Frame(PteSet(mem, dir, i, k, w), dir, i', k') ==
      if i' == i && k' == k then (if Present(w) then FrameOf(w) else NONE) else Frame(mem, dir, i', k')
  {
    TableOf(mem, dir, tab, i);
    TableOf(mem, dir, tab, i');
    hide Present, FrameOf, Entry, TablesOk;
  }

  lemma PteSetOk(mem: Mem, dir: int, tab: map<int, int>, i: int, k: int, w: int)
    requires TablesOk(mem, dir, tab) && 1 <= i < SELF && 0 <= k < WORDS
    requires dir in mem && 0 <= i < |mem[dir]| && Present(mem[dir][i]) && FrameOf(mem[dir][i]) in mem
      && 0 <= k < |mem[FrameOf(mem[dir][i])]|
    ensures TablesOk(PteSet(mem, dir, i, k, w), dir, tab) && PteSet(mem, dir, i, k, w).Keys == mem.Keys
  {
    TableOf(mem, dir, tab, i);
    hide Present, FrameOf, Entry;
  }

  function Zeros(): (z: seq<int>)
    ensures |z| == WORDS && forall k :: 0 <= k < WORDS ==> z[k] == 0
  {
    seq(WORDS, _ => 0)
  }

  /** Frame t becomes the empty table of directory entry i. */
  function TableAdded(mem: Mem, dir: int, i: int, t: int): (mem': Mem)
    requires dir in mem && 0 <= i < |mem[dir]|
  {
    WithWord(mem, dir, i, Entry(t))[t := Zeros()]
  }

  lemma TableAddedOk(mem: Mem, dir: int, tab: map<int, int>, i: int, t: int)
    requires TablesOk(mem, dir, tab) && 1 <= i < SELF && dir in mem && |mem[dir]| == WORDS && !Present(mem[dir][i])
    requires t in mem && t >= 0 && t != dir && t !in tab
    ensures TablesOk(TableAdded(mem, dir, i, t), dir, tab[t := i]) && TableAdded(mem, dir, i, t).Keys == mem.Keys
    ensures dir in TableAdded(mem, dir, i, t) && |TableAdded(mem, dir, i, t)[dir]| == WORDS
    ensures Present(TableAdded(mem, dir, i, t)[dir][i]) && FrameOf(TableAdded(mem, dir, i, t)[dir][i]) == t
  {
    EntryIs(t);
    hide Present, FrameOf, Entry;
  }

  lemma TableAddedAt(mem: Mem, dir: int, tab: map<int, int>, i: int, t: int, i': int, k': int)
    requires TablesOk(mem, dir, tab) && 1 <= i < SELF && dir in mem && |mem[dir]| == WORDS && !Present(mem[dir][i])
    requires t in mem && t >= 0 && t != dir && t !in tab && 1 <= i' < SELF && 0 <= k' < WORDS
    ensures Frame(TableAdded(mem, dir, i, t), dir, i', k') == Frame(mem, dir, i', k')
  {
    EntryIs(t);
    TableOf(mem, dir, tab, i');
    assert !Present(0);
    hide Present, FrameOf, Entry, TablesOk;
  }
}
