/** One address space: which pages of a region are mapped, which frames of the pools that takes, and
    what mapping or unmapping one page does. */
module PageSpace {
  import opened Paging
  import opened PageTables

  /** What a frame of the pools is used for: the page with a given index in the region, or the page
      table of a directory entry. */
  datatype Owner = Data(j: int) | Table(i: int)

  /** Memory and page directory; the first page of the region and which of its pages are in use; the
      pool bits, frame `base` first, the kernel pool below `split`, the data frames of this region
      taken from lo to hi, which is the kernel pool or what lies behind it; which frame is which table;
      what the frames are used for, and the frames others use. */
  datatype Space = Space(mem: Mem, dir: int, start: int, live: seq<bool>,
                         used: seq<bool>, base: int, split: int, lo: int, hi: int,
                         tab: map<int, int>, own: map<int, Owner>, others: set<int>)

  function PageI(start: int, j: int): (i: int) {
    (start + j) / WORDS
  }

  function PageK(start: int, j: int): (k: int) {
    (start + j) % WORDS
  }

  lemma PageBounds(start: int, j: int)
    requires WORDS <= start + j < SELF * WORDS
    ensures 1 <= PageI(start, j) < SELF && 0 <= PageK(start, j) < WORDS
  {
  }

  lemma PagesDiffer(start: int, j: int, j': int)
    ensures PageI(start, j) == PageI(start, j') && PageK(start, j) == PageK(start, j') ==> j == j'
  {
  }

  /** The frame of page j of the region, or NONE. */
  function FrameAt(s: Space, j: int): (f: int) {
    Frame(s.mem, s.dir, PageI(s.start, j), PageK(s.start, j))
  }

  ghost predicate Fits(s: Space) {
    && WORDS <= s.start && s.start + |s.live| <= SELF * WORDS && 0 <= s.lo <= s.hi <= |s.used|
    && 0 <= s.split <= |s.used| && 0 < s.base
    && ((s.lo == 0 && s.hi == s.split) || s.lo == s.split)
    && (forall f :: s.base <= f < s.base + |s.used| ==> f in s.mem)
    && (s.dir in s.others || !InPools(s, s.dir))
  }

  predicate InPools(s: Space, f: int) {
    0 <= f - s.base < |s.used|
  }

  /** A page is in use exactly when its table entry is present, and its frame is its own. */
  ghost predicate LiveOk(s: Space) {
    && (forall j :: 0 <= j < |s.live| ==> (s.live[j] <==> FrameAt(s, j) != NONE))
    && (forall j :: 0 <= j < |s.live| && s.live[j] ==> FrameAt(s, j) in s.own && s.own[FrameAt(s, j)] == Data(j))
  }

  /** Every frame held is held for something: a mapped page, or a table in place. */
  ghost predicate OwnOk(s: Space) {
    forall f :: f in s.own ==>
      && InPools(s, f) && f !in s.others
      && if s.own[f].Data? then DataIs(s, s.own[f].j, f) else TableIs(s, s.own[f].i, f)
  }

  predicate DataIs(s: Space, j: int, f: int) {
    s.lo <= f - s.base < s.hi && 0 <= j < |s.live| && s.live[j] && FrameAt(s, j) == f
  }

  predicate TableIs(s: Space, i: int, t: int) {
    && t - s.base < s.split && t in s.tab && 0 <= i < SELF && s.tab[t] == i
    && s.dir in s.mem && i < |s.mem[s.dir]| && Present(s.mem[s.dir][i]) && FrameOf(s.mem[s.dir][i]) == t
  }

  /** The tables are held as tables, or lie outside the pools, or are others'. */
  ghost predicate TabsOk(s: Space) {
    forall t :: t in s.tab ==> if t in s.own then s.own[t].Table? else t in s.others || !InPools(s, t)
  }

  /** The pool bits are exactly the frames held, by this space or by others. */
  ghost predicate UsedOk(s: Space) {
    forall f :: s.base <= f < s.base + |s.used| ==> (s.used[f - s.base] <==> f in s.own || f in s.others)
  }

  ghost predicate Ok(s: Space) {
    TablesOk(s.mem, s.dir, s.tab) && Fits(s) && LiveOk(s) && OwnOk(s) && TabsOk(s) && UsedOk(s)
  }

  lemma Parts(s: Space)
    requires Ok(s)
    ensures TablesOk(s.mem, s.dir, s.tab) && Fits(s) && LiveOk(s) && OwnOk(s) && TabsOk(s) && UsedOk(s)
  {
  }

  /** A frame whose bit is clear is nobody's. */
  lemma ClearFrame(s: Space, f: int)
    requires Ok(s) && InPools(s, f) && !s.used[f - s.base]
    ensures f in s.mem && f > 0 && f !in s.own && f !in s.others && f !in s.tab && f != s.dir
  {
    Parts(s);
    hide Ok, TablesOk, LiveOk, OwnOk;
  }

  // ---------- a new table ----------

  ghost function Tabled(s: Space, i: int, t: int): (s': Space)
    requires s.dir in s.mem && 0 <= i < |s.mem[s.dir]| && InPools(s, t)
  {
    s.(mem := TableAdded(s.mem, s.dir, i, t), used := s.used[t - s.base := true], tab := s.tab[t := i],
      own := s.own[t := Table(i)])
  }

  /** A clear frame of the kernel pool becomes the table of an entry that was not present: no mapping
      changes. */
  lemma TabledOk(s: Space, i: int, t: int)
    requires Ok(s) && 1 <= i < SELF && InPools(s, t) && t - s.base < s.split && !s.used[t - s.base]
    requires s.dir in s.mem && |s.mem[s.dir]| == WORDS && !Present(s.mem[s.dir][i])
    ensures Ok(Tabled(s, i, t)) && TableIs(Tabled(s, i, t), i, t)
  {
    hide Ok, TablesOk, LiveOk, OwnOk, TabsOk, UsedOk, Fits, Present, FrameOf, Entry, Frame;
    ClearFrame(s, t);
    Parts(s);
    TableAddedOk(s.mem, s.dir, s.tab, i, t);
    var s' := Tabled(s, i, t);
    TabledFrames(s, i, t);
    TabledOwn(s, i, t);
    TabledRest(s, i, t);
    OkIs(s');
  }

  lemma OkIs(s: Space)
    requires TablesOk(s.mem, s.dir, s.tab) && Fits(s) && LiveOk(s) && OwnOk(s) && TabsOk(s) && UsedOk(s)
    ensures Ok(s)
  {
  }

  lemma TabledFrameAt(s: Space, i: int, t: int, j: int)
    requires TablesOk(s.mem, s.dir, s.tab) && Fits(s) && 0 <= j < |s.live| && 1 <= i < SELF && InPools(s, t)
      && t in s.mem && t >= 0 && t != s.dir && t !in s.tab
    requires s.dir in s.mem && |s.mem[s.dir]| == WORDS && !Present(s.mem[s.dir][i])
    ensures FrameAt(Tabled(s, i, t), j) == FrameAt(s, j)
  {
    PageBounds(s.start, j);
    TableAddedAt(s.mem, s.dir, s.tab, i, t, PageI(s.start, j), PageK(s.start, j));
    hide TablesOk, Present, FrameOf, Frame, TableAdded, PageI, PageK;
  }

  lemma TabledFrames(s: Space, i: int, t: int)
    requires TablesOk(s.mem, s.dir, s.tab) && Fits(s) && LiveOk(s) && 1 <= i < SELF && InPools(s, t) && t in s.mem
      && t >= 0 && t != s.dir && t !in s.tab
    requires s.dir in s.mem && |s.mem[s.dir]| == WORDS && !Present(s.mem[s.dir][i]) && t !in s.own
    ensures LiveOk(Tabled(s, i, t))
    ensures forall j :: 0 <= j < |s.live| ==> FrameAt(Tabled(s, i, t), j) == FrameAt(s, j)
  {
    hide TablesOk, Present, Fits, FrameAt, TableAdded;
    forall j | 0 <= j < |s.live| ensures FrameAt(Tabled(s, i, t), j) == FrameAt(s, j) {
      TabledFrameAt(s, i, t, j);
    }
  }

  lemma TabledOwn(s: Space, i: int, t: int)
    requires OwnOk(s) && 1 <= i < SELF && InPools(s, t) && t - s.base < s.split && t !in s.own && t !in s.others
      && t != s.dir && t >= 0
    requires s.dir in s.mem && |s.mem[s.dir]| == WORDS && !Present(s.mem[s.dir][i])
    requires forall j :: 0 <= j < |s.live| ==> FrameAt(Tabled(s, i, t), j) == FrameAt(s, j)
    ensures OwnOk(Tabled(s, i, t)) && TableIs(Tabled(s, i, t), i, t)
  {
    EntryIs(t);
    hide FrameAt, Present, FrameOf, Entry;
  }

  lemma TabledRest(s: Space, i: int, t: int)
    requires TabsOk(s) && UsedOk(s) && Fits(s) && InPools(s, t) && s.dir in s.mem && 0 <= i < |s.mem[s.dir]|
    ensures TabsOk(Tabled(s, i, t)) && UsedOk(Tabled(s, i, t)) && Fits(Tabled(s, i, t))
  {
    hide Entry;
  }

  // ---------- one page mapped or unmapped ----------

  /** The directory entry of page j is present, and this is its table. */
  ghost predicate HasTable(s: Space, j: int) {
    && s.dir in s.mem && |s.mem[s.dir]| == WORDS && 0 <= PageI(s.start, j) < SELF && 0 <= PageK(s.start, j) < WORDS
    && Present(s.mem[s.dir][PageI(s.start, j)])
    && FrameOf(s.mem[s.dir][PageI(s.start, j)]) in s.mem && |s.mem[FrameOf(s.mem[s.dir][PageI(s.start, j)])]| == WORDS
  }

  ghost function EntrySet(s: Space, j: int, w: int): (mem': Mem)
    requires HasTable(s, j)
  {
    PteSet(s.mem, s.dir, PageI(s.start, j), PageK(s.start, j), w)
  }

  ghost function Mapped(s: Space, j: int, f: int): (s': Space)
    requires HasTable(s, j) && 0 <= j < |s.live| && InPools(s, f)
  {
    s.(mem := EntrySet(s, j, Entry(f)), live := s.live[j := true], used := s.used[f - s.base := true],
      own := s.own[f := Data(j)])
  }

  /** Clearing the present bit of page j's entry and giving its frame back. */
  ghost function Unmapped(s: Space, j: int, w: int): (s': Space)
    requires HasTable(s, j) && 0 <= j < |s.live| && InPools(s, FrameAt(s, j))
  {
    s.(mem := EntrySet(s, j, w), live := s.live[j := false], used := s.used[FrameAt(s, j) - s.base := false],
      own := s.own - {FrameAt(s, j)})
  }

  lemma SetFrameAt(s: Space, s': Space, j: int, w: int, j': int)
    requires TablesOk(s.mem, s.dir, s.tab) && Fits(s) && 0 <= j < |s.live| && 0 <= j' < |s.live| && HasTable(s, j)
    requires s'.mem == EntrySet(s, j, w) && s'.dir == s.dir && s'.start == s.start
    ensures FrameAt(s', j') == if j' == j then (if Present(w) then FrameOf(w) else NONE) else FrameAt(s, j')
  {
    PageBounds(s.start, j);
    PageBounds(s.start, j');
    PagesDiffer(s.start, j, j');
    PteSetAt(s.mem, s.dir, s.tab, PageI(s.start, j), PageK(s.start, j), w, PageI(s.start, j'), PageK(s.start, j'));
    hide TablesOk, Fits, Present, FrameOf, Frame, PteSet, PageI, PageK;
  }

  lemma SetFrames(s: Space, s': Space, j: int, w: int)
    requires TablesOk(s.mem, s.dir, s.tab) && Fits(s) && 0 <= j < |s.live| && HasTable(s, j)
    requires s'.mem == EntrySet(s, j, w) && s'.dir == s.dir && s'.start == s.start
    ensures forall j' :: 0 <= j' < |s.live| ==>
      FrameAt(s', j') == if j' == j then (if Present(w) then FrameOf(w) else NONE) else FrameAt(s, j')
  {
    hide TablesOk, Fits, Present, FrameOf, FrameAt, HasTable;
    forall j' | 0 <= j' < |s.live|
      ensures FrameAt(s', j') == if j' == j then (if Present(w) then FrameOf(w) else NONE) else FrameAt(s, j')
    {
      SetFrameAt(s, s', j, w, j');
    }
  }

  /** Setting the entry keeps the tables as they are. */
  lemma SetTables(s: Space, s': Space, j: int, w: int)
    requires TablesOk(s.mem, s.dir, s.tab) && Fits(s) && 0 <= j < |s.live| && HasTable(s, j)
    requires s' == s.(mem := EntrySet(s, j, w), live := s'.live, used := s'.used, own := s'.own)
      && |s'.used| == |s.used| && |s'.live| == |s.live|
    ensures TablesOk(s'.mem, s'.dir, s'.tab) && Fits(s')
    ensures s'.dir in s'.mem && s'.mem[s'.dir] == s.mem[s.dir]
  {
    PageBounds(s.start, j);
    PteSetOk(s.mem, s.dir, s.tab, PageI(s.start, j), PageK(s.start, j), w);
    TableOf(s.mem, s.dir, s.tab, PageI(s.start, j));
    hide TablesOk, Present, FrameOf, PageI, PageK;
  }

  lemma MappedOwn(s: Space, j: int, f: int)
    requires HasTable(s, j) && 0 <= j < |s.live| && InPools(s, f) && s.lo <= f - s.base < s.hi && f !in s.own
      && f !in s.others && !s.live[j]
    requires LiveOk(s) && OwnOk(s) && s.dir in Mapped(s, j, f).mem && Mapped(s, j, f).mem[s.dir] == s.mem[s.dir]
      && f != NONE
    requires forall j' :: 0 <= j' < |s.live| ==> FrameAt(Mapped(s, j, f), j') == if j' == j then f else FrameAt(s, j')
    ensures LiveOk(Mapped(s, j, f)) && OwnOk(Mapped(s, j, f))
  {
    hide FrameAt, HasTable, EntrySet, Present, FrameOf, Entry;
  }

  lemma MappedRest(s: Space, j: int, f: int)
    requires TabsOk(s) && UsedOk(s) && HasTable(s, j) && 0 <= j < |s.live| && InPools(s, f) && f !in s.tab
    ensures TabsOk(Mapped(s, j, f)) && UsedOk(Mapped(s, j, f))
  {
    hide HasTable, EntrySet;
  }

  /** A clear frame of the data pool is mapped at a free page: nothing else changes. */
  lemma MappedOk(s: Space, j: int, f: int)
    requires Ok(s) && HasTable(s, j) && 0 <= j < |s.live| && !s.live[j]
    requires InPools(s, f) && s.lo <= f - s.base < s.hi && !s.used[f - s.base]
    ensures Ok(Mapped(s, j, f)) && FrameAt(Mapped(s, j, f), j) == f
    ensures forall j' :: 0 <= j' < |s.live| && j' != j ==> FrameAt(Mapped(s, j, f), j') == FrameAt(s, j')
  {
    hide Ok, TablesOk, LiveOk, OwnOk, TabsOk, UsedOk, Fits, Present, FrameOf, Entry, FrameAt, HasTable;
    ClearFrame(s, f);
    Parts(s);
    EntryIs(f);
    SetFrames(s, Mapped(s, j, f), j, Entry(f));
    SetTables(s, Mapped(s, j, f), j, Entry(f));
    MappedOwn(s, j, f);
    MappedRest(s, j, f);
    OkIs(Mapped(s, j, f));
  }

  lemma UnmappedOwn(s: Space, j: int, w: int)
    requires HasTable(s, j) && 0 <= j < |s.live| && s.live[j] && InPools(s, FrameAt(s, j))
    requires LiveOk(s) && OwnOk(s) && s.dir in Unmapped(s, j, w).mem && Unmapped(s, j, w).mem[s.dir] == s.mem[s.dir]
    requires forall j' :: 0 <= j' < |s.live| ==>
        FrameAt(Unmapped(s, j, w), j') == if j' == j then NONE else FrameAt(s, j')
    ensures LiveOk(Unmapped(s, j, w)) && OwnOk(Unmapped(s, j, w))
  {
    hide FrameAt, HasTable, EntrySet, Present, FrameOf;
  }

  lemma UnmappedRest(s: Space, j: int, w: int)
    requires TabsOk(s) && UsedOk(s) && OwnOk(s) && HasTable(s, j) && 0 <= j < |s.live| && InPools(s, FrameAt(s, j))
    requires FrameAt(s, j) in s.own && s.own[FrameAt(s, j)].Data?
    ensures TabsOk(Unmapped(s, j, w)) && UsedOk(Unmapped(s, j, w))
  {
    hide HasTable, EntrySet, FrameAt;
  }

  /** The frame of a page in use goes back to its pool: nothing else changes. */
  lemma UnmappedOk(s: Space, j: int, w: int)
    requires Ok(s) && HasTable(s, j) && 0 <= j < |s.live| && s.live[j] && !Present(w)
    ensures InPools(s, FrameAt(s, j)) && s.lo <= FrameAt(s, j) - s.base < s.hi && Ok(Unmapped(s, j, w))
    ensures forall j' :: 0 <= j' < |s.live| ==>
        FrameAt(Unmapped(s, j, w), j') == if j' == j then NONE else FrameAt(s, j')
  {
    hide Ok, TablesOk, LiveOk, OwnOk, TabsOk, UsedOk, Fits, Present, FrameOf, FrameAt, HasTable;
    Parts(s);
    LiveFrame(s, j);
    SetFrames(s, Unmapped(s, j, w), j, w);
    SetTables(s, Unmapped(s, j, w), j, w);
    UnmappedOwn(s, j, w);
    UnmappedRest(s, j, w);
    OkIs(Unmapped(s, j, w));
  }

  lemma LiveFrame(s: Space, j: int)
    requires LiveOk(s) && OwnOk(s) && 0 <= j < |s.live| && s.live[j]
    ensures var f := FrameAt(s, j);
      f in s.own && s.own[f] == Data(j) && InPools(s, f) && s.lo <= f - s.base < s.hi && f !in s.others
  {
    hide FrameAt;
  }

  /** A page in use has a table. */
  lemma LiveHasTable(s: Space, j: int)
    requires Ok(s) && 0 <= j < |s.live| && s.live[j]
    ensures HasTable(s, j)
  {
    Parts(s);
    PageBounds(s.start, j);
    assert FrameAt(s, j) != NONE;
    hide Ok, TablesOk, LiveOk, OwnOk, TabsOk, UsedOk, Present, FrameOf;
  }

  // ---------- a frame set aside before it is mapped ----------

  ghost function Reserved(s: Space, f: int): (s': Space)
    requires InPools(s, f)
  {
    s.(used := s.used[f - s.base := true], others := s.others + {f})
  }

  ghost function Unreserved(s: Space, f: int): (s': Space)
    requires InPools(s, f)
  {
    s.(used := s.used[f - s.base := false], others := s.others - {f})
  }

  lemma ReservedOk(s: Space, f: int)
    requires Ok(s) && InPools(s, f) && !s.used[f - s.base]
    ensures Ok(Reserved(s, f)) && f !in s.tab && f !in s.own && f != s.dir && f !in s.others
    ensures forall j :: FrameAt(Reserved(s, f), j) == FrameAt(s, j)
  {
    ClearFrame(s, f);
    Parts(s);
    hide Ok, Frame, TablesOk, Present, FrameOf;
    var s' := Reserved(s, f);
    assert Fits(s') && LiveOk(s') && OwnOk(s') && TabsOk(s') && UsedOk(s');
    OkIs(s');
  }

  lemma UnreservedOk(s: Space, f: int)
    requires Ok(s) && InPools(s, f) && f in s.others && f !in s.tab && f != s.dir
    ensures Ok(Unreserved(s, f)) && f !in s.own
    ensures forall j :: FrameAt(Unreserved(s, f), j) == FrameAt(s, j)
  {
    Parts(s);
    hide Ok, Frame, TablesOk, Present, FrameOf;
    var s' := Unreserved(s, f);
    assert f !in s.own;
    assert Fits(s') && LiveOk(s') && OwnOk(s') && TabsOk(s') && UsedOk(s');
    OkIs(s');
  }

  // ---------- what it comes to ----------

  /** Two pages in use never share a frame. */
  lemma FramesDistinct(s: Space, j: int, j': int)
    requires Ok(s) && 0 <= j < |s.live| && 0 <= j' < |s.live| && s.live[j] && s.live[j']
    ensures FrameAt(s, j) != NONE && (FrameAt(s, j) == FrameAt(s, j') ==> j == j')
  {
    Parts(s);
    hide Ok, FrameAt, TablesOk, OwnOk, TabsOk, UsedOk, Fits;
  }

  /** A pool bit that is not somebody else's is set exactly for the frame of a page in use or of a
      page table in place. */
  lemma PoolsExact(s: Space, f: int)
    requires Ok(s) && InPools(s, f) && f !in s.others
    ensures s.used[f - s.base] <==>
            (exists j :: 0 <= j < |s.live| && s.live[j] && FrameAt(s, j) == f) || exists i :: TableIs(s, i, f)
  {
    Parts(s);
    hide Ok, FrameAt, TablesOk, Fits;
    if f in s.own && s.own[f].Table? {
      assert TableIs(s, s.own[f].i, f);
    }
    assert forall i :: TableIs(s, i, f) ==> f in s.own;
  }
}
