/** How many frames the pools still have, and how many a set of pages takes: one for each page and one
    for each page table that is not there yet. */
module Frames {
  import opened PageSpace

  /** The clear bits from a up to b. */
  function ClearIn(used: seq<bool>, a: int, b: int): (n: nat)
    decreases b - a
  {
    if b <= a then 0 else ClearIn(used, a, b - 1) + if 0 <= b - 1 < |used| && !used[b - 1] then 1 else 0
  }

  lemma {:induction false} ClearSet(used: seq<bool>, a: int, b: int, x: int)
    requires 0 <= x < |used| && !used[x]
    ensures ClearIn(used[x := true], a, b) == ClearIn(used, a, b) - if a <= x < b then 1 else 0
    decreases b - a
  {
    if a < b {
      ClearSet(used, a, b - 1, x);
    }
  }

  lemma {:induction false} ClearNone(used: seq<bool>, a: int, b: int)
    requires 0 <= a <= b <= |used|
    ensures ClearIn(used, a, b) == 0 <==> forall k :: a <= k < b ==> used[k]
    decreases b - a
  {
    if a < b {
      ClearNone(used, a, b - 1);
    }
  }

  function DataFree(s: Space): (n: nat) {
    ClearIn(s.used, s.lo, s.hi)
  }

  function KernelFree(s: Space): (n: nat) {
    ClearIn(s.used, 0, s.split)
  }

  /** The region is the kernel's: its pages and its tables come from the same pool. */
  predicate Shared(s: Space) {
    s.lo == 0 && s.hi == s.split
  }

  /** The pools have p frames for pages and t for tables. */
  predicate Room(s: Space, p: nat, t: nat) {
    DataFree(s) >= p + (if Shared(s) then t else 0) && KernelFree(s) >= t + if Shared(s) then p else 0
  }

  /** From s to s' exactly p frames for pages and t for tables were taken. */
  predicate Taken(s: Space, s': Space, p: nat, t: nat) {
    && s'.lo == s.lo && s'.hi == s.hi && s'.split == s.split
    && DataFree(s) == DataFree(s') + p + (if Shared(s) then t else 0)
    && KernelFree(s) == KernelFree(s') + t + if Shared(s) then p else 0
  }

  /** How many tables page j needs. */
  ghost function TablesFor(s: Space, j: int): (t: nat) {
    if HasTable(s, j) then 0 else 1
  }

  predicate SameTable(s: Space, j: int, k: int) {
    PageI(s.start, j) == PageI(s.start, k)
  }

  /** From s to s' page j took its frame, and its table if there was none. */
  ghost predicate TakesFrames(s: Space, s': Space, j: int) {
    && Taken(s, s', 1, TablesFor(s, j)) && s'.start == s.start && |s'.live| == |s.live|
    && forall k :: 0 <= k < |s.live| ==> (HasTable(s', k) <==> HasTable(s, k) || SameTable(s, j, k))
  }

  // ---------- a set of pages ----------

  /** How many of the first n pages are wanted. */
  function PagesOf(want: seq<bool>, n: nat): (p: nat)
    requires n <= |want|
  {
    if n == 0 then 0 else PagesOf(want, n - 1) + if want[n - 1] then 1 else 0
  }

  /** Page j is the first wanted one under a directory entry without a table. */
  ghost predicate OpensTable(s: Space, want: seq<bool>, j: int)
    requires 0 <= j < |want|
  {
    want[j] && !HasTable(s, j) && forall k :: 0 <= k < j && want[k] ==> !SameTable(s, k, j)
  }

  /** How many tables the wanted ones of the first n pages need. */
  ghost function TablesOf(s: Space, want: seq<bool>, n: nat): (t: nat)
    requires n <= |want|
  {
    if n == 0 then 0 else TablesOf(s, want, n - 1) + if OpensTable(s, want, n - 1) then 1 else 0
  }

  /** The pools have the frames for all wanted pages and for the tables these need. */
  ghost predicate Enough(s: Space, want: seq<bool>) {
    Room(s, PagesOf(want, |want|), TablesOf(s, want, |want|))
  }

  /** From s to s' the wanted ones of the first n pages took their frames. */
  ghost predicate Served(s: Space, s': Space, want: seq<bool>, n: nat)
    requires n <= |want|
  {
    && |want| == |s.live| == |s'.live| && s'.start == s.start && Taken(s, s', PagesOf(want, n), TablesOf(s, want, n))
    && forall j :: 0 <= j < |want| ==>
         (HasTable(s', j) <==> HasTable(s, j) || exists k :: 0 <= k < n && want[k] && SameTable(s, k, j))
  }

  lemma ServedNone(s: Space, want: seq<bool>)
    requires |want| == |s.live|
    ensures Served(s, s, want, 0)
  {
    hide HasTable;
  }

  lemma {:induction false} ServedSkip(s: Space, s': Space, want: seq<bool>, n: nat, m: nat)
    requires n <= m <= |want| && Served(s, s', want, n) && forall j :: n <= j < m ==> !want[j]
    ensures Served(s, s', want, m)
    decreases m
  {
    hide HasTable;
    if n < m {
      ServedSkip(s, s', want, n, m - 1);
    }
  }

  lemma TablesNow(s: Space, s1: Space, want: seq<bool>, n: nat)
    requires n < |want| && Served(s, s1, want, n) && want[n]
    ensures TablesFor(s1, n) == if OpensTable(s, want, n) then 1 else 0
  {
    hide HasTable, Taken;
  }

  lemma ServedMore(s: Space, s1: Space, s2: Space, want: seq<bool>, n: nat)
    requires n < |want| && Served(s, s1, want, n) && want[n] && TakesFrames(s1, s2, n)
    ensures Served(s, s2, want, n + 1)
  {
    hide HasTable, DataFree, KernelFree;
    TablesNow(s, s1, want, n);
    forall j | 0 <= j < |want|
      ensures HasTable(s2, j) <==> HasTable(s, j) || exists k :: 0 <= k < n + 1 && want[k] && SameTable(s, k, j)
    {
      assert HasTable(s2, j) <==> HasTable(s1, j) || SameTable(s1, n, j);
    }
  }

  lemma {:induction false} Monotone(s: Space, want: seq<bool>, n: nat, m: nat)
    requires n <= m <= |want|
    ensures PagesOf(want, n) <= PagesOf(want, m) && TablesOf(s, want, n) <= TablesOf(s, want, m)
    decreases m
  {
    if n < m {
      Monotone(s, want, n, m - 1);
    }
    hide OpensTable;
  }

  /** When the next page cannot be served, the pools did not have the frames to begin with. */
  lemma NotEnough(s: Space, s1: Space, want: seq<bool>, n: nat)
    requires n < |want| && Served(s, s1, want, n) && want[n] && !Room(s1, 1, TablesFor(s1, n))
    ensures !Enough(s, want)
  {
    hide HasTable, DataFree, KernelFree, OpensTable;
    TablesNow(s, s1, want, n);
    Monotone(s, want, n + 1, |want|);
  }

  lemma ServedAll(s: Space, s': Space, want: seq<bool>)
    requires Served(s, s', want, |want|)
    ensures Enough(s, want)
  {
    hide HasTable, OpensTable;
  }

  // ---------- one frame ----------

  /** The data pool is the kernel pool or lies behind it. */
  predicate PoolsApart(s: Space) {
    0 <= s.split && (Shared(s) || s.lo == s.split)
  }

  /** Setting the bit of a frame of the data pool. */
  lemma DataTaken(s: Space, s': Space, x: int)
    requires PoolsApart(s) && s.lo <= x < s.hi && 0 <= x < |s.used| && !s.used[x] && s'.used == s.used[x := true]
    requires s'.lo == s.lo && s'.hi == s.hi && s'.split == s.split
    ensures Taken(s, s', 1, 0)
  {
    ClearSet(s.used, s.lo, s.hi, x);
    ClearSet(s.used, 0, s.split, x);
  }

  /** Setting the bit of a frame of the kernel pool for a table. */
  lemma TableTaken(s: Space, s': Space, x: int)
    requires PoolsApart(s) && 0 <= x < s.split && x < |s.used| && !s.used[x] && s'.used == s.used[x := true]
    requires s'.lo == s.lo && s'.hi == s.hi && s'.split == s.split
    ensures Taken(s, s', 0, 1)
  {
    ClearSet(s.used, s.lo, s.hi, x);
    ClearSet(s.used, 0, s.split, x);
  }

  lemma TakenTwice(s: Space, s1: Space, s2: Space, p: nat, t: nat, p': nat, t': nat)
    requires Taken(s, s1, p, t) && Taken(s1, s2, p', t')
    ensures Taken(s, s2, p + p', t + t')
  {
    hide DataFree, KernelFree;
  }
}
