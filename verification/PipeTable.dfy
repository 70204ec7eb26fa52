/** The system-wide file table and the processes' descriptors that refer to it: how pipes are counted
    over pipe, fork, close, exit and redirection. */
module PipeTable {

  const MAX_FILE_OPEN := 32
  const MAX_FDS := 8
  const NO_FD := -1

  /** An entry of file_table: empty, a regular file, or a pipe with its buffer page and the count of
      descriptors kept in fd_pos. */
  datatype Slot = Empty | File | Pipe(page: nat, pos: int)

  /** Local descriptor k of process p. */
  datatype Ref = Ref(p: nat, k: int)

  type Fds = map<nat, seq<int>>

  /** file_table and the fd_table of every process that has not exited; then the history: the pipe
      pages given back, the slot every pipe page was given to, and the next page to be handed out. */
  datatype Tab = Tab(slots: seq<Slot>, fds: Fds, freed: set<nat>, at: map<nat, int>, next: nat)

  /** The descriptors from 3 up that refer to slot g. */
  ghost function Refs(fds: Fds, g: int): (r: set<Ref>) {
    set p, k | p in fds && 3 <= k < MAX_FDS && k < |fds[p]| && fds[p][k] == g :: Ref(p, k)
  }

  /** An empty slot has no descriptor, and a pipe exactly as many as its fd_pos says, at least one. */
  ghost predicate CountOk(s: Slot, refs: set<Ref>) {
    match s
    case Empty => refs == {}
    case File => true
    case Pipe(_, pos) => refs != {} && pos == |refs|
  }

  /** A descriptor from 3 up is free or refers to a slot from 3 up. */
  ghost predicate Shaped(fds: Fds) {
    forall p :: p in fds ==>
      |fds[p]| == MAX_FDS && forall k :: 3 <= k < MAX_FDS ==> fds[p][k] == NO_FD || 3 <= fds[p][k] < MAX_FILE_OPEN
  }

  ghost predicate Counts(slots: seq<Slot>, fds: Fds) {
    && |slots| == MAX_FILE_OPEN && Shaped(fds)
    && forall g :: 3 <= g < MAX_FILE_OPEN ==> CountOk(slots[g], Refs(fds, g))
  }

  /** Every page ever given to a pipe is that pipe's own while the pipe lives, and freed after. */
  ghost predicate PagesOk(slots: seq<Slot>, freed: set<nat>, at: map<nat, int>, next: nat) {
    && (forall g :: 0 <= g < |slots| && slots[g].Pipe? ==>
          slots[g].page in at && at[slots[g].page] == g && slots[g].page !in freed)
    && (forall q :: q in at ==>
          && q < next && 0 <= at[q] < |slots|
          && (q in freed || (slots[at[q]].Pipe? && slots[at[q]].page == q)))
    && (forall q :: q in freed ==> q in at)
  }

  /** The counts of the pipes are right, and so are their pages. */
  ghost predicate Sound(s: Tab) {
    Counts(s.slots, s.fds) && PagesOk(s.slots, s.freed, s.at, s.next)
  }

  /** No two descriptors share a slot of a regular file, which has no count. */
  ghost predicate Unshared(slots: seq<Slot>, fds: Fds) {
    forall g :: 3 <= g < |slots| && slots[g] == File ==> |Refs(fds, g)| <= 1
  }

  // ---------- one descriptor changes ----------

  function Set(fds: Fds, p: nat, k: int, h: int): (fds': Fds)
    requires p in fds && 0 <= k < |fds[p]|
  {
    fds[p := fds[p][k := h]]
  }

  /** Descriptor k of p is now h, and every other descriptor of every process is what it was. */
  ghost predicate OnlyFd(fds: Fds, fds': Fds, p: nat, k: int, h: int) {
    && fds'.Keys == fds.Keys && p in fds && |fds'[p]| == |fds[p]| && 0 <= k < |fds[p]| && fds'[p][k] == h
    && (forall j :: 0 <= j < |fds[p]| && j != k ==> fds'[p][j] == fds[p][j])
    && (forall q :: q in fds && q != p ==> fds'[q] == fds[q])
  }

  lemma SetIs(fds: Fds, p: nat, k: int, h: int)
    requires p in fds && 0 <= k < |fds[p]|
    ensures OnlyFd(fds, Set(fds, p, k, h), p, k, h)
  {
  }

  lemma SetRefs(fds: Fds, p: nat, k: int, h: int, g: int)
    requires p in fds && 3 <= k < MAX_FDS && |fds[p]| == MAX_FDS
    ensures Refs(Set(fds, p, k, h), g) == if h == g then Refs(fds, g) + {Ref(p, k)} else Refs(fds, g) - {Ref(p, k)}
    ensures Ref(p, k) in Refs(fds, g) <==> fds[p][k] == g
  {
    var a, b := Refs(Set(fds, p, k, h), g), if h == g then Refs(fds, g) + {Ref(p, k)} else Refs(fds, g) - {Ref(p, k)};
    forall r: Ref ensures r in a <==> r in b {
    }
  }

  lemma OthersKeep(fds: Fds, p: nat, k: int, h: int, g: int)
    requires p in fds && 3 <= k < MAX_FDS && |fds[p]| == MAX_FDS && fds[p][k] != g && h != g
    ensures Refs(Set(fds, p, k, h), g) == Refs(fds, g)
  {
    SetRefs(fds, p, k, h, g);
    hide Refs;
  }

  lemma SetShaped(fds: Fds, p: nat, k: int, h: int)
    requires Shaped(fds) && p in fds && 0 <= k < MAX_FDS && |fds[p]| == MAX_FDS
    ensures Shaped(Set(fds, p, k, h)) <==> k < 3 || h == NO_FD || 3 <= h < MAX_FILE_OPEN
  {
    var fds' := Set(fds, p, k, h);
    assert p in fds' && fds'[p][k] == h;
  }

  lemma InUse(slots: seq<Slot>, fds: Fds, p: nat, k: int)
    requires Counts(slots, fds) && p in fds && 3 <= k < MAX_FDS
    ensures |fds[p]| == MAX_FDS && (fds[p][k] != NO_FD ==> 3 <= fds[p][k] < MAX_FILE_OPEN && slots[fds[p][k]] != Empty)
    ensures fds[p][k] != NO_FD ==> Ref(p, k) in Refs(fds, fds[p][k]) && CountOk(slots[fds[p][k]], Refs(fds, fds[p][k]))
  {
    if fds[p][k] != NO_FD {
      assert Ref(p, k) in Refs(fds, fds[p][k]);
    }
  }

  /** Descriptor k goes, and its slot becomes s1: exactly when s1 counts the others is the table right. */
  lemma DropCounts(slots: seq<Slot>, fds: Fds, p: nat, k: int, s1: Slot)
    requires Counts(slots, fds) && p in fds && 3 <= k < MAX_FDS && |fds[p]| == MAX_FDS && 3 <= fds[p][k] < MAX_FILE_OPEN
    ensures Counts(slots[fds[p][k] := s1], Set(fds, p, k, NO_FD)) <==> CountOk(s1, Refs(fds, fds[p][k]) - {Ref(p, k)})
  {
    hide Refs, CountOk;
    var g, fds' := fds[p][k], Set(fds, p, k, NO_FD);
    SetRefs(fds, p, k, NO_FD, g);
    SetShaped(fds, p, k, NO_FD);
    hide Shaped;
    forall h | 3 <= h < MAX_FILE_OPEN && h != g ensures CountOk(slots[h], Refs(fds', h)) {
      OthersKeep(fds, p, k, NO_FD, h);
    }
  }

  /** A free descriptor is set to slot g, which becomes s1. */
  lemma AddCounts(slots: seq<Slot>, fds: Fds, p: nat, k: int, g: int, s1: Slot)
    requires Counts(slots, fds) && p in fds && 3 <= k < MAX_FDS && |fds[p]| == MAX_FDS && fds[p][k] == NO_FD
    requires 3 <= g < MAX_FILE_OPEN
    ensures Counts(slots[g := s1], Set(fds, p, k, g)) <==> CountOk(s1, Refs(fds, g) + {Ref(p, k)})
  {
    hide Refs, CountOk;
    var fds' := Set(fds, p, k, g);
    SetRefs(fds, p, k, g, g);
    SetShaped(fds, p, k, g);
    hide Shaped;
    forall h | 3 <= h < MAX_FILE_OPEN && h != g ensures CountOk(slots[h], Refs(fds', h)) {
      OthersKeep(fds, p, k, g, h);
    }
  }

  // ---------- close ----------

  /** sys_close on a slot: the count of a pipe goes down, and with the last descriptor the slot is free. */
  function Closed(s: Slot): (s': Slot) {
    if s.Pipe? && s.pos - 1 != 0 then s.(pos := s.pos - 1) else Empty
  }

  /** The page freed by closing slot s, if any. */
  function FreedBy(s: Slot): (q: set<nat>) {
    if s.Pipe? && s.pos - 1 == 0 then {s.page} else {}
  }

  /** sys_close of descriptor k. */
  function CloseFd(s: Tab, p: nat, k: int): (s': Tab)
    requires p in s.fds && 0 <= k < |s.fds[p]| && 0 <= s.fds[p][k] < |s.slots|
  {
    var g := s.fds[p][k];
    s.(slots := s.slots[g := Closed(s.slots[g])], fds := Set(s.fds, p, k, NO_FD),
      freed := s.freed + FreedBy(s.slots[g]))
  }

  /** Slot g has a descriptor less: a pipe counts one less, and with the last one its page is freed and the
      slot empty; a regular file's slot is empty.  Nothing else has changed. */
  ghost predicate SlotLess(s: Tab, s': Tab, g: int) {
    && |s'.slots| == |s.slots| && 0 <= g < |s.slots| && s'.at == s.at && s'.next == s.next
    && (forall h :: 0 <= h < |s.slots| && h != g ==> s'.slots[h] == s.slots[h])
    && match s.slots[g]
       case Pipe(page, pos) =>
         if pos == 1 then s'.slots[g] == Empty && s'.freed == s.freed + {page}
         else s'.slots[g] == Pipe(page, pos - 1) && s'.freed == s.freed
       case _ => s'.slots[g] == Empty && s'.freed == s.freed
  }

  lemma SlotLessIs(s: Tab, s': Tab, g: int)
    requires 0 <= g < |s.slots| && s'.slots == s.slots[g := Closed(s.slots[g])] && s'.at == s.at && s'.next == s.next
    requires s'.freed == s.freed + FreedBy(s.slots[g])
    ensures SlotLess(s, s', g)
  {
  }

  /** The descriptor is that of a pipe, or the only one of its regular file. */
  ghost predicate MayClose(s: Tab, p: nat, k: int) {
    && p in s.fds && 3 <= k < |s.fds[p]| && 3 <= s.fds[p][k] < |s.slots|
    && (s.slots[s.fds[p][k]].Pipe? || |Refs(s.fds, s.fds[p][k])| == 1)
  }

  lemma CloseOne(s: Slot, refs: set<Ref>, r: Ref)
    requires CountOk(s, refs) && r in refs
    ensures CountOk(Closed(s), refs - {r}) <==> s.Pipe? || |refs| == 1
  {
    assert |refs - {r}| == |refs| - 1;
    assert refs - {r} == {} <==> |refs - {r}| == 0;
  }

  lemma ClosePages(slots: seq<Slot>, freed: set<nat>, at: map<nat, int>, next: nat, g: int)
    requires PagesOk(slots, freed, at, next) && 0 <= g < |slots| && slots[g] != Empty
    ensures PagesOk(slots[g := Closed(slots[g])], freed + FreedBy(slots[g]), at, next) && FreedBy(slots[g]) !! freed
  {
  }

  /** Closing a descriptor keeps fd_pos equal to the number of descriptors from 3 up if and only if it
      is a pipe's, or the only one of a regular file.  No page is freed twice. */
  lemma DropRef(s: Tab, p: nat, k: int)
    requires Sound(s) && p in s.fds && 3 <= k < MAX_FDS && |s.fds[p]| == MAX_FDS && s.fds[p][k] != NO_FD
    ensures 3 <= s.fds[p][k] < MAX_FILE_OPEN == |s.slots| && s.slots[s.fds[p][k]] != Empty
    ensures Sound(CloseFd(s, p, k)) <==> MayClose(s, p, k)
    ensures FreedBy(s.slots[s.fds[p][k]]) !! s.freed
  {
    hide Refs, CountOk, PagesOk, Shaped;
    InUse(s.slots, s.fds, p, k);
    var g := s.fds[p][k];
    CloseOne(s.slots[g], Refs(s.fds, g), Ref(p, k));
    DropCounts(s.slots, s.fds, p, k, Closed(s.slots[g]));
    ClosePages(s.slots, s.freed, s.at, s.next, g);
  }

  lemma Fewer(a: set<Ref>, b: set<Ref>)
    requires a <= b
    ensures |a| <= |b|
  {
    assert b == a + (b - a);
  }

  lemma CloseUnshared(s: Tab, p: nat, k: int)
    requires Sound(s) && Unshared(s.slots, s.fds) && p in s.fds && 3 <= k < MAX_FDS && s.fds[p][k] != NO_FD
    ensures MayClose(s, p, k) && Unshared(CloseFd(s, p, k).slots, CloseFd(s, p, k).fds)
  {
    hide Refs, CountOk, PagesOk, Shaped;
    InUse(s.slots, s.fds, p, k);
    var g, s' := s.fds[p][k], CloseFd(s, p, k);
    Fewer({Ref(p, k)}, Refs(s.fds, g));
    assert |{Ref(p, k)}| == 1;
    forall h | 3 <= h < |s'.slots| && s'.slots[h] == File ensures |Refs(s'.fds, h)| <= 1 {
      assert s.slots[h] == File;
      SetRefs(s.fds, p, k, NO_FD, h);
      Fewer(Refs(s'.fds, h), Refs(s.fds, h));
    }
  }

  /** Closing one descriptor of a regular file empties the slot: the slot is then really unused exactly
      when no other descriptor shared it. */
  lemma SharedFile(fds: Fds, p: nat, k: int, g: int)
    requires p in fds && |fds[p]| == MAX_FDS && 3 <= k < MAX_FDS && fds[p][k] == g && g != NO_FD
    ensures CountOk(Closed(File), Refs(Set(fds, p, k, NO_FD), g)) <==> |Refs(fds, g)| == 1
  {
    SetRefs(fds, p, k, NO_FD, g);
    var r := Refs(fds, g);
    hide Refs;
    CloseOne(File, r, Ref(p, k));
  }

  // ---------- a descriptor more ----------

  /** A slot with one more descriptor: an empty slot becomes `first`, a pipe is counted up. */
  function Joined(s: Slot, first: Slot): (s': Slot) {
    match s
    case Empty => first
    case File => File
    case Pipe(page, pos) => Pipe(page, pos + 1)
  }

  lemma JoinOne(s: Slot, refs: set<Ref>, r: Ref, first: Slot)
    requires CountOk(s, refs) && r !in refs && (s == Empty ==> first == File || (first.Pipe? && first.pos == 1))
    ensures CountOk(Joined(s, first), refs + {r})
  {
    assert |refs + {r}| == |refs| + 1;
  }

  /** One more descriptor of a slot keeps the counts right. */
  lemma AddRef(slots: seq<Slot>, fds: Fds, p: nat, k: int, g: int, first: Slot)
    requires Counts(slots, fds) && p in fds && 3 <= k < MAX_FDS && |fds[p]| == MAX_FDS && fds[p][k] == NO_FD
    requires 3 <= g < MAX_FILE_OPEN && (slots[g] == Empty ==> first == File || (first.Pipe? && first.pos == 1))
    ensures Counts(slots[g := Joined(slots[g], first)], Set(fds, p, k, g))
  {
    hide Refs, CountOk, Joined;
    SetRefs(fds, p, k, g, g);
    assert CountOk(slots[g], Refs(fds, g));
    JoinOne(slots[g], Refs(fds, g), Ref(p, k), first);
    AddCounts(slots, fds, p, k, g, Joined(slots[g], first));
  }

  lemma JoinPages(slots: seq<Slot>, freed: set<nat>, at: map<nat, int>, next: nat, g: int)
    requires PagesOk(slots, freed, at, next) && 0 <= g < |slots|
    ensures PagesOk(slots[g := Joined(slots[g], Empty)], freed, at, next)
    ensures slots[g] == Empty ==> PagesOk(slots[g := File], freed, at, next)
  {
  }

  /** A process without descriptors comes or goes. */
  lemma NoFds(slots: seq<Slot>, fds: Fds, p: nat, table: seq<int>)
    requires |table| == MAX_FDS && forall k :: 3 <= k < MAX_FDS ==> table[k] == NO_FD
    ensures p !in fds ==> forall g :: 3 <= g ==> Refs(fds[p := table], g) == Refs(fds, g)
    ensures p in fds && fds[p] == table ==> forall g :: 3 <= g ==> Refs(fds - {p}, g) == Refs(fds, g)
    ensures Counts(slots, fds) && p !in fds ==> Counts(slots, fds[p := table])
    ensures p in fds && fds[p] == table && Counts(slots, fds) ==> Counts(slots, fds - {p})
  {
    forall g | 3 <= g
      ensures p !in fds ==> Refs(fds[p := table], g) == Refs(fds, g)
      ensures p in fds && fds[p] == table ==> Refs(fds - {p}, g) == Refs(fds, g)
    {
      forall r: Ref
        ensures p !in fds ==> (r in Refs(fds[p := table], g) <==> r in Refs(fds, g))
        ensures p in fds && fds[p] == table ==> (r in Refs(fds - {p}, g) <==> r in Refs(fds, g))
      {
      }
    }
    hide Refs;
  }

  /** The references to a slot with a known count. */
  lemma CountIs(slots: seq<Slot>, fds: Fds, g: int)
    requires Counts(slots, fds) && 3 <= g < MAX_FILE_OPEN
    ensures slots[g] == Empty ==> Refs(fds, g) == {} && |Refs(fds, g)| == 0
    ensures slots[g].Pipe? ==> |Refs(fds, g)| == slots[g].pos
  {
    hide Refs, Shaped;
    assert CountOk(slots[g], Refs(fds, g));
  }

  // ---------- pipe and open ----------

  /** The first free descriptor from 3 up, k, refers to slot g now; k is -1 if there was none. */
  ghost predicate Installed(fds: Fds, fds': Fds, p: nat, g: int, k: int) {
    && p in fds && |fds[p]| == MAX_FDS
    && (k == -1 <==> forall j :: 3 <= j < MAX_FDS ==> fds[p][j] != NO_FD) && (k == -1 ==> fds' == fds)
    && (k != -1 ==>
          && 3 <= k < MAX_FDS && fds[p][k] == NO_FD && (forall j :: 3 <= j < k ==> fds[p][j] != NO_FD)
          && OnlyFd(fds, fds', p, k, g) && fds' == Set(fds, p, k, g))
  }

  /** sys_pipe in slot g, as far as there are descriptors. */
  function NewPipe(s: Tab, p: nat, g: int, k: int, l: int): (s': Tab)
    requires p in s.fds && |s.fds[p]| == MAX_FDS && 0 <= g < |s.slots| && -1 <= k < MAX_FDS && -1 <= l < MAX_FDS
  {
    var one := if k == -1 then s.fds else Set(s.fds, p, k, g);
    s.(slots := s.slots[g := Pipe(s.next, 2)], fds := if l == -1 then one else Set(one, p, l, g),
       at := s.at[s.next := g], next := s.next + 1)
  }

  /** Descriptors k and l of p are the first free ones, -1 where there is none. */
  ghost predicate FirstTwo(fds: Fds, p: nat, k: int, l: int) {
    && p in fds && |fds[p]| == MAX_FDS
    && (k == -1 <==> forall j :: 3 <= j < MAX_FDS ==> fds[p][j] != NO_FD)
    && (l == -1 <==> forall i, j :: 3 <= i < j < MAX_FDS ==> fds[p][i] != NO_FD || fds[p][j] != NO_FD)
    && (l != -1 ==> k != -1)
    && (k != -1 ==> 3 <= k < MAX_FDS && fds[p][k] == NO_FD) && (l != -1 ==> k < l < MAX_FDS && fds[p][l] == NO_FD)
    && (forall j :: 3 <= j < (if l == -1 then MAX_FDS else l) && j != k ==> fds[p][j] != NO_FD)
  }

  /** Slot g is a new pipe on a page of its own that counts two; both descriptors, where there are any, are
      its own, and nothing else has changed. */
  ghost predicate PipeAdded(s: Tab, s': Tab, p: nat, g: int, k: int, l: int) {
    && s'.fds.Keys == s.fds.Keys && p in s.fds && |s'.fds[p]| == |s.fds[p]| == MAX_FDS
    && (forall j :: 0 <= j < MAX_FDS ==> s'.fds[p][j] == if j == k || j == l then g else s.fds[p][j])
    && (forall q :: q in s.fds && q != p ==> s'.fds[q] == s.fds[q])
    && |s'.slots| == |s.slots| && s'.freed == s.freed
    && forall h :: 0 <= h < |s.slots| ==> s'.slots[h] == if h == g then Pipe(s.next, 2) else s.slots[h]
  }

  lemma NewPipeAdds(s: Tab, p: nat, g: int, k: int, l: int)
    requires FirstTwo(s.fds, p, k, l) && 0 <= g < |s.slots| && -1 <= k < MAX_FDS && -1 <= l < MAX_FDS
    ensures p in s.fds && |s.fds[p]| == MAX_FDS && PipeAdded(s, NewPipe(s, p, g, k, l), p, g, k, l)
  {
  }

  /** A new pipe counts right exactly when it found two descriptors. */
  lemma PipeSound(s: Tab, p: nat, g: int, k: int, l: int)
    requires Sound(s) && FirstTwo(s.fds, p, k, l) && 3 <= g < MAX_FILE_OPEN && s.slots[g] == Empty
    ensures Sound(NewPipe(s, p, g, k, l)) <==> l != -1
    ensures Unshared(s.slots, s.fds) ==> Unshared(NewPipe(s, p, g, k, l).slots, NewPipe(s, p, g, k, l).fds)
  {
    var s' := NewPipe(s, p, g, k, l);
    NewPipePages(s.slots, s.freed, s.at, s.next, g);
    hide PagesOk, FirstTwo;
    FirstTwoIs(s.fds, p, k, l);
    PipeCounts(s.slots, s.fds, p, g, k, l, s.next);
    hide *;
    NewPipeIs(s, p, g, k, l);
    SoundIs(s');
    if Unshared(s.slots, s.fds) {
      PipeUnshared(s.slots, s.fds, p, g, k, l, s.next);
    }
  }

  lemma FirstTwoIs(fds: Fds, p: nat, k: int, l: int)
    requires FirstTwo(fds, p, k, l)
    ensures p in fds && |fds[p]| == MAX_FDS && (l != -1 ==> k != -1 && k != l)
    ensures (k != -1 ==> 3 <= k < MAX_FDS && fds[p][k] == NO_FD) && (l != -1 ==> 3 <= l < MAX_FDS && fds[p][l] == NO_FD)
  {
  }

  lemma SoundIs(s: Tab)
    ensures Sound(s) <==> Counts(s.slots, s.fds) && PagesOk(s.slots, s.freed, s.at, s.next)
  {
  }

  ghost function PipeFds(fds: Fds, p: nat, g: int, k: int, l: int): (fds': Fds)
    requires p in fds && |fds[p]| == MAX_FDS && -1 <= k < MAX_FDS && -1 <= l < MAX_FDS
    ensures p in fds' && |fds'[p]| == MAX_FDS
  {
    var one := if k == -1 then fds else Set(fds, p, k, g);
    if l == -1 then one else Set(one, p, l, g)
  }

  lemma NewPipeIs(s: Tab, p: nat, g: int, k: int, l: int)
    requires p in s.fds && |s.fds[p]| == MAX_FDS && 0 <= g < |s.slots| && -1 <= k < MAX_FDS && -1 <= l < MAX_FDS
    ensures NewPipe(s, p, g, k, l) ==
            Tab(s.slots[g := Pipe(s.next, 2)], PipeFds(s.fds, p, g, k, l), s.freed, s.at[s.next := g], s.next + 1)
  {
  }

  lemma PipeCounts(slots: seq<Slot>, fds: Fds, p: nat, g: int, k: int, l: int, page: nat)
    requires Counts(slots, fds) && 3 <= g < MAX_FILE_OPEN && slots[g] == Empty && p in fds && |fds[p]| == MAX_FDS
    requires l != -1 ==> k != -1 && k != l
    requires (k != -1 ==> 3 <= k < MAX_FDS && fds[p][k] == NO_FD)
      && (l != -1 ==> 3 <= l < MAX_FDS && fds[p][l] == NO_FD)
    ensures Counts(slots[g := Pipe(page, 2)], PipeFds(fds, p, g, k, l)) <==> l != -1
  {
    hide Refs, Shaped, CountOk;
    CountIs(slots, fds, g);
    if k == -1 {
      WrongCount(slots, fds, g, page, 0);
    } else {
      AddRef(slots, fds, p, k, g, Pipe(page, 1));
      var slots1, one := slots[g := Pipe(page, 1)], Set(fds, p, k, g);
      CountIs(slots1, one, g);
      if l == -1 {
        WrongCount(slots, one, g, page, 1);
      } else {
        AddRef(slots1, one, p, l, g, Empty);
        assert slots1[g := Pipe(page, 2)] == slots[g := Pipe(page, 2)];
      }
    }
  }

  /** A pipe that was given a count of two has two descriptors or the count is wrong. */
  lemma WrongCount(slots: seq<Slot>, fds: Fds, g: int, page: nat, n: nat)
    requires 3 <= g < MAX_FILE_OPEN && |slots| == MAX_FILE_OPEN && |Refs(fds, g)| == n != 2
    ensures !Counts(slots[g := Pipe(page, 2)], fds)
  {
    hide Refs, Shaped;
    assert !CountOk(slots[g := Pipe(page, 2)][g], Refs(fds, g));
  }

  lemma PipeUnshared(slots: seq<Slot>, fds: Fds, p: nat, g: int, k: int, l: int, page: nat)
    requires Unshared(slots, fds) && 3 <= g < |slots| && slots[g] == Empty && p in fds && |fds[p]| == MAX_FDS
    requires l != -1 ==> k != -1 && k != l
    requires (k != -1 ==> 3 <= k < MAX_FDS && fds[p][k] == NO_FD)
      && (l != -1 ==> 3 <= l < MAX_FDS && fds[p][l] == NO_FD)
    ensures Unshared(slots[g := Pipe(page, 2)], PipeFds(fds, p, g, k, l))
  {
    hide Refs;
    var fds' := PipeFds(fds, p, g, k, l);
    forall h | 3 <= h < |slots| && h != g ensures Refs(fds', h) == Refs(fds, h) {
      if k != -1 {
        OthersKeep(fds, p, k, g, h);
        if l != -1 {
          OthersKeep(Set(fds, p, k, g), p, l, g, h);
        }
      }
    }
  }

  lemma NewPipePages(slots: seq<Slot>, freed: set<nat>, at: map<nat, int>, next: nat, g: int)
    requires PagesOk(slots, freed, at, next) && 0 <= g < |slots| && slots[g] == Empty
    ensures PagesOk(slots[g := Pipe(next, 2)], freed, at[next := g], next + 1)
  {
  }

  /** A slot and, where there is one, a descriptor for a regular file. */
  function Opened(s: Tab, p: nat, g: int, k: int): (s': Tab)
    requires p in s.fds && |s.fds[p]| == MAX_FDS && 0 <= g < |s.slots| && -1 <= k < MAX_FDS
  {
    s.(slots := s.slots[g := File], fds := if k == -1 then s.fds else Set(s.fds, p, k, g))
  }

  lemma OpenSound(s: Tab, p: nat, g: int, k: int)
    requires Sound(s) && 3 <= g < MAX_FILE_OPEN && s.slots[g] == Empty && p in s.fds && |s.fds[p]| == MAX_FDS
    requires k != -1 ==> 3 <= k < MAX_FDS && s.fds[p][k] == NO_FD
    ensures Sound(Opened(s, p, g, k))
    ensures Unshared(s.slots, s.fds) ==> Unshared(Opened(s, p, g, k).slots, Opened(s, p, g, k).fds)
  {
    hide Refs, Shaped, CountOk;
    JoinPages(s.slots, s.freed, s.at, s.next, g);
    hide PagesOk;
    CountIs(s.slots, s.fds, g);
    if k == -1 {
      OneSlot(s.slots, s.fds, g);
    } else {
      AddRef(s.slots, s.fds, p, k, g, File);
      SetRefs(s.fds, p, k, g, g);
      forall h | 3 <= h < |s.slots| && h != g ensures Refs(Set(s.fds, p, k, g), h) == Refs(s.fds, h) {
        OthersKeep(s.fds, p, k, g, h);
      }
    }
  }

  /** A slot taken for a regular file that no descriptor was found for. */
  lemma OneSlot(slots: seq<Slot>, fds: Fds, g: int)
    requires Counts(slots, fds) && 3 <= g < MAX_FILE_OPEN && slots[g] == Empty
    ensures Counts(slots[g := File], fds)
  {
    hide Refs, Shaped;
  }

  // ---------- fork ----------

  /** update_inode_open_cnts over the descriptors 3 to k - 1 of a table. */
  function Bumps(slots: seq<Slot>, table: seq<int>, k: int): (r: seq<Slot>)
    requires 3 <= k <= |table|
    ensures |r| == |slots| && forall g :: 0 <= g < |slots| ==>
      && (!slots[g].Pipe? ==> r[g] == slots[g])
      && (slots[g].Pipe? ==> r[g].Pipe? && r[g].page == slots[g].page)
  {
    if k == 3 then slots
    else
      var t, g := Bumps(slots, table, k - 1), table[k - 1];
      if 0 <= g < |t| then t[g := Joined(t[g], Empty)] else t
  }

  function Forked(s: Tab, p: nat, c: nat): (s': Tab)
    requires p in s.fds && |s.fds[p]| == MAX_FDS
  {
    s.(slots := Bumps(s.slots, s.fds[p], MAX_FDS), fds := s.fds[c := s.fds[p]])
  }

  /** The table as far as it has been counted. */
  function Part(table: seq<int>, k: int): (t: seq<int>)
    requires |table| == MAX_FDS && 3 <= k <= MAX_FDS
    ensures |t| == MAX_FDS && forall j :: 0 <= j < MAX_FDS ==> t[j] == if j < k then table[j] else NO_FD
  {
    table[..k] + seq(MAX_FDS - k, _ => NO_FD)
  }

  lemma PartMore(fds: Fds, c: nat, table: seq<int>, k: int)
    requires |table| == MAX_FDS && 3 <= k < MAX_FDS
    ensures fds[c := Part(table, k + 1)] == Set(fds[c := Part(table, k)], c, k, table[k])
    ensures table[k] == NO_FD ==> fds[c := Part(table, k + 1)] == fds[c := Part(table, k)]
  {
    assert Part(table, k + 1) == Part(table, k)[k := table[k]];
    assert table[k] == NO_FD ==> Part(table, k + 1) == Part(table, k);
  }

  lemma {:induction false} ForkUpTo(s: Tab, p: nat, c: nat, k: int)
    requires Sound(s) && p in s.fds && c !in s.fds && |s.fds[p]| == MAX_FDS && 3 <= k <= MAX_FDS
    ensures var slots := Bumps(s.slots, s.fds[p], k);
      Counts(slots, s.fds[c := Part(s.fds[p], k)]) && PagesOk(slots, s.freed, s.at, s.next)
    decreases k
  {
    hide Refs, Shaped, CountOk, Counts, PagesOk, Joined, Part;
    var table := s.fds[p];
    if k == 3 {
      PartIs(table, 3);
      NoFds(s.slots, s.fds, c, Part(table, 3));
    } else {
      ForkUpTo(s, p, c, k - 1);
      var slots, fds, g := Bumps(s.slots, table, k - 1), s.fds[c := Part(table, k - 1)], table[k - 1];
      PartMore(s.fds, c, table, k - 1);
      PartIs(table, k - 1);
      InUse(s.slots, s.fds, p, k - 1);
      Lengths(s.slots, s.fds);
      if g != NO_FD {
        AddRef(slots, fds, c, k - 1, g, File);
        JoinKnown(slots[g]);
        JoinPages(slots, s.freed, s.at, s.next, g);
      }
    }
  }

  lemma PartIs(table: seq<int>, k: int)
    requires |table| == MAX_FDS && 3 <= k <= MAX_FDS
    ensures |Part(table, k)| == MAX_FDS && forall j :: k <= j < MAX_FDS ==> Part(table, k)[j] == NO_FD
  {
  }

  lemma Lengths(slots: seq<Slot>, fds: Fds)
    requires Counts(slots, fds)
    ensures |slots| == MAX_FILE_OPEN
  {
  }

  lemma JoinKnown(s: Slot)
    ensures s != Empty ==> forall first :: Joined(s, first) == Joined(s, Empty)
  {
  }

  /** After fork every pipe counts the child's descriptors as well. */
  lemma ForkSound(s: Tab, p: nat, c: nat)
    requires Sound(s) && p in s.fds && c !in s.fds && |s.fds[p]| == MAX_FDS
    ensures Sound(Forked(s, p, c))
  {
    hide Refs, Shaped, CountOk, Counts, PagesOk, Joined, Bumps;
    ForkUpTo(s, p, c, MAX_FDS);
    assert Part(s.fds[p], MAX_FDS) == s.fds[p];
  }

  /** A descriptor of the table refers to a regular file. */
  ghost predicate HoldsFile(slots: seq<Slot>, table: seq<int>) {
    exists k :: 3 <= k < MAX_FDS && k < |table| && 3 <= table[k] < |slots| && slots[table[k]] == File
  }

  /** No regular file is shared after fork exactly when the parent holds none. */
  lemma ForkShares(s: Tab, p: nat, c: nat)
    requires Sound(s) && Unshared(s.slots, s.fds) && p in s.fds && c !in s.fds && |s.fds[p]| == MAX_FDS
    ensures Unshared(Forked(s, p, c).slots, Forked(s, p, c).fds) <==> !HoldsFile(s.slots, s.fds[p])
  {
    hide CountOk, PagesOk, Bumps, Refs, Shaped;
    var s' := Forked(s, p, c);
    if HoldsFile(s.slots, s.fds[p]) {
      var k :| 3 <= k < MAX_FDS && 3 <= s.fds[p][k] < |s.slots| && s.slots[s.fds[p][k]] == File;
      var g := s.fds[p][k];
      TwoRefs(s.fds, p, c, k);
      assert s'.slots[g] == File && |Refs(s'.fds, g)| > 1;
    } else {
      forall g | 3 <= g < |s'.slots| && s'.slots[g] == File ensures |Refs(s'.fds, g)| <= 1 {
        assert s.slots[g] == File;
        NotShared(s.slots, s.fds, p, c, g);
      }
    }
  }

  lemma TwoRefs(fds: Fds, p: nat, c: nat, k: int)
    requires p in fds && c !in fds && |fds[p]| == MAX_FDS && 3 <= k < MAX_FDS
    ensures |Refs(fds[c := fds[p]], fds[p][k])| >= 2
  {
    var s := Refs(fds[c := fds[p]], fds[p][k]);
    assert Ref(p, k) in s && Ref(c, k) in s;
    hide Refs;
    Fewer({Ref(p, k), Ref(c, k)}, s);
    assert |{Ref(p, k), Ref(c, k)}| == 2;
  }

  lemma NotShared(slots: seq<Slot>, fds: Fds, p: nat, c: nat, g: int)
    requires p in fds && c !in fds && 3 <= g < |slots| && slots[g] == File && !HoldsFile(slots, fds[p])
    ensures Refs(fds[c := fds[p]], g) == Refs(fds, g)
  {
    forall r: Ref ensures r in Refs(fds[c := fds[p]], g) <==> r in Refs(fds, g) {
    }
  }

  // ---------- redirection ----------

  /** What sys_fd_redirect writes. */
  function Target(table: seq<int>, to: int): (h: int)
    requires 0 <= to < |table|
  {
    if to < 3 then to else table[to]
  }

  function Redirected(s: Tab, p: nat, k: int, to: int): (s': Tab)
    requires p in s.fds && 0 <= k < |s.fds[p]| && 0 <= to < |s.fds[p]|
  {
    s.(fds := Set(s.fds, p, k, Target(s.fds[p], to)))
  }

  /** A descriptor that no pipe counts. */
  ghost predicate Loose(slots: seq<Slot>, g: int) {
    g == NO_FD || (3 <= g < |slots| && slots[g] == File)
  }

  /** Overwriting descriptor k, which held g, with h: the pipes count right if and only if k is not
      counted, nothing changes, or no pipe is involved. */
  ghost predicate RedirectKeeps(slots: seq<Slot>, k: int, g: int, h: int) {
    k < 3 || h == g || (Loose(slots, g) && Loose(slots, h))
  }

  /** Overwriting descriptor k, which held g, with h: in addition no regular file is shared if and only
      if k is not counted, nothing changes, or a regular file lost its descriptor. */
  ghost predicate RedirectFits(slots: seq<Slot>, k: int, g: int, h: int) {
    k < 3 || h == g || (h == NO_FD && 3 <= g < |slots| && slots[g] == File)
  }

  lemma RedirectSound(s: Tab, p: nat, k: int, to: int)
    requires Sound(s) && p in s.fds && 0 <= k < MAX_FDS && 0 <= to < MAX_FDS && |s.fds[p]| == MAX_FDS
    ensures Sound(Redirected(s, p, k, to)) <==> RedirectKeeps(s.slots, k, s.fds[p][k], Target(s.fds[p], to))
  {
    hide Refs, CountOk, PagesOk;
    var g, h := s.fds[p][k], Target(s.fds[p], to);
    if k < 3 {
      LowRefs(s.fds, p, k, h);
    } else if h == g {
      assert s.fds[p][k := h] == s.fds[p] && Set(s.fds, p, k, h) == s.fds;
    } else if to < 3 {
      SetShaped(s.fds, p, k, h);
    } else {
      InUse(s.slots, s.fds, p, k);
      InUse(s.slots, s.fds, p, to);
      RedirectCounts(s.slots, s.fds, p, k, h);
      hide Counts;
    }
  }

  /** The descriptors 0 to 2 are not counted. */
  lemma LowRefs(fds: Fds, p: nat, k: int, h: int)
    requires p in fds && 0 <= k < 3 && |fds[p]| == MAX_FDS
    ensures forall g :: 3 <= g ==> Refs(Set(fds, p, k, h), g) == Refs(fds, g)
  {
    forall g | 3 <= g ensures Refs(Set(fds, p, k, h), g) == Refs(fds, g) {
      forall r: Ref ensures r in Refs(Set(fds, p, k, h), g) <==> r in Refs(fds, g) {
      }
    }
  }

  lemma RedirectCounts(slots: seq<Slot>, fds: Fds, p: nat, k: int, h: int)
    requires Counts(slots, fds) && p in fds && 3 <= k < MAX_FDS && |fds[p]| == MAX_FDS && h != fds[p][k]
    requires h == NO_FD || (3 <= h < MAX_FILE_OPEN && slots[h] != Empty)
    requires fds[p][k] == NO_FD || (3 <= fds[p][k] < MAX_FILE_OPEN && slots[fds[p][k]] != Empty)
    ensures Counts(slots, Set(fds, p, k, h)) <==> Loose(slots, fds[p][k]) && Loose(slots, h)
  {
    hide Refs;
    var g, fds' := fds[p][k], Set(fds, p, k, h);
    SetShaped(fds, p, k, h);
    SetRefs(fds, p, k, h, g);
    SetRefs(fds, p, k, h, h);
    hide Shaped;
    if g != NO_FD {
      assert CountOk(slots[g], Refs(fds, g));
      assert |Refs(fds, g) - {Ref(p, k)}| == |Refs(fds, g)| - 1;
      assert CountOk(slots[g], Refs(fds', g)) <==> slots[g] == File;
    }
    if h != NO_FD {
      assert CountOk(slots[h], Refs(fds, h));
      assert |Refs(fds, h) + {Ref(p, k)}| == |Refs(fds, h)| + 1;
      assert CountOk(slots[h], Refs(fds', h)) <==> slots[h] == File;
    }
    forall x | 3 <= x < MAX_FILE_OPEN && x != g && x != h ensures CountOk(slots[x], Refs(fds', x)) {
      OthersKeep(fds, p, k, h, x);
    }
    hide CountOk;
  }

  lemma RedirectShares(s: Tab, p: nat, k: int, to: int)
    requires Sound(s) && Unshared(s.slots, s.fds) && p in s.fds && 0 <= k < MAX_FDS && 0 <= to < MAX_FDS
      && |s.fds[p]| == MAX_FDS
    requires RedirectKeeps(s.slots, k, s.fds[p][k], Target(s.fds[p], to))
    ensures Unshared(s.slots, Redirected(s, p, k, to).fds) <==>
            RedirectFits(s.slots, k, s.fds[p][k], Target(s.fds[p], to))
  {
    hide Refs, CountOk, PagesOk, Shaped;
    var g, h := s.fds[p][k], Target(s.fds[p], to);
    var fds' := Set(s.fds, p, k, h);
    if k < 3 {
      LowRefs(s.fds, p, k, h);
    } else if h == g {
      assert s.fds[p][k := h] == s.fds[p] && fds' == s.fds;
    } else if h == NO_FD {
      forall x | 3 <= x < |s.slots| && s.slots[x] == File ensures |Refs(fds', x)| <= 1 {
        SetRefs(s.fds, p, k, h, x);
        Fewer(Refs(fds', x), Refs(s.fds, x));
      }
    } else {
      SetRefs(s.fds, p, k, h, h);
      SetRefs(s.fds, p, to, h, h);
      Fewer({Ref(p, k), Ref(p, to)}, Refs(fds', h));
      assert |{Ref(p, k), Ref(p, to)}| == 2;
    }
  }

  // ---------- exit ----------

  /** Every descriptor below k that p still has is closed. */
  ghost function Drained(s: Tab, p: nat, k: int): (s': Tab)
    requires p in s.fds && Shaped(s.fds) && |s.slots| == MAX_FILE_OPEN && 3 <= k <= MAX_FDS
    ensures p in s'.fds && Shaped(s'.fds) && |s'.slots| == MAX_FILE_OPEN && s'.fds - {p} == s.fds - {p}
    ensures forall j :: 0 <= j < MAX_FDS ==> s'.fds[p][j] == if 3 <= j < k then NO_FD else s.fds[p][j]
  {
    if k == 3 then s
    else
      var t := Drained(s, p, k - 1);
      if t.fds[p][k - 1] == NO_FD then t else CloseFd(t, p, k - 1)
  }

  /** The last part of release_prog_resource, and p is gone. */
  ghost function Exited(s: Tab, p: nat): (s': Tab)
    requires p in s.fds && Shaped(s.fds) && |s.slots| == MAX_FILE_OPEN
  {
    var t := Drained(s, p, MAX_FDS);
    t.(fds := t.fds - {p})
  }

  /** Every regular file that p has open is open nowhere else. */
  ghost predicate OwnFiles(s: Tab, p: nat) {
    forall k :: p in s.fds && 3 <= k < |s.fds[p]| && s.fds[p][k] != NO_FD ==> MayClose(s, p, k)
  }

  lemma UnsharedOwn(s: Tab, p: nat)
    requires Sound(s) && Unshared(s.slots, s.fds) && p in s.fds
    ensures OwnFiles(s, p)
  {
    assert |s.fds[p]| == MAX_FDS;
    hide Sound, Unshared;
    forall k | 3 <= k < |s.fds[p]| && s.fds[p][k] != NO_FD ensures MayClose(s, p, k) {
      CloseUnshared(s, p, k);
    }
  }

  /** What closing does to the table: a pipe stays that pipe, or its slot is free and its page freed,
      and no other page is freed. */
  ghost predicate Settled(s: Tab, s': Tab) {
    && |s'.slots| == |s.slots| && s.freed <= s'.freed && s'.at == s.at && s'.next == s.next
    && (forall g :: 0 <= g < |s.slots| ==>
          || s'.slots[g] == Empty || s'.slots[g] == s.slots[g]
          || (s.slots[g].Pipe? && s'.slots[g].Pipe? && s'.slots[g].page == s.slots[g].page))
    && (forall g :: 0 <= g < |s.slots| && s.slots[g].Pipe? ==> (s'.slots[g] == Empty <==> s.slots[g].page in s'.freed))
    && (forall q :: q in s'.freed && q !in s.freed ==>
         exists g :: 0 <= g < |s.slots| && s.slots[g].Pipe? && s.slots[g].page == q)
  }

  lemma SettledStart(s: Tab)
    requires PagesOk(s.slots, s.freed, s.at, s.next)
    ensures Settled(s, s)
  {
  }

  lemma SettledMore(s: Tab, t: Tab, p: nat, k: int)
    requires PagesOk(s.slots, s.freed, s.at, s.next) && Settled(s, t) && p in t.fds && 0 <= k < |t.fds[p]|
    requires 0 <= t.fds[p][k] < |t.slots| && t.slots[t.fds[p][k]] != Empty
    ensures Settled(s, CloseFd(t, p, k))
  {
    var g := t.fds[p][k];
    assert s.slots[g] == t.slots[g] || (s.slots[g].Pipe? && t.slots[g].Pipe? && t.slots[g].page == s.slots[g].page);
  }

  lemma OwnStays(s: Tab, p: nat, k: int)
    requires Sound(s) && OwnFiles(s, p) && p in s.fds && 3 <= k < MAX_FDS && |s.fds[p]| == MAX_FDS
      && s.fds[p][k] != NO_FD
    requires 3 <= s.fds[p][k] < |s.slots|
    ensures OwnFiles(CloseFd(s, p, k), p)
  {
    hide Refs, CountOk, PagesOk, Shaped;
    var g, s' := s.fds[p][k], CloseFd(s, p, k);
    forall j | 3 <= j < |s'.fds[p]| && s'.fds[p][j] != NO_FD ensures MayClose(s', p, j) {
      var h := s.fds[p][j];
      assert j != k && MayClose(s, p, j) && MayClose(s, p, k);
      InUse(s.slots, s.fds, p, j);
      InUse(s.slots, s.fds, p, k);
      SetRefs(s.fds, p, k, NO_FD, h);
      if h == g {
        TwoOf(s.slots[g], Refs(s.fds, g), Ref(p, j), Ref(p, k));
      }
    }
  }

  /** A slot with two descriptors that may both be closed is a pipe, and remains one. */
  lemma TwoOf(s: Slot, refs: set<Ref>, r: Ref, r': Ref)
    requires CountOk(s, refs) && r in refs && r' in refs && r != r' && (s.Pipe? || |refs| == 1)
    ensures s.Pipe? && Closed(s).Pipe?
  {
    Fewer({r, r'}, refs);
    assert |{r, r'}| == 2;
  }

  lemma {:induction false} DrainSound(s: Tab, p: nat, k: int)
    requires Sound(s) && OwnFiles(s, p) && p in s.fds && 3 <= k <= MAX_FDS
    ensures Shaped(s.fds) && |s.slots| == MAX_FILE_OPEN
    ensures var t := Drained(s, p, k); Sound(t) && OwnFiles(t, p) && Settled(s, t)
    ensures Unshared(s.slots, s.fds) ==> Unshared(Drained(s, p, k).slots, Drained(s, p, k).fds)
    decreases k
  {
    SoundShaped(s);
    hide Sound, OwnFiles, Settled, Unshared, MayClose, Shaped, CloseFd;
    if k == 3 {
      SoundIs(s);
      SettledStart(s);
    } else {
      DrainSound(s, p, k - 1);
      var t := Drained(s, p, k - 1);
      ShapedIs(t.fds, p);
      if t.fds[p][k - 1] != NO_FD {
        DrainOne(s, t, p, k - 1);
      }
    }
  }

  lemma SoundShaped(s: Tab)
    requires Sound(s)
    ensures Shaped(s.fds) && |s.slots| == MAX_FILE_OPEN
  {
  }

  lemma ShapedIs(fds: Fds, p: nat)
    requires Shaped(fds) && p in fds
    ensures |fds[p]| == MAX_FDS && forall k :: 3 <= k < MAX_FDS ==> fds[p][k] == NO_FD || 3 <= fds[p][k] < MAX_FILE_OPEN
  {
  }

  lemma DrainOne(s: Tab, t: Tab, p: nat, k: int)
    requires Sound(s) && Sound(t) && OwnFiles(t, p) && Settled(s, t) && p in t.fds && 3 <= k < MAX_FDS
      && |t.fds[p]| == MAX_FDS
    requires t.fds[p][k] != NO_FD && 3 <= t.fds[p][k] < MAX_FILE_OPEN == |t.slots|
    ensures var u := CloseFd(t, p, k); Sound(u) && OwnFiles(u, p) && Settled(s, u)
    ensures Unshared(t.slots, t.fds) ==> Unshared(CloseFd(t, p, k).slots, CloseFd(t, p, k).fds)
  {
    assert MayClose(t, p, k);
    hide *;
    DropRef(t, p, k);
    OwnStays(t, p, k);
    SoundIs(s);
    SettledMore(s, t, p, k);
    if Unshared(t.slots, t.fds) {
      CloseUnshared(t, p, k);
    }
  }

  /** Exit leaves the counts right: every pipe of the process loses its descriptors one by one. */
  lemma ExitSound(s: Tab, p: nat)
    requires Sound(s) && OwnFiles(s, p) && p in s.fds
    ensures Shaped(s.fds) && |s.slots| == MAX_FILE_OPEN
    ensures Sound(Exited(s, p)) && Exited(s, p).fds == s.fds - {p} && Settled(s, Exited(s, p))
    ensures Unshared(s.slots, s.fds) ==> Unshared(Exited(s, p).slots, Exited(s, p).fds)
  {
    hide Refs, CountOk, PagesOk, OwnFiles, Drained;
    DrainSound(s, p, MAX_FDS);
    var t := Drained(s, p, MAX_FDS);
    assert t.fds[p] == t.fds[p];
    NoFds(t.slots, t.fds, p, t.fds[p]);
  }

  /** A slot that loses n of its descriptors. */
  function Less(s: Slot, n: nat): (s': Slot) {
    if n == 0 then s else if s.Pipe? && s.pos > n then s.(pos := s.pos - n) else Empty
  }

  lemma UsesMore(table: seq<int>, k: int, g: int)
    requires 3 <= k < |table|
    ensures |Uses(table, g, k + 1)| == |Uses(table, g, k)| + if table[k] == g then 1 else 0
    ensures Uses(table, g, 3) == {}
  {
    var u := Uses(table, g, k);
    assert k !in u && Uses(table, g, k + 1) == if table[k] == g then u + {k} else u;
  }

  /** Every slot has lost exactly the descriptors closed so far. */
  lemma {:induction false} DrainCount(s: Tab, p: nat, k: int, g: int)
    requires p in s.fds && Shaped(s.fds) && |s.slots| == MAX_FILE_OPEN && |s.fds[p]| == MAX_FDS && 3 <= k <= MAX_FDS
    requires 3 <= g < MAX_FILE_OPEN && (s.slots[g].Pipe? ==> s.slots[g].pos >= |Uses(s.fds[p], g, k)|)
    ensures Drained(s, p, k).slots[g] == Less(s.slots[g], |Uses(s.fds[p], g, k)|)
    decreases k
  {
    UsesMore(s.fds[p], if k == 3 then 3 else k - 1, g);
    DrainedIs(s, p, k);
    ShapedIs(s.fds, p);
    hide Drained, Shaped, Uses;
    if k > 3 {
      DrainCount(s, p, k - 1, g);
      DrainedRest(s, p, k - 1);
    }
  }

  lemma DrainedRest(s: Tab, p: nat, k: int)
    requires p in s.fds && Shaped(s.fds) && |s.slots| == MAX_FILE_OPEN && |s.fds[p]| == MAX_FDS && 3 <= k < MAX_FDS
    ensures Drained(s, p, k).fds[p][k] == s.fds[p][k]
  {
  }

  /** A process has no more descriptors of a slot than there are. */
  lemma {:induction false} UsesAreRefs(fds: Fds, p: nat, g: int, k: int) returns (r: set<Ref>)
    requires p in fds && |fds[p]| == MAX_FDS && 3 <= k <= MAX_FDS
    ensures |r| == |Uses(fds[p], g, k)| && r <= Refs(fds, g) && forall x :: x in r ==> x.k < k
  {
    if k == 3 {
      r := {};
      assert Uses(fds[p], g, 3) == {};
    } else {
      r := UsesAreRefs(fds, p, g, k - 1);
      UsesMore(fds[p], k - 1, g);
      hide Uses;
      if fds[p][k - 1] == g {
        assert Ref(p, k - 1) in Refs(fds, g) && Ref(p, k - 1) !in r;
        hide Refs;
        r := r + {Ref(p, k - 1)};
      }
    }
  }

  /** Exit takes exactly the descriptors of the process from every slot. */
  lemma ExitCount(s: Tab, p: nat, g: int)
    requires Sound(s) && p in s.fds && 3 <= g < MAX_FILE_OPEN
    ensures Shaped(s.fds) && |s.slots| == MAX_FILE_OPEN && |s.fds[p]| == MAX_FDS
    ensures Exited(s, p).slots[g] == Less(s.slots[g], |Uses(s.fds[p], g, MAX_FDS)|)
  {
    SoundShaped(s);
    SoundIs(s);
    ShapedIs(s.fds, p);
    ExitedIs(s, p);
    CountIs(s.slots, s.fds, g);
    hide *;
    var r := UsesAreRefs(s.fds, p, g, MAX_FDS);
    Fewer(r, Refs(s.fds, g));
    DrainCount(s, p, MAX_FDS, g);
  }

  // ---------- the code ----------

  class Files {
    var slots: seq<Slot>             // file_table
    var fds: Fds                     // fd_table of every process that has not exited
    ghost var freed: set<nat>        // pipe pages given back
    ghost var at: map<nat, int>      // the slot every pipe page was given to
    var next: nat                    // the next page get_kernel_pages hands out

    ghost function V(): Tab
      reads this
    {
      Tab(slots, fds, freed, at, next)
    }

    /** The counts are right and no regular file is shared. */
    ghost predicate Valid()
      reads this
    {
      Sound(V()) && Unshared(slots, fds)
    }

    constructor (p: nat)
      ensures Valid() && fds == map[p := [0, 1, 2, NO_FD, NO_FD, NO_FD, NO_FD, NO_FD]]
    {
      slots := seq(MAX_FILE_OPEN, _ => Empty);
      fds := map[p := [0, 1, 2, NO_FD, NO_FD, NO_FD, NO_FD, NO_FD]];
      freed, at, next := {}, map[], 0;
      new;
      NoFds(slots, map[], p, fds[p]);
    }

    /** get_free_slot_in_global */
    method FreeGlobal() returns (g: int)
      requires |slots| == MAX_FILE_OPEN
      ensures g == -1 ==> forall h :: 3 <= h < MAX_FILE_OPEN ==> slots[h] != Empty
      ensures g != -1 ==> 3 <= g < MAX_FILE_OPEN && slots[g] == Empty && forall h :: 3 <= h < g ==> slots[h] != Empty
    {
      g := 3;
      while g < MAX_FILE_OPEN && slots[g] != Empty
        invariant 3 <= g <= MAX_FILE_OPEN && forall h :: 3 <= h < g ==> slots[h] != Empty
      {
        g := g + 1;
      }
      if g == MAX_FILE_OPEN {
        g := -1;
      }
    }

    /** pcb_fd_install: the first free descriptor from 3 up, or -1. */
    method Install(p: nat, g: int) returns (k: int)
      requires p in fds && |fds[p]| == MAX_FDS
      modifies `fds
      ensures Installed(old(fds), fds, p, g, k) && p in fds && |fds[p]| == MAX_FDS
    {
      k := 3;
      while k < MAX_FDS && fds[p][k] != NO_FD
        invariant 3 <= k <= MAX_FDS && forall j :: 3 <= j < k ==> fds[p][j] != NO_FD
      {
        k := k + 1;
      }
      if k == MAX_FDS {
        return -1;
      }
      fds := Set(fds, p, k, g);
    }

    /** sys_pipe.  Without an empty slot the code writes in front of the file table (g is -1); without two
        free descriptors it leaves a pipe whose count is wrong for good. */
    method MakePipe(p: nat) returns (fd0: int, fd1: int, g: int)
      requires Sound(V()) && p in fds
      modifies this
      ensures g == -1 <==> forall h :: 3 <= h < MAX_FILE_OPEN ==> old(slots)[h] != Empty
      ensures g != -1 ==>
        && 3 <= g < MAX_FILE_OPEN && old(slots)[g] == Empty && FirstTwo(old(fds), p, fd0, fd1)
        && (forall h :: 3 <= h < g ==> old(slots)[h] != Empty) && PipeAdded(old(V()), V(), p, g, fd0, fd1)
        && V() == NewPipe(old(V()), p, g, fd0, fd1)
        && (Sound(V()) <==> fd1 != -1) && (old(Valid()) ==> (Valid() <==> fd1 != -1))
    {
      ghost var s := V();
      SoundShaped(s);
      ShapedIs(fds, p);
      hide *;
      fd0, fd1 := -1, -1;
      g := FreeGlobal();
      if g == -1 {
        return;
      }
      fd0 := Install(p, g);
      ghost var one := fds;
      fd1 := Install(p, g);
      PipeMade(s, one, fds, p, g, fd0, fd1);
      slots := slots[g := Pipe(next, 2)];
      at := at[next := g];
      next := next + 1;
      ValidIs();
    }

    lemma ValidIs()
      ensures V() == Tab(slots, fds, freed, at, next) && (Valid() <==> Sound(V()) && Unshared(slots, fds))
    {
    }

    /** The part of sys_open that takes a slot and a descriptor for a regular file; without a descriptor
        the slot stays taken. */
    method OpenFile(p: nat) returns (k: int, g: int)
      requires Sound(V()) && p in fds
      modifies this
      ensures Sound(V()) && (old(Valid()) ==> Valid())
      ensures g == -1 <==> forall h :: 3 <= h < MAX_FILE_OPEN ==> old(slots)[h] != Empty
      ensures g == -1 ==> V() == old(V()) && k == -1
      ensures g != -1 ==>
        && 3 <= g < MAX_FILE_OPEN && old(slots)[g] == Empty && |old(fds)[p]| == MAX_FDS
        && (k == -1 <==> forall j :: 3 <= j < MAX_FDS ==> old(fds)[p][j] != NO_FD)
        && (k != -1 ==> 3 <= k < MAX_FDS && old(fds)[p][k] == NO_FD) && V() == Opened(old(V()), p, g, k)
        && (forall h :: 3 <= h < g ==> old(slots)[h] != Empty) && slots == old(slots)[g := File]
        && (k == -1 ==> fds == old(fds))
        && (k != -1 ==> OnlyFd(old(fds), fds, p, k, g) && forall j :: 3 <= j < k ==> old(fds)[p][j] != NO_FD)
    {
      ghost var s := V();
      SoundShaped(s);
      ShapedIs(fds, p);
      hide Sound, Unshared;
      k := -1;
      g := FreeGlobal();
      if g != -1 {
        k := Install(p, g);
        OpenSound(s, p, g, k);
        slots := slots[g := File];
        if k != -1 {
          SetIs(s.fds, p, k, g);
        }
      }
    }

    /** sys_close of an open descriptor above 2; those below are refused. */
    method Close(p: nat, k: int) returns (ret: int)
      requires Sound(V()) && p in fds && 0 <= k < MAX_FDS && (k > 2 ==> fds[p][k] != NO_FD)
      modifies this
      ensures (ret == -1 <==> k <= 2) && (k <= 2 ==> V() == old(V()))
      ensures k > 2 ==> 3 <= old(fds)[p][k] < MAX_FILE_OPEN && V() == CloseFd(old(V()), p, k)
      ensures k > 2 ==> OnlyFd(old(fds), fds, p, k, NO_FD) && SlotLess(old(V()), V(), old(fds)[p][k])
      ensures k > 2 ==> (Sound(V()) <==> MayClose(old(V()), p, k)) && FreedBy(old(slots)[old(fds)[p][k]]) !! old(freed)
      ensures old(Valid()) ==> Valid()
    {
      ret := -1;
      if k > 2 {
        ghost var s := V();
        SoundShaped(s);
        ShapedIs(fds, p);
        DropRef(s, p, k);
        if Valid() {
          CloseUnshared(s, p, k);
        }
        hide Sound, Unshared, MayClose;
        var g := fds[p][k];
        ret := 0;
        freed := freed + FreedBy(slots[g]);
        slots := slots[g := Closed(slots[g])];
        SetIs(fds, p, k, NO_FD);
        fds := Set(fds, p, k, NO_FD);
        SlotLessIs(s, V(), g);
      }
    }

    /** The last part of release_prog_resource: every descriptor of an exiting process is closed. */
    method Exit(p: nat)
      requires Sound(V()) && p in fds && OwnFiles(V(), p)
      modifies this
      ensures Shaped(old(fds)) && |old(slots)| == MAX_FILE_OPEN && V() == Exited(old(V()), p) && fds == old(fds) - {p}
      ensures Sound(V()) && Settled(old(V()), V()) && (old(Valid()) ==> Valid())
      ensures |slots| == MAX_FILE_OPEN && |old(fds)[p]| == MAX_FDS
      ensures forall g :: 3 <= g < MAX_FILE_OPEN ==>
        slots[g] == Less(old(slots)[g], |Uses(old(fds)[p], g, MAX_FDS)|)
    {
      ghost var s := V();
      ExitSound(s, p);
      SoundShaped(s);
      ShapedIs(fds, p);
      ExitedSlots(s, p);
      hide *;
      DrainedIs(s, p, 3);
      var k := 3;
      while k < MAX_FDS
        invariant 3 <= k <= MAX_FDS && V() == Drained(s, p, k) && p in fds
      {
        DrainSound(s, p, k);
        ShapedIs(fds, p);
        DrainedIs(s, p, k + 1);
        if fds[p][k] != NO_FD {
          var r := Close(p, k);
        }
        k := k + 1;
      }
      ExitedIs(s, p);
      fds := fds - {p};
      ValidIs();
    }

    /** The descriptor half of sys_fork: the child has the parent's table, and update_inode_open_cnts
        counts every pipe in it once more.  A regular file has then two descriptors that close it. */
    method Fork(p: nat, c: nat)
      requires Sound(V()) && p in fds && c !in fds
      modifies `fds, `slots
      ensures |old(fds)[p]| == MAX_FDS && V() == Forked(old(V()), p, c) && Sound(V())
      ensures fds == old(fds)[c := old(fds)[p]] && |slots| == |old(slots)|
      ensures forall g :: 0 <= g < |slots| ==>
        slots[g] == if old(slots)[g].Pipe? then
                      old(slots)[g].(pos := old(slots)[g].pos + |Uses(old(fds)[p], g, MAX_FDS)|)
                    else old(slots)[g]
      ensures old(Valid()) ==> (Valid() <==> !HoldsFile(old(slots), old(fds)[p]))
    {
      ghost var s := V();
      SoundShaped(s);
      ShapedIs(fds, p);
      ForkSound(s, p, c);
      hide *;
      ValidIs();
      if Valid() {
        ForkShares(s, p, c);
      }
      ForkedIs(s, p, c);
      slots := CountUp(slots, fds[p]);
      fds := fds[c := fds[p]];
      ValidIs();
    }

    /** sys_fd_redirect: descriptor k becomes what descriptor to is, or the standard descriptor to itself. */
    method Redirect(p: nat, k: int, to: int)
      requires Sound(V()) && p in fds && 0 <= k < MAX_FDS && 0 <= to < MAX_FDS
      modifies `fds
      ensures |old(fds)[p]| == MAX_FDS && V() == Redirected(old(V()), p, k, to)
      ensures OnlyFd(old(fds), fds, p, k, if to < 3 then to else old(fds)[p][to])
      ensures if to < 3 then fds[p][k] == to else fds[p][k] == fds[p][to]
      ensures Sound(V()) <==> RedirectKeeps(slots, k, old(fds)[p][k], Target(old(fds)[p], to))
      ensures old(Valid()) ==> (Valid() <==> RedirectFits(slots, k, old(fds)[p][k], Target(old(fds)[p], to)))
    {
      ghost var s := V();
      SoundShaped(s);
      ShapedIs(fds, p);
      RedirectSound(s, p, k, to);
      FitsKeeps(slots, k, fds[p][k], Target(fds[p], to));
      if Valid() && RedirectKeeps(slots, k, fds[p][k], Target(fds[p], to)) {
        RedirectShares(s, p, k, to);
      }
      hide Sound, Unshared, RedirectFits, RedirectKeeps;
      SetIs(fds, p, k, if to < 3 then to else fds[p][to]);
      if to < 3 {
        fds := Set(fds, p, k, to);
      } else {
        fds := Set(fds, p, k, fds[p][to]);
      }
    }
  }

  /** update_inode_open_cnts */
  method CountUp(slots0: seq<Slot>, table: seq<int>) returns (slots: seq<Slot>)
    requires |slots0| == MAX_FILE_OPEN && |table| == MAX_FDS
    requires forall k :: 3 <= k < MAX_FDS ==> table[k] == NO_FD || 3 <= table[k] < MAX_FILE_OPEN
    ensures slots == Bumps(slots0, table, MAX_FDS) && |slots| == |slots0|
    ensures forall g :: 0 <= g < |slots0| ==>
      slots[g] == if slots0[g].Pipe? then slots0[g].(pos := slots0[g].pos + |Uses(table, g, MAX_FDS)|) else slots0[g]
  {
    forall g | 0 <= g < |slots0|
      ensures Bumps(slots0, table, MAX_FDS)[g] ==
        if slots0[g].Pipe? then slots0[g].(pos := slots0[g].pos + |Uses(table, g, MAX_FDS)|) else slots0[g]
    {
      BumpsCount(slots0, table, MAX_FDS, g);
    }
    hide Bumps, Joined, Uses;
    BumpsNone(slots0, table);
    slots := slots0;
    var k := 3;
    while k < MAX_FDS
      invariant 3 <= k <= MAX_FDS && slots == Bumps(slots0, table, k)
    {
      BumpsMore(slots0, table, k);
      if table[k] != NO_FD {
        slots := slots[table[k] := Joined(slots[table[k]], Empty)];
      }
      k := k + 1;
    }
  }

  /** The descriptors from 3 to k - 1 of a table that refer to slot g. */
  ghost function Uses(table: seq<int>, g: int, k: int): (u: set<int>) {
    set j | 3 <= j < k && j < |table| && table[j] == g
  }

  lemma {:induction false} BumpsCount(slots: seq<Slot>, table: seq<int>, k: int, g: int)
    requires 3 <= k <= |table| && 0 <= g < |slots|
    ensures Bumps(slots, table, k)[g] ==
      if slots[g].Pipe? then slots[g].(pos := slots[g].pos + |Uses(table, g, k)|) else slots[g]
    decreases k
  {
    if k == 3 {
      assert Uses(table, g, k) == {};
    } else {
      BumpsCount(slots, table, k - 1, g);
      var u := Uses(table, g, k - 1);
      assert k - 1 !in u;
      assert Uses(table, g, k) == if table[k - 1] == g then u + {k - 1} else u;
    }
  }

  lemma BumpsNone(slots: seq<Slot>, table: seq<int>)
    requires |table| == MAX_FDS
    ensures MAX_FDS == 8 && Bumps(slots, table, 3) == slots
  {
  }

  lemma BumpsMore(slots: seq<Slot>, table: seq<int>, k: int)
    requires 3 <= k < MAX_FDS == |table| && |slots| == MAX_FILE_OPEN
    requires table[k] == NO_FD || 3 <= table[k] < MAX_FILE_OPEN
    ensures var t := Bumps(slots, table, k);
      && |t| == MAX_FILE_OPEN && (table[k] != NO_FD ==> 0 <= table[k] < |t|)
      && Bumps(slots, table, k + 1) == if table[k] == NO_FD then t else t[table[k] := Joined(t[table[k]], Empty)]
  {
    hide Joined;
  }

  lemma ForkedIs(s: Tab, p: nat, c: nat)
    requires p in s.fds && |s.fds[p]| == MAX_FDS
    ensures Forked(s, p, c) == Tab(Bumps(s.slots, s.fds[p], MAX_FDS), s.fds[c := s.fds[p]], s.freed, s.at, s.next)
  {
  }

  lemma FitsKeeps(slots: seq<Slot>, k: int, g: int, h: int)
    ensures RedirectFits(slots, k, g, h) ==> RedirectKeeps(slots, k, g, h)
  {
  }

  lemma DrainedIs(s: Tab, p: nat, k: int)
    requires p in s.fds && Shaped(s.fds) && |s.slots| == MAX_FILE_OPEN && 3 <= k <= MAX_FDS
    ensures k == 3 ==> Drained(s, p, k) == s
    ensures k > 3 ==>
      var t := Drained(s, p, k - 1);
      && p in t.fds && |t.fds[p]| == MAX_FDS
      && (t.fds[p][k - 1] != NO_FD ==> 0 <= t.fds[p][k - 1] < |t.slots|)
      && Drained(s, p, k) == if t.fds[p][k - 1] == NO_FD then t else CloseFd(t, p, k - 1)
  {
  }

  lemma ExitedIs(s: Tab, p: nat)
    requires p in s.fds && Shaped(s.fds) && |s.slots| == MAX_FILE_OPEN
    ensures var t := Drained(s, p, MAX_FDS); Exited(s, p) == Tab(t.slots, t.fds - {p}, t.freed, t.at, t.next)
  {
    hide Drained;
  }

  lemma ExitedSlots(s: Tab, p: nat)
    requires Sound(s) && p in s.fds && Shaped(s.fds) && |s.slots| == MAX_FILE_OPEN && |s.fds[p]| == MAX_FDS
    ensures |Exited(s, p).slots| == MAX_FILE_OPEN
    ensures forall g :: 3 <= g < MAX_FILE_OPEN ==>
      Exited(s, p).slots[g] == Less(s.slots[g], |Uses(s.fds[p], g, MAX_FDS)|)
  {
    hide Sound, Uses, Drained, Less;
    forall g | 3 <= g < MAX_FILE_OPEN
      ensures Exited(s, p).slots[g] == Less(s.slots[g], |Uses(s.fds[p], g, MAX_FDS)|)
    {
      ExitCount(s, p, g);
    }
  }

  lemma PipeMade(s: Tab, one: Fds, fds': Fds, p: nat, g: int, k: int, l: int)
    requires Sound(s) && p in s.fds && |s.fds[p]| == MAX_FDS && 3 <= g < MAX_FILE_OPEN == |s.slots|
      && s.slots[g] == Empty
    requires Installed(s.fds, one, p, g, k) && Installed(one, fds', p, g, l)
    ensures FirstTwo(s.fds, p, k, l) && -1 <= k < MAX_FDS && -1 <= l < MAX_FDS
    ensures var s' := NewPipe(s, p, g, k, l);
      && s' == Tab(s.slots[g := Pipe(s.next, 2)], fds', s.freed, s.at[s.next := g], s.next + 1)
      && PipeAdded(s, s', p, g, k, l) && (Sound(s') <==> l != -1)
      && (Unshared(s.slots, s.fds) ==> Unshared(s'.slots, s'.fds))
  {
    hide *;
    TwoInstalled(s.fds, one, fds', p, g, k, l);
    PipeSound(s, p, g, k, l);
    FirstTwoIs(s.fds, p, k, l);
    NewPipeIs(s, p, g, k, l);
    NewPipeAdds(s, p, g, k, l);
  }

  lemma TwoInstalled(fds: Fds, one: Fds, fds': Fds, p: nat, g: int, k: int, l: int)
    requires p in fds && |fds[p]| == MAX_FDS && 3 <= g
    requires Installed(fds, one, p, g, k) && Installed(one, fds', p, g, l)
    ensures FirstTwo(fds, p, k, l) && -1 <= k < MAX_FDS && -1 <= l < MAX_FDS && fds' == PipeFds(fds, p, g, k, l)
  {
    assert forall j :: 3 <= j < MAX_FDS && j != k ==> one[p][j] == fds[p][j];
    if l == -1 {
      assert forall j :: 3 <= j < MAX_FDS && j != k ==> fds[p][j] != NO_FD;
    } else {
      assert k != -1;
      assert fds[p][k] == NO_FD && fds[p][l] == NO_FD && k < l;
    }
  }
}
