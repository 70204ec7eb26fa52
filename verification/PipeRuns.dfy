/** Whole runs of pipe, open, close, fork, exit and redirection by all processes: when the counts of the
    pipes stay right, and that every pipe page is then freed once, with the last descriptor. */
module PipeRuns {
  import opened PipeTable

  /** The steps; an exit is the closing of every descriptor and then DoGone. */
  datatype Step =
    | DoPipe(p: nat, g: int, k: int, l: int)
    | DoOpen(p: nat, g: int, k: int)
    | DoClose(p: nat, k: int)
    | DoFork(p: nat, c: nat)
    | DoRedirect(p: nat, k: int, to: int)
    | DoGone(p: nat)

  ghost predicate Does(s: Tab, s': Tab, a: Step) {
    && Shaped(s.fds) && |s.slots| == MAX_FILE_OPEN && a.p in s.fds && |s.fds[a.p]| == MAX_FDS
    && match a
       case DoPipe(p, g, k, l) =>
         3 <= g < MAX_FILE_OPEN && s.slots[g] == Empty && FirstTwo(s.fds, p, k, l) && s' == NewPipe(s, p, g, k, l)
       case DoOpen(p, g, k) =>
         && 3 <= g < MAX_FILE_OPEN && s.slots[g] == Empty
         && (k == -1 || (3 <= k < MAX_FDS && s.fds[p][k] == NO_FD)) && s' == Opened(s, p, g, k)
       case DoClose(p, k) =>
         3 <= k < MAX_FDS && 3 <= s.fds[p][k] < MAX_FILE_OPEN && s' == CloseFd(s, p, k)
       case DoFork(p, c) => c !in s.fds && s' == Forked(s, p, c)
       case DoRedirect(p, k, to) => 0 <= k < MAX_FDS && 0 <= to < MAX_FDS && s' == Redirected(s, p, k, to)
       case DoGone(p) =>
         (forall k :: 3 <= k < MAX_FDS ==> s.fds[p][k] == NO_FD) && s' == s.(fds := s.fds - {p})
  }

  /** A new pipe gets two descriptors, no regular file is closed that another descriptor shares, and no
      pipe is involved in a redirection but to or from the descriptors 0 to 2. */
  ghost predicate Fits(s: Tab, a: Step)
    requires a.p in s.fds && |s.fds[a.p]| == MAX_FDS
  {
    match a
    case DoPipe(p, g, k, l) => l != -1
    case DoClose(p, k) => MayClose(s, p, k)
    case DoRedirect(p, k, to) =>
      0 <= k < MAX_FDS && 0 <= to < MAX_FDS && RedirectKeeps(s.slots, k, s.fds[p][k], Target(s.fds[p], to))
    case _ => true
  }

  /** Every step, exactly. */
  lemma StepExact(s: Tab, s': Tab, a: Step)
    requires Sound(s) && Does(s, s', a)
    ensures Sound(s') <==> Fits(s, a)
  {
    hide Sound, NewPipe, Opened, CloseFd, Forked, Redirected, MayClose, RedirectKeeps, FirstTwo, Shaped;
    match a
    case DoPipe(p, g, k, l) => PipeSound(s, p, g, k, l);
    case DoOpen(p, g, k) => OpenSound(s, p, g, k);
    case DoClose(p, k) => DropRef(s, p, k);
    case DoFork(p, c) => ForkSound(s, p, c);
    case DoRedirect(p, k, to) => RedirectSound(s, p, k, to);
    case DoGone(p) =>
      NoFds(s.slots, s.fds, p, s.fds[p]);
      SoundIs(s);
      SoundIs(s');
  }

  ghost predicate Run(ss: seq<Tab>, steps: seq<Step>) {
    |ss| == |steps| + 1 && forall i :: 0 <= i < |steps| ==> Does(ss[i], ss[i + 1], steps[i])
  }

  ghost predicate FitsAt(ss: seq<Tab>, steps: seq<Step>, i: int)
    requires Run(ss, steps) && 0 <= i < |steps|
  {
    assert Does(ss[i], ss[i + 1], steps[i]);
    Fits(ss[i], steps[i])
  }

  lemma FitsAtIs(ss: seq<Tab>, steps: seq<Step>, i: int)
    requires Run(ss, steps) && 0 <= i < |steps| && Sound(ss[i])
    ensures Sound(ss[i + 1]) <==> FitsAt(ss, steps, i)
  {
    hide Sound, Does, Fits;
    assert Does(ss[i], ss[i + 1], steps[i]);
    StepExact(ss[i], ss[i + 1], steps[i]);
  }

  lemma {:induction false} RunUpTo(ss: seq<Tab>, steps: seq<Step>, n: nat)
    requires Run(ss, steps) && Sound(ss[0]) && n <= |steps| && forall i :: 0 <= i < n ==> FitsAt(ss, steps, i)
    ensures Sound(ss[n])
  {
    hide Sound, Does, FitsAt;
    if n > 0 {
      RunUpTo(ss, steps, n - 1);
      FitsAtIs(ss, steps, n - 1);
    }
  }

  /** Every run, exactly: the counts are right all along if and only if every step fits. */
  lemma RunExact(ss: seq<Tab>, steps: seq<Step>)
    requires Run(ss, steps) && Sound(ss[0])
    ensures (forall n :: 0 <= n < |ss| ==> Sound(ss[n])) <==> (forall i :: 0 <= i < |steps| ==> FitsAt(ss, steps, i))
  {
    hide Sound, Does, FitsAt;
    if forall n :: 0 <= n < |ss| ==> Sound(ss[n]) {
      forall i | 0 <= i < |steps| ensures FitsAt(ss, steps, i) {
        var n := i + 1;
        assert Sound(ss[i]) && Sound(ss[n]);
        FitsAtIs(ss, steps, i);
      }
    }
    if forall i :: 0 <= i < |steps| ==> FitsAt(ss, steps, i) {
      forall n | 0 <= n < |ss| ensures Sound(ss[n]) {
        RunUpTo(ss, steps, n);
      }
    }
  }

  // ---------- pages ----------

  /** The pages that a step gives back. */
  ghost function Frees(s: Tab, a: Step): (q: set<nat>)
    requires Shaped(s.fds) && |s.slots| == MAX_FILE_OPEN && a.p in s.fds && |s.fds[a.p]| == MAX_FDS
  {
    if a.DoClose? && 3 <= a.k < MAX_FDS && 3 <= s.fds[a.p][a.k] < MAX_FILE_OPEN then FreedBy(s.slots[s.fds[a.p][a.k]])
        else {}
  }

  lemma StepPages(s: Tab, s': Tab, a: Step)
    requires Sound(s) && Does(s, s', a)
    ensures s'.freed == s.freed + Frees(s, a) && Frees(s, a) !! s.freed
    ensures s'.at == if a.DoPipe? then s.at[s.next := a.g] else s.at
    ensures s'.next == if a.DoPipe? then s.next + 1 else s.next
  {
    hide Sound, Shaped, FirstTwo, MayClose, RedirectKeeps, FreedBy, Closed;
    if a.DoClose? {
      DropRef(s, a.p, a.k);
    }
  }

  lemma {:induction false} FreedStays(ss: seq<Tab>, steps: seq<Step>, i: nat, n: nat)
    requires Run(ss, steps) && (forall m :: 0 <= m < |ss| ==> Sound(ss[m])) && i <= n <= |steps|
    ensures ss[i].freed <= ss[n].freed && forall q :: q in ss[i].at ==> q in ss[n].at && ss[n].at[q] == ss[i].at[q]
  {
    hide Sound, Does, Frees;
    if i < n {
      FreedStays(ss, steps, i, n - 1);
      assert Does(ss[n - 1], ss[n - 1 + 1], steps[n - 1]);
      StepPages(ss[n - 1], ss[n], steps[n - 1]);
      Below(ss[n - 1]);
    }
  }

  lemma Below(s: Tab)
    requires Sound(s)
    ensures s.next !in s.at && forall q :: q in s.at ==> q < s.next
  {
    hide Counts;
  }

  /** The pipe with page q is in slot g and counts its descriptors, of which it has some. */
  ghost predicate Alive(s: Tab, q: nat, g: int) {
    && 3 <= g < |s.slots| && s.slots[g].Pipe? && s.slots[g].page == q
    && Refs(s.fds, g) != {} && s.slots[g].pos == |Refs(s.fds, g)|
  }

  lemma AliveOrFreed(s: Tab, q: nat, g: int)
    requires Sound(s) && q in s.at && s.at[q] == g && 3 <= g
    ensures Alive(s, q, g) <==> q !in s.freed
  {
    hide Refs;
    if q !in s.freed {
      assert CountOk(s.slots[g], Refs(s.fds, g));
    }
  }

  /** In a run whose counts stay right, the page that step i gives to a new pipe is at any later time
      either that of a living pipe, which counts exactly its descriptors, or freed; and once freed no
      step frees it again. */
  lemma RunFreesOnce(ss: seq<Tab>, steps: seq<Step>, i: nat, n: nat, m: nat)
    requires Run(ss, steps) && (forall l :: 0 <= l < |ss| ==> Sound(ss[l])) && i < n <= m <= |steps| && steps[i].DoPipe?
    ensures Alive(ss[n], ss[i].next, steps[i].g) <==> ss[i].next !in ss[n].freed
    ensures ss[i].next in ss[n].freed ==> ss[i].next in ss[m].freed
    ensures ss[i].next in ss[n].freed && m < |steps| ==>
      Does(ss[m], ss[m + 1], steps[m]) && ss[i].next !in Frees(ss[m], steps[m])
  {
    var q, g := ss[i].next, steps[i].g;
    assert Does(ss[i], ss[i + 1], steps[i]);
    assert 3 <= g;
    hide Sound, Frees, Alive, Does;
    StepPages(ss[i], ss[i + 1], steps[i]);
    FreedStays(ss, steps, i + 1, n);
    AliveOrFreed(ss[n], q, g);
    FreedStays(ss, steps, n, m);
    if m < |steps| {
      assert Does(ss[m], ss[m + 1], steps[m]);
      StepPages(ss[m], ss[m + 1], steps[m]);
    }
  }

  /** The page is freed by the step that closes the last descriptor. */
  lemma FreedWithTheLast(s: Tab, s': Tab, a: Step, q: nat, g: int)
    requires Sound(s) && Sound(s') && Does(s, s', a) && Alive(s, q, g)
    ensures q in Frees(s, a) <==> a.DoClose? && s.fds[a.p][a.k] == g && Refs(s.fds, g) == {Ref(a.p, a.k)}
    ensures q in Frees(s, a) <==> !Alive(s', q, g)
  {
    assert q in s.at && s.at[q] == g && q !in s.freed;
    StepPages(s, s', a);
    Below(s);
    assert s'.at[q] == g;
    AliveOrFreed(s', q, g);
    assert PagesOk(s.slots, s.freed, s.at, s.next);
    if a.DoClose? {
      LastOne(s, a.p, a.k, q, g);
    }
    hide Sound, Alive;
  }

  lemma LastOne(s: Tab, p: nat, k: int, q: nat, g: int)
    requires Sound(s) && Alive(s, q, g) && p in s.fds && 3 <= k < MAX_FDS && |s.fds[p]| == MAX_FDS
    requires 3 <= s.fds[p][k] < MAX_FILE_OPEN
    ensures q in FreedBy(s.slots[s.fds[p][k]]) <==> s.fds[p][k] == g && Refs(s.fds, g) == {Ref(p, k)}
  {
    InUse(s.slots, s.fds, p, k);
    var h := s.fds[p][k];
    hide Refs, Shaped;
    assert s.slots[h].Pipe? && s.slots[h].page == q ==> h == g;
    if h == g {
      var r := Refs(s.fds, g);
      assert |r - {Ref(p, k)}| == |r| - 1;
      assert |r| == 1 <==> r - {Ref(p, k)} == {};
      assert r == {Ref(p, k)} <==> r - {Ref(p, k)} == {};
    }
  }
}
