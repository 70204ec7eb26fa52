/** What the operations on descriptors come to together: a redirection is undone by the next, a fork by the exit
    of the child, and the shell's pipeline leaves the tables as it found them (shell/shell.c). */
module PipeLaws {
  import opened PipeTable

  // ---------- redirection and back ----------

  /** Redirecting a standard descriptor that was itself and restoring it gives the table back. */
  lemma RedirectBack(s: Tab, p: nat, k: int, to: int)
    requires p in s.fds && |s.fds[p]| == MAX_FDS && 0 <= k < 3 && s.fds[p][k] == k && 0 <= to < MAX_FDS
    ensures var s1 := Redirected(s, p, k, to);
      && p in s1.fds && |s1.fds[p]| == MAX_FDS && (to >= 3 ==> s1.fds[p][k] == s.fds[p][to])
      && Redirected(s1, p, k, k) == s
  {
    var s1 := Redirected(s, p, k, to);
    assert s1.fds[p][k := k] == s.fds[p];
    assert Set(s1.fds, p, k, k) == s.fds;
  }

  // ---------- fork and the child's exit ----------

  lemma ForkExitSlot(s: Tab, p: nat, c: nat, g: int)
    requires Sound(s) && p in s.fds && c !in s.fds && |s.fds[p]| == MAX_FDS && 3 <= g < MAX_FILE_OPEN
    ensures var t := Forked(s, p, c);
      && Sound(t) && Shaped(t.fds) && |t.slots| == MAX_FILE_OPEN == |s.slots| && |Exited(t, c).slots| == MAX_FILE_OPEN
      && (Exited(t, c).slots[g] == s.slots[g] <==> s.slots[g] != File || Uses(s.fds[p], g, MAX_FDS) == {})
  {
    var t := Forked(s, p, c);
    SoundIs(s);
    Lengths(s.slots, s.fds);
    ForkSound(s, p, c);
    ForkedIs(s, p, c);
    BumpsCount(s.slots, s.fds[p], MAX_FDS, g);
    ExitCount(t, c, g);
    SoundShaped(t);
    ExitedSlots(t, c);
    InUseAll(s, p, g);
    CountIs(s.slots, s.fds, g);
    hide Sound, Counts, PagesOk, Bumps, Exited, Forked, Uses, Refs, Shaped;
  }

  /** A slot that a process has a descriptor of is not empty, and a pipe counts at least one. */
  lemma InUseAll(s: Tab, p: nat, g: int)
    requires Sound(s) && p in s.fds && |s.fds[p]| == MAX_FDS && 3 <= g < MAX_FILE_OPEN
    ensures |s.slots| == MAX_FILE_OPEN && (s.slots[g].Pipe? ==> s.slots[g].pos >= 1)
    ensures s.slots[g] == Empty ==> Uses(s.fds[p], g, MAX_FDS) == {}
  {
    Lengths(s.slots, s.fds);
    CountIs(s.slots, s.fds, g);
    assert CountOk(s.slots[g], Refs(s.fds, g));
    if s.slots[g] == Empty {
      var r := UsesAreRefs(s.fds, p, g, MAX_FDS);
      assert r == {};
    }
    hide Refs, Counts, PagesOk;
    assert s.slots[g].Pipe? ==> |Refs(s.fds, g)| != 0;
  }

  /** The pages that are given back while the child of a fork closes its descriptors: none. */
  lemma {:induction false} ForkFreesNone(s: Tab, p: nat, c: nat, k: int)
    requires Sound(s) && p in s.fds && c !in s.fds && |s.fds[p]| == MAX_FDS && 3 <= k <= MAX_FDS
    ensures var t := Forked(s, p, c);
      && Shaped(t.fds) && |t.slots| == MAX_FILE_OPEN
      && Drained(t, c, k).freed == s.freed && Drained(t, c, k).at == s.at && Drained(t, c, k).next == s.next
    decreases k
  {
    var t := Forked(s, p, c);
    ForkSound(s, p, c);
    ForkedIs(s, p, c);
    SoundShaped(t);
    DrainedIs(t, c, k);
    if k > 3 {
      ForkFreesNone(s, p, c, k - 1);
      StillTwo(s, p, c, k - 1);
      hide Sound, Forked, Drained, Shaped, Bumps;
    }
  }

  /** Each pipe the child closes is still open in the parent. */
  lemma StillTwo(s: Tab, p: nat, c: nat, k: int)
    requires Sound(s) && p in s.fds && c !in s.fds && |s.fds[p]| == MAX_FDS && 3 <= k < MAX_FDS
    ensures var t := Forked(s, p, c);
      && Shaped(t.fds) && |t.slots| == MAX_FILE_OPEN
      && var u := Drained(t, c, k);
         u.fds[c][k] == NO_FD || (3 <= u.fds[c][k] < MAX_FILE_OPEN && FreedBy(u.slots[u.fds[c][k]]) == {})
  {
    var t := Forked(s, p, c);
    ForkSound(s, p, c);
    ForkedIs(s, p, c);
    SoundIs(s);
    SoundShaped(t);
    SoundShaped(s);
    ShapedIs(s.fds, p);
    hide Sound, Forked, Drained, Shaped, Bumps, Uses, Refs, Counts, PagesOk;
    DrainedRest(t, c, k);
    var g := s.fds[p][k];
    if g != NO_FD {
      BumpsCount(s.slots, s.fds[p], MAX_FDS, g);
      InUseAll(s, p, g);
      UsesGrow(s.fds[p], g, k);
      DrainCount(t, c, k, g);
    }
  }

  lemma {:induction false} UsesGrowTo(table: seq<int>, g: int, k: int, l: int)
    requires |table| == MAX_FDS && 3 <= k <= l <= MAX_FDS
    ensures |Uses(table, g, k)| <= |Uses(table, g, l)|
    decreases l
  {
    if k < l {
      UsesGrowTo(table, g, k, l - 1);
      UsesMore(table, l - 1, g);
    }
  }

  lemma UsesGrow(table: seq<int>, g: int, k: int)
    requires |table| == MAX_FDS && 3 <= k < MAX_FDS && table[k] == g
    ensures |Uses(table, g, k)| < |Uses(table, g, MAX_FDS)|
  {
    UsesMore(table, k, g);
    UsesGrowTo(table, g, k + 1, MAX_FDS);
  }

  /** A fork followed by the exit of the child leaves the tables as they were if and only if the parent has no
      regular file open: the slot of such a file is then empty although the parent still refers to it. */
  lemma ForkThenExit(s: Tab, p: nat, c: nat)
    requires Sound(s) && p in s.fds && c !in s.fds && |s.fds[p]| == MAX_FDS
    ensures var t := Forked(s, p, c);
      && Shaped(t.fds) && |t.slots| == MAX_FILE_OPEN && (Exited(t, c) == s <==> !HoldsFile(s.slots, s.fds[p]))
  {
    var t := Forked(s, p, c);
    ForkFreesNone(s, p, c, MAX_FDS);
    ForkedIs(s, p, c);
    ExitedIs(t, c);
    var e := Exited(t, c);
    FdsBack(s, p, c);
    hide Sound, Exited, Drained, Forked, Bumps, Shaped;
    LowSlots(s, p, c);
    forall g | 3 <= g < MAX_FILE_OPEN
      ensures |s.slots| == |e.slots| == MAX_FILE_OPEN
      ensures e.slots[g] == s.slots[g] <==> s.slots[g] != File || Uses(s.fds[p], g, MAX_FDS) == {}
    {
      ForkExitSlot(s, p, c, g);
    }
    assert |e.slots| == |s.slots| by { ForkExitSlot(s, p, c, 3); }
    if HoldsFile(s.slots, s.fds[p]) {
      var k :| 3 <= k < MAX_FDS && 3 <= s.fds[p][k] < |s.slots| && s.slots[s.fds[p][k]] == File;
      assert k in Uses(s.fds[p], s.fds[p][k], MAX_FDS);
    } else {
      forall g | 3 <= g < MAX_FILE_OPEN ensures e.slots[g] == s.slots[g] {
        HeldFile(s.slots, s.fds[p], g);
      }
      assert e.slots == s.slots;
    }
  }

  lemma HeldFile(slots: seq<Slot>, table: seq<int>, g: int)
    requires |table| == MAX_FDS && 3 <= g < |slots|
    ensures slots[g] == File && Uses(table, g, MAX_FDS) != {} ==> HoldsFile(slots, table)
  {
    if k :| k in Uses(table, g, MAX_FDS) && slots[g] == File {
      assert table[k] == g;
    }
  }

  lemma FdsBack(s: Tab, p: nat, c: nat)
    requires Sound(s) && p in s.fds && c !in s.fds && |s.fds[p]| == MAX_FDS
    ensures var t := Forked(s, p, c); Shaped(t.fds) && |t.slots| == MAX_FILE_OPEN && Exited(t, c).fds == s.fds
  {
    var t := Forked(s, p, c);
    ForkSound(s, p, c);
    SoundShaped(t);
    hide Sound, Shaped, Bumps;
    var u := Drained(t, c, MAX_FDS);
    assert u.fds - {c} == t.fds - {c} == s.fds;
  }

  /** Slots below 3 are neither counted nor closed. */
  lemma LowSlots(s: Tab, p: nat, c: nat)
    requires Sound(s) && p in s.fds && c !in s.fds && |s.fds[p]| == MAX_FDS
    ensures var t := Forked(s, p, c);
      && Shaped(t.fds) && |t.slots| == MAX_FILE_OPEN == |s.slots|
      && forall g :: 0 <= g < 3 ==> Exited(t, c).slots[g] == s.slots[g]
  {
    var t := Forked(s, p, c);
    ForkSound(s, p, c);
    SoundShaped(t);
    SoundShaped(s);
    ForkedIs(s, p, c);
    ExitedIs(t, c);
    hide Sound, Forked, Exited, Drained, Bumps;
    forall g | 0 <= g < 3 ensures Exited(t, c).slots[g] == s.slots[g] {
      DrainLow(t, c, MAX_FDS, g);
      LowBumps(s.slots, s.fds, p, g, MAX_FDS);
    }
  }

  lemma {:induction false} DrainLow(s: Tab, p: nat, k: int, g: int)
    requires p in s.fds && Shaped(s.fds) && |s.slots| == MAX_FILE_OPEN && 3 <= k <= MAX_FDS && 0 <= g < 3
    ensures Drained(s, p, k).slots[g] == s.slots[g]
    decreases k
  {
    DrainedIs(s, p, k);
    if k > 3 {
      DrainLow(s, p, k - 1, g);
      ShapedIs(s.fds, p);
      DrainedRest(s, p, k - 1);
      hide Drained, Shaped;
    }
  }

  lemma {:induction false} LowBumps(slots: seq<Slot>, fds: Fds, p: nat, g: int, k: int)
    requires Shaped(fds) && p in fds && 0 <= g < 3 && g < |slots| && |fds[p]| == MAX_FDS && 3 <= k <= MAX_FDS
    ensures Bumps(slots, fds[p], k)[g] == slots[g]
    decreases k
  {
    if k > 3 {
      LowBumps(slots, fds, p, g, k - 1);
    }
  }

  // ---------- the shell's pipeline ----------

  /** pipe, standard output and input redirected to it and back, and both its descriptors closed. */
  ghost function Pipeline(s: Tab, p: nat, g: int, k: int, l: int): (s': Tab)
    requires p in s.fds && |s.fds[p]| == MAX_FDS && 3 <= g < |s.slots| && 3 <= k < l < MAX_FDS
  {
    var s1 := NewPipe(s, p, g, k, l);
    var s2 := Redirected(Redirected(s1, p, 1, l), p, 0, k);
    var s3 := Redirected(Redirected(s2, p, 1, 1), p, 0, 0);
    CloseFd(CloseFd(s3, p, k), p, l)
  }

  lemma BackToPipe(s: Tab, p: nat, k: int, l: int)
    requires p in s.fds && |s.fds[p]| == MAX_FDS && s.fds[p][0] == 0 && s.fds[p][1] == 1 && 3 <= k < l < MAX_FDS
    ensures Redirected(Redirected(Redirected(Redirected(s, p, 1, l), p, 0, k), p, 1, 1), p, 0, 0) == s
  {
    var t := s.fds[p];
    assert t[1 := t[l]][0 := t[k]][1 := 1][0 := 0] == t;
    assert s.fds[p := t] == s.fds;
  }

  /** While it runs, what is written to descriptor 1 and read from descriptor 0 goes through the pipe; at the end
      every descriptor and every slot is as before, and the page of the pipe has been given back. */
  lemma PipelineRestores(s: Tab, p: nat, g: int, k: int, l: int)
    requires FirstTwo(s.fds, p, k, l) && l != -1 && 3 <= g < |s.slots| && s.slots[g] == Empty
    requires s.fds[p][0] == 0 && s.fds[p][1] == 1
    ensures var s2 := Redirected(Redirected(NewPipe(s, p, g, k, l), p, 1, l), p, 0, k);
      s2.fds[p][0] == s2.fds[p][1] == g && s2.slots[g].Pipe?
    ensures var s' := Pipeline(s, p, g, k, l);
      && s'.fds == s.fds && s'.slots == s.slots && s'.freed == s.freed + {s.next}
  {
    var s1 := NewPipe(s, p, g, k, l);
    var t := s.fds[p];
    assert s1.fds[p] == t[k := g][l := g];
    assert t[k := g][l := g][k := NO_FD][l := NO_FD] == t;
    BackToPipe(s1, p, k, l);
    var s3 := CloseFd(s1, p, k);
    assert s3.slots[g] == Pipe(s.next, 1);
    var s4 := CloseFd(s3, p, l);
    assert s4.slots == s.slots;
    assert s4.fds == s.fds[p := t] == s.fds;
  }
}
