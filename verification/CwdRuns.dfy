/** The working directory over whole runs: sys_rmdir does not ask whether the directory it removes is
    some process's working directory, so that cwd_inode_nr stays a directory only in some runs. */
module CwdRuns {
  import opened Words
  import opened DirData
  import opened DirTree
  import FsState
  import opened FileSystem
  import opened DotRemoval
  import opened Paths
  import opened PathWalk
  import opened PathOps
  import opened PathLaws
  import opened FsRuns
  import opened Getcwd

  type World = FsState.World

  // ---------- what sys_rmdir takes away ----------

  /** The path leads, by its own name or by ".", to directory d, which has no children and is not the root. */
  ghost predicate TakesAway(t: Tree, path: Str, d: int) {
    && Ends(t, path).found.FoundDir? && Ends(t, path).found.ino == d && d != 0
    && forall s :: s in t.link ==> s.dir != d
  }

  lemma NowhereAtAll(t: Tree, path: Str)
    requires Components(path) == []
    ensures Ends(t, path) == Trip(FoundDir(0), 0, 0)
  {
    hide Components;
  }

  /** ".." leads to a directory with children, or to the root. */
  lemma UpHasChild(t: Tree, p: nat)
    requires TreeOk(t) && p in t.dirs && ParentOf(t, p) != 0
    ensures exists s :: s in t.link && s.dir == ParentOf(t, p)
  {
    DirParent(t, p);
    hide LinksKnown, Deeper;
    assert t.ref[p] in t.link;
  }

  lemma NamedNotRoot(t: Tree, s: Spot)
    requires TreeOk(t) && s in t.link
    ensures t.link[s].ino != 0
  {
    hide RefsReal, Deeper;
  }

  /** Unless the path ends in ".", the empty directory it leads to is there by its own name. */
  lemma TakenByName(t: Tree, path: Str, d: int)
    requires TreeOk(t) && !DotLast(path)
    ensures TakesAway(t, path, d) <==> EmptyAt(t, path) && Ends(t, path).found.ino == d
  {
    if Components(path) == [] {
      NowhereAtAll(t, path);
    } else {
      EndsWhere(t, path);
      hide TreeOk, Ends, Components;
      var p, n := Ends(t, path).parent, LastSeen(t, path);
      if Ends(t, path).found.FoundDir? {
        assert n != DOT;
        if n == DOTDOT && ParentOf(t, p) != 0 {
          UpHasChild(t, p);
        }
        if !FsState.DotName(n) {
          NamedNotRoot(t, Spot(p, n));
        }
      }
    }
  }

  /** By "." it is the directory in which "." was looked up. */
  lemma TakenByDot(t: Tree, path: Str)
    requires TreeOk(t) && DotLast(path)
    ensures 0 < Ends(t, path).seen <= |Components(path)|
    ensures Ends(t, path).found.FoundDir? ==>
      LastSeen(t, path) == DOT && Ends(t, path).found.ino == Ends(t, path).parent
  {
    EndsWhere(t, path);
    hide TreeOk, Ends, Components;
  }

  lemma DotTaken(w: World, w': World, path: Str, r: Outcome)
    requires FsState.FsOk(w) && DotLast(path) && PathRemovesDir(w, w', path, r) && r != Stopped
    ensures r.Done? ==> TakesAway(w.tree, path, r.ino) && Dangling(w, w', r.ino) && !FsState.FsOk(w')
    ensures !r.Done? ==> r == Refused && w' == w && forall d :: !TakesAway(w.tree, path, d)
  {
    hide *;
    FsState.FsParts(w);
    HasNames(path);
    TakenByDot(w.tree, path);
    PathRmdirIs(w, w', path, r);
    FoundByName(w, path);
    var p, n, f := Ends(w.tree, path).parent, LastSeen(w.tree, path), Ends(w.tree, path).found;
    EndsIn(w.tree, path);
    IsFileIs(w, p, n);
    if f == Missing {
      NotTaken(w.tree, path);
    } else if f.FoundFile? {
      NotTaken(w.tree, path);
      FileRefused(w, w', p, n, r);
    } else {
      DotRefused(w, w', p, r);
      TakesIs(w.tree, path, p);
      ChildlessIs(w, p);
      if r.Done? {
        RmdirSound(w, w', p, DOT, p);
      }
    }
  }

  lemma HasNames(path: Str)
    requires DotLast(path)
    ensures Components(path) != []
  {
    hide Components;
  }

  lemma EndsIn(t: Tree, path: Str)
    requires TreeOk(t) && Components(path) != []
    ensures Ends(t, path).parent in t.dirs
  {
    EndsWhere(t, path);
    hide TreeOk, Ends, Components;
  }

  lemma NotTaken(t: Tree, path: Str)
    requires !Ends(t, path).found.FoundDir?
    ensures forall d :: !TakesAway(t, path, d)
  {
    hide Ends;
  }

  lemma TakesIs(t: Tree, path: Str, p: nat)
    requires Ends(t, path).found == FoundDir(p)
    ensures forall d :: TakesAway(t, path, d) <==> d == p && p != 0 && forall s :: s in t.link ==> s.dir != p
  {
    hide Ends;
  }

  lemma FileRefused(w: World, w': World, p: nat, n: Str, r: Outcome)
    requires RemovesDir(w, w', p, n, r) && r != Stopped && IsFile(w, p, n) && !FsState.DotName(n)
    ensures r == Refused && w' == w
  {
    hide Gone, DotTarget, Dangling, Childless;
  }

  lemma DotRefused(w: World, w': World, p: nat, r: Outcome)
    requires RemovesDir(w, w', p, DOT, r) && r != Stopped
    ensures r.Done? ==> r.ino == p && p != 0 && Childless(w, p) && Dangling(w, w', p)
    ensures !r.Done? ==> r == Refused && w' == w && p != 0 && !Childless(w, p)
  {
    hide Gone, Dangling, Childless;
  }

  /** Every sys_rmdir of a sound file system that does not stop the kernel, exactly: the inode of a
      directory is live afterwards if and only if the path does not lead, by name or by ".", to it while
      it has no children. */
  lemma RmdirTakes(w: World, w': World, path: Str, r: Outcome, d: nat)
    requires FsState.FsOk(w) && GoodPath(path) && PathRemovesDir(w, w', path, r) && r != Stopped && d in w.tree.dirs
    ensures d in w'.v.inodes <==> !TakesAway(w.tree, path, d)
  {
    hide *;
    FsState.FsParts(w);
    LiveDirs(w, d);
    if DotLast(path) {
      DotTaken(w, w', path, r);
      if r.Done? {
        DanglingInodes(w, w', r.ino);
        OneTaken(w.tree, path, r.ino, d);
      }
    } else {
      RmdirGood(path);
      NoBeyond(w, w', path, r);
      RmdirEffect(w, w', path, r);
      RmdirDirs(w, w', path, r);
      TakenByName(w.tree, path, d);
      LiveDirs(w', d);
    }
  }

  /** It stops the kernel exactly when the path leads to the root. */
  lemma RmdirStops(w: World, w': World, path: Str, r: Outcome)
    requires FsState.FsOk(w) && PathRemovesDir(w, w', path, r)
    ensures r == Stopped <==> Ends(w.tree, path).found == FoundDir(0)
  {
    hide *;
    PathRmdirIs(w, w', path, r);
    if Components(path) == [] {
      NowhereAtAll(w.tree, path);
    } else {
      FsState.FsParts(w);
      FoundByName(w, path);
      EndsIn(w.tree, path);
      DotFound(w.tree, path);
      if Ends(w.tree, path).found != Missing {
        StopsAtRoot(w, w', Ends(w.tree, path).parent, LastSeen(w.tree, path), r);
      }
    }
  }

  lemma DotFound(t: Tree, path: Str)
    requires TreeOk(t) && Components(path) != [] && 0 < Ends(t, path).seen <= |Components(path)|
    ensures var p, n := Ends(t, path).parent, LastSeen(t, path);
      FsState.DotName(n) ==> Ends(t, path).found == FoundDir(if n == DOT then p else ParentOf(t, p))
  {
    EndsWhere(t, path);
    hide TreeOk, Ends, Components;
  }

  lemma StopsAtRoot(w: World, w': World, p: nat, n: Str, r: Outcome)
    requires RemovesDir(w, w', p, n, r)
    ensures r == Stopped <==> FsState.DotName(n) && (if n == DOT then p else ParentOf(w.tree, p)) == 0
  {
    hide Gone, Dangling, Childless, ParentOf;
  }

  lemma OneTaken(t: Tree, path: Str, x: int, d: int)
    requires TakesAway(t, path, x)
    ensures TakesAway(t, path, d) <==> d == x
  {
    hide Ends;
  }

  lemma RmdirGood(path: Str)
    requires GoodPath(path) && !DotLast(path)
    ensures GoodCall(RemoveDir(path))
  {
    hide GoodPath, DotLast;
  }

  lemma NoBeyond(w: World, w': World, path: Str, r: Outcome)
    requires PathRemovesDir(w, w', path, r)
    ensures r != Beyond
  {
    hide Ends, Components, LastSeen, Gone, Dangling, Childless;
  }

  /** The live inodes are the directories and the files. */
  lemma LiveDirs(w: World, d: nat)
    requires FsState.FsOk(w)
    ensures d in w.v.inodes <==> d in w.tree.dirs || d in w.tree.files
    ensures d in w.tree.dirs ==> d !in w.tree.files
  {
    FsState.FsParts(w);
    hide FsState.FsOk, LinksKnown, RefsReal, Deeper;
  }

  lemma DanglingInodes(w: World, w': World, x: nat)
    requires Dangling(w, w', x)
    ensures w'.v.inodes == w.v.inodes - {x} && w'.tree == w.tree && w'.bytes == w.bytes
  {
  }

  /** What a sys_rmdir by name does to the directories and files. */
  lemma RmdirDirs(w: World, w': World, path: Str, r: Outcome)
    requires FsState.FsOk(w) && Changes(FsOf(w), FsOf(w'), RemoveDir(path), Did(r))
    ensures r.Done? ==> EmptyAt(w.tree, path) && r.ino == Ends(w.tree, path).found.ino
    ensures !r.Done? ==> w'.tree == w.tree && !EmptyAt(w.tree, path)
    ensures r.Done? ==> w'.tree.dirs == w.tree.dirs - {r.ino} && w'.tree.files == w.tree.files - {r.ino}
  {
    hide FsState.FsOk, EmptyAt, Ends, Components, LastSeen;
  }

  // ---------- runs ----------

  /** The files and names, the working directory of one process, and what sys_rmdir of "." has released
      without taking its name away. */
  datatype State = State(fs: Fs, cwd: int, lost: set<int>)

  /** A file-system call by whatever process, sys_rmdir of a path that ends in ".", or sys_chdir by this
      process. */
  datatype Event =
    | Calls(call: Call, ans: Answer)
    | RemovesDot(path: Str, r: Outcome)
    | Moves(path: Str, junk: int, ret: int)

  /** After a directory is released by "." the file system is not sound, and the run ends. */
  ghost predicate Does(s: State, s': State, e: Event) {
    && s.lost == {}
    && match e
       case Calls(call, ans) => Effect(s.fs, s'.fs, call, ans) && s'.cwd == s.cwd && s'.lost == {}
       case RemovesDot(path, r) =>
         && GoodPath(path) && DotLast(path)
         && (match r
             case Done(x) => TakesAway(s.fs.tree, path, x) && s' == s.(lost := {x})
             case Refused => s' == s && forall x :: !TakesAway(s.fs.tree, path, x)
             case _ => false)
       case Moves(path, junk, ret) =>
         s'.fs == s.fs && s'.lost == {} && Chdirs(s.fs.tree, s.cwd, path, junk, ret, s'.cwd)
  }

  ghost predicate Run(ss: seq<State>, es: seq<Event>) {
    |ss| == |es| + 1 && forall i :: 0 <= i < |es| ==> Does(ss[i], ss[i + 1], es[i])
  }

  /** The working directory is a directory with a live inode. */
  ghost predicate InDirectory(s: State) {
    s.cwd in s.fs.tree.dirs && s.cwd !in s.lost
  }

  /** The event takes the process out of every directory: sys_rmdir leads to the working directory, which
      is empty, or a path of slashes alone leads wherever the local variable of search_file pointed. */
  ghost predicate Strays(s: State, e: Event) {
    match e
    case Calls(call, _) => call.RemoveDir? && TakesAway(s.fs.tree, call.path, s.cwd)
    case RemovesDot(path, _) => TakesAway(s.fs.tree, path, s.cwd)
    case Moves(path, junk, _) => Nameless(path) && junk != -1 && junk !in s.fs.tree.dirs
  }

  lemma MadeDirs(a: Fs, a': Fs, path: Str, ftype: int, ino: nat)
    requires Makes(a, a', path, ftype, ino)
    ensures a'.tree.dirs == if ftype == FT_DIRECTORY then a.tree.dirs + {ino} else a.tree.dirs
  {
    hide FreePlace, Ends, Components, LastSeen, FsState.FreshIno;
  }

  lemma DroppedDirs(a: Fs, a': Fs, path: Str, x: nat)
    requires Drops(a, a', path, x)
    ensures a'.tree.dirs == a.tree.dirs - {x}
  {
    hide Ends, Components, LastSeen;
  }

  /** What one call does to the directories. */
  lemma EffectDirs(a: Fs, a': Fs, c: Call, ans: Answer)
    requires FsKept(a) && Effect(a, a', c, ans)
    ensures a'.tree.dirs ==
      if ans.Did? && ans.out.Done? && c.MakeDir? then a.tree.dirs + {ans.out.ino}
      else if ans.Did? && ans.out.Done? && c.RemoveDir? then a.tree.dirs - {ans.out.ino} else a.tree.dirs
  {
    hide TreeOk, ProperNames, Makes, Drops, EmptyAt, ReadsAt, Opens, FreePlace, Ends, Components, Lookup;
    match c {
      case MakeFile(path) => if ans.out.Done? {
        MadeDirs(a, a', path, FT_REGULAR, ans.out.ino);
        Types();
      }
      case MakeDir(path) => if ans.out.Done? {
        MadeDirs(a, a', path, FT_DIRECTORY, ans.out.ino);
      }
      case RemoveFile(path, open) => if ans.out.Done? {
        FoundIsFile(a.tree, path);
        FileNoDir(a.tree, ans.out.ino);
        DroppedDirs(a, a', path, ans.out.ino);
      }
      case RemoveDir(path) => if ans.out.Done? {
        DroppedDirs(a, a', path, ans.out.ino);
      }
      case WriteTo(path, buf) =>
      case ReadFrom(path, offset, count) =>
    }
  }

  lemma FileNoDir(t: Tree, x: nat)
    requires TreeOk(t) && x in t.files
    ensures x !in t.dirs
  {
    hide LinksKnown, RefsReal, Deeper;
  }

  lemma CallExact(s: State, s': State, call: Call, ans: Answer)
    requires FsKept(s.fs) && Does(s, s', Calls(call, ans)) && InDirectory(s)
    ensures FsKept(s'.fs) && (InDirectory(s') <==> !Strays(s, Calls(call, ans)))
  {
    EffectKeeps(s.fs, s'.fs, call, ans);
    EffectDirs(s.fs, s'.fs, call, ans);
    if call.RemoveDir? {
      TakenByName(s.fs.tree, call.path, s.cwd);
    }
    hide FsKept, TakesAway, EmptyAt, Ends, Components, Makes, Drops, Wrote, ReadsAt, Opens, FreePlace, GoodPath;
  }

  /** Every event, exactly: a process in a directory is in one afterwards unless the event strays. */
  lemma EventExact(s: State, s': State, e: Event)
    requires FsKept(s.fs) && Does(s, s', e) && InDirectory(s)
    ensures FsKept(s'.fs) && (InDirectory(s') <==> !Strays(s, e))
  {
    match e
    case Calls(call, ans) => CallExact(s, s', call, ans);
    case RemovesDot(path, r) =>
      if r.Done? {
        OneTaken(s.fs.tree, path, r.ino, s.cwd);
      }
      hide FsKept, TakesAway, Effect, Components, GoodPath;
    case Moves(path, junk, ret) =>
      hide TreeOk, ProperNames, Effect, Walk, Components, TakesAway;
      RootNames(s.fs.tree);
      if !Nameless(path) && Resolve(s.fs.tree, Components(path)).FoundDir? {
        ResolvedIsWashed(s.fs.tree, path);
      }
  }

  lemma {:induction false} RunUpTo(ss: seq<State>, es: seq<Event>, n: nat)
    requires Run(ss, es) && FsKept(ss[0].fs) && InDirectory(ss[0]) && n <= |es|
    requires forall i :: 0 <= i < n ==> !Strays(ss[i], es[i])
    ensures FsKept(ss[n].fs) && InDirectory(ss[n])
  {
    hide FsKept, InDirectory, Strays, Does;
    if n > 0 {
      RunUpTo(ss, es, n - 1);
      assert Does(ss[n - 1], ss[n - 1 + 1], es[n - 1]);
      EventExact(ss[n - 1], ss[n], es[n - 1]);
    }
  }

  /** The first straying event, if there is one. */
  lemma {:induction false} FirstStray(ss: seq<State>, es: seq<Event>, i: nat) returns (k: nat)
    requires |ss| == |es| + 1 && i < |es| && Strays(ss[i], es[i])
    ensures k <= i && Strays(ss[k], es[k]) && forall j :: 0 <= j < k ==> !Strays(ss[j], es[j])
  {
    hide Strays;
    if j :| 0 <= j < i && Strays(ss[j], es[j]) {
      k := FirstStray(ss, es, j);
    } else {
      k := i;
    }
  }

  /** Every run of calls by all processes, exactly: the process is in a live directory all along if and
      only if no sys_rmdir leads, by name or by ".", to its working directory of the moment while that is
      empty, and no path of slashes alone leads it astray. */
  lemma RunExact(ss: seq<State>, es: seq<Event>)
    requires Run(ss, es) && FsKept(ss[0].fs) && InDirectory(ss[0])
    ensures (forall n :: 0 <= n < |ss| ==> InDirectory(ss[n])) <==>
      (forall i :: 0 <= i < |es| ==> !Strays(ss[i], es[i]))
  {
    hide FsKept, InDirectory, Strays, Does;
    if i :| 0 <= i < |es| && Strays(ss[i], es[i]) {
      var k := FirstStray(ss, es, i);
      RunUpTo(ss, es, k);
      assert Does(ss[k], ss[k + 1], es[k]);
      EventExact(ss[k], ss[k + 1], es[k]);
      var n := k + 1;
      assert !InDirectory(ss[n]);
    } else {
      forall n | 0 <= n < |ss| ensures InDirectory(ss[n]) {
        RunUpTo(ss, es, n);
      }
    }
  }

  // ---------- the calls on a mounted partition ----------

  /** A file-system call, or sys_chdir of the process. */
  datatype Act = Asks(call: Call) | Goes(path: Str, junk: int)

  /** Good paths; sys_rmdir of "." is among the calls, and a path of slashes alone among the moves. */
  ghost predicate GoodAct(a: Act) {
    match a
    case Asks(c) => GoodPath(c.path) && (c.ReadFrom? ==> c.count < U32_LIMIT)
    case Goes(path, _) =>
      && 1 <= |path| < 512 && path[0] == SLASH && NoZero(path)
      && forall k :: 0 <= k < |Components(path)| ==> |Components(path)[k]| <= 15
  }

  /** The event is what became of the act. */
  ghost predicate Became(a: Act, e: Event) {
    match a
    case Asks(c) =>
      if c.RemoveDir? && DotLast(c.path) then e.RemovesDot? && e.path == c.path else e.Calls? && e.call == c
    case Goes(path, junk) => e.Moves? && e.path == path && e.junk == junk
  }

  /** The state on disk and in the process: which directories have a live inode, and that all is sound
      unless one was released by ".". */
  ghost predicate At(w: World, cwd: int, s: State) {
    && s.fs == FsOf(w) && s.cwd == cwd && (FsState.FsOk(w) <==> s.lost == {})
    && forall d :: d in w.tree.dirs ==> (d in w.v.inodes <==> d !in s.lost)
  }

  lemma SoundAt(w: World, cwd: int)
    requires FsState.FsOk(w)
    ensures At(w, cwd, State(FsOf(w), cwd, {}))
  {
    hide FsState.FsOk;
    forall d | d in w.tree.dirs ensures d in w.v.inodes {
      LiveDirs(w, d);
    }
  }

  lemma CallIs(c: Call)
    requires GoodAct(Asks(c))
    ensures GoodPath(c.path) && (!(c.RemoveDir? && DotLast(c.path)) ==> GoodCall(c))
  {
    hide GoodPath, DotLast;
  }

  lemma MoveIs(path: Str, junk: int)
    requires GoodAct(Goes(path, junk))
    ensures 1 <= |path| < 512 && path[0] == SLASH && NoZero(path)
    ensures forall k :: 0 <= k < |Components(path)| ==> |Components(path)[k]| <= 15
  {
    hide Components, NoZero;
  }

  lemma CallDoes(a: Fs, a': Fs, cwd: int, c: Call, ans: Answer)
    requires Effect(a, a', c, ans) && !(c.RemoveDir? && DotLast(c.path))
    ensures Does(State(a, cwd, {}), State(a', cwd, {}), Calls(c, ans)) && Became(Asks(c), Calls(c, ans))
  {
    hide Effect, DotLast;
  }

  lemma MoveDoes(a: Fs, cwd: int, cwd': int, path: Str, junk: int, ret: int)
    requires Chdirs(a.tree, cwd, path, junk, ret, cwd')
    ensures Does(State(a, cwd, {}), State(a, cwd', {}), Moves(path, junk, ret))
    ensures Became(Goes(path, junk), Moves(path, junk, ret))
  {
    hide Chdirs;
  }

  /** sys_rmdir of "." on disk is the event, and the inode released is the one lost. */
  lemma DotDoes(w: World, w': World, cwd: int, c: Call, r: Outcome, s: State)
    requires FsState.FsOk(w) && GoodPath(c.path) && c.RemoveDir? && DotLast(c.path)
    requires PathRemovesDir(w, w', c.path, r) && r != Stopped
    requires s == State(FsOf(w), cwd, if r.Done? then {r.ino} else {})
    ensures Does(State(FsOf(w), cwd, {}), s, RemovesDot(c.path, r)) && Became(Asks(c), RemovesDot(c.path, r))
    ensures At(w', cwd, s)
  {
    hide *;
    DotTaken(w, w', c.path, r);
    if r.Done? {
      DanglingInodes(w, w', r.ino);
      LostAt(w, w', cwd, r.ino);
    } else {
      SoundAt(w, cwd);
    }
    DotEvent(w, cwd, c, r, s);
  }

  lemma LostAt(w: World, w': World, cwd: int, x: nat)
    requires FsState.FsOk(w) && !FsState.FsOk(w')
    requires w'.v.inodes == w.v.inodes - {x} && w'.tree == w.tree && w'.bytes == w.bytes
    ensures At(w', cwd, State(FsOf(w), cwd, {x}))
  {
    hide FsState.FsOk;
    forall d | d in w.tree.dirs ensures d in w.v.inodes {
      LiveDirs(w, d);
    }
  }

  lemma DotEvent(w: World, cwd: int, c: Call, r: Outcome, s: State)
    requires GoodPath(c.path) && c.RemoveDir? && DotLast(c.path) && (r.Done? || r == Refused)
    requires r.Done? ==> TakesAway(w.tree, c.path, r.ino)
    requires !r.Done? ==> forall d :: !TakesAway(w.tree, c.path, d)
    requires s == State(FsOf(w), cwd, if r.Done? then {r.ino} else {})
    ensures Does(State(FsOf(w), cwd, {}), s, RemovesDot(c.path, r)) && Became(Asks(c), RemovesDot(c.path, r))
  {
    hide GoodPath, DotLast, TakesAway;
  }

  /** One act. */
  method Take(m: Mounted, p: Process, a: Act)
      returns (stopped: bool, broken: bool, ghost s: State, ghost e: Event)
    requires FsState.FsOk(m.W()) && GoodAct(a)
    modifies m, m.part, p
    ensures !stopped ==> Does(State(FsOf(old(m.W())), old(p.cwd), {}), s, e) && At(m.W(), p.cwd, s) && Became(a, e)
    ensures !stopped ==> (broken <==> s.lost != {})
  {
    hide *;
    broken := false;
    ghost var w, cwd := m.W(), p.cwd;
    s, e := State(FsOf(w), cwd, {}), Moves([], 0, 0);
    match a {
      case Asks(c) =>
        CallIs(c);
        if c.RemoveDir? && DotLast(c.path) {
          var r := SysRmdir(m, c.path);
          stopped, broken := r == Stopped, r.Done?;
          if !stopped {
            s, e := State(FsOf(w), cwd, if r.Done? then {r.ino} else {}), RemovesDot(c.path, r);
            DotDoes(w, m.W(), cwd, c, r, s);
          }
        } else {
          var ans := Issue(m, c);
          stopped := Stops(ans);
          if !stopped {
            s, e := State(FsOf(m.W()), cwd, {}), Calls(c, ans);
            SoundAt(m.W(), cwd);
            CallDoes(FsOf(w), FsOf(m.W()), cwd, c, ans);
          }
        }
      case Goes(path, junk) =>
        MoveIs(path, junk);
        var ret := p.Chdir(m, path, junk);
        stopped := false;
        s, e := State(FsOf(w), p.cwd, {}), Moves(path, junk, ret);
        SoundAt(w, p.cwd);
        FsIs(w);
        MoveDoes(FsOf(w), cwd, p.cwd, path, junk, ret);
    }
  }

  lemma FsIs(w: World)
    ensures FsOf(w).tree == w.tree
  {
  }

  /** Any list of acts on the disk, until the kernel stops or a directory is released by ".": a run of the
      events above, so that the process is in a live directory all along if and only if none of them
      strays; at the end that is what the disk and cwd_inode_nr say. */
  method Follow(m: Mounted, p: Process, acts: seq<Act>)
      returns (stopped: bool, ghost ss: seq<State>, ghost es: seq<Event>)
    requires FsState.FsOk(m.W()) && FsKept(FsOf(m.W())) && p.cwd in m.W().tree.dirs
    requires forall k :: 0 <= k < |acts| ==> GoodAct(acts[k])
    modifies m, m.part, p
    ensures Run(ss, es) && |ss| == |es| + 1 && |es| <= |acts| && ss[0] == State(FsOf(old(m.W())), old(p.cwd), {})
    ensures forall k :: 0 <= k < |es| ==> Became(acts[k], es[k])
    ensures !stopped ==> At(m.W(), p.cwd, ss[|es|]) && (|es| < |acts| ==> ss[|es|].lost != {})
    ensures (forall n :: 0 <= n < |ss| ==> InDirectory(ss[n])) <==>
      (forall i :: 0 <= i < |es| ==> !Strays(ss[i], es[i]))
    ensures !stopped ==> (InDirectory(ss[|es|]) <==> p.cwd in m.W().tree.dirs && p.cwd in m.W().v.inodes)
  {
    hide *;
    ghost var s0 := State(FsOf(m.W()), p.cwd, {});
    ss, es := [s0], [];
    SoundAt(m.W(), p.cwd);
    RunNone(s0);
    FsIs(m.W());
    var k, broken := 0, false;
    while k < |acts| && !broken
      invariant 0 <= k == |es| <= |acts| && |ss| == k + 1 && Run(ss, es) && ss[0] == s0
      invariant At(m.W(), p.cwd, ss[k]) && (broken <==> ss[k].lost != {})
      invariant forall j :: 0 <= j < k ==> Became(acts[j], es[j])
    {
      AtIs(m.W(), p.cwd, ss[k]);
      ghost var s, e;
      stopped, broken, s, e := Take(m, p, acts[k]);
      if stopped {
        RunExact(ss, es);
        return;
      }
      RunMore(ss, es, s, e);
      ss, es := ss + [s], es + [e];
      k := k + 1;
    }
    stopped := false;
    RunExact(ss, es);
    AtIs(m.W(), p.cwd, ss[k]);
  }

  lemma RunNone(s: State)
    ensures Run([s], []) && (InDirectory(s) <==> s.cwd in s.fs.tree.dirs && s.cwd !in s.lost)
  {
  }

  lemma AtIs(w: World, cwd: int, s: State)
    requires At(w, cwd, s)
    ensures s == State(FsOf(w), cwd, s.lost) && (FsState.FsOk(w) <==> s.lost == {})
    ensures InDirectory(s) <==> cwd in w.tree.dirs && cwd in w.v.inodes
  {
    hide FsState.FsOk;
  }

  lemma RunMore(ss: seq<State>, es: seq<Event>, s: State, e: Event)
    requires Run(ss, es) && |ss| == |es| + 1 && Does(ss[|es|], s, e)
    ensures Run(ss + [s], es + [e])
  {
    hide Does;
  }
}
