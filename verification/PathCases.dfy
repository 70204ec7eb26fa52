/** Short sequences of calls on a fresh partition, as concrete cases of what goes wrong: sys_unlink of a
    path that leads through a regular file, sys_rmdir of ".", and sys_rmdir of a working directory. */
module PathCases {
  import opened Words
  import opened Bitmaps
  import opened Partitions
  import opened DirData
  import opened NewDirs
  import opened DirTree
  import opened FsState
  import opened FileSystem
  import opened Accounting
  import opened Paths
  import opened PathWalk
  import opened PathOps
  import opened PathLaws
  import opened DotRemoval
  import opened Getcwd

  const NAME_A: Str := [97]
  const NAME_B: Str := [98]
  const SLASH_A: Str := [47, 97]                 // "/a"
  const SLASH_A_B: Str := [47, 97, 47, 98]       // "/a/b"
  const SLASH_A_DOT: Str := [47, 97, 47, 46]     // "/a/."

  /** A path of one or two names of one character. */
  lemma TwoNames(x: Byte, y: Byte)
    requires x != SLASH && y != SLASH
    ensures Components([SLASH, x]) == [[x]]
    ensures Components([SLASH, x, SLASH, y]) == [[x], [y]]
  {
    OneName(x, []);
    OneName(x, [SLASH, y]);
    OneName(y, []);
    assert [SLASH, x] + [] == [SLASH, x] && [SLASH, y] + [] == [SLASH, y];
    assert [SLASH, x] + [SLASH, y] == [SLASH, x, SLASH, y];
    assert [[x]] + [[y]] == [[x], [y]];
    assert Components([]) == [];
    hide Components;
  }

  lemma OneName(x: Byte, rest: Str)
    requires x != SLASH && (rest != [] ==> rest[0] == SLASH)
    ensures Components([SLASH, x] + rest) == [[x]] + Components(rest)
  {
    var s := [SLASH, x] + rest;
    var t := [x] + rest;
    assert s[1..] == t && t[1..] == rest;
    assert SkipSlashes(s) == SkipSlashes(t) == t;
    assert FirstName(rest) == [];
    assert FirstName(t) == [x] + FirstName(rest) == [x];
    assert t[1..] == rest;
  }

  lemma CasePaths()
    ensures Components(SLASH_A) == [NAME_A] && GoodPath(SLASH_A) && SLASH_A[1] != SLASH
    ensures Components(SLASH_A_B) == [NAME_A, NAME_B] && GoodPath(SLASH_A_B)
    ensures Components(SLASH_A_DOT) == [NAME_A, DOT] && GoodPath(SLASH_A_DOT)
  {
    TwoNames(97, 98);
    TwoNames(97, 46);
    hide Components;
  }

  /** Only the root. */
  lemma BareWalk(t: Tree)
    requires t == RootTree()
    ensures Ends(t, SLASH_A) == Trip(Missing, 0, 1) && FreePlace(t, SLASH_A) && LastSeen(t, SLASH_A) == NAME_A
    ensures Spot(0, NAME_A) !in t.link && !DotName(NAME_A)
  {
    CasePaths();
    hide Components;
  }

  /** "/a" is a regular file. */
  lemma FileWalk(t: Tree, x: nat)
    requires x > 0 && t == WithChild(RootTree(), 0, Entry(NAME_A, x, FT_REGULAR))
    ensures Ends(t, SLASH_A_B) == Trip(FoundFile(x), 0, 1) && LastSeen(t, SLASH_A_B) == NAME_A
    ensures Spot(0, NAME_A) in t.link && t.link[Spot(0, NAME_A)] == Entry(NAME_A, x, FT_REGULAR) && !DotName(NAME_A)
    ensures NamesFile(t, SLASH_A, x) && !NamesFile(t, SLASH_A_B, x) && FileOnTheWay(t, SLASH_A_B)
  {
    CasePaths();
    hide Components;
    assert Lookup(t, 0, NAME_A) == FoundFile(x);
    assert [NAME_A, NAME_B][..1] == [NAME_A] && [NAME_A][..0] == [];
    assert Resolve(t, [NAME_A]) == FoundFile(x) && Resolve(t, []) == FoundDir(0);
    assert Resolve(t, Components(SLASH_A_B)[..1]).FoundFile?;
  }

  /** "/a" is a directory. */
  lemma DirWalk(t: Tree, x: nat)
    requires x > 0 && t == WithChild(RootTree(), 0, Entry(NAME_A, x, FT_DIRECTORY))
    ensures Ends(t, SLASH_A_DOT) == Trip(FoundDir(x), x, 2) && LastSeen(t, SLASH_A_DOT) == DOT
    ensures x in t.dirs && forall s :: s in t.link ==> s.dir != x
  {
    CasePaths();
    hide Components;
    var cs := [NAME_A, DOT];
    assert Lookup(t, 0, NAME_A) == FoundDir(x) && Lookup(t, x, DOT) == FoundDir(x);
    assert cs[1..] == [DOT] && [DOT][1..] == [];
    assert Walk(t, x, 0, [DOT], 1) == Walk(t, x, x, [], 2);
    assert Walk(t, 0, 0, cs, 0) == Walk(t, x, 0, [DOT], 1);
  }

  /** A fresh partition has room for an entry and for a directory. */
  lemma FreshRoom(start: nat, blocks: nat)
    requires 0 < start && 3 <= blocks
    ensures var w := FormattedWorld(start, blocks);
      && w.tree == RootTree() && !Crowded(w, 0) && !NoRoomForFile(w, 0) && !NoRoomForDir(w, 0)
  {
    var w := FormattedWorld(start, blocks);
    DotsCount(0, 0);
    var none := seq(blocks, _ => false);
    NoneSet(none);
    CountUpdate(none, 0, true);
    assert none[0 := true] == seq(blocks, k => k == 0);
    assert w.ibits == seq(4096, k => k == 0);
    assert !w.ibits[1];
    hide LiveList, DotsGrid, Count, DotsSector, NeedsNewBlock;
    assert w.v.bits == seq(blocks, k => k == 0);
    assert Free(w.v.bits) == blocks - 1;
  }

  lemma MadeFile(w: World, w': World, r: Outcome)
    requires w.tree == RootTree() && PathCreates(w, w', SLASH_A, r) && !Crowded(w, 0) && !NoRoomForFile(w, 0)
    ensures r.Done? && r.ino > 0 && FsOk(w') && 0 in w.tree.depth
    ensures w'.tree == WithChild(w.tree, 0, Entry(NAME_A, r.ino, FT_REGULAR))
  {
    CasePaths();
    BareWalk(w.tree);
    hide FsOk, FreePlace, Ends, Components, LastSeen, Crowded, NoRoomForFile, FreshIno, WithChild;
  }

  lemma MadeDir(w: World, w': World, r: Outcome)
    requires w.tree == RootTree() && PathMakesDir(w, w', SLASH_A, r) && !Crowded(w, 0) && !NoRoomForDir(w, 0)
    ensures r.Done? && r.ino > 0 && FsOk(w') && 0 in w.tree.depth
    ensures w'.tree == WithChild(w.tree, 0, Entry(NAME_A, r.ino, FT_DIRECTORY))
  {
    BareWalk(w.tree);
    hide FsOk, FreePlace, Ends, Components, LastSeen, Crowded, NoRoomForDir, FreshIno, WithChild;
  }

  lemma UnlinkedOther(w: World, w': World, x: nat, r: Outcome)
    requires FsOk(w) && x > 0 && w.tree == WithChild(RootTree(), 0, Entry(NAME_A, x, FT_REGULAR))
    requires PathUnlinks(w, w', SLASH_A_B, {}, r)
    ensures r == Done(x) && x !in w'.tree.files
  {
    hide *;
    CasePaths();
    FileWalk(w.tree, x);
    PathUnlinkIs(w, w', SLASH_A_B, {}, r);
    FileUnlinked(w, w', 0, NAME_A, x, r);
  }

  lemma FileUnlinked(w: World, w': World, p: nat, n: Str, x: nat, r: Outcome)
    requires Unlinks(w, w', p, n, {}, r) && !DotName(n)
    requires Spot(p, n) in w.tree.link && w.tree.link[Spot(p, n)] == Entry(n, x, FT_REGULAR)
    ensures r == Done(x) && x !in w'.tree.files
  {
    hide Gone;
    if r.Done? {
      GoneParts(w, w', p, n, r.ino);
    }
  }

  lemma RemovedDot(w: World, w': World, x: nat, r: Outcome)
    requires FsOk(w) && x > 0 && w.tree == WithChild(RootTree(), 0, Entry(NAME_A, x, FT_DIRECTORY))
    requires PathRemovesDir(w, w', SLASH_A_DOT, r)
    ensures r == Done(x) && Dangling(w, w', x) && !FsOk(w')
  {
    hide *;
    CasePaths();
    DirWalk(w.tree, x);
    PathRmdirIs(w, w', SLASH_A_DOT, r);
    DotGone(w, w', x, r);
    RmdirSound(w, w', x, DOT, x);
  }

  lemma DotGone(w: World, w': World, x: nat, r: Outcome)
    requires RemovesDir(w, w', x, DOT, r) && x > 0 && forall s :: s in w.tree.link ==> s.dir != x
    ensures r == Done(x) && Dangling(w, w', x)
  {
    hide Dangling;
  }

  /** On a fresh partition: sys_open creates "/a", and sys_unlink of "/a/b" then removes "/a". */
  method FileInTheWay(start: nat, blocks: nat) returns (made: Outcome, gone: Outcome, ghost w: World, ghost w': World)
    requires 0 < start && 3 <= blocks && start + blocks <= U32_LIMIT
    ensures FsOk(w) && PathUnlinks(w, w', SLASH_A_B, {}, gone) && made.Done? && gone == made
    ensures FileOnTheWay(w.tree, SLASH_A_B) && NamesFile(w.tree, SLASH_A, made.ino)
    ensures !NamesFile(w.tree, SLASH_A_B, made.ino) && made.ino !in w'.tree.files
  {
    hide *;
    CasePaths();
    FreshRoom(start, blocks);
    var m := new Mounted(start, blocks);
    ghost var w0 := m.W();
    made := SysCreate(m, SLASH_A);
    w := m.W();
    MadeFile(w0, w, made);
    FileWalk(w.tree, made.ino);
    gone := SysUnlink(m, SLASH_A_B, {});
    w' := m.W();
    UnlinkedOther(w, w', made.ino, gone);
  }

  /** On a fresh partition: sys_mkdir makes "/a", sys_rmdir of "/a/." releases it and leaves its name,
      and the file system is no longer sound. */
  method DotRemoved(start: nat, blocks: nat) returns (made: Outcome, gone: Outcome, ghost w: World, ghost w': World)
    requires 0 < start && 3 <= blocks && start + blocks <= U32_LIMIT
    ensures FsOk(w) && made.Done? && gone == made && Dangling(w, w', made.ino) && !FsOk(w')
  {
    hide *;
    CasePaths();
    FreshRoom(start, blocks);
    var m := new Mounted(start, blocks);
    ghost var w0 := m.W();
    made := SysMkdir(m, SLASH_A);
    w := m.W();
    MadeDir(w0, w, made);
    gone := SysRmdir(m, SLASH_A_DOT);
    w' := m.W();
    RemovedDot(w, w', made.ino, gone);
  }

  lemma DirHere(t: Tree, x: nat)
    requires x > 0 && t == WithChild(RootTree(), 0, Entry(NAME_A, x, FT_DIRECTORY))
    ensures Ends(t, SLASH_A) == Trip(FoundDir(x), 0, 1) && LastSeen(t, SLASH_A) == NAME_A
    ensures Spot(0, NAME_A) in t.link && t.link[Spot(0, NAME_A)] == Entry(NAME_A, x, FT_DIRECTORY) && !DotName(NAME_A)
  {
    CasePaths();
    hide Components;
    assert Lookup(t, 0, NAME_A) == FoundDir(x);
    assert [NAME_A][1..] == [];
  }

  lemma MovedThere(t: Tree, x: nat, cwd: int, ret: int, cwd': int)
    requires x > 0 && t == WithChild(RootTree(), 0, Entry(NAME_A, x, FT_DIRECTORY))
    requires Chdirs(t, cwd, SLASH_A, 0, ret, cwd')
    ensures ret == 0 && cwd' == x && x in t.dirs
  {
    CasePaths();
    DirHere(t, x);
    hide Components, Walk;
  }

  lemma RemovedHere(w: World, w': World, x: nat, r: Outcome)
    requires FsOk(w) && x > 0 && w.tree == WithChild(RootTree(), 0, Entry(NAME_A, x, FT_DIRECTORY))
    requires PathRemovesDir(w, w', SLASH_A, r)
    ensures r == Done(x) && FsOk(w') && x !in w'.tree.dirs
  {
    hide *;
    CasePaths();
    DirHere(w.tree, x);
    DirWalk(w.tree, x);
    PathRmdirIs(w, w', SLASH_A, r);
    DirRemoved(w, w', 0, NAME_A, x, r);
  }

  lemma DirRemoved(w: World, w': World, p: nat, n: Str, x: nat, r: Outcome)
    requires RemovesDir(w, w', p, n, r) && !DotName(n) && forall s :: s in w.tree.link ==> s.dir != x
    requires Spot(p, n) in w.tree.link && w.tree.link[Spot(p, n)] == Entry(n, x, FT_DIRECTORY)
    ensures r == Done(x) && FsOk(w') && x !in w'.tree.dirs
  {
    hide Gone, FsOk;
    if r.Done? {
      GoneParts(w, w', p, n, r.ino);
    }
  }

  /** A new process goes to "/a". */
  method GoThere(m: Mounted, ghost x: nat) returns (cwd: int)
    requires FsOk(m.W()) && x > 0 && m.W().tree == WithChild(RootTree(), 0, Entry(NAME_A, x, FT_DIRECTORY))
    ensures cwd == x && x in m.W().tree.dirs
  {
    hide *;
    CasePaths();
    GoodPathIs(SLASH_A);
    var p := new Process();
    var ret := p.Chdir(m, SLASH_A, 0);
    cwd := p.cwd;
    MovedThere(m.W().tree, x, 0, ret, cwd);
  }

  /** On a fresh partition: a process makes "/a", goes there, and sys_rmdir of "/a" takes the directory
      away under it. */
  method CwdRemoved(start: nat, blocks: nat) returns (gone: Outcome, cwd: nat, ghost w: World, ghost w': World)
    requires 0 < start && 3 <= blocks && start + blocks <= U32_LIMIT
    ensures FsOk(w) && FsOk(w') && gone == Done(cwd) && cwd in w.tree.dirs && cwd !in w'.tree.dirs
  {
    hide *;
    CasePaths();
    FreshRoom(start, blocks);
    var m := new Mounted(start, blocks);
    ghost var w0 := m.W();
    var made := SysMkdir(m, SLASH_A);
    w := m.W();
    MadeDir(w0, w, made);
    cwd := GoThere(m, made.ino);
    gone := SysRmdir(m, SLASH_A);
    w' := m.W();
    RemovedHere(w, w', made.ino, gone);
  }
}
