/** sys_chdir and sys_getcwd: the working directory of a process. */
module Getcwd {
  import opened Words
  import opened Volume
  import opened Partitions
  import opened DirData
  import opened Directories
  import opened FileIo
  import opened DirTree
  import opened FsState
  import opened FileSystem
  import opened Paths
  import opened PathWalk

  // ---------- the path built backwards ----------

  /** The names, last one first, each after a slash. */
  function Backward(st: seq<Str>): (s: Str) {
    if st == [] then [] else [SLASH] + st[|st| - 1] + Backward(st[..|st| - 1])
  }

  lemma {:induction false} BackwardFront(st: seq<Str>)
    requires st != []
    ensures Backward(st) == Backward(st[1..]) + [SLASH] + st[0]
  {
    var n := |st| - 1;
    if n == 0 {
      assert st[1..] == [] && st[..0] == [];
      assert [SLASH] + st[0] + [] == [] + [SLASH] + st[0];
    } else {
      BackwardFront(st[..n]);
      assert st[..n][1..] == st[1..][..n - 1] && st[1..][n - 1] == st[n];
      var a, b, c := [SLASH] + st[n], Backward(st[..n][1..]), [SLASH] + st[0];
      assert a + (b + c) == a + b + c;
      assert b + c == b + [SLASH] + st[0] && a + b + c == a + b + [SLASH] + st[0];
    }
  }

  lemma SlashedMore(st: seq<Str>, n: Str)
    ensures Slashed(st + [n]) == Slashed(st) + [SLASH] + n
  {
    assert (st + [n])[..|st|] == st;
  }

  /** One pass of the reversal loop: what follows the last slash moves to the output. */
  lemma MoveName(st: seq<Str>, k: nat, i: int)
    requires Proper(st) && k < |st|
    requires var r := Backward(st[k..]); -1 <= i < |r| && (i >= 0 ==> r[i] == SLASH) && SLASH !in r[i + 1..]
    ensures i >= 0 && Backward(st[k..])[..i] == Backward(st[k + 1..])
    ensures Slashed(st[..k]) + Backward(st[k..])[i..] == Slashed(st[..k + 1])
  {
    BackwardFront(st[k..]);
    assert st[k..][1..] == st[k + 1..] && st[k..][0] == st[k];
    LastIs(Backward(st[k + 1..]), st[k], i);
    assert st[..k + 1] == st[..k] + [st[k]];
    SlashedMore(st[..k], st[k]);
    var a, n := Slashed(st[..k]), st[k];
    assert a + ([SLASH] + n) == a + [SLASH] + n;
  }

  lemma BackwardHasSlash(st: seq<Str>)
    ensures st != [] <==> SLASH in Backward(st)
  {
    if st != [] {
      assert Backward(st)[0] == SLASH;
    }
  }

  /** The reversal loop at the end of sys_getcwd (fs.c:824-829). */
  method Reverse(rev0: Str, ghost st: seq<Str>) returns (buf: Str)
    requires rev0 == Backward(st) && Proper(st)
    ensures buf == Slashed(st)
  {
    buf := [];
    var rev := rev0;
    ghost var k := 0;
    assert st[0..] == st && st[..0] == [];
    var i := LastSlash(rev);
    BackwardHasSlash(st);
    while i >= 0
      invariant 0 <= k <= |st| && rev == Backward(st[k..]) && buf == Slashed(st[..k])
      invariant -1 <= i < |rev| && (i >= 0 ==> rev[i] == SLASH) && SLASH !in rev[i + 1..] && (i == -1 <==> k == |st|)
      decreases |st| - k
    {
      MoveName(st, k, i);
      buf := buf + rev[i..];
      rev := rev[..i];
      k := k + 1;
      BackwardHasSlash(st[k..]);
      i := LastSlash(rev);
    }
    assert st[..k] == st;
  }

  // ---------- one step up ----------

  /** Entry 1 in the first block of a directory. */
  lemma SecondEntry(v: View, self: nat, d: Dir)
    requires DirAt(v, self, d)
    ensures |v.inodes[self].sectors| == 13 && |d.grid| == 12 && |d.grid[0]| == PER_SECTOR
    ensures v.inodes[self].sectors[0] != 0 && SlotIs(Sec(v.disk, v.inodes[self].sectors[0]), 1, d.grid[0][1])
    ensures d.grid[0][1].ftype == FT_DIRECTORY && 0 <= d.grid[0][1].ino < 4096
  {
    DirParts(v, self, d);
    assert RowIs(v.data[self][0], d.grid[0]);
    assert GoodEntry(d.grid[0][1]);
    hide Clean, Located, OneEach, LiveList, RowIs, GoodEntry;
  }

  lemma FirstBlockInRange(v: View, i: nat)
    requires Sound(v) && i in v.inodes && |v.inodes[i].sectors| == 13 && v.inodes[i].sectors[0] != 0
    ensures v.inodes[i].sectors[0] >= v.start
  {
    InodeOf(v, i);
    hide Backs, TableWord;
    assert v.slots[i][0] in v.owner;
  }

  /** get_parent_dir_inode_nr: entry 1 of the first block leads to the parent. */
  method ParentNr(m: Mounted, c: nat) returns (p: nat)
    requires FsOk(m.W()) && c in m.W().tree.dirs
    ensures p == ParentOf(m.W().tree, c)
  {
    hide *;
    ghost var w := m.W();
    m.Parts();
    m.part.Fields();
    FsParts(w);
    DirIn(w, c);
    SecondEntry(w.v, c, w.dirs[c]);
    FirstBlockInRange(w.v, c);
    UpOf(w.dirs, w.tree, c);
    UpIsIno(w.dirs[c], ParentOf(w.tree, c));
    var lba := m.part.inodes[c].sectors[0];
    assert lba >= m.part.start;                         // the assertion of fs.c:730
    var sec := Sec(m.part.disk, lba);
    Consts();
    SlotFields(sec, 1, w.dirs[c].grid[0][1]);
    assert InoAt(sec, 1) < 4096 && TypeAt(sec, 1) == FT_DIRECTORY;    // the assertion of fs.c:735
    p := InoAt(sec, 1);
  }

  lemma UpIsIno(d: Dir, p: nat)
    requires UpIs(d, p)
    ensures |d.grid| == 12 && |d.grid[0]| == PER_SECTOR && d.grid[0][1].ino == p
  {
  }

  lemma SlotFields(s: Sector, i: nat, e: Entry)
    requires SlotIs(s, i, e)
    ensures i < PER_SECTOR && InoAt(s, i) == e.ino && TypeAt(s, i) == e.ftype && NameFrom(s, i, 0) == e.name
  {
    NameFromIs(s, i, e, 0);
    assert e.name[0..] == e.name;
  }

  // ---------- the name of a child ----------

  /** One sector of get_child_dir_name: the name of the first slot with that inode number. */
  method NameInSector(buf: Sector, c: int, ghost row: Row) returns (r: Option<Str>, ghost i: nat)
    requires RowIs(buf, row)
    ensures r.Some? ==> i < PER_SECTOR && row[i].ino == c && r.value == row[i].name
    ensures r.None? ==> forall j :: 0 <= j < PER_SECTOR ==> row[j].ino != c
  {
    i := 0;
    var n := 0;
    while n < PER_SECTOR
      invariant 0 <= n <= PER_SECTOR && forall j :: 0 <= j < n ==> row[j].ino != c
    {
      SlotFields(buf, n, row[n]);
      if InoAt(buf, n) == c {
        i := n;
        return Some(NameFrom(buf, n, 0)), i;
      }
      n := n + 1;
    }
    r := None;
  }

  /** get_child_dir_name over the blocks of the parent. */
  method NameInBlocks(disk: Disk, all: seq<int>, cnt: nat, c: int, ghost grid: seq<Row>)
      returns (r: Option<Str>, ghost k: nat, ghost i: nat)
    requires BlocksOf(disk, all, grid) && c > 0 && 12 <= cnt <= 140
    ensures r.Some? ==> k < 12 && i < PER_SECTOR && grid[k][i].ino == c && r.value == grid[k][i].name
    ensures r.None? ==> forall q, j :: 0 <= q < 12 && 0 <= j < PER_SECTOR ==> grid[q][j].ino != c
  {
    k, i := 0, 0;
    var b := 0;
    hide RowIs, Clean;
    while b < cnt
      invariant 0 <= b <= cnt && forall q, j :: 0 <= q < b && q < 12 && 0 <= j < PER_SECTOR ==> grid[q][j].ino != c
    {
      if all[b] != 0 {
        r, i := NameInSector(Sec(disk, all[b]), c, grid[b]);
        if r.Some? {
          k := b;
          return;
        }
      }
      b := b + 1;
    }
    r := None;
  }

  /** In its parent a directory's number stands only in the entry with its name: not in "." or "..",
      because the tree has no cycles, and not in an empty slot. */
  lemma OnlyItsEntry(w: World, c: nat, k: int, i: int)
    requires FsOk(w) && c in w.tree.dirs && c in w.tree.ref && w.tree.ref[c].dir in w.dirs && 0 <= k < 12
      && 0 <= i < PER_SECTOR
    requires Shaped(w.dirs[w.tree.ref[c].dir].grid) && w.dirs[w.tree.ref[c].dir].grid[k][i].ino == c
    ensures w.dirs[w.tree.ref[c].dir].grid[k][i].name == w.tree.ref[c].name
  {
    var p := w.tree.ref[c].dir;
    var e := w.dirs[p].grid[k][i];
    hide *;
    FsParts(w);
    DirParent(w.tree, c);
    DirIn(w, p);
    DirParent(w.tree, p);
    LiveOrEmpty(w.v, p, w.dirs[p], k, i);
    UpOf(w.dirs, w.tree, p);
    UpIsIno(w.dirs[p], ParentOf(w.tree, p));
    NotADot(w.v, p, w.dirs[p], k, i, ParentOf(w.tree, p));
    EntryKnown(w, p, k, i);
    NameRecorded(w, p, e.name);
  }

  lemma LiveOrEmpty(v: View, self: nat, d: Dir, k: int, i: int)
    requires DirAt(v, self, d) && 0 <= k < 12 && 0 <= i < PER_SECTOR
    ensures Shaped(d.grid) && (d.grid[k][i].ino > 0 ==> Live(d.grid[k][i]))
  {
    hide Located, OneEach, LiveList, GridIs, Lists, Backs, Used;
    assert GoodEntry(d.grid[k][i]);
  }

  lemma NotADot(v: View, self: nat, d: Dir, k: int, i: int, up: nat)
    requires DirAt(v, self, d) && 0 <= k < 12 && 0 <= i < PER_SECTOR && Shaped(d.grid) && Live(d.grid[k][i])
    requires d.grid[0][1].ino == up && d.grid[k][i].ino != self && d.grid[k][i].ino != up
    ensures !IsDot(d.grid[k][i])
  {
    DotsPlaces(v, self, d);
    ShapedIn(v, self, d);
    hide DirAt;
  }

  lemma ChildThere(w: World, c: nat)
    requires FsOk(w) && c in w.tree.dirs && c in w.tree.ref && w.tree.ref[c].dir in w.dirs
    ensures c > 0 && Shaped(w.dirs[w.tree.ref[c].dir].grid)
    ensures exists k, i :: 0 <= k < 12 && 0 <= i < PER_SECTOR && w.dirs[w.tree.ref[c].dir].grid[k][i].ino == c
  {
    FsParts(w);
    var s := w.tree.ref[c];
    assert s in w.tree.link && w.tree.link[s].ino == c by {
      hide FsOk, Sound, Files, DirsOk, RootFirst, Coupled, Numbered;
    }
    assert s == Spot(s.dir, s.name);
    EntryThere(w, s.dir, s.name);
    NameRecorded(w, s.dir, s.name);
    hide FsOk, Sound, Files, DirsOk, RootFirst, Coupled, Numbered, TreeOk;
  }

  /** get_child_dir_name for the parent of a directory finds that directory's own name. */
  method ChildName(m: Mounted, p: nat, c: nat) returns (name: Option<Str>)
    requires FsOk(m.W()) && c in m.W().tree.dirs && c in m.W().tree.ref && p == m.W().tree.ref[c].dir
    ensures name == Some(m.W().tree.ref[c].name)
  {
    hide *;
    ghost var w := m.W();
    m.Parts();
    m.part.Fields();
    FsParts(w);
    DirParent(w.tree, c);
    DirIn(w, p);
    ChildThere(w, c);
    BlocksOfDir(w.v, p, w.dirs[p]);
    var ind := m.part.inodes[p];
    ghost var k, i;
    name, k, i := NameInBlocks(m.part.disk, AllBlocks(m.part.disk, ind),
      if ind.sectors[12] != 0 then 140 else 12, c, w.dirs[p].grid);
    assert name.Some?;
    OnlyItsEntry(w, c, k, i);
  }

  // ---------- sys_getcwd ----------

  lemma ClimbStep(t: Tree, c: nat)
    requires TreeOk(t) && c in t.dirs && c != 0
    ensures c in t.ref && t.ref[c].dir in t.dirs && ParentOf(t, c) == t.ref[c].dir
    ensures Backward(NamesTo(t, c)) == [SLASH] + t.ref[c].name + Backward(NamesTo(t, t.ref[c].dir))
    ensures c in t.depth && t.ref[c].dir in t.depth && t.depth[t.ref[c].dir] < t.depth[c]
  {
    DirParent(t, c);
    hide TreeOk;
    var st := NamesTo(t, t.ref[c].dir) + [t.ref[c].name];
    assert st[..|st| - 1] == NamesTo(t, t.ref[c].dir);
  }

  lemma Joined(a: Str, b: Str, c: Str, d: Str)
    ensures a + (b + c + d) == a + b + c + d
  {
  }

  /** From directory cwd up to the root: the names met, last one first (fs.c:811-818). */
  method Climb(m: Mounted, cwd: nat) returns (rev: Str)
    requires FsOk(m.W()) && cwd in m.W().tree.dirs
    ensures TreeOk(m.W().tree) && rev == Backward(NamesTo(m.W().tree, cwd))
  {
    hide *;
    ghost var t := m.W().tree;
    FsParts(m.W());
    RootNames(t);
    DirParent(t, cwd);
    rev := [];
    var child := cwd;
    while child != 0
      invariant child in t.dirs && rev + Backward(NamesTo(t, child)) == Backward(NamesTo(t, cwd)) && child in t.depth
      decreases t.depth[child]
    {
      ClimbStep(t, child);
      var p := ParentNr(m, child);
      var name := ChildName(m, p, child);
      Joined(rev, [SLASH], name.value, Backward(NamesTo(t, p)));
      rev := rev + [SLASH] + name.value;
      child := p;
    }
  }

  lemma RootNames(t: Tree)
    requires TreeOk(t)
    ensures 0 in t.dirs && NamesTo(t, 0) == [] && Backward([]) == []
  {
  }

  datatype Cwd = Path(path: Str) | TooLong

  lemma {:induction false} SameLength(st: seq<Str>)
    ensures |Backward(st)| == |Slashed(st)|
  {
    if st != [] {
      SameLength(st[..|st| - 1]);
    }
  }

  /** What sys_getcwd answers for working directory cwd and a buffer of that size. */
  ghost predicate Cwds(t: Tree, cwd: nat, size: nat, r: Cwd)
    requires TreeOk(t) && cwd in t.dirs
  {
    match r
    case Path(s) => s == Render(NamesTo(t, cwd))
    case TooLong => cwd != 0 && |Render(NamesTo(t, cwd))| > size
  }

  lemma CwdIs(t: Tree, cwd: nat, rev: Str)
    requires TreeOk(t) && ProperNames(t) && cwd in t.dirs && cwd != 0 && rev == Backward(NamesTo(t, cwd))
    ensures Proper(NamesTo(t, cwd)) && Slashed(NamesTo(t, cwd)) == Render(NamesTo(t, cwd))
      && |rev| == |Render(NamesTo(t, cwd))|
  {
    NamesProper(t, cwd);
    DirParent(t, cwd);
    SameLength(NamesTo(t, cwd));
    hide TreeOk;
    assert NamesTo(t, cwd) != [];
  }

  class Process {
    var cwd: int     // cwd_inode_nr

    /** A new process starts at the root. */
    constructor ()
      ensures cwd == 0
    {
      cwd := 0;
    }

    /** sys_getcwd into a buffer of the given size: the absolute path of the working directory; the
        assertion that it fits stops the kernel otherwise. */
    method GetCwd(m: Mounted, size: nat) returns (r: Cwd)
      requires FsOk(m.W()) && cwd in m.W().tree.dirs && ProperNames(m.W().tree)
      requires TreeOk(m.W().tree) && |Render(NamesTo(m.W().tree, cwd))| < 512
      ensures Cwds(m.W().tree, cwd, size, r)
      ensures r == TooLong <==> cwd != 0 && |Render(NamesTo(m.W().tree, cwd))| > size
    {
      hide *;
      ghost var t := m.W().tree;
      if cwd == 0 {
        RootNames(t);
        RootPathIs(t, size);
        return Path([SLASH]);
      }
      var rev := Climb(m, cwd);
      CwdIs(t, cwd, rev);
      if |rev| > size {
        CwdsIs(t, cwd, size, TooLong);
        return TooLong;
      }
      var buf := Reverse(rev, NamesTo(t, cwd));
      CwdsIs(t, cwd, size, Path(buf));
      r := Path(buf);
    }

    /** sys_chdir. */
    method Chdir(m: Mounted, path: Str, junk: int) returns (ret: int)
      requires FsOk(m.W()) && 1 <= |path| < 512 && path[0] == SLASH && NoZero(path)
      requires forall k :: 0 <= k < |Components(path)| ==> |Components(path)[k]| <= 15
      modifies this
      ensures Chdirs(m.W().tree, old(cwd), path, junk, ret, cwd)
    {
      hide *;
      var s := SearchFile(m, path, junk);
      ret := -1;
      ghost var was := cwd;
      if s.ino != -1 && s.ftype == FT_DIRECTORY {
        cwd := s.ino;
        ret := 0;
      }
      ChdirIs(m.W().tree, was, path, junk, s, ret, cwd);
    }
  }

  lemma RootPathIs(t: Tree, size: nat)
    requires TreeOk(t) && 0 in t.dirs && NamesTo(t, 0) == []
    ensures Cwds(t, 0, size, Path([SLASH]))
  {
  }

  lemma CwdsIs(t: Tree, cwd: nat, size: nat, r: Cwd)
    requires TreeOk(t) && cwd in t.dirs
    requires r.Path? ==> r.path == Render(NamesTo(t, cwd))
    requires r.TooLong? ==> cwd != 0 && |Render(NamesTo(t, cwd))| > size
    ensures Cwds(t, cwd, size, r)
  {
    hide TreeOk;
  }

  /** sys_chdir goes exactly where the path leads, if that is a directory. */
  ghost predicate Chdirs(t: Tree, cwd: int, path: Str, junk: int, ret: int, cwd': int) {
    if Nameless(path) then if junk == -1 then ret == -1 && cwd' == cwd else ret == 0 && cwd' == junk
    else match Resolve(t, Components(path))
      case FoundDir(x) => ret == 0 && cwd' == x
      case _ => ret == -1 && cwd' == cwd
  }

  lemma ChdirIs(t: Tree, cwd: int, path: Str, junk: int, s: Search, ret: int, cwd': int)
    requires Searched(t, path, junk, s)
    requires if s.ino != -1 && s.ftype == FT_DIRECTORY then ret == 0 && cwd' == s.ino else ret == -1 && cwd' == cwd
    ensures Chdirs(t, cwd, path, junk, ret, cwd')
  {
    hide Components, Walk;
  }

  /** sys_chdir to any path that leads to a directory, then sys_getcwd: the result is the path as
      wash_path cleans it. */
  lemma ChdirThenGetcwd(t: Tree, cwd: int, path: Str, junk: int, ret: int, cwd': nat, size: nat, s: Str)
    requires TreeOk(t) && !Nameless(path) && Chdirs(t, cwd, path, junk, ret, cwd') && ret == 0
    ensures cwd' in t.dirs && (Cwds(t, cwd', size, Path(s)) <==> s == Washed(path))
  {
    RootNames(t);
    ResolvedIsWashed(t, path);
    hide TreeOk, Components, Walk;
  }

  /** A path of slashes alone leaves the process wherever dir_e pointed: the promise holds for it
      exactly when that happens to be the root. */
  lemma NamelessChdir(t: Tree, cwd: int, path: Str, junk: nat, size: nat, s: Str)
    requires TreeOk(t) && ProperNames(t) && Nameless(path) && junk in t.dirs && Cwds(t, junk, size, Path(s))
    ensures Chdirs(t, cwd, path, junk, 0, junk) && Washed(path) == [SLASH]
    ensures s == Washed(path) <==> junk == 0
  {
    RootNames(t);
    DirParent(t, junk);
    NamesProper(t, junk);
    RenderIsRoot(NamesTo(t, junk));
    hide TreeOk;
  }
}
