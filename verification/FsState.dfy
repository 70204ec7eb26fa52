/** The whole file system: inodes, regular files, directories and the tree of names agree. */
module FsState {
  import opened Words
  import opened Bitmaps
  import opened Volume
  import opened Partitions
  import opened FileData
  import opened FileIo
  import opened DirData
  import opened Directories
  import opened DirTree
  import opened InodeOps
  import opened NewDirs

  const MAX_INODES := 4096

  /** A mounted partition with its inode bitmap, what the regular files hold, what the directories
      hold, and the tree their names form. */
  datatype World = World(v: View, ibits: seq<bool>, bytes: map<nat, seq<Byte>>, dirs: map<nat, Dir>, tree: Tree)

  predicate DotName(n: Str) {
    n == DOT || n == DOTDOT
  }

  /** The entry a directory has under a name. */
  ghost function EntryOf(d: Dir, n: Str): (e: Entry)
    requires n in d.ix.at
  {
    var (k, i) := d.ix.at[n];
    if 0 <= k < |d.grid| && 0 <= i < |d.grid[k]| then d.grid[k][i] else EMPTY
  }

  ghost predicate DirsOk(v: View, dirs: map<nat, Dir>) {
    forall d :: d in dirs ==> DirAt(v, d, dirs[d])
  }

  /** The inode bitmap marks exactly the inodes, and these are the directories and the files. */
  ghost predicate Numbered(v: View, ibits: seq<bool>, t: Tree) {
    && |ibits| == MAX_INODES && v.inodes.Keys == t.dirs + t.files
    && (forall i :: i in v.inodes ==> i < MAX_INODES && ibits[i])
    && (forall i: nat :: i < MAX_INODES && ibits[i] ==> i in v.inodes)
  }

  /** Entry 1 of a directory leads to p. */
  ghost predicate UpIs(d: Dir, p: nat) {
    |d.grid| == 12 && |d.grid[0]| == PER_SECTOR && d.grid[0][1].ino == p
  }

  /** The tree's names are the entries of the directories, and ".." leads to the parent. */
  ghost predicate Coupled(dirs: map<nat, Dir>, t: Tree) {
    && dirs.Keys == t.dirs
    && (forall s :: s in t.link <==> s.dir in dirs && s.name in dirs[s.dir].ix.at && !DotName(s.name))
    && (forall s :: s in t.link ==> EntryOf(dirs[s.dir], s.name) == t.link[s])
    && (forall d :: d in dirs ==> UpIs(dirs[d], ParentOf(t, d)))
  }

  /** The root's first block is the first data block. */
  ghost predicate RootFirst(v: View) {
    0 in v.slots && |v.slots[0]| == SLOTS && v.slots[0][0] == v.start
  }

  ghost predicate FsOk(w: World) {
    && Sound(w.v) && Files(w.v, w.bytes) && DirsOk(w.v, w.dirs) && RootFirst(w.v)
    && w.bytes.Keys == w.tree.files && Numbered(w.v, w.ibits, w.tree)
    && Coupled(w.dirs, w.tree) && TreeOk(w.tree)
  }

  // ---------- what a change of other inodes leaves alone ----------

  ghost predicate Same(v: View, v': View, j: nat) {
    && j in v.inodes && j in v'.inodes && v'.inodes[j] == v.inodes[j]
    && j in v.slots && j in v'.slots && v'.slots[j] == v.slots[j]
    && j in v.data && j in v'.data && v'.data[j] == v.data[j]
  }

  lemma DirKept(v: View, v': View, j: nat, d: Dir)
    requires Sound(v') && DirAt(v, j, d) && Same(v, v', j)
    ensures DirAt(v', j, d)
  {
    hide Sound, DirOk, GridIs;
    DirAgain(v', j, d);
  }

  lemma FileKept(v: View, v': View, j: nat, b: seq<Byte>)
    requires Files(v, map[j := b]) && Same(v, v', j)
    ensures Files(v', map[j := b])
  {
    hide FileShape, Spells;
  }

  lemma FilesOne(v: View, bytes: map<nat, seq<Byte>>, j: nat)
    requires Files(v, bytes) && j in bytes
    ensures Files(v, map[j := bytes[j]])
  {
    hide FileShape, Spells;
  }

  lemma FilesAll(v: View, bytes: map<nat, seq<Byte>>)
    requires forall j :: j in bytes ==> Files(v, map[j := bytes[j]])
    ensures Files(v, bytes)
  {
    hide FileShape, Spells;
    forall i | i in bytes
      ensures i in v.inodes && i in v.slots && i in v.data && |v.slots[i]| == SLOTS
      ensures FileShape(v.slots[i], v.inodes[i].size) && Spells(v.data[i], v.inodes[i].size, bytes[i])
    {
      assert Files(v, map[i := bytes[i]]);
      assert i in map[i := bytes[i]];
    }
  }

  lemma FilesKeep(v: View, v': View, bytes: map<nat, seq<Byte>>)
    requires Files(v, bytes) && forall j :: j in bytes ==> Same(v, v', j)
    ensures Files(v', bytes)
  {
    hide Files, Same;
    forall j | j in bytes ensures Files(v', map[j := bytes[j]]) {
      FilesOne(v, bytes, j);
      FileKept(v, v', j, bytes[j]);
    }
    FilesAll(v', bytes);
  }

  lemma FilesWith(v: View, bytes: map<nat, seq<Byte>>, j: nat, b: seq<Byte>)
    requires Files(v, bytes) && Files(v, map[j := b])
    ensures Files(v, bytes[j := b])
  {
    hide Files;
    var bytes' := bytes[j := b];
    forall q | q in bytes' ensures Files(v, map[q := bytes'[q]]) {
      if q != j {
        FilesOne(v, bytes, q);
      }
    }
    FilesAll(v, bytes');
  }

  lemma DirsKeep(v: View, v': View, dirs: map<nat, Dir>, d: nat, dir: Dir)
    requires Sound(v') && DirsOk(v, dirs) && (forall j :: j in dirs && j != d ==> Same(v, v', j)) && DirAt(v', d, dir)
    ensures DirsOk(v', dirs[d := dir])
  {
    hide Sound, DirAt, Same;
    forall j | j in dirs && j != d ensures DirAt(v', j, dirs[j]) {
      DirKept(v, v', j, dirs[j]);
    }
  }

  // ---------- the names of a directory and the tree ----------

  /** d' has the names of d and entry e. */
  ghost predicate Inserts(d: Dir, d': Dir, e: Entry) {
    && e.name !in d.ix.at
    && (forall n :: n in d'.ix.at <==> n in d.ix.at || n == e.name)
    && (forall n :: n in d.ix.at ==> EntryOf(d', n) == EntryOf(d, n))
    && e.name in d'.ix.at && EntryOf(d', e.name) == e
    && (forall p: nat :: UpIs(d, p) ==> UpIs(d', p))
  }

  lemma InsertsNames(d: Dir, k: nat, i: nat, e: Entry, self: int)
    requires Shaped(d.grid) && Located(d.grid, d.ix.at) && Dots(self, d.grid) && e.name !in d.ix.at
    requires k < 12 && i < PER_SECTOR && !Live(d.grid[k][i])
    ensures Inserts(d, Inserted(d, k, i, e), e)
  {
    var d' := Inserted(d, k, i, e);
    assert Live(d.grid[0][1]);
    forall n | n in d.ix.at ensures EntryOf(d', n) == EntryOf(d, n) {
      assert Live(d.grid[d.ix.at[n].0][d.ix.at[n].1]);
    }
  }

  /** d' has the names of d but n. */
  ghost predicate Drops(d: Dir, d': Dir, n: Str) {
    && n in d.ix.at
    && (forall m :: m in d'.ix.at <==> m in d.ix.at && m != n)
    && (forall m :: m in d'.ix.at ==> EntryOf(d', m) == EntryOf(d, m))
    && (forall p: nat :: UpIs(d, p) ==> UpIs(d', p))
  }

  lemma DropsNames(d: Dir, k: nat, i: nat, self: int)
    requires Shaped(d.grid) && Located(d.grid, d.ix.at) && Dots(self, d.grid)
    requires k < 12 && i < PER_SECTOR && Live(d.grid[k][i]) && !DotName(d.grid[k][i].name)
    ensures Drops(d, Deleted(d, k, i), d.grid[k][i].name)
  {
    var d' := Deleted(d, k, i);
    var name := d.grid[k][i].name;
    assert name in d.ix.at && d.ix.at[name] == (k, i);
    assert d.grid[0][1].name == DOTDOT;
    forall m | m in d'.ix.at ensures EntryOf(d', m) == EntryOf(d, m) {
      assert m in d.ix.at;
      assert Live(d.grid[d.ix.at[m].0][d.ix.at[m].1]) && d.grid[d.ix.at[m].0][d.ix.at[m].1].name == m;
    }
  }

  /** A directory with nothing but the dots, whose parent is p. */
  ghost predicate OnlyDots(d: Dir, p: nat) {
    d.ix.at.Keys == {DOT, DOTDOT} && UpIs(d, p)
  }

  lemma CoupledAt(dirs: map<nat, Dir>, t: Tree, d: nat, n: Str)
    requires Coupled(dirs, t)
    ensures Spot(d, n) in t.link <==> d in dirs && n in dirs[d].ix.at && !DotName(n)
    ensures Spot(d, n) in t.link ==> EntryOf(dirs[d], n) == t.link[Spot(d, n)]
  {
    hide EntryOf, DotName, UpIs;
  }

  lemma CoupledKeys(dirs: map<nat, Dir>, t: Tree)
    requires Coupled(dirs, t)
    ensures dirs.Keys == t.dirs
  {
  }

  /** The directories after entry e went into directory p: nd is what the new inode's own
      directory looks like when e is a directory. */
  ghost function DirsWith(dirs: map<nat, Dir>, p: nat, e: Entry, d': Dir, nd: Dir): (dirs': map<nat, Dir>)
    requires e.ino > 0
  {
    if e.ftype == FT_DIRECTORY then dirs[p := d'][e.ino := nd] else dirs[p := d']
  }

  lemma SpotAdded(dirs: map<nat, Dir>, t: Tree, p: nat, e: Entry, d': Dir, nd: Dir, s: Spot)
    requires Coupled(dirs, t) && CanAdd(t, p, e) && p in t.depth && !DotName(e.name)
    requires Inserts(dirs[p], d', e) && OnlyDots(nd, p)
    ensures var t', dirs' := WithChild(t, p, e), DirsWith(dirs, p, e, d', nd);
      && (s in t'.link <==> s.dir in dirs' && s.name in dirs'[s.dir].ix.at && !DotName(s.name))
      && (s in t'.link ==> EntryOf(dirs'[s.dir], s.name) == t'.link[s])
  {
    hide EntryOf, UpIs, LinksKnown, RefsReal, Deeper, Named, Coupled;
    CoupledKeys(dirs, t);
    CoupledAt(dirs, t, s.dir, s.name);
  }

  lemma CoupledAdd(dirs: map<nat, Dir>, t: Tree, p: nat, e: Entry, d': Dir, nd: Dir)
    requires Coupled(dirs, t) && CanAdd(t, p, e) && !DotName(e.name)
    requires Inserts(dirs[p], d', e) && OnlyDots(nd, p)
    ensures p in t.depth && Coupled(DirsWith(dirs, p, e, d', nd), WithChild(t, p, e))
  {
    AddChild(t, p, e);
    var t', dirs' := WithChild(t, p, e), DirsWith(dirs, p, e, d', nd);
    forall s ensures s in t'.link <==> s.dir in dirs' && s.name in dirs'[s.dir].ix.at && !DotName(s.name) {
      SpotAdded(dirs, t, p, e, d', nd, s);
    }
    forall s | s in t'.link ensures EntryOf(dirs'[s.dir], s.name) == t'.link[s] {
      SpotAdded(dirs, t, p, e, d', nd, s);
    }
    UpAdded(dirs, t, p, e, d', nd);
    hide EntryOf, DotName, UpIs, TreeOk;
  }

  lemma UpAdded(dirs: map<nat, Dir>, t: Tree, p: nat, e: Entry, d': Dir, nd: Dir)
    requires Coupled(dirs, t) && CanAdd(t, p, e) && p in t.depth
    requires Inserts(dirs[p], d', e) && OnlyDots(nd, p)
    ensures var t', dirs' := WithChild(t, p, e), DirsWith(dirs, p, e, d', nd);
      dirs'.Keys == t'.dirs && forall d :: d in dirs' ==> UpIs(dirs'[d], ParentOf(t', d))
  {
    hide EntryOf, DotName, LinksKnown, RefsReal, Deeper;
    hide UpIs;
  }

  lemma CoupledIs(dirs: map<nat, Dir>, t: Tree)
    requires dirs.Keys == t.dirs && forall d :: d in dirs ==> UpIs(dirs[d], ParentOf(t, d))
    requires forall s :: s in t.link <==> s.dir in dirs && s.name in dirs[s.dir].ix.at && !DotName(s.name)
    requires forall s :: s in t.link ==> EntryOf(dirs[s.dir], s.name) == t.link[s]
    ensures Coupled(dirs, t)
  {
  }

  lemma CoupledRemove(dirs: map<nat, Dir>, t: Tree, x: nat, d': Dir)
    requires Coupled(dirs, t) && CanRemove(t, x) && t.ref[x].dir in dirs && Drops(dirs[t.ref[x].dir], d', t.ref[x].name)
    ensures Coupled(dirs[t.ref[x].dir := d'] - {x}, WithoutChild(t, x))
  {
    var t', dirs' := WithoutChild(t, x), dirs[t.ref[x].dir := d'] - {x};
    hide *;
    forall s ensures s in t'.link <==> s.dir in dirs' && s.name in dirs'[s.dir].ix.at && !DotName(s.name) {
      SpotRemoved(dirs, t, x, d', s);
    }
    forall s | s in t'.link ensures EntryOf(dirs'[s.dir], s.name) == t'.link[s] {
      SpotRemoved(dirs, t, x, d', s);
    }
    UpRemoved(dirs, t, x, d');
    CoupledIs(dirs', t');
  }

  lemma SpotRemoved(dirs: map<nat, Dir>, t: Tree, x: nat, d': Dir, s: Spot)
    requires Coupled(dirs, t) && CanRemove(t, x) && t.ref[x].dir in dirs && Drops(dirs[t.ref[x].dir], d', t.ref[x].name)
    ensures var t', dirs' := WithoutChild(t, x), dirs[t.ref[x].dir := d'] - {x};
      && (s in t'.link <==> s.dir in dirs' && s.name in dirs'[s.dir].ix.at && !DotName(s.name))
      && (s in t'.link ==> EntryOf(dirs'[s.dir], s.name) == t'.link[s])
  {
    hide EntryOf, UpIs, LinksKnown, RefsReal, Deeper, Named, Coupled;
    CoupledAt(dirs, t, s.dir, s.name);
  }

  lemma UpRemoved(dirs: map<nat, Dir>, t: Tree, x: nat, d': Dir)
    requires Coupled(dirs, t) && CanRemove(t, x) && t.ref[x].dir in dirs && Drops(dirs[t.ref[x].dir], d', t.ref[x].name)
    ensures var t', dirs' := WithoutChild(t, x), dirs[t.ref[x].dir := d'] - {x};
      dirs'.Keys == t'.dirs && forall d :: d in dirs' ==> UpIs(dirs'[d], ParentOf(t', d))
  {
    hide EntryOf, DotName, UpIs, LinksKnown, Deeper;
    assert t.ref[x].dir != x by {
      assert t.ref[x] in t.link;
    }
  }

  // ---------- what a sound file system says about one directory or name ----------

  lemma FsParts(w: World)
    requires FsOk(w)
    ensures Sound(w.v) && Files(w.v, w.bytes) && DirsOk(w.v, w.dirs) && RootFirst(w.v) && w.bytes.Keys == w.tree.files
    ensures Numbered(w.v, w.ibits, w.tree) && Coupled(w.dirs, w.tree) && TreeOk(w.tree)
  {
  }

  lemma DirIn(w: World, d: nat)
    requires FsOk(w) && d in w.tree.dirs
    ensures d in w.dirs && DirAt(w.v, d, w.dirs[d]) && d < MAX_INODES && d in w.v.inodes && d !in w.bytes
  {
    hide Sound, Files, DirAt, RootFirst, LinksKnown, RefsReal, Deeper;
  }

  /** The least number no inode has. */
  ghost predicate FreshIno(t: Tree, ino: nat) {
    ino !in t.dirs && ino !in t.files && forall j: nat :: j < ino ==> j in t.dirs || j in t.files
  }

  lemma FreshIs(w: World, ino: nat)
    requires FsOk(w) && LeastRun(w.ibits, ino, 1)
    ensures FreshIno(w.tree, ino) && 0 < ino < MAX_INODES && ino !in w.v.inodes && ino !in w.bytes && ino !in w.dirs
  {
    hide Sound, Files, DirsOk, RootFirst, LinksKnown, RefsReal, Deeper, EntryOf, UpIs;
    assert RunAt(w.ibits, ino, 1) && !w.ibits[ino];
    forall j: nat | j < ino ensures w.ibits[j] {
      assert !RunAt(w.ibits, j, 1);
    }
  }

  /** A name in a directory and the tree: "." and ".." are directories, every other name is a link. */
  lemma NameIn(w: World, d: nat, n: Str)
    requires FsOk(w) && d in w.tree.dirs && d in w.dirs
    ensures n in w.dirs[d].ix.at <==> DotName(n) || Spot(d, n) in w.tree.link
    ensures Spot(d, n) in w.tree.link ==> !DotName(n)
    ensures DotName(n) ==> EntryOf(w.dirs[d], n).ftype == FT_DIRECTORY
    ensures !DotName(n) && n in w.dirs[d].ix.at ==> EntryOf(w.dirs[d], n) == w.tree.link[Spot(d, n)]
  {
    hide FsOk, DirAt, EntryOf, Coupled, TreeOk, Sound, Files, DirsOk, RootFirst, Numbered;
    FsParts(w);
    DirIn(w, d);
    CoupledAt(w.dirs, w.tree, d, n);
    DotsIn(w.v, d, w.dirs[d]);
  }

  lemma DotsIn(v: View, self: nat, d: Dir)
    requires DirAt(v, self, d)
    ensures DOT in d.ix.at && DOTDOT in d.ix.at
    ensures EntryOf(d, DOT).ftype == FT_DIRECTORY && EntryOf(d, DOTDOT).ftype == FT_DIRECTORY
    ensures EntryOf(d, DOT).ino == self && forall p: nat :: UpIs(d, p) ==> EntryOf(d, DOTDOT).ino == p
  {
    hide GridIs, Lists, Backs, Clean, OneEach, Used, LiveList;
    assert Live(d.grid[0][0]) && Live(d.grid[0][1]);
  }

  /** A non-dot entry of a directory is a link of the tree, so its inode is in use. */
  lemma EntryKnown(w: World, p: nat, k: int, i: int)
    requires FsOk(w) && p in w.tree.dirs && p in w.dirs && Shaped(w.dirs[p].grid) && 0 <= k < 12 && 0 <= i < PER_SECTOR
    requires Live(w.dirs[p].grid[k][i]) && !IsDot(w.dirs[p].grid[k][i])
    ensures var e := w.dirs[p].grid[k][i];
      Spot(p, e.name) in w.tree.link && w.tree.link[Spot(p, e.name)] == e && e.ino in w.tree.ref && e.ino in w.v.inodes
  {
    var d := w.dirs[p];
    var e := d.grid[k][i];
    assert DirAt(w.v, p, d);
    assert e.name in d.ix.at && d.ix.at[e.name] == (k, i) by {
      hide Clean, OneEach, Used, LiveList, GridIs, Lists, Backs, Sound;
    }
    CoupledAt(w.dirs, w.tree, p, e.name);
    hide Sound, Files, DirsOk, RootFirst, DirAt, Coupled, Deeper;
  }

  lemma CanInsert(w: World, p: nat, e: Entry)
    requires FsOk(w) && p in w.tree.dirs && p in w.dirs && Spot(p, e.name) !in w.tree.link && !DotName(e.name)
    requires GoodName(e.name) && (e.ftype == FT_REGULAR || e.ftype == FT_DIRECTORY) && 0 < e.ino < MAX_INODES
      && e.ino !in w.v.inodes
    ensures Shaped(w.dirs[p].grid) && Insertable(w.dirs[p].grid, w.dirs[p].ix, e) && CanAdd(w.tree, p, e)
  {
    hide FsOk, DirAt, EntryOf, Coupled, TreeOk, Sound, Files, DirsOk, RootFirst, Numbered, CanAdd, Located, Dots,
      OneEach;
    FsParts(w);
    DirIn(w, p);
    CoupledAt(w.dirs, w.tree, p, e.name);
    ShapedIn(w.v, p, w.dirs[p]);
    CanAddIs(w, p, e);
    var d := w.dirs[p];
    forall k, i | 0 <= k < 12 && 0 <= i < PER_SECTOR && Live(d.grid[k][i]) && !IsDot(d.grid[k][i])
      ensures d.grid[k][i].ino != e.ino
    {
      EntryKnown(w, p, k, i);
    }
  }

  lemma ShapedIn(v: View, self: nat, d: Dir)
    requires DirAt(v, self, d)
    ensures Shaped(d.grid) && Located(d.grid, d.ix.at) && Dots(self, d.grid) && OneEach(d.grid, d.ix.of)
  {
  }

  lemma CanAddIs(w: World, p: nat, e: Entry)
    requires FsOk(w) && p in w.tree.dirs && Spot(p, e.name) !in w.tree.link && e.ino > 0 && e.ino !in w.v.inodes
    ensures CanAdd(w.tree, p, e)
  {
    hide Sound, Files, DirsOk, RootFirst, Coupled, LinksKnown, RefsReal, Deeper, Named;
  }

  // ---------- a file or directory added ----------

  /** From v to v' inode ino is new and no other inode but p changed. */
  ghost predicate Grown(v: View, v': View, ino: nat, p: nat) {
    v'.inodes.Keys == v.inodes.Keys + {ino} && forall j :: j in v.inodes && j != p ==> Same(v, v', j)
  }

  ghost function BytesWith(bytes: map<nat, seq<Byte>>, e: Entry): (bytes': map<nat, seq<Byte>>)
    requires e.ino > 0
  {
    if e.ftype == FT_DIRECTORY then bytes else bytes[e.ino := []]
  }

  /** The new inode's own contents. */
  ghost predicate NewContents(v: View, p: nat, e: Entry, nd: Dir) {
    OnlyDots(nd, p) && e.ino > 0 && if e.ftype == FT_DIRECTORY then DirAt(v, e.ino, nd) else Files(v, map[e.ino := []])
  }

  lemma AddedFiles(v: View, bytes: map<nat, seq<Byte>>, v': View, p: nat, e: Entry, nd: Dir)
    requires e.ino > 0
    requires Files(v, bytes) && p !in bytes && Grown(v, v', e.ino, p) && NewContents(v', p, e, nd)
    requires forall j :: j in bytes ==> j in v.inodes
    ensures Files(v', BytesWith(bytes, e))
  {
    hide Files, DirAt, Same, OnlyDots;
    FilesKeep(v, v', bytes);
    if e.ftype != FT_DIRECTORY {
      FilesWith(v', bytes, e.ino, []);
    }
  }

  lemma AddedDirs(v: View, dirs: map<nat, Dir>, v': View, p: nat, e: Entry, d': Dir, nd: Dir)
    requires e.ino > 0
    requires DirsOk(v, dirs) && Grown(v, v', e.ino, p) && NewContents(v', p, e, nd)
    requires forall j :: j in dirs ==> j in v.inodes
    requires Sound(v') && DirAt(v', p, d')
    ensures DirsOk(v', DirsWith(dirs, p, e, d', nd))
  {
    hide Files, DirAt, Same, OnlyDots, Sound;
    DirsKeep(v, v', dirs, p, d');
  }

  lemma AddedNumbered(v: View, ibits: seq<bool>, bytes: map<nat, seq<Byte>>, t: Tree, v': View, p: nat, e: Entry)
    requires 0 < e.ino < |ibits| && p in t.depth
    requires Numbered(v, ibits, t) && bytes.Keys == t.files && Grown(v, v', e.ino, p) && e.ino !in v.inodes
    ensures Numbered(v', ibits[e.ino := true], WithChild(t, p, e))
    ensures BytesWith(bytes, e).Keys == WithChild(t, p, e).files
  {
    hide Same;
  }

  /** The file system after entry e, for a new inode, went into directory p. */
  ghost function Added(w: World, v': View, p: nat, e: Entry, d': Dir, nd: Dir): (w': World)
    requires p in w.tree.depth && 0 < e.ino < |w.ibits|
  {
    World(v', w.ibits[e.ino := true], BytesWith(w.bytes, e), DirsWith(w.dirs, p, e, d', nd), WithChild(w.tree, p, e))
  }

  lemma AllIn(w: World)
    requires FsOk(w)
    ensures |w.ibits| == MAX_INODES
    ensures (forall j :: j in w.bytes ==> j in w.v.inodes && j !in w.dirs)
      && (forall j :: j in w.dirs ==> j in w.v.inodes && j !in w.bytes)
  {
    hide Sound, Files, DirsOk, RootFirst, LinksKnown, RefsReal, Deeper, EntryOf, UpIs;
  }

  lemma AddedOk(w: World, v': View, p: nat, e: Entry, d': Dir, nd: Dir)
    requires FsOk(w) && CanAdd(w.tree, p, e) && p in w.dirs && !DotName(e.name) && 0 < e.ino < MAX_INODES
      && e.ino !in w.v.inodes
    requires Sound(v') && RootFirst(v') && Grown(w.v, v', e.ino, p) && DirAt(v', p, d') && Inserts(w.dirs[p], d', e)
    requires NewContents(v', p, e, nd)
    ensures p in w.tree.depth && |w.ibits| == MAX_INODES && FsOk(Added(w, v', p, e, d', nd))
  {
    hide Files, DirsOk, RootFirst, Coupled, TreeOk, Sound, Same, DirAt, Inserts, Numbered, OnlyDots, Grown, DirsWith,
      BytesWith, WithChild;
    AddChild(w.tree, p, e);
    AllIn(w);
    CoupledAdd(w.dirs, w.tree, p, e, d', nd);
    AddedFiles(w.v, w.bytes, v', p, e, nd);
    AddedDirs(w.v, w.dirs, v', p, e, d', nd);
    AddedNumbered(w.v, w.ibits, w.bytes, w.tree, v', p, e);
  }

  // ---------- a file or directory removed ----------

  /** From v to v' inode x is gone and no other inode but p changed. */
  ghost predicate Shrunk(v: View, v': View, x: nat, p: nat) {
    v'.inodes.Keys == v.inodes.Keys - {x} && forall j :: j in v.inodes && j != p && j != x ==> Same(v, v', j)
  }

  lemma ShrunkFiles(v: View, bytes: map<nat, seq<Byte>>, v': View, x: nat, p: nat)
    requires Files(v, bytes) && p !in bytes && Shrunk(v, v', x, p) && forall j :: j in bytes ==> j in v.inodes
    ensures Files(v', bytes - {x})
  {
    assert Files(v, bytes - {x}) by {
      hide FileShape, Spells, Shrunk;
    }
    hide Files, Same;
    FilesKeep(v, v', bytes - {x});
  }

  lemma ShrunkDirs(v: View, dirs: map<nat, Dir>, v': View, x: nat, p: nat, d': Dir)
    requires DirsOk(v, dirs) && Shrunk(v, v', x, p) && Sound(v') && DirAt(v', p, d')
      && forall j :: j in dirs ==> j in v.inodes
    ensures DirsOk(v', dirs[p := d'] - {x})
  {
    hide DirAt, Same, Sound;
    var rest := dirs - {x};
    assert DirsOk(v, rest);
    DirsKeep(v, v', rest, p, d');
    var some, all := dirs[p := d'] - {x}, rest[p := d'];
    assert forall j :: j in some ==> j in all && some[j] == all[j];
  }

  lemma ShrunkNumbered(v: View, ibits: seq<bool>, bytes: map<nat, seq<Byte>>, t: Tree, v': View, x: nat, p: nat)
    requires x < |ibits| && x in t.ref
    requires Numbered(v, ibits, t) && bytes.Keys == t.files && Shrunk(v, v', x, p)
    ensures Numbered(v', ibits[x := false], WithoutChild(t, x))
    ensures (bytes - {x}).Keys == WithoutChild(t, x).files
  {
    hide Same;
  }

  /** The file system after inode x, whose name stood in directory p, is gone. */
  ghost function Without(w: World, v': View, x: nat, p: nat, d': Dir): (w': World)
    requires x in w.tree.ref && x < |w.ibits|
  {
    World(v', w.ibits[x := false], w.bytes - {x}, w.dirs[p := d'] - {x}, WithoutChild(w.tree, x))
  }

  lemma WithoutOk(w: World, v': View, x: nat, p: nat, d': Dir)
    requires x in w.tree.ref && p == w.tree.ref[x].dir && p in w.dirs && x < MAX_INODES
    requires FsOk(w) && CanRemove(w.tree, x)
    requires Sound(v') && RootFirst(v') && Shrunk(w.v, v', x, p) && DirAt(v', p, d')
      && Drops(w.dirs[p], d', w.tree.ref[x].name)
    ensures |w.ibits| == MAX_INODES && FsOk(Without(w, v', x, p, d'))
  {
    hide Files, DirsOk, RootFirst, Coupled, CanRemove, TreeOk, Sound, Same, DirAt, Drops, Numbered, Shrunk,
      WithoutChild;
    AllIn(w);
    RemoveChild(w.tree, x);
    CoupledRemove(w.dirs, w.tree, x, d');
    ShrunkFiles(w.v, w.bytes, v', x, p);
    ShrunkDirs(w.v, w.dirs, v', x, p, d');
    ShrunkNumbered(w.v, w.ibits, w.bytes, w.tree, v', x, p);
  }

  // ---------- a file written ----------

  lemma WrittenOk(w: World, v': View, ino: nat, buf: seq<Byte>)
    requires ino in w.bytes
    requires FsOk(w) && WriteDone(w.v, v', w.bytes, w.bytes[ino := w.bytes[ino] + buf], ino, buf)
    ensures FsOk(w.(v := v', bytes := w.bytes[ino := w.bytes[ino] + buf]))
  {
    hide Files, DirsOk, Coupled, TreeOk, Sound, DirAt, Numbered;
    AllIn(w);
    RootIn(w);
    WrittenNumbered(w.v, v', w.ibits, w.tree, ino);
    WrittenDirs(w.v, v', w.dirs, ino);
  }

  lemma RootIn(w: World)
    requires FsOk(w)
    ensures 0 in w.dirs && 0 in w.tree.dirs
  {
    hide Sound, Files, DirsOk, RootFirst, LinksKnown, RefsReal, Deeper, EntryOf, UpIs, Numbered;
  }

  lemma WrittenNumbered(v: View, v': View, ibits: seq<bool>, t: Tree, ino: nat)
    requires Numbered(v, ibits, t) && OnlyChanged(v, v', ino) && ino in v.inodes
    ensures Numbered(v', ibits, t)
  {
    assert v'.inodes.Keys == v.inodes.Keys;
  }

  lemma WrittenDirs(v: View, v': View, dirs: map<nat, Dir>, ino: nat)
    requires DirsOk(v, dirs) && OnlyChanged(v, v', ino) && ino !in dirs && Sound(v')
    ensures DirsOk(v', dirs)
  {
    hide Sound, DirOk, GridIs, Lists, Backs;
    forall j | j in dirs ensures DirAt(v', j, dirs[j]) {
      assert DirAt(v, j, dirs[j]);
      DirKept(v, v', j, dirs[j]);
    }
  }

  // ---------- the steps of the operations on the partition ----------

  lemma OthersSame(v: View, v': View, p: nat, j: nat)
    requires SameKeys(v) && OnlyChanged(v, v', p) && j in v.inodes && j != p
    ensures Same(v, v', j)
  {
    assert j in v.slots.Keys && j in v.data.Keys;
  }

  lemma EnteredSame(v: View, ino: nat, j: nat)
    requires SameKeys(v) && j in v.inodes && j != ino
    ensures Same(v, Entered(v, ino), j) && SameKeys(Entered(v, ino))
  {
    assert j in v.slots.Keys && j in v.data.Keys;
  }

  lemma SameTwice(v: View, v1: View, v2: View, j: nat)
    requires Same(v, v1, j) && Same(v1, v2, j)
    ensures Same(v, v2, j)
  {
  }

  lemma KeysKept(v: View, v': View, p: nat)
    requires OnlyChanged(v, v', p) && p in v.inodes
    ensures v'.inodes.Keys == v.inodes.Keys
  {
  }

  lemma KeysOf(v: View)
    requires Sound(v)
    ensures SameKeys(v)
  {
  }

  lemma RootStays(v: View, v': View, p: nat)
    requires RootFirst(v) && DirChanged(v, v', p)
    ensures RootFirst(v')
  {
  }

  lemma EnteredParts(v: View, ino: nat, p: nat)
    requires SameKeys(v)
    ensures SameKeys(Entered(v, ino)) && Entered(v, ino).inodes.Keys == v.inodes.Keys + {ino}
    ensures RootFirst(v) && ino != 0 ==> RootFirst(Entered(v, ino))
    ensures Files(Entered(v, ino), map[ino := []])
  {
    assert FileShape(Zeros(SLOTS), 0) && Spells(ZeroData(), 0, []);
    hide FileShape, Spells;
  }

  lemma EnteredThen(v: View, v3: View, ino: nat, p: nat)
    requires ino !in v.inodes && ino > 0 && p in v.inodes && Sound(v) && DirChanged(Entered(v, ino), v3, p)
      && RootFirst(v)
    ensures Grown(v, v3, ino, p) && RootFirst(v3) && Files(v3, map[ino := []])
  {
    hide Sound, SameKeys, Same, RootFirst, Files, Entered, OnlyChanged;
    KeysOf(v);
    var v1 := Entered(v, ino);
    EnteredParts(v, ino, p);
    forall j | j in v.inodes && j != p ensures Same(v, v3, j) {
      EnteredSame(v, ino, j);
      OthersSame(v1, v3, p, j);
      SameTwice(v, v1, v3, j);
    }
    RootStays(v1, v3, p);
    KeysKept(v1, v3, p);
    OthersSame(v1, v3, p, ino);
    FileKept(v1, v3, ino, []);
  }

  lemma ClaimedParts(v: View, ino: nat, b: int, parent: nat)
    requires Sound(v) && ino !in v.inodes && 0 < ino < MAX_INODES && parent < MAX_INODES
    requires 0 <= b - v.start < |v.bits| && !v.bits[b - v.start]
    ensures var v1 := Entered(v, ino);
            var v2 := Claimed(v1, ino, 0, b, DotsSector(ino, parent), 48);
            Sound(v2) && OnlyChanged(v1, v2, ino) && DirAt(v2, ino, NewDir(ino, parent))
  {
    hide Sound, Accounted, Lists, Backs, DotsSector, DirOk, GridIs, NewDir;
    EnteredSound(v, ino);
    var v1 := Entered(v, ino);
    ClaimedSound(v1, ino, 0, b, DotsSector(ino, parent), 48);
    assert b != 0 by {
      SoundAccounts(v);
      StartPositive(v);
    }
    NewDirAt(Claimed(v1, ino, 0, b, DotsSector(ino, parent), 48), ino, parent, b);
  }

  lemma ClaimedThen(v: View, v3: View, ino: nat, b: int, p: nat)
    requires Sound(v) && ino !in v.inodes && 0 < ino < MAX_INODES && p in v.inodes && p < MAX_INODES && RootFirst(v)
    requires 0 <= b - v.start < |v.bits| && !v.bits[b - v.start]
    requires Sound(v3) && DirChanged(Claimed(Entered(v, ino), ino, 0, b, DotsSector(ino, p), 48), v3, p)
    ensures Grown(v, v3, ino, p) && RootFirst(v3) && DirAt(v3, ino, NewDir(ino, p))
  {
    var v1 := Entered(v, ino);
    var v2 := Claimed(v1, ino, 0, b, DotsSector(ino, p), 48);
    hide Sound, SameKeys, Same, RootFirst, Files, Entered, OnlyChanged, Claimed, DotsSector, NewDir, DirAt;
    KeysOf(v);
    EnteredParts(v, ino, p);
    ClaimedParts(v, ino, b, p);
    forall j | j in v.inodes && j != p ensures Same(v, v3, j) {
      EnteredSame(v, ino, j);
      OthersSame(v1, v2, ino, j);
      SameTwice(v, v1, v2, j);
      KeysKept(v1, v2, ino);
      KeysOf(v2);
      OthersSame(v2, v3, p, j);
      SameTwice(v, v2, v3, j);
    }
    KeysOf(v2);
    RootKept(v1, v2, ino);
    RootStays(v2, v3, p);
    KeysKept(v1, v2, ino);
    KeysKept(v2, v3, p);
    OthersSame(v2, v3, p, ino);
    DirKept(v2, v3, ino, NewDir(ino, p));
  }

  lemma RootKept(v: View, v': View, ino: nat)
    requires RootFirst(v) && OnlyChanged(v, v', ino) && ino != 0
    ensures RootFirst(v')
  {
  }

  lemma RemovedThen(v: View, v1: View, v2: View, x: nat, p: nat, d': Dir)
    requires Sound(v) && Sound(v1) && Sound(v2) && p in v.inodes && x in v.inodes && x > 0 && p != x && RootFirst(v)
    requires DirChanged(v, v1, p) && Removed(v1, v2, x) && DirAt(v1, p, d')
    ensures Shrunk(v, v2, x, p) && RootFirst(v2) && DirAt(v2, p, d')
  {
    hide Sound, Same, SameKeys, OnlyChanged, DirAt, RootFirst, Removed;
    KeysOf(v);
    KeysOf(v1);
    KeysKept(v, v1, p);
    RootStays(v, v1, p);
    forall j | j in v.inodes && j != p && j != x ensures Same(v, v2, j) {
      OthersSame(v, v1, p, j);
      RemovedSame(v1, v2, x, j);
      SameTwice(v, v1, v2, j);
    }
    RemovedSame(v1, v2, x, p);
    DirKept(v1, v2, p, d');
  }

  lemma RemovedSame(v: View, v': View, x: nat, j: nat)
    requires SameKeys(v) && Removed(v, v', x) && j in v.inodes && j != x
    ensures Same(v, v', j) && v'.inodes.Keys == v.inodes.Keys - {x}
    ensures RootFirst(v) && x != 0 ==> RootFirst(v')
  {
    assert j in v.slots.Keys && j in v.data.Keys;
  }

  // ---------- a freshly formatted partition ----------

  ghost function RootTree(): (t: Tree) {
    Tree({0}, {}, map[], map[], map[0 := 0])
  }

  ghost function FormattedWorld(start: nat, blocks: nat): (w: World) {
    World(Formatted(start, blocks, DotsSector(0, 0)), seq(MAX_INODES, k => k == 0), map[], map[0 := NewDir(0, 0)],
      RootTree())
  }

  lemma FormattedOk(start: nat, blocks: nat)
    requires 0 < start && 0 < blocks && start + blocks <= U32_LIMIT
    ensures FsOk(FormattedWorld(start, blocks))
  {
    var w := FormattedWorld(start, blocks);
    hide Sound, DirAt, DotsSector;
    FormattedSound(start, blocks, DotsSector(0, 0));
    NewDirAt(w.v, 0, 0, start);
    DotsCells(0, 0, 0, 1);
    assert DirsOk(w.v, w.dirs);
    assert Files(w.v, w.bytes);
    hide DotsGrid;
    assert TreeOk(w.tree);
    assert Coupled(w.dirs, w.tree);
  }
}
