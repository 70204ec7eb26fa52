/** Creating, writing and removing files and directories on a mounted partition. */
module FileSystem {
  import opened Words
  import opened Bitmaps
  import opened Volume
  import opened Partitions
  import opened FileData
  import opened FileIo
  import opened DirData
  import opened Directories
  import opened DirTree
  import opened InodeOps
  import opened NewDirs
  import opened FsState
  import opened InodeRecords
  import BitmapSync

  /** Done with the inode concerned, refused with -1, the kernel stopped at a failed assertion, or a
      directory whose direct blocks are full would have to take another entry, which is not followed. */
  datatype Outcome = Done(ino: nat) | Refused | Stopped | Beyond

  const MOST_ENTRIES := 252         // twelve blocks of 21 entries

  /** The direct blocks of directory p are full. */
  ghost predicate Crowded(w: World, p: nat) {
    p in w.dirs && |LiveList(w.dirs[p].grid)| >= MOST_ENTRIES
  }

  /** The data area is where it was and as large. */
  ghost predicate SameArea(w: World, w': World) {
    w'.v.start == w.v.start && |w'.v.bits| == |w.v.bits|
  }

  /** The next entry of directory p needs another block. */
  ghost predicate NeedsNewBlock(v: View, p: nat, d: Dir) {
    p in v.inodes && |v.inodes[p].sectors| == 13 && NeedsBlock(AllBlocks(v.disk, v.inodes[p]), d.grid)
  }

  lemma NameUsable(name: Str)
    requires GoodName(name)
    ensures NoZero(name) && 1 <= |name| <= 15
  {
  }

  lemma OnlyDotsIs(ino: nat, p: nat)
    ensures OnlyDots(NewDir(ino, p), p)
  {
    DotsCells(ino, p, 0, 1);
  }

  lemma InsertDoneNames(v: View, v': View, self: nat, d: Dir, d': Dir, e: Entry)
    requires DirAt(v, self, d) && InsertDone(v, v', self, d, d', e) && e.name !in d.ix.at
    ensures Inserts(d, d', e) && DirChanged(v, v', self) && DirAt(v', self, d') && Sound(v')
  {
    hide Inserts, Sound, DirChanged;
    ShapedIn(v, self, d);
    DirParts(v, self, d);
    var k: nat, i: nat :| FirstPlace(AllBlocks(v.disk, v.inodes[self]), d.grid, k, i) && d' == Inserted(d, k, i, e);
    if AllBlocks(v.disk, v.inodes[self])[k] == 0 {
      MissingRow(v, self, d, k);
    }
    hide DirAt, Located, OneEach, Dots;
    InsertsNames(d, k, i, e, self);
  }

  /** What sync_dir_entry needs, after the new inode is entered. */
  lemma EnteredReady(w: World, p: nat, e: Entry)
    requires FsOk(w) && p in w.tree.dirs && p in w.dirs && Spot(p, e.name) !in w.tree.link && !DotName(e.name)
    requires GoodName(e.name) && e.ftype == FT_REGULAR && 0 < e.ino < MAX_INODES && e.ino !in w.v.inodes
    ensures var v1 := Entered(w.v, e.ino);
      && v1.bits == w.v.bits && Sound(v1) && DirAt(v1, p, w.dirs[p])
      && (NeedsNewBlock(v1, p, w.dirs[p]) <==> NeedsNewBlock(w.v, p, w.dirs[p]))
    ensures Shaped(w.dirs[p].grid) && Insertable(w.dirs[p].grid, w.dirs[p].ix, e)
  {
    hide *;
    FsParts(w);
    DirIn(w, p);
    CanInsert(w, p, e);
    EnteredSound(w.v, e.ino);
    KeysOf(w.v);
    EnteredSame(w.v, e.ino, p);
    DirKept(w.v, Entered(w.v, e.ino), p, w.dirs[p]);
    SameNeed(w.v, e.ino, p, w.dirs[p]);
  }

  lemma SameNeed(v: View, ino: nat, p: nat, d: Dir)
    requires p in v.inodes && p != ino
    ensures NeedsNewBlock(Entered(v, ino), p, d) <==> NeedsNewBlock(v, p, d)
    ensures Entered(v, ino).bits == v.bits
  {
    hide AllBlocks, NeedsBlock;
  }

  /** A file created. */
  lemma CreateOk(w: World, v3: View, p: nat, e: Entry, d': Dir)
    requires FsOk(w) && p in w.tree.dirs && p in w.dirs && Spot(p, e.name) !in w.tree.link && !DotName(e.name)
    requires GoodName(e.name) && e.ftype == FT_REGULAR && 0 < e.ino < MAX_INODES && e.ino !in w.v.inodes
    requires InsertDone(Entered(w.v, e.ino), v3, p, w.dirs[p], d', e)
    ensures p in w.tree.depth && |w.ibits| == MAX_INODES && FsOk(Added(w, v3, p, e, d', NewDir(e.ino, p)))
    ensures v3.start == w.v.start && |v3.bits| == |w.v.bits|
  {
    Types();
    hide *;
    FsParts(w);
    DirIn(w, p);
    CanInsert(w, p, e);
    EnteredReady(w, p, e);
    NameIn(w, p, e.name);
    InsertDoneNames(Entered(w.v, e.ino), v3, p, w.dirs[p], d', e);
    ChangedArea(Entered(w.v, e.ino), v3, p);
    EnteredArea(w.v, e.ino);
    EnteredThen(w.v, v3, e.ino, p);
    OnlyDotsIs(e.ino, p);
    NewFileIs(v3, p, e, NewDir(e.ino, p));
    AddedOk(w, v3, p, e, d', NewDir(e.ino, p));
  }

  lemma ChangedArea(v: View, v': View, self: nat)
    requires DirChanged(v, v', self)
    ensures v'.start == v.start && |v'.bits| == |v.bits|
  {
  }

  lemma EnteredArea(v: View, i: nat)
    ensures Entered(v, i).start == v.start && Entered(v, i).bits == v.bits
  {
  }

  lemma Types()
    ensures FT_REGULAR != FT_DIRECTORY
  {
  }

  lemma NewFileIs(v: View, p: nat, e: Entry, nd: Dir)
    requires OnlyDots(nd, p) && e.ino > 0 && e.ftype == FT_REGULAR && Files(v, map[e.ino := []])
    ensures NewContents(v, p, e, nd)
  {
  }

  /** The name is in use in directory p. */
  ghost predicate Taken(w: World, p: nat, name: Str) {
    DotName(name) || Spot(p, name) in w.tree.link
  }

  /** What file_create comes to: the name is refused when taken, the kernel stops exactly when there
      is no inode, or no block where the directory needs one, and otherwise the least unused inode
      number becomes an empty file of that name. */
  ghost predicate Creates(w: World, w': World, p: nat, name: Str, r: Outcome) {
    match r
    case Refused => Taken(w, p, name) && w' == w
    case Beyond => !Taken(w, p, name) && Crowded(w, p)
    case Stopped => !Taken(w, p, name) && !Crowded(w, p) && NoRoomForFile(w, p)
    case Done(ino) =>
      && !Taken(w, p, name) && !Crowded(w, p) && !NoRoomForFile(w, p) && FsOk(w') && SameArea(w, w') && ino > 0
      && FreshIno(w.tree, ino) && p in w.tree.depth
      && w'.tree == WithChild(w.tree, p, Entry(name, ino, FT_REGULAR)) && w'.bytes == w.bytes[ino := []]
  }

  ghost predicate NoRoomForFile(w: World, p: nat) {
    p in w.dirs && (Full(w.ibits) || (Free(w.v.bits) == 0 && NeedsNewBlock(w.v, p, w.dirs[p])))
  }

  lemma CreateRefused(w: World, p: nat, name: Str)
    requires DotName(name) || Spot(p, name) in w.tree.link
    ensures Creates(w, w, p, name, Refused)
  {
  }

  lemma CreateStopped(w: World, w': World, p: nat, name: Str)
    requires p in w.dirs && !DotName(name) && Spot(p, name) !in w.tree.link && !Crowded(w, p)
    requires Full(w.ibits) || (Free(w.v.bits) == 0 && NeedsNewBlock(w.v, p, w.dirs[p]))
    ensures Creates(w, w', p, name, Stopped)
  {
    hide Crowded;
  }

  lemma TooCrowded(w: World, w': World, p: nat, name: Str)
    requires !DotName(name) && Spot(p, name) !in w.tree.link && Crowded(w, p)
    ensures Creates(w, w', p, name, Beyond) && MakesDir(w, w', p, name, Beyond)
  {
    hide Crowded;
  }

  lemma CreateDone(w: World, v': View, p: nat, e: Entry, d': Dir)
    requires p in w.tree.depth && 0 < e.ino < |w.ibits| && p in w.dirs && e.ftype == FT_REGULAR && !Crowded(w, p)
    requires v'.start == w.v.start && |v'.bits| == |w.v.bits|
    requires !DotName(e.name) && Spot(p, e.name) !in w.tree.link && !Full(w.ibits)
    requires !(Free(w.v.bits) == 0 && NeedsNewBlock(w.v, p, w.dirs[p])) && FreshIno(w.tree, e.ino)
    requires FsOk(Added(w, v', p, e, d', NewDir(e.ino, p)))
    ensures Creates(w, Added(w, v', p, e, d', NewDir(e.ino, p)), p, e.name, Done(e.ino))
  {
    hide Crowded, FsOk, NeedsNewBlock, Full, FreshIno, NewDir, DirsWith, WithChild;
  }

  lemma AddedIs(w: World, v': View, p: nat, e: Entry, d': Dir, nd: Dir)
    requires p in w.tree.depth && 0 < e.ino < |w.ibits|
    ensures Added(w, v', p, e, d', nd) ==
      World(v', w.ibits[e.ino := true], BytesWith(w.bytes, e), DirsWith(w.dirs, p, e, d', nd), WithChild(w.tree, p, e))
  {
  }

  lemma ScanDecides(bits: seq<bool>, r: ScanResult)
    requires ScanSpec(bits, true, 1, r) && !r.NotFound?
    ensures r.Panic? <==> Full(bits)
    ensures r.At? ==> LeastRun(bits, r.index, 1)
  {
  }

  lemma NeedIs(v: View, p: nat, d: Dir)
    requires p in v.inodes && |v.inodes[p].sectors| == 13
    ensures NeedsNewBlock(v, p, d) <==> NeedsBlock(AllBlocks(v.disk, v.inodes[p]), d.grid)
  {
  }

  // ---------- sys_mkdir ----------

  ghost predicate NoRoomForDir(w: World, p: nat) {
    p in w.dirs &&
    (Full(w.ibits) || Free(w.v.bits) == 0 || (Free(w.v.bits) == 1 && NeedsNewBlock(w.v, p, w.dirs[p])))
  }

  /** What sys_mkdir comes to: as for a file, but the new directory takes a block of its own. */
  ghost predicate MakesDir(w: World, w': World, p: nat, name: Str, r: Outcome) {
    match r
    case Refused => Taken(w, p, name) && w' == w
    case Beyond => !Taken(w, p, name) && Crowded(w, p)
    case Stopped => !Taken(w, p, name) && !Crowded(w, p) && NoRoomForDir(w, p)
    case Done(ino) =>
      && !Taken(w, p, name) && !Crowded(w, p) && !NoRoomForDir(w, p) && FsOk(w') && SameArea(w, w') && ino > 0
      && FreshIno(w.tree, ino) && p in w.tree.depth
      && w'.tree == WithChild(w.tree, p, Entry(name, ino, FT_DIRECTORY)) && w'.bytes == w.bytes
  }

  lemma MkdirRefused(w: World, p: nat, name: Str)
    requires DotName(name) || Spot(p, name) in w.tree.link
    ensures MakesDir(w, w, p, name, Refused)
  {
  }

  lemma MkdirStopped(w: World, w': World, p: nat, name: Str)
    requires p in w.dirs && !DotName(name) && Spot(p, name) !in w.tree.link && !Crowded(w, p)
    requires Full(w.ibits) || Free(w.v.bits) == 0 || (Free(w.v.bits) == 1 && NeedsNewBlock(w.v, p, w.dirs[p]))
    ensures MakesDir(w, w', p, name, Stopped)
  {
    hide Crowded;
  }

  lemma MkdirDone(w: World, v': View, p: nat, e: Entry, d': Dir)
    requires p in w.tree.depth && 0 < e.ino < |w.ibits| && p in w.dirs && e.ftype == FT_DIRECTORY && !Crowded(w, p)
    requires v'.start == w.v.start && |v'.bits| == |w.v.bits|
    requires !DotName(e.name) && Spot(p, e.name) !in w.tree.link && !Full(w.ibits) && Free(w.v.bits) != 0
    requires !(Free(w.v.bits) == 1 && NeedsNewBlock(w.v, p, w.dirs[p])) && FreshIno(w.tree, e.ino)
    requires FsOk(Added(w, v', p, e, d', NewDir(e.ino, p)))
    ensures BytesWith(w.bytes, e) == w.bytes
    ensures MakesDir(w, Added(w, v', p, e, d', NewDir(e.ino, p)), p, e.name, Done(e.ino))
  {
    hide Crowded, FsOk, NeedsNewBlock, Full, FreshIno, NewDir, DirsWith, WithChild;
  }

  lemma EnteredClaimable(v: View, ino: nat)
    requires Sound(v) && ino !in v.inodes
    ensures var v1 := Entered(v, ino);
      && Accounts(v1) && ino in v1.inodes && |v1.inodes[ino].sectors| == 13 && ino in v1.data && |v1.data[ino]| == 140
      && ino in v1.slots && |v1.slots[ino]| == SLOTS && v1.slots[ino][0] == 0 && v1.bits == v.bits
      && v1.start == v.start
  {
    hide Sound, Accounts;
    EnteredSound(v, ino);
    SoundAccounts(Entered(v, ino));
  }

  /** The first data block belongs to the root, so no allocation ever finds it free. */
  lemma BlockNotFirst(w: World, j: int)
    requires FsOk(w) && 0 <= j < |w.v.bits| && !w.v.bits[j]
    ensures j != 0
  {
    assert RootFirst(w.v) && Accounts(w.v);
    hide Sound, Files, DirsOk, Numbered, Coupled, TreeOk;
    assert w.v.slots[0][0] in w.v.owner;
  }

  /** The new inode entered, its first block claimed and the dots written. */
  ghost function ClaimedFor(v: View, ino: nat, b: int, p: nat): (v': View)
    requires 0 <= b - v.start < |v.bits|
  {
    Claimed(Entered(v, ino), ino, 0, b, DotsSector(ino, p), 48)
  }

  lemma ClaimedIs(v: View, ino: nat, b: int, p: nat)
    requires 0 <= b - v.start < |v.bits|
    ensures var v1 := Entered(v, ino);
      && ino in v1.inodes && |v1.inodes[ino].sectors| == 13 && |v1.slots[ino]| == SLOTS && |v1.data[ino]| == 140
      && v1.bits == v.bits && v1.start == v.start
      && ClaimedFor(v, ino, b, p) == Claimed(v1, ino, 0, b, DotsSector(ino, p), 48)
    ensures ClaimedFor(v, ino, b, p).bits == v.bits[b - v.start := true] && ClaimedFor(v, ino, b, p).start == v.start
  {
  }

  lemma ClaimedReady(w: World, p: nat, e: Entry, b: int)
    requires 0 <= b - w.v.start < |w.v.bits| && !w.v.bits[b - w.v.start] && p in w.dirs
    requires FsOk(w) && p in w.tree.dirs && p in w.dirs && Spot(p, e.name) !in w.tree.link && !DotName(e.name)
    requires GoodName(e.name) && e.ftype == FT_DIRECTORY && 0 < e.ino < MAX_INODES && e.ino !in w.v.inodes
    ensures var v2 := ClaimedFor(w.v, e.ino, b, p);
      && Sound(v2) && DirAt(v2, p, w.dirs[p]) && Free(v2.bits) == Free(w.v.bits) - 1
      && (NeedsNewBlock(v2, p, w.dirs[p]) <==> NeedsNewBlock(w.v, p, w.dirs[p]))
    ensures Shaped(w.dirs[p].grid) && Insertable(w.dirs[p].grid, w.dirs[p].ix, e)
  {
    hide *;
    var v1, v2 := Entered(w.v, e.ino), ClaimedFor(w.v, e.ino, b, p);
    FsParts(w);
    ClaimedIs(w.v, e.ino, b, p);
    DirIn(w, p);
    CanInsert(w, p, e);
    EnteredClaimable(w.v, e.ino);
    KeysOf(w.v);
    EnteredSame(w.v, e.ino, p);
    ClaimedParts(w.v, e.ino, b, p);
    OthersSame(v1, v2, e.ino, p);
    SameTwice(w.v, v1, v2, p);
    DirKept(w.v, v2, p, w.dirs[p]);
    CountOne(w.v.bits, b - w.v.start);
    NeedsSame(w.v, v2, p, w.dirs[p]);
  }

  lemma CountOne(bits: seq<bool>, j: nat)
    requires j < |bits| && !bits[j]
    ensures Free(bits[j := true]) == Free(bits) - 1
  {
    CountUpdate(bits, j, true);
  }

  lemma NeedsSame(v: View, v': View, p: nat, d: Dir)
    requires Same(v, v', p)
    ensures NeedsNewBlock(v', p, d) <==> NeedsNewBlock(v, p, d)
  {
    if p in v.inodes && |v.inodes[p].sectors| == 13 {
      var a, b := AllBlocks(v.disk, v.inodes[p]), AllBlocks(v'.disk, v'.inodes[p]);
      assert forall k :: 0 <= k < 12 ==> a[k] == b[k];
      hide AllBlocks, Same;
      assert NeedsBlock(a, d.grid) <==> NeedsBlock(b, d.grid);
    }
  }

  /** A directory created. */
  lemma MkdirOk(w: World, v3: View, p: nat, e: Entry, b: int, d': Dir)
    requires FsOk(w) && p in w.tree.dirs && p in w.dirs && Spot(p, e.name) !in w.tree.link && !DotName(e.name)
    requires GoodName(e.name) && e.ftype == FT_DIRECTORY && 0 < e.ino < MAX_INODES && e.ino !in w.v.inodes
    requires 0 <= b - w.v.start < |w.v.bits| && !w.v.bits[b - w.v.start]
    requires InsertDone(ClaimedFor(w.v, e.ino, b, p), v3, p, w.dirs[p], d', e)
    ensures p in w.tree.depth && |w.ibits| == MAX_INODES && FsOk(Added(w, v3, p, e, d', NewDir(e.ino, p)))
    ensures v3.start == w.v.start && |v3.bits| == |w.v.bits|
  {
    hide *;
    FsParts(w);
    DirIn(w, p);
    CanInsert(w, p, e);
    ClaimedIs(w.v, e.ino, b, p);
    ClaimedReady(w, p, e, b);
    NameIn(w, p, e.name);
    InsertDoneNames(ClaimedFor(w.v, e.ino, b, p), v3, p, w.dirs[p], d', e);
    ChangedArea(ClaimedFor(w.v, e.ino, b, p), v3, p);
    ClaimedThen(w.v, v3, e.ino, b, p);
    OnlyDotsIs(e.ino, p);
    NewDirIs(v3, p, e, NewDir(e.ino, p));
    AddedOk(w, v3, p, e, d', NewDir(e.ino, p));
  }

  lemma NewDirIs(v: View, p: nat, e: Entry, nd: Dir)
    requires OnlyDots(nd, p) && e.ino > 0 && e.ftype == FT_DIRECTORY && DirAt(v, e.ino, nd)
    ensures NewContents(v, p, e, nd)
  {
  }

  // ---------- sys_unlink and sys_rmdir ----------

  /** The name leads to x, which can go: it is a file, or a directory with nothing but the dots. */
  ghost predicate Removable(w: World, p: nat, name: Str, x: nat) {
    Spot(p, name) in w.tree.link && w.tree.link[Spot(p, name)].ino == x && CanRemove(w.tree, x)
  }

  /** The name that leads to x is the one recorded for it. */
  lemma NameRecorded(w: World, p: nat, name: Str)
    requires FsOk(w) && Spot(p, name) in w.tree.link
    ensures var e := w.tree.link[Spot(p, name)];
      && 0 < e.ino < MAX_INODES && e.ino in w.v.inodes && e.ino in w.tree.ref && w.tree.ref[e.ino] == Spot(p, name)
      && e.ino != p && p in w.tree.dirs && e.name == name
  {
    var s := Spot(p, name);
    FsParts(w);
    hide FsOk, Sound, Files, DirsOk, RootFirst, Coupled;
  }

  lemma FileRemovable(w: World, p: nat, name: Str)
    requires FsOk(w) && Spot(p, name) in w.tree.link
    requires w.tree.link[Spot(p, name)].ftype != FT_DIRECTORY
    ensures w.tree.link[Spot(p, name)].ino >= 0 && Removable(w, p, name, w.tree.link[Spot(p, name)].ino)
  {
    FsParts(w);
    hide FsOk, Sound, Files, DirsOk, RootFirst, Coupled, Numbered;
  }

  lemma ThreeLive(grid: seq<Row>, k: nat, i: nat)
    requires Shaped(grid) && k < 12 && i < PER_SECTOR && (k > 0 || i > 1)
    requires Live(grid[0][0]) && Live(grid[0][1]) && Live(grid[k][i])
    ensures |LiveList(grid)| >= 3
  {
    hide LiveList;
    var g1 := Put(grid, 0, 0, EMPTY);
    var g2 := Put(g1, 0, 1, EMPTY);
    PutCount(grid, 0, 0, EMPTY);
    PutCount(g1, 0, 1, EMPTY);
    PutCount(g2, k, i, EMPTY);
    assert g2[k][i] == grid[k][i];
  }

  /** A directory with two live entries has no names but the dots. */
  lemma TwoAreTheDots(v: View, self: nat, d: Dir, n: Str)
    requires DirAt(v, self, d) && |LiveList(d.grid)| == 2 && n in d.ix.at
    ensures DotName(n)
  {
    hide *;
    ShapedIn(v, self, d);
    if !DotName(n) {
      NamedPlace(d, self, n);
    }
  }

  lemma NamedPlace(d: Dir, self: nat, n: Str)
    requires Shaped(d.grid) && Located(d.grid, d.ix.at) && Dots(self, d.grid) && n in d.ix.at && !DotName(n)
    ensures |LiveList(d.grid)| >= 3
  {
    hide LiveList;
    var (k, i) := d.ix.at[n];
    ThreeLive(d.grid, k, i);
  }

  /** The entry of x in directory p is where the index says, and it has x's name. */
  lemma EntryOfInode(w: World, p: nat, name: Str, k: int, i: int)
    requires FsOk(w) && Spot(p, name) in w.tree.link && p in w.dirs && Shaped(w.dirs[p].grid) && 0 <= k < 12
      && 0 <= i < PER_SECTOR
    requires Wanted(w.dirs[p].grid[k][i], w.tree.link[Spot(p, name)].ino)
    ensures w.dirs[p].grid[k][i].name == name && !DotName(name)
  {
    NameRecorded(w, p, name);
    EntryKnown(w, p, k, i);
    var e := w.dirs[p].grid[k][i];
    NameRecorded(w, p, e.name);
    hide FsOk, Shaped;
  }

  /** There is such an entry. */
  lemma EntryThere(w: World, p: nat, name: Str)
    requires FsOk(w) && Spot(p, name) in w.tree.link && p in w.dirs
    ensures Shaped(w.dirs[p].grid)
    ensures exists k, i ::
      0 <= k < 12 && 0 <= i < PER_SECTOR && Wanted(w.dirs[p].grid[k][i], w.tree.link[Spot(p, name)].ino)
  {
    NameRecorded(w, p, name);
    DirIn(w, p);
    ShapedIn(w.v, p, w.dirs[p]);
    FsParts(w);
    CoupledAt(w.dirs, w.tree, p, name);
    hide FsOk, DirAt, Coupled, TreeOk, Sound, Files, DirsOk, RootFirst, Numbered, OneEach, Dots;
    var (k, i) := w.dirs[p].ix.at[name];
    assert Wanted(w.dirs[p].grid[k][i], w.tree.link[Spot(p, name)].ino);
  }

  lemma Erased(w: World, v1: View, v2: View, p: nat, name: Str, x: nat, k: int, i: int, d': Dir)
    requires p in w.dirs && Shaped(w.dirs[p].grid) && 0 <= k < 12 && 0 <= i < PER_SECTOR
      && d' == Deleted(w.dirs[p], k, i)
    requires Wanted(w.dirs[p].grid[k][i], x)
    requires Sound(v1) && DirChanged(w.v, v1, p) && DirAt(v1, p, d')
    requires Sound(v2) && Removed(v1, v2, x)
    requires FsOk(w) && Removable(w, p, name, x)
    ensures x in w.tree.ref && 0 < x < MAX_INODES == |w.ibits| && p in w.tree.dirs && FsOk(Without(w, v2, x, p, d'))
  {
    hide *;
    FsParts(w);
    LeadsTo(w, p, name, x);
    NameRecorded(w, p, name);
    DirIn(w, p);
    ShapedIn(w.v, p, w.dirs[p]);
    EntryOfInode(w, p, name, k, i);
    WantedIs(w.dirs[p].grid[k][i], x);
    DropsNames(w.dirs[p], k, i, p);
    RemovableIs(w, p, name, x);
    RemovedThen(w.v, v1, v2, x, p, d');
    WithoutOk(w, v2, x, p, d');
  }

  lemma WantedIs(e: Entry, x: int)
    requires Wanted(e, x)
    ensures Live(e) && !DotName(e.name) && e.ino == x
  {
  }

  lemma RemovableIs(w: World, p: nat, name: Str, x: nat)
    requires Removable(w, p, name, x)
    ensures CanRemove(w.tree, x)
  {
  }

  lemma LeadsTo(w: World, p: nat, name: Str, x: nat)
    requires Removable(w, p, name, x)
    ensures Spot(p, name) in w.tree.link && w.tree.link[Spot(p, name)].ino == x
  {
  }

  lemma StillThere(v: View, v': View, p: nat, x: nat)
    requires DirChanged(v, v', p) && x in v.inodes
    ensures x in v'.inodes
  {
  }

  lemma NumberedIs(w: World)
    requires Numbered(w.v, w.ibits, w.tree)
    ensures |w.ibits| == MAX_INODES
  {
  }

  lemma WithoutIs(w: World, v': View, x: nat, p: nat, d': Dir)
    requires x in w.tree.ref && x < |w.ibits|
    ensures Without(w, v', x, p, d') ==
      World(v', w.ibits[x := false], w.bytes - {x}, w.dirs[p := d'] - {x}, WithoutChild(w.tree, x))
  {
  }

  /** With no names but the dots a directory has two live entries. */
  lemma DotsAreTwo(v: View, self: nat, d: Dir)
    requires DirAt(v, self, d) && forall n :: n in d.ix.at ==> DotName(n)
    ensures |LiveList(d.grid)| == 2
  {
    var g1 := Put(d.grid, 0, 0, EMPTY);
    var g2 := Put(g1, 0, 1, EMPTY);
    PutCount(d.grid, 0, 0, EMPTY);
    PutCount(g1, 0, 1, EMPTY);
    forall k | 0 <= k < 12 ensures g2[k] == EmptyRow() {
      RestEmpty(v, self, d, k);
    }
    NothingListed(g2);
    ShapedIn(v, self, d);
    hide DirAt, LiveList, Located, OneEach;
  }

  lemma RestEmpty(v: View, self: nat, d: Dir, k: nat)
    requires DirAt(v, self, d) && (forall n :: n in d.ix.at ==> DotName(n)) && k < 12
    ensures Put(Put(d.grid, 0, 0, EMPTY), 0, 1, EMPTY)[k] == EmptyRow()
  {
    var g := Put(Put(d.grid, 0, 0, EMPTY), 0, 1, EMPTY);
    DotsPlaces(v, self, d);
    forall i | 0 <= i < PER_SECTOR ensures g[k][i] == EMPTY {
      if k > 0 || i > 1 {
        CellEmpty(v, self, d, k, i);
      }
    }
    hide DirAt;
  }

  lemma DotsPlaces(v: View, self: nat, d: Dir)
    requires DirAt(v, self, d)
    ensures Shaped(d.grid) && DOT in d.ix.at && DOTDOT in d.ix.at && d.ix.at[DOT] == (0, 0) && d.ix.at[DOTDOT] == (0, 1)
  {
    ShapedIn(v, self, d);
    hide DirAt;
    assert Live(d.grid[0][0]) && Live(d.grid[0][1]);
  }

  lemma CellEmpty(v: View, self: nat, d: Dir, k: nat, i: nat)
    requires DirAt(v, self, d) && (forall n :: n in d.ix.at ==> DotName(n)) && k < 12 && i < PER_SECTOR
      && (k > 0 || i > 1)
    ensures Shaped(d.grid) && d.grid[k][i] == EMPTY
  {
    DotsPlaces(v, self, d);
    ShapedIn(v, self, d);
    hide GridIs, Lists, Backs, Used, LiveList, OneEach;
    assert GoodEntry(d.grid[k][i]);
    hide DirAt, Clean;
    assert !Live(d.grid[k][i]);
  }

  /** dir_is_empty says whether the directory has children in the tree. */
  lemma EmptyIsChildless(w: World, x: nat)
    requires x in w.dirs && FsOk(w) && x in w.tree.dirs
    ensures |LiveList(w.dirs[x].grid)| == 2 <==> forall s :: s in w.tree.link ==> s.dir != x
  {
    hide *;
    FsParts(w);
    DirIn(w, x);
    if |LiveList(w.dirs[x].grid)| == 2 {
      forall s | s in w.tree.link ensures s.dir != x {
        CoupledAt(w.dirs, w.tree, s.dir, s.name);
        if s.dir == x {
          TwoAreTheDots(w.v, x, w.dirs[x], s.name);
        }
      }
    }
    if forall s :: s in w.tree.link ==> s.dir != x {
      forall n | n in w.dirs[x].ix.at ensures DotName(n) {
        CoupledAt(w.dirs, w.tree, x, n);
      }
      DotsAreTwo(w.v, x, w.dirs[x]);
    }
  }

  lemma LinkType(t: Tree, s: Spot)
    requires TreeOk(t) && s in t.link
    ensures t.link[s].ino >= 0
    ensures if t.link[s].ftype == FT_DIRECTORY then t.link[s].ino in t.dirs else t.link[s].ino in t.files
  {
  }

  lemma ChildlessCanGo(w: World, p: nat, name: Str, x: nat)
    requires TreeOk(w.tree) && Spot(p, name) in w.tree.link && w.tree.link[Spot(p, name)].ino == x
    requires forall s :: s in w.tree.link ==> s.dir != x
    ensures Removable(w, p, name, x)
  {
  }

  /** The name leads to a regular file. */
  ghost predicate IsFile(w: World, p: nat, name: Str) {
    Spot(p, name) in w.tree.link && w.tree.link[Spot(p, name)].ftype != FT_DIRECTORY
  }

  /** The name leads to a directory without children. */
  ghost predicate IsEmptyDir(w: World, p: nat, name: Str) {
    && Spot(p, name) in w.tree.link && w.tree.link[Spot(p, name)].ftype == FT_DIRECTORY
    && forall s :: s in w.tree.link ==> s.dir != w.tree.link[Spot(p, name)].ino
  }

  /** From v to v' inode x gave up its block list; no other list but that of p changed. */
  ghost predicate ListGone(v: View, v': View, p: nat, x: nat) {
    && p != x && p in v.slots && p in v'.slots && |v'.bits| == |v.bits| && v'.start == v.start
    && v'.slots - {p} == v.slots - {p, x}
  }

  lemma ListIsGone(v: View, v1: View, v2: View, p: nat, x: nat)
    requires DirChanged(v, v1, p) && Removed(v1, v2, x) && p != x
    ensures ListGone(v, v2, p, x)
  {
  }

  /** From w to w' inode x and its name are gone, and nothing else. */
  ghost predicate Gone(w: World, w': World, p: nat, name: Str, x: nat) {
    && Spot(p, name) in w.tree.link && w.tree.link[Spot(p, name)].ino == x && x in w.tree.ref
    && FsOk(w') && w'.tree == WithoutChild(w.tree, x) && w'.bytes == w.bytes - {x} && ListGone(w.v, w'.v, p, x)
    && SameArea(w, w')
  }

  /** What sys_unlink comes to: a regular file that is not open goes; anything else is refused; but a
      name that leads to the root stops the kernel. */
  ghost predicate Unlinks(w: World, w': World, p: nat, name: Str, open: set<nat>, r: Outcome) {
    match r
    case Refused =>
      && w' == w && (DotName(name) ==> DotTarget(w, p, name) != 0)
      && (IsFile(w, p, name) ==> w.tree.link[Spot(p, name)].ino in open)
    case Stopped => DotName(name) && DotTarget(w, p, name) == 0
    case Done(x) => IsFile(w, p, name) && x !in open && Gone(w, w', p, name, x)
    case Beyond => false
  }

  /** The directory a dot name in p leads to. */
  ghost function DotTarget(w: World, p: nat, name: Str): (x: nat) {
    if name == DOT then p else ParentOf(w.tree, p)
  }

  ghost predicate Childless(w: World, x: nat) {
    forall s :: s in w.tree.link ==> s.dir != x
  }

  /** From w to w' inode x and its blocks are gone, but no name is: the entry that leads to x stays. */
  ghost predicate Dangling(w: World, w': World, x: nat) {
    Removed(w.v, w'.v, x) && x < |w.ibits| && w' == World(w'.v, w.ibits[x := false], w.bytes, w.dirs, w.tree)
  }

  /** What sys_rmdir comes to: an empty directory goes, by its name; a directory with children and
      anything else is refused; the root stops the kernel; but "." of an empty directory releases
      the directory and leaves its name behind. */
  ghost predicate RemovesDir(w: World, w': World, p: nat, name: Str, r: Outcome) {
    match r
    case Refused =>
      w' == w && if DotName(name) then DotTarget(w, p, name) != 0 && !Childless(w, DotTarget(w, p, name))
        else !IsEmptyDir(w, p, name)
    case Stopped => DotName(name) && DotTarget(w, p, name) == 0
    case Done(x) =>
      if DotName(name) then name == DOT && x == p && p != 0 && Childless(w, p) && Dangling(w, w', p)
      else IsEmptyDir(w, p, name) && Gone(w, w', p, name, x)
    case Beyond => false
  }

  lemma EntryOfIs(d: Dir, name: Str, r: Option<Entry>)
    requires r.Some? <==> name in d.ix.at
    requires r.Some? ==> var (k, i) := d.ix.at[name];
      0 <= k < |d.grid| && 0 <= i < |d.grid[k]| && r.value == d.grid[k][i]
    ensures r.Some? ==> r.value == EntryOf(d, name)
  {
  }

  lemma UnlinkNoFile(w: World, p: nat, name: Str, open: set<nat>)
    requires Spot(p, name) in w.tree.link ==> w.tree.link[Spot(p, name)].ftype == FT_DIRECTORY
    requires DotName(name) ==> DotTarget(w, p, name) != 0
    ensures Unlinks(w, w, p, name, open, Refused)
  {
  }

  lemma UnlinkStopped(w: World, w': World, p: nat, name: Str, open: set<nat>)
    requires DotName(name) && DotTarget(w, p, name) == 0
    ensures Unlinks(w, w', p, name, open, Stopped)
  {
  }

  lemma UnlinkOpen(w: World, p: nat, name: Str, open: set<nat>)
    requires Spot(p, name) in w.tree.link && w.tree.link[Spot(p, name)].ino in open && !DotName(name)
    ensures Unlinks(w, w, p, name, open, Refused)
  {
  }

  lemma UnlinkDone(w: World, w': World, p: nat, name: Str, open: set<nat>, x: nat)
    requires Spot(p, name) in w.tree.link && w.tree.link[Spot(p, name)].ino == x && x !in open
    requires w.tree.link[Spot(p, name)].ftype != FT_DIRECTORY
    requires FsOk(w') && x in w.tree.ref && w'.tree == WithoutChild(w.tree, x) && w'.bytes == w.bytes - {x}
      && ListGone(w.v, w'.v, p, x)
    ensures Unlinks(w, w', p, name, open, Done(x))
  {
    GoneArea(w, w', p, x);
    hide FsOk, WithoutChild, ListGone, SameArea;
  }

  lemma GoneArea(w: World, w': World, p: nat, x: nat)
    requires ListGone(w.v, w'.v, p, x)
    ensures SameArea(w, w')
  {
  }

  lemma RmdirNoDir(w: World, p: nat, name: Str)
    requires !DotName(name) && (Spot(p, name) in w.tree.link ==> w.tree.link[Spot(p, name)].ftype != FT_DIRECTORY)
    ensures RemovesDir(w, w, p, name, Refused)
  {
  }

  lemma ParentIn(w: World, p: nat)
    requires FsOk(w) && p in w.tree.dirs && p in w.dirs
    ensures UpIs(w.dirs[p], ParentOf(w.tree, p)) && ParentOf(w.tree, p) in w.tree.dirs
  {
    hide Sound, Files, DirsOk, RootFirst, Numbered, LinksKnown, Deeper;
  }

  /** The parent of a directory other than the root has it as a child. */
  lemma ParentHasChild(w: World, p: nat)
    requires FsOk(w) && p in w.tree.dirs && ParentOf(w.tree, p) != 0
    ensures !Childless(w, ParentOf(w.tree, p))
  {
    FsParts(w);
    hide FsOk, Sound, Files, DirsOk, RootFirst, Numbered, Coupled, Deeper, LinksKnown;
    assert w.tree.ref[p] in w.tree.link;
  }

  lemma RmdirStopped(w: World, w': World, p: nat, name: Str)
    requires DotName(name) && DotTarget(w, p, name) == 0
    ensures RemovesDir(w, w', p, name, Stopped)
  {
  }

  lemma RmdirNotEmpty(w: World, p: nat, name: Str)
    requires DotName(name) ==> DotTarget(w, p, name) != 0 && !Childless(w, DotTarget(w, p, name))
    requires !DotName(name) ==>
      Spot(p, name) in w.tree.link && exists s :: s in w.tree.link && s.dir == w.tree.link[Spot(p, name)].ino
    ensures RemovesDir(w, w, p, name, Refused)
  {
  }

  lemma ChildlessIs(w: World, x: nat)
    ensures Childless(w, x) <==> forall s :: s in w.tree.link ==> s.dir != x
  {
  }

  lemma RmdirDone(w: World, w': World, p: nat, name: Str, x: nat)
    requires !DotName(name) && Spot(p, name) in w.tree.link && w.tree.link[Spot(p, name)].ino == x
    requires w.tree.link[Spot(p, name)].ftype == FT_DIRECTORY && forall s :: s in w.tree.link ==> s.dir != x
    requires FsOk(w') && x in w.tree.ref && w'.tree == WithoutChild(w.tree, x) && w'.bytes == w.bytes - {x}
      && ListGone(w.v, w'.v, p, x)
    ensures RemovesDir(w, w', p, name, Done(x))
  {
    GoneArea(w, w', p, x);
    hide FsOk, WithoutChild, ListGone, SameArea;
  }

  lemma RmdirDot(w: World, w': World, p: nat)
    requires p != 0 && Childless(w, p) && Dangling(w, w', p)
    ensures RemovesDir(w, w', p, DOT, Done(p))
  {
    hide Childless, Dangling;
  }

  /** An empty directory has no entry with its own number but ".". */
  lemma NoOwnEntry(w: World, p: nat)
    requires FsOk(w) && p in w.tree.dirs && p in w.dirs && Childless(w, p)
    ensures Shaped(w.dirs[p].grid)
    ensures forall k, i :: 0 <= k < 12 && 0 <= i < PER_SECTOR ==> !Wanted(w.dirs[p].grid[k][i], p)
  {
    DirIn(w, p);
    ShapedIn(w.v, p, w.dirs[p]);
    hide FsOk, DirAt, Located, Dots, OneEach, Shaped;
    forall k, i | 0 <= k < 12 && 0 <= i < PER_SECTOR ensures !Wanted(w.dirs[p].grid[k][i], p) {
      if Wanted(w.dirs[p].grid[k][i], p) {
        EntryKnown(w, p, k, i);
      }
    }
  }

  /** What file_write comes to: refused above the size limit, in 32-bit arithmetic; the kernel stops
      exactly at the limit or when the blocks needed are not there; otherwise exactly buf is appended to
      that file. */
  ghost predicate Writes(w: World, w': World, ino: nat, buf: seq<Byte>, r: WriteResult) {
    && ino in w.bytes && ino in w.v.slots && |w.v.slots[ino]| == SLOTS
    && var n := |w.bytes[ino]| + |buf|;
       var need := Need(w.v.slots[ino], |w.bytes[ino]|, |buf|);
       match r
       case TooLarge => n % U32_LIMIT > MAX_FILE && w' == w
       case Overrun => n >= U32_LIMIT && n % U32_LIMIT <= MAX_FILE
       case Halted => n == MAX_FILE || (n < MAX_FILE && Free(w.v.bits) < need)
       case Wrote(c) =>
         && n < MAX_FILE && Free(w.v.bits) >= need && c == |buf| && FsOk(w')
         && w'.tree == w.tree && w'.bytes == w.bytes[ino := w.bytes[ino] + buf] && SameArea(w, w')
  }

  lemma WroteArea(w: World, w': World, ino: nat)
    requires OnlyChanged(w.v, w'.v, ino)
    ensures SameArea(w, w')
  {
  }

  lemma WriteFinished(w: World, w': World, ino: nat, buf: seq<Byte>, r: WriteResult)
    requires ino in w.bytes && FsOk(w)
    requires SizeAnswer(|w.bytes[ino]| + |buf|, r)
    requires r == TooLarge ==> w' == w
    requires ino in w.v.slots && |w.v.slots[ino]| == SLOTS
    requires r == Halted <==>
      || |w.bytes[ino]| + |buf| == MAX_FILE
      || (|w.bytes[ino]| + |buf| < MAX_FILE && Free(w.v.bits) < Need(w.v.slots[ino], |w.bytes[ino]|, |buf|))
    requires w'.ibits == w.ibits && w'.dirs == w.dirs && w'.tree == w.tree
    requires r.Wrote? ==>
      && r.count == |buf| && Sound(w'.v) && Files(w'.v, w'.bytes) && OnlyChanged(w.v, w'.v, ino)
      && w'.bytes == w.bytes[ino := w.bytes[ino] + buf]
    ensures Writes(w, w', ino, buf, r)
  {
    hide FsOk, Need, Sound, Files, OnlyChanged, SameArea;
    if r.Wrote? {
      WroteArea(w, w', ino);
      WrittenOk(w, w'.v, ino, buf);
      assert w' == w.(v := w'.v, bytes := w.bytes[ino := w.bytes[ino] + buf]);
    }
  }

  lemma DanglingIs(w: World, v': View, x: nat)
    requires Removed(w.v, v', x) && x < |w.ibits|
    ensures Dangling(w, World(v', w.ibits[x := false], w.bytes, w.dirs, w.tree), x)
  {
    hide Removed;
  }

  /** What sys_rmdir hands to dir_remove can be erased: by its name, or it is "." itself. */
  lemma EraseReady(w: World, p: nat, name: Str, x: nat)
    requires FsOk(w) && p in w.tree.dirs && Childless(w, x) && x != 0
    requires DotName(name) ==> x == DotTarget(w, p, name)
    requires !DotName(name) ==> Spot(p, name) in w.tree.link && w.tree.link[Spot(p, name)].ino == x
    ensures DotName(name) ==> name == DOT && x == p && !Removable(w, p, name, x)
    ensures !DotName(name) ==> Removable(w, p, name, x)
  {
    FsParts(w);
    if name == DOTDOT {
      ParentHasChild(w, p);
    }
    if !DotName(name) {
      ChildlessCanGo(w, p, name, x);
    } else {
      CoupledAt(w.dirs, w.tree, p, name);
    }
    hide FsOk, Sound, Files, DirsOk, RootFirst, Numbered, Coupled, TreeOk;
  }

  lemma SizeIs(v: View, self: nat, d: Dir)
    requires DirAt(v, self, d)
    ensures self in v.inodes && v.inodes[self].size == 24 * |LiveList(d.grid)|
  {
    hide Clean, Located, OneEach, Used, Dots, GridIs, Lists, Backs;
  }

  lemma CrowdedIs(w: World, p: nat)
    ensures MOST_ENTRIES == 252 && (Crowded(w, p) <==> p in w.dirs && |LiveList(w.dirs[p].grid)| >= 252)
  {
  }

  // ---------- the block bitmap on disk ----------

  /** A write of n bytes to file ino creates its table and leaves the table's bit stale on disk. */
  ghost predicate LeavesStale(w: World, ino: nat, n: nat) {
    && ino in w.bytes && ino in w.v.slots && |w.v.slots[ino]| == SLOTS
    && BitmapSync.StaleTable(w.v.bits, FirstNeed(w.v, ino), |w.bytes[ino]| / 512 + 1, (|w.bytes[ino]| + n) / 512 + 1)
  }

  lemma StaleDecides(w: World, ino: nat, buf: seq<Byte>, r: WriteResult, bits: seq<bool>, dbits: seq<bool>)
    requires FsOk(w) && ino in w.bytes && ino in w.v.slots && |w.v.slots[ino]| == SLOTS && r.Wrote?
    requires |w.bytes[ino]| + |buf| < MAX_FILE && Free(w.v.bits) >= Need(w.v.slots[ino], |w.bytes[ino]|, |buf|)
    requires BitmapSync.Maps(bits, dbits) == MapsAfter(w.v, w.v.bits, ino, |w.bytes[ino]|, |buf|)
    ensures dbits == bits <==> !LeavesStale(w, ino, |buf|)
  {
    var size, n, first := |w.bytes[ino]|, |buf|, FirstNeed(w.v, ino);
    var has, will := size / 512 + 1, (size + n) / 512 + 1;
    MapsAfterIs(w.v, w.v.bits, ino, size, n);
    FsParts(w);
    FileOf(w.v, w.bytes, ino);
    FileSize(w.v, ino, w.bytes[ino]);
    NeedSplit(w.v, ino, n, w.bytes[ino], has, will);
    CostIs(has);
    CostIs(will);
    assert first <= 1 && Free(w.v.bits) == |w.v.bits| - Count(w.v.bits);
    BitmapSync.WrittenExact(BitmapSync.Maps(w.v.bits, w.v.bits), first, has, will);
    hide *;
    ExactIs(bits, dbits);
    LeavesIs(w, ino, n);
  }

  lemma ExactIs(bits: seq<bool>, dbits: seq<bool>)
    ensures BitmapSync.Exact(BitmapSync.Maps(bits, dbits)) <==> dbits == bits
    ensures BitmapSync.Exact(BitmapSync.Maps(bits, bits))
  {
  }

  lemma LeavesIs(w: World, ino: nat, n: nat)
    requires ino in w.bytes && ino in w.v.slots && |w.v.slots[ino]| == SLOTS
    ensures LeavesStale(w, ino, n) <==>
      BitmapSync.StaleTable(w.v.bits, FirstNeed(w.v, ino), |w.bytes[ino]| / 512 + 1, (|w.bytes[ino]| + n) / 512 + 1)
  {
    hide FirstNeed;
  }

  // ---------- which inodes an operation changes ----------

  lemma FormattedIs(start: nat, blocks: nat, ibits: seq<bool>)
    requires ibits == seq(MAX_INODES, k => k == 0)
    ensures FormattedWorld(start, blocks) ==
            World(Formatted(start, blocks, DotsSector(0, 0)), ibits, map[], map[0 := NewDir(0, 0)], RootTree())
  {
    hide Formatted, DotsSector, NewDir, RootTree;
  }

  lemma RootInode(start: nat, blocks: nat)
    ensures var v := FormattedWorld(start, blocks).v;
      v.inodes.Keys == {0} && 0 in v.inodes && |v.inodes[0].sectors| == 13
  {
  }

  lemma ThirteenSectors(v: View, i: nat)
    requires Sound(v) && i in v.inodes
    ensures |v.inodes[i].sectors| == 13
  {
    InodeOf(v, i);
    hide Sound, TableWord, Backs;
  }

  /** From inodes to inodes' nothing changed but what is in `some`. */
  ghost predicate Touched(inodes: map<nat, Inode>, inodes': map<nat, Inode>, some: set<nat>) {
    forall k :: k in inodes' && k !in some ==> k in inodes && inodes'[k] == inodes[k]
  }

  lemma TouchedOne(v: View, v': View, i: nat)
    requires OnlyChanged(v, v', i)
    ensures i in v'.inodes && Touched(v.inodes, v'.inodes, {i})
  {
  }

  lemma TouchedDir(v: View, v': View, p: nat)
    requires DirChanged(v, v', p)
    ensures p in v'.inodes && Touched(v.inodes, v'.inodes, {p}) && forall k :: k in v.inodes ==> k in v'.inodes
  {
    hide Touched;
    TouchedOne(v, v', p);
  }

  lemma TouchedNew(v: View, i: nat)
    ensures i in Entered(v, i).inodes && Touched(v.inodes, Entered(v, i).inodes, {i})
  {
  }

  lemma TouchedClaim(v: View, i: nat, b: int, p: nat)
    requires 0 <= b - v.start < |v.bits|
    ensures i in ClaimedFor(v, i, b, p).inodes && Touched(v.inodes, ClaimedFor(v, i, b, p).inodes, {i})
  {
    hide DotsSector, Zeros, ZeroData;
  }

  lemma TouchedBoth(a: map<nat, Inode>, b: map<nat, Inode>, c: map<nat, Inode>, s: set<nat>, t: set<nat>)
    requires Touched(a, b, s) && Touched(b, c, t)
    ensures Touched(a, c, s + t)
  {
  }

  lemma InsertDoneIs(v: View, v': View, p: nat, d: Dir, d': Dir, e: Entry)
    requires InsertDone(v, v', p, d, d', e)
    ensures Sound(v') && DirChanged(v, v', p)
  {
    hide Sound, DirChanged, DirAt, FirstPlace, Inserted, AllBlocks;
  }

  lemma CreatedInodes(v: View, v1: View, v3: View, p: nat, ino: nat)
    requires Touched(v.inodes, v1.inodes, {ino}) && DirChanged(v1, v3, p)
    ensures Touched(v.inodes, v3.inodes, {ino} + {p})
  {
    hide *;
    TouchedDir(v1, v3, p);
    TouchedBoth(v.inodes, v1.inodes, v3.inodes, {ino}, {p});
  }

  lemma GoneFrom(v1: View, v2: View, x: nat)
    requires Removed(v1, v2, x)
    ensures x !in v2.inodes && Touched(v1.inodes, v2.inodes, {})
  {
  }

  /** What inode_sync needs of the inode of a live file or directory. */
  lemma Syncable(w: World, i: nat)
    requires FsOk(w) && (i in w.tree.dirs || i in w.tree.files)
    ensures i in w.v.inodes && i < 4096 && |w.v.inodes[i].sectors| == 13
  {
    FsParts(w);
    hide FsOk, Sound, Files, DirsOk, RootFirst, Coupled, TreeOk;
    ThirteenSectors(w.v, i);
  }

  lemma NotTaken(w: World, w': World, p: nat, name: Str, r: Outcome)
    requires !Taken(w, p, name)
    ensures Creates(w, w', p, name, r) || MakesDir(w, w', p, name, r) ==> r != Refused
  {
    hide FsOk, WithChild, FreshIno, SameArea, Taken, Crowded, NoRoomForFile, NoRoomForDir;
  }

  lemma CreatedParts(w: World, w': World, p: nat, name: Str, r: Outcome)
    requires Creates(w, w', p, name, r) && r.Done?
    ensures FsOk(w') && p in w.tree.depth && r.ino > 0
      && w'.tree == WithChild(w.tree, p, Entry(name, r.ino, FT_REGULAR))
  {
    hide FsOk, WithChild, FreshIno, SameArea;
  }

  lemma MadeParts(w: World, w': World, p: nat, name: Str, r: Outcome)
    requires MakesDir(w, w', p, name, r) && r.Done?
    ensures FsOk(w') && p in w.tree.depth && r.ino > 0
      && w'.tree == WithChild(w.tree, p, Entry(name, r.ino, FT_DIRECTORY))
  {
    hide FsOk, WithChild, FreshIno, SameArea;
  }

  lemma WroteParts(w: World, w': World, ino: nat, buf: seq<Byte>, r: WriteResult)
    requires FsOk(w) && Writes(w, w', ino, buf, r) && r.Wrote?
    ensures FsOk(w') && ino in w'.tree.files
  {
    FsParts(w);
    hide FsOk, SameArea, Need;
  }

  lemma EraseTouches(v: View, v1: View, v2: View, p: nat, x: nat, found: bool)
    requires (found ==> DirChanged(v, v1, p)) && (!found ==> v1 == v) && Removed(v1, v2, x)
    ensures x !in v2.inodes && Touched(v.inodes, v2.inodes, if found then {p} else {})
  {
    hide DirChanged, Removed;
    GoneFrom(v1, v2, x);
    if found {
      TouchedDir(v, v1, p);
    }
  }

  lemma TouchedIs(inodes: map<nat, Inode>, inodes': map<nat, Inode>)
    requires Touched(inodes, inodes', {})
    ensures forall i :: i in inodes' && i !in {} ==> i in inodes && inodes'[i] == inodes[i]
  {
  }

  lemma OtherThan(v: View, v': View, p: nat, x: nat)
    requires ListGone(v, v', p, x)
    ensures p != x
  {
  }

  /** The inode to be erased has a number of the table. */
  lemma NumberBelow(w: World, p: nat, name: Str, x: nat)
    requires FsOk(w) && p in w.tree.dirs && (Removable(w, p, name, x) || x == p)
    ensures x < 4096
  {
    hide *;
    if Removable(w, p, name, x) {
      LeadsTo(w, p, name, x);
      NameRecorded(w, p, name);
      MaxInodes();
    } else {
      Syncable(w, p);
    }
  }

  lemma MaxInodes()
    ensures MAX_INODES == 4096
  {
  }

  lemma NewIsThere(w: World, w': World, p: nat, e: Entry)
    requires p in w.tree.depth && e.ino > 0 && w'.tree == WithChild(w.tree, p, e) && p in w.tree.dirs
    ensures p in w'.tree.dirs && (e.ino in w'.tree.dirs || e.ino in w'.tree.files)
  {
  }

  lemma ParentStays(w: World, w': World, p: nat, x: nat)
    requires x in w.tree.ref && w'.tree == WithoutChild(w.tree, x) && p in w.tree.dirs && p != x
    ensures p in w'.tree.dirs
  {
  }

  lemma TakenIs(w: World, p: nat, name: Str)
    ensures Taken(w, p, name) <==> DotName(name) || Spot(p, name) in w.tree.link
  {
  }

  /** The name in directory p leads to inode x, which is a directory or not. */
  ghost predicate Leads(w: World, p: nat, name: Str, x: int, isDir: bool) {
    if DotName(name) then isDir && x == DotTarget(w, p, name)
    else
      && Spot(p, name) in w.tree.link && w.tree.link[Spot(p, name)].ino == x
      && (isDir <==> w.tree.link[Spot(p, name)].ftype == FT_DIRECTORY)
  }

  /** What search_dir_entry finds. */
  lemma LeadIs(w: World, p: nat, name: Str)
    requires p in w.dirs && FsOk(w) && p in w.tree.dirs && name in w.dirs[p].ix.at
    ensures var e := EntryOf(w.dirs[p], name); Leads(w, p, name, e.ino, e.ftype == FT_DIRECTORY)
  {
    hide FsOk, DirAt, EntryOf, Coupled, TreeOk, Sound, Files, DirsOk, RootFirst, Numbered, ParentOf;
    FsParts(w);
    DirIn(w, p);
    NameIn(w, p, name);
    DotsIn(w.v, p, w.dirs[p]);
    ParentIn(w, p);
  }

  /** A name other than the dots leads to an inode other than the root; directories are in the tree. */
  lemma LeadsWhere(w: World, p: nat, name: Str, x: int, isDir: bool)
    requires FsOk(w) && p in w.tree.dirs && Leads(w, p, name, x, isDir)
    ensures x >= 0 && (isDir ==> x in w.tree.dirs)
    ensures DotName(name) ==> isDir && x == DotTarget(w, p, name) && Spot(p, name) !in w.tree.link
    ensures !DotName(name) ==>
      && x > 0 && Spot(p, name) in w.tree.link && w.tree.link[Spot(p, name)].ino == x
      && (isDir <==> w.tree.link[Spot(p, name)].ftype == FT_DIRECTORY)
  {
    hide FsOk, Coupled, TreeOk, Sound, Files, DirsOk, RootFirst, Numbered, ParentOf;
    FsParts(w);
    DirIn(w, p);
    ParentIn(w, p);
    CoupledAt(w.dirs, w.tree, p, name);
    if !DotName(name) {
      LinkType(w.tree, Spot(p, name));
      NameRecorded(w, p, name);
    }
  }

  class Mounted {
    const part: Partition
    const tableLba: int         // sb->inode_table_lba; the table ends where the data begin
    var table: Disk             // the sectors of the inode table
    var dibits: seq<bool>       // the sector of the inode bitmap
    ghost var dirs: map<nat, Dir>
    ghost var tree: Tree

    /** partition_format and mount_partition. */
    constructor (start: nat, blocks: nat)
      requires 0 < start && 0 < blocks && start + blocks <= U32_LIMIT
      ensures fresh(part) && W() == FormattedWorld(start, blocks) && FsOk(W()) && Synced() && BlocksSynced()
    {
      hide *;
      FormattedOk(start, blocks);
      MaxInodes();
      part := new Partition(start, blocks, MAX_INODES, DotsSector(0, 0));
      tableLba, table, dibits := start - 608, map[], seq(MAX_INODES, k => k == 0);
      dirs := map[0 := NewDir(0, 0)];
      tree := RootTree();
      new;
      Parts();
      FormattedIs(start, blocks, part.ibits);
      part.Fields();
      RootInode(start, blocks);
      AllDirty(table, tableLba, part.inodes);
      SyncInode(0, part.inodes.Keys);
      assert part.inodes.Keys - {0} == {};
      BlocksSyncedIs();
      Parts();
      SyncedIs();
    }

    /** The record of every inode is in the table as the inode is in memory, and so is the inode bitmap. */
    ghost predicate Synced()
      reads this, part
    {
      OnDiskBut(table, tableLba, part.inodes, {}) && dibits == part.ibits
    }

    lemma SyncedIs()
      ensures Synced() <==> OnDiskBut(table, tableLba, part.inodes, {}) && dibits == part.ibits
    {
    }

    /** The block bitmap on disk is the one in memory. */
    ghost predicate BlocksSynced()
      reads part
    {
      part.dbits == part.bits
    }

    lemma BlocksSyncedIs()
      ensures BlocksSynced() <==> part.dbits == part.bits
    {
    }

    /** inode_sync of the one inode that changed. */
    method SyncOne(i: nat, ghost inodes: map<nat, Inode>)
      requires i < 4096 && i in part.inodes && |part.inodes[i].sectors| == 13
      requires Touched(inodes, part.inodes, {i})
      modifies `table
      ensures OnDiskBut(old(table), tableLba, inodes, {}) ==> OnDiskBut(table, tableLba, part.inodes, {})
    {
      hide OnDiskBut;
      if OnDiskBut(table, tableLba, inodes, {}) {
        Dirtied(table, tableLba, inodes, part.inodes, {i});
      }
      SyncInode(i, {i});
      assert {i} - {i} == {};
    }

    /** inode_sync of the two inodes that changed, the parent directory first. */
    method SyncTwo(p: nat, i: nat, ghost inodes: map<nat, Inode>)
      requires p < 4096 && p in part.inodes && |part.inodes[p].sectors| == 13
      requires i < 4096 && i in part.inodes && |part.inodes[i].sectors| == 13
      requires Touched(inodes, part.inodes, {i} + {p})
      modifies `table
      ensures OnDiskBut(old(table), tableLba, inodes, {}) ==> OnDiskBut(table, tableLba, part.inodes, {})
    {
      hide OnDiskBut;
      if OnDiskBut(table, tableLba, inodes, {}) {
        Dirtied(table, tableLba, inodes, part.inodes, {p, i});
      }
      SyncInode(p, {p, i});
      SyncInode(i, {p, i} - {p});
      assert {p, i} - {p} - {i} == {};
    }

    /** inode_delete of an inode that is gone. */
    method DeleteRecord(x: nat)
      requires x < 4096 && x !in part.inodes
      modifies `table
      ensures OnDiskBut(old(table), tableLba, part.inodes, {}) ==> OnDiskBut(table, tableLba, part.inodes, {})
    {
      hide OnDiskBut;
      table := Delete(table, tableLba, x, part.inodes);
    }

    /** inode_sync of inode i. */
    method SyncInode(i: nat, ghost dirty: set<nat>)
      requires i < 4096 && i in part.inodes && |part.inodes[i].sectors| == 13
      modifies `table
      ensures OnDiskBut(old(table), tableLba, part.inodes, dirty) ==>
        OnDiskBut(table, tableLba, part.inodes, dirty - {i})
    {
      table := Sync(table, tableLba, i, part.inodes[i], part.inodes, dirty);
    }

    ghost function W(): World
      reads this, part
    {
      World(part.V(), part.ibits, part.bytes, dirs, tree)
    }

    lemma Parts()
      ensures W() == World(part.V(), part.ibits, part.bytes, dirs, tree)
    {
    }

    /** Whether the direct blocks of a directory are full, by its size. */
    method IsCrowded(p: nat) returns (full: bool)
      requires FsOk(W()) && p in W().tree.dirs
      ensures full <==> Crowded(W(), p)
    {
      hide *;
      Parts();
      part.Fields();
      DirIn(W(), p);
      SizeIs(part.V(), p, dirs[p]);
      CrowdedIs(W(), p);
      full := part.inodes[p].size >= 24 * MOST_ENTRIES;
    }

    /** sys_open with O_CREAT, and file_create, in directory parent. */
    method Create(parent: nat, name: Str) returns (r: Outcome)
      requires FsOk(W()) && parent in W().tree.dirs && GoodName(name)
      modifies this, part
      ensures Creates(old(W()), W(), parent, name, r)
      ensures r != Stopped && r != Beyond && old(Synced()) ==> Synced()
      ensures r != Stopped && r != Beyond && old(BlocksSynced()) ==> BlocksSynced()
    {
      hide *;
      Parts();
      part.Fields();
      DirIn(W(), parent);
      NameUsable(name);
      NameIn(W(), parent, name);
      TakenIs(W(), parent, name);
      var found := SearchDirEntry(part, parent, name, dirs[parent]);
      if found.Some? {
        CreateRefused(W(), parent, name);
        return Refused;
      }
      r := CreateNew(parent, name);
    }

    /** file_create, for a name that was not found: the entry is made, then the two inodes are synced. */
    method CreateNew(parent: nat, name: Str) returns (r: Outcome)
      requires FsOk(W()) && parent in W().tree.dirs && GoodName(name) && !Taken(W(), parent, name)
      modifies this, part
      ensures Creates(old(W()), W(), parent, name, r)
      ensures r != Stopped && r != Beyond && old(Synced()) ==> Synced()
      ensures r != Stopped && r != Beyond && old(BlocksSynced()) ==> BlocksSynced()
    {
      hide *;
      ghost var w := W();
      Parts();
      part.Fields();
      SyncedIs();
      BlocksSyncedIs();
      r := CreateEntry(parent, name);
      NotTaken(w, W(), parent, name, r);
      if r.Done? {
        Parts();
        part.Fields();
        CreatedParts(w, W(), parent, name, r);
        NewIsThere(w, W(), parent, Entry(name, r.ino, FT_REGULAR));
        Syncable(W(), parent);
        Syncable(W(), r.ino);
        SyncTwo(parent, r.ino, w.v.inodes);
        dibits := part.ibits;                         // bitmap_sync: the inode bitmap is one sector
        Parts();
        SyncedIs();
        BlocksSyncedIs();
      }
    }

    /** The part of file_create before the inodes are synced. */
    method CreateEntry(parent: nat, name: Str) returns (r: Outcome)
      requires FsOk(W()) && parent in W().tree.dirs && GoodName(name) && !Taken(W(), parent, name)
      modifies `dirs, `tree, part
      ensures Creates(old(W()), W(), parent, name, r)
      ensures r.Done? ==> Touched(old(W()).v.inodes, W().v.inodes, {r.ino} + {parent})
      ensures r.Done? && old(part.dbits) == old(part.bits) ==> part.dbits == part.bits
    {
      Types();
      hide *;
      ghost var w := W();
      Parts();
      part.Fields();
      FsParts(w);
      DirIn(w, parent);
      TakenIs(w, parent, name);
      var full := IsCrowded(parent);
      if full {
        TooCrowded(w, W(), parent, name);
        return Beyond;
      }
      CrowdedIs(w, parent);
      var a := part.InodeAlloc();
      ScanDecides(w.ibits, a);
      if a.Panic? {
        CreateStopped(w, W(), parent, name);
        return Stopped;
      }
      var ino := a.index;
      FreshIs(w, ino);
      var e := Entry(name, ino, FT_REGULAR);
      EnteredReady(w, parent, e);
      var ok;
      ghost var d';
      ok, d' := SyncDirEntry(part, parent, e, dirs[parent]);
      NeedIs(Entered(w.v, ino), parent, w.dirs[parent]);
      if !ok {
        CreateStopped(w, W(), parent, name);
        return Stopped;
      }
      ghost var v3 := part.V();
      part.Fields();
      CreateOk(w, v3, parent, e, d');
      InsertDoneIs(Entered(w.v, ino), v3, parent, w.dirs[parent], d', e);
      TouchedNew(w.v, ino);
      CreatedInodes(w.v, Entered(w.v, ino), v3, parent, ino);
      part.bytes := BytesWith(part.bytes, e);
      dirs := DirsWith(dirs, parent, e, d', NewDir(ino, parent));
      tree := WithChild(tree, parent, e);
      part.Fields();
      Parts();
      AddedIs(w, v3, parent, e, d', NewDir(ino, parent));
      CreateDone(w, v3, parent, e, d');
      r := Done(ino);
    }

    /** sys_mkdir in directory parent. */
    method Mkdir(parent: nat, name: Str) returns (r: Outcome)
      requires FsOk(W()) && parent in W().tree.dirs && GoodName(name)
      modifies this, part
      ensures MakesDir(old(W()), W(), parent, name, r)
      ensures r != Stopped && r != Beyond && old(Synced()) ==> Synced()
      ensures r != Stopped && r != Beyond && old(BlocksSynced()) ==> BlocksSynced()
    {
      hide *;
      Parts();
      part.Fields();
      DirIn(W(), parent);
      NameUsable(name);
      NameIn(W(), parent, name);
      TakenIs(W(), parent, name);
      var found := SearchDirEntry(part, parent, name, dirs[parent]);
      if found.Some? {
        MkdirRefused(W(), parent, name);
        return Refused;
      }
      r := MkdirNew(parent, name);
    }

    /** sys_mkdir, for a name that was not found: the entry is made, then the two inodes are synced. */
    method MkdirNew(parent: nat, name: Str) returns (r: Outcome)
      requires FsOk(W()) && parent in W().tree.dirs && GoodName(name) && !Taken(W(), parent, name)
      modifies this, part
      ensures MakesDir(old(W()), W(), parent, name, r)
      ensures r != Stopped && r != Beyond && old(Synced()) ==> Synced()
      ensures r != Stopped && r != Beyond && old(BlocksSynced()) ==> BlocksSynced()
    {
      hide *;
      ghost var w := W();
      Parts();
      part.Fields();
      SyncedIs();
      BlocksSyncedIs();
      r := MkdirEntry(parent, name);
      NotTaken(w, W(), parent, name, r);
      if r.Done? {
        Parts();
        part.Fields();
        MadeParts(w, W(), parent, name, r);
        NewIsThere(w, W(), parent, Entry(name, r.ino, FT_DIRECTORY));
        Syncable(W(), parent);
        Syncable(W(), r.ino);
        SyncTwo(parent, r.ino, w.v.inodes);
        dibits := part.ibits;
        Parts();
        SyncedIs();
        BlocksSyncedIs();
      }
    }

    /** The part of sys_mkdir before the inodes are synced. */
    method MkdirEntry(parent: nat, name: Str) returns (r: Outcome)
      requires FsOk(W()) && parent in W().tree.dirs && GoodName(name) && !Taken(W(), parent, name)
      modifies `dirs, `tree, part
      ensures MakesDir(old(W()), W(), parent, name, r)
      ensures r.Done? ==> Touched(old(W()).v.inodes, W().v.inodes, {r.ino} + {parent})
      ensures r.Done? && old(part.dbits) == old(part.bits) ==> part.dbits == part.bits
    {
      hide *;
      ghost var w := W();
      Parts();
      part.Fields();
      FsParts(w);
      DirIn(w, parent);
      TakenIs(w, parent, name);
      var full := IsCrowded(parent);
      if full {
        TooCrowded(w, W(), parent, name);
        return Beyond;
      }
      CrowdedIs(w, parent);
      var a := part.InodeAlloc();
      ScanDecides(w.ibits, a);
      if a.Panic? {
        MkdirStopped(w, W(), parent, name);
        return Stopped;
      }
      var ino := a.index;
      FreshIs(w, ino);
      part.Fields();
      EnteredClaimable(w.v, ino);
      var ok, lba := part.ClaimAndWrite(ino, 0, DotsSector(ino, parent), 48);
      if !ok {
        MkdirStopped(w, W(), parent, name);
        return Stopped;
      }
      ClearBit(w.v.bits, lba - w.v.start);
      BlockNotFirst(w, lba - w.v.start);
      assert lba != part.start;         // the assertion of fs.c:585
      var e := Entry(name, ino, FT_DIRECTORY);
      ClaimedIs(w.v, ino, lba, parent);
      ClaimedReady(w, parent, e, lba);
      ghost var d';
      ok, d' := SyncDirEntry(part, parent, e, dirs[parent]);
      NeedIs(ClaimedFor(w.v, ino, lba, parent), parent, w.dirs[parent]);
      if !ok {
        MkdirStopped(w, W(), parent, name);
        return Stopped;
      }
      ghost var v3 := part.V();
      part.Fields();
      MkdirOk(w, v3, parent, e, lba, d');
      InsertDoneIs(ClaimedFor(w.v, ino, lba, parent), v3, parent, w.dirs[parent], d', e);
      TouchedClaim(w.v, ino, lba, parent);
      CreatedInodes(w.v, ClaimedFor(w.v, ino, lba, parent), v3, parent, ino);
      dirs := DirsWith(dirs, parent, e, d', NewDir(ino, parent));
      tree := WithChild(tree, parent, e);
      part.Fields();
      Parts();
      AddedIs(w, v3, parent, e, d', NewDir(ino, parent));
      MkdirDone(w, v3, parent, e, d');
      r := Done(ino);
    }

    /** delete_dir_entry and inode_release, the common end of sys_unlink and dir_remove: the inode of the
        directory is synced where an entry was found, and the record of the released inode is deleted. */
    method Erase(parent: nat, ghost name: Str, x: nat)
      requires FsOk(W()) && parent in W().dirs && parent in W().tree.dirs
      requires Removable(W(), parent, name, x) || (x == parent && x != 0 && Childless(W(), x))
      modifies this, part
      ensures Removable(old(W()), parent, name, x) ==>
        && FsOk(W()) && x in old(W()).tree.ref && W().tree == WithoutChild(old(W()).tree, x)
        && W().bytes == old(W()).bytes - {x}
        && ListGone(old(W()).v, W().v, parent, x)
      ensures !Removable(old(W()), parent, name, x) ==> Dangling(old(W()), W(), x)
      ensures old(Synced()) ==> Synced()
      ensures old(BlocksSynced()) ==> BlocksSynced()
    {
      hide *;
      ghost var w := W();
      Parts();
      part.Fields();
      SyncedIs();
      BlocksSyncedIs();
      NumberBelow(w, parent, name, x);
      var found := EraseEntry(parent, name, x);
      Parts();
      part.Fields();
      if found {
        OtherThan(w.v, W().v, parent, x);
        ParentStays(w, W(), parent, x);
        Syncable(W(), parent);
        SyncOne(parent, w.v.inodes);
      } else {
        if OnDiskBut(table, tableLba, w.v.inodes, {}) {
          TouchedIs(w.v.inodes, part.inodes);
          Dirtied(table, tableLba, w.v.inodes, part.inodes, {});
        }
      }
      DeleteRecord(x);
      dibits := part.ibits;
      Parts();
      SyncedIs();
      BlocksSyncedIs();
    }

    /** Whether or not an entry was found, the inode is released. */
    method EraseEntry(parent: nat, ghost name: Str, x: nat) returns (found: bool)
      requires FsOk(W()) && parent in W().dirs && parent in W().tree.dirs
      requires Removable(W(), parent, name, x) || (x == parent && x != 0 && Childless(W(), x))
      modifies `dirs, `tree, part
      ensures Removable(old(W()), parent, name, x) ==>
        && FsOk(W()) && x in old(W()).tree.ref && W().tree == WithoutChild(old(W()).tree, x)
        && W().bytes == old(W()).bytes - {x}
        && ListGone(old(W()).v, W().v, parent, x)
      ensures !Removable(old(W()), parent, name, x) ==> Dangling(old(W()), W(), x)
      ensures found <==> Removable(old(W()), parent, name, x)
      ensures x !in W().v.inodes && Touched(old(W()).v.inodes, W().v.inodes, if found then {parent} else {})
      ensures old(part.dbits) == old(part.bits) ==> part.dbits == part.bits
    {
      hide *;
      ghost var w := W();
      Parts();
      part.Fields();
      FsParts(w);
      NumberedIs(w);
      DirIn(w, parent);
      ghost var named := Removable(w, parent, name, x);
      if named {
        LeadsTo(w, parent, name, x);
        NameRecorded(w, parent, name);
        EntryThere(w, parent, name);
      } else {
        NoOwnEntry(w, parent);
      }
      ghost var d';
      found, d' := DeleteDirEntry(part, parent, x, dirs[parent]);
      assert found <==> named;
      ghost var v1 := part.V();
      if named {
        StillThere(w.v, v1, parent, x);
      }
      InodeRelease(part, x);
      ghost var v2 := part.V();
      part.Fields();
      EraseTouches(w.v, v1, v2, parent, x, found);
      if named {
        var (k, i) := w.dirs[parent].ix.of[x];
        Erased(w, v1, v2, parent, name, x, k, i, d');
        ListIsGone(w.v, v1, v2, parent, x);
        part.bytes := part.bytes - {x};
        dirs := dirs[parent := d'] - {x};
        tree := WithoutChild(tree, x);
        part.Fields();
        Parts();
        WithoutIs(w, v2, x, parent, d');
      } else {
        Parts();
        DanglingIs(w, v2, x);
      }
    }

    /** sys_unlink for the name in directory parent; `open` are the inodes in the file table. */
    method Unlink(parent: nat, name: Str, open: set<nat>) returns (r: Outcome)
      requires FsOk(W()) && parent in W().tree.dirs && GoodName(name)
      modifies this, part
      ensures Unlinks(old(W()), W(), parent, name, open, r)
      ensures r != Stopped && r != Beyond && old(Synced()) ==> Synced()
      ensures r != Stopped && r != Beyond && old(BlocksSynced()) ==> BlocksSynced()
    {
      hide *;
      ghost var w := W();
      Parts();
      DirIn(w, parent);
      NameUsable(name);
      NameIn(w, parent, name);
      var found := SearchDirEntry(part, parent, name, dirs[parent]);
      EntryOfIs(w.dirs[parent], name, found);
      if found.None? {
        UnlinkNoFile(w, parent, name, open);
        return Refused;
      }
      LeadIs(w, parent, name);
      r := UnlinkFound(parent, name, found.value.ino, found.value.ftype, open);
    }

    /** sys_unlink, for a name that leads to inode x of the given type. */
    method UnlinkFound(parent: nat, ghost name: Str, x: int, ftype: int, open: set<nat>) returns (r: Outcome)
      requires FsOk(W()) && parent in W().tree.dirs && Leads(W(), parent, name, x, ftype == FT_DIRECTORY)
      modifies this, part
      ensures Unlinks(old(W()), W(), parent, name, open, r)
      ensures r != Stopped && r != Beyond && old(Synced()) ==> Synced()
      ensures r != Stopped && r != Beyond && old(BlocksSynced()) ==> BlocksSynced()
    {
      hide *;
      ghost var w := W();
      LeadsWhere(w, parent, name, x, ftype == FT_DIRECTORY);
      if x == 0 {                                   // the assertion of fs.c:485
        UnlinkStopped(w, W(), parent, name, open);
        return Stopped;
      }
      if ftype == FT_DIRECTORY {
        UnlinkNoFile(w, parent, name, open);
        return Refused;
      }
      if x in open {
        UnlinkOpen(w, parent, name, open);
        return Refused;
      }
      Parts();
      DirIn(w, parent);
      NameRecorded(w, parent, name);
      FileRemovable(w, parent, name);
      Erase(parent, name, x);
      UnlinkDone(w, W(), parent, name, open, x);
      r := Done(x);
    }

    /** sys_rmdir and dir_remove for the name in directory parent. */
    method Rmdir(parent: nat, name: Str) returns (r: Outcome)
      requires FsOk(W()) && parent in W().tree.dirs && GoodName(name)
      modifies this, part
      ensures RemovesDir(old(W()), W(), parent, name, r)
      ensures r != Stopped && r != Beyond && old(Synced()) ==> Synced()
      ensures r != Stopped && r != Beyond && old(BlocksSynced()) ==> BlocksSynced()
    {
      hide *;
      ghost var w := W();
      Parts();
      DirIn(w, parent);
      NameUsable(name);
      NameIn(w, parent, name);
      var found := SearchDirEntry(part, parent, name, dirs[parent]);
      EntryOfIs(w.dirs[parent], name, found);
      if found.None? {
        RmdirNoDir(w, parent, name);
        return Refused;
      }
      LeadIs(w, parent, name);
      r := RmdirFound(parent, name, found.value.ino, found.value.ftype);
    }

    /** sys_rmdir, for a name that leads to inode x of the given type. */
    method RmdirFound(parent: nat, ghost name: Str, x: int, ftype: int) returns (r: Outcome)
      requires FsOk(W()) && parent in W().tree.dirs && Leads(W(), parent, name, x, ftype == FT_DIRECTORY)
      modifies this, part
      ensures RemovesDir(old(W()), W(), parent, name, r)
      ensures r != Stopped && r != Beyond && old(Synced()) ==> Synced()
      ensures r != Stopped && r != Beyond && old(BlocksSynced()) ==> BlocksSynced()
    {
      hide *;
      ghost var w := W();
      Parts();
      part.Fields();
      DirIn(w, parent);
      LeadsWhere(w, parent, name, x, ftype == FT_DIRECTORY);
      if x == 0 {                                   // the assertion of fs.c:701
        RmdirStopped(w, W(), parent, name);
        return Stopped;
      }
      if ftype != FT_DIRECTORY {
        RmdirNoDir(w, parent, name);
        return Refused;
      }
      DirIn(w, x);
      EmptyIsChildless(w, x);
      ChildlessIs(w, x);
      var empty := DirIsEmpty(part, x, dirs[x]);
      if !empty {
        RmdirNotEmpty(w, parent, name);
        return Refused;
      }
      EmptyDirHasOneBlock(w.v, x, dirs[x]);
      assert forall k :: 1 <= k < 13 ==> part.inodes[x].sectors[k] == 0;   // the assertions of dir.c:392-396
      EraseReady(w, parent, name, x);
      Erase(parent, name, x);
      if DotName(name) {
        RmdirDot(w, W(), parent);
      } else {
        RmdirDone(w, W(), parent, name, x);
      }
      r := Done(x);
    }

    /** file_write on the regular file ino. */
    method Write(ino: nat, buf: seq<Byte>) returns (r: WriteResult)
      requires FsOk(W()) && ino in W().bytes
      modifies this, part
      ensures Writes(old(W()), W(), ino, buf, r)
      ensures r != Halted && r != Overrun && old(Synced()) ==> Synced()
      ensures r == TooLarge && old(BlocksSynced()) ==> BlocksSynced()
      ensures r.Wrote? && old(BlocksSynced()) ==> (BlocksSynced() <==> !LeavesStale(old(W()), ino, |buf|))
    {
      hide *;
      ghost var w := W();
      Parts();
      part.Fields();
      FsParts(w);
      SyncedIs();
      BlocksSyncedIs();
      var pos;
      r, pos := FileWrite(part, ino, buf);
      part.Fields();
      Parts();
      WriteFinished(w, W(), ino, buf, r);
      if r.Wrote? && old(BlocksSynced()) {
        part.MapsAre();
        StaleDecides(w, ino, buf, r, part.bits, part.dbits);
      }
      if r.Wrote? {
        TouchedOne(w.v, W().v, ino);
        WroteParts(w, W(), ino, buf, r);
        Syncable(W(), ino);
        SyncOne(ino, w.v.inodes);
        Parts();
      }
      SyncedIs();
      BlocksSyncedIs();
    }
  }
}
