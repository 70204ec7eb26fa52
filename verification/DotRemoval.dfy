/** Why sys_rmdir of "." breaks the file system: nothing on the disk then agrees with a tree. */
module DotRemoval {
  import opened Words
  import opened Volume
  import opened Partitions
  import opened DirData
  import opened Directories
  import opened DirTree
  import opened FileIo
  import opened FsState
  import opened FileSystem

  /** The disk determines a directory's entries. */
  lemma SameRow(s: Sector, row: Row, row': Row)
    requires RowIs(s, row) && RowIs(s, row')
    ensures row == row'
  {
    forall i | 0 <= i < PER_SECTOR ensures row[i] == row'[i] {
      EntryAtIs(s, i, row[i]);
      EntryAtIs(s, i, row'[i]);
    }
    hide RowIs;
  }

  lemma SameGrid(v: View, v': View, d: nat, dir: Dir, dir': Dir)
    requires DirAt(v, d, dir) && DirAt(v', d, dir') && d in v.data && d in v'.data && v'.data[d] == v.data[d]
    ensures dir'.grid == dir.grid
  {
    hide DirOk, Lists, Backs, RowIs;
    forall k | 0 <= k < 12 ensures dir'.grid[k] == dir.grid[k] {
      SameRow(v.data[d][k], dir.grid[k], dir'.grid[k]);
    }
  }

  /** Directory d's data is the same in both. */
  ghost predicate SameData(w: World, w': World, d: nat) {
    d in w.v.data && d in w'.v.data && w'.v.data[d] == w.v.data[d]
  }

  /** A name in a directory that both have leads to the same inode in both. */
  lemma SameLink(w: World, w': World, s: Spot)
    requires FsOk(w) && FsOk(w') && s in w.tree.link && s.dir in w.tree.dirs && s.dir in w'.tree.dirs
      && SameData(w, w', s.dir)
    ensures w.tree.link[s].ino in w'.v.inodes
    ensures w.tree.link[s].ftype == FT_DIRECTORY ==> w.tree.link[s].ino in w'.tree.dirs
  {
    hide FsOk, DirAt, Coupled, TreeOk, Sound, Files, DirsOk, RootFirst, Numbered, SameData, ParentOf;
    var p, x := s.dir, w.tree.link[s].ino;
    assert s == Spot(p, s.name);
    DirIn(w, p);
    DirIn(w', p);
    EntryThere(w, p, s.name);
    DataIn(w, w', p);
    SameGrid(w.v, w'.v, p, w.dirs[p], w'.dirs[p]);
    var k, i :| 0 <= k < 12 && 0 <= i < PER_SECTOR && Wanted(w.dirs[p].grid[k][i], x);
    WantedIs(w.dirs[p].grid[k][i], x);
    EntryKnown(w, p, k, i);
    EntryKnown(w', p, k, i);
    FsParts(w);
    FsParts(w');
    EntryOfInode(w, p, s.name, k, i);
    LinkType(w'.tree, s);
  }

  lemma DataIn(w: World, w': World, d: nat)
    requires SameData(w, w', d)
    ensures d in w.v.data && d in w'.v.data && w'.v.data[d] == w.v.data[d]
  {
  }

  /** Every directory that keeps its data, and whose ancestors do, is still a directory. */
  lemma {:induction false} StillDirectory(w: World, w': World, x: nat, d: nat)
    requires FsOk(w) && FsOk(w') && d in w.tree.dirs && d != x && Childless(w, x)
    requires forall q :: q in w.tree.dirs && q != x ==> SameData(w, w', q)
    ensures d in w'.tree.dirs
    decreases if d in w.tree.depth then w.tree.depth[d] else 0
  {
    hide FsOk, SameData;
    RootIn(w');
    if d != 0 {
      Upwards(w, d);
      var s := w.tree.ref[d];
      StillDirectory(w, w', x, s.dir);
      SameLink(w, w', s);
    }
  }

  lemma Upwards(w: World, d: nat)
    requires FsOk(w) && d in w.tree.dirs && d != 0
    ensures d in w.tree.ref && w.tree.ref[d] in w.tree.link && w.tree.ref[d].dir in w.tree.dirs
    ensures w.tree.link[w.tree.ref[d]].ino == d && w.tree.link[w.tree.ref[d]].ftype == FT_DIRECTORY
    ensures d in w.tree.depth && w.tree.ref[d].dir in w.tree.depth && w.tree.depth[w.tree.ref[d].dir] < w.tree.depth[d]
  {
    FsParts(w);
    hide FsOk, Sound, Files, DirsOk, RootFirst, Numbered, Coupled;
  }

  /** After the inode of a directory is released while its name stays, no reading of the disk as files,
      directories and a tree is sound. */
  lemma DanglingIsBroken(w: World, w': World, x: nat, w2: World)
    requires FsOk(w) && x in w.tree.dirs && x != 0 && Childless(w, x) && Dangling(w, w', x) && w2.v == w'.v
    ensures !FsOk(w2)
  {
    hide FsOk, Sound, SameData;
    if FsOk(w2) {
      DataKept(w, w', x, w2);
      Upwards(w, x);
      var s := w.tree.ref[x];
      NotOwnParent(w, x);
      StillDirectory(w, w2, x, s.dir);
      SameLink(w, w2, s);
      GoneInode(w, w', x);
    }
  }

  lemma NotOwnParent(w: World, x: nat)
    requires Childless(w, x) && x in w.tree.ref && w.tree.ref[x] in w.tree.link
    ensures w.tree.ref[x].dir != x
  {
  }

  lemma GoneInode(w: World, w': World, x: nat)
    requires Dangling(w, w', x)
    ensures x !in w'.v.inodes
  {
  }

  lemma DataKept(w: World, w': World, x: nat, w2: World)
    requires FsOk(w) && Dangling(w, w', x) && w2.v == w'.v
    ensures forall q :: q in w.tree.dirs && q != x ==> SameData(w, w2, q)
  {
    hide FsOk, Sound, Files, DirsOk, RootFirst, Coupled, TreeOk, SameKeys, Numbered;
    FsParts(w);
    KeysOf(w.v);
    forall q | q in w.tree.dirs && q != x ensures SameData(w, w2, q) {
      DirIn(w, q);
      RemovedSame(w.v, w'.v, x, q);
      SameHas(w.v, w'.v, q);
    }
  }

  lemma SameHas(v: View, v': View, q: nat)
    requires Same(v, v', q)
    ensures q in v.data && q in v'.data && v'.data[q] == v.data[q]
  {
  }

  /** A successful sys_rmdir leaves a sound file system exactly when the name was not ".". */
  lemma RmdirSound(w: World, w': World, p: nat, name: Str, x: nat)
    requires FsOk(w) && p in w.tree.dirs && RemovesDir(w, w', p, name, Done(x))
    ensures FsOk(w') <==> name != DOT
  {
    hide FsOk, Dangling, Childless, ListGone, WithoutChild;
    if name == DOT {
      DanglingIsBroken(w, w', x, w');
    }
  }
}
