/** What the path operations mean for later searches, and which entry they act on. */
module PathLaws {
  import opened DirData
  import opened DirTree
  import opened FsState
  import opened FileSystem
  import opened Paths
  import opened PathWalk
  import opened PathOps

  // ---------- a path leads to what was made under it ----------

  ghost function FoundAs(e: Entry): (f: Found)
    requires e.ino >= 0
  {
    if e.ftype == FT_DIRECTORY then FoundDir(e.ino) else FoundFile(e.ino)
  }

  /** Only the new name is looked up differently. */
  lemma AddedLookup(t: Tree, p: nat, e: Entry, d: nat, n: Str)
    requires CanAdd(t, p, e) && p in t.depth && d in t.dirs && !DotName(e.name)
    ensures Lookup(WithChild(t, p, e), d, n) == if d == p && n == e.name then FoundAs(e) else Lookup(t, d, n)
  {
    assert d != e.ino;
    hide TreeOk;
  }

  /** The search that missed one name now finds it. */
  lemma {:induction false} AddedWalk(t: Tree, p: nat, e: Entry, d: nat, parent: nat, cs: seq<Str>, seen: nat)
    requires CanAdd(t, p, e) && p in t.depth && d in t.dirs && !DotName(e.name) && cs != []
    requires Walk(t, d, parent, cs, seen) == Trip(Missing, p, seen + |cs|) && cs[|cs| - 1] == e.name
    ensures Walk(WithChild(t, p, e), d, parent, cs, seen).found == FoundAs(e)
    decreases |cs|
  {
    AddedLookup(t, p, e, d, cs[0]);
    LookupIn(t, d, cs[0]);
    hide CanAdd, WithChild, Lookup, TreeOk;
    var t' := WithChild(t, p, e);
    if Lookup(t, d, cs[0]).FoundDir? {
      AddedWalk(t, p, e, Lookup(t, d, cs[0]).ino, d, cs[1..], seen + 1);
    } else {
      assert Lookup(t', d, cs[0]) == FoundAs(e);
    }
  }

  /** After sys_mkdir or sys_open has made something under a path, the path leads to it. */
  lemma MadeIsFound(t: Tree, path: Str, e: Entry)
    requires FreePlace(t, path) && CanAdd(t, Ends(t, path).parent, e) && Ends(t, path).parent in t.depth
      && !DotName(e.name)
    requires 0 < Ends(t, path).seen <= |Components(path)| && e.name == LastSeen(t, path)
    ensures Resolve(WithChild(t, Ends(t, path).parent, e), Components(path)) == FoundAs(e)
  {
    assert 0 in t.dirs;
    hide CanAdd, WithChild, Lookup, Walk, Components;
    AddedWalk(t, Ends(t, path).parent, e, 0, 0, Components(path), 0);
  }

  // ---------- a path no longer leads to what was removed ----------

  /** Only the name of x is gone, seen from any other directory. */
  lemma RemovedLookup(t: Tree, x: nat, d: nat, n: Str)
    requires CanRemove(t, x) && d in t.dirs && d != x && !DotName(t.ref[x].name)
    ensures Lookup(WithoutChild(t, x), d, n) == if Spot(d, n) == t.ref[x] then Missing else Lookup(t, d, n)
    ensures Lookup(t, d, n) == FoundDir(x) ==> Spot(d, n) == t.ref[x]
  {
    DirParent(t, d);
    assert x != 0;
    assert d in t.ref ==> t.ref[d] in t.link && t.ref[d].dir != x;
    if Lookup(t, d, n) == FoundDir(x) && n != DOT && n != DOTDOT {
      LookupIn(t, d, n);
    }
    hide TreeOk;
  }

  /** The search that ended at x, by its name, now misses it. */
  lemma {:induction false} RemovedWalk(t: Tree, x: nat, d: nat, parent: nat, cs: seq<Str>, seen: nat, k: nat)
    requires CanRemove(t, x) && d in t.dirs && d != x && !DotName(t.ref[x].name) && k < |cs|
    requires Walk(t, d, parent, cs, seen).seen == seen + k + 1
      && Spot(Walk(t, d, parent, cs, seen).parent, cs[k]) == t.ref[x]
    ensures Walk(WithoutChild(t, x), d, parent, cs, seen).found == Missing
    decreases |cs|
  {
    RemovedLookup(t, x, d, cs[0]);
    LookupIn(t, d, cs[0]);
    hide CanRemove, WithoutChild, Lookup, TreeOk;
    var f := Lookup(t, d, cs[0]);
    if Spot(d, cs[0]) != t.ref[x] && f.FoundDir? && |cs| > 1 {
      SeenGrows(t, f.ino, d, cs[1..], seen + 1);
      MoreSeen(t, f.ino, d, cs[1..], seen + 1);
      RemovedWalk(t, x, f.ino, d, cs[1..], seen + 1, k - 1);
    }
  }

  lemma MoreSeen(t: Tree, d: nat, parent: nat, cs: seq<Str>, seen: nat)
    requires cs != []
    ensures Walk(t, d, parent, cs, seen).seen > seen
  {
    if Lookup(t, d, cs[0]).FoundDir? {
      SeenGrows(t, Lookup(t, d, cs[0]).ino, d, cs[1..], seen + 1);
    }
    hide Lookup;
  }

  /** After sys_unlink or sys_rmdir of a path, the path leads nowhere. */
  lemma GoneIsMissing(t: Tree, path: Str, x: nat)
    requires CanRemove(t, x) && x != 0 && Components(path) != [] && 0 < Ends(t, path).seen <= |Components(path)|
    requires Spot(Ends(t, path).parent, LastSeen(t, path)) == t.ref[x] && !DotName(LastSeen(t, path))
    ensures Resolve(WithoutChild(t, x), Components(path)) == Missing
  {
    assert 0 in t.dirs;
    hide CanRemove, WithoutChild, Lookup, Walk, Components, TreeOk;
    RemovedWalk(t, x, 0, 0, Components(path), 0, Ends(t, path).seen - 1);
  }

  // ---------- which entry sys_unlink removes ----------

  /** The names before the last lead to a directory in which the last is file x. */
  ghost predicate NamesFile(t: Tree, path: Str, x: nat) {
    var cs := Components(path);
    && cs != [] && Resolve(t, cs[..|cs| - 1]).FoundDir?
    && Lookup(t, Resolve(t, cs[..|cs| - 1]).ino, cs[|cs| - 1]) == FoundFile(x)
  }

  /** sys_unlink removes the file its path names exactly when no regular file stands on the way; with
      one on the way it removes that one. */
  lemma UnlinkedIsNamed(w: World, w': World, path: Str, open: set<nat>, x: nat)
    requires FsOk(w) && PathUnlinks(w, w', path, open, Done(x))
    ensures NamesFile(w.tree, path, x) <==> !FileOnTheWay(w.tree, path)
    ensures FileOnTheWay(w.tree, path) ==>
      exists k :: 0 <= k < |Components(path)| && Resolve(w.tree, Components(path)[..k]) == FoundFile(x)
  {
    hide *;
    FsParts(w);
    UnlinkedFound(w, w', path, open, x);
    FileNamed(w.tree, path, x);
  }

  lemma FileNamed(t: Tree, path: Str, x: nat)
    requires TreeOk(t) && Ends(t, path).found == FoundFile(x)
    ensures NamesFile(t, path, x) <==> !FileOnTheWay(t, path)
    ensures FileOnTheWay(t, path) ==>
      exists k :: 0 <= k < |Components(path)| && Resolve(t, Components(path)[..k]) == FoundFile(x)
  {
    FileReached(t, path);
    EndsWhere(t, path);
    hide FileOnTheWay, TreeOk, Walk, Components, Lookup;
    var cs, trip := Components(path), Ends(t, path);
    if trip.seen < |cs| {
      WalkPrefix(t, 0, 0, cs, 0, |cs| - 1);
      WalkStays(t, 0, 0, cs, 0, trip.seen);
      assert Resolve(t, cs[..trip.seen]) == FoundFile(x);
    }
  }

  lemma UnlinkedFound(w: World, w': World, path: Str, open: set<nat>, x: nat)
    requires FsOk(w) && PathUnlinks(w, w', path, open, Done(x))
    ensures Components(path) != [] && Ends(w.tree, path).found == FoundFile(x)
  {
    hide *;
    PathUnlinkIs(w, w', path, open, Done(x));
    FoundByName(w, path);
    UnlinksParts(w, w', Ends(w.tree, path).parent, LastSeen(w.tree, path), open, Done(x));
    GoneParts(w, w', Ends(w.tree, path).parent, LastSeen(w.tree, path), x);
  }

  lemma GoneParts(w: World, w': World, p: nat, name: Str, x: nat)
    requires Gone(w, w', p, name, x)
    ensures Spot(p, name) in w.tree.link && w.tree.link[Spot(p, name)].ino == x && x in w.tree.ref && FsOk(w')
      && SameArea(w, w')
    ensures w'.tree == WithoutChild(w.tree, x) && w'.bytes == w.bytes - {x}
  {
    hide FsOk, SameArea, WithoutChild, ListGone;
  }

  lemma UnlinksParts(w: World, w': World, p: nat, name: Str, open: set<nat>, r: Outcome)
    requires Unlinks(w, w', p, name, open, r) && r != Stopped && r != Beyond
    ensures r.Done? ==> IsFile(w, p, name) && r.ino !in open && Gone(w, w', p, name, r.ino)
    ensures !r.Done? ==> w' == w && (IsFile(w, p, name) ==> w.tree.link[Spot(p, name)].ino in open)
  {
    hide Gone, DotTarget;
  }

  lemma IsFileIs(w: World, p: nat, name: Str)
    ensures IsFile(w, p, name) <==> Spot(p, name) in w.tree.link && w.tree.link[Spot(p, name)].ftype != FT_DIRECTORY
  {
  }

  lemma {:induction false} WalkStays(t: Tree, d: nat, parent: nat, cs: seq<Str>, seen: nat, k: nat)
    requires k <= |cs| && Walk(t, d, parent, cs, seen).found.FoundFile? && Walk(t, d, parent, cs, seen).seen == seen + k
    ensures Walk(t, d, parent, cs[..k], seen).found == Walk(t, d, parent, cs, seen).found
    decreases |cs|
  {
    hide Lookup;
    if cs != [] {
      var f := Lookup(t, d, cs[0]);
      if f.FoundDir? {
        SeenGrows(t, f.ino, d, cs[1..], seen + 1);
        assert cs[..k][1..] == cs[1..][..k - 1];
        WalkStays(t, f.ino, d, cs[1..], seen + 1, k - 1);
      }
    }
  }
}
