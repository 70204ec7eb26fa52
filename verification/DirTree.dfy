/** The tree of names: which name in which directory leads to which inode, and why it is a tree. */
module DirTree {
  import opened DirData

  /** A name in a directory. */
  datatype Spot = Spot(dir: nat, name: Str)

  /** The directories, the regular files, what each name (but "." and "..") leads to, the name
      that leads to each inode, and how deep each directory lies. */
  datatype Tree = Tree(dirs: set<nat>, files: set<nat>, link: map<Spot, Entry>, ref: map<nat, Spot>,
    depth: map<nat, nat>)

  /** Every name is the one recorded for its inode, and of the right type. */
  ghost predicate LinksKnown(t: Tree) {
    forall s :: s in t.link ==>
      && t.link[s].name == s.name && t.link[s].ino in t.ref && t.ref[t.link[s].ino] == s
      && (if t.link[s].ftype == FT_DIRECTORY then t.link[s].ino in t.dirs else t.link[s].ino in t.files)
  }

  /** Every recorded name is there, in a directory. */
  ghost predicate RefsReal(t: Tree) {
    forall x :: x in t.ref ==>
      t.ref[x].dir in t.dirs && t.ref[x] in t.link && t.link[t.ref[x]].ino == x
  }

  /** The parent of a directory; the root is its own parent. */
  ghost function ParentOf(t: Tree, d: nat): (p: nat) {
    if d in t.ref then t.ref[d].dir else 0
  }

  /** A directory lies one deeper than its parent. */
  ghost predicate Deeper(t: Tree) {
    forall d :: d in t.dirs ==>
      d in t.depth && (d in t.ref && t.ref[d].dir in t.depth ==> t.depth[d] == t.depth[t.ref[d].dir] + 1)
  }

  /** Everything but the root has a name. */
  ghost predicate Named(t: Tree) {
    0 in t.dirs && t.dirs !! t.files && (forall x :: x in t.ref <==> x != 0 && (x in t.dirs || x in t.files))
  }

  ghost predicate TreeOk(t: Tree) {
    Named(t) && LinksKnown(t) && RefsReal(t) && Deeper(t)
  }

  // ---------- a new child ----------

  ghost predicate CanAdd(t: Tree, p: nat, e: Entry) {
    TreeOk(t) && p in t.dirs && Spot(p, e.name) !in t.link && e.ino > 0 && e.ino !in t.dirs && e.ino !in t.files
  }

  /** Entry e for a new inode goes into directory p. */
  ghost function WithChild(t: Tree, p: nat, e: Entry): (t': Tree)
    requires p in t.depth && e.ino > 0
  {
    var link := t.link[Spot(p, e.name) := e];
    var ref := t.ref[e.ino := Spot(p, e.name)];
    if e.ftype == FT_DIRECTORY then
      Tree(t.dirs + {e.ino}, t.files, link, ref, t.depth[e.ino := t.depth[p] + 1])
    else
      Tree(t.dirs, t.files + {e.ino}, link, ref, t.depth)
  }

  lemma AddNamed(t: Tree, p: nat, e: Entry)
    requires CanAdd(t, p, e)
    ensures p in t.depth && Named(WithChild(t, p, e)) && RefsReal(WithChild(t, p, e))
  {
    hide LinksKnown;
  }

  lemma AddLinks(t: Tree, p: nat, e: Entry)
    requires CanAdd(t, p, e)
    ensures p in t.depth && LinksKnown(WithChild(t, p, e))
  {
    hide RefsReal;
  }

  lemma AddDeeper(t: Tree, p: nat, e: Entry)
    requires CanAdd(t, p, e)
    ensures p in t.depth && Deeper(WithChild(t, p, e))
  {
    hide LinksKnown;
  }

  /** A new file or directory keeps the tree a tree. */
  lemma AddChild(t: Tree, p: nat, e: Entry)
    requires CanAdd(t, p, e)
    ensures p in t.depth && TreeOk(WithChild(t, p, e))
  {
    hide Named, LinksKnown, RefsReal, Deeper;
    AddNamed(t, p, e);
    AddLinks(t, p, e);
    AddDeeper(t, p, e);
  }

  // ---------- a child removed ----------

  /** Inode x can go: it has a name and no name is in it. */
  ghost predicate CanRemove(t: Tree, x: nat) {
    TreeOk(t) && x in t.ref && forall s :: s in t.link ==> s.dir != x
  }

  ghost function WithoutChild(t: Tree, x: nat): (t': Tree)
    requires x in t.ref
  {
    Tree(t.dirs - {x}, t.files - {x}, t.link - {t.ref[x]}, t.ref - {x}, t.depth - {x})
  }

  /** Removing a file or an empty directory keeps the tree a tree. */
  lemma RemoveChild(t: Tree, x: nat)
    requires CanRemove(t, x)
    ensures TreeOk(WithoutChild(t, x))
  {}

  lemma LinkDir(t: Tree, s: Spot)
    requires TreeOk(t) && s in t.link
    ensures s.dir in t.dirs
  {}

  lemma AddedIsBare(t: Tree, p: nat, e: Entry)
    requires CanAdd(t, p, e)
    ensures p in t.depth && CanRemove(WithChild(t, p, e), e.ino)
  {
    hide Deeper, LinksKnown, RefsReal, Named;
    AddChild(t, p, e);
    forall s | s in t.link ensures s.dir in t.dirs {
      LinkDir(t, s);
    }
  }

  /** Creating a file or directory and removing it again leaves the tree as it was. */
  lemma AddThenRemove(t: Tree, p: nat, e: Entry)
    requires CanAdd(t, p, e)
    ensures p in t.depth && CanRemove(WithChild(t, p, e), e.ino)
    ensures var t' := WithoutChild(WithChild(t, p, e), e.ino);
            t'.dirs == t.dirs && t'.files == t.files && t'.ref == t.ref && t'.link == t.link
  {
    hide Deeper, LinksKnown, RefsReal;
    AddedIsBare(t, p, e);
  }
}
