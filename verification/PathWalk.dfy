/** Paths over the tree: search_file, sys_chdir and sys_getcwd (fs.c). */
module PathWalk {
  import opened Partitions
  import opened DirData
  import opened Directories
  import opened FileIo
  import opened DirTree
  import opened FsState
  import opened FileSystem
  import opened Paths

  datatype Found = FoundDir(ino: nat) | FoundFile(ino: nat) | Missing

  /** What a name in a directory leads to. */
  ghost function Lookup(t: Tree, d: nat, n: Str): (f: Found) {
    if n == DOT then FoundDir(d)
    else if n == DOTDOT then FoundDir(ParentOf(t, d))
    else if Spot(d, n) in t.link && t.link[Spot(d, n)].ino >= 0 then
      if t.link[Spot(d, n)].ftype == FT_DIRECTORY then FoundDir(t.link[Spot(d, n)].ino)
          else FoundFile(t.link[Spot(d, n)].ino)
    else Missing
  }

  /** Where a path leads, the directory before that, and how many names were looked up.  A regular
      file ends the search wherever it is met. */
  datatype Trip = Trip(found: Found, parent: nat, seen: nat)

  ghost function Walk(t: Tree, d: nat, parent: nat, cs: seq<Str>, seen: nat): (trip: Trip)
    decreases |cs|
  {
    if cs == [] then Trip(FoundDir(d), parent, seen)
    else match Lookup(t, d, cs[0])
      case FoundDir(e) => Walk(t, e, d, cs[1..], seen + 1)
      case FoundFile(x) => Trip(FoundFile(x), d, seen + 1)
      case Missing => Trip(Missing, d, seen + 1)
  }

  ghost function Resolve(t: Tree, cs: seq<Str>): (f: Found) {
    Walk(t, 0, 0, cs, 0).found
  }

  lemma DirParent(t: Tree, d: nat)
    requires TreeOk(t) && d in t.dirs
    ensures ParentOf(t, d) in t.dirs && d in t.depth && (d != 0 <==> d in t.ref)
    ensures d != 0 ==>
      ParentOf(t, d) == t.ref[d].dir && ParentOf(t, d) in t.depth && t.depth[ParentOf(t, d)] < t.depth[d]
    ensures d == 0 ==> ParentOf(t, d) == 0
  {
    hide LinksKnown;
  }

  /** The names from the root down to a directory. */
  ghost function NamesTo(t: Tree, d: nat): (names: seq<Str>)
    requires TreeOk(t) && d in t.dirs
    decreases if d in t.depth then t.depth[d] else 0
  {
    DirParent(t, d);
    if d == 0 then [] else NamesTo(t, t.ref[d].dir) + [t.ref[d].name]
  }

  lemma LookupIn(t: Tree, d: nat, n: Str)
    requires TreeOk(t) && d in t.dirs
    ensures Lookup(t, d, n).FoundDir? ==> Lookup(t, d, n).ino in t.dirs
    ensures Lookup(t, d, n).FoundDir? && n != DOT && n != DOTDOT ==>
      var e := Lookup(t, d, n).ino; e != 0 && e in t.ref && t.ref[e] == Spot(d, n)
  {
    DirParent(t, d);
    hide RefsReal, Deeper;
  }

  /** One step down, up or nowhere keeps the names in step with the fold of wash_path. */
  lemma StepNames(t: Tree, d: nat, n: Str)
    requires TreeOk(t) && d in t.dirs && Lookup(t, d, n).FoundDir?
    ensures Lookup(t, d, n).ino in t.dirs
    ensures NamesTo(t, Lookup(t, d, n).ino) == Push(NamesTo(t, d), n)
  {
    DirParent(t, d);
    LookupIn(t, d, n);
    hide TreeOk;
  }

  lemma {:induction false} WalkNames(t: Tree, d: nat, parent: nat, cs: seq<Str>, seen: nat)
    requires TreeOk(t) && d in t.dirs && Walk(t, d, parent, cs, seen).found.FoundDir?
    ensures Walk(t, d, parent, cs, seen).found.ino in t.dirs
    ensures NamesTo(t, Walk(t, d, parent, cs, seen).found.ino) == Fold(NamesTo(t, d), cs)
    decreases |cs|
  {
    hide TreeOk, Lookup;
    if cs != [] {
      StepNames(t, d, cs[0]);
      WalkNames(t, Lookup(t, d, cs[0]).ino, d, cs[1..], seen + 1);
    }
  }

  /** Whatever path leads to a directory, the names down to it are the path as washed. */
  lemma ResolvedIsWashed(t: Tree, path: Str)
    requires TreeOk(t) && 0 in t.dirs && Resolve(t, Components(path)).FoundDir?
    ensures Resolve(t, Components(path)).ino in t.dirs
    ensures Render(NamesTo(t, Resolve(t, Components(path)).ino)) == Washed(path)
  {
    hide TreeOk;
    WalkNames(t, 0, 0, Components(path), 0);
    assert NamesTo(t, 0) == [];
  }

  /** Names that can be parts of a path. */
  ghost predicate ProperNames(t: Tree) {
    forall s :: s in t.link ==> s.name != [] && SLASH !in s.name && s.name != DOT && s.name != DOTDOT
  }

  /** Names are made of path components, so they stay proper. */
  lemma AddedProper(t: Tree, p: nat, e: Entry)
    requires ProperNames(t) && p in t.depth && e.ino > 0
    requires e.name != [] && SLASH !in e.name && e.name != DOT && e.name != DOTDOT
    ensures ProperNames(WithChild(t, p, e))
  {
  }

  lemma RemovedProper(t: Tree, x: nat)
    requires ProperNames(t) && x in t.ref
    ensures ProperNames(WithoutChild(t, x))
  {
  }

  lemma {:induction false} NamesProper(t: Tree, d: nat)
    requires TreeOk(t) && ProperNames(t) && d in t.dirs
    ensures Proper(NamesTo(t, d))
    decreases if d in t.depth then t.depth[d] else 0
  {
    DirParent(t, d);
    if d != 0 {
      NamesProper(t, t.ref[d].dir);
      assert t.ref[d] in t.link;
    }
    hide TreeOk;
  }

  lemma {:induction false} WalkOneMore(t: Tree, d: nat, parent: nat, cs: seq<Str>, seen: nat, n: Str)
    requires Walk(t, d, parent, cs, seen).found.FoundDir?
    ensures Walk(t, d, parent, cs + [n], seen).found ==
      Walk(t, Walk(t, d, parent, cs, seen).found.ino, parent, [n], seen).found
    decreases |cs|
  {
    hide Lookup;
    if cs == [] {
      assert cs + [n] == [n];
    } else {
      var e := Lookup(t, d, cs[0]).ino;
      assert (cs + [n])[1..] == cs[1..] + [n];
      WalkOneMore(t, e, d, cs[1..], seen + 1, n);
      var f := Walk(t, e, d, cs[1..], seen + 1).found.ino;
      var one: seq<Str> := [n];
      assert one[1..] == [];
      assert Walk(t, f, d, [n], seen + 1).found == Walk(t, f, parent, [n], seen).found;
    }
  }

  /** The names down to a directory lead to it: the search from the root undoes the walk up. */
  lemma {:induction false} NamesLeadThere(t: Tree, d: nat)
    requires TreeOk(t) && ProperNames(t) && d in t.dirs
    ensures Resolve(t, NamesTo(t, d)) == FoundDir(d)
    decreases if d in t.depth then t.depth[d] else 0
  {
    DirParent(t, d);
    if d != 0 {
      var p: nat, n: Str := t.ref[d].dir, t.ref[d].name;
      NamesLeadThere(t, p);
      WalkOneMore(t, 0, 0, NamesTo(t, p), 0, n);
      ChildFound(t, d);
      hide TreeOk, Lookup;
      var one: seq<Str> := [n];
      assert one[1..] == [];
    }
  }

  lemma ChildFound(t: Tree, d: nat)
    requires TreeOk(t) && ProperNames(t) && d in t.dirs && d in t.ref
    ensures Lookup(t, t.ref[d].dir, t.ref[d].name) == FoundDir(d)
  {
    hide Deeper;
    var s := t.ref[d];
    assert s in t.link && t.link[s].ino == d;
    assert Spot(s.dir, s.name) == s;
  }

  // ---------- search_file and sys_chdir ----------

  /** search_dir_entry in directory d, seen through the tree. */
  method LookupName(m: Mounted, d: nat, name: Str) returns (r: Option<Entry>)
    requires FsOk(m.W()) && d in m.W().tree.dirs && NoZero(name) && name != []
    ensures r.None? <==> Lookup(m.W().tree, d, name) == Missing
    ensures r.Some? ==>
      && r.value.ino >= 0
      && Lookup(m.W().tree, d, name) ==
           if r.value.ftype == FT_DIRECTORY then FoundDir(r.value.ino) else FoundFile(r.value.ino)
  {
    hide *;
    ghost var w := m.W();
    m.Parts();
    FsParts(w);
    DirIn(w, d);
    NameIn(w, d, name);
    r := SearchDirEntry(m.part, d, name, m.dirs[d]);
    EntryOfIs(w.dirs[d], name, r);
    LookupIs(w, d, name);
  }

  lemma LookupIs(w: World, d: nat, n: Str)
    requires d in w.dirs && FsOk(w) && d in w.tree.dirs
    ensures n in w.dirs[d].ix.at <==> Lookup(w.tree, d, n) != Missing
    ensures n in w.dirs[d].ix.at ==>
      var e := EntryOf(w.dirs[d], n);
      && e.ino >= 0
      && Lookup(w.tree, d, n) == if e.ftype == FT_DIRECTORY then FoundDir(e.ino) else FoundFile(e.ino)
  {
    hide FsOk, DirAt, EntryOf, Coupled, TreeOk, Sound, Files, DirsOk, RootFirst, Numbered, ParentOf;
    FsParts(w);
    DirIn(w, d);
    NameIn(w, d, n);
    DotsIn(w.v, d, w.dirs[d]);
    UpOf(w.dirs, w.tree, d);
    if Spot(d, n) in w.tree.link {
      LinkType(w.tree, Spot(d, n));
    }
  }

  lemma UpOf(dirs: map<nat, Dir>, t: Tree, d: nat)
    requires Coupled(dirs, t) && d in dirs
    ensures UpIs(dirs[d], ParentOf(t, d))
  {
  }

  /** What search_file leaves behind: its result, the parent directory, the type, how many names it
      looked up and the last of them. */
  datatype Search = Search(ino: int, parent: nat, ftype: int, seen: nat, last: Str)

  /** A path of several slashes and no name. */
  predicate Nameless(path: Str) {
    Components(path) == [] && path != [SLASH]
  }

  /** search_file tells where the path leads; for a path without names it returns what its local
      variable dir_e happened to hold. */
  ghost predicate Searched(t: Tree, path: Str, junk: int, r: Search) {
    var trip := Walk(t, 0, 0, Components(path), 0);
    if Nameless(path) then r.ino == junk && r.ftype == FT_DIRECTORY
    else match trip.found
      case FoundDir(x) => r.ino == x && r.ftype == FT_DIRECTORY && r.parent == trip.parent
      case FoundFile(x) => r.ino == x && r.ftype == FT_REGULAR && r.parent == trip.parent && r.seen == trip.seen
      case Missing =>
        && r.ino == -1 && r.ftype == FT_UNKNOWN && r.parent == trip.parent && r.seen == trip.seen
        && 0 < trip.seen <= |Components(path)| && r.last == Components(path)[trip.seen - 1]
  }

  lemma RootPath(t: Tree, path: Str)
    requires TreeOk(t) && (path == [SLASH] || path == [SLASH] + DOT || path == [SLASH] + DOTDOT)
    ensures !Nameless(path) && Walk(t, 0, 0, Components(path), 0).found == FoundDir(0)
      && Walk(t, 0, 0, Components(path), 0).parent == 0
  {
    DirParent(t, 0);
    hide TreeOk;
    if path == [SLASH] {
      SkipIs([SLASH], 1);
    } else {
      var n := path[1..];
      assert path == [SLASH] + n + [] && (n == DOT || n == DOTDOT);
      ComponentsStep([SLASH], n, []);
      assert Components([]) == [];
      var one: seq<Str> := [n];
      assert one[1..] == [];
    }
  }

  method SearchFile(m: Mounted, path: Str, junk: int) returns (r: Search)
    requires FsOk(m.W()) && 1 <= |path| < 512 && path[0] == SLASH && NoZero(path)
    requires forall k :: 0 <= k < |Components(path)| ==> |Components(path)[k]| <= 15
    ensures Searched(m.W().tree, path, junk, r)
  {
    ghost var t := m.W().tree;
    FsParts(m.W());
    hide *;
    RootIn(m.W());
    if path == [SLASH] || path == [SLASH] + DOT || path == [SLASH] + DOTDOT {
      RootPath(t, path);
      SearchEnds(t, path, junk, Search(0, 0, FT_DIRECTORY, 0, []), Walk(t, 0, 0, Components(path), 0));
      return Search(0, 0, FT_DIRECTORY, 0, []);
    }
    r := SearchNames(m, path, junk);
  }

  /** What the rest of the path looks like to path_parse. */
  ghost predicate Parsed(left: seq<Str>, name: Str, rest: Maybe) {
    && left == (if name == [] then [] else [name] + (if rest.More? then Components(rest.path) else []))
    && NoZero(name) && (name == [] ==> rest == End) && (rest.More? ==> NoZero(rest.path))
  }

  method NextName(rest: Maybe, ghost left: seq<Str>) returns (name: Str, rest': Maybe)
    requires (rest.More? ==> NoZero(rest.path)) && left == if rest.More? then Components(rest.path) else []
    ensures Parsed(left, name, rest')
    ensures (rest == End ==> name == [] && rest' == End) && (rest'.More? ==> |rest'.path| < |rest.path|)
  {
    hide Components, NoZero;
    name, rest' := [], End;
    if rest.More? {
      name, rest' := PathParse(rest.path);
    } else {
      EmptyNoZero();
    }
  }

  lemma EmptyNoZero()
    ensures NoZero([])
  {
  }

  /** How far the search has come: dir was reached by `seen` names, the rest is left. */
  ghost predicate OnTheWay(t: Tree, all: seq<Str>, dir: nat, before: nat, last: int, seen: nat, left: seq<Str>,
      junk: int) {
    && dir in t.dirs && Walk(t, dir, before, left, seen) == Walk(t, 0, 0, all, 0) && seen <= |all|
    && left == all[seen..]
    && (if seen == 0 then last == junk && left == all else last == dir && all != [])
  }

  lemma StepDown(t: Tree, all: seq<Str>, dir: nat, before: nat, last: int, seen: nat, left: seq<Str>, junk: int)
    requires OnTheWay(t, all, dir, before, last, seen, left, junk) && left != [] && TreeOk(t)
    ensures seen < |all| && left[0] == all[seen]
    ensures all != [] && match Lookup(t, dir, left[0])
      case FoundDir(e) => OnTheWay(t, all, e, dir, e, seen + 1, left[1..], junk)
      case FoundFile(x) => Walk(t, 0, 0, all, 0) == Trip(FoundFile(x), dir, seen + 1)
      case Missing => Walk(t, 0, 0, all, 0) == Trip(Missing, dir, seen + 1)
  {
    LookupIn(t, dir, left[0]);
    hide TreeOk, Lookup;
  }

  lemma AtTheEnd(t: Tree, all: seq<Str>, dir: nat, before: nat, last: int, seen: nat, junk: int)
    requires OnTheWay(t, all, dir, before, last, seen, [], junk)
    ensures Walk(t, 0, 0, all, 0).found == FoundDir(dir) && Walk(t, 0, 0, all, 0).parent == before
    ensures if all == [] then last == junk else last == dir
  {
  }

  method SearchNames(m: Mounted, path: Str, junk: int) returns (r: Search)
    requires FsOk(m.W()) && NoZero(path) && path != [SLASH]
    ensures Searched(m.W().tree, path, junk, r)
  {
    hide *;
    ghost var t, all := m.W().tree, Components(path);
    FsParts(m.W());
    RootIn(m.W());
    ghost var left := all;
    var name, rest := NextName(More(path), left);
    var dir: nat, before: nat, last: int, seen: nat := 0, 0, junk, 0;
    AtTheStart(t, all, junk);
    while name != []
      invariant OnTheWay(t, all, dir, before, last, seen, left, junk) && Parsed(left, name, rest) && dir in t.dirs
      decreases if rest.More? then |rest.path| + 1 else 0, |name|
    {
      ParsedParts(left, name, rest);
      StepDown(t, all, dir, before, last, seen, left, junk);
      var e := LookupName(m, dir, name);
      left := left[1..];
      seen := seen + 1;
      if e.None? {
        r := Search(-1, dir, FT_UNKNOWN, seen, name);
        NamelessIs(path);
        SearchEnds(t, path, junk, r, Trip(Missing, dir, seen));
        return;
      }
      if e.value.ftype != FT_DIRECTORY {
        r := Search(e.value.ino, dir, FT_REGULAR, seen, name);
        NamelessIs(path);
        SearchEnds(t, path, junk, r, Trip(FoundFile(e.value.ino), dir, seen));
        return;
      }
      before, dir, last := dir, e.value.ino, e.value.ino;
      OnTheWayIn(t, all, dir, before, last, seen, left, junk);
      name, rest := NextName(rest, left);
    }
    r := Search(last, before, FT_DIRECTORY, seen, []);
    ParsedParts(left, name, rest);
    AtTheEnd(t, all, dir, before, last, seen, junk);
    NamelessIs(path);
    SearchEnds(t, path, junk, r, Walk(t, 0, 0, all, 0));
  }

  lemma AtTheStart(t: Tree, all: seq<Str>, junk: int)
    requires 0 in t.dirs
    ensures OnTheWay(t, all, 0, 0, junk, 0, all, junk)
  {
  }

  lemma OnTheWayIn(t: Tree, all: seq<Str>, dir: nat, before: nat, last: int, seen: nat, left: seq<Str>, junk: int)
    requires OnTheWay(t, all, dir, before, last, seen, left, junk)
    ensures dir in t.dirs
  {
  }

  lemma ParsedParts(left: seq<Str>, name: Str, rest: Maybe)
    requires Parsed(left, name, rest)
    ensures NoZero(name) && (rest.More? ==> NoZero(rest.path)) && (name == [] <==> left == [])
    ensures name != [] ==> left[0] == name && left[1..] == if rest.More? then Components(rest.path) else []
  {
  }

  lemma NamelessIs(path: Str)
    ensures Nameless(path) <==> Components(path) == [] && path != [SLASH]
  {
  }

  lemma SearchEnds(t: Tree, path: Str, junk: int, r: Search, trip: Trip)
    requires trip == Walk(t, 0, 0, Components(path), 0)
    requires Nameless(path) ==> r.ino == junk && r.ftype == FT_DIRECTORY
    requires !Nameless(path) && trip.found.FoundDir? ==>
      r.ino == trip.found.ino && r.ftype == FT_DIRECTORY && r.parent == trip.parent
    requires trip.found.FoundFile? ==>
      r.ino == trip.found.ino && r.ftype == FT_REGULAR && r.parent == trip.parent && r.seen == trip.seen
    requires trip.found == Missing ==>
      r.ino == -1 && r.ftype == FT_UNKNOWN && r.parent == trip.parent && r.seen == trip.seen
    requires trip.found == Missing ==> 0 < trip.seen <= |Components(path)| && r.last == Components(path)[trip.seen - 1]
    ensures Searched(t, path, junk, r)
  {
    hide Walk, Components;
  }
}
