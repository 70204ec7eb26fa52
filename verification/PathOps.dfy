/** The path forms of the operations: search_file first, then the work in the directory it ended in
    (fs.c: sys_open, sys_unlink, sys_mkdir, sys_rmdir). */
module PathOps {
  import opened Words
  import opened Partitions
  import opened FileData
  import opened FileIo
  import opened DirData
  import opened Directories
  import opened DirTree
  import opened FsState
  import opened FileSystem
  import opened Paths
  import opened PathWalk

  // ---------- where a search ends ----------

  /** The search ends at the last name it looked up, in the directory that the names before it lead to. */
  lemma {:induction false} WalkEnd(t: Tree, d: nat, parent: nat, cs: seq<Str>, seen: nat)
    requires TreeOk(t) && d in t.dirs && cs != []
    ensures var trip := Walk(t, d, parent, cs, seen); var k := trip.seen - 1 - seen;
      && 0 <= k < |cs| && trip.parent in t.dirs && Lookup(t, trip.parent, cs[k]) == trip.found
      && (trip.found.FoundDir? ==> k == |cs| - 1) && Walk(t, d, parent, cs[..k], seen).found == FoundDir(trip.parent)
    decreases |cs|
  {
    LookupIn(t, d, cs[0]);
    hide TreeOk, Lookup;
    var f := Lookup(t, d, cs[0]);
    if f.FoundDir? && |cs| > 1 {
      var trip := Walk(t, f.ino, d, cs[1..], seen + 1);
      WalkEnd(t, f.ino, d, cs[1..], seen + 1);
      var k := trip.seen - 2 - seen;
      assert cs[..k + 1][1..] == cs[1..][..k];
      assert cs[..k + 1][0] == cs[0];
    } else {
      assert f.FoundDir? ==> Walk(t, f.ino, d, cs[1..], seen + 1) == Trip(f, d, seen + 1);
    }
  }

  /** Where the search for a path ends. */
  ghost function Ends(t: Tree, path: Str): (trip: Trip) {
    Walk(t, 0, 0, Components(path), 0)
  }

  /** The last name looked up. */
  ghost function LastSeen(t: Tree, path: Str): (n: Str)
    requires 0 < Ends(t, path).seen <= |Components(path)|
  {
    Components(path)[Ends(t, path).seen - 1]
  }

  lemma RootKnown(t: Tree)
    requires TreeOk(t)
    ensures 0 in t.dirs
  {
  }

  lemma EndsWhere(t: Tree, path: Str)
    requires TreeOk(t) && Components(path) != []
    ensures var trip := Ends(t, path);
      && 0 < trip.seen <= |Components(path)| && trip.parent in t.dirs
      && Lookup(t, trip.parent, LastSeen(t, path)) == trip.found
      && (trip.found.FoundDir? ==> trip.seen == |Components(path)|)
      && Resolve(t, Components(path)[..trip.seen - 1]) == FoundDir(trip.parent)
  {
    hide TreeOk, Lookup, Walk, Components;
    RootKnown(t);
    WalkEnd(t, 0, 0, Components(path), 0);
  }

  /** A shorter path goes the same way. */
  lemma {:induction false} WalkPrefix(t: Tree, d: nat, parent: nat, cs: seq<Str>, seen: nat, k: nat)
    requires k <= |cs|
    ensures var trip := Walk(t, d, parent, cs, seen);
      trip.found.FoundFile? ==> (Walk(t, d, parent, cs[..k], seen).found.FoundFile? <==> seen + k >= trip.seen)
    decreases |cs|
  {
    hide Lookup;
    if cs != [] {
      var f := Lookup(t, d, cs[0]);
      if f.FoundDir? {
        SeenGrows(t, f.ino, d, cs[1..], seen + 1);
      }
      if k > 0 {
        assert cs[..k][0] == cs[0] && cs[..k][1..] == cs[1..][..k - 1];
        if f.FoundDir? {
          WalkPrefix(t, f.ino, d, cs[1..], seen + 1, k - 1);
        }
      }
    }
  }

  lemma {:induction false} SeenGrows(t: Tree, d: nat, parent: nat, cs: seq<Str>, seen: nat)
    ensures seen <= Walk(t, d, parent, cs, seen).seen
    ensures Walk(t, d, parent, cs, seen).found.FoundFile? ==> seen < Walk(t, d, parent, cs, seen).seen
    decreases |cs|
  {
    hide Lookup;
    if cs != [] && Lookup(t, d, cs[0]).FoundDir? {
      SeenGrows(t, Lookup(t, d, cs[0]).ino, d, cs[1..], seen + 1);
    }
  }

  /** A regular file stands where the path needs a directory. */
  ghost predicate FileOnTheWay(t: Tree, path: Str) {
    exists k :: 0 <= k < |Components(path)| && Resolve(t, Components(path)[..k]).FoundFile?
  }

  /** A path that leads to a file leads to the file it names exactly when no file stands on the way. */
  lemma FileReached(t: Tree, path: Str)
    requires TreeOk(t) && Ends(t, path).found.FoundFile?
    ensures Components(path) != [] && (FileOnTheWay(t, path) <==> Ends(t, path).seen < |Components(path)|)
  {
    EndsWhere(t, path);
    hide TreeOk, Lookup, Walk, Components;
    var cs, trip := Components(path), Ends(t, path);
    forall k | 0 <= k < |cs| ensures Resolve(t, cs[..k]).FoundFile? <==> k >= trip.seen {
      WalkPrefix(t, 0, 0, cs, 0, k);
    }
    if trip.seen < |cs| {
      assert Resolve(t, cs[..trip.seen]).FoundFile?;
    }
  }

  // ---------- what the directory layer needs ----------

  lemma LookupLeads(w: World, d: nat, n: Str)
    requires FsOk(w) && d in w.tree.dirs
    ensures match Lookup(w.tree, d, n)
      case FoundDir(x) => Leads(w, d, n, x, true)
      case FoundFile(x) => Leads(w, d, n, x, false) && x in w.tree.files
      case Missing => !Taken(w, d, n)
  {
    hide FsOk;
    if Spot(d, n) in w.tree.link {
      LinkWhere(w, d, n);
    }
  }

  lemma LinkWhere(w: World, d: nat, n: Str)
    requires FsOk(w) && Spot(d, n) in w.tree.link
    ensures !DotName(n) && w.tree.link[Spot(d, n)].ino > 0
    ensures w.tree.link[Spot(d, n)].ftype != FT_DIRECTORY ==> w.tree.link[Spot(d, n)].ino in w.tree.files
  {
    hide *;
    FsParts(w);
    CoupledAt(w.dirs, w.tree, d, n);
    LinkType(w.tree, Spot(d, n));
    NameRecorded(w, d, n);
  }

  /** What is found by a name in a directory, and the name on record. */
  lemma FoundByName(w: World, path: Str)
    requires FsOk(w) && Components(path) != []
    ensures 0 < Ends(w.tree, path).seen <= |Components(path)|
    ensures var p, n, f := Ends(w.tree, path).parent, LastSeen(w.tree, path), Ends(w.tree, path).found;
      && (f.FoundFile? <==> IsFile(w, p, n)) && (f.FoundFile? ==> w.tree.link[Spot(p, n)].ino == f.ino && !DotName(n))
      && (f.FoundDir? && !DotName(n) ==>
           && Spot(p, n) in w.tree.link && w.tree.link[Spot(p, n)].ino == f.ino
           && w.tree.link[Spot(p, n)].ftype == FT_DIRECTORY)
      && (f == Missing ==> !DotName(n) && Spot(p, n) !in w.tree.link)
      && (Spot(p, n) in w.tree.link ==>
            && w.tree.link[Spot(p, n)].ino in w.tree.ref && w.tree.ref[w.tree.link[Spot(p, n)].ino] == Spot(p, n)
            && w.tree.link[Spot(p, n)].ino > 0 && !DotName(n))
      && (f.FoundFile? ==> Spot(p, n) in w.tree.link)
  {
    FsParts(w);
    hide FsOk, Walk, Components;
    EndsWhere(w.tree, path);
    var p, n := Ends(w.tree, path).parent, LastSeen(w.tree, path);
    LookupLeads(w, p, n);
    if Spot(p, n) in w.tree.link {
      LinkWhere(w, p, n);
      NameRecorded(w, p, n);
    }
    hide TreeOk;
  }

  /** A path the code can work with: absolute, below 512 characters, names of up to 15. */
  ghost predicate GoodPath(path: Str) {
    && 1 <= |path| < 512 && path[0] == SLASH && NoZero(path) && !Nameless(path)
    && forall k :: 0 <= k < |Components(path)| ==> |Components(path)[k]| <= 15
  }

  lemma GoodPathIs(path: Str)
    requires GoodPath(path)
    ensures 1 <= |path| < 512 && path[0] == SLASH && NoZero(path) && !Nameless(path)
    ensures forall k :: 0 <= k < |Components(path)| ==> |Components(path)[k]| <= 15
  {
  }

  lemma {:induction false} ComponentsNoZero(s: Str, k: nat)
    requires NoZero(s) && k < |Components(s)|
    ensures NoZero(Components(s)[k])
    decreases |s|
  {
    var t := SkipSlashes(s);
    SkipNoZero(s);
    FirstNoZero(t);
    if k > 0 {
      ComponentsNoZero(t[|FirstName(t)|..], k - 1);
    }
  }

  lemma {:induction false} SkipNoZero(s: Str)
    requires NoZero(s)
    ensures NoZero(SkipSlashes(s))
  {
    if |s| > 0 && s[0] == SLASH {
      SkipNoZero(s[1..]);
    }
  }

  lemma {:induction false} FirstNoZero(s: Str)
    requires NoZero(s)
    ensures NoZero(FirstName(s))
  {
    if |s| > 0 && s[0] != SLASH {
      FirstNoZero(s[1..]);
    }
  }

  lemma NameGood(path: Str, k: nat)
    requires GoodPath(path) && k < |Components(path)|
    ensures GoodName(Components(path)[k]) && SLASH !in Components(path)[k]
  {
    ComponentsAreNames(path, k);
    ComponentsNoZero(path, k);
    hide Components, NoZero;
  }

  // ---------- path_depth_cnt ----------

  /** path_depth_cnt: the number of names. */
  method PathDepth(path: Str) returns (n: nat)
    requires NoZero(path)
    ensures n == |Components(path)|
  {
    hide Components, NoZero, Parsed;
    n := 0;
    ghost var left := Components(path);
    var name, rest := NextName(More(path), left);
    ParsedParts(left, name, rest);
    while name != []
      invariant n + |left| == |Components(path)| && Parsed(left, name, rest) && (name == [] <==> left == [])
      decreases if rest.More? then |rest.path| + 1 else 0, |name|
    {
      ParsedParts(left, name, rest);
      n := n + 1;
      left := left[1..];
      name, rest := NextName(rest, left);
      ParsedParts(left, name, rest);
    }
  }

  // ---------- sys_unlink and sys_rmdir ----------

  /** sys_unlink of a path: the root stops the kernel, a name not found is refused, and otherwise the
      entry goes at which the search ended. */
  ghost predicate PathUnlinks(w: World, w': World, path: Str, open: set<nat>, r: Outcome) {
    var trip := Ends(w.tree, path);
    if Components(path) == [] then r == Stopped
    else
      && 0 < trip.seen <= |Components(path)|
      && if trip.found == Missing then r == Refused && w' == w
           else Unlinks(w, w', trip.parent, LastSeen(w.tree, path), open, r)
  }

  ghost predicate PathRemovesDir(w: World, w': World, path: Str, r: Outcome) {
    var trip := Ends(w.tree, path);
    if Components(path) == [] then r == Stopped
    else
      && 0 < trip.seen <= |Components(path)|
      && if trip.found == Missing then r == Refused && w' == w
           else RemovesDir(w, w', trip.parent, LastSeen(w.tree, path), r)
  }

  lemma SearchIs(t: Tree, path: Str, s: Search)
    requires TreeOk(t) && !Nameless(path) && Searched(t, path, 0, s)
    ensures match Ends(t, path).found
      case FoundDir(x) => s.ino == x && s.ftype == FT_DIRECTORY && s.parent == Ends(t, path).parent
      case FoundFile(x) => s.ino == x && s.ftype == FT_REGULAR && s.parent == Ends(t, path).parent
        && s.seen == Ends(t, path).seen
      case Missing =>
        && s.ino == -1 && s.ftype == FT_UNKNOWN && s.parent == Ends(t, path).parent && s.seen == Ends(t, path).seen
        && 0 < s.seen <= |Components(path)| && s.last == LastSeen(t, path)
    ensures Components(path) == [] ==> Ends(t, path).found == FoundDir(0)
    ensures FT_REGULAR != FT_DIRECTORY && FT_UNKNOWN != FT_DIRECTORY && FT_UNKNOWN != FT_REGULAR
  {
    hide TreeOk, Lookup, Components;
  }

  /** A directory numbered 0 was reached by a dot name. */
  lemma RootByDots(w: World, path: Str)
    requires FsOk(w) && Components(path) != [] && Ends(w.tree, path).found == FoundDir(0)
    ensures 0 < Ends(w.tree, path).seen <= |Components(path)|
    ensures var n := LastSeen(w.tree, path); DotName(n) && DotTarget(w, Ends(w.tree, path).parent, n) == 0
  {
    FsParts(w);
    EndsWhere(w.tree, path);
    hide FsOk, Sound, Files, DirsOk, RootFirst, Numbered, Coupled, TreeOk, Walk, Components, Lookup;
    var p, n := Ends(w.tree, path).parent, LastSeen(w.tree, path);
    LookupLeads(w, p, n);
    LeadsWhere(w, p, n, 0, true);
  }

  lemma PathUnlinkIs(w: World, w': World, path: Str, open: set<nat>, r: Outcome)
    ensures PathUnlinks(w, w', path, open, r) <==>
      var trip := Ends(w.tree, path);
      if Components(path) == [] then r == Stopped
      else
        && 0 < trip.seen <= |Components(path)|
        && if trip.found == Missing then r == Refused && w' == w
             else Unlinks(w, w', trip.parent, LastSeen(w.tree, path), open, r)
  {
  }

  lemma PathRmdirIs(w: World, w': World, path: Str, r: Outcome)
    ensures PathRemovesDir(w, w', path, r) <==>
      var trip := Ends(w.tree, path);
      if Components(path) == [] then r == Stopped
      else
        && 0 < trip.seen <= |Components(path)|
        && if trip.found == Missing then r == Refused && w' == w
             else RemovesDir(w, w', trip.parent, LastSeen(w.tree, path), r)
  {
  }

  /** sys_unlink */
  method SysUnlink(m: Mounted, path: Str, open: set<nat>) returns (r: Outcome)
    requires FsOk(m.W()) && GoodPath(path)
    modifies m, m.part
    ensures PathUnlinks(old(m.W()), m.W(), path, open, r)
    ensures r != Stopped && r != Beyond && old(m.Synced()) ==> m.Synced()
    ensures r != Stopped && r != Beyond && old(m.BlocksSynced()) ==> m.BlocksSynced()
  {
    hide *;
    ghost var w := m.W();
    GoodPathIs(path);
    FsParts(w);
    var s := SearchFile(m, path, 0);
    SearchIs(w.tree, path, s);
    if s.ino == 0 {                               // the assertion of fs.c:485
      StoppedAtRoot(w, m.W(), path, open, s);
      return Stopped;
    }
    EndsWhere(w.tree, path);
    if s.ino == -1 {
      PathUnlinkIs(w, m.W(), path, open, Refused);
      return Refused;
    }
    LookupLeads(w, s.parent, LastSeen(w.tree, path));
    r := m.UnlinkFound(s.parent, LastSeen(w.tree, path), s.ino, s.ftype, open);
    PathUnlinkIs(w, m.W(), path, open, r);
  }

  lemma FileNotRoot(w: World, path: Str)
    requires FsOk(w) && Components(path) != []
    ensures Ends(w.tree, path).found.FoundFile? ==> Ends(w.tree, path).found.ino > 0
  {
    hide *;
    FoundByName(w, path);
  }

  lemma StoppedAtRoot(w: World, w': World, path: Str, open: set<nat>, s: Search)
    requires FsOk(w) && s.ino == 0
    requires match Ends(w.tree, path).found
      case FoundDir(x) => s.ino == x
      case FoundFile(x) => s.ino == x
      case Missing => s.ino == -1
    ensures PathUnlinks(w, w', path, open, Stopped) && PathRemovesDir(w, w', path, Stopped)
  {
    hide FsOk, Walk, Components, Lookup;
    if Components(path) != [] {
      var trip := Ends(w.tree, path);
      FileNotRoot(w, path);
      RootByDots(w, path);
      UnlinkStopped(w, w', trip.parent, LastSeen(w.tree, path), open);
      RmdirStopped(w, w', trip.parent, LastSeen(w.tree, path));
    }
  }

  /** sys_rmdir */
  method SysRmdir(m: Mounted, path: Str) returns (r: Outcome)
    requires FsOk(m.W()) && GoodPath(path)
    modifies m, m.part
    ensures PathRemovesDir(old(m.W()), m.W(), path, r)
    ensures r != Stopped && r != Beyond && old(m.Synced()) ==> m.Synced()
    ensures r != Stopped && r != Beyond && old(m.BlocksSynced()) ==> m.BlocksSynced()
  {
    hide *;
    ghost var w := m.W();
    GoodPathIs(path);
    FsParts(w);
    var s := SearchFile(m, path, 0);
    SearchIs(w.tree, path, s);
    if s.ino == 0 {                               // the assertion of fs.c:701
      StoppedAtRoot(w, m.W(), path, {}, s);
      return Stopped;
    }
    EndsWhere(w.tree, path);
    if s.ino == -1 {
      PathRmdirIs(w, m.W(), path, Refused);
      return Refused;
    }
    LookupLeads(w, s.parent, LastSeen(w.tree, path));
    r := m.RmdirFound(s.parent, LastSeen(w.tree, path), s.ino, s.ftype);
    PathRmdirIs(w, m.W(), path, r);
  }

  // ---------- sys_mkdir and sys_open ----------

  /** All names but the last lead to a directory, which does not have the last one. */
  ghost predicate FreePlace(t: Tree, path: Str) {
    var trip := Ends(t, path);
    Components(path) != [] && trip.found == Missing && trip.seen == |Components(path)|
  }

  ghost predicate PathMakesDir(w: World, w': World, path: Str, r: Outcome) {
    if FreePlace(w.tree, path) then MakesDir(w, w', Ends(w.tree, path).parent, LastSeen(w.tree, path), r)
    else r == Refused && w' == w
  }

  ghost predicate PathCreates(w: World, w': World, path: Str, r: Outcome) {
    if path != [] && path[|path| - 1] != SLASH && FreePlace(w.tree, path) then
      Creates(w, w', Ends(w.tree, path).parent, LastSeen(w.tree, path), r)
    else r == Refused && w' == w
  }

  lemma FreePlaceIs(w: World, path: Str)
    requires FsOk(w)
    ensures FreePlace(w.tree, path) <==>
      Components(path) != [] && Ends(w.tree, path).found == Missing && Ends(w.tree, path).seen == |Components(path)|
    ensures FreePlace(w.tree, path) ==>
      && 0 < Ends(w.tree, path).seen <= |Components(path)| && Ends(w.tree, path).parent in w.tree.dirs
      && !Taken(w, Ends(w.tree, path).parent, LastSeen(w.tree, path))
  {
    FsParts(w);
    hide FsOk, Walk, Components, Lookup;
    if FreePlace(w.tree, path) {
      EndsWhere(w.tree, path);
      LookupLeads(w, Ends(w.tree, path).parent, LastSeen(w.tree, path));
    }
  }

  lemma PathMkdirIs(w: World, w': World, path: Str, r: Outcome)
    ensures PathMakesDir(w, w', path, r) <==>
      if FreePlace(w.tree, path) then MakesDir(w, w', Ends(w.tree, path).parent, LastSeen(w.tree, path), r)
          else r == Refused && w' == w
  {
  }

  lemma PathCreateIs(w: World, w': World, path: Str, r: Outcome)
    ensures PathCreates(w, w', path, r) <==>
      if path != [] && path[|path| - 1] != SLASH && FreePlace(w.tree, path) then
        Creates(w, w', Ends(w.tree, path).parent, LastSeen(w.tree, path), r)
      else r == Refused && w' == w
  {
  }

  /** sys_mkdir */
  method SysMkdir(m: Mounted, path: Str) returns (r: Outcome)
    requires FsOk(m.W()) && GoodPath(path)
    modifies m, m.part
    ensures PathMakesDir(old(m.W()), m.W(), path, r)
    ensures r != Stopped && r != Beyond && old(m.Synced()) ==> m.Synced()
    ensures r != Stopped && r != Beyond && old(m.BlocksSynced()) ==> m.BlocksSynced()
  {
    hide *;
    ghost var w := m.W();
    GoodPathIs(path);
    FsParts(w);
    var s := SearchFile(m, path, 0);
    SearchIs(w.tree, path, s);
    FreePlaceIs(w, path);
    PathMkdirIs(w, w, path, Refused);
    if s.ino != -1 {
      return Refused;
    }
    var depth := PathDepth(path);
    if depth != s.seen {
      return Refused;
    }
    NameGood(path, s.seen - 1);
    LastIsName(w.tree, path);
    r := m.MkdirNew(s.parent, s.last);
    PathMkdirIs(w, m.W(), path, r);
  }

  lemma LastIsName(t: Tree, path: Str)
    requires 0 < Ends(t, path).seen <= |Components(path)|
    ensures LastSeen(t, path) == Components(path)[Ends(t, path).seen - 1]
  {
  }

  /** What strrchr finds behind the last slash is the last name. */
  lemma {:induction false} LastComponent(front: Str, name: Str)
    requires SLASH !in name && name != []
    ensures Components(front + [SLASH] + name) == Components(front) + [name]
    decreases |front|
  {
    hide *;
    var t := SkipSlashes(front);
    SkipCount(front);
    var n := |front| - |t|;
    if t == [] {
      OnlySlashes(front, name);
    } else {
      var first := FirstName(t);
      FirstCount(t);
      NameHasNoSlash(t);
      var rest := t[|first|..];
      assert front == front[..n] + first + rest;
      assert front + [SLASH] + name == front[..n] + first + (rest + [SLASH] + name);
      FirstNotEmpty(t);
      ComponentsStep(front[..n], first, rest + [SLASH] + name);
      ComponentsStep(front[..n], first, rest);
      LastComponent(rest, name);
      assert [first] + (Components(rest) + [name]) == [first] + Components(rest) + [name];
    }
  }

  lemma OnlySlashes(front: Str, name: Str)
    requires (forall j :: 0 <= j < |front| ==> front[j] == SLASH) && SLASH !in name && name != []
    ensures Components(front + [SLASH] + name) == Components(front) + [name]
  {
    var slashes := front + [SLASH];
    assert front + [SLASH] + name == slashes + name + [];
    assert front == front + [] + [];
    ComponentsStep(slashes, name, []);
    ComponentsStep(front, [], []);
    assert Components([]) == [];
    hide *;
  }

  lemma FirstNotEmpty(t: Str)
    requires t != [] && t[0] != SLASH
    ensures FirstName(t) != []
  {
  }

  lemma {:induction false} SkipCount(s: Str)
    ensures var n := |s| - |SkipSlashes(s)|;
      0 <= n <= |s| && SkipSlashes(s) == s[n..] && forall j :: 0 <= j < n ==> s[j] == SLASH
  {
    if |s| > 0 && s[0] == SLASH {
      SkipCount(s[1..]);
      var n := |s| - |SkipSlashes(s)|;
      assert s[1..][n - 1..] == s[n..];
      assert forall j :: 1 <= j < n ==> s[j] == s[1..][j - 1];
    }
  }

  lemma {:induction false} FirstCount(s: Str)
    ensures var n := |FirstName(s)|; n <= |s| && FirstName(s) == s[..n] && (n < |s| ==> s[n] == SLASH)
  {
    if |s| > 0 && s[0] != SLASH {
      FirstCount(s[1..]);
    }
  }

  lemma LastIsLast(path: Str, i: int)
    requires 0 <= i < |path| && path[i] == SLASH && SLASH !in path[i + 1..] && path[|path| - 1] != SLASH
    ensures var cs := Components(path); cs != [] && cs[|cs| - 1] == path[i + 1..]
  {
    assert path == path[..i] + [SLASH] + path[i + 1..];
    LastComponent(path[..i], path[i + 1..]);
  }

  /** sys_open with O_CREAT. */
  method SysCreate(m: Mounted, path: Str) returns (r: Outcome)
    requires FsOk(m.W()) && GoodPath(path)
    modifies m, m.part
    ensures PathCreates(old(m.W()), m.W(), path, r)
    ensures r != Stopped && r != Beyond && old(m.Synced()) ==> m.Synced()
    ensures r != Stopped && r != Beyond && old(m.BlocksSynced()) ==> m.BlocksSynced()
  {
    hide *;
    ghost var w := m.W();
    GoodPathIs(path);
    FsParts(w);
    PathCreateIs(w, w, path, Refused);
    if path[|path| - 1] == SLASH {
      return Refused;
    }
    var s := SearchFile(m, path, 0);
    SearchIs(w.tree, path, s);
    FreePlaceIs(w, path);
    if s.ftype == FT_DIRECTORY {
      return Refused;
    }
    var depth := PathDepth(path);
    if depth != s.seen || s.ino != -1 {
      return Refused;
    }
    var i := LastSlash(path);
    LastIsLast(path, i);
    NameGood(path, s.seen - 1);
    LastIsName(w.tree, path);
    r := m.CreateNew(s.parent, path[i + 1..]);
    PathCreateIs(w, m.W(), path, r);
  }

  // ---------- opening a file, writing and reading ----------

  /** The path names a regular file: sys_open without O_CREAT succeeds. */
  ghost predicate Opens(t: Tree, path: Str) {
    path != [] && path[|path| - 1] != SLASH && Ends(t, path).found.FoundFile?
      && Ends(t, path).seen == |Components(path)|
  }

  lemma OpensIs(t: Tree, path: Str)
    ensures Opens(t, path) <==>
      path != [] && path[|path| - 1] != SLASH && Ends(t, path).found.FoundFile?
        && Ends(t, path).seen == |Components(path)|
  {
  }

  /** sys_open of a file that exists; the descriptor stands for its inode. */
  method SysOpen(m: Mounted, path: Str) returns (fd: Option<nat>)
    requires FsOk(m.W()) && GoodPath(path)
    ensures fd.Some? <==> Opens(m.W().tree, path)
    ensures fd.Some? ==> Ends(m.W().tree, path).found == FoundFile(fd.value) && fd.value in m.W().bytes
  {
    hide *;
    ghost var w := m.W();
    GoodPathIs(path);
    FsParts(w);
    OpensIs(w.tree, path);
    if path[|path| - 1] == SLASH {
      return None;
    }
    var s := SearchFile(m, path, 0);
    SearchIs(w.tree, path, s);
    if s.ftype == FT_DIRECTORY {
      return None;
    }
    var depth := PathDepth(path);
    if depth != s.seen || s.ino == -1 {
      return None;
    }
    OpenedIs(w, path);
    fd := Some(s.ino);
  }

  lemma OpenedIs(w: World, path: Str)
    requires FsOk(w) && Ends(w.tree, path).found.FoundFile?
    ensures Ends(w.tree, path).found.ino in w.bytes
  {
    FsParts(w);
    hide FsOk, Walk, Components, Lookup;
    assert Components(path) != [] by {
      FileReached(w.tree, path);
    }
    EndsWhere(w.tree, path);
    LookupLeads(w, Ends(w.tree, path).parent, LastSeen(w.tree, path));
  }

  /** sys_open and sys_write. */
  method SysWrite(m: Mounted, path: Str, buf: seq<Byte>) returns (r: Option<WriteResult>)
    requires FsOk(m.W()) && GoodPath(path)
    modifies m, m.part
    ensures r.None? ==> !Opens(old(m.W()).tree, path) && m.W() == old(m.W())
    ensures r.Some? ==>
      && Opens(old(m.W()).tree, path)
      && Writes(old(m.W()), m.W(), Ends(old(m.W()).tree, path).found.ino, buf, r.value)
    ensures r != Some(Halted) && r != Some(Overrun) && old(m.Synced()) ==> m.Synced()
    ensures r != Some(Halted) && r != Some(Overrun) && old(m.BlocksSynced()) ==>
      (m.BlocksSynced() <==> !WriteLeaves(old(m.W()), path, |buf|))
  {
    hide *;
    ghost var w := m.W();
    OpensIs(w.tree, path);
    NoWrite(w, path, |buf|);
    var fd := SysOpen(m, path);
    if fd.None? {
      return None;
    }
    var res := m.Write(fd.value, buf);
    WriteSizes(w, m.W(), fd.value, buf, res);
    r := Some(res);
  }

  /** A write of n bytes by that path creates a table and leaves its bit stale on disk. */
  ghost predicate WriteLeaves(w: World, path: Str, n: nat) {
    && Opens(w.tree, path) && Ends(w.tree, path).found.FoundFile? && Ends(w.tree, path).found.ino in w.bytes
    && |w.bytes[Ends(w.tree, path).found.ino]| + n < MAX_FILE && LeavesStale(w, Ends(w.tree, path).found.ino, n)
  }

  lemma NoWrite(w: World, path: Str, n: nat)
    ensures !Opens(w.tree, path) ==> !WriteLeaves(w, path, n)
    ensures Opens(w.tree, path) && Ends(w.tree, path).found.FoundFile? && Ends(w.tree, path).found.ino in w.bytes ==>
      (WriteLeaves(w, path, n) <==>
       |w.bytes[Ends(w.tree, path).found.ino]| + n < MAX_FILE && LeavesStale(w, Ends(w.tree, path).found.ino, n))
  {
    hide Opens, Ends, LeavesStale;
  }

  lemma WriteSizes(w: World, w': World, ino: nat, buf: seq<Byte>, r: WriteResult)
    requires Writes(w, w', ino, buf, r)
    ensures ino in w.bytes && (r == TooLarge ==> |w.bytes[ino]| + |buf| > MAX_FILE)
    ensures r.Wrote? ==> |w.bytes[ino]| + |buf| < MAX_FILE
  {
    hide FsOk, SameArea, Need;
  }

  /** sys_open, sys_lseek from the start of the file, which leaves the position at 0 when the offset is
      not inside it, and sys_read. */
  method SysRead(m: Mounted, path: Str, offset: nat, count: nat) returns (r: Option<ReadResult>)
    requires FsOk(m.W()) && GoodPath(path) && count < U32_LIMIT
    ensures r.None? <==> !Opens(m.W().tree, path)
    ensures r.Some? ==>
      && Ends(m.W().tree, path).found.FoundFile? && Ends(m.W().tree, path).found.ino in m.W().bytes
      && ReadsAt(m.W().bytes[Ends(m.W().tree, path).found.ino], offset, count, r.value)
  {
    hide *;
    OpensIs(m.W().tree, path);
    var fd := SysOpen(m, path);
    if fd.None? {
      return None;
    }
    FsParts(m.W());
    m.Parts();
    m.part.Fields();
    ghost var b := m.W().bytes[fd.value];
    SizeOf(m.W(), fd.value);
    PosInside(b, offset);
    var size := m.part.inodes[fd.value].size;
    var res, pos := FileRead(m.part, fd.value, if offset < size then offset else 0, count);
    ReadsAtIs(b, offset, count, res, pos);
    r := Some(res);
  }

  lemma SizeOf(w: World, x: nat)
    requires FsOk(w) && x in w.bytes
    ensures x in w.v.inodes && w.v.inodes[x].size == |w.bytes[x]| && Sound(w.v) && Files(w.v, w.bytes)
      && |w.bytes[x]| < MAX_FILE
  {
    FsParts(w);
    hide FsOk;
    FileOf(w.v, w.bytes, x);
    FileSize(w.v, x, w.bytes[x]);
    hide Sound, Files;
  }

  /** Where a read at that offset starts. */
  function StartAt(b: seq<Byte>, offset: nat): (pos: nat) {
    if offset < |b| then offset else 0
  }

  /** What a read of count bytes at that offset gives: the bytes from there on, or -1 for an empty
      file; the last block cannot be read. */
  ghost predicate ReadsAt(b: seq<Byte>, offset: nat, count: nat, r: ReadResult) {
    var pos := StartAt(b, offset);
    if Wraps(pos, count) then r == if pos / 512 < 139 then Wild else ReadHalted
    else if b == [] && count > 0 then r == AtEnd
    else if (pos + count) / 512 >= 139 && |b| / 512 >= 139 then r == ReadHalted
    else
      && r.Read? && |r.bytes| <= count && pos + |r.bytes| <= |b| && r.bytes == b[pos .. pos + |r.bytes|]
      && (|r.bytes| < count ==> pos + |r.bytes| == |b|)
  }

  lemma PosInside(b: seq<Byte>, offset: nat)
    ensures PosOk(if offset < |b| then offset else 0, |b|)
  {
  }

  lemma ReadsAtIs(b: seq<Byte>, offset: nat, count: nat, r: ReadResult, pos: int)
    requires count < U32_LIMIT && |b| < MAX_FILE
    requires var p := if offset < |b| then offset else 0;
      && (r == AtEnd <==> p == |b| && count > 0 && !Wraps(p, count))
      && (r == Wild <==> Wraps(p, count) && p / 512 < 139)
      && (r == ReadHalted <==>
           || (p / 512 >= 139 && (p == U32_LIMIT - 1 || Wraps(p, count)))
           || (!Wraps(p, count) && (p + count) / 512 >= 139 && |b| / 512 >= 139 && r != AtEnd))
      && (r.Read? ==>
            && 0 <= p <= pos <= |b| && r.bytes == b[p .. pos] && |r.bytes| <= count
            && (|r.bytes| < count ==> pos == |b|))
    ensures ReadsAt(b, offset, count, r)
  {
  }
}
