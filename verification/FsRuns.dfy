/** Whole runs of file-system calls by path.  Perform executes any list of calls on a mounted
    partition; what it does to the files and names is a run of the small machine described here,
    which knows nothing of blocks, bitmaps and sectors. */
module FsRuns {
  import opened Words
  import opened Partitions
  import opened FileData
  import opened FileIo
  import opened DirData
  import opened Directories
  import opened DirTree
  import opened FsState
  import opened FileSystem
  import opened Accounting
  import opened Paths
  import opened PathWalk
  import opened PathOps
  import opened PathLaws
  import opened Remount

  // ---------- the machine ----------

  /** The tree of names, and what every regular file holds. */
  datatype Fs = Fs(tree: Tree, bytes: map<nat, seq<Byte>>)

  datatype Call =
    | MakeFile(path: Str)
    | MakeDir(path: Str)
    | RemoveFile(path: Str, open: set<nat>)
    | RemoveDir(path: Str)
    | WriteTo(path: Str, buf: seq<Byte>)
    | ReadFrom(path: Str, offset: nat, count: nat)

  datatype Answer = Did(out: Outcome) | WriteRes(w: Option<WriteResult>) | ReadRes(r: Option<ReadResult>)

  /** The kernel stopped, or went where the model does not follow. */
  predicate Stops(a: Answer) {
    match a
    case Did(out) => out == Stopped || out == Beyond
    case WriteRes(w) => w == Some(Halted) || w == Some(Overrun)
    case ReadRes(r) => r == Some(ReadHalted) || r == Some(Wild)
  }

  /** The path ends in ".". */
  predicate DotLast(path: Str) {
    Components(path) != [] && Components(path)[|Components(path)| - 1] == DOT
  }

  /** Calls the model follows: good paths, counts of 32 bits, and no rmdir of ".", after which nothing is
      left of the invariant. */
  ghost predicate GoodCall(c: Call) {
    GoodPath(c.path) && (c.ReadFrom? ==> c.count < U32_LIMIT) && (c.RemoveDir? ==> !DotLast(c.path))
  }

  /** A new entry under the path, for the least unused number. */
  ghost predicate Makes(a: Fs, a': Fs, path: Str, ftype: int, ino: nat) {
    && FreePlace(a.tree, path) && 0 < Ends(a.tree, path).seen <= |Components(path)|
    && Ends(a.tree, path).parent in a.tree.depth
    && ino > 0 && FreshIno(a.tree, ino)
    && a'.tree == WithChild(a.tree, Ends(a.tree, path).parent, Entry(LastSeen(a.tree, path), ino, ftype))
    && a'.bytes == if ftype == FT_DIRECTORY then a.bytes else a.bytes[ino := []]
  }

  /** The path leads to a directory by a name of its own, and the directory has no children. */
  ghost predicate EmptyAt(t: Tree, path: Str) {
    && 0 < Ends(t, path).seen <= |Components(path)| && Ends(t, path).found.FoundDir? && !DotName(LastSeen(t, path))
    && forall s :: s in t.link ==> s.dir != Ends(t, path).found.ino
  }

  /** The inode the path leads to is gone, with its name and its bytes. */
  ghost predicate Drops(a: Fs, a': Fs, path: Str, x: nat) {
    && 0 < Ends(a.tree, path).seen <= |Components(path)| && x in a.tree.ref && !DotName(LastSeen(a.tree, path))
    && a.tree.ref[x] == Spot(Ends(a.tree, path).parent, LastSeen(a.tree, path))
    && a'.tree == WithoutChild(a.tree, x) && a'.bytes == a.bytes - {x}
  }

  /** What a call does that the model follows and that returns. */
  ghost predicate Effect(a: Fs, a': Fs, c: Call, ans: Answer) {
    GoodCall(c) && !Stops(ans) && Changes(a, a', c, ans)
  }

  ghost predicate Changes(a: Fs, a': Fs, c: Call, ans: Answer) {
    match c
    case MakeFile(path) =>
      ans.Did? && (match ans.out
        case Done(ino) => path != [] && path[|path| - 1] != SLASH && Makes(a, a', path, FT_REGULAR, ino)
        case _ => a' == a && (path == [] || path[|path| - 1] == SLASH || !FreePlace(a.tree, path)))
    case MakeDir(path) =>
      ans.Did? && (match ans.out
        case Done(ino) => Makes(a, a', path, FT_DIRECTORY, ino)
        case _ => a' == a && !FreePlace(a.tree, path))
    case RemoveFile(path, open) =>
      ans.Did? && (match ans.out
        case Done(x) => Ends(a.tree, path).found == FoundFile(x) && x !in open && Drops(a, a', path, x)
        case _ => a' == a && (Ends(a.tree, path).found.FoundFile? ==> Ends(a.tree, path).found.ino in open))
    case RemoveDir(path) =>
      ans.Did? && (match ans.out
        case Done(x) => EmptyAt(a.tree, path) && x == Ends(a.tree, path).found.ino && Drops(a, a', path, x)
        case _ => a' == a && !EmptyAt(a.tree, path))
    case WriteTo(path, buf) =>
      ans.WriteRes? && (ans.w.Some? <==> Opens(a.tree, path)) && Wrote(a, a', path, buf, ans.w)
    case ReadFrom(path, offset, count) =>
      && ans.ReadRes? && a' == a && (ans.r.Some? <==> Opens(a.tree, path))
      && (ans.r.Some? ==> Ends(a.tree, path).found.FoundFile? && Ends(a.tree, path).found.ino in a.bytes
                          && ReadsAt(a.bytes[Ends(a.tree, path).found.ino], offset, count, ans.r.value))
  }

  /** The bytes go to the end of the file that the path leads to, or nothing happens: there is no such
      file, or it would become too large. */
  ghost predicate Wrote(a: Fs, a': Fs, path: Str, buf: seq<Byte>, w: Option<WriteResult>) {
    if w.Some? && w.value.Wrote? then
      && Ends(a.tree, path).found.FoundFile?
      && var x := Ends(a.tree, path).found.ino;
         x in a.bytes && |a.bytes[x]| + |buf| < MAX_FILE && w.value.count == |buf|
         && a' == Fs(a.tree, a.bytes[x := a.bytes[x] + buf])
    else a' == a && (w.Some? ==> TooMuch(a, path, buf))
  }

  ghost predicate TooMuch(a: Fs, path: Str, buf: seq<Byte>) {
    && Ends(a.tree, path).found.FoundFile? && Ends(a.tree, path).found.ino in a.bytes
    && |a.bytes[Ends(a.tree, path).found.ino]| + |buf| > MAX_FILE
  }

  /** A run of the machine. */
  ghost predicate Run(fs: seq<Fs>, calls: seq<Call>, answers: seq<Answer>) {
    |fs| == |calls| + 1 && |answers| == |calls|
      && forall k :: 0 <= k < |calls| ==> Effect(fs[k], fs[k + 1], calls[k], answers[k])
  }

  // ---------- what every run keeps ----------

  ghost predicate FsKept(a: Fs) {
    TreeOk(a.tree) && ProperNames(a.tree) && a.bytes.Keys == a.tree.files
  }

  /** A fresh partition has it. */
  lemma FreshKept(start: nat, blocks: nat)
    requires 0 < start && 0 < blocks && start + blocks <= U32_LIMIT
    ensures FsKept(FsOf(FormattedWorld(start, blocks)))
  {
    FormattedOk(start, blocks);
    FsParts(FormattedWorld(start, blocks));
    FilesAre(FormattedWorld(start, blocks));
    hide FsOk, TreeOk, Formatted;
  }

  lemma FilesAre(w: World)
    requires FsOk(w)
    ensures w.bytes.Keys == w.tree.files
  {
  }

  lemma MakesKeeps(a: Fs, a': Fs, path: Str, ftype: int, ino: nat)
    requires FsKept(a) && Makes(a, a', path, ftype, ino) && (ftype == FT_DIRECTORY || ftype == FT_REGULAR)
    ensures FsKept(a') && Ends(a'.tree, path).found == if ftype == FT_DIRECTORY then FoundDir(ino) else FoundFile(ino)
  {
    var t, p, e := a.tree, Ends(a.tree, path).parent, Entry(LastSeen(a.tree, path), ino, ftype);
    EndsWhere(t, path);
    ComponentsAreNames(path, Ends(t, path).seen - 1);
    assert !DotName(e.name);
    FreshCan(t, p, e);
    AddChild(t, p, e);
    MadeIsFound(t, path, e);
    AddedProper(t, p, e);
    AddedFiles(t, p, e);
    hide TreeOk, ProperNames, WithChild, FreePlace, Walk, Components, Lookup, FreshIno;
  }

  lemma FreshCan(t: Tree, p: nat, e: Entry)
    requires TreeOk(t) && p in t.dirs && Lookup(t, p, e.name) == Missing && e.ino > 0 && FreshIno(t, e.ino)
    ensures CanAdd(t, p, e)
  {
    if Spot(p, e.name) in t.link {
      LinkType(t, Spot(p, e.name));
    }
    hide TreeOk;
  }

  lemma AddedFiles(t: Tree, p: nat, e: Entry)
    requires p in t.depth && e.ino > 0
    ensures WithChild(t, p, e).files == if e.ftype == FT_DIRECTORY then t.files else t.files + {e.ino}
  {
  }

  lemma DropsKeeps(a: Fs, a': Fs, path: Str, x: nat)
    requires FsKept(a) && Drops(a, a', path, x) && forall s :: s in a.tree.link ==> s.dir != x
    ensures FsKept(a') && Ends(a'.tree, path).found == Missing
  {
    assert x != 0 && CanRemove(a.tree, x);
    assert Components(path) != [];
    RemoveChild(a.tree, x);
    GoneIsMissing(a.tree, path, x);
    RemovedProper(a.tree, x);
    hide TreeOk, ProperNames, Walk, Components, Lookup;
  }

  /** A regular file has no children. */
  lemma FileChildless(t: Tree, x: nat)
    requires TreeOk(t) && x in t.files
    ensures forall s :: s in t.link ==> s.dir != x
  {
    hide Deeper;
    assert forall s :: s in t.link ==> t.ref[t.link[s].ino].dir in t.dirs;
  }

  lemma FoundIsFile(t: Tree, path: Str)
    requires TreeOk(t) && Ends(t, path).found.FoundFile?
    ensures Ends(t, path).found.ino in t.files
  {
    FileReached(t, path);
    EndsWhere(t, path);
    var s := Spot(Ends(t, path).parent, LastSeen(t, path));
    assert s in t.link;
    LinkType(t, s);
    hide TreeOk, Walk, Components, FileOnTheWay;
  }

  /** Every call keeps the tree a tree of proper names, with exactly the regular files holding bytes. */
  lemma EffectKeeps(a: Fs, a': Fs, c: Call, ans: Answer)
    requires FsKept(a) && Effect(a, a', c, ans)
    ensures FsKept(a')
  {
    hide TreeOk, ProperNames, Makes, Drops, EmptyAt, ReadsAt, Opens, FreePlace, Walk, Components, Lookup;
    match c {
      case MakeFile(path) => if ans.out.Done? {
        MakesKeeps(a, a', path, FT_REGULAR, ans.out.ino);
      }
      case MakeDir(path) => if ans.out.Done? {
        MakesKeeps(a, a', path, FT_DIRECTORY, ans.out.ino);
      }
      case RemoveFile(path, open) => if ans.out.Done? {
        FoundIsFile(a.tree, path);
        FileChildless(a.tree, ans.out.ino);
        DropsKeeps(a, a', path, ans.out.ino);
      }
      case RemoveDir(path) => if ans.out.Done? {
        EmptyIs(a.tree, path);
        DropsKeeps(a, a', path, ans.out.ino);
      }
      case WriteTo(path, buf) =>
      case ReadFrom(path, offset, count) =>
    }
  }

  lemma EmptyIs(t: Tree, path: Str)
    requires EmptyAt(t, path)
    ensures Ends(t, path).found.FoundDir? && forall s :: s in t.link ==> s.dir != Ends(t, path).found.ino
  {
  }

  lemma {:induction false} RunKeeps(fs: seq<Fs>, calls: seq<Call>, answers: seq<Answer>, n: nat)
    requires Run(fs, calls, answers) && FsKept(fs[0]) && n < |fs|
    ensures FsKept(fs[n])
  {
    hide FsKept, Effect;
    if n > 0 {
      RunKeeps(fs, calls, answers, n - 1);
      assert Effect(fs[n - 1], fs[n - 1 + 1], calls[n - 1], answers[n - 1]);
      EffectKeeps(fs[n - 1], fs[n], calls[n - 1], answers[n - 1]);
    }
  }

  // ---------- what a file holds after a run ----------

  /** What one call adds to file x. */
  ghost function Adds(a: Fs, c: Call, ans: Answer, x: nat): (b: seq<Byte>) {
    if c.WriteTo? && ans.WriteRes? && ans.w.Some? && ans.w.value.Wrote? && Ends(a.tree, c.path).found == FoundFile(x)
        then c.buf else []
  }

  /** What the first n calls add to file x. */
  ghost function Added(fs: seq<Fs>, calls: seq<Call>, answers: seq<Answer>, x: nat, n: nat): (b: seq<Byte>)
    requires n <= |calls| && |fs| == |calls| + 1 && |answers| == |calls|
  {
    if n == 0 then [] else Added(fs, calls, answers, x, n - 1) + Adds(fs[n - 1], calls[n - 1], answers[n - 1], x)
  }

  predicate Removes(c: Call, ans: Answer, x: nat) {
    (c.RemoveFile? || c.RemoveDir?) && ans == Did(Done(x))
  }

  lemma FreshNoFile(a: Fs, ino: nat)
    requires FsKept(a) && FreshIno(a.tree, ino)
    ensures ino !in a.bytes
  {
    hide TreeOk, ProperNames;
  }

  lemma MakesBytes(a: Fs, a': Fs, path: Str, ftype: int, ino: nat, x: nat)
    requires FsKept(a) && Makes(a, a', path, ftype, ino) && x in a.bytes
    ensures x in a'.bytes && a'.bytes[x] == a.bytes[x]
  {
    FreshNoFile(a, ino);
    hide FsKept, FreePlace, Ends, Components, LastSeen, FreshIno, WithChild;
  }

  lemma DropsBytes(a: Fs, a': Fs, path: Str, y: nat, x: nat)
    requires Drops(a, a', path, y) && x in a.bytes && x != y
    ensures x in a'.bytes && a'.bytes[x] == a.bytes[x]
  {
    hide Ends, Components, LastSeen, WithoutChild;
  }

  lemma EffectBytes(a: Fs, a': Fs, c: Call, ans: Answer, x: nat)
    requires FsKept(a) && Effect(a, a', c, ans) && x in a.bytes && !Removes(c, ans, x)
    ensures x in a'.bytes && a'.bytes[x] == a.bytes[x] + Adds(a, c, ans, x)
  {
    hide FsKept, Makes, Drops, EmptyAt, ReadsAt, Opens, FreePlace, Ends, Components;
    match c {
      case MakeFile(path) => if ans.out.Done? {
        MakesBytes(a, a', path, FT_REGULAR, ans.out.ino, x);
      }
      case MakeDir(path) => if ans.out.Done? {
        MakesBytes(a, a', path, FT_DIRECTORY, ans.out.ino, x);
      }
      case RemoveFile(path, open) => if ans.out.Done? {
        DropsBytes(a, a', path, ans.out.ino, x);
      }
      case RemoveDir(path) => if ans.out.Done? {
        DropsBytes(a, a', path, ans.out.ino, x);
      }
      case WriteTo(path, buf) =>
      case ReadFrom(path, offset, count) =>
    }
  }

  /** In every run a file that is not removed holds what it held at first and then, in order, exactly
      what was written to it, by whatever paths, and whatever happens to everything else. */
  lemma {:induction false} FileHistory(fs: seq<Fs>, calls: seq<Call>, answers: seq<Answer>, x: nat, n: nat)
    requires Run(fs, calls, answers) && FsKept(fs[0]) && x in fs[0].bytes && n <= |calls|
    requires forall k :: 0 <= k < n ==> !Removes(calls[k], answers[k], x)
    ensures x in fs[n].bytes && fs[n].bytes[x] == fs[0].bytes[x] + Added(fs, calls, answers, x, n)
  {
    hide FsKept, Effect, Adds;
    if n > 0 {
      FileHistory(fs, calls, answers, x, n - 1);
      RunKeeps(fs, calls, answers, n - 1);
      assert Effect(fs[n - 1], fs[n - 1 + 1], calls[n - 1], answers[n - 1]);
      EffectBytes(fs[n - 1], fs[n], calls[n - 1], answers[n - 1], x);
    }
  }

  /** A read returns exactly the part asked for of what the file held at first and was given since. */
  lemma ReadBack(fs: seq<Fs>, calls: seq<Call>, answers: seq<Answer>, x: nat, n: nat)
    requires Run(fs, calls, answers) && FsKept(fs[0]) && x in fs[0].bytes && n < |calls|
    requires forall k :: 0 <= k < n ==> !Removes(calls[k], answers[k], x)
    requires calls[n].ReadFrom? && Opens(fs[n].tree, calls[n].path)
      && Ends(fs[n].tree, calls[n].path).found == FoundFile(x)
    ensures answers[n].ReadRes? && answers[n].r.Some?
    ensures ReadsAt(fs[0].bytes[x] + Added(fs, calls, answers, x, n), calls[n].offset, calls[n].count,
        answers[n].r.value)
  {
    FileHistory(fs, calls, answers, x, n);
    assert Effect(fs[n], fs[n + 1], calls[n], answers[n]);
    hide FsKept, ReadsAt, Opens, Ends, Added;
  }

  /** What was just appended is what a read at the old end of the file returns, all of it; a read from the
      start returns everything, and one behind the end starts over. */
  lemma WrittenIsRead(a: Fs, a': Fs, a'': Fs, path: Str, buf: seq<Byte>, w: WriteResult, offset: nat, count: nat,
      ans: Answer)
    requires Effect(a, a', WriteTo(path, buf), WriteRes(Some(w))) && w.Wrote?
    requires Effect(a', a'', ReadFrom(path, offset, count), ans)
    ensures Ends(a.tree, path).found.FoundFile? && Ends(a.tree, path).found.ino in a.bytes && a'' == a'
    ensures var had := a.bytes[Ends(a.tree, path).found.ino];
      && (buf != [] && offset == |had| && count == |buf| ==> ans == ReadRes(Some(Read(buf))))
      && (had + buf != [] && offset == 0 && count == |had + buf| ==> ans == ReadRes(Some(Read(had + buf))))
      && (had + buf != [] && offset >= |had + buf| && count == 1 ==> ans == ReadRes(Some(Read((had + buf)[..1]))))
  {
    hide Opens, Ends, Components, GoodPath;
    var had := a.bytes[Ends(a.tree, path).found.ino];
    hide ReadsAt;
    ReadsAll(had + buf, offset, count, ans.r.value);
    assert (had + buf)[|had|..] == buf && (had + buf)[0..] == had + buf;
  }

  /** A read of all there is from an offset inside the file returns all of it. */
  lemma ReadsAll(b: seq<Byte>, offset: nat, count: nat, r: ReadResult)
    requires ReadsAt(b, offset, count, r) && r != ReadHalted && r != Wild
    ensures offset < |b| && count == |b| - offset ==> r == Read(b[offset..])
    ensures b != [] && offset >= |b| && count == 1 ==> r == Read(b[..1])
  {
    if offset < |b| && count == |b| - offset {
      assert r.Read? && offset + |r.bytes| == |b|;
      assert b[offset .. |b|] == b[offset..];
    }
  }

  // ---------- the calls on a mounted partition ----------

  ghost function FsOf(w: World): (a: Fs) {
    Fs(w.tree, w.bytes)
  }

  lemma GoodCallIs(c: Call)
    requires GoodCall(c)
    ensures GoodPath(c.path) && (c.ReadFrom? ==> c.count < U32_LIMIT)
  {
  }

  lemma Same(w: World)
    ensures SameArea(w, w)
  {
  }

  lemma CreatesParts(w: World, w': World, p: nat, name: Str, r: Outcome)
    requires Creates(w, w', p, name, r) && !Taken(w, p, name) && r != Stopped && r != Beyond
    ensures r.Done? && FsOk(w') && SameArea(w, w') && r.ino > 0 && FreshIno(w.tree, r.ino) && p in w.tree.depth
    ensures w'.tree == WithChild(w.tree, p, Entry(name, r.ino, FT_REGULAR)) && w'.bytes == w.bytes[r.ino := []]
  {
    hide FsOk, SameArea, FreshIno, WithChild, Taken, Crowded, NoRoomForFile;
  }

  lemma MakesDirParts(w: World, w': World, p: nat, name: Str, r: Outcome)
    requires MakesDir(w, w', p, name, r) && !Taken(w, p, name) && r != Stopped && r != Beyond
    ensures r.Done? && FsOk(w') && SameArea(w, w') && r.ino > 0 && FreshIno(w.tree, r.ino) && p in w.tree.depth
    ensures w'.tree == WithChild(w.tree, p, Entry(name, r.ino, FT_DIRECTORY)) && w'.bytes == w.bytes
  {
    hide FsOk, SameArea, FreshIno, WithChild, Taken, Crowded, NoRoomForDir;
  }

  lemma MakesIs(w: World, w': World, path: Str, ftype: int, ino: nat)
    requires FreePlace(w.tree, path) && 0 < Ends(w.tree, path).seen <= |Components(path)|
      && Ends(w.tree, path).parent in w.tree.depth
    requires ino > 0 && FreshIno(w.tree, ino)
    requires w'.tree == WithChild(w.tree, Ends(w.tree, path).parent, Entry(LastSeen(w.tree, path), ino, ftype))
    requires w'.bytes == if ftype == FT_DIRECTORY then w.bytes else w.bytes[ino := []]
    ensures Makes(FsOf(w), FsOf(w'), path, ftype, ino)
  {
    hide FreePlace, FreshIno, WithChild, Ends, Components, LastSeen;
  }

  lemma MakeFileIs(w: World, w': World, path: Str, r: Outcome)
    requires r.Done? ==> path != [] && path[|path| - 1] != SLASH && Makes(FsOf(w), FsOf(w'), path, FT_REGULAR, r.ino)
    requires !r.Done? ==> w' == w && (path == [] || path[|path| - 1] == SLASH || !FreePlace(w.tree, path))
    ensures Changes(FsOf(w), FsOf(w'), MakeFile(path), Did(r))
  {
    hide Makes, FreePlace;
  }

  lemma MakeDirIs(w: World, w': World, path: Str, r: Outcome)
    requires r.Done? ==> Makes(FsOf(w), FsOf(w'), path, FT_DIRECTORY, r.ino)
    requires !r.Done? ==> w' == w && !FreePlace(w.tree, path)
    ensures Changes(FsOf(w), FsOf(w'), MakeDir(path), Did(r))
  {
    hide Makes, FreePlace;
  }

  lemma CreateEffect(w: World, w': World, path: Str, r: Outcome)
    requires FsOk(w) && PathCreates(w, w', path, r) && r != Stopped && r != Beyond
    ensures FsOk(w') && SameArea(w, w') && Changes(FsOf(w), FsOf(w'), MakeFile(path), Did(r))
  {
    Types();
    hide *;
    Same(w);
    FreePlaceIs(w, path);
    PathCreateIs(w, w', path, r);
    if path != [] && path[|path| - 1] != SLASH && FreePlace(w.tree, path) {
      CreatesParts(w, w', Ends(w.tree, path).parent, LastSeen(w.tree, path), r);
      MakesIs(w, w', path, FT_REGULAR, r.ino);
    }
    MakeFileIs(w, w', path, r);
  }

  lemma MkdirEffect(w: World, w': World, path: Str, r: Outcome)
    requires FsOk(w) && PathMakesDir(w, w', path, r) && r != Stopped && r != Beyond
    ensures FsOk(w') && SameArea(w, w') && Changes(FsOf(w), FsOf(w'), MakeDir(path), Did(r))
  {
    hide *;
    Same(w);
    FreePlaceIs(w, path);
    PathMkdirIs(w, w', path, r);
    if FreePlace(w.tree, path) {
      MakesDirParts(w, w', Ends(w.tree, path).parent, LastSeen(w.tree, path), r);
      MakesIs(w, w', path, FT_DIRECTORY, r.ino);
    }
    MakeDirIs(w, w', path, r);
  }

  lemma DropsIs(w: World, w': World, path: Str, x: nat)
    requires 0 < Ends(w.tree, path).seen <= |Components(path)| && x in w.tree.ref && !DotName(LastSeen(w.tree, path))
    requires w.tree.ref[x] == Spot(Ends(w.tree, path).parent, LastSeen(w.tree, path))
    requires w'.tree == WithoutChild(w.tree, x) && w'.bytes == w.bytes - {x}
    ensures Drops(FsOf(w), FsOf(w'), path, x)
  {
    hide WithoutChild, Ends, Components, LastSeen;
  }

  lemma RemovesParts(w: World, w': World, p: nat, name: Str, r: Outcome)
    requires RemovesDir(w, w', p, name, r) && r != Stopped && r != Beyond && name != DOT
    ensures r.Done? ==> !DotName(name) && IsEmptyDir(w, p, name) && Gone(w, w', p, name, r.ino)
    ensures !r.Done? ==> w' == w && (!DotName(name) ==> !IsEmptyDir(w, p, name))
  {
    hide Gone, DotTarget, IsEmptyDir, Dangling, Childless;
  }

  lemma RemoveFileIs(w: World, w': World, path: Str, open: set<nat>, r: Outcome)
    requires r.Done? ==>
      Ends(w.tree, path).found == FoundFile(r.ino) && r.ino !in open && Drops(FsOf(w), FsOf(w'), path, r.ino)
    requires !r.Done? ==> w' == w && (Ends(w.tree, path).found.FoundFile? ==> Ends(w.tree, path).found.ino in open)
    ensures Changes(FsOf(w), FsOf(w'), RemoveFile(path, open), Did(r))
  {
    hide Drops, Ends;
  }

  lemma UnlinkEffect(w: World, w': World, path: Str, open: set<nat>, r: Outcome)
    requires FsOk(w) && PathUnlinks(w, w', path, open, r) && r != Stopped && r != Beyond
    ensures FsOk(w') && SameArea(w, w') && Changes(FsOf(w), FsOf(w'), RemoveFile(path, open), Did(r))
  {
    hide *;
    Same(w);
    PathUnlinkIs(w, w', path, open, r);
    FoundByName(w, path);
    var p, n := Ends(w.tree, path).parent, LastSeen(w.tree, path);
    if Ends(w.tree, path).found != Missing {
      UnlinksParts(w, w', p, n, open, r);
      if r.Done? {
        GoneParts(w, w', p, n, r.ino);
        DropsIs(w, w', path, r.ino);
      }
    }
    RemoveFileIs(w, w', path, open, r);
  }

  lemma EmptyAtIs(w: World, path: Str)
    requires 0 < Ends(w.tree, path).seen <= |Components(path)|
    requires Ends(w.tree, path).found.FoundDir? && !DotName(LastSeen(w.tree, path)) ==>
      var s := Spot(Ends(w.tree, path).parent, LastSeen(w.tree, path));
      s in w.tree.link && w.tree.link[s].ino == Ends(w.tree, path).found.ino && w.tree.link[s].ftype == FT_DIRECTORY
    ensures EmptyAt(w.tree, path) <==>
      && Ends(w.tree, path).found.FoundDir? && !DotName(LastSeen(w.tree, path))
      && IsEmptyDir(w, Ends(w.tree, path).parent, LastSeen(w.tree, path))
  {
    hide Ends, Components, LastSeen;
  }

  lemma RemoveDirIs(w: World, w': World, path: Str, r: Outcome)
    requires r.Done? ==>
      && EmptyAt(w.tree, path) && Ends(w.tree, path).found.FoundDir?
      && r.ino == Ends(w.tree, path).found.ino && Drops(FsOf(w), FsOf(w'), path, r.ino)
    requires !r.Done? ==> w' == w && !EmptyAt(w.tree, path)
    ensures Changes(FsOf(w), FsOf(w'), RemoveDir(path), Did(r))
  {
    hide Drops, EmptyAt, Ends;
  }

  lemma EmptyDirIs(w: World, p: nat, name: Str)
    requires IsEmptyDir(w, p, name)
    ensures Spot(p, name) in w.tree.link && w.tree.link[Spot(p, name)].ftype == FT_DIRECTORY
  {
  }

  lemma NoDotLast(w: World, path: Str)
    requires FsOk(w) && GoodCall(RemoveDir(path)) && Components(path) != []
    ensures 0 < Ends(w.tree, path).seen <= |Components(path)|
    ensures Ends(w.tree, path).found.FoundDir? ==> LastSeen(w.tree, path) != DOT
  {
    FsParts(w);
    EndsWhere(w.tree, path);
    hide FsOk, TreeOk, Walk, Components, GoodPath, Lookup;
  }

  lemma RmdirEffect(w: World, w': World, path: Str, r: Outcome)
    requires FsOk(w) && PathRemovesDir(w, w', path, r) && r != Stopped && r != Beyond && GoodCall(RemoveDir(path))
    ensures FsOk(w') && SameArea(w, w') && Changes(FsOf(w), FsOf(w'), RemoveDir(path), Did(r))
  {
    hide *;
    Same(w);
    PathRmdirIs(w, w', path, r);
    FoundByName(w, path);
    NoDotLast(w, path);
    EmptyAtIs(w, path);
    var p, n, f := Ends(w.tree, path).parent, LastSeen(w.tree, path), Ends(w.tree, path).found;
    IsFileIs(w, p, n);
    if f != Missing {
      if f.FoundFile? {
        NotDotFile(n);
      }
      RemovesParts(w, w', p, n, r);
      if r.Done? {
        EmptyDirIs(w, p, n);
        GoneParts(w, w', p, n, r.ino);
        DropsIs(w, w', path, r.ino);
      }
    }
    RemoveDirIs(w, w', path, r);
  }

  lemma NotDotFile(n: Str)
    requires !DotName(n)
    ensures n != DOT
  {
  }

  lemma WriteEffect(w: World, w': World, path: Str, buf: seq<Byte>, r: Option<WriteResult>)
    requires FsOk(w) && !Stops(WriteRes(r))
    requires r.None? ==> !Opens(w.tree, path) && w' == w
    requires r.Some? ==> Opens(w.tree, path) && Writes(w, w', Ends(w.tree, path).found.ino, buf, r.value)
    ensures FsOk(w') && SameArea(w, w') && Changes(FsOf(w), FsOf(w'), WriteTo(path, buf), WriteRes(r))
  {
    hide FsOk, Walk, Components, Need;
  }

  lemma ReadEffect(w: World, path: Str, offset: nat, count: nat, r: Option<ReadResult>)
    requires r.None? <==> !Opens(w.tree, path)
    requires r.Some? ==>
      && Ends(w.tree, path).found.FoundFile? && Ends(w.tree, path).found.ino in w.bytes
      && ReadsAt(w.bytes[Ends(w.tree, path).found.ino], offset, count, r.value)
    ensures Changes(FsOf(w), FsOf(w), ReadFrom(path, offset, count), ReadRes(r))
  {
    hide Walk, Components, ReadsAt;
  }

  /** One call. */
  method Issue(m: Mounted, c: Call) returns (ans: Answer)
    requires FsOk(m.W()) && GoodCall(c)
    modifies m, m.part
    ensures !Stops(ans) ==> FsOk(m.W()) && SameArea(old(m.W()), m.W()) && Effect(FsOf(old(m.W())), FsOf(m.W()), c, ans)
    ensures !Stops(ans) && old(m.Synced()) ==> m.Synced()
    ensures !Stops(ans) && old(m.BlocksSynced()) ==> (m.BlocksSynced() <==> !CallLeaves(old(m.W()), c))
  {
    hide *;
    ghost var w := m.W();
    GoodCallIs(c);
    StopsIs();
    CallLeavesIs(w, c);
    match c {
      case MakeFile(path) =>
        var r := SysCreate(m, path);
        ans := Did(r);
        if r != Stopped && r != Beyond {
          CreateEffect(w, m.W(), path, r);
        }
      case MakeDir(path) =>
        var r := SysMkdir(m, path);
        ans := Did(r);
        if r != Stopped && r != Beyond {
          MkdirEffect(w, m.W(), path, r);
        }
      case RemoveFile(path, open) =>
        var r := SysUnlink(m, path, open);
        ans := Did(r);
        if r != Stopped && r != Beyond {
          UnlinkEffect(w, m.W(), path, open, r);
        }
      case RemoveDir(path) =>
        var r := SysRmdir(m, path);
        ans := Did(r);
        if r != Stopped && r != Beyond {
          RmdirEffect(w, m.W(), path, r);
        }
      case WriteTo(path, buf) =>
        var r := SysWrite(m, path, buf);
        ans := WriteRes(r);
        if r != Some(Halted) && r != Some(Overrun) {
          WriteEffect(w, m.W(), path, buf, r);
        }
      case ReadFrom(path, offset, count) =>
        var r := SysRead(m, path, offset, count);
        ans := ReadRes(r);
        ReadEffect(w, path, offset, count, r);
        Same(w);
    }
    EffectIs(FsOf(w), FsOf(m.W()), c, ans);
  }

  lemma EffectIs(a: Fs, a': Fs, c: Call, ans: Answer)
    ensures Effect(a, a', c, ans) <==> GoodCall(c) && !Stops(ans) && Changes(a, a', c, ans)
  {
  }

  /** The call is a write that leaves the bit of a new table stale on disk. */
  ghost predicate CallLeaves(w: World, c: Call) {
    c.WriteTo? && WriteLeaves(w, c.path, |c.buf|)
  }

  lemma CallLeavesIs(w: World, c: Call)
    ensures CallLeaves(w, c) <==> c.WriteTo? && WriteLeaves(w, c.path, |c.buf|)
  {
    hide WriteLeaves;
  }

  lemma StopsIs()
    ensures forall r :: Stops(Did(r)) <==> r == Stopped || r == Beyond
    ensures forall r :: Stops(WriteRes(r)) <==> r == Some(Halted) || r == Some(Overrun)
    ensures forall r :: Stops(ReadRes(r)) <==> r == Some(ReadHalted) || r == Some(Wild)
  {
  }

  /** No directory but the root, and no file. */
  ghost predicate Bare(t: Tree) {
    t.dirs == {0} && t.files == {}
  }

  /** Any list of calls, until the kernel stops: the partition is in order after every call, the data
      area keeps its size, and names and files go through a run of the machine.  What is free and what
      the inodes hold add up to the same as before; calls that lead from a bare root to a bare root leave
      the block bitmap as it was; a mount that reads the inode bitmap and the inode table finds the same
      inodes; and the block bitmap on disk is the one in memory all along if and only if no call is a write
      that leaves the bit of a new table stale. */
  method Perform(m: Mounted, calls: seq<Call>)
      returns (answers: seq<Answer>, ghost fs: seq<Fs>, ghost points: seq<Point>)
    requires FsOk(m.W()) && forall k :: 0 <= k < |calls| ==> GoodCall(calls[k])
    modifies m, m.part
    ensures |answers| <= |calls| && (|answers| < |calls| ==> answers != [] && Stops(answers[|answers| - 1]))
    ensures forall k :: 0 <= k < |answers| - 1 ==> !Stops(answers[k])
    ensures answers == [] || !Stops(answers[|answers| - 1]) ==>
      && |answers| == |calls| && FsOk(m.W()) && SameArea(old(m.W()), m.W())
      && Run(fs, calls, answers) && fs[0] == FsOf(old(m.W())) && fs[|calls|] == FsOf(m.W())
      && Conserved(old(m.W()), m.W())
      && (Bare(old(m.W()).tree) && Bare(m.W().tree) ==> m.W().v.bits == old(m.W()).v.bits)
      && (old(m.Synced()) ==> Remounts(m.W(), m.table, m.tableLba, m.dibits))
      && |points| == |calls| + 1 && (forall k :: 0 <= k <= |calls| ==> fs[k] == FsOf(points[k].w))
      && points[0].w == old(m.W()) && points[|calls|] == Point(m.W(), m.part.dbits)
      && (old(m.BlocksSynced()) ==>
          ((forall n :: 0 <= n <= |calls| ==> Agrees(points[n])) <==>
           (forall k :: 0 <= k < |calls| ==> !CallLeaves(points[k].w, calls[k]))))
  {
    hide *;
    answers, fs := [], [FsOf(m.W())];
    ghost var w := m.W();
    points := [Point(w, m.part.dbits)];
    TracedNone(points, calls);
    AgreesIs(m);
    Same(w);
    RunStart(fs, calls);
    while |answers| < |calls|
      invariant |answers| <= |calls| && FsOk(m.W()) && SameArea(w, m.W())
        && (forall k :: 0 <= k < |answers| ==> !Stops(answers[k]))
      invariant old(m.Synced()) ==> m.Synced()
      invariant Run(fs, calls[..|answers|], answers) && |fs| == |answers| + 1 && fs[0] == FsOf(w)
        && fs[|answers|] == FsOf(m.W())
      invariant |points| == |fs| && points[0] == Point(w, old(m.part.dbits))
      invariant points[|answers|] == Point(m.W(), m.part.dbits)
      invariant (forall k :: 0 <= k < |fs| ==> fs[k] == FsOf(points[k].w)) && Traced(points, calls, |answers|)
    {
      AgreesIs(m);
      ghost var w1 := m.W();
      var c := calls[|answers|];
      var ans := Issue(m, c);
      if Stops(ans) {
        answers := answers + [ans];
        return;
      }
      AreaTwice(w, w1, m.W());
      AgreesIs(m);
      TracedMore(points, calls, |answers|, Point(m.W(), m.part.dbits));
      RunMore(fs, calls, answers, FsOf(m.W()), ans);
      answers, fs := answers + [ans], fs + [FsOf(m.W())];
      points := points + [Point(m.W(), m.part.dbits)];
    }
    assert calls[..|answers|] == calls;
    RunConserves(w, m.W());
    if old(m.Synced()) {
      m.SyncedIs();
      m.Parts();
      m.part.Fields();
      SyncedRemounts(m.W(), m.table, m.tableLba, m.dibits);
    }
    if old(m.BlocksSynced()) {
      TracedExact(points, calls);
    }
    if Bare(w.tree) && Bare(m.W().tree) {
      RunGivesBack(w, m.W());
    }
  }

  /** The files and the block bitmap on disk between two calls. */
  datatype Point = Point(w: World, dbits: seq<bool>)

  ghost predicate Agrees(p: Point) {
    p.dbits == p.w.v.bits
  }

  lemma AgreesIs(m: Mounted)
    ensures Agrees(Point(m.W(), m.part.dbits)) <==> m.BlocksSynced()
  {
  }

  /** The first n calls, each from a bitmap on disk that is right. */
  ghost predicate Traced(points: seq<Point>, calls: seq<Call>, n: nat) {
    && n <= |calls| && n < |points|
    && forall k :: 0 <= k < n && Agrees(points[k]) ==> (Agrees(points[k + 1]) <==> !CallLeaves(points[k].w, calls[k]))
  }

  lemma TracedNone(points: seq<Point>, calls: seq<Call>)
    requires |points| >= 1
    ensures Traced(points, calls, 0)
  {
  }

  lemma TracedMore(points: seq<Point>, calls: seq<Call>, n: nat, p: Point)
    requires Traced(points, calls, n) && n < |calls| && |points| == n + 1
    requires Agrees(points[n]) ==> (Agrees(p) <==> !CallLeaves(points[n].w, calls[n]))
    ensures Traced(points + [p], calls, n + 1)
  {
    hide Agrees, CallLeaves;
  }

  lemma {:induction false} TracedUpTo(points: seq<Point>, calls: seq<Call>, n: nat)
    requires Traced(points, calls, |calls|) && |points| == |calls| + 1 && Agrees(points[0]) && n <= |calls|
    requires forall k :: 0 <= k < n ==> !CallLeaves(points[k].w, calls[k])
    ensures Agrees(points[n])
  {
    hide Agrees, CallLeaves;
    if n > 0 {
      TracedUpTo(points, calls, n - 1);
      var k := n - 1;
      assert Agrees(points[k]) && !CallLeaves(points[k].w, calls[k]);
      assert Agrees(points[k + 1]);
    }
  }

  lemma TracedExact(points: seq<Point>, calls: seq<Call>)
    requires Traced(points, calls, |calls|) && |points| == |calls| + 1 && Agrees(points[0])
    ensures (forall n :: 0 <= n <= |calls| ==> Agrees(points[n])) <==>
      (forall k :: 0 <= k < |calls| ==> !CallLeaves(points[k].w, calls[k]))
  {
    hide Agrees, CallLeaves;
    if forall n :: 0 <= n <= |calls| ==> Agrees(points[n]) {
      forall k | 0 <= k < |calls| ensures !CallLeaves(points[k].w, calls[k]) {
        assert Agrees(points[k]) && Agrees(points[k + 1]);
      }
    }
    if forall k :: 0 <= k < |calls| ==> !CallLeaves(points[k].w, calls[k]) {
      forall n | 0 <= n <= |calls| ensures Agrees(points[n]) {
        TracedUpTo(points, calls, n);
      }
    }
  }

  lemma AreaTwice(w: World, w1: World, w2: World)
    requires SameArea(w, w1) && SameArea(w1, w2)
    ensures SameArea(w, w2)
  {
  }

  lemma RunStart(fs: seq<Fs>, calls: seq<Call>)
    requires |fs| == 1
    ensures Run(fs, calls[..0], [])
  {
  }

  lemma RunMore(fs: seq<Fs>, calls: seq<Call>, answers: seq<Answer>, a: Fs, ans: Answer)
    requires |answers| < |calls| && Run(fs, calls[..|answers|], answers) && |fs| == |answers| + 1
    requires Effect(fs[|answers|], a, calls[|answers|], ans)
    ensures Run(fs + [a], calls[..|answers| + 1], answers + [ans])
  {
    hide Effect;
    var n := |answers|;
    var fs', calls', answers' := fs + [a], calls[..n + 1], answers + [ans];
    forall k | 0 <= k < |calls'| ensures Effect(fs'[k], fs'[k + 1], calls'[k], answers'[k]) {
      if k < n {
        assert Effect(fs[k], fs[k + 1], calls[..n][k], answers[k]);
      }
    }
  }

  // ---------- what runs on the disk come to ----------

  /** What is free and what the inodes hold add up to the same. */
  ghost predicate Conserved(w: World, w': World) {
    Free(w'.v.bits) + TotalBelow(w'.v.slots, MAX_INODES) == Free(w.v.bits) + TotalBelow(w.v.slots, MAX_INODES)
  }

  lemma RunConserves(w: World, w': World)
    requires FsOk(w) && FsOk(w') && SameArea(w, w')
    ensures Conserved(w, w')
  {
    NothingLeaks(w);
    NothingLeaks(w');
    hide FsOk, TotalBelow;
  }

  /** A run that ends with an empty root directory ends with the bitmap of a fresh partition. */
  lemma RunGivesBack(w: World, w': World)
    requires FsOk(w) && Bare(w.tree) && FsOk(w') && SameArea(w, w') && Bare(w'.tree)
    ensures w'.v.bits == w.v.bits
  {
    hide FsOk;
    forall j | 0 <= j < |w.v.bits| ensures w'.v.bits[j] == w.v.bits[j] {
      BlankAgain(w, w.v.start + j);
      BlankAgain(w', w.v.start + j);
    }
  }
}
