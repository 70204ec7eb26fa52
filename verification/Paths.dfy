/** Path strings: path_parse (fs.c) and wash_path (buildin_cmd.c). */
module Paths {
  import opened Words
  import opened DirData

  const SLASH: Byte := 47

  datatype Maybe = End | More(path: Str)

  // ---------- the components of a path ----------

  function SkipSlashes(s: Str): (t: Str)
    ensures |t| <= |s| && (|t| > 0 ==> t[0] != SLASH)
  {
    if |s| > 0 && s[0] == SLASH then SkipSlashes(s[1..]) else s
  }

  function FirstName(s: Str): (n: Str)
    ensures |n| <= |s| && (|s| > 0 && s[0] != SLASH ==> |n| > 0)
  {
    if |s| == 0 || s[0] == SLASH then [] else [s[0]] + FirstName(s[1..])
  }

  lemma {:induction false} NameHasNoSlash(s: Str)
    ensures SLASH !in FirstName(s)
  {
    if |s| > 0 && s[0] != SLASH {
      NameHasNoSlash(s[1..]);
    }
  }

  /** The names between the slashes. */
  function Components(s: Str): (c: seq<Str>)
    decreases |s|
  {
    var t := SkipSlashes(s);
    if t == [] then [] else [FirstName(t)] + Components(t[|FirstName(t)|..])
  }

  lemma SkipIs(s: Str, i: nat)
    requires i <= |s| && (forall j :: 0 <= j < i ==> s[j] == SLASH) && (i < |s| ==> s[i] != SLASH)
    ensures SkipSlashes(s) == s[i..]
  {
    if i > 0 {
      SkipIs(s[1..], i - 1);
      assert s[1..][i - 1..] == s[i..];
    }
  }

  lemma NameIs(s: Str, n: nat)
    requires n <= |s| && SLASH !in s[..n] && (n < |s| ==> s[n] == SLASH)
    ensures FirstName(s) == s[..n]
  {
    if n > 0 {
      assert s[0] in s[..n] && s[0] != SLASH;
      assert s[1..][..n - 1] == s[..n][1..];
      assert [s[0]] + s[..n][1..] == s[..n];
      NameIs(s[1..], n - 1);
    }
  }

  /** Slashes, then a name, then the rest. */
  lemma ComponentsStep(slashes: Str, name: Str, rest: Str)
    requires (forall j :: 0 <= j < |slashes| ==> slashes[j] == SLASH) && SLASH !in name
    requires (rest == [] || rest[0] == SLASH) && (name == [] ==> rest == [])
    ensures Components(slashes + name + rest) == if name == [] then [] else [name] + Components(rest)
  {
    var s := slashes + name + rest;
    var t := name + rest;
    assert s[|slashes|..] == t;
    SkipIs(s, |slashes|);
    assert t[..|name|] == name && t[|name|..] == rest;
    NameIs(t, |name|);
    hide *;
    Unfolded(s);
  }

  lemma Unfolded(s: Str)
    ensures var t := SkipSlashes(s);
      Components(s) == if t == [] then [] else [FirstName(t)] + Components(t[|FirstName(t)|..])
  {
  }

  lemma ThreeParts(s: Str, a: nat, b: nat)
    requires a <= b <= |s| && NoZero(s)
    ensures NoZero(s[a..b]) && NoZero(s[b..]) && s[..a] + s[a..b] + s[b..] == s
  {
  }

  /** path_parse: the first name goes to the buffer, what follows it is returned. */
  method PathParse(s: Str) returns (name: Str, rest: Maybe)
    requires NoZero(s)
    ensures Components(s) == if name == [] then [] else [name] + (if rest.More? then Components(rest.path) else [])
    ensures SLASH !in name && (name == [] ==> rest == End) && NoZero(name)
    ensures rest.More? ==> |rest.path| < |s| && NoZero(rest.path)
  {
    var i := 0;
    while i < |s| && s[i] == SLASH
      invariant i <= |s| && forall j :: 0 <= j < i ==> s[j] == SLASH
    {
      i := i + 1;
    }
    var from := i;
    name := [];
    while i < |s| && s[i] != SLASH
      invariant from <= i <= |s| && name == s[from..i] && SLASH !in name
    {
      name := name + [s[i]];
      i := i + 1;
    }
    rest := if i == |s| then End else More(s[i..]);
    hide NoZero;
    ThreeParts(s, from, i);
    ComponentsStep(s[..from], name, s[i..]);
    assert Components([]) == [];
    hide Components;
  }

  // ---------- washing a path ----------

  /** What one name does to the stack of names: ".." drops one and stops at the root, "." does nothing. */
  function Push(st: seq<Str>, c: Str): (st': seq<Str>) {
    if c == DOTDOT then (if st == [] then [] else st[..|st| - 1])
    else if c == DOT then st
    else st + [c]
  }

  function Fold(st: seq<Str>, cs: seq<Str>): (st': seq<Str>)
    decreases |cs|
  {
    if cs == [] then st else Fold(Push(st, cs[0]), cs[1..])
  }

  function Slashed(st: seq<Str>): (s: Str) {
    if st == [] then [] else Slashed(st[..|st| - 1]) + [SLASH] + st[|st| - 1]
  }

  /** The absolute path of a stack of names. */
  function Render(st: seq<Str>): (s: Str) {
    if st == [] then [SLASH] else Slashed(st)
  }

  function Washed(path: Str): (s: Str) {
    Render(Fold([], Components(path)))
  }

  /** Proper names: not empty, no slash, not a dot name. */
  ghost predicate Proper(st: seq<Str>) {
    forall k :: 0 <= k < |st| ==> st[k] != [] && SLASH !in st[k] && st[k] != DOT && st[k] != DOTDOT
  }

  /** strrchr: the position of the last slash. */
  method LastSlash(s: Str) returns (i: int)
    ensures -1 <= i < |s| && (i >= 0 ==> s[i] == SLASH) && SLASH !in s[i + 1..]
    ensures i == -1 <==> SLASH !in s
  {
    i := |s| - 1;
    while i >= 0 && s[i] != SLASH
      invariant -1 <= i < |s| && SLASH !in s[i + 1..]
    {
      i := i - 1;
    }
    assert i == -1 ==> s[i + 1..] == s;
  }

  /** Where the last name starts. */
  lemma LastName(st: seq<Str>, i: int)
    requires st != [] && SLASH !in st[|st| - 1]
    requires -1 <= i < |Slashed(st)| && (i >= 0 ==> Slashed(st)[i] == SLASH) && SLASH !in Slashed(st)[i + 1..]
    ensures i == |Slashed(st[..|st| - 1])| && Slashed(st)[i..] == [SLASH] + st[|st| - 1]
    ensures Slashed(st)[..i] == Slashed(st[..|st| - 1])
  {
    LastIs(Slashed(st[..|st| - 1]), st[|st| - 1], i);
  }

  lemma LastIs(front: Str, last: Str, i: int)
    requires SLASH !in last
    requires var s := front + [SLASH] + last; -1 <= i < |s| && (i >= 0 ==> s[i] == SLASH) && SLASH !in s[i + 1..]
    ensures var s := front + [SLASH] + last; i == |front| && s[i..] == [SLASH] + last && s[..i] == front
  {
    var s := front + [SLASH] + last;
    assert s[|front|] == SLASH;
    assert forall j :: i < j < |s| ==> s[j] in s[i + 1..];
  }

  lemma SlashedEmpty(st: seq<Str>)
    ensures Slashed(st) == [] <==> st == []
  {
  }

  /** Cutting the string at the last slash drops the last name. */
  lemma CutName(st: seq<Str>, i: int)
    requires Proper(st) && 0 <= i < |Render(st)| && Render(st)[i] == SLASH && SLASH !in Render(st)[i + 1..]
    ensures Render(Push(st, DOTDOT)) == if i == 0 then [SLASH] else Render(st)[..i]
  {
    if st != [] {
      LastName(st, i);
      SlashedEmpty(st[..|st| - 1]);
    }
  }

  lemma AddName(st: seq<Str>, name: Str)
    requires Proper(st) && name != DOT && name != DOTDOT
    ensures Render(Push(st, name)) == (if Render(st) == [SLASH] then Render(st) else Render(st) + [SLASH]) + name
  {
    RenderIsRoot(st);
    var st1 := st + [name];
    assert st1[..|st1| - 1] == st && st1[|st1| - 1] == name;
    assert Slashed(st1) == Slashed(st) + [SLASH] + name;
    assert Slashed([]) + [SLASH] + name == [SLASH] + name;
  }

  lemma StartsSlash(st: seq<Str>)
    ensures |Render(st)| > 0 && Render(st)[0] == SLASH && Render(st)[..1] == [SLASH]
  {
    if st != [] {
      SlashedFront(st);
    }
  }

  /** One pass of wash_path's loop over the output string. */
  method WashStep(out: Str, name: Str, ghost st: seq<Str>) returns (out': Str)
    requires out == Render(st) && Proper(st)
    ensures out' == Render(Push(st, name))
  {
    StartsSlash(st);
    if name == DOTDOT {
      var i := LastSlash(out);
      CutName(st, i);
      hide *;
      out' := if i != 0 then out[..i] else out[..1];
    } else if name != DOT {
      AddName(st, name);
      hide *;
      out' := if out != [SLASH] then out + [SLASH] else out;
      out' := out' + name;
    } else {
      out' := out;
    }
  }

  lemma RenderIsRoot(st: seq<Str>)
    requires Proper(st)
    ensures Render(st) == [SLASH] <==> st == []
  {
    if st != [] {
      assert st[|st| - 1] != [];
      assert |Render(st)| >= 2;
    }
  }

  lemma PushProper(st: seq<Str>, c: Str)
    requires Proper(st) && c != [] && SLASH !in c
    ensures Proper(Push(st, c))
  {
  }

  /** wash_path: the output is the path of the stack the components fold to. */
  method WashPath(path: Str) returns (out: Str)
    requires |path| > 0 && path[0] == SLASH && NoZero(path)
    ensures out == Washed(path)
  {
    var name, rest := PathParse(path);
    if name == [] {
      return [SLASH];
    }
    out := [SLASH];
    ghost var st: seq<Str> := [];
    ghost var left := Components(path);
    while name != []
      invariant Proper(st) && out == Render(st) && Fold(st, left) == Fold([], Components(path)) && SLASH !in name
      invariant left == if name == [] then [] else [name] + (if rest.More? then Components(rest.path) else [])
      invariant (name == [] ==> rest == End) && (rest.More? ==> NoZero(rest.path))
      decreases if rest.More? then |rest.path| + 1 else 0, |name|
    {
      out := WashStep(out, name, st);
      PushProper(st, name);
      st := Push(st, name);
      left := left[1..];
      if rest.More? {
        name, rest := PathParse(rest.path);
      } else {
        name := [];
      }
    }
  }

  // ---------- what washing comes to ----------

  lemma {:induction false} ComponentsAreNames(s: Str, k: nat)
    requires k < |Components(s)|
    ensures Components(s)[k] != [] && SLASH !in Components(s)[k]
    decreases |s|
  {
    var t := SkipSlashes(s);
    NameHasNoSlash(t);
    if k > 0 {
      ComponentsAreNames(t[|FirstName(t)|..], k - 1);
    }
  }

  lemma {:induction false} FoldProper(st: seq<Str>, cs: seq<Str>)
    requires Proper(st) && forall k :: 0 <= k < |cs| ==> cs[k] != [] && SLASH !in cs[k]
    ensures Proper(Fold(st, cs))
    decreases |cs|
  {
    if cs != [] {
      PushProper(st, cs[0]);
      FoldProper(Push(st, cs[0]), cs[1..]);
    }
  }

  lemma {:induction false} FoldOfProper(st: seq<Str>, cs: seq<Str>)
    requires Proper(cs)
    ensures Fold(st, cs) == st + cs
    decreases |cs|
  {
    if cs != [] {
      FoldOfProper(st + [cs[0]], cs[1..]);
      assert st + [cs[0]] + cs[1..] == st + cs;
    } else {
      assert st + cs == st;
    }
  }

  lemma {:induction false} SlashedFront(st: seq<Str>)
    requires st != []
    ensures Slashed(st) == [SLASH] + st[0] + Slashed(st[1..])
  {
    var n := |st| - 1;
    if n == 0 {
      assert st[..0] == [] && st[1..] == [];
      assert [SLASH] + st[0] + [] == [] + [SLASH] + st[0];
    } else {
      SlashedFront(st[..n]);
      assert st[..n][1..] == st[1..][..n - 1];
      var a, b, c := [SLASH] + st[0], Slashed(st[..n][1..]), [SLASH] + st[n];
      assert a + b + c == a + (b + c);
      assert b + c == b + [SLASH] + st[n];
      assert Slashed(st[1..]) == b + [SLASH] + st[n];
      assert Slashed(st) == a + b + [SLASH] + st[n] == a + b + c;
    }
  }

  /** Rendering a stack of proper names and parsing it gives the stack back. */
  lemma {:induction false} ComponentsOfSlashed(st: seq<Str>)
    requires Proper(st)
    ensures Components(Slashed(st)) == st
  {
    if st != [] {
      SlashedFront(st);
      if |st| > 1 {
        SlashedFront(st[1..]);
      }
      ComponentsStep([SLASH], st[0], Slashed(st[1..]));
      ComponentsOfSlashed(st[1..]);
    }
  }

  lemma ComponentsOfRender(st: seq<Str>)
    requires Proper(st)
    ensures Components(Render(st)) == st
  {
    ComponentsOfSlashed(st);
    if st == [] {
      SkipIs([SLASH], 1);
    }
  }

  /** The washed path has no ".", "..", or empty component and is washed already. */
  lemma WashedIsClean(path: Str)
    ensures Proper(Components(Washed(path))) && Washed(Washed(path)) == Washed(path)
    ensures Components(Washed(path)) == Fold([], Components(path))
  {
    forall k | 0 <= k < |Components(path)| ensures Components(path)[k] != [] && SLASH !in Components(path)[k] {
      ComponentsAreNames(path, k);
    }
    var st := Fold([], Components(path));
    FoldProper([], Components(path));
    ComponentsOfRender(st);
    FoldOfProper([], st);
    assert [] + st == st;
  }

  /** It starts with a slash, and ends with one only if it is "/". */
  lemma WashedEnds(path: Str)
    ensures var s := Washed(path); |s| > 0 && s[0] == SLASH && (s[|s| - 1] == SLASH ==> s == [SLASH])
  {
    WashedIsClean(path);
    var st := Fold([], Components(path));
    FoldIsProper(path);
    StartsSlash(st);
    if st != [] {
      EndsInName(st);
    }
    hide *;
  }

  lemma FoldIsProper(path: Str)
    ensures Proper(Fold([], Components(path)))
  {
    WashedIsClean(path);
  }

  lemma EndsInName(st: seq<Str>)
    requires st != [] && Proper(st)
    ensures |Render(st)| > 0 && Render(st)[|Render(st)| - 1] != SLASH
  {
    var last := st[|st| - 1];
    assert last[|last| - 1] in last;
    var front := Slashed(st[..|st| - 1]);
    assert Render(st) == front + [SLASH] + last;
  }
}
