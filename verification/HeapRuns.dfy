/** Whole runs of sys_malloc, sys_free and stores by the holders, starting from an empty heap. */
module HeapRuns {
  import opened HeapState
  import opened HeapAlloc
  import opened HeapOps

  datatype Step = Gets(size: int, x: Piece) | Gives(x: Piece) | Stores(x: Piece)

  /** A holder writes inside its own piece only. */
  ghost predicate StoresIn(h: Heap, mem: Bytes, mem': Bytes, x: Piece) {
    && (forall q :: q in mem ==> q in mem' && |mem'[q]| == |mem[q]|)
    && forall y :: Out(h, y) && y != x ==> SameBytes(h, mem, mem', y)
  }

  /** One step, as the code does it. */
  ghost predicate Does(h: Heap, mem: Bytes, h': Heap, mem': Bytes, s: Step) {
    match s
    case Gets(size, x) => GetsPiece(h, mem, h', mem', size, x)
    case Gives(x) => Out(h, x) && mem' == mem && GivesPiece(h, h', x)
    case Stores(x) => Out(h, x) && h' == h && StoresIn(h, mem, mem', x)
  }

  /** A run that starts from an empty heap. */
  ghost predicate Usage(hs: seq<Heap>, ms: seq<Bytes>, steps: seq<Step>) {
    && |hs| == |ms| == |steps| + 1 && Ok(hs[0]) && Backed(hs[0], ms[0]) && (forall x :: !Out(hs[0], x))
    && forall k :: 0 <= k < |steps| ==> Does(hs[k], ms[k], hs[k + 1], ms[k + 1], steps[k])
  }

  /** The pieces got and not given back by the first n steps. */
  function Held(steps: seq<Step>, n: nat): (held: set<Piece>)
    requires n <= |steps|
  {
    if n == 0 then {} else
      match steps[n - 1]
      case Gets(_, x) => Held(steps, n - 1) + {x}
      case Gives(x) => Held(steps, n - 1) - {x}
      case Stores(_) => Held(steps, n - 1)
  }

  /** Every step keeps the heap in order, and changes what is handed out as it says. */
  lemma StepHeld(h: Heap, mem: Bytes, h': Heap, mem': Bytes, s: Step, x: Piece)
    requires Ok(h) && Backed(h, mem) && Does(h, mem, h', mem', s)
    ensures Ok(h') && Backed(h', mem') && SamePages(h, h')
    ensures Out(h', x) <==>
      match s
      case Gets(_, y) => Out(h, x) || x == y
      case Gives(y) => Out(h, x) && x != y
      case Stores(_) => Out(h, x)
  {
    if s.Stores? {
      assert Backed(h', mem');
    }
    hide Ok, Out, Backed, SameBytes, ReadsZero, Shape, GetsPiece, GivesPiece, From, To;
    match s
    case Gets(size, y) => GetsKeeps(h, mem, h', mem', size, y);
    case Gives(y) => GivesKeeps(h, mem, h', y);
    case Stores(_) =>
  }

  /** In every state of every run the heap's books are in order and what is handed out is what was
      asked for and not yet given back. */
  lemma {:induction false} RunHeld(hs: seq<Heap>, ms: seq<Bytes>, steps: seq<Step>, n: nat, x: Piece)
    requires Usage(hs, ms, steps) && n <= |steps|
    ensures Ok(hs[n]) && Backed(hs[n], ms[n]) && SamePages(hs[0], hs[n]) && (Out(hs[n], x) <==> x in Held(steps, n))
  {
    hide Ok, Out, Does, Backed;
    if n > 0 {
      RunHeld(hs, ms, steps, n - 1, x);
      assert Does(hs[n - 1], ms[n - 1], hs[n - 1 + 1], ms[n - 1 + 1], steps[n - 1]);
      StepHeld(hs[n - 1], ms[n - 1], hs[n], ms[n], steps[n - 1], x);
    }
  }

  /** Two pieces held at the same time never overlap, and neither covers an arena's header. */
  lemma RunDisjoint(hs: seq<Heap>, ms: seq<Bytes>, steps: seq<Step>, n: nat, x: Piece, y: Piece, p: int)
    requires Usage(hs, ms, steps) && n <= |steps| && x in Held(steps, n) && y in Held(steps, n)
    ensures x != y ==> To(hs[n], x) <= From(hs[n], y) || To(hs[n], y) <= From(hs[n], x)
    ensures p in hs[n].arenas ==> To(hs[n], x) <= PAGE * p || PAGE * p + HEADER <= From(hs[n], x)
  {
    hide Does, Ok, Out, Held, Backed;
    RunHeld(hs, ms, steps, n, x);
    RunHeld(hs, ms, steps, n, y);
    if x != y {
      PiecesDisjoint(hs[n], x, y);
    }
    if p in hs[n].arenas {
      ClearOfHeaders(hs[n], x, p);
    }
  }

  /** When everything got has been given back, exactly the pages are taken that were taken at first. */
  lemma RunLeavesNothing(hs: seq<Heap>, ms: seq<Bytes>, steps: seq<Step>, n: nat)
    requires Usage(hs, ms, steps) && n <= |steps| && Held(steps, n) == {}
    ensures hs[n].arenas == map[] && hs[n].vbits == hs[0].vbits
  {
    hide Does, Ok, Out, Backed;
    RunHeld(hs, ms, steps, n, Piece.Run(0));
    forall x ensures !Out(hs[n], x) {
      RunHeld(hs, ms, steps, n, x);
    }
    NothingLeft(hs[0]);
    NothingLeft(hs[n]);
  }

  predicate Touches(s: Step, x: Piece) {
    (s.Gives? || s.Stores?) && s.x == x
  }

  /** Piece x is handed out from address a to address b and reads as zeros. */
  ghost predicate Untouched(h: Heap, mem: Bytes, x: Piece, a: int, b: int) {
    Out(h, x) && From(h, x) == a && To(h, x) == b && ReadsZero(h, mem, x)
  }

  /** A step that is not about x leaves it where it is, with its bytes. */
  lemma StepKeeps(h: Heap, mem: Bytes, h': Heap, mem': Bytes, s: Step, x: Piece, a: int, b: int)
    requires Ok(h) && Backed(h, mem) && Does(h, mem, h', mem', s) && !Touches(s, x) && Untouched(h, mem, x, a, b)
    ensures Untouched(h', mem', x, a, b)
  {
    hide Ok, Out, Does, SameBytes, ReadsZero, Shape, From, To, Backed;
    StepHeld(h, mem, h', mem', s, x);
    StepShape(h, mem, h', mem', s, x);
    ShapeIs(h, h', x);
    StillZero(h, h', mem, mem', x);
  }

  lemma GotUntouched(h: Heap, mem: Bytes, h': Heap, mem': Bytes, s: Step)
    requires Ok(h) && Backed(h, mem) && Does(h, mem, h', mem', s) && s.Gets?
    ensures To(h', s.x) - From(h', s.x) >= s.size && Untouched(h', mem', s.x, From(h', s.x), To(h', s.x))
  {
    hide Ok, Out, From, To, ReadsZero, SameBytes, Shape, GetsPiece, Backed;
    GetsKeeps(h, mem, h', mem', s.size, s.x);
  }

  lemma StepShape(h: Heap, mem: Bytes, h': Heap, mem': Bytes, s: Step, x: Piece)
    requires Ok(h) && Backed(h, mem) && Does(h, mem, h', mem', s) && Out(h, x) && !Touches(s, x) && ReadsZero(h, mem, x)
    ensures Shape(h, h', x) && SameBytes(h, mem, mem', x)
  {
    assert Out(h', x) by {
      StepHeld(h, mem, h', mem', s, x);
    }
    SameIs(h, mem, x);
    ShapeSelf(h, x);
    hide Ok, Out, SameBytes, ReadsZero, Shape, GetsPiece, GivesPiece, Backed, From, To;
    match s
    case Gets(size, y) => GetsKeeps(h, mem, h', mem', size, y);
    case Gives(y) => GivesKeeps(h, mem, h', y);
    case Stores(_) =>
  }

  lemma SameIs(h: Heap, mem: Bytes, x: Piece)
    requires ReadsZero(h, mem, x)
    ensures SameBytes(h, mem, mem, x)
  {
  }

  lemma ShapeSelf(h: Heap, x: Piece)
    requires Ok(h) && Out(h, x)
    ensures Shape(h, h, x)
  {
  }

  lemma StillZero(h: Heap, h': Heap, mem: Bytes, mem': Bytes, x: Piece)
    requires Shape(h, h', x) && SameBytes(h, mem, mem', x) && ReadsZero(h, mem, x)
    ensures ReadsZero(h', mem', x)
  {
    if x.Block? {
      var p, n := x.b.p, BlockSize(h.arenas[x.b.p].d);
      var o := HEADER + x.b.k * n;
      forall i | o <= i < o + n ensures mem'[p][i] == 0 {
        assert mem'[p][i] == mem'[p][o .. o + n][i - o] == mem[p][o .. o + n][i - o];
      }
    }
  }

  /** What sys_malloc hands out is large enough and reads as zeros until its holder writes to it or
      gives it back, whatever else is got, given back and written meanwhile; and it does not move. */
  lemma {:induction false} RunZero(hs: seq<Heap>, ms: seq<Bytes>, steps: seq<Step>, k: nat, n: nat)
    requires Usage(hs, ms, steps) && k < n <= |steps| && steps[k].Gets?
    requires forall i :: k < i < n ==> !Touches(steps[i], steps[k].x)
    ensures To(hs[k + 1], steps[k].x) - From(hs[k + 1], steps[k].x) >= steps[k].size
    ensures Untouched(hs[n], ms[n], steps[k].x, From(hs[k + 1], steps[k].x), To(hs[k + 1], steps[k].x))
    decreases n
  {
    hide Does, Ok, Out, From, To, Touches, Untouched, Backed;
    assert Does(hs[n - 1], ms[n - 1], hs[n - 1 + 1], ms[n - 1 + 1], steps[n - 1]);
    if n == k + 1 {
      RunHeld(hs, ms, steps, k, steps[k].x);
      GotUntouched(hs[k], ms[k], hs[n], ms[n], steps[k]);
    } else {
      var x := steps[k].x;
      RunZero(hs, ms, steps, k, n - 1);
      RunHeld(hs, ms, steps, n - 1, x);
      StepKeeps(hs[n - 1], ms[n - 1], hs[n], ms[n], steps[n - 1], x, From(hs[k + 1], x), To(hs[k + 1], x));
    }
  }
}
