/** The intrusive doubly linked list with two sentinels (lib/kernel/list.c).  The links of all
    elements lie in one memory, which many lists share. */
module List {

  /** The elements from sentinel to sentinel. */
  function Whole(head: int, q: seq<int>, tail: int): (w: seq<int>) {
    [head] + q + [tail]
  }

  ghost predicate NoDup(q: seq<int>) {
    forall i, j :: 0 <= i < j < |q| ==> q[i] != q[j]
  }

  /** From x the next element is y, and y leads back. */
  predicate Linked(next: map<int, int>, prev: map<int, int>, x: int, y: int) {
    x in next && next[x] == y && y in prev && prev[y] == x
  }

  /** The list between head and tail holds exactly the elements of q, in order. */
  ghost predicate IsList(next: map<int, int>, prev: map<int, int>, head: int, q: seq<int>, tail: int) {
    var w := Whole(head, q, tail);
    NoDup(w) && forall k :: 0 <= k < |w| - 1 ==> Linked(next, prev, w[k], w[k + 1])
  }

  /** Only the last element is the tail. */
  lemma TailLast(head: int, q: seq<int>, tail: int)
    requires NoDup(Whole(head, q, tail))
    ensures var w := Whole(head, q, tail); w[|w| - 1] == tail && forall j :: 0 <= j < |w| - 1 ==> w[j] != tail
  {
  }

  /** A list is what its links say: two lists from the same sentinels are equal. */
  lemma {:induction false} SameList(next: map<int, int>, prev: map<int, int>, head: int, q: seq<int>, q': seq<int>,
      tail: int, n: nat)
    requires IsList(next, prev, head, q, tail) && IsList(next, prev, head, q', tail) && n < |Whole(head, q, tail)|
    ensures n < |Whole(head, q', tail)| && Whole(head, q, tail)[n] == Whole(head, q', tail)[n]
  {
    var w, w' := Whole(head, q, tail), Whole(head, q', tail);
    if n > 0 {
      SameList(next, prev, head, q, q', tail, n - 1);
      assert Linked(next, prev, w[n - 1], w[n - 1 + 1]);
      TailLast(head, q, tail);
      assert w'[|w'| - 1] == tail;
      assert Linked(next, prev, w'[n - 1], w'[n - 1 + 1]);
    }
  }

  // ---------- inserting ----------

  /** Elements q with e before position i. */
  function Inserted(q: seq<int>, i: nat, e: int): (r: seq<int>)
    requires i <= |q|
  {
    q[..i] + [e] + q[i..]
  }

  /** The four assignments of list_insert_before. */
  function InsertNext(next: map<int, int>, prev: map<int, int>, before: int, e: int): (n: map<int, int>)
    requires before in prev
  {
    next[prev[before] := e][e := before]
  }

  function InsertPrev(prev: map<int, int>, before: int, e: int): (p: map<int, int>)
    requires before in prev
  {
    prev[e := prev[before]][before := e]
  }

  lemma InsertWhole(head: int, q: seq<int>, tail: int, i: nat, e: int)
    requires i <= |q|
    ensures var w := Whole(head, q, tail);
      Whole(head, Inserted(q, i, e), tail) == w[..i + 1] + [e] + w[i + 1..]
  {
  }

  lemma InsertOk(next: map<int, int>, prev: map<int, int>, head: int, q: seq<int>, tail: int, i: nat, e: int)
    requires IsList(next, prev, head, q, tail) && i <= |q| && e !in Whole(head, q, tail)
    ensures var before := Whole(head, q, tail)[i + 1];
      before in prev && IsList(InsertNext(next, prev, before, e), InsertPrev(prev, before, e), head,
        Inserted(q, i, e), tail)
  {
    var w := Whole(head, q, tail);
    var before := w[i + 1];
    assert Linked(next, prev, w[i], w[i + 1]);
    InsertWhole(head, q, tail, i, e);
    var w' := w[..i + 1] + [e] + w[i + 1..];
    var next', prev' := InsertNext(next, prev, before, e), InsertPrev(prev, before, e);
    forall k | 0 <= k < |w'| - 1 ensures Linked(next', prev', w'[k], w'[k + 1]) {
      if k < i {
        assert Linked(next, prev, w[k], w[k + 1]);
      } else if k > i + 1 {
        assert Linked(next, prev, w[k - 1], w[k - 1 + 1]);
      }
    }
  }

  // ---------- removing ----------

  function Without(q: seq<int>, i: nat): (r: seq<int>)
    requires i < |q|
  {
    q[..i] + q[i + 1..]
  }

  lemma RemoveWhole(head: int, q: seq<int>, tail: int, i: nat)
    requires i < |q|
    ensures var w := Whole(head, q, tail);
      Whole(head, Without(q, i), tail) == w[..i + 1] + w[i + 2..] && w[i + 1] == q[i]
  {
  }

  lemma RemoveOk(next: map<int, int>, prev: map<int, int>, head: int, q: seq<int>, tail: int, i: nat)
    requires IsList(next, prev, head, q, tail) && i < |q|
    ensures q[i] in prev && q[i] in next
    ensures IsList(next[prev[q[i]] := next[q[i]]], prev[next[q[i]] := prev[q[i]]], head, Without(q, i), tail)
  {
    var w := Whole(head, q, tail);
    RemoveWhole(head, q, tail, i);
    assert Linked(next, prev, w[i], w[i + 1]) && Linked(next, prev, w[i + 1], w[i + 1 + 1]);
    var w' := w[..i + 1] + w[i + 2..];
    var next', prev' := next[w[i] := w[i + 2]], prev[w[i + 2] := w[i]];
    forall k | 0 <= k < |w'| - 1 ensures Linked(next', prev', w'[k], w'[k + 1]) {
      if k < i {
        assert Linked(next, prev, w[k], w[k + 1]);
      } else if k > i {
        assert Linked(next, prev, w[k + 1], w[k + 1 + 1]);
      }
    }
  }

  lemma NotSelf(next: map<int, int>, prev: map<int, int>, head: int, q: seq<int>, tail: int, i: nat)
    requires IsList(next, prev, head, q, tail) && i < |q|
    ensures q[i] in prev && prev[q[i]] != q[i]
  {
    var w := Whole(head, q, tail);
    assert Linked(next, prev, w[i], w[i + 1]);
  }

  /** A list none of whose elements is touched stays as it is. */
  lemma OtherList(next: map<int, int>, prev: map<int, int>, next': map<int, int>, prev': map<int, int>, head: int,
      q: seq<int>, tail: int)
    requires IsList(next, prev, head, q, tail)
    requires forall x :: x in Whole(head, q, tail) ==>
      (x in next ==> x in next' && next'[x] == next[x]) && (x in prev ==> x in prev' && prev'[x] == prev[x])
    ensures IsList(next', prev', head, q, tail)
  {
    var w := Whole(head, q, tail);
    forall k | 0 <= k < |w| - 1 ensures Linked(next', prev', w[k], w[k + 1]) {
      assert Linked(next, prev, w[k], w[k + 1]);
      assert w[k] in w && w[k + 1] in w;
    }
  }

  /** No link of an element outside w was written. */
  ghost predicate OnlyLinks(next: map<int, int>, prev: map<int, int>, next': map<int, int>, prev': map<int, int>,
      w: seq<int>) {
    forall x :: x !in w ==>
      (x in next ==> x in next' && next'[x] == next[x]) && (x in prev ==> x in prev' && prev'[x] == prev[x])
  }

  /** So every list that shares no element with w stays as it is. */
  lemma OtherListStays(next: map<int, int>, prev: map<int, int>, next': map<int, int>, prev': map<int, int>,
      w: seq<int>, head: int, q: seq<int>, tail: int)
    requires OnlyLinks(next, prev, next', prev', w) && IsList(next, prev, head, q, tail)
    requires forall x :: x in Whole(head, q, tail) ==> x !in w
    ensures IsList(next', prev', head, q, tail)
  {
    hide IsList;
    OtherList(next, prev, next', prev', head, q, tail);
  }

  lemma InsertLinks(next: map<int, int>, prev: map<int, int>, head: int, q: seq<int>, tail: int, i: nat, e: int)
    requires IsList(next, prev, head, q, tail) && i <= |q|
    ensures var before := Whole(head, q, tail)[i + 1];
      before in prev && OnlyLinks(next, prev, InsertNext(next, prev, before, e), InsertPrev(prev, before, e),
        Whole(head, Inserted(q, i, e), tail))
  {
    var w := Whole(head, q, tail);
    var before := w[i + 1];
    assert Linked(next, prev, w[i], w[i + 1]);
    InsertWhole(head, q, tail, i, e);
    var w' := w[..i + 1] + [e] + w[i + 1..];
    assert w'[i] == prev[before] && w'[i + 1] == e && w'[i + 2] == before;
    assert Whole(head, Inserted(q, i, e), tail) == w';
    hide IsList, Whole, Inserted;
    forall x | x !in w' ensures x != prev[before] && x != e && x != before {
    }
  }

  lemma RemoveLinks(next: map<int, int>, prev: map<int, int>, head: int, q: seq<int>, tail: int, i: nat)
    requires IsList(next, prev, head, q, tail) && i < |q|
    ensures q[i] in prev && q[i] in next
    ensures OnlyLinks(next, prev, next[prev[q[i]] := next[q[i]]], prev[next[q[i]] := prev[q[i]]], Whole(head, q, tail))
  {
    var w := Whole(head, q, tail);
    assert Linked(next, prev, w[i], w[i + 1]) && Linked(next, prev, w[i + 1], w[i + 1 + 1]) && w[i + 1] == q[i];
    assert prev[q[i]] == w[i] && next[q[i]] == w[i + 2];
    hide IsList, Whole;
    forall x | x !in w ensures x != prev[q[i]] && x != next[q[i]] {
    }
  }

  class Memory {
    var next: map<int, int>
    var prev: map<int, int>

    /** list_init */
    method Init(head: int, tail: int)
      requires head != tail
      modifies this
      ensures IsList(next, prev, head, [], tail)
      ensures next == old(next)[head := tail] && prev == old(prev)[tail := head]
    {
      next := next[head := tail];
      prev := prev[tail := head];
      assert Whole(head, [], tail) == [head, tail];
    }

    /** list_insert_before: e comes before the element at place i, or before the tail. */
    method InsertBefore(before: int, e: int, ghost head: int, ghost q: seq<int>, ghost tail: int, ghost i: nat)
      requires IsList(next, prev, head, q, tail) && i <= |q| && e !in Whole(head, q, tail)
        && before == Whole(head, q, tail)[i + 1]
      modifies this
      ensures IsList(next, prev, head, Inserted(q, i, e), tail)
      ensures before in old(prev) && next == InsertNext(old(next), old(prev), before, e)
        && prev == InsertPrev(old(prev), before, e)
      ensures OnlyLinks(old(next), old(prev), next, prev, Whole(head, Inserted(q, i, e), tail))
    {
      InsertOk(next, prev, head, q, tail, i, e);
      InsertLinks(next, prev, head, q, tail, i, e);
      hide IsList;
      next := next[prev[before] := e];
      prev := prev[e := prev[before]];
      next := next[e := before];
      prev := prev[before := e];
    }

    /** list_push */
    method Push(head: int, e: int, ghost q: seq<int>, ghost tail: int)
      requires IsList(next, prev, head, q, tail) && e !in Whole(head, q, tail)
      modifies this
      ensures IsList(next, prev, head, [e] + q, tail)
        && OnlyLinks(old(next), old(prev), next, prev, Whole(head, [e] + q, tail))
    {
      assert Linked(next, prev, Whole(head, q, tail)[0], Whole(head, q, tail)[0 + 1]);
      assert Inserted(q, 0, e) == [e] + q;
      InsertBefore(next[head], e, head, q, tail, 0);
    }

    /** list_append */
    method Append(tail: int, e: int, ghost head: int, ghost q: seq<int>)
      requires IsList(next, prev, head, q, tail) && e !in Whole(head, q, tail)
      modifies this
      ensures IsList(next, prev, head, q + [e], tail)
        && OnlyLinks(old(next), old(prev), next, prev, Whole(head, q + [e], tail))
    {
      assert Inserted(q, |q|, e) == q + [e];
      InsertBefore(tail, e, head, q, tail, |q|);
    }

    /** list_remove */
    method Remove(e: int, ghost head: int, ghost q: seq<int>, ghost tail: int, ghost i: nat)
      requires IsList(next, prev, head, q, tail) && i < |q| && e == q[i]
      modifies this
      ensures IsList(next, prev, head, Without(q, i), tail)
        && OnlyLinks(old(next), old(prev), next, prev, Whole(head, q, tail))
    {
      RemoveOk(next, prev, head, q, tail, i);
      RemoveLinks(next, prev, head, q, tail, i);
      NotSelf(next, prev, head, q, tail, i);
      hide IsList;
      next := next[prev[e] := next[e]];
      prev := prev[next[e] := prev[e]];
    }

    /** list_pop of a list that is not empty. */
    method Pop(head: int, ghost q: seq<int>, ghost tail: int) returns (e: int)
      requires IsList(next, prev, head, q, tail) && q != []
      modifies this
      ensures e == q[0] && IsList(next, prev, head, q[1..], tail)
        && OnlyLinks(old(next), old(prev), next, prev, Whole(head, q, tail))
    {
      assert Linked(next, prev, Whole(head, q, tail)[0], Whole(head, q, tail)[0 + 1]);
      assert Without(q, 0) == q[1..];
      e := next[head];
      Remove(e, head, q, tail, 0);
    }

    /** elem_find */
    method Find(head: int, tail: int, e: int, ghost q: seq<int>) returns (found: bool)
      requires IsList(next, prev, head, q, tail) && e != tail
      ensures found <==> e in q
    {
      ghost var w := Whole(head, q, tail);
      assert Linked(next, prev, w[0], w[0 + 1]);
      var x := next[head];
      ghost var k := 0;
      while x != tail
        invariant 0 <= k <= |q| && x == w[k + 1] && e !in q[..k]
        decreases |q| - k
      {
        assert x == q[k] && w[|w| - 1] == tail;
        if x == e {
          return true;
        }
        assert Linked(next, prev, w[k + 1], w[k + 1 + 1]);
        assert q[..k + 1] == q[..k] + [q[k]];
        x := next[x];
        k := k + 1;
      }
      TailLast(head, q, tail);
      assert q[..k] == q;
      found := false;
    }

    /** list_empty */
    method Empty(head: int, tail: int, ghost q: seq<int>) returns (empty: bool)
      requires IsList(next, prev, head, q, tail)
      ensures empty <==> q == []
    {
      ghost var w := Whole(head, q, tail);
      assert Linked(next, prev, w[0], w[0 + 1]);
      TailLast(head, q, tail);
      empty := next[head] == tail;
    }

    /** list_len */
    method Length(head: int, tail: int, ghost q: seq<int>) returns (n: nat)
      requires IsList(next, prev, head, q, tail)
      ensures n == |q|
    {
      ghost var w := Whole(head, q, tail);
      assert Linked(next, prev, w[0], w[0 + 1]);
      var x := next[head];
      n := 0;
      while x != tail
        invariant 0 <= n <= |q| && x == w[n + 1]
        decreases |q| - n
      {
        assert x == q[n] && w[|w| - 1] == tail;
        assert Linked(next, prev, w[n + 1], w[n + 1 + 1]);
        x := next[x];
        n := n + 1;
      }
      TailLast(head, q, tail);
    }
  }
}
