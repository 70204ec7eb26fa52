/** malloc_page and mfree_page as the heap uses them: which pages are taken, and when there are none. */
module HeapPages {
  import opened Bitmaps
  import opened PageSpace
  import opened PageAlloc

  /** The page allocator is in order. */
  ghost predicate Paged(a: Allocator)
    reads a
  {
    Ok(a.S()) && a.vbits == a.S().live
  }

  lemma PagedIs(a: Allocator)
    ensures Paged(a) <==> Ok(a.S()) && a.vbits == a.S().live
  {
  }

  /** malloc_page of n pages stops: no page is free, or there are not the frames for the pages found. */
  ghost predicate Lacking(a: Allocator, n: nat)
    reads a
  {
    Full(a.vbits) || FramesShort(a.S(), n)
  }

  lemma LackingIs(a: Allocator, n: nat)
    ensures Lacking(a, n) <==> Full(a.vbits) || FramesShort(a.S(), n)
  {
  }

  /** malloc_page; Panic stands for a stop of the kernel. */
  method TakePages(a: Allocator, n: nat) returns (r: ScanResult)
    requires Paged(a) && 0 < n < 3840
    modifies a
    ensures r == Panic <==> old(Lacking(a, n))
    ensures r == NotFound <==> !Full(old(a.vbits)) && NoRun(old(a.vbits), n)
    ensures r == NotFound ==> Paged(a) && a.vbits == old(a.vbits)
    ensures r.At? ==> Paged(a) && r.index + n <= |old(a.vbits)| && LeastRun(old(a.vbits), r.index, n)
    ensures r.At? ==> a.vbits == SetRun(old(a.vbits), r.index, n, true)
  {
    hide *;
    PagedIs(a);
    LackingIs(a, n);
    ghost var s := a.S();
    var got := a.MallocPage(n);
    PagedIs(a);
    match got
    case Stopped => r := Panic;
    case NoSpace => r := NotFound;
    case Pages(p) =>
      AllocatedLive(s, a.S(), p, n);
      r := At(p);
  }

  /** mfree_page */
  method GivePages(a: Allocator, p: nat, n: nat)
    requires Paged(a) && 1 <= n && p + n <= |a.vbits| && forall j :: p <= j < p + n ==> a.vbits[j]
    modifies a
    ensures Paged(a) && a.vbits == SetRun(old(a.vbits), p, n, false)
  {
    hide *;
    PagedIs(a);
    ghost var s := a.S();
    a.MfreePage(p, n);
    FreedLive(s, a.S(), p, n);
    PagedIs(a);
  }
}
