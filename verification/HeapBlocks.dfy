/** What the owner of a heap block sees (kern/vm/kmalloc.c): nothing but their own stores changes it,
    from the allocation to the free. */
module HeapBlocks {
  import opened Geometry
  import opened HeapState
  import opened HeapSteps
  import opened Kmalloc

  /** Block q is live before and after, with the same size, and its words are the same. */
  ghost predicate Kept(s: State, s': State, q: nat) {
    && Inv(s) && Inv(s') && q in s.live && q in s'.live && s'.live[q] == s.live[q]
    && Extent(s', q) == Extent(s, q) && Untouched(s, s', q)
  }

  lemma ExtentIs(s: State, q: nat)
    requires Inv(s) && q in s.live
    ensures s.live[q].Sub? ==> s.live[q].desc < |s.prs| && BlockType(s.prs[s.live[q].desc]) < NSIZES
    ensures s.live[q].Sub? ==> Extent(s, q) == Size(BlockType(s.prs[s.live[q].desc]))
    ensures s.live[q].Big? ==> Extent(s, q) == s.live[q].npages * PAGE_SIZE
  {
    assert BlockOk(s, q, s.live[q]);
    if s.live[q].Sub? { assert DescOk(s, s.live[q].desc); }
    hide IsList, Lists, Descs, Blocks, Complete, Used, Addr, Count, Size;
  }

  /** A block keeps its size while its descriptor keeps its type. */
  lemma SameExtent(s: State, s': State, q: nat)
    requires Inv(s) && Inv(s') && q in s.live && q in s'.live && s'.live[q] == s.live[q]
    requires s.live[q].Sub? && s.live[q].desc < |s.prs| && s.live[q].desc < |s'.prs| ==>
      s'.prs[s.live[q].desc].pab == s.prs[s.live[q].desc].pab
    ensures Extent(s', q) == Extent(s, q)
  {
    hide Inv, Extent;
    ExtentIs(s, q);
    ExtentIs(s', q);
  }

  lemma DescUsed(s: State, q: nat)
    requires Inv(s) && q in s.live && s.live[q].Sub?
    ensures s.live[q].desc in s.alls && s.live[q].desc < NPAGEREFS == |s.prs| && Used(s.words, s.live[q].desc)
  {
    hide IsList, Descs, Complete, Addr, Count, Size;
    assert BlockOk(s, q, s.live[q]);
  }

  lemma TakeSpares(s: State, i: nat, wanted: nat, q: nat)
    requires Inv(s) && i in s.alls && s.frees[i] != [] && q in s.live && Inv(Take(s, i, wanted))
    ensures Kept(s, Take(s, i, wanted), q)
  {
    TakenFresh(s, i);
    hide IsList, Lists, Descs, Blocks, Complete, Used, Addr, Count, Size;
    SameExtent(s, Take(s, i, wanted), q);
  }

  lemma InstallSpares(s: State, i: nat, t: nat, page: nat, q: nat)
    requires CanInstall(s, i, t, page) && q in s.live && Inv(Install(s, i, t, page))
    ensures Kept(s, Install(s, i, t, page), q)
  {
    InstallUntouched(s, i, t, page, q);
    if s.live[q].Sub? { DescUsed(s, q); }
    hide IsList, Lists, Descs, Blocks, Complete, Used, Addr, Count, Size, InitLinks;
    SameExtent(s, Install(s, i, t, page), q);
  }

  lemma ReleaseSpares(s: State, p: nat, q: nat)
    requires Inv(s) && p in s.live && s.live[p].Sub? && q in s.live && q != p && Inv(Release(s, p))
    ensures Kept(s, Release(s, p), q)
  {
    ReleaseUntouched(s, p, q);
    hide IsList, Lists, Descs, Blocks, Complete, Used, Addr, Count, Size, Fill;
    SameExtent(s, Release(s, p), q);
  }

  lemma DropSpares(s: State, i: nat, ks: nat, ka: nat, q: nat)
    requires CanDrop(s, i, ks, ka) && q in s.live && Inv(Drop(s, i, ks, ka))
    ensures Kept(s, Drop(s, i, ks, ka), q)
  {
    CutFields(s, i, ks, ka);
    if s.live[q].Sub? { DescUsed(s, q); }
    hide IsList, Lists, Descs, Blocks, Complete, Used, Addr, Count, Size, CutPrs;
    SameExtent(s, Drop(s, i, ks, ka), q);
  }

  lemma Joined(a: State, b: State, c: State, q: nat)
    requires Kept(a, b, q) && Kept(b, c, q)
    ensures Kept(a, c, q)
  {
    hide Inv, Extent;
  }

  lemma FreeSpares(s: State, p: nat, q: nat)
    requires Inv(s) && NoEmptyPage(s) && p in s.live && q in s.live && q != p
    ensures s.live[p].Sub? ==> Kept(s, FreeSub(s, p), q)
    ensures s.live[p].Big? ==> Kept(s, FreeBig(s, p), q)
  {
    if s.live[p].Sub? {
      FreeSubSpares(s, p, q);
    } else {
      FreeBigKeeps(s, p);
      hide IsList, Lists, Descs, Blocks, Complete, Used, Addr, Count, Size;
      SameExtent(s, FreeBig(s, p), q);
    }
  }

  lemma FreeSubSpares(s: State, p: nat, q: nat)
    requires Inv(s) && NoEmptyPage(s) && p in s.live && s.live[p].Sub? && q in s.live && q != p
    ensures Kept(s, FreeSub(s, p), q)
  {
    FreeSubKeeps(s, p);
    ReleaseKeeps(s, p);
    FreedDesc(s, p);
    ReleaseSpares(s, p, q);
    var r, i := Release(s, p), s.live[p].desc;
    assert DescOk(r, i);
    hide Inv, Release, Kept;
    if FreeSub(s, p) != r {
      var ks, ka := Find(r.sames[BlockType(r.prs[i])], i), Find(r.alls, i);
      DropSpares(r, i, ks, ka, q);
      Joined(s, r, FreeSub(s, p), q);
    }
  }

  /** An event that leaves block q to its owner: not their free, and not their own store. */
  predicate Foreign(e: Event, q: nat) {
    match e
    case Free(p) => p != q
    case StoreWord(p, _, _) => p != q
    case _ => true
  }

  /** Whatever section of whatever call runs, and wherever others store, a live block stays live and
      keeps its size and its words, unless its owner frees it or stores into it. */
  lemma StepSpares(s: State, e: Event, s': State, q: nat)
    requires Inv(s) && NoEmptyPage(s) && Step(s, e, s') && q in s.live && Foreign(e, q)
    ensures Kept(s, s', q)
  {
    hide Inv, NoEmptyPage, Take, Fly, InstallTake, Land, GiveBig, FreeSub, FreeBig, Store, Extent, Kept, Fresh, CanInstall, CanTake;
    match e
    case First(sz, i) => FirstSpares(s, i, sz, q);
    case GetPage(page) => FlySpares(s, page, q);
    case Second(sz, i, page) => SecondSpares(s, i, sz, page, q);
    case GiveUp(page) => LandSpares(s, page, q);
    case Pages(sz, page) => PagesSpare(s, sz, page, (sz + PAGE_SIZE - 1) / PAGE_SIZE, q);
    case Free(p) => FreeSpares(s, p, q);
    case StoreWord(p, a, v) => StoreSpares(s, p, a, v, q);
  }

  lemma FirstSpares(s: State, i: nat, sz: nat, q: nat)
    requires Inv(s) && NoEmptyPage(s) && CanTake(s, i, sz) && i in s.alls && q in s.live
    ensures Kept(s, Take(s, i, sz), q)
  {
    FirstKeeps(s, i, sz);
    hide Inv, Take, Kept;
    TakeSpares(s, i, sz, q);
  }

  lemma FlySpares(s: State, page: nat, q: nat)
    requires Inv(s) && Fresh(s, page, 1) && q in s.live
    ensures Kept(s, Fly(s, page), q)
  {
    FlyKeeps(s, page);
    HolderSpares(s, Fly(s, page), q);
  }

  lemma LandSpares(s: State, page: nat, q: nat)
    requires Inv(s) && HeldBy(s, page / PAGE_SIZE, InFlight) && q in s.live
    ensures Kept(s, Land(s, page), q)
  {
    LandKeeps(s, page);
    HolderSpares(s, Land(s, page), q);
  }

  lemma HolderSpares(s: State, s': State, q: nat)
    requires Inv(s) && Inv(s') && s' == s.(holder := s'.holder) && q in s.live
    ensures Kept(s, s', q)
  {
    hide IsList, Lists, Descs, Blocks, Complete, Used, Addr, Count, Size;
    SameExtent(s, s', q);
  }

  lemma PagesSpare(s: State, sz: nat, page: nat, n: nat, q: nat)
    requires Inv(s) && n == (sz + PAGE_SIZE - 1) / PAGE_SIZE && Fresh(s, page, n) && q in s.live
    ensures Kept(s, GiveBig(s, page, n, sz), q)
  {
    hide Inv, Fresh, Kept, GiveBig;
    BigSpares(s, page, n, sz, q);
  }

  lemma BigSpares(s: State, p: nat, n: nat, wanted: nat, q: nat)
    requires Inv(s) && Fresh(s, p, n) && wanted <= n * PAGE_SIZE && q in s.live
    ensures Kept(s, GiveBig(s, p, n, wanted), q)
  {
    GiveBigKeeps(s, p, n, wanted);
    hide IsList, Lists, Descs, Blocks, Complete, Used, Addr, Count, Size, PageNos;
    SameExtent(s, GiveBig(s, p, n, wanted), q);
  }

  lemma SecondSpares(s: State, i: nat, sz: nat, page: nat, q: nat)
    requires Inv(s) && NoEmptyPage(s) && TypeFor(sz) < NSIZES && CanInstall(s, i, TypeFor(sz), page) && q in s.live
    ensures Kept(s, InstallTake(s, i, sz, page), q)
  {
    var t := TypeFor(sz);
    InstallKeeps(s, i, t, page);
    InstallTakeKeeps(s, i, sz, page);
    InstallSpares(s, i, t, page, q);
    TakeSpares(Install(s, i, t, page), i, sz, q);
    Joined(s, Install(s, i, t, page), InstallTake(s, i, sz, page), q);
  }

  lemma StoreSpares(s: State, p: nat, a: nat, v: nat, q: nat)
    requires Inv(s) && p in s.live && q in s.live && p != q && p <= a < p + Extent(s, p)
    ensures Kept(s, Store(s, a, v), q)
  {
    StoreKeeps(s, p, a, v);
    LiveDisjoint(s, p, q);
    hide IsList, Lists, Descs, Blocks, Complete, Used, Addr, Count, Size;
    SameExtent(s, Store(s, a, v), q);
  }

  /** A run of events from s to s'. */
  ghost predicate Runs(s: State, es: seq<Event>, s': State)
    requires Inv(s) && NoEmptyPage(s)
    decreases |es|
  {
    if es == [] then s' == s
    else exists m :: Step(s, es[0], m) && (Inv(m) && NoEmptyPage(m) ==> Runs(m, es[1..], s'))
  }

  /** Over any run of events that leave it to its owner, a block keeps its size and its words. */
  lemma {:induction false} BlockKept(s: State, es: seq<Event>, s': State, q: nat)
    requires Inv(s) && NoEmptyPage(s) && Runs(s, es, s') && q in s.live
    requires forall k :: 0 <= k < |es| ==> Foreign(es[k], q)
    ensures Kept(s, s', q)
    decreases |es|
  {
    hide Inv, NoEmptyPage, Step, Extent, Foreign;
    if es == [] {
    } else {
      var m :| Step(s, es[0], m) && (Inv(m) && NoEmptyPage(m) ==> Runs(m, es[1..], s'));
      StepKeeps(s, es[0], m);
      StepSpares(s, es[0], m, q);
      BlockKept(m, es[1..], s', q);
      Joined(s, m, s', q);
    }
  }
}
