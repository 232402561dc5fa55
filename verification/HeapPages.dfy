/** What becomes of the heap's pages (kern/vm/kmalloc.c): over every run, a page is held exactly while a
    live block lies on it or a call is about to install it, so no page is lost and every page whose last
    block is freed can be allocated again. */
module HeapPages {
  import opened Geometry
  import opened HeapState
  import opened HeapSteps
  import opened Kmalloc

  /** The page a descriptor is for. */
  function PageNo(pr: PageRef): nat {
    PageAddr(pr) / PAGE_SIZE
  }

  /** The holder h of page number q is in use and has that page. */
  ghost predicate Owned(prs: seq<PageRef>, alls: seq<nat>, live: map<nat, Block>, q: nat, h: Holder) {
    match h
    case Desc(i) => i in alls && i < |prs| && PageNo(prs[i]) == q
    case BigAt(p) => p in live && live[p].Big? && q in PageNos(p, live[p].npages)
    case InFlight => true
  }

  ghost predicate NoLeak(s: State) {
    forall q :: q in s.holder ==> Owned(s.prs, s.alls, s.live, q, s.holder[q])
  }

  lemma TakeOwned(s: State, i: nat, wanted: nat)
    requires Inv(s) && i in s.alls && s.frees[i] != [] && NoLeak(s)
    ensures NoLeak(Take(s, i, wanted))
  {
    TakenFresh(s, i);
    hide IsList, Lists, Descs, Blocks, Complete;
  }

  lemma InstallOwned(s: State, i: nat, t: nat, page: nat)
    requires CanInstall(s, i, t, page) && NoLeak(s)
    ensures NoLeak(Install(s, i, t, page))
  {
    assert i !in s.alls;
    hide IsList, Lists, Descs, Blocks, Complete;
  }

  /** What is left of the holders is owned as before. */
  lemma StillOwned(s: State, s': State)
    requires NoLeak(s) && |s'.prs| == |s.prs| && forall j :: 0 <= j < |s.prs| ==> PageNo(s'.prs[j]) == PageNo(s.prs[j])
    requires forall q :: q in s'.holder ==> q in s.holder && s'.holder[q] == s.holder[q]
    requires forall j :: j in s.alls && (j < |s.prs| ==> PageNo(s.prs[j]) in s'.holder) ==> j in s'.alls
    requires forall p :: p in s.live && s.live[p].Big? ==> p in s'.live && s'.live[p] == s.live[p]
    ensures NoLeak(s')
  {
    hide PageNo, PageNos;
    forall q | q in s'.holder ensures Owned(s'.prs, s'.alls, s'.live, q, s'.holder[q]) {
      assert Owned(s.prs, s.alls, s.live, q, s.holder[q]);
    }
  }

  lemma ReleaseOwned(s: State, p: nat)
    requires Inv(s) && p in s.live && s.live[p].Sub? && NoLeak(s)
    ensures NoLeak(Release(s, p))
  {
    hide Inv, Release, Fill, NoLeak;
    PutBackPre(s, p);
    StillOwned(s, Release(s, p));
  }

  lemma DropOwned(s: State, i: nat, ks: nat, ka: nat)
    requires CanDrop(s, i, ks, ka) && NoLeak(s)
    ensures NoLeak(Drop(s, i, ks, ka))
  {
    hide Inv, CanDrop, Drop, NoLeak, PageNo;
    DropChanges(s, i, ks, ka);
    StillOwned(s, Drop(s, i, ks, ka));
  }

  lemma DropChanges(s: State, i: nat, ks: nat, ka: nat)
    requires CanDrop(s, i, ks, ka)
    ensures var s' := Drop(s, i, ks, ka);
      && |s'.prs| == |s.prs| && i < |s.prs| && s'.live == s.live && s'.holder == s.holder - {PageNo(s.prs[i])}
      && (forall j :: j in s'.alls <==> j in s.alls && j != i)
      && (forall j :: 0 <= j < |s.prs| ==> PageNo(s'.prs[j]) == PageNo(s.prs[j]))
  {
    CutFields(s, i, ks, ka);
    DistinctLists(s);
    WithoutMembers(s.alls, ka);
    hide IsList, Lists, Descs, Blocks, Complete, CutPrs, CutBase;
  }

  lemma FreeSubOwned(s: State, p: nat)
    requires Inv(s) && NoEmptyPage(s) && p in s.live && s.live[p].Sub? && NoLeak(s)
    ensures NoLeak(FreeSub(s, p))
  {
    FreeSubCases(s, p);
    ReleaseOwned(s, p);
    hide Inv, NoEmptyPage, NoLeak, Release, Drop, FreeSub, CanDrop, Find, Count;
    var r, i := Release(s, p), s.live[p].desc;
    if r.prs[i].nfree == Count(BlockType(r.prs[i])) {
      DropOwned(r, i, Find(r.sames[BlockType(r.prs[i])], i), Find(r.alls, i));
    }
  }

  lemma GiveBigOwned(s: State, p: nat, n: nat, wanted: nat)
    requires Inv(s) && Fresh(s, p, n) && wanted <= n * PAGE_SIZE && NoLeak(s)
    ensures NoLeak(GiveBig(s, p, n, wanted))
  {
    GiveBigKeeps(s, p, n, wanted);
    hide Inv;
  }

  lemma StepOwned(s: State, e: Event, s': State)
    requires Inv(s) && NoEmptyPage(s) && Step(s, e, s') && NoLeak(s)
    ensures NoLeak(s')
  {
    hide Inv, NoEmptyPage, Take, InstallTake, GiveBig, FreeSub, Extent, Fresh, CanInstall, CanTake;
    match e
    case First(sz, i) => FirstOwned(s, i, sz);
    case GetPage(page) =>
    case Second(sz, i, page) => SecondOwned(s, i, sz, page);
    case GiveUp(page) =>
    case Pages(sz, page) => PagesOwned(s, sz, page, (sz + PAGE_SIZE - 1) / PAGE_SIZE);
    case Free(p) => if s.live[p].Sub? { FreeSubOwned(s, p); }
    case StoreWord(p, a, v) =>
  }

  lemma FirstOwned(s: State, i: nat, sz: nat)
    requires CanTake(s, i, sz) && i in s.alls && NoLeak(s)
    ensures NoLeak(Take(s, i, sz))
  {
    hide Inv, NoLeak, Take;
    TakeOwned(s, i, sz);
  }

  lemma PagesOwned(s: State, sz: nat, page: nat, n: nat)
    requires Inv(s) && n == (sz + PAGE_SIZE - 1) / PAGE_SIZE && Fresh(s, page, n) && NoLeak(s)
    ensures NoLeak(GiveBig(s, page, n, sz))
  {
    hide Inv, Fresh, NoLeak, GiveBig;
    GiveBigOwned(s, page, n, sz);
  }

  lemma SecondOwned(s: State, i: nat, sz: nat, page: nat)
    requires TypeFor(sz) < NSIZES && CanInstall(s, i, TypeFor(sz), page) && NoEmptyPage(s) && NoLeak(s)
    ensures NoLeak(InstallTake(s, i, sz, page))
  {
    var t := TypeFor(sz);
    InstallKeeps(s, i, t, page);
    InstallEmpty(s, i, t, page);
    InstallOwned(s, i, t, page);
    TakeOwned(Install(s, i, t, page), i, sz);
  }

  lemma {:induction false} EveryPageOwned(s: State, n: nat)
    requires Kmalloc.Reaches(s, n)
    ensures Inv(s) && NoEmptyPage(s) && NoLeak(s)
    decreases n
  {
    hide Inv, NoEmptyPage, NoLeak, Step, Extent;
    EveryRun(s, n);
    if n == 0 {
      EmptyOwned(s);
    } else {
      var p, e :| Reaches(p, n - 1) && Follows(p, e, s);
      EveryPageOwned(p, n - 1);
      StepOwned(p, e, s);
    }
  }

  lemma EmptyOwned(s: State)
    requires exists mem :: s == Empty(mem)
    ensures NoLeak(s)
  {
  }

  /** The pages of a freed big block, and the page of a descriptor taken out of use, can be allocated
      again at once. */
  lemma FreedIsFresh(s: State, p: nat)
    requires Inv(s) && p in s.live && s.live[p].Big?
    ensures Fresh(FreeBig(s, p), p, s.live[p].npages)
  {
    assert BlockOk(s, p, s.live[p]);
  }

  lemma DroppedIsFresh(s: State, i: nat, ks: nat, ka: nat)
    requires CanDrop(s, i, ks, ka)
    ensures Fresh(Drop(s, i, ks, ka), PageAddr(s.prs[i]), 1)
  {
    assert i in s.alls && DescOk(s, i);
    hide Inv, CanDrop, Drop;
    DropChanges(s, i, ks, ka);
  }

  /** Block b at p lies on page number q: a small block on the page it starts on, a big one on all of
      its pages. */
  predicate LiesOn(p: nat, b: Block, q: nat) {
    match b
    case Sub(_, _, _) => p / PAGE_SIZE == q
    case Big(n, _) => p / PAGE_SIZE <= q < p / PAGE_SIZE + n
  }

  /** A descriptor's page has a live block on it. */
  lemma PageHasLive(s: State, i: nat) returns (p: nat)
    requires Inv(s) && NoEmptyPage(s) && i in s.alls
    ensures i < NPAGEREFS && p in s.live && LiesOn(p, s.live[p], PageNo(s.prs[i]))
  {
    Bounded(s);
    assert DescOk(s, i);
    var t := BlockType(s.prs[i]);
    var k := NotListed(s.frees[i], Count(t));
    assert Accounted(s, i, k);
    p := BlockAddr(s, i, k);
    OnPage(PageAddr(s.prs[i]), t, k);
    hide IsList, Lists, Descs, Blocks, Complete, FreeChain;
    SamePage(PageAddr(s.prs[i]), p);
  }

  lemma {:induction false} NotListed(f: seq<nat>, n: nat) returns (k: nat)
    requires |f| < n
    ensures k < n && k !in f
    decreases n
  {
    if n - 1 !in f {
      k := n - 1;
    } else {
      var j :| 0 <= j < |f| && f[j] == n - 1;
      var g := f[..j] + f[j + 1..];
      k := NotListed(g, n - 1);
      assert forall x :: x in f ==> x in g || x == n - 1;
    }
  }

  /** In every reachable state, a page is free to be allocated exactly when no live block lies on it and
      no call is about to install it. */
  lemma FreshIffUnused(s: State, n: nat, page: nat)
    requires Kmalloc.Reaches(s, n) && IsPage(page)
    ensures Fresh(s, page, 1) <==>
            !HeldBy(s, page / PAGE_SIZE, InFlight) && forall p :: p in s.live ==> !LiesOn(p, s.live[p], page / PAGE_SIZE)
  {
    hide Inv, NoEmptyPage, Owned, Reaches;
    EveryPageOwned(s, n);
    var q := page / PAGE_SIZE;
    assert q in PageNos(page, 1) && forall r :: r in PageNos(page, 1) ==> r == q;
    if q in s.holder {
      if s.holder[q] != InFlight { var p := HeldHasLive(s, q); }
    } else {
      forall p | p in s.live ensures !LiesOn(p, s.live[p], q) {
        if LiesOn(p, s.live[p], q) { LiveIsHeld(s, p, q); }
      }
    }
  }

  lemma HeldHasLive(s: State, q: nat) returns (p: nat)
    requires Inv(s) && NoEmptyPage(s) && NoLeak(s) && q in s.holder && s.holder[q] != InFlight
    ensures p in s.live && LiesOn(p, s.live[p], q)
  {
    assert Owned(s.prs, s.alls, s.live, q, s.holder[q]);
    hide Inv, NoEmptyPage, NoLeak;
    match s.holder[q] {
      case Desc(i) => p := PageHasLive(s, i);
      case BigAt(b) => p := b;
    }
  }

  lemma LiveIsHeld(s: State, p: nat, q: nat)
    requires Inv(s) && p in s.live && LiesOn(p, s.live[p], q)
    ensures q in s.holder
  {
    LiveHeld(s, p);
    if s.live[p].Big? { BigHeld(s, p); }
    hide Inv;
    assert s.live[p].Big? ==> q in PageNos(p, s.live[p].npages);
  }

  // -------------------------------------------------------------------------- sizes

  /** A block is no larger than its request needs: of the smallest type, or the fewest pages. */
  ghost predicate Fits(prs: seq<PageRef>, b: Block) {
    match b
    case Sub(i, _, wanted) => i < |prs| && BlockType(prs[i]) == TypeFor(wanted) && wanted < LARGEST_SUBPAGE_SIZE
    case Big(n, wanted) => wanted >= LARGEST_SUBPAGE_SIZE && (n - 1) * PAGE_SIZE < wanted <= n * PAGE_SIZE
  }

  ghost predicate AllFit(s: State) {
    forall p :: p in s.live ==> Fits(s.prs, s.live[p])
  }

  /** Blocks that stay live, with descriptors of the type they had, fit as before. */
  lemma StillFit(s: State, s': State, x: int)
    requires AllFit(s) && (forall p :: p in s'.live && p != x ==> p in s.live && s'.live[p] == s.live[p]) && |s'.prs| == |s.prs|
    requires forall p :: p in s.live && s.live[p].Sub? && s.live[p].desc < |s.prs| ==>
      BlockType(s'.prs[s.live[p].desc]) == BlockType(s.prs[s.live[p].desc])
    requires x in s'.live ==> Fits(s'.prs, s'.live[x])
    ensures AllFit(s')
  {
    hide BlockType, TypeFor;
    forall p | p in s'.live ensures Fits(s'.prs, s'.live[p]) { if p != x { assert Fits(s.prs, s.live[p]); } }
  }

  lemma TakeFits(s: State, i: nat, sz: nat)
    requires CanTake(s, i, sz) && i in s.alls && sz < LARGEST_SUBPAGE_SIZE && AllFit(s)
    ensures AllFit(Take(s, i, sz))
  {
    assert DescOk(s, i) && BlockType(s.prs[i]) == TypeFor(sz);
    hide IsList, Lists, Descs, Blocks, Complete, AllFit, TypeFor;
    StillFit(s, Take(s, i, sz), FirstFree(s, i));
  }

  lemma InstallFits(s: State, i: nat, t: nat, page: nat)
    requires CanInstall(s, i, t, page) && AllFit(s)
    ensures AllFit(Install(s, i, t, page))
  {
    forall p | p in s.live && s.live[p].Sub? ensures s.live[p].desc != i {
      assert BlockOk(s, p, s.live[p]);
    }
    var s' := Install(s, i, t, page);
    hide Inv, AllFit, BlockType, FreshRef, InitLinks;
    StillFit(s, s', -1);
  }

  lemma FreeFits(s: State, p: nat)
    requires Inv(s) && NoEmptyPage(s) && p in s.live && s.live[p].Sub? && AllFit(s)
    ensures AllFit(FreeSub(s, p))
  {
    hide Inv, NoEmptyPage, AllFit, Release, Drop, FreeSub, CanDrop, Find, Count, Fill;
    PutBackPre(s, p);
    FreeSubCases(s, p);
    var r, i := Release(s, p), s.live[p].desc;
    StillFit(s, r, p);
    if r.prs[i].nfree == Count(BlockType(r.prs[i])) {
      DropFits(r, i, Find(r.sames[BlockType(r.prs[i])], i), Find(r.alls, i));
    }
  }

  lemma DropFits(s: State, i: nat, ks: nat, ka: nat)
    requires CanDrop(s, i, ks, ka) && AllFit(s)
    ensures AllFit(Drop(s, i, ks, ka))
  {
    CutFields(s, i, ks, ka);
    DropChanges(s, i, ks, ka);
    hide Inv, CanDrop, Drop, AllFit;
    StillFit(s, Drop(s, i, ks, ka), -1);
  }

  lemma FewestPages(sz: nat, n: nat)
    requires n == (sz + PAGE_SIZE - 1) / PAGE_SIZE && sz > 0
    ensures (n - 1) * PAGE_SIZE < sz <= n * PAGE_SIZE
  {
  }

  lemma StepFits(s: State, e: Event, s': State)
    requires Inv(s) && NoEmptyPage(s) && Step(s, e, s') && AllFit(s)
    ensures AllFit(s')
  {
    hide Inv, NoEmptyPage, AllFit, Take, InstallTake, FreeSub, Extent, Fresh, CanInstall, CanTake;
    match e
    case First(sz, i) => TakeFits(s, i, sz);
    case GetPage(page) => StillFit(s, s', -1);
    case Second(sz, i, page) => SecondFits(s, i, sz, page);
    case GiveUp(page) => StillFit(s, s', -1);
    case Pages(sz, page) =>
      FewestPages(sz, (sz + PAGE_SIZE - 1) / PAGE_SIZE);
      StillFit(s, s', page);
    case Free(p) => if s.live[p].Sub? { FreeFits(s, p); } else { StillFit(s, s', p); }
    case StoreWord(p, a, v) => StillFit(s, s', -1);
  }

  lemma SecondFits(s: State, i: nat, sz: nat, page: nat)
    requires TypeFor(sz) < NSIZES && CanInstall(s, i, TypeFor(sz), page) && NoEmptyPage(s) && sz < LARGEST_SUBPAGE_SIZE && AllFit(s)
    ensures AllFit(InstallTake(s, i, sz, page))
  {
    var t := TypeFor(sz);
    InstallKeeps(s, i, t, page);
    InstallEmpty(s, i, t, page);
    InstallFits(s, i, t, page);
    var m := Install(s, i, t, page);
    assert i in m.alls && m.frees[i] != [];
    TakeFits(m, i, sz);
  }

  /** In every reachable state each live block is of the smallest size that holds what was asked for:
      a small one has at least its request and more than half of it is asked for (above the smallest
      size), a big one ends on the page its request ends on. */
  lemma {:induction false} EveryBlockFits(s: State, n: nat, p: nat)
    requires Kmalloc.Reaches(s, n) && p in s.live
    ensures Inv(s)
    ensures match s.live[p]
      case Sub(_, _, wanted) =>
        wanted < 2048 && wanted <= Extent(s, p) && (Extent(s, p) > 16 ==> Extent(s, p) < 2 * wanted)
      case Big(pages, wanted) => wanted >= 2048 && (pages - 1) * PAGE_SIZE < wanted <= pages * PAGE_SIZE == Extent(s, p)
  {
    hide Inv, NoEmptyPage, Reaches, AllFit;
    EveryFit(s, n);
    EveryRun(s, n);
    BlockFits(s, p);
  }

  lemma BlockFits(s: State, p: nat)
    requires Inv(s) && AllFit(s) && p in s.live
    ensures match s.live[p]
      case Sub(_, _, wanted) =>
        wanted < 2048 && wanted <= Extent(s, p) && (Extent(s, p) > 16 ==> Extent(s, p) < 2 * wanted)
      case Big(pages, wanted) => wanted >= 2048 && (pages - 1) * PAGE_SIZE < wanted <= pages * PAGE_SIZE == Extent(s, p)
  {
    assert Fits(s.prs, s.live[p]);
    hide Inv, AllFit, TypeFor, Size, BlockType;
    if s.live[p].Sub? { LeastType(s.live[p].wanted); }
  }

  lemma LeastType(sz: nat)
    requires sz < 2048
    ensures TypeFor(sz) < NSIZES && sz <= Size(TypeFor(sz)) && (Size(TypeFor(sz)) > 16 ==> Size(TypeFor(sz)) < 2 * sz)
  {
  }

  lemma {:induction false} EveryFit(s: State, n: nat)
    requires Kmalloc.Reaches(s, n)
    ensures AllFit(s)
    decreases n
  {
    hide Inv, NoEmptyPage, AllFit, Step, Extent;
    if n == 0 {
      NoneLive(s);
    } else {
      var p, e :| Reaches(p, n - 1) && Follows(p, e, s);
      EveryFit(p, n - 1);
      EveryRun(p, n - 1);
      StepFits(p, e, s);
    }
  }

  lemma NoneLive(s: State)
    requires exists mem :: s == Empty(mem)
    ensures AllFit(s)
  {
  }
}
