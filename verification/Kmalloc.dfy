/** The kernel heap (kern/vm/kmalloc.c).  Each method between an acquisition and a release
    of kmalloc_spinlock is one section; between sections other calls may run. */
module Kmalloc {
  import opened Geometry
  import opened HeapState
  import opened HeapSteps

  const LARGEST_SUBPAGE_SIZE := 2048

  /** Descriptor i is the first on the list l whose page has a free block. */
  ghost predicate FirstWithFree(prs: seq<PageRef>, l: seq<nat>, i: nat) {
    exists n :: 0 <= n < |l| && l[n] == i && i < |prs| && prs[i].nfree > 0 &&
                forall k :: 0 <= k < n ==> l[k] < |prs| && prs[l[k]].nfree == 0
  }

  class Heap {
    var prs: seq<PageRef>
    var words: seq<seq<bool>>
    var bases: seq<int>
    var allbase: int
    var mem: Memory
    ghost var alls: seq<nat>
    ghost var sames: seq<seq<nat>>
    ghost var frees: seq<seq<nat>>
    ghost var live: map<nat, Block>
    ghost var holder: map<nat, Holder>

    ghost function View(): State
      reads this
    {
      State(prs, words, bases, allbase, mem, alls, sames, frees, live, holder)
    }

    ghost predicate Valid()
      reads this
    {
      Inv(View()) && NoEmptyPage(View())
    }

    /** The zero-filled tables the kernel boots with. */
    constructor (memory: Memory)
      ensures Valid() && live == map[] && holder == map[] && mem == memory
    {
      prs := seq(NPAGEREFS, _ => PageRef(NIL, NIL, 0, 0, 0));
      words := seq(INUSE_WORDS, _ => seq(WORD_BITS, _ => false));
      bases, allbase, mem := seq(NSIZES, _ => NIL), NIL, memory;
      alls, sames, frees := [], seq(NSIZES, _ => []), seq(NPAGEREFS, _ => []);
      live, holder := map[], map[];
    }

    // ------------------------------------------------------------ descriptors

    /** allocpageref: the first descriptor not in use, or NIL when all are. */
    method AllocPageRef() returns (r: int)
      requires Shaped(words)
      modifies `words
      ensures r == NIL ==> words == old(words) && forall j: nat :: j < NPAGEREFS ==> Used(words, j)
      ensures r != NIL ==> 0 <= r < NPAGEREFS && !Used(old(words), r) && SetBitOf(old(words), words, r, true)
      ensures r != NIL ==> forall j: nat :: j < r ==> Used(old(words), j)
    {
      var i := 0;
      while i < INUSE_WORDS
        invariant 0 <= i <= INUSE_WORDS && words == old(words)
        invariant forall j: nat :: j < i * WORD_BITS ==> Used(words, j)
      {
        if words[i] != seq(WORD_BITS, _ => true) {
          var j := 0;
          while j < WORD_BITS
            invariant 0 <= j <= WORD_BITS && words == old(words)
            invariant forall k :: 0 <= k < j ==> words[i][k]
          {
            if !words[i][j] {
              words := words[i := words[i][j := true]];
              return i * WORD_BITS + j;
            }
            j := j + 1;
          }
          assert false;
        }
        i := i + 1;
      }
      return NIL;
    }

    /** freepageref. */
    method FreePageRef(j: nat)
      requires Shaped(words) && Used(words, j)
      modifies `words
      ensures SetBitOf(old(words), words, j, false)
    {
      var i := j / WORD_BITS;
      words := words[i := words[i][j % WORD_BITS := false]];
    }

    /** One loop of remove_lists: cut descriptor i out of the list of kind w at base. */
    method RemoveFrom(w: Which, base: int, i: nat, ghost l: seq<nat>, ghost k: nat) returns (newBase: int)
      requires IsList(prs, w, base, l) && k < |l| && l[k] == i
      modifies `prs
      ensures |prs| == |old(prs)| && prs == CutPrs(old(prs), w, l, k)
      ensures newBase == CutBase(base, l, k)
    {
      var prev, guy := NIL, base;
      ghost var n := 0;
      newBase := base;
      while guy != NIL
        invariant 0 <= n <= k && guy == l[n] && prev == (if n == 0 then NIL else l[n - 1])
        invariant prs == old(prs) && newBase == base
        decreases k - n
      {
        assert l[n] < |prs|;
        if guy == i {
          assert n == k;
          if prev == NIL {
            newBase := Next(prs[i], w);
          } else {
            prs := prs[prev := SetNext(prs[prev], w, Next(prs[i], w))];
          }
          return;
        }
        prev, guy := guy, Next(prs[guy], w);
        n := n + 1;
      }
      assert false;
    }

    // -------------------------------------------------------------- requests

    /** blocktype: the first size that is enough; NSIZES stands for its panic. */
    static method BlockTypeOf(sz: nat) returns (t: nat)
      ensures t == TypeFor(sz)
      ensures t == NSIZES <==> sz > LARGEST_SUBPAGE_SIZE
    {
      t := 0;
      while t < NSIZES
        invariant 0 <= t <= NSIZES && forall u :: 0 <= u < t ==> sz > Size(u)
      {
        if sz <= Size(t) { return; }
        t := t + 1;
      }
      assert sz > Size(7);
    }

    /** `doalloc`: take the first free block of descriptor i. */
    method TakeFrom(i: nat, ghost wanted: nat) returns (ptr: nat)
      requires Inv(View()) && i < NPAGEREFS && i in alls && frees[i] != []
      modifies this
      ensures View() == Take(old(View()), i, wanted) && ptr == FirstFree(old(View()), i)
    {
      hide Inv, Take, FirstFree, HeadWords, Addr, Link;
      ghost var s := View();
      TakePre(s, i, wanted);
      ghost var f := frees[i];
      assert prs[i].freelistOffset < PAGE_SIZE;
      var prpage := PageAddr(prs[i]);
      ptr := prpage + prs[i].freelistOffset;
      var fl := mem[ptr];
      var pr := prs[i].(nfree := prs[i].nfree - 1);
      if fl != 0 {
        assert pr.nfree > 0;
        assert fl - prpage < PAGE_SIZE;
        pr := pr.(freelistOffset := fl - prpage);
      } else {
        assert pr.nfree == 0;
        pr := pr.(freelistOffset := INVALID_OFFSET);
      }
      prs := prs[i := pr];
      live := live[ptr := Sub(i, f[0], wanted)];
      frees := frees[i := f[1..]];
    }

    /** The search of subpage_kmalloc: the first page on a size list that has a free block. */
    method FindPage(t: nat) returns (pr: int, ghost n: nat)
      requires Valid() && t < NSIZES
      ensures pr == NIL ==> forall i :: i in sames[t] ==> i < NPAGEREFS && prs[i].nfree == 0
      ensures pr != NIL ==> 0 <= pr < NPAGEREFS && prs[pr].nfree > 0 && n < |sames[t]| && sames[t][n] == pr
      ensures pr != NIL ==> forall k :: 0 <= k < n ==> sames[t][k] < NPAGEREFS && prs[sames[t][k]].nfree == 0
      ensures pr != NIL ==> FirstWithFree(prs, sames[t], pr)
    {
      hide Blocks, Complete, Used, Descs;
      ghost var l := sames[t];
      assert IsList(prs, Same, bases[t], l);
      pr := bases[t];
      n := 0;
      while pr != NIL
        invariant 0 <= n <= |l| && pr == (if n < |l| then l[n] else NIL)
        invariant forall k :: 0 <= k < n ==> l[k] < NPAGEREFS && prs[l[k]].nfree == 0
        decreases |l| - n
      {
        assert l[n] in sames[t] && BlockType(prs[l[n]]) == t;
        if prs[pr].nfree > 0 {
          return;
        }
        pr := prs[pr].nextSame;
        n := n + 1;
      }
    }

    /** subpage_kmalloc up to the point where the lock is dropped: a block of an existing
        page, or 0 when no page of the right type has one. */
    method SubpageFirst(sz: nat) returns (ptr: nat, ghost i: nat)
      requires Valid() && sz < LARGEST_SUBPAGE_SIZE
      modifies this
      ensures Valid()
      ensures ptr == 0 ==> View() == old(View()) && forall i :: i in sames[TypeFor(sz)] ==> i < NPAGEREFS && prs[i].nfree == 0
      ensures ptr != 0 ==> Took(old(View()), View(), i, sz, ptr) && FirstWithFree(old(prs), old(sames)[TypeFor(sz)], i)
    {
      hide IsList, Descs, Blocks, Complete, Used, FirstWithFree;
      i := 0;
      var blktype := BlockTypeOf(sz);
      var pr;
      ghost var n;
      pr, n := FindPage(blktype);
      if pr == NIL {
        return 0, i;
      }
      ghost var s := View();
      i := pr;
      PageHasFree(s, i, sz);
      hide *;
      ptr := TakeFrom(pr, sz);
    }

    /** Thread the free list of a fresh page through its blocks, the last one being its head,
        and describe the page. */
    method ThreadPage(page: nat, t: nat, same: int, all: int) returns (pr: PageRef)
      requires t < NSIZES && IsPage(page)
      modifies `mem
      ensures mem == InitLinks(old(mem), page, t, Count(t)) && pr == FreshRef(same, all, t, page)
    {
      var fl := page;
      assert Addr(page, t, 0) == page;
      mem := mem[fl := 0];
      var i := 1;
      while i < Count(t)
        invariant 1 <= i <= Count(t) && fl == Addr(page, t, i - 1)
        invariant mem == InitLinks(old(mem), page, t, i)
      {
        fl := Addr(page, t, i);
        Apart(page, t, i, i - 1);
        mem := mem[fl := Addr(page, t, i - 1)];
        assert fl != mem[fl];
        i := i + 1;
      }
      pr := PageRef(same, all, MkPab(page, t), fl - page, Count(t));
    }

    /** subpage_kmalloc after alloc_kpages handed over a page: install it and take a block, or
        give the page back when no descriptor is left. */
    method SubpageSecond(sz: nat, page: nat) returns (ptr: nat, ghost i: nat)
      requires Valid() && sz < LARGEST_SUBPAGE_SIZE && IsPage(page) && HeldBy(View(), page / PAGE_SIZE, InFlight)
      modifies this
      ensures Valid()
      ensures ptr == 0 ==> View() == Land(old(View()), page) && forall j: nat :: j < NPAGEREFS ==> Used(words, j)
      ensures ptr != 0 ==> CanInstall(old(View()), i, TypeFor(sz), page) &&
                           Took(Install(old(View()), i, TypeFor(sz), page), View(), i, sz, ptr)
    {
      hide Lists, Descs, Blocks, Complete, Addr, InitLinks, Take, Install, FirstFree, NoEmptyPage, Land, Took, CanInstall;
      i := 0;
      ghost var s := View();
      var blktype := BlockTypeOf(sz);
      var pr := AllocPageRef();
      if pr == NIL {
        LandValid(s, page);
        holder := holder - {page / PAGE_SIZE};
        return 0, i;
      }
      i := pr;
      SecondTake(s, i, sz, page);
      InstallPage(pr, blktype, page, s);
      ptr := TakeFrom(pr, sz);
    }

    /** Fill in descriptor pr for a fresh page and put it in front of its two lists. */
    method InstallPage(pr: nat, blktype: nat, page: nat, ghost s: State)
      requires CanInstall(s, pr, blktype, page) && SetBitOf(s.words, words, pr, true) && View() == s.(words := words)
      modifies this
      ensures View() == Install(s, pr, blktype, page)
    {
      hide Inv, CanInstall, NoEmptyPage, Used, Addr, InitLinks, Count, Down, FreshRef;
      InstallPre(s, pr, blktype, page);
      var ref := ThreadPage(page, blktype, bases[blktype], allbase);
      prs := prs[pr := ref];
      bases := bases[blktype := pr];
      allbase := pr;
      alls, sames, frees := [pr] + alls, sames[blktype := [pr] + sames[blktype]], frees[pr := Down(Count(blktype))];
      holder := holder[page / PAGE_SIZE := Desc(pr)];
    }

    // ---------------------------------------------------------------- freeing

    /** The search of subpage_kfree: the descriptor whose page holds ptr, or NIL. */
    method FindOwner(ptr: nat) returns (pr: int)
      requires Valid()
      ensures pr == NIL ==> forall i :: i in alls ==> i < NPAGEREFS && !(PageAddr(prs[i]) <= ptr < PageAddr(prs[i]) + PAGE_SIZE)
      ensures pr != NIL ==> 0 <= pr < NPAGEREFS && pr in alls && PageAddr(prs[pr]) <= ptr < PageAddr(prs[pr]) + PAGE_SIZE
    {
      hide Blocks, Complete, Used;
      ghost var l := alls;
      pr := allbase;
      ghost var n := 0;
      while pr != NIL
        invariant 0 <= n <= |l| && pr == (if n < |l| then l[n] else NIL)
        invariant forall k :: 0 <= k < n ==> l[k] < NPAGEREFS && !(PageAddr(prs[l[k]]) <= ptr < PageAddr(prs[l[k]]) + PAGE_SIZE)
        decreases |l| - n
      {
        assert l[n] in alls && DescOk(View(), l[n]);
        var prpage, blktype := PageAddr(prs[pr]), BlockType(prs[pr]);
        assert blktype < NSIZES;
        if prpage <= ptr < prpage + PAGE_SIZE {
          return;
        }
        pr := prs[pr].nextAll;
        n := n + 1;
      }
    }

    /** fill_deadbeef. */
    method FillDeadbeef(ptr: nat, len: nat)
      modifies `mem
      ensures mem == Fill(old(mem), ptr, len / 4)
    {
      var i := 0;
      while i < len / 4
        invariant 0 <= i <= len / 4 && mem == Fill(old(mem), ptr, i)
      {
        mem := mem[ptr + 4 * i := 0xdeadbeef];
        i := i + 1;
      }
    }

    /** Put the block at ptr back on the free list of descriptor pr. */
    method PutBack(pr: nat, ptr: nat)
      requires Valid() && ptr in live && live[ptr].Sub? && live[ptr].desc == pr
      modifies this
      ensures View() == Release(old(View()), ptr)
    {
      hide Inv, NoEmptyPage, Release, Fill, Size;
      ghost var s := View();
      PutBackPre(s, ptr);
      var prpage, blktype := PageAddr(prs[pr]), BlockType(prs[pr]);
      var offset := ptr - prpage;
      assert offset < PAGE_SIZE && offset % Size(blktype) == 0;
      FillDeadbeef(ptr, Size(blktype));
      mem := mem[ptr := if prs[pr].freelistOffset == INVALID_OFFSET then 0 else prpage + prs[pr].freelistOffset];
      prs := prs[pr := prs[pr].(freelistOffset := offset, nfree := prs[pr].nfree + 1)];
      frees := frees[pr := [live[ptr].index] + frees[pr]];
      live := live - {ptr};
    }

    /** remove_lists: cut a descriptor out of the list of its size and of the list of all. */
    method RemoveLists(pr: nat, blktype: nat, ghost ks: nat, ghost ka: nat)
      requires blktype < NSIZES && |bases| == NSIZES && |sames| == NSIZES
      requires IsList(prs, Same, bases[blktype], sames[blktype]) && ks < |sames[blktype]| && sames[blktype][ks] == pr
      requires IsList(prs, All, allbase, alls) && ka < |alls| && alls[ka] == pr
      modifies `prs, `bases, `allbase
      ensures |CutPrs(old(prs), Same, sames[blktype], ks)| == |old(prs)|
      ensures prs == CutPrs(CutPrs(old(prs), Same, sames[blktype], ks), All, alls, ka)
      ensures bases == old(bases)[blktype := CutBase(old(bases)[blktype], sames[blktype], ks)]
      ensures allbase == CutBase(old(allbase), alls, ka)
    {
      ghost var was := prs;
      assert ka > 0 ==> alls[ka - 1] < |prs|;
      hide IsList;
      var base := RemoveFrom(Same, bases[blktype], pr, sames[blktype], ks);
      bases := bases[blktype := base];
      ListFrame(was, prs, All, allbase, alls);
      allbase := RemoveFrom(All, allbase, pr, alls, ka);
    }

    /** remove_lists and freepageref, for a page that is all free. */
    method DropPage(pr: nat, blktype: nat, ghost ks: nat, ghost ka: nat)
      requires CanDrop(View(), pr, ks, ka) && blktype == BlockType(prs[pr])
      modifies this
      ensures View() == Drop(old(View()), pr, ks, ka)
    {
      hide Lists, Descs, Blocks, Complete, IsList, Used, Count, CutPrs, CutBase, Without, Inv;
      ghost var s := View();
      DropPre(s, pr, ks, ka);
      RemoveLists(pr, blktype, ks, ka);
      FreePageRef(pr);
      alls, sames, frees := Without(alls, ka), sames[blktype := Without(sames[blktype], ks)], frees[pr := []];
      holder := holder - {PageAddr(s.prs[pr]) / PAGE_SIZE};
    }

    /** subpage_kfree: 0 when ptr is one of this allocator's blocks, which is then put back,
        and -1, with nothing changed, when it is not. */
    method SubpageKfree(ptr: nat) returns (r: int)
      requires Valid() && ptr in live
      modifies this
      ensures Valid()
      ensures old(live)[ptr].Sub? ==> r == 0 && View() == FreeSub(old(View()), ptr)
      ensures old(live)[ptr].Big? ==> r == -1 && View() == old(View())
    {
      hide Inv, NoEmptyPage, FreeSub, Release, Drop, CanDrop, Find, Count;
      ghost var s := View();
      var pr := FindOwner(ptr);
      OwnerIs(s, ptr, pr);
      if pr == NIL {
        return -1;
      }
      FreeSubKeeps(s, ptr);
      FreeSubCases(s, ptr);
      var blktype := BlockType(prs[pr]);
      PutBack(pr, ptr);
      assert prs[pr].nfree <= Count(blktype);
      if prs[pr].nfree == Count(blktype) {
        DropPage(pr, blktype, Find(sames[blktype], pr), Find(alls, pr));
      }
      return 0;
    }

    /** kfree: every live pointer goes back the way it came; NULL is ignored. */
    method Kfree(ptr: nat)
      requires Valid() && (ptr == 0 || ptr in live)
      modifies this
      ensures Valid()
      ensures ptr == 0 ==> View() == old(View())
      ensures ptr != 0 && old(live)[ptr].Sub? ==> View() == FreeSub(old(View()), ptr)
      ensures ptr != 0 && old(live)[ptr].Big? ==> View() == FreeBig(old(View()), ptr)
      ensures ptr != 0 ==> live == old(live) - {ptr}
    {
      ghost var s := View();
      if ptr == 0 {
        return;
      }
      LiveGood(s, ptr);
      if live[ptr].Sub? { FreeSubKeeps(s, ptr); } else { FreeBigValid(s, ptr); }
      hide Inv, NoEmptyPage, FreeSub, Extent;
      var r := SubpageKfree(ptr);
      if r != 0 {
        assert ptr % PAGE_SIZE == 0;
        holder := holder - PageNos(ptr, live[ptr].npages);
        live := live - {ptr};
      }
    }

    /** kmalloc of a request too large for a subpage; `address` is what alloc_kpages returned. */
    method KmallocPages(sz: nat, address: nat) returns (ptr: nat)
      requires Valid() && sz >= LARGEST_SUBPAGE_SIZE
      requires address == 0 || Fresh(View(), address, (sz + PAGE_SIZE - 1) / PAGE_SIZE)
      modifies this
      ensures Valid() && ptr == address
      ensures ptr == 0 ==> View() == old(View())
      ensures ptr != 0 ==> View() == GiveBig(old(View()), ptr, (sz + PAGE_SIZE - 1) / PAGE_SIZE, sz) && ptr !in old(live)
    {
      var npages := (sz + PAGE_SIZE - 1) / PAGE_SIZE;
      if address == 0 {
        return 0;
      }
      GiveBigValid(View(), address, npages, sz);
      hide Inv, NoEmptyPage;
      holder := holder + map q | q in PageNos(address, npages) :: BigAt(address);
      live := live[address := Big(npages, sz)];
      return address;
    }
  }

  /** What the first two words of a free list say: where the head is, and what comes next. */
  ghost predicate HeadWords(mem: Memory, page: nat, t: nat, offset: nat, f: seq<nat>)
    requires t < NSIZES && f != []
  {
    && offset < PAGE_SIZE && page + offset == Addr(page, t, f[0]) && page + offset in mem
    && (if |f| > 1 then mem[page + offset] == Addr(page, t, f[1]) && page <= mem[page + offset] < page + PAGE_SIZE
        else mem[page + offset] == 0)
  }

  lemma NextFree(mem: Memory, page: nat, t: nat, offset: nat, f: seq<nat>)
    requires t < NSIZES && IsPage(page) && f != [] && FreeChain(mem, page, t, offset, f)
    ensures HeadWords(mem, page, t, offset, f)
  {
    hide Addr, Count, Size;
    OnPage(page, t, f[0]);
    if |f| > 1 { OnPage(page, t, f[1]); }
  }

  /** A block of descriptor i, which was not handed out before, was taken for sz bytes. */
  ghost predicate Took(s: State, s': State, i: nat, sz: nat, ptr: nat) {
    CanTake(s, i, sz) && i in s.alls && s' == Take(s, i, sz) && ptr == FirstFree(s, i) && ptr !in s.live
  }

  lemma PageHasFree(s: State, i: nat, sz: nat)
    requires Inv(s) && NoEmptyPage(s) && TypeFor(sz) < NSIZES && i in s.sames[TypeFor(sz)] && i < NPAGEREFS && s.prs[i].nfree > 0
    ensures i in s.alls && s.frees[i] != [] && Inv(Take(s, i, sz)) && NoEmptyPage(Take(s, i, sz))
    ensures FirstFree(s, i) > 0 && Took(s, Take(s, i, sz), i, sz, FirstFree(s, i))
  {
    assert i in s.alls && DescOk(s, i);
    forall j | j in s.alls && j != i ensures BlockType(s.prs[j]) < NSIZES { assert DescOk(s, j); }
    TakeNoEmpty(s, i, sz);
  }

  lemma LandValid(s: State, page: nat)
    requires Inv(s) && NoEmptyPage(s) && HeldBy(s, page / PAGE_SIZE, InFlight)
    ensures Inv(Land(s, page)) && NoEmptyPage(Land(s, page))
    ensures Land(s, page) == s.(holder := s.holder - {page / PAGE_SIZE})
  {
    LandKeeps(s, page);
  }

  lemma SecondTake(s: State, i: nat, sz: nat, page: nat)
    requires Inv(s) && NoEmptyPage(s) && sz < LARGEST_SUBPAGE_SIZE
    requires IsPage(page) && HeldBy(s, page / PAGE_SIZE, InFlight) && i < NPAGEREFS && !Used(s.words, i)
    ensures CanInstall(s, i, TypeFor(sz), page)
    ensures var m := Install(s, i, TypeFor(sz), page);
      Inv(m) && i in m.alls && m.frees[i] != [] && FirstFree(m, i) > 0 &&
      Took(m, Take(m, i, sz), i, sz, FirstFree(m, i)) && Inv(Take(m, i, sz)) && NoEmptyPage(Take(m, i, sz))
  {
    var t := TypeFor(sz);
    InstallKeeps(s, i, t, page);
    InstallEmpty(s, i, t, page);
    TakeNoEmpty(Install(s, i, t, page), i, sz);
  }

  /** freelist_offset names the head of the free list. */
  lemma NextLink(s: State, i: nat)
    requires Inv(s) && i in s.alls && i < NPAGEREFS && DescOk(s, i)
    ensures var pr := s.prs[i];
      (if pr.freelistOffset == INVALID_OFFSET then 0 else PageAddr(pr) + pr.freelistOffset) ==
      Link(PageAddr(pr), BlockType(pr), s.frees[i], 0)
  {
    hide IsList, Lists, Blocks, Complete, Used, Addr, Count, Size;
    if s.frees[i] != [] { Located(s, i, s.frees[i][0]); }
  }

  lemma DropPre(s: State, i: nat, ks: nat, ka: nat)
    requires CanDrop(s, i, ks, ka)
    ensures Shape(s) && Used(s.words, i) && ListBounds(s)
    ensures IsList(s.prs, Same, s.bases[BlockType(s.prs[i])], s.sames[BlockType(s.prs[i])])
    ensures IsList(s.prs, All, s.allbase, s.alls)
  {
    InListBounds(s);
    assert i in s.alls;
  }

  /** The page search finds a live subpage block's own descriptor, and nothing for a
      whole-page block. */
  lemma OwnerIs(s: State, ptr: nat, pr: int)
    requires Inv(s) && ptr in s.live
    requires pr == NIL ==> forall i :: i in s.alls ==> i < NPAGEREFS && !(PageAddr(s.prs[i]) <= ptr < PageAddr(s.prs[i]) + PAGE_SIZE)
    requires pr != NIL ==> 0 <= pr < NPAGEREFS && pr in s.alls && PageAddr(s.prs[pr]) <= ptr < PageAddr(s.prs[pr]) + PAGE_SIZE
    ensures s.live[ptr].Sub? <==> pr != NIL
    ensures s.live[ptr].Sub? ==> s.live[ptr].desc == pr
  {
    hide IsList, Lists, Complete, Used, Addr, Count, Size, FreeChain;
    Bounded(s);
    LiveHeld(s, ptr);
    assert BlockOk(s, ptr, s.live[ptr]);
    if s.live[ptr].Sub? {
      assert DescOk(s, s.live[ptr].desc);
      Located(s, s.live[ptr].desc, s.live[ptr].index);
    }
    if pr != NIL {
      assert DescOk(s, pr);
      SamePage(PageAddr(s.prs[pr]), ptr);
    }
  }

  /** The two outcomes of putting a block back. */
  lemma FreeSubCases(s: State, p: nat)
    requires Inv(s) && NoEmptyPage(s) && p in s.live && s.live[p].Sub?
    ensures var r, i := Release(s, p), s.live[p].desc;
      && |s.prs| == NPAGEREFS && i < NPAGEREFS && |r.prs| == NPAGEREFS && BlockType(r.prs[i]) == BlockType(s.prs[i]) < NSIZES
      && |r.sames| == NSIZES && i in r.alls && i in r.sames[BlockType(r.prs[i])]
      && r.prs[i].nfree <= Count(BlockType(r.prs[i]))
      && (r.prs[i].nfree < Count(BlockType(r.prs[i])) ==> FreeSub(s, p) == r)
      && (r.prs[i].nfree == Count(BlockType(r.prs[i])) ==>
            var ks, ka := Find(r.sames[BlockType(r.prs[i])], i), Find(r.alls, i);
            CanDrop(r, i, ks, ka) && FreeSub(s, p) == Drop(r, i, ks, ka))
  {
    ReleaseKeeps(s, p);
    FreedDesc(s, p);
    assert BlockOk(s, p, s.live[p]);
    assert DescOk(Release(s, p), s.live[p].desc);
  }

  lemma FreeBigValid(s: State, p: nat)
    requires Inv(s) && NoEmptyPage(s) && p in s.live && s.live[p].Big?
    ensures Inv(FreeBig(s, p)) && NoEmptyPage(FreeBig(s, p))
  {
    FreeBigKeeps(s, p);
  }

  lemma GiveBigValid(s: State, p: nat, n: nat, wanted: nat)
    requires Inv(s) && NoEmptyPage(s) && Fresh(s, p, n) && wanted <= n * PAGE_SIZE
    ensures Inv(GiveBig(s, p, n, wanted)) && NoEmptyPage(GiveBig(s, p, n, wanted)) && p !in s.live
  {
    GiveBigKeeps(s, p, n, wanted);
  }

  // ---------------------------------------------------------------- all runs

  /** One section of some call, in any interleaving: the two lock sections of a small kmalloc
      with an alloc_kpages between them, a large kmalloc, a kfree of a live block, and clients
      storing into live blocks. */
  datatype Event =
    | First(sz: nat, i: nat)
    | GetPage(page: nat)
    | Second(sz: nat, i: nat, page: nat)
    | GiveUp(page: nat)
    | Pages(sz: nat, page: nat)
    | Free(ptr: nat)
    | StoreWord(ptr: nat, a: nat, v: nat)

  ghost predicate Step(s: State, e: Event, s': State)
    requires Inv(s) && NoEmptyPage(s)
  {
    match e
    case First(sz, i) => sz < LARGEST_SUBPAGE_SIZE && CanTake(s, i, sz) && i in s.alls && s' == Take(s, i, sz)
    case GetPage(page) => Fresh(s, page, 1) && s' == Fly(s, page)
    case Second(sz, i, page) =>
      sz < LARGEST_SUBPAGE_SIZE && CanInstall(s, i, TypeFor(sz), page) && s' == InstallTake(s, i, sz, page)
    case GiveUp(page) => HeldBy(s, page / PAGE_SIZE, InFlight) && s' == Land(s, page)
    case Pages(sz, page) =>
      var n := (sz + PAGE_SIZE - 1) / PAGE_SIZE;
      sz >= LARGEST_SUBPAGE_SIZE && Fresh(s, page, n) && s' == GiveBig(s, page, n, sz)
    case Free(p) => p in s.live && s' == if s.live[p].Sub? then FreeSub(s, p) else FreeBig(s, p)
    case StoreWord(p, a, v) => p in s.live && p <= a < p + Extent(s, p) && s' == Store(s, a, v)
  }

  lemma StepKeeps(s: State, e: Event, s': State)
    requires Inv(s) && NoEmptyPage(s) && Step(s, e, s')
    ensures Inv(s') && NoEmptyPage(s')
  {
    hide Inv, NoEmptyPage, Take, Fly, InstallTake, Land, GiveBig, FreeSub, FreeBig, Store, Extent, Fresh, CanInstall, CanTake;
    match e
    case First(sz, i) => FirstKeeps(s, i, sz);
    case GetPage(page) => FlyValid(s, page);
    case Second(sz, i, page) => InstallTakeKeeps(s, i, sz, page);
    case GiveUp(page) => LandValid(s, page);
    case Pages(sz, page) => GiveBigValid(s, page, (sz + PAGE_SIZE - 1) / PAGE_SIZE, sz);
    case Free(p) => FreeKeeps(s, p);
    case StoreWord(p, a, v) => StoreValid(s, p, a, v);
  }

  lemma FreeKeeps(s: State, p: nat)
    requires Inv(s) && NoEmptyPage(s) && p in s.live
    ensures s.live[p].Sub? ==> Inv(FreeSub(s, p)) && NoEmptyPage(FreeSub(s, p))
    ensures s.live[p].Big? ==> Inv(FreeBig(s, p)) && NoEmptyPage(FreeBig(s, p))
  {
    hide Inv, NoEmptyPage, FreeSub, FreeBig;
    if s.live[p].Sub? { FreeSubKeeps(s, p); } else { FreeBigValid(s, p); }
  }

  lemma FlyValid(s: State, page: nat)
    requires Inv(s) && NoEmptyPage(s) && Fresh(s, page, 1)
    ensures Inv(Fly(s, page)) && NoEmptyPage(Fly(s, page))
  {
    FlyKeeps(s, page);
  }

  lemma StoreValid(s: State, p: nat, a: nat, v: nat)
    requires Inv(s) && NoEmptyPage(s) && p in s.live && p <= a < p + Extent(s, p)
    ensures Inv(Store(s, a, v)) && NoEmptyPage(Store(s, a, v))
  {
    StoreKeeps(s, p, a, v);
  }

  lemma FirstKeeps(s: State, i: nat, sz: nat)
    requires Inv(s) && NoEmptyPage(s) && CanTake(s, i, sz) && i in s.alls
    ensures Inv(Take(s, i, sz)) && NoEmptyPage(Take(s, i, sz))
  {
    assert DescOk(s, i);
    hide FreeChain, Blocks, Complete, Used, Addr;
    PageHasFree(s, i, sz);
  }

  ghost function Empty(mem: Memory): State {
    State(seq(NPAGEREFS, _ => PageRef(NIL, NIL, 0, 0, 0)), seq(INUSE_WORDS, _ => seq(WORD_BITS, _ => false)),
          seq(NSIZES, _ => NIL), NIL, mem, [], seq(NSIZES, _ => []), seq(NPAGEREFS, _ => []), map[], map[])
  }

  /** Event e leads from p to s. */
  ghost predicate Follows(p: State, e: Event, s: State) {
    Inv(p) && NoEmptyPage(p) ==> Step(p, e, s)
  }

  /** The states a heap can be in after n sections. */
  ghost predicate Reaches(s: State, n: nat)
    decreases n
  {
    if n == 0 then exists mem :: s == Empty(mem)
    else exists p, e :: Reaches(p, n - 1) && Follows(p, e, s)
  }

  lemma EmptyIsValid(mem: Memory)
    ensures Inv(Empty(mem)) && NoEmptyPage(Empty(mem))
  {
  }

  /** In every run, after every section, the invariant holds; so live blocks are disjoint,
      large enough and aligned. */
  lemma {:induction false} EveryRun(s: State, n: nat)
    requires Reaches(s, n)
    ensures Inv(s) && NoEmptyPage(s)
    ensures forall p :: p in s.live ==> Extent(s, p) >= s.live[p].wanted && p % 16 == 0
    ensures forall p, q :: p in s.live && q in s.live && p != q ==> p + Extent(s, p) <= q || q + Extent(s, q) <= p
    decreases n
  {
    if n == 0 {
      var mem :| s == Empty(mem);
      EmptyIsValid(mem);
    } else {
      var p, e :| Reaches(p, n - 1) && Follows(p, e, s);
      EveryRun(p, n - 1);
      StepKeeps(p, e, s);
    }
    hide Inv;
    forall p | p in s.live ensures Extent(s, p) >= s.live[p].wanted && p % 16 == 0 {
      LiveGood(s, p);
      SixteenAligned(s, p);
    }
    forall p, q | p in s.live && q in s.live && p != q ensures p + Extent(s, p) <= q || q + Extent(s, q) <= p {
      LiveDisjoint(s, p, q);
    }
  }

  lemma SixteenAligned(s: State, p: nat)
    requires Inv(s) && p in s.live
    requires s.live[p].Sub? ==> Extent(s, p) > 0 && p % Extent(s, p) == 0
    requires s.live[p].Big? ==> p % PAGE_SIZE == 0
    ensures p % 16 == 0
  {
    hide IsList, Complete, FreeChain, Size;
    Bounded(s);
    assert BlockOk(s, p, s.live[p]);
    if s.live[p].Sub? {
      SizeSixteen(p, BlockType(s.prs[s.live[p].desc]));
    }
  }

  /** Release, in the terms of subpage_kfree. */
  lemma PutBackPre(s: State, ptr: nat)
    requires Inv(s) && ptr in s.live && s.live[ptr].Sub?
    ensures var i := s.live[ptr].desc;
      && |s.prs| == |s.frees| == NPAGEREFS && i < NPAGEREFS && BlockType(s.prs[i]) < NSIZES
      && PageAddr(s.prs[i]) <= ptr < PageAddr(s.prs[i]) + PAGE_SIZE
      && (ptr - PageAddr(s.prs[i])) % Size(BlockType(s.prs[i])) == 0
      && Release(s, ptr) ==
         var pr := s.prs[i];
         s.(prs := s.prs[i := pr.(freelistOffset := ptr - PageAddr(pr), nfree := pr.nfree + 1)],
            mem := Fill(s.mem, ptr, Size(BlockType(pr)) / 4)
                     [ptr := if pr.freelistOffset == INVALID_OFFSET then 0 else PageAddr(pr) + pr.freelistOffset],
            frees := s.frees[i := [s.live[ptr].index] + s.frees[i]],
            live := s.live - {ptr})
  {
    hide IsList, Lists, Complete, Used, Addr, Fill, FreeChain, Count, Size;
    Bounded(s);
    assert BlockOk(s, ptr, s.live[ptr]);
    var i := s.live[ptr].desc;
    assert DescOk(s, i);
    Located(s, i, s.live[ptr].index);
    OnPage(PageAddr(s.prs[i]), BlockType(s.prs[i]), s.live[ptr].index);
    NextLink(s, i);
  }

  /** Take, in the terms of subpage_kmalloc: ptr is what freelist_offset names, and the word
      there names the next free block. */
  ghost predicate TakeFacts(s: State, i: nat, wanted: nat, ptr: nat, s': State)
    requires Shape(s) && i < NPAGEREFS && s.frees[i] != []
  {
    var pr, f := s.prs[i], s.frees[i];
    && pr.freelistOffset < PAGE_SIZE && ptr == PageAddr(pr) + pr.freelistOffset && ptr in s.mem && pr.nfree > 0
    && (s.mem[ptr] != 0 ==> pr.nfree > 1 && PageAddr(pr) <= s.mem[ptr] < PageAddr(pr) + PAGE_SIZE)
    && (s.mem[ptr] == 0 ==> pr.nfree == 1)
    && s' == s.(prs := s.prs[i := pr.(nfree := pr.nfree - 1,
                                      freelistOffset := if s.mem[ptr] != 0 then s.mem[ptr] - PageAddr(pr) else INVALID_OFFSET)],
                frees := s.frees[i := f[1..]],
                live := s.live[ptr := Sub(i, f[0], wanted)])
  }

  lemma TakePre(s: State, i: nat, wanted: nat)
    requires Inv(s) && i < NPAGEREFS && i in s.alls && s.frees[i] != []
    ensures Shape(s) && TakeFacts(s, i, wanted, FirstFree(s, i), Take(s, i, wanted))
  {
    hide IsList, Lists, Blocks, Complete, Used, Count, Size, Addr;
    Bounded(s);
    assert DescOk(s, i);
    NextFree(s.mem, PageAddr(s.prs[i]), BlockType(s.prs[i]), s.prs[i].freelistOffset, s.frees[i]);
    hide FreeChain;
  }
}
