/** What each lock-protected section of kern/vm/kmalloc.c does to the heap, as functions on
    states, and that every one of them keeps the invariant. */
module HeapSteps {
  import opened Geometry
  import opened Sequences
  import opened HeapState

  lemma Bounded(s: State)
    requires Shape(s) && Lists(s)
    ensures forall i :: i in s.alls ==> i < NPAGEREFS
  {
  }

  // ------------------------------------------------------------ separation

  /** No two blocks of descriptors in use share an address. */
  lemma AddrUnique(s: State, i: nat, k: nat, j: nat, m: nat)
    requires Shape(s) && Lists(s) && Descs(s) && i in s.alls && j in s.alls
    requires k < Count(BlockType(s.prs[i])) && m < Count(BlockType(s.prs[j]))
    requires BlockAddr(s, i, k) == BlockAddr(s, j, m)
    ensures i == j && k == m
  {
    assert DescOk(s, i) && DescOk(s, j);
    Located(s, i, k);
    Located(s, j, m);
    if k != m {
      Apart(PageAddr(s.prs[i]), BlockType(s.prs[i]), k, m);
      assert false;
    }
  }

  /** A block's address has the page number that its descriptor holds. */
  lemma Located(s: State, i: nat, k: nat)
    requires Shape(s) && i < NPAGEREFS && DescOk(s, i) && k < Count(BlockType(s.prs[i]))
    ensures HeldBy(s, BlockAddr(s, i, k) / PAGE_SIZE, Desc(i))
    ensures PageAddr(s.prs[i]) <= BlockAddr(s, i, k) <= PageAddr(s.prs[i]) + PAGE_SIZE - Size(BlockType(s.prs[i]))
  {
    var pr := s.prs[i];
    OnPage(PageAddr(pr), BlockType(pr), k);
    SamePage(PageAddr(pr), BlockAddr(s, i, k));
  }

  /** A block stays good while its descriptor keeps its page and the page's other free
      blocks do not grow. */
  lemma BlockFrame(s: State, s': State, p: nat, b: Block)
    requires Shape(s) && Lists(s) && Descs(s) && Shape(s') && Lists(s') && Descs(s')
    requires BlockOk(s, p, b)
    requires b.Sub? ==> b.desc in s'.alls && s'.prs[b.desc].pab == s.prs[b.desc].pab &&
                        (b.index in s'.frees[b.desc] ==> b.index in s.frees[b.desc])
    requires b.Big? ==> forall q :: q in s.holder && s.holder[q] == BigAt(p) ==> q in s'.holder && s'.holder[q] == BigAt(p)
    ensures BlockOk(s', p, b)
  {
    hide IsList, Lists, DescOk, Addr;
    Bounded(s');
    if b.Big? {
      forall q | p / PAGE_SIZE <= q < p / PAGE_SIZE + b.npages ensures HeldBy(s', q, BigAt(p)) {
        assert HeldBy(s, q, BigAt(p));
      }
    }
  }

  // ------------------------------------------------------------- doalloc

  /** The block that a descriptor hands out next. */
  ghost function FirstFree(s: State, i: nat): nat
    requires Inv(s) && i in s.alls && s.frees[i] != []
  {
    assert DescOk(s, i);
    BlockAddr(s, i, s.frees[i][0])
  }

  /** `doalloc`: take the first free block of descriptor i. */
  ghost function Take(s: State, i: nat, wanted: nat): State
    requires Inv(s) && i in s.alls && s.frees[i] != []
  {
    assert DescOk(s, i);
    var pr, f := s.prs[i], s.frees[i];
    var offset := if |f| > 1 then BlockAddr(s, i, f[1]) - PageAddr(pr) else INVALID_OFFSET;
    s.(prs := s.prs[i := pr.(nfree := pr.nfree - 1, freelistOffset := offset)],
       frees := s.frees[i := f[1..]],
       live := s.live[FirstFree(s, i) := Sub(i, f[0], wanted)])
  }

  lemma TakeLists(s: State, i: nat, wanted: nat)
    requires Inv(s) && i in s.alls && s.frees[i] != []
    ensures Shape(Take(s, i, wanted)) && Lists(Take(s, i, wanted))
  {
    assert DescOk(s, i);
    hide Addr, Count, Size, FreeChain, Blocks, Complete, Used, IsList;
    SameLinks(s, Take(s, i, wanted));
  }

  /** Changes that leave links and types alone keep the lists. */
  lemma SameLinks(s: State, s': State)
    requires Shape(s) && Lists(s) && Shape(s')
    requires s'.words == s.words && s'.bases == s.bases && s'.allbase == s.allbase && s'.alls == s.alls && s'.sames == s.sames
    requires forall j :: 0 <= j < NPAGEREFS ==>
      s'.prs[j].nextSame == s.prs[j].nextSame && s'.prs[j].nextAll == s.prs[j].nextAll && s'.prs[j].pab == s.prs[j].pab
    ensures Lists(s')
  {
    hide Used, IsList;
    ListFrame(s.prs, s'.prs, All, s.allbase, s.alls);
    forall t | 0 <= t < NSIZES ensures IsList(s'.prs, Same, s'.bases[t], s'.sames[t]) {
      ListFrame(s.prs, s'.prs, Same, s.bases[t], s.sames[t]);
    }
    Bounded(s);
  }

  /** Dropping the head of a free list leaves a free list. */
  lemma ChainTail(mem: Memory, page: nat, t: nat, offset: nat, f: seq<nat>)
    requires t < NSIZES && f != [] && FreeChain(mem, page, t, offset, f)
    ensures FreeChain(mem, page, t, if |f| > 1 then Addr(page, t, f[1]) - page else INVALID_OFFSET, f[1..])
  {
    var g := f[1..];
    forall k | 0 <= k < |g|
      ensures g[k] < Count(t) && Addr(page, t, g[k]) in mem && mem[Addr(page, t, g[k])] == Link(page, t, g, k + 1)
    {
      assert g[k] == f[k + 1];
    }
  }

  lemma TakeDescs(s: State, i: nat, wanted: nat)
    requires Inv(s) && i in s.alls && s.frees[i] != []
    requires Shape(Take(s, i, wanted)) && Lists(Take(s, i, wanted))
    ensures Descs(Take(s, i, wanted))
  {
    hide IsList, FreeChain, Blocks, Complete, Addr, Count, Size;
    var s' := Take(s, i, wanted);
    forall j | j in s'.alls ensures DescOk(s', j) {
      assert DescOk(s, j);
      if j == i {
        ChainTail(s.mem, PageAddr(s.prs[i]), BlockType(s.prs[i]), s.prs[i].freelistOffset, s.frees[i]);
      }
    }
  }

  lemma TakenBlock(s: State, i: nat)
    requires Inv(s) && i in s.alls && s.frees[i] != [] && BlockType(s.prs[i]) < NSIZES
    ensures s.frees[i][0] < Count(BlockType(s.prs[i])) && s.frees[i][0] !in s.frees[i][1..]
  {
    assert DescOk(s, i);
  }

  lemma TakeBlocks(s: State, i: nat, wanted: nat)
    requires Inv(s) && i in s.alls && s.frees[i] != [] && BlockType(s.prs[i]) < NSIZES && wanted <= Size(BlockType(s.prs[i]))
    requires Shape(Take(s, i, wanted)) && Lists(Take(s, i, wanted)) && Descs(Take(s, i, wanted))
    ensures Blocks(Take(s, i, wanted)) && Complete(Take(s, i, wanted))
  {
    hide IsList, Addr, Count, Size, Lists;
    Bounded(s);
    var s' := Take(s, i, wanted);
    assert DescOk(s, i);
    var f := s.frees[i];
    assert f == [f[0]] + f[1..];
    TakenBlock(s, i);
    forall p | p in s'.live ensures BlockOk(s', p, s'.live[p]) {
      if p != FirstFree(s, i) {
        BlockFrame(s, s', p, s.live[p]);
      }
    }
    forall j, k: nat | j in s'.alls && k < Count(BlockType(s'.prs[j])) ensures Accounted(s', j, k) {
      assert Accounted(s, j, k);
      if BlockAddr(s, j, k) == FirstFree(s, i) {
        AddrUnique(s, j, k, i, f[0]);
      } else if j == i && k in f {
        assert k != f[0];
      }
    }
  }

  lemma TakeKeeps(s: State, i: nat, wanted: nat)
    requires Inv(s) && i in s.alls && s.frees[i] != [] && BlockType(s.prs[i]) < NSIZES && wanted <= Size(BlockType(s.prs[i]))
    ensures Inv(Take(s, i, wanted))
  {
    hide *;
    TakeLists(s, i, wanted);
    TakeDescs(s, i, wanted);
    TakeBlocks(s, i, wanted);
    TakeAll(Take(s, i, wanted));
  }

  lemma TakeAll(s: State)
    requires Shape(s) && Lists(s) && Descs(s) && Blocks(s) && Complete(s)
    ensures Inv(s)
  {
  }

  // ------------------------------------------------------- memory updates

  /** fill_deadbeef over n words from a. */
  function Fill(mem: Memory, a: nat, n: nat): Memory {
    if n == 0 then mem else Fill(mem, a, n - 1)[a + 4 * (n - 1) := 0xdeadbeef]
  }

  lemma {:induction false} FillOutside(mem: Memory, a: nat, n: nat, x: nat)
    requires x < a || a + 4 * n <= x
    ensures (x in Fill(mem, a, n) <==> x in mem) && (x in mem ==> Fill(mem, a, n)[x] == mem[x])
  {
    if n > 0 { FillOutside(mem, a, n - 1, x); }
  }

  /** Memory that changed only inside [a, a + len). */
  ghost predicate ChangedWithin(mem: Memory, mem': Memory, a: nat, len: nat) {
    forall x :: x in mem && (x < a || a + len <= x) ==> x in mem' && mem'[x] == mem[x]
  }

  lemma FillWithin(mem: Memory, a: nat, n: nat)
    ensures ChangedWithin(mem, Fill(mem, a, n), a, 4 * n)
  {
    forall x | x in mem && (x < a || a + 4 * n <= x) ensures x in Fill(mem, a, n) && Fill(mem, a, n)[x] == mem[x] {
      FillOutside(mem, a, n, x);
    }
  }

  /** A free list whose blocks' first words did not change. */
  lemma ChainFrame(mem: Memory, mem': Memory, page: nat, t: nat, offset: nat, f: seq<nat>)
    requires t < NSIZES && FreeChain(mem, page, t, offset, f)
    requires forall k :: 0 <= k < |f| ==> Addr(page, t, f[k]) in mem' && mem'[Addr(page, t, f[k])] == mem[Addr(page, t, f[k])]
    ensures FreeChain(mem', page, t, offset, f)
  {
  }

  /** Changes inside one block, which is not free, disturb no free list. */
  lemma DescFrame(s: State, mem': Memory, i: nat, k: nat, j: nat)
    requires Shape(s) && Lists(s) && Descs(s) && i in s.alls && j in s.alls
    requires BlockType(s.prs[i]) < NSIZES && BlockType(s.prs[j]) < NSIZES
    requires k < Count(BlockType(s.prs[i])) && (i == j ==> k !in s.frees[j])
    requires ChangedWithin(s.mem, mem', BlockAddr(s, i, k), Size(BlockType(s.prs[i])))
    ensures FreeChain(mem', PageAddr(s.prs[j]), BlockType(s.prs[j]), s.prs[j].freelistOffset, s.frees[j])
  {
    hide IsList, Addr, Count, Size, Lists;
    Bounded(s);
    assert DescOk(s, i) && DescOk(s, j);
    var page, t, f := PageAddr(s.prs[j]), BlockType(s.prs[j]), s.frees[j];
    Located(s, i, k);
    forall m | 0 <= m < |f| ensures Addr(page, t, f[m]) in mem' && mem'[Addr(page, t, f[m])] == s.mem[Addr(page, t, f[m])] {
      OutsideBlock(s, i, k, j, f[m]);
    }
    ChainFrame(s.mem, mem', page, t, s.prs[j].freelistOffset, f);
  }

  /** The first word of another block is outside block k of i. */
  lemma OutsideBlock(s: State, i: nat, k: nat, j: nat, m: nat)
    requires Shape(s) && Lists(s) && Descs(s) && i in s.alls && j in s.alls
    requires BlockType(s.prs[i]) < NSIZES && BlockType(s.prs[j]) < NSIZES
    requires k < Count(BlockType(s.prs[i])) && m < Count(BlockType(s.prs[j])) && (i == j ==> k != m)
    ensures BlockAddr(s, j, m) < BlockAddr(s, i, k) || BlockAddr(s, i, k) + Size(BlockType(s.prs[i])) <= BlockAddr(s, j, m)
    ensures BlockAddr(s, i, k) < BlockAddr(s, j, m) ==> BlockAddr(s, i, k) + Size(BlockType(s.prs[i])) <= BlockAddr(s, j, m)
    ensures BlockAddr(s, j, m) < BlockAddr(s, i, k) ==> BlockAddr(s, j, m) + Size(BlockType(s.prs[j])) <= BlockAddr(s, i, k)
  {
    hide IsList, Addr, Count, Size, Lists, FreeChain;
    Bounded(s);
    assert DescOk(s, i) && DescOk(s, j);
    Located(s, i, k);
    Located(s, j, m);
    if i == j {
      Apart(PageAddr(s.prs[i]), BlockType(s.prs[i]), k, m);
    } else {
      PagesApart(PageAddr(s.prs[i]), PageAddr(s.prs[j]));
    }
  }

  lemma PagesApart(page: nat, page': nat)
    requires IsPage(page) && IsPage(page') && page != page'
    ensures page + PAGE_SIZE <= page' || page' + PAGE_SIZE <= page
  {
  }

  // ---------------------------------------------------------- subpage_kfree

  /** Put a block back: fill it, link it in front of its page's free list. */
  ghost function Release(s: State, p: nat): State
    requires Inv(s) && p in s.live && s.live[p].Sub?
  {
    assert BlockOk(s, p, s.live[p]);
    var i, k := s.live[p].desc, s.live[p].index;
    assert DescOk(s, i);
    var pr, f := s.prs[i], s.frees[i];
    var page, t := PageAddr(pr), BlockType(pr);
    Located(s, i, k);
    s.(prs := s.prs[i := pr.(freelistOffset := p - page, nfree := pr.nfree + 1)],
       mem := Fill(s.mem, p, Size(t) / 4)[p := Link(page, t, f, 0)],
       frees := s.frees[i := [k] + f],
       live := s.live - {p})
  }

  lemma ReleaseLists(s: State, p: nat)
    requires Inv(s) && p in s.live && s.live[p].Sub?
    ensures Shape(Release(s, p)) && Lists(Release(s, p))
  {
    assert BlockOk(s, p, s.live[p]);
    hide Addr, Count, Size, FreeChain, Blocks, Complete, Used, IsList, Fill;
    SameLinks(s, Release(s, p));
  }

  /** Linking a block in front of a free list. */
  lemma ChainPush(mem: Memory, page: nat, t: nat, offset: nat, f: seq<nat>, k: nat)
    requires t < NSIZES && FreeChain(mem, page, t, offset, f) && k < Count(t) && k !in f
    ensures FreeChain(mem[Addr(page, t, k) := Link(page, t, f, 0)], page, t, Addr(page, t, k) - page, [k] + f)
  {
    hide Addr, Count;
    var g, mem' := [k] + f, mem[Addr(page, t, k) := Link(page, t, f, 0)];
    forall m | 0 <= m < |g| ensures Addr(page, t, g[m]) in mem' && mem'[Addr(page, t, g[m])] == Link(page, t, g, m + 1) {
      if m > 0 {
        assert g[m] == f[m - 1];
        Apart(page, t, k, f[m - 1]);
      }
    }
  }

  lemma ReleaseDescs(s: State, p: nat)
    requires Inv(s) && NoEmptyPage(s) && p in s.live && s.live[p].Sub?
    requires Shape(Release(s, p)) && Lists(Release(s, p))
    ensures Descs(Release(s, p))
  {
    hide IsList, Addr, Count, Size, Lists, FreeChain, Complete, Fill;
    Bounded(s);
    var s' := Release(s, p);
    assert BlockOk(s, p, s.live[p]);
    var i, k := s.live[p].desc, s.live[p].index;
    assert DescOk(s, i);
    var pr := s.prs[i];
    var filled := Fill(s.mem, p, Size(BlockType(pr)) / 4);
    FillWithin(s.mem, p, Size(BlockType(pr)) / 4);
    forall j | j in s'.alls ensures DescOk(s', j) {
      assert DescOk(s, j);
      if j == i {
        DescFrame(s, filled, i, k, i);
        ChainPush(filled, PageAddr(pr), BlockType(pr), pr.freelistOffset, s.frees[i], k);
      } else {
        DescFrame(s, s'.mem, i, k, j);
      }
    }
  }

  lemma ReleaseBlocks(s: State, p: nat)
    requires Inv(s) && p in s.live && s.live[p].Sub?
    requires Shape(Release(s, p)) && Lists(Release(s, p)) && Descs(Release(s, p))
    ensures Blocks(Release(s, p)) && Complete(Release(s, p))
  {
    hide IsList, Addr, Count, Size, Lists, FreeChain, Fill;
    Bounded(s);
    var s' := Release(s, p);
    assert BlockOk(s, p, s.live[p]);
    var i, k := s.live[p].desc, s.live[p].index;
    forall q | q in s'.live ensures BlockOk(s', q, s'.live[q]) {
      assert BlockOk(s, q, s.live[q]);
      BlockFrame(s, s', q, s.live[q]);
    }
    forall j, m: nat | j in s'.alls && m < Count(BlockType(s'.prs[j])) ensures Accounted(s', j, m) {
      assert Accounted(s, j, m);
    }
  }

  lemma ReleaseKeeps(s: State, p: nat)
    requires Inv(s) && NoEmptyPage(s) && p in s.live && s.live[p].Sub?
    ensures Inv(Release(s, p))
  {
    hide *;
    ReleaseLists(s, p);
    ReleaseDescs(s, p);
    ReleaseBlocks(s, p);
    TakeAll(Release(s, p));
  }

  // ------------------------------------------------------------ a fresh page

  /** n - 1, ..., 0. */
  function Down(n: nat): (r: seq<nat>)
    ensures |r| == n && forall k :: 0 <= k < n ==> r[k] == n - 1 - k
  {
    if n == 0 then [] else [n - 1] + Down(n - 1)
  }

  /** The links written into a fresh page, block 0 first, each block pointing at the one before. */
  function InitLinks(mem: Memory, page: nat, t: nat, n: nat): Memory
    requires t < NSIZES
  {
    if n == 0 then mem
    else InitLinks(mem, page, t, n - 1)[Addr(page, t, n - 1) := if n == 1 then 0 else Addr(page, t, n - 2)]
  }

  lemma {:induction false} InitLinksAt(mem: Memory, page: nat, t: nat, n: nat, k: nat)
    requires t < NSIZES && k < n
    ensures Addr(page, t, k) in InitLinks(mem, page, t, n)
    ensures InitLinks(mem, page, t, n)[Addr(page, t, k)] == if k == 0 then 0 else Addr(page, t, k - 1)
  {
    hide Addr;
    if k < n - 1 {
      InitLinksAt(mem, page, t, n - 1, k);
      Apart(page, t, k, n - 1);
    }
  }

  lemma {:induction false} InitLinksOutside(mem: Memory, page: nat, t: nat, n: nat, x: nat)
    requires t < NSIZES && IsPage(page) && n <= Count(t) && (x < page || page + PAGE_SIZE <= x)
    ensures (x in InitLinks(mem, page, t, n) <==> x in mem) && (x in mem ==> InitLinks(mem, page, t, n)[x] == mem[x])
  {
    hide Addr;
    if n > 0 {
      InitLinksOutside(mem, page, t, n - 1, x);
      OnPage(page, t, n - 1);
    }
  }

  lemma FreshChain(mem: Memory, page: nat, t: nat)
    requires t < NSIZES && IsPage(page)
    ensures FreeChain(InitLinks(mem, page, t, Count(t)), page, t, Addr(page, t, Count(t) - 1) - page, Down(Count(t)))
  {
    hide Addr, InitLinks;
    var n, f := Count(t), Down(Count(t));
    forall k | 0 <= k < |f| ensures Addr(page, t, f[k]) in InitLinks(mem, page, t, n) &&
        InitLinks(mem, page, t, n)[Addr(page, t, f[k])] == Link(page, t, f, k + 1) {
      InitLinksAt(mem, page, t, n, f[k]);
    }
  }

  predicate SetBitOf(words: seq<seq<bool>>, words': seq<seq<bool>>, i: nat, b: bool)
  {
    && Shaped(words) && Shaped(words') && i < NPAGEREFS
    && words' == words[i / WORD_BITS := words[i / WORD_BITS][i % WORD_BITS := b]]
  }

  /** Changing one bit of the bitmap changes one descriptor. */
  lemma BitChange(words: seq<seq<bool>>, words': seq<seq<bool>>, i: nat, b: bool)
    requires SetBitOf(words, words', i, b)
    ensures Used(words', i) == b
    ensures forall j: nat :: j != i ==> Used(words', j) == Used(words, j)
  {
    forall j: nat | j != i ensures Used(words', j) == Used(words, j) {
      if j / WORD_BITS == i / WORD_BITS && j % WORD_BITS == i % WORD_BITS { assert false; }
    }
  }

  /** Install a fresh page of type t under the unused descriptor i. */
  ghost function Install(s: State, i: nat, t: nat, page: nat): State
    requires Inv(s) && i < NPAGEREFS && t < NSIZES
  {
    s.(prs := s.prs[i := FreshRef(s.bases[t], s.allbase, t, page)],
       words := s.words[i / WORD_BITS := s.words[i / WORD_BITS][i % WORD_BITS := true]],
       bases := s.bases[t := i], allbase := i,
       mem := InitLinks(s.mem, page, t, Count(t)),
       alls := [i] + s.alls, sames := s.sames[t := [i] + s.sames[t]],
       frees := s.frees[i := Down(Count(t))],
       holder := s.holder[page / PAGE_SIZE := Desc(i)])
  }

  /** The descriptor of a fresh page, all of whose blocks are free. */
  function FreshRef(same: int, all: int, t: nat, page: nat): (pr: PageRef)
    requires t < NSIZES
    ensures pr.nextSame == same && pr.nextAll == all
    ensures IsPage(page) ==> PageAddr(pr) == page && BlockType(pr) == t
  {
    PageRef(same, all, MkPab(page, t), Addr(page, t, Count(t) - 1) - page, Count(t))
  }

  ghost predicate CanInstall(s: State, i: nat, t: nat, page: nat) {
    && Inv(s) && i < NPAGEREFS && t < NSIZES && !Used(s.words, i)
    && IsPage(page) && HeldBy(s, page / PAGE_SIZE, InFlight)
  }

  lemma InstallLists(s: State, i: nat, t: nat, page: nat)
    requires CanInstall(s, i, t, page)
    ensures Shape(Install(s, i, t, page)) && Lists(Install(s, i, t, page))
  {
    InstallMembers(s, i, t, page);
    InstallLinks(s, i, t, page);
    hide Addr, InitLinks, Count, Descs, Blocks, Complete, Used, IsList, FreshRef, Down;
  }

  lemma InstallMembers(s: State, i: nat, t: nat, page: nat)
    requires CanInstall(s, i, t, page)
    ensures var s' := Install(s, i, t, page);
      Shape(s') && (forall j :: j in s'.alls <==> Used(s'.words, j)) &&
      forall u, j :: 0 <= u < NSIZES ==> (j in s'.sames[u] <==> j in s'.alls && BlockType(s'.prs[j]) == u)
  {
    hide Addr, InitLinks, Count, Descs, Blocks, Complete, Used, IsList, FreshRef, Down;
    Unlisted(s, i, t);
    Bounded(s);
    BitChange(s.words, Install(s, i, t, page).words, i, true);
  }

  lemma InstallLinks(s: State, i: nat, t: nat, page: nat)
    requires CanInstall(s, i, t, page)
    ensures var s' := Install(s, i, t, page);
      Shape(s') && IsList(s'.prs, All, s'.allbase, s'.alls) &&
      forall u {:trigger s'.sames[u]} :: 0 <= u < NSIZES ==> IsList(s'.prs, Same, s'.bases[u], s'.sames[u])
  {
    hide Inv, Addr, InitLinks, Count, Used, IsList, FreshRef, BlockType, Down, SetBitOf;
    Unlisted(s, i, t);
    var s' := Install(s, i, t, page);
    ListPush(s.prs, s'.prs, All, s.allbase, s.alls, i);
    forall u | 0 <= u < NSIZES ensures IsList(s'.prs, Same, s'.bases[u], s'.sames[u]) {
      InstallSame(s, i, t, page, u);
    }
  }

  /** A descriptor that is not in use is on no list. */
  lemma Unlisted(s: State, i: nat, u: nat)
    requires Inv(s) && i < NPAGEREFS && !Used(s.words, i) && u < NSIZES
    ensures Shape(s) && i !in s.alls && i !in s.sames[u]
    ensures IsList(s.prs, Same, s.bases[u], s.sames[u]) && IsList(s.prs, All, s.allbase, s.alls)
  {
    hide Descs, Blocks, Complete, Used, IsList, BlockType;
  }

  lemma InstallSame(s: State, i: nat, t: nat, page: nat, u: nat)
    requires CanInstall(s, i, t, page) && u < NSIZES
    ensures var s' := Install(s, i, t, page);
      Shape(s') && IsList(s'.prs, Same, s'.bases[u], s'.sames[u])
  {
    hide Inv, Addr, InitLinks, Count, Used, IsList, FreshRef, BlockType, Down, SetBitOf;
    Unlisted(s, i, u);
    var s' := Install(s, i, t, page);
    if u == t {
      ListPush(s.prs, s'.prs, Same, s.bases[t], s.sames[t], i);
    } else {
      ListFrame(s.prs, s'.prs, Same, s.bases[u], s.sames[u]);
    }
  }

  lemma InstallDescs(s: State, i: nat, t: nat, page: nat)
    requires CanInstall(s, i, t, page) && Shape(Install(s, i, t, page)) && Lists(Install(s, i, t, page))
    ensures Descs(Install(s, i, t, page))
  {
    hide Addr, InitLinks, Count, FreeChain, Blocks, Complete, IsList, DescOk;
    var s' := Install(s, i, t, page);
    assert i !in s.alls;
    forall j | j in s'.alls ensures DescOk(s', j) {
      if j == i {
        InstalledDesc(s, i, t, page);
      } else {
        assert DescOk(s, j);
        OtherDesc(s, i, t, page, j);
      }
    }
  }

  lemma InstalledDesc(s: State, i: nat, t: nat, page: nat)
    requires CanInstall(s, i, t, page)
    ensures Shape(Install(s, i, t, page)) && DescOk(Install(s, i, t, page), i)
  {
    hide Addr, InitLinks, FreeChain, Lists, Blocks, Complete, Descs;
    FreshChain(s.mem, page, t);
  }

  lemma OtherDesc(s: State, i: nat, t: nat, page: nat, j: nat)
    requires CanInstall(s, i, t, page) && j in s.alls && j < NPAGEREFS && j != i && DescOk(s, j)
    ensures Shape(Install(s, i, t, page)) && DescOk(Install(s, i, t, page), j)
  {
    hide Addr, InitLinks, Count, FreeChain, Lists, Blocks, Complete, Descs;
    InstallFrame(s, t, page, j);
  }

  /** A page that is in flight holds no descriptor's free list. */
  lemma InstallFrame(s: State, t: nat, page: nat, j: nat)
    requires Inv(s) && t < NSIZES && IsPage(page) && HeldBy(s, page / PAGE_SIZE, InFlight)
    requires j in s.alls && DescOk(s, j)
    ensures FreeChain(InitLinks(s.mem, page, t, Count(t)), PageAddr(s.prs[j]), BlockType(s.prs[j]),
                      s.prs[j].freelistOffset, s.frees[j])
  {
    hide Addr, InitLinks, Count, Lists, Blocks, Complete;
    Bounded(s);
    var pr, f := s.prs[j], s.frees[j];
    PagesApart(PageAddr(pr), page);
    forall k | 0 <= k < |f|
      ensures Addr(PageAddr(pr), BlockType(pr), f[k]) in InitLinks(s.mem, page, t, Count(t))
      ensures InitLinks(s.mem, page, t, Count(t))[Addr(PageAddr(pr), BlockType(pr), f[k])] ==
              s.mem[Addr(PageAddr(pr), BlockType(pr), f[k])]
    {
      OnPage(PageAddr(pr), BlockType(pr), f[k]);
      InitLinksOutside(s.mem, page, t, Count(t), Addr(PageAddr(pr), BlockType(pr), f[k]));
    }
    ChainFrame(s.mem, InitLinks(s.mem, page, t, Count(t)), PageAddr(pr), BlockType(pr), pr.freelistOffset, f);
  }

  lemma InstallBlocks(s: State, i: nat, t: nat, page: nat)
    requires CanInstall(s, i, t, page) && Shape(Install(s, i, t, page))
    requires Lists(Install(s, i, t, page)) && Descs(Install(s, i, t, page))
    ensures Blocks(Install(s, i, t, page)) && Complete(Install(s, i, t, page))
  {
    hide Addr, InitLinks, FreeChain, IsList;
    var s' := Install(s, i, t, page);
    assert i !in s.alls;
    forall q | q in s'.live ensures BlockOk(s', q, s'.live[q]) {
      assert BlockOk(s, q, s.live[q]);
      BlockFrame(s, s', q, s.live[q]);
    }
    forall j, m: nat | j in s'.alls && m < Count(BlockType(s'.prs[j])) ensures Accounted(s', j, m) {
      if j == i {
        assert s'.frees[i][Count(t) - 1 - m] == m;
      } else {
        assert Accounted(s, j, m);
      }
    }
  }

  lemma InstallKeeps(s: State, i: nat, t: nat, page: nat)
    requires CanInstall(s, i, t, page)
    ensures Inv(Install(s, i, t, page))
  {
    hide *;
    InstallPre(s, i, t, page);
    InstallLists(s, i, t, page);
    InstallDescs(s, i, t, page);
    InstallBlocks(s, i, t, page);
    TakeAll(Install(s, i, t, page));
  }

  lemma InstallPre(s: State, i: nat, t: nat, page: nat)
    requires CanInstall(s, i, t, page)
    ensures Inv(s) && Shape(s) && i < NPAGEREFS && t < NSIZES && IsPage(page)
  {
  }

  // ------------------------------------------- giving back an all-free page

  /** remove_lists on one list: the links and the base after cutting out position k. */
  function CutPrs(prs: seq<PageRef>, w: Which, l: seq<nat>, k: nat): seq<PageRef>
    requires k < |l| && (k > 0 ==> l[k - 1] < |prs|)
  {
    if k == 0 then prs else prs[l[k - 1] := SetNext(prs[l[k - 1]], w, Succ(l, k))]
  }

  function CutBase(base: int, l: seq<nat>, k: nat): int
    requires k < |l|
  {
    if k == 0 then Succ(l, 0) else base
  }

  ghost predicate CanDrop(s: State, i: nat, ks: nat, ka: nat) {
    && Inv(s) && i < NPAGEREFS && BlockType(s.prs[i]) < NSIZES
    && ka < |s.alls| && s.alls[ka] == i
    && ks < |s.sames[BlockType(s.prs[i])]| && s.sames[BlockType(s.prs[i])][ks] == i
    && |s.frees[i]| == Count(BlockType(s.prs[i]))
  }

  ghost predicate ListBounds(s: State) {
    && |s.prs| == NPAGEREFS && |s.sames| == NSIZES
    && (forall k :: 0 <= k < |s.alls| ==> s.alls[k] < NPAGEREFS)
    && (forall t, k :: 0 <= t < NSIZES && 0 <= k < |s.sames[t]| ==> s.sames[t][k] < NPAGEREFS)
  }

  lemma InListBounds(s: State)
    requires Inv(s)
    ensures ListBounds(s)
  {
    forall t, k | 0 <= t < NSIZES && 0 <= k < |s.sames[t]| ensures s.sames[t][k] < NPAGEREFS {
      assert IsList(s.prs, Same, s.bases[t], s.sames[t]);
    }
  }

  /** Take descriptor i, at the given places of its two lists, out of use. */
  ghost function Drop(s: State, i: nat, ks: nat, ka: nat): State
    requires CanDrop(s, i, ks, ka)
  {
    InListBounds(s);
    var t := BlockType(s.prs[i]);
    s.(prs := CutPrs(CutPrs(s.prs, Same, s.sames[t], ks), All, s.alls, ka),
       words := s.words[i / WORD_BITS := s.words[i / WORD_BITS][i % WORD_BITS := false]],
       bases := s.bases[t := CutBase(s.bases[t], s.sames[t], ks)],
       allbase := CutBase(s.allbase, s.alls, ka),
       alls := Without(s.alls, ka),
       sames := s.sames[t := Without(s.sames[t], ks)],
       frees := s.frees[i := []],
       holder := s.holder - {PageAddr(s.prs[i]) / PAGE_SIZE})
  }

  /** Cutting changes links only. */
  lemma CutFields(s: State, i: nat, ks: nat, ka: nat)
    requires CanDrop(s, i, ks, ka)
    ensures |Drop(s, i, ks, ka).prs| == NPAGEREFS
    ensures forall j :: 0 <= j < NPAGEREFS ==>
      var pr, pr' := s.prs[j], Drop(s, i, ks, ka).prs[j];
      pr'.pab == pr.pab && pr'.nfree == pr.nfree && pr'.freelistOffset == pr.freelistOffset
  {
    hide IsList, Lists, Descs, Blocks, Complete;
    InListBounds(s);
  }

  lemma DropLists(s: State, i: nat, ks: nat, ka: nat)
    requires CanDrop(s, i, ks, ka)
    ensures Shape(Drop(s, i, ks, ka)) && Lists(Drop(s, i, ks, ka))
  {
    hide Descs, Blocks, Complete, Count, IsList, Used;
    InListBounds(s);
    CutFields(s, i, ks, ka);
    DropMembers(s, i, ks, ka);
    DropLinks(s, i, ks, ka);
  }

  lemma DropMembers(s: State, i: nat, ks: nat, ka: nat)
    requires CanDrop(s, i, ks, ka)
    ensures var s' := Drop(s, i, ks, ka);
      Shape(s') && (forall j :: j in s'.alls <==> Used(s'.words, j)) &&
      forall u, j :: 0 <= u < NSIZES ==> (j in s'.sames[u] <==> j in s'.alls && BlockType(s'.prs[j]) == u)
  {
    hide Descs, Blocks, Complete, Count, IsList, Used, CutPrs, CutBase;
    InListBounds(s);
    Bounded(s);
    var s' := Drop(s, i, ks, ka);
    BitChange(s.words, s'.words, i, false);
    CutFields(s, i, ks, ka);
    DistinctLists(s);
    WithoutMembers(s.alls, ka);
    WithoutMembers(s.sames[BlockType(s.prs[i])], ks);
  }

  lemma DropLinks(s: State, i: nat, ks: nat, ka: nat)
    requires CanDrop(s, i, ks, ka)
    ensures var s' := Drop(s, i, ks, ka);
      Shape(s') && IsList(s'.prs, All, s'.allbase, s'.alls) &&
      forall u {:trigger s'.sames[u]} :: 0 <= u < NSIZES ==> IsList(s'.prs, Same, s'.bases[u], s'.sames[u])
  {
    hide Descs, Blocks, Complete, Count, IsList, Used;
    InListBounds(s);
    var s' := Drop(s, i, ks, ka);
    var t := BlockType(s.prs[i]);
    var mid := CutPrs(s.prs, Same, s.sames[t], ks);
    ListFrame(s.prs, mid, All, s.allbase, s.alls);
    ListCut(mid, s'.prs, All, s.allbase, s'.allbase, s.alls, ka);
    forall u | 0 <= u < NSIZES ensures IsList(s'.prs, Same, s'.bases[u], s'.sames[u]) {
      if u == t {
        ListCut(s.prs, mid, Same, s.bases[t], s'.bases[t], s.sames[t], ks);
        ListFrame(mid, s'.prs, Same, s'.bases[t], s'.sames[t]);
      } else {
        if ks > 0 { assert s.sames[t][ks - 1] in s.sames[t]; }
        ListFrame(s.prs, s'.prs, Same, s.bases[u], s.sames[u]);
      }
    }
  }

  lemma DistinctLists(s: State)
    requires Inv(s)
    ensures Distinct(s.alls) && forall t {:trigger s.sames[t]} :: 0 <= t < NSIZES ==> Distinct(s.sames[t])
  {
    forall t | 0 <= t < NSIZES ensures Distinct(s.sames[t]) {
      assert IsList(s.prs, Same, s.bases[t], s.sames[t]);
    }
  }

  lemma DropDescs(s: State, i: nat, ks: nat, ka: nat)
    requires CanDrop(s, i, ks, ka) && Shape(Drop(s, i, ks, ka)) && Lists(Drop(s, i, ks, ka))
    ensures Descs(Drop(s, i, ks, ka))
  {
    hide Blocks, Complete, Count, IsList, Used, FreeChain, CutPrs, CutBase, Lists;
    InListBounds(s);
    Bounded(s);
    var s' := Drop(s, i, ks, ka);
    CutFields(s, i, ks, ka);
    DistinctLists(s);
    WithoutMembers(s.alls, ka);
    assert DescOk(s, i);
    forall j | j in s'.alls ensures DescOk(s', j) {
      assert DescOk(s, j);
    }
  }

  lemma DropBlocks(s: State, i: nat, ks: nat, ka: nat)
    requires CanDrop(s, i, ks, ka) && Shape(Drop(s, i, ks, ka)) && Lists(Drop(s, i, ks, ka)) && Descs(Drop(s, i, ks, ka))
    ensures Blocks(Drop(s, i, ks, ka)) && Complete(Drop(s, i, ks, ka))
  {
    hide Count, IsList, Used, CutPrs, CutBase, Lists, Addr;
    InListBounds(s);
    Bounded(s);
    var s' := Drop(s, i, ks, ka);
    CutFields(s, i, ks, ka);
    DistinctLists(s);
    WithoutMembers(s.alls, ka);
    assert DescOk(s, i);
    AllBlocks(s.frees[i], Count(BlockType(s.prs[i])));
    forall q | q in s'.live ensures BlockOk(s', q, s'.live[q]) {
      assert BlockOk(s, q, s.live[q]);
      BlockFrame(s, s', q, s.live[q]);
    }
    forall j, m: nat | j in s'.alls && m < Count(BlockType(s'.prs[j])) ensures Accounted(s', j, m) {
      assert Accounted(s, j, m);
    }
  }

  lemma DropKeeps(s: State, i: nat, ks: nat, ka: nat)
    requires CanDrop(s, i, ks, ka)
    ensures Inv(Drop(s, i, ks, ka))
  {
    hide *;
    DropLists(s, i, ks, ka);
    DropDescs(s, i, ks, ka);
    DropBlocks(s, i, ks, ka);
    TakeAll(Drop(s, i, ks, ka));
  }

  // -------------------------------------------------- whole pages, in flight

  /** The page numbers of n pages from p. */
  function PageNos(p: nat, n: nat): (r: set<nat>)
    ensures forall q: nat :: q in r <==> p / PAGE_SIZE <= q < p / PAGE_SIZE + n
  {
    set q: nat {:trigger q in Below(p / PAGE_SIZE + n)} | q in Below(p / PAGE_SIZE + n) && p / PAGE_SIZE <= q
  }

  /** What alloc_kpages may return: n whole pages that nobody holds. */
  ghost predicate Fresh(s: State, p: nat, n: nat) {
    IsPage(p) && n > 0 && PageNos(p, n) !! s.holder.Keys
  }

  ghost function Fly(s: State, page: nat): State {
    s.(holder := s.holder[page / PAGE_SIZE := InFlight])
  }

  ghost function Land(s: State, page: nat): State {
    s.(holder := s.holder - {page / PAGE_SIZE})
  }

  ghost function GiveBig(s: State, p: nat, n: nat, wanted: nat): State {
    s.(holder := s.holder + map q | q in PageNos(p, n) :: BigAt(p), live := s.live[p := Big(n, wanted)])
  }

  ghost function FreeBig(s: State, p: nat): State
    requires p in s.live && s.live[p].Big?
  {
    s.(holder := s.holder - PageNos(p, s.live[p].npages), live := s.live - {p})
  }

  /** A client stores a word. */
  ghost function Store(s: State, a: nat, v: nat): State {
    s.(mem := s.mem[a := v])
  }

  /** Descriptors are not affected by who holds pages that are not theirs. */
  lemma HolderFrame(s: State, s': State)
    requires Inv(s) && s' == s.(holder := s'.holder, live := s'.live)
    requires forall q, i :: q in s.holder && s.holder[q] == Desc(i) ==> q in s'.holder && s'.holder[q] == Desc(i)
    ensures Shape(s') && Lists(s') && Descs(s')
  {
    hide IsList, FreeChain, Count, Size, Addr, Used;
    Bounded(s);
    forall i | i in s'.alls ensures DescOk(s', i) {
      assert DescOk(s, i);
    }
  }

  /** The page a live block starts on is held. */
  lemma LiveHeld(s: State, p: nat)
    requires Inv(s) && p in s.live
    ensures p / PAGE_SIZE in s.holder && s.holder[p / PAGE_SIZE] != InFlight
    ensures s.live[p].Sub? ==> s.holder[p / PAGE_SIZE].Desc?
    ensures s.live[p].Big? ==> s.holder[p / PAGE_SIZE] == BigAt(p)
  {
    assert BlockOk(s, p, s.live[p]);
    match s.live[p]
    case Sub(i, k, _) =>
      assert DescOk(s, i);
      Located(s, i, k);
    case Big(n, _) =>
      assert HeldBy(s, p / PAGE_SIZE, BigAt(p));
  }

  /** Changing the holders, and whole-page blocks, as described keeps the rest. */
  lemma HolderKeeps(s: State, s': State)
    requires Inv(s) && s' == s.(holder := s'.holder, live := s'.live)
    requires forall q, i :: q in s.holder && s.holder[q] == Desc(i) ==> q in s'.holder && s'.holder[q] == Desc(i)
    requires forall p :: p in s'.live && p in s.live ==> s'.live[p] == s.live[p]
    requires forall p :: p in s.live && s.live[p].Sub? ==> p in s'.live
    requires forall p, q :: p in s'.live && p in s.live && q in s.holder && s.holder[q] == BigAt(p) ==>
                              q in s'.holder && s'.holder[q] == BigAt(p)
    requires forall p :: p in s'.live && p !in s.live ==>
      s'.live[p].Big? && IsPage(p) && s'.live[p].npages > 0 && s'.live[p].wanted <= s'.live[p].npages * PAGE_SIZE &&
      forall q :: p / PAGE_SIZE <= q < p / PAGE_SIZE + s'.live[p].npages ==> HeldBy(s', q, BigAt(p))
    ensures Inv(s')
  {
    hide IsList, FreeChain, Count, Size, Addr, Used, Lists;
    HolderFrame(s, s');
    Bounded(s);
    forall p | p in s'.live ensures BlockOk(s', p, s'.live[p]) {
      if p in s.live {
        assert BlockOk(s, p, s.live[p]);
        BlockFrame(s, s', p, s.live[p]);
      }
    }
    forall j, m: nat | j in s'.alls && m < Count(BlockType(s'.prs[j])) ensures Accounted(s', j, m) {
      assert Accounted(s, j, m);
    }
  }

  lemma FlyKeeps(s: State, page: nat)
    requires Inv(s) && Fresh(s, page, 1)
    ensures Inv(Fly(s, page))
  {
    hide Inv;
    assert page / PAGE_SIZE in PageNos(page, 1);
    HolderKeeps(s, Fly(s, page));
  }

  lemma LandKeeps(s: State, page: nat)
    requires Inv(s) && HeldBy(s, page / PAGE_SIZE, InFlight)
    ensures Inv(Land(s, page))
  {
    hide Inv;
    HolderKeeps(s, Land(s, page));
  }

  lemma GiveBigKeeps(s: State, p: nat, n: nat, wanted: nat)
    requires Inv(s) && Fresh(s, p, n) && wanted <= n * PAGE_SIZE
    ensures Inv(GiveBig(s, p, n, wanted)) && p !in s.live
  {
    hide Inv;
    assert p / PAGE_SIZE in PageNos(p, n);
    if p in s.live { LiveHeld(s, p); assert false; }
    HolderKeeps(s, GiveBig(s, p, n, wanted));
  }

  lemma FreeBigKeeps(s: State, p: nat)
    requires Inv(s) && p in s.live && s.live[p].Big?
    ensures Inv(FreeBig(s, p))
  {
    BigHeld(s, p);
    hide Inv;
    HolderKeeps(s, FreeBig(s, p));
  }

  lemma BigHeld(s: State, p: nat)
    requires Inv(s) && p in s.live && s.live[p].Big?
    ensures forall q :: q in PageNos(p, s.live[p].npages) ==> HeldBy(s, q, BigAt(p))
  {
    assert BlockOk(s, p, s.live[p]);
  }

  // ---------------------------------------------------------- what clients see

  /** The room a live block has. */
  ghost function Extent(s: State, p: nat): nat
    requires Inv(s) && p in s.live
  {
    assert BlockOk(s, p, s.live[p]);
    match s.live[p]
    case Sub(i, _, _) => Size(BlockType(s.prs[i]))
    case Big(n, _) => n * PAGE_SIZE
  }

  /** Every live block is as large as was asked for, and aligned. */
  lemma LiveGood(s: State, p: nat)
    requires Inv(s) && p in s.live
    ensures Extent(s, p) >= s.live[p].wanted && Extent(s, p) > 0 && p > 0
    ensures s.live[p].Sub? ==> p % Extent(s, p) == 0
    ensures s.live[p].Big? ==> p % PAGE_SIZE == 0
  {
    hide IsList, FreeChain, Used, Lists, Addr;
    Bounded(s);
    assert BlockOk(s, p, s.live[p]);
    if s.live[p].Sub? {
      var i := s.live[p].desc;
      assert DescOk(s, i);
      Aligned(PageAddr(s.prs[i]), BlockType(s.prs[i]), s.live[p].index);
      Located(s, i, s.live[p].index);
    }
  }

  /** Who holds the page of any address inside a live block. */
  lemma Inside(s: State, p: nat, a: nat)
    requires Inv(s) && p in s.live && p <= a < p + Extent(s, p)
    ensures HeldBy(s, a / PAGE_SIZE, if s.live[p].Sub? then Desc(s.live[p].desc) else BigAt(p))
  {
    hide IsList, FreeChain, Used, Lists, Addr, Count;
    Bounded(s);
    assert BlockOk(s, p, s.live[p]);
    match s.live[p]
    case Sub(i, k, _) =>
      assert DescOk(s, i);
      Located(s, i, k);
      SamePage(PageAddr(s.prs[i]), a);
    case Big(n, _) =>
      WithinPages(p, a, n);
  }

  lemma WithinPages(p: nat, a: nat, n: nat)
    requires IsPage(p) && p <= a < p + n * PAGE_SIZE
    ensures p / PAGE_SIZE <= a / PAGE_SIZE < p / PAGE_SIZE + n
  {
  }

  /** Any two live blocks are disjoint. */
  lemma LiveDisjoint(s: State, p: nat, q: nat)
    requires Inv(s) && p in s.live && q in s.live && p != q
    ensures p + Extent(s, p) <= q || q + Extent(s, q) <= p
  {
    hide IsList, FreeChain, Used, Lists, Addr, Count;
    Bounded(s);
    var a := if p < q then q else p;
    if p + Extent(s, p) > q && q + Extent(s, q) > p {
      LiveGood(s, p);
      LiveGood(s, q);
      Inside(s, p, a);
      Inside(s, q, a);
      assert BlockOk(s, p, s.live[p]) && BlockOk(s, q, s.live[q]);
      var i := s.live[p].desc;
      assert DescOk(s, i);
      OutsideBlock(s, i, s.live[p].index, i, s.live[q].index);
      assert false;
    }
  }

  /** Storing into a live block disturbs nothing of the allocator's. */
  lemma StoreKeeps(s: State, p: nat, a: nat, v: nat)
    requires Inv(s) && p in s.live && p <= a < p + Extent(s, p)
    ensures Inv(Store(s, a, v))
  {
    hide IsList, Used, Addr, Count, Lists;
    Bounded(s);
    var s' := Store(s, a, v);
    StoreLists(s, a, v);
    forall j | j in s'.alls ensures DescOk(s', j) {
      assert DescOk(s, j);
      StoreDesc(s, p, a, v, j);
    }
    forall q | q in s'.live ensures BlockOk(s', q, s'.live[q]) {
      assert BlockOk(s, q, s.live[q]);
      BlockFrame(s, s', q, s.live[q]);
    }
    forall j, m: nat | j in s'.alls && m < Count(BlockType(s'.prs[j])) ensures Accounted(s', j, m) {
      assert Accounted(s, j, m);
    }
  }

  lemma StoreLists(s: State, a: nat, v: nat)
    requires Shape(s) && Lists(s)
    ensures Shape(Store(s, a, v)) && Lists(Store(s, a, v))
  {
  }

  lemma StoreDesc(s: State, p: nat, a: nat, v: nat, j: nat)
    requires Inv(s) && p in s.live && p <= a < p + Extent(s, p) && j in s.alls && DescOk(s, j)
    ensures FreeChain(s.mem[a := v], PageAddr(s.prs[j]), BlockType(s.prs[j]), s.prs[j].freelistOffset, s.frees[j])
  {
    hide IsList, Used, Addr, Count, Lists, Size;
    Bounded(s);
    assert BlockOk(s, p, s.live[p]);
    if s.live[p].Sub? {
      DescFrame(s, s.mem[a := v], s.live[p].desc, s.live[p].index, j);
    } else {
      var page, t, f := PageAddr(s.prs[j]), BlockType(s.prs[j]), s.frees[j];
      Inside(s, p, a);
      forall m | 0 <= m < |f| ensures Addr(page, t, f[m]) != a {
        Located(s, j, f[m]);
      }
      ChainFrame(s.mem, s.mem[a := v], page, t, s.prs[j].freelistOffset, f);
    }
  }

  /** Words of a live block that an allocator step leaves alone. */
  ghost predicate Untouched(s: State, s': State, q: nat)
    requires Inv(s) && q in s.live
  {
    forall a :: a in s.mem && q <= a < q + Extent(s, q) ==> a in s'.mem && s'.mem[a] == s.mem[a]
  }

  /** Freeing a block writes to no other live block. */
  lemma ReleaseUntouched(s: State, p: nat, q: nat)
    requires Inv(s) && p in s.live && s.live[p].Sub? && q in s.live && q != p
    ensures Untouched(s, Release(s, p), q)
  {
    LiveDisjoint(s, p, q);
    assert BlockOk(s, p, s.live[p]);
    assert DescOk(s, s.live[p].desc);
    FillWithin(s.mem, p, Size(BlockType(s.prs[s.live[p].desc])) / 4);
    hide IsList, FreeChain, Used, Lists, Addr, Count, Fill, Blocks, Complete;
    LiveGood(s, p);
  }

  /** Threading a fresh page writes to no live block. */
  lemma InstallUntouched(s: State, i: nat, t: nat, page: nat, q: nat)
    requires CanInstall(s, i, t, page) && q in s.live
    ensures Untouched(s, Install(s, i, t, page), q)
  {
    hide IsList, FreeChain, Used, Lists, Addr, Count, Blocks, Complete, InitLinks, Descs;
    forall a | a in s.mem && q <= a < q + Extent(s, q)
      ensures a in Install(s, i, t, page).mem && Install(s, i, t, page).mem[a] == s.mem[a]
    {
      Inside(s, q, a);
      if page <= a < page + PAGE_SIZE {
        SamePage(page, a);
        assert false;
      }
      InitLinksOutside(s.mem, page, t, Count(t), a);
    }
  }

  // ------------------------------------------------- the sections as a whole

  /** The place of x in l. */
  function Find(l: seq<nat>, x: nat): (k: nat)
    requires x in l
    ensures k < |l| && l[k] == x
  {
    if l[0] == x then 0 else 1 + Find(l[1..], x)
  }

  /** The type a request of sz bytes is served from: the first size that is enough. */
  function TypeFor(sz: nat): (t: nat)
    ensures t <= NSIZES
    ensures t < NSIZES ==> sz <= Size(t) && (t > 0 ==> sz > Size(t - 1))
    ensures t == NSIZES <==> sz > 2048
  {
    if sz <= 16 then 0 else if sz <= 32 then 1 else if sz <= 64 then 2 else if sz <= 128 then 3
    else if sz <= 256 then 4 else if sz <= 512 then 5 else if sz <= 1024 then 6 else if sz <= 2048 then 7 else 8
  }

  /** A section that finds a free block on an existing page of the right type. */
  ghost predicate CanTake(s: State, i: nat, sz: nat) {
    Inv(s) && TypeFor(sz) < NSIZES && i in s.sames[TypeFor(sz)] && s.frees[i] != []
  }

  /** A section that installs a page and takes its first block. */
  ghost function InstallTake(s: State, i: nat, sz: nat, page: nat): State
    requires TypeFor(sz) < NSIZES && CanInstall(s, i, TypeFor(sz), page)
  {
    InstallKeeps(s, i, TypeFor(sz), page);
    Take(Install(s, i, TypeFor(sz), page), i, sz)
  }

  /** The lock section of subpage_kfree: a page that becomes all free is dropped. */
  ghost function FreeSub(s: State, p: nat): State
    requires Inv(s) && NoEmptyPage(s) && p in s.live && s.live[p].Sub?
  {
    ReleaseKeeps(s, p);
    var r, i := Release(s, p), s.live[p].desc;
    FreedDesc(s, p);
    if r.prs[i].nfree < Count(BlockType(r.prs[i])) then r
    else
      assert DescOk(r, i);
      Drop(r, i, Find(r.sames[BlockType(r.prs[i])], i), Find(r.alls, i))
  }

  lemma FreedDesc(s: State, p: nat)
    requires Inv(s) && p in s.live && s.live[p].Sub? && Inv(Release(s, p))
    ensures var r, i := Release(s, p), s.live[p].desc;
      i in r.alls && i < NPAGEREFS && BlockType(r.prs[i]) < NSIZES && i in r.sames[BlockType(r.prs[i])]
  {
    var r, i := Release(s, p), s.live[p].desc;
    assert BlockOk(s, p, s.live[p]);
    assert DescOk(r, i);
  }

  lemma TakeNoEmpty(s: State, i: nat, sz: nat)
    requires CanTake(s, i, sz)
    requires forall j :: j in s.alls && j != i ==> BlockType(s.prs[j]) < NSIZES && s.prs[j].nfree < Count(BlockType(s.prs[j]))
    ensures i in s.alls && Inv(Take(s, i, sz)) && NoEmptyPage(Take(s, i, sz))
    ensures FirstFree(s, i) !in s.live && FirstFree(s, i) > 0
  {
    assert i in s.alls && DescOk(s, i);
    TakeKeeps(s, i, sz);
    TakenFresh(s, i);
  }

  /** The block handed out was not handed out before. */
  lemma TakenFresh(s: State, i: nat)
    requires Inv(s) && i in s.alls && s.frees[i] != []
    ensures FirstFree(s, i) !in s.live && FirstFree(s, i) > 0
  {
    hide IsList, Addr, Count, Used, Lists;
    Bounded(s);
    assert DescOk(s, i);
    TakenBlock(s, i);
    Located(s, i, s.frees[i][0]);
    var p := FirstFree(s, i);
    if p in s.live {
      LiveHeld(s, p);
      assert BlockOk(s, p, s.live[p]);
      AddrUnique(s, s.live[p].desc, s.live[p].index, i, s.frees[i][0]);
      assert false;
    }
  }

  lemma InstallTakeKeeps(s: State, i: nat, sz: nat, page: nat)
    requires TypeFor(sz) < NSIZES && CanInstall(s, i, TypeFor(sz), page) && NoEmptyPage(s)
    ensures Inv(InstallTake(s, i, sz, page)) && NoEmptyPage(InstallTake(s, i, sz, page))
  {
    InstallKeeps(s, i, TypeFor(sz), page);
    var m := Install(s, i, TypeFor(sz), page);
    assert i !in s.alls;
    InstallEmpty(s, i, TypeFor(sz), page);
    TakeNoEmpty(m, i, sz);
  }

  lemma InstallEmpty(s: State, i: nat, t: nat, page: nat)
    requires CanInstall(s, i, t, page) && NoEmptyPage(s) && Inv(Install(s, i, t, page))
    ensures var m := Install(s, i, t, page);
      i in m.sames[t] && |m.frees[i]| == Count(t) &&
      forall j :: j in m.alls && j != i ==> BlockType(m.prs[j]) < NSIZES && m.prs[j].nfree < Count(BlockType(m.prs[j]))
  {
    hide IsList, FreeChain, Blocks, Complete, Used, Addr, InitLinks, Lists, Count;
    var m := Install(s, i, t, page);
    Bounded(s);
    assert m.sames[t][0] == i;
    forall j | j in m.alls && j != i ensures BlockType(m.prs[j]) < NSIZES && m.prs[j].nfree < Count(BlockType(m.prs[j])) {
      assert j in s.alls && DescOk(s, j);
    }
  }

  lemma FreeSubKeeps(s: State, p: nat)
    requires Inv(s) && NoEmptyPage(s) && p in s.live && s.live[p].Sub?
    ensures Inv(FreeSub(s, p)) && NoEmptyPage(FreeSub(s, p)) && FreeSub(s, p).live == s.live - {p}
  {
    ReleaseKeeps(s, p);
    FreedDesc(s, p);
    var r, i := Release(s, p), s.live[p].desc;
    ReleaseNoEmpty(s, p);
    if r.prs[i].nfree >= Count(BlockType(r.prs[i])) {
      assert DescOk(r, i);
      DropNoEmpty(r, i, Find(r.sames[BlockType(r.prs[i])], i), Find(r.alls, i));
    }
  }

  lemma ReleaseNoEmpty(s: State, p: nat)
    requires Inv(s) && NoEmptyPage(s) && p in s.live && s.live[p].Sub? && Inv(Release(s, p))
    ensures Release(s, p).live == s.live - {p}
    ensures forall j :: j in Release(s, p).alls && j != s.live[p].desc ==>
      Release(s, p).prs[j].nfree < Count(BlockType(Release(s, p).prs[j]))
  {
    assert BlockOk(s, p, s.live[p]);
    hide IsList, FreeChain, Blocks, Complete, Used, Addr, Fill, Count;
    var r := Release(s, p);
    forall j | j in r.alls && j != s.live[p].desc ensures r.prs[j].nfree < Count(BlockType(r.prs[j])) {
      assert r.prs[j] == s.prs[j];
    }
  }

  lemma DropNoEmpty(s: State, i: nat, ks: nat, ka: nat)
    requires CanDrop(s, i, ks, ka)
    requires forall j :: j in s.alls && j != i ==> s.prs[j].nfree < Count(BlockType(s.prs[j]))
    ensures Inv(Drop(s, i, ks, ka)) && NoEmptyPage(Drop(s, i, ks, ka)) && Drop(s, i, ks, ka).live == s.live
  {
    DropKeeps(s, i, ks, ka);
    CutFields(s, i, ks, ka);
    DistinctLists(s);
    WithoutMembers(s.alls, ka);
    hide IsList, FreeChain, Blocks, Complete, Used, Addr, Count, CutPrs, CutBase;
  }
}
