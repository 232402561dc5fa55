/** States of the kernel heap (kern/vm/kmalloc.c) and their invariant.

    Page memory is a map from addresses to words.  The sequences `alls`, `sames` and
    `frees`, the map `live` of blocks handed out and the map `holder` from page numbers to
    who holds the page are bookkeeping that the code keeps only implicitly. */
module HeapState {
  import opened Geometry
  import opened Sequences

  const NPAGEREFS := 256
  const INUSE_WORDS := 8
  const WORD_BITS := 32
  const NIL := -1

  /** struct pageref; the links are descriptor numbers, or NIL. */
  datatype PageRef = PageRef(nextSame: int, nextAll: int, pab: nat, freelistOffset: nat, nfree: nat)

  /** PR_PAGEADDR, PR_BLOCKTYPE and MKPAB. */
  function PageAddr(pr: PageRef): nat {
    pr.pab - pr.pab % PAGE_SIZE
  }

  function BlockType(pr: PageRef): nat {
    pr.pab % PAGE_SIZE
  }

  function MkPab(page: nat, t: nat): (pab: nat)
    ensures page % PAGE_SIZE == 0 && t < PAGE_SIZE ==> pab - pab % PAGE_SIZE == page && pab % PAGE_SIZE == t
  {
    (page - page % PAGE_SIZE) + t % PAGE_SIZE
  }

  // ------------------------------------------------------- descriptor lists

  datatype Which = Same | All

  function Next(pr: PageRef, w: Which): int {
    if w == Same then pr.nextSame else pr.nextAll
  }

  function SetNext(pr: PageRef, w: Which, x: int): PageRef {
    if w == Same then pr.(nextSame := x) else pr.(nextAll := x)
  }

  function HeadOf(l: seq<nat>): int {
    if l == [] then NIL else l[0]
  }

  function Succ(l: seq<nat>, k: nat): int {
    if k + 1 < |l| then l[k + 1] else NIL
  }

  /** Following the links of kind w from base visits l. */
  ghost predicate IsList(prs: seq<PageRef>, w: Which, base: int, l: seq<nat>) {
    && Distinct(l) && base == HeadOf(l)
    && (forall k {:trigger l[k]} :: 0 <= k < |l| ==> l[k] < |prs| && Next(prs[l[k]], w) == Succ(l, k))
  }

  lemma ListFrame(prs: seq<PageRef>, prs': seq<PageRef>, w: Which, base: int, l: seq<nat>)
    requires IsList(prs, w, base, l) && |prs| == |prs'|
    requires forall i :: 0 <= i < |prs| && i in l ==> Next(prs'[i], w) == Next(prs[i], w)
    ensures IsList(prs', w, base, l)
  {
    forall k | 0 <= k < |l| ensures l[k] < |prs'| && Next(prs'[l[k]], w) == Succ(l, k) {
      assert l[k] in l;
    }
  }

  lemma ListPush(prs: seq<PageRef>, prs': seq<PageRef>, w: Which, base: int, l: seq<nat>, i: nat)
    requires IsList(prs, w, base, l) && |prs| == |prs'| && i < |prs| && i !in l
    requires forall j :: 0 <= j < |prs| && j != i ==> Next(prs'[j], w) == Next(prs[j], w)
    requires Next(prs'[i], w) == base
    ensures IsList(prs', w, i, [i] + l)
  {
    var l' := [i] + l;
    forall k | 0 <= k < |l'| ensures l'[k] < |prs'| && Next(prs'[l'[k]], w) == Succ(l', k) {
      if k > 0 { assert l'[k] == l[k - 1] && l[k - 1] in l; }
    }
  }

  function Without(l: seq<nat>, k: nat): seq<nat>
    requires k < |l|
  {
    l[..k] + l[k + 1..]
  }

  /** Cutting the k-th element out, by its predecessor's link or by the base. */
  lemma ListCut(prs: seq<PageRef>, prs': seq<PageRef>, w: Which, base: int, base': int, l: seq<nat>, k: nat)
    requires IsList(prs, w, base, l) && |prs| == |prs'| && k < |l|
    requires k == 0 ==> base' == Succ(l, 0) && prs' == prs
    requires k > 0 ==> base' == base && prs' == prs[l[k - 1] := SetNext(prs[l[k - 1]], w, Succ(l, k))]
    ensures IsList(prs', w, base', Without(l, k))
  {
    var l' := Without(l, k);
    forall j | 0 <= j < |l'| ensures l'[j] < |prs'| && Next(prs'[l'[j]], w) == Succ(l', j) {
      if j < k {
        assert l'[j] == l[j];
      } else {
        assert l'[j] == l[j + 1];
      }
    }
  }

  lemma WithoutMembers(l: seq<nat>, k: nat)
    requires Distinct(l) && k < |l|
    ensures forall x :: x in Without(l, k) <==> x in l && x != l[k]
  {
    forall x | x in l && x != l[k] ensures x in Without(l, k) {
      var j :| 0 <= j < |l| && l[j] == x;
      if j < k { assert Without(l, k)[j] == x; } else { assert Without(l, k)[j - 1] == x; }
    }
  }

  // ------------------------------------------------------------ in-page lists

  type Memory = map<nat, nat>

  /** The free list threaded through a page: block numbers f, by the blocks' first words. */
  ghost predicate FreeChain(mem: Memory, page: nat, t: nat, offset: nat, f: seq<nat>)
    requires t < NSIZES
  {
    && Distinct(f)
    && (forall k {:trigger f[k]} :: 0 <= k < |f| ==> f[k] < Count(t))
    && offset == (if f == [] then INVALID_OFFSET else Addr(page, t, f[0]) - page)
    && (forall k {:trigger f[k]} :: 0 <= k < |f| ==>
          Addr(page, t, f[k]) in mem && mem[Addr(page, t, f[k])] == Link(page, t, f, k + 1))
  }

  /** The word that points at the k-th free block: its address, or NULL past the end. */
  function Link(page: nat, t: nat, f: seq<nat>, k: nat): nat
    requires t < NSIZES
  {
    if k < |f| then Addr(page, t, f[k]) else 0
  }

  // ----------------------------------------------------------------- the state

  /** A block handed out: on a page of the allocator, or whole pages. */
  datatype Block = Sub(desc: nat, index: nat, wanted: nat) | Big(npages: nat, wanted: nat)

  /** Who holds a page: a descriptor, a big block, or a call that has not installed it yet. */
  datatype Holder = Desc(i: nat) | BigAt(ptr: nat) | InFlight

  datatype State = State(
    prs: seq<PageRef>, words: seq<seq<bool>>, bases: seq<int>, allbase: int, mem: Memory,
    alls: seq<nat>, sames: seq<seq<nat>>, frees: seq<seq<nat>>,
    live: map<nat, Block>, holder: map<nat, Holder>)

  predicate Shaped(words: seq<seq<bool>>) {
    |words| == INUSE_WORDS && forall i :: 0 <= i < |words| ==> |words[i]| == WORD_BITS
  }

  /** The bit of descriptor i in pagerefs_inuse. */
  predicate Used(words: seq<seq<bool>>, i: nat)
    requires Shaped(words)
  {
    i < NPAGEREFS && words[i / WORD_BITS][i % WORD_BITS]
  }

  ghost predicate Shape(s: State) {
    && |s.prs| == NPAGEREFS && Shaped(s.words) && |s.bases| == NSIZES && |s.sames| == NSIZES && |s.frees| == NPAGEREFS
  }

  /** Each descriptor in use is on `allbase` once and on the list of its type alone. */
  ghost predicate Lists(s: State)
    requires Shape(s)
  {
    && IsList(s.prs, All, s.allbase, s.alls)
    && (forall i :: i in s.alls <==> Used(s.words, i))
    && (forall t {:trigger s.sames[t]} :: 0 <= t < NSIZES ==> IsList(s.prs, Same, s.bases[t], s.sames[t]))
    && (forall t, i :: 0 <= t < NSIZES ==> (i in s.sames[t] <==> i in s.alls && BlockType(s.prs[i]) == t))
  }

  ghost predicate HeldBy(s: State, pageno: nat, h: Holder) {
    pageno in s.holder && s.holder[pageno] == h
  }

  /** A descriptor in use: its page is its own, its free list is sound and as long as nfree. */
  ghost predicate DescOk(s: State, i: nat)
    requires Shape(s) && i < NPAGEREFS
  {
    var pr := s.prs[i];
    && BlockType(pr) < NSIZES && IsPage(PageAddr(pr)) && HeldBy(s, PageAddr(pr) / PAGE_SIZE, Desc(i))
    && pr.nfree == |s.frees[i]| <= Count(BlockType(pr))
    && FreeChain(s.mem, PageAddr(pr), BlockType(pr), pr.freelistOffset, s.frees[i])
  }

  ghost predicate Descs(s: State)
    requires Shape(s) && Lists(s)
  {
    forall i :: i in s.alls ==> DescOk(s, i)
  }

  ghost function BlockAddr(s: State, i: nat, k: nat): nat
    requires Shape(s) && i < NPAGEREFS && BlockType(s.prs[i]) < NSIZES
  {
    Addr(PageAddr(s.prs[i]), BlockType(s.prs[i]), k)
  }

  /** A block handed out is where it says, big enough, and not on a free list. */
  ghost predicate BlockOk(s: State, p: nat, b: Block)
    requires Shape(s) && Lists(s) && Descs(s)
  {
    match b
    case Sub(i, k, wanted) =>
      && i in s.alls && k < Count(BlockType(s.prs[i])) && p == BlockAddr(s, i, k)
      && k !in s.frees[i] && wanted <= Size(BlockType(s.prs[i]))
    case Big(n, wanted) =>
      && IsPage(p) && n > 0 && wanted <= n * PAGE_SIZE
      && forall q :: p / PAGE_SIZE <= q < p / PAGE_SIZE + n ==> HeldBy(s, q, BigAt(p))
  }

  ghost predicate Blocks(s: State)
    requires Shape(s) && Lists(s) && Descs(s)
  {
    forall p :: p in s.live ==> BlockOk(s, p, s.live[p])
  }

  /** A block of a page is free or handed out. */
  ghost predicate Accounted(s: State, i: nat, k: nat)
    requires Shape(s) && Lists(s) && Descs(s) && i in s.alls
  {
    k in s.frees[i] ||
    (BlockAddr(s, i, k) in s.live && s.live[BlockAddr(s, i, k)].Sub? &&
     s.live[BlockAddr(s, i, k)].desc == i && s.live[BlockAddr(s, i, k)].index == k)
  }

  ghost predicate Complete(s: State)
    requires Shape(s) && Lists(s) && Descs(s)
  {
    forall i, k: nat :: i in s.alls && k < Count(BlockType(s.prs[i])) ==> Accounted(s, i, k)
  }

  ghost predicate Inv(s: State) {
    Shape(s) && Lists(s) && Descs(s) && Blocks(s) && Complete(s)
  }

  /** No page is kept that is all free. */
  ghost predicate NoEmptyPage(s: State)
    requires Inv(s)
  {
    forall i :: i in s.alls ==> s.prs[i].nfree < Count(BlockType(s.prs[i]))
  }
}
