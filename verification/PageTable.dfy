/** The state of the paging layer (kern/vm/addrspace.c, kern/vm/swapspace.c): the two-level page
    table of one address space, the page frame table, the swap slots, and the contents of frames
    and disk.  The frames start at a parameter, `base`. */
module PageTable {
  import opened Digits

  const PAGE_SIZE: nat := 4096
  const LEVEL1: nat := 4096
  const LEVEL2: nat := 256
  const SPACE: nat := 0x1_0000_0000

  type Page = seq<int>

  datatype Entry = Entry(paddr: nat, vaddr: nat, valid: bool, dirty: bool, ref: bool)

  /** Level 2 tables are made when first needed. */
  datatype Level2 = Missing | Level2(entries: seq<Entry>)

  datatype Frame = Frame(paddr: nat, vaddr: nat, valid: bool, dirty: bool)

  datatype Slot = Slot(vaddr: nat, offset: nat, valid: bool, pid: int, counter: int)

  datatype Vm = Vm(
    base: nat, table: seq<Level2>, frames: seq<Frame>, slots: seq<Slot>,
    ram: map<nat, Page>, disk: map<nat, Page>)

  function PageOf(v: nat): nat {
    v / PAGE_SIZE * PAGE_SIZE
  }

  predicate IsPage(v: nat) {
    v < SPACE && v % PAGE_SIZE == 0
  }

  // ------------------------------------------------------------------- the page table

  /** Bits 31-20 and 19-12 of an address. */
  function Index1(v: nat): nat {
    v / 0x100000
  }

  function Index2(v: nat): nat {
    v / 0x1000 % 0x100
  }

  predicate TableOk(table: seq<Level2>) {
    |table| == LEVEL1 && forall i :: 0 <= i < |table| ==> table[i].Missing? || |table[i].entries| == LEVEL2
  }

  lemma Indices(v: nat)
    requires v < SPACE
    ensures Index1(v) < LEVEL1 && Index2(v) < LEVEL2
  {
  }

  /** The two indices together determine the page. */
  lemma IndicesApart(v: nat, w: nat)
    requires IsPage(v) && IsPage(w) && Index1(v) == Index1(w) && Index2(v) == Index2(w)
    ensures v == w
  {
    hide Index1, Index2;
    Rebuilt(v);
    Rebuilt(w);
  }

  lemma Rebuilt(v: nat)
    requires IsPage(v)
    ensures v == Index1(v) * 0x100000 + Index2(v) * 0x1000
  {
    DivModParts(v, 0x1000);
    var n := v / 0x1000;
    DivModParts(n, 0x100);
    DivModUnique(v, 0x100000, n / 0x100, n % 0x100 * 0x1000);
  }

  const NO_ENTRY: Entry := Entry(0, 0, false, false, false)

  /** The entry of a page; an invalid one where there is no level 2 table. */
  function At(table: seq<Level2>, v: nat): Entry
    requires TableOk(table) && v < SPACE
  {
    Indices(v);
    if table[Index1(v)].Missing? then NO_ENTRY else table[Index1(v)].entries[Index2(v)]
  }

  function Set(table: seq<Level2>, v: nat, e: Entry): (r: seq<Level2>)
    requires TableOk(table) && v < SPACE
    ensures TableOk(r)
  {
    Indices(v);
    var l2 := if table[Index1(v)].Missing? then seq(LEVEL2, i => NO_ENTRY) else table[Index1(v)].entries;
    table[Index1(v) := Level2(l2[Index2(v) := e])]
  }

  /** The table is a map from pages to entries. */
  lemma SetAt(table: seq<Level2>, v: nat, e: Entry, w: nat)
    requires TableOk(table) && IsPage(v) && IsPage(w)
    ensures At(Set(table, v, e), w) == if w == v then e else At(table, w)
  {
    Indices(v);
    Indices(w);
    if w != v && Index1(w) == Index1(v) && Index2(w) == Index2(v) {
      IndicesApart(v, w);
      assert false;
    }
  }

  // ----------------------------------------------------------------------- swap slots

  /** The slot that swap_in and swap_out use: the first one with the address, used or not. */
  predicate IsSlot(slots: seq<Slot>, v: nat, k: nat) {
    k < |slots| && slots[k].vaddr == v && forall i :: 0 <= i < k ==> slots[i].vaddr != v
  }

  predicate HasSlot(slots: seq<Slot>, v: nat) {
    exists k :: 0 <= k < |slots| && slots[k].vaddr == v
  }

  function FirstFrom(slots: seq<Slot>, v: nat, i: nat): (k: nat)
    requires i <= |slots|
    decreases |slots| - i
  {
    if i == |slots| || slots[i].vaddr == v then i else FirstFrom(slots, v, i + 1)
  }

  lemma {:induction false} FirstIs(slots: seq<Slot>, v: nat, i: nat)
    requires i <= |slots| && forall j :: 0 <= j < i ==> slots[j].vaddr != v
    ensures HasSlot(slots, v) ==> IsSlot(slots, v, FirstFrom(slots, v, i))
    decreases |slots| - i
  {
    if i == |slots| || slots[i].vaddr == v {
    } else {
      FirstIs(slots, v, i + 1);
    }
  }

  function SlotOf(slots: seq<Slot>, v: nat): (k: nat)
    requires HasSlot(slots, v)
    ensures IsSlot(slots, v, k)
  {
    FirstIs(slots, v, 0);
    FirstFrom(slots, v, 0)
  }

  /** Slot k's pages are at k pages into the swap file. */
  predicate SlotsOk(m: Vm) {
    && (forall k :: 0 <= k < |m.slots| ==> m.slots[k].offset == k * PAGE_SIZE)
    && (forall k :: 0 <= k < |m.slots| ==> k * PAGE_SIZE in m.disk)
  }

  // ----------------------------------------------------------------------- invariants

  predicate FramesOk(m: Vm) {
    && (forall i :: 0 <= i < |m.frames| ==> m.frames[i].paddr == m.base + i * PAGE_SIZE)
    && (forall i :: 0 <= i < |m.frames| ==> m.base + i * PAGE_SIZE in m.ram)
  }

  predicate Sized(m: Vm) {
    && (forall p :: p in m.ram ==> |m.ram[p]| == PAGE_SIZE)
    && (forall p :: p in m.disk ==> |m.disk[p]| == PAGE_SIZE)
  }

  ghost predicate Shape(m: Vm, pages: iset<nat>) {
    && TableOk(m.table) && FramesOk(m) && SlotsOk(m) && Sized(m)
    && (forall v :: v in pages ==> IsPage(v) && HasSlot(m.slots, v))
  }

  /** Page v is in frame i. */
  ghost predicate InFrame(m: Vm, v: nat, i: nat)
    requires TableOk(m.table) && IsPage(v)
  {
    i < |m.frames| && At(m.table, v).paddr == m.frames[i].paddr && m.frames[i].vaddr == v && m.frames[i].valid
  }

  /** Every valid entry points to a frame that points back. */
  ghost predicate Mapped(m: Vm, pages: iset<nat>)
    requires Shape(m, pages)
  {
    forall v :: v in pages && At(m.table, v).valid ==> exists i :: InFrame(m, v, i)
  }

  /** Every frame in use, but for frame x, is pointed to by a valid entry. */
  ghost predicate Used(m: Vm, pages: iset<nat>, x: int)
    requires Shape(m, pages)
  {
    forall i :: 0 <= i < |m.frames| && m.frames[i].valid && i != x ==>
                  m.frames[i].vaddr in pages && At(m.table, m.frames[i].vaddr).valid &&
                  At(m.table, m.frames[i].vaddr).paddr == m.frames[i].paddr
  }

  ghost predicate Inv(m: Vm, pages: iset<nat>) {
    Shape(m, pages) && Mapped(m, pages) && Used(m, pages, -1)
  }

  /** Frame x is reserved: in use, and no entry points to it. */
  ghost predicate Reserved(m: Vm, pages: iset<nat>, x: int) {
    && Shape(m, pages) && Mapped(m, pages) && Used(m, pages, x)
    && 0 <= x < |m.frames| && m.frames[x].valid
    && (forall v :: v in pages && At(m.table, v).valid ==> At(m.table, v).paddr != m.frames[x].paddr)
  }

  /** The content of a page: in its frame when its entry is valid, in its slot otherwise. */
  ghost function Content(m: Vm, pages: iset<nat>, v: nat): (r: Page)
    requires Shape(m, pages) && Mapped(m, pages) && v in pages
    ensures |r| == PAGE_SIZE
  {
    if At(m.table, v).valid then
      var i :| InFrame(m, v, i);
      m.ram[At(m.table, v).paddr]
    else m.disk[m.slots[SlotOf(m.slots, v)].offset]
  }

  ghost predicate Sound(m: Vm, pages: iset<nat>) {
    Shape(m, pages) && Mapped(m, pages)
  }

  ghost predicate SameContents(m: Vm, m': Vm, pages: iset<nat>) {
    Sound(m, pages) && Sound(m', pages) && forall v :: v in pages ==> Content(m', pages, v) == Content(m, pages, v)
  }

  lemma FramesApart(m: Vm, i: nat, j: nat)
    requires FramesOk(m) && i < |m.frames| && j < |m.frames| && m.frames[i].paddr == m.frames[j].paddr
    ensures i == j
  {
  }

  /** No two valid entries share a frame. */
  lemma NoSharing(m: Vm, pages: iset<nat>, v: nat, w: nat)
    requires Inv(m, pages) && v in pages && w in pages && At(m.table, v).valid && At(m.table, w).valid
    requires At(m.table, v).paddr == At(m.table, w).paddr
    ensures v == w
  {
    hide At;
    var i :| InFrame(m, v, i);
    var j :| InFrame(m, w, j);
    FramesApart(m, i, j);
  }

  // ---------------------------------------------------------------------- the steps

  /** virtual_alloc_kpages takes a free frame. */
  function Claim(m: Vm, i: nat): Vm
    requires i < |m.frames|
  {
    m.(frames := m.frames[i := m.frames[i].(valid := true, dirty := false)])
  }

  /** virtual_alloc_kpages takes a frame in use: the old page's entry becomes invalid and the
      frame goes to the old page's slot. */
  function Evict(m: Vm, i: nat): Vm
    requires TableOk(m.table) && i < |m.frames| && m.frames[i].vaddr < SPACE
    requires HasSlot(m.slots, m.frames[i].vaddr) && m.frames[i].paddr in m.ram
  {
    var v := m.frames[i].vaddr;
    m.(table := Set(m.table, v, At(m.table, v).(valid := false)),
       disk := m.disk[m.slots[SlotOf(m.slots, v)].offset := m.ram[m.frames[i].paddr]])
  }

  /** add_page_entry. */
  function Enter(m: Vm, v: nat, i: nat): Vm
    requires TableOk(m.table) && i < |m.frames| && v < SPACE
  {
    m.(table := Set(m.table, v, Entry(m.frames[i].paddr, v, true, false, false)),
       frames := m.frames[i := Frame(m.frames[i].paddr, v, true, false)])
  }

  /** swap_in. */
  function SwapIn(m: Vm, v: nat, p: nat): Vm
    requires HasSlot(m.slots, v) && m.slots[SlotOf(m.slots, v)].offset in m.disk
  {
    m.(ram := m.ram[p := m.disk[m.slots[SlotOf(m.slots, v)].offset]])
  }

  /** The reference and dirty bits of an entry. */
  function Mark(m: Vm, v: nat, write: bool): Vm
    requires TableOk(m.table) && v < SPACE
  {
    var e := At(m.table, v);
    m.(table := Set(m.table, v, e.(ref := true, dirty := e.dirty || write)))
  }

  /** A user's store, through the page table. */
  function Store(m: Vm, v: nat, off: nat, x: int): Vm
    requires TableOk(m.table) && v < SPACE && At(m.table, v).paddr in m.ram && off < |m.ram[At(m.table, v).paddr]|
  {
    var p := At(m.table, v).paddr;
    m.(ram := m.ram[p := m.ram[p][off := x]])
  }

  lemma ClaimKeeps(m: Vm, pages: iset<nat>, i: nat)
    requires Inv(m, pages) && i < |m.frames| && !m.frames[i].valid
    ensures Reserved(Claim(m, i), pages, i) && SameContents(m, Claim(m, i), pages)
  {
    hide At, HasSlot;
    var m' := Claim(m, i);
    forall v | v in pages && At(m'.table, v).valid
      ensures (exists j :: InFrame(m', v, j)) && At(m'.table, v).paddr != m'.frames[i].paddr
    {
      var j: nat :| InFrame(m, v, j);
      if m.frames[j].paddr == m.frames[i].paddr { FramesApart(m, i, j); }
      assert InFrame(m', v, j);
    }
  }

  lemma SlotsApart(m: Vm, v: nat, w: nat)
    requires SlotsOk(m) && HasSlot(m.slots, v) && HasSlot(m.slots, w) && v != w
    ensures m.slots[SlotOf(m.slots, v)].offset != m.slots[SlotOf(m.slots, w)].offset
  {
  }

  lemma EvictKeeps(m: Vm, pages: iset<nat>, i: nat)
    requires Inv(m, pages) && i < |m.frames| && m.frames[i].valid
    ensures m.frames[i].vaddr in pages
    ensures Reserved(Evict(m, i), pages, i) && SameContents(m, Evict(m, i), pages)
  {
    hide At, Set, HasSlot, SlotOf;
    var m', u := Evict(m, i), m.frames[i].vaddr;
    forall w | w in pages ensures At(m'.table, w) == if w == u then At(m.table, u).(valid := false) else At(m.table, w) {
      SetAt(m.table, u, At(m.table, u).(valid := false), w);
    }
    forall v | v in pages && At(m'.table, v).valid
      ensures (exists j :: InFrame(m', v, j)) && At(m'.table, v).paddr != m'.frames[i].paddr
    {
      var j: nat :| InFrame(m, v, j);
      if m.frames[j].paddr == m.frames[i].paddr { FramesApart(m, i, j); }
      assert InFrame(m', v, j);
    }
    forall v | v in pages ensures Content(m', pages, v) == Content(m, pages, v) {
      if v != u { SlotsApart(m, v, u); }
    }
  }

  lemma FillKeeps(m: Vm, pages: iset<nat>, v: nat, i: nat)
    requires Reserved(m, pages, i) && v in pages && !At(m.table, v).valid
    ensures var m' := SwapIn(Enter(m, v, i), v, m.frames[i].paddr);
      && Inv(m', pages) && SameContents(m, m', pages)
      && At(m'.table, v).valid && At(m'.table, v).paddr == m.frames[i].paddr
  {
    hide At, Set, HasSlot, SlotOf;
    var p := m.frames[i].paddr;
    var m', e := SwapIn(Enter(m, v, i), v, p), Entry(p, v, true, false, false);
    forall w | w in pages ensures At(m'.table, w) == if w == v then e else At(m.table, w) {
      SetAt(m.table, v, e, w);
    }
    forall w | w in pages && At(m'.table, w).valid ensures exists j :: InFrame(m', w, j) {
      if w == v {
        assert InFrame(m', v, i);
      } else {
        var j :| InFrame(m, w, j);
        assert InFrame(m', w, j);
      }
    }
  }

  lemma MarkKeeps(m: Vm, pages: iset<nat>, v: nat, write: bool)
    requires Inv(m, pages) && v in pages
    ensures Inv(Mark(m, v, write), pages) && SameContents(m, Mark(m, v, write), pages)
    ensures At(Mark(m, v, write).table, v).paddr == At(m.table, v).paddr
    ensures At(Mark(m, v, write).table, v).valid == At(m.table, v).valid
    ensures At(Mark(m, v, write).table, v).ref && (write ==> At(Mark(m, v, write).table, v).dirty)
  {
    hide At, Set, HasSlot, SlotOf;
    var m', e := Mark(m, v, write), At(m.table, v);
    forall w | w in pages ensures At(m'.table, w) == if w == v then e.(ref := true, dirty := e.dirty || write) else At(m.table, w) {
      SetAt(m.table, v, e.(ref := true, dirty := e.dirty || write), w);
    }
    forall w | w in pages && At(m'.table, w).valid ensures exists j :: InFrame(m', w, j) {
      var j :| InFrame(m, w, j);
      assert InFrame(m', w, j);
    }
  }

  /** A store changes the one byte of the one page. */
  lemma StoreKeeps(m: Vm, pages: iset<nat>, v: nat, off: nat, x: int)
    requires Inv(m, pages) && v in pages && At(m.table, v).valid && off < PAGE_SIZE
    ensures At(m.table, v).paddr in m.ram && m.ram[At(m.table, v).paddr] == Content(m, pages, v)
    ensures var m' := Store(m, v, off, x);
      && Inv(m', pages)
      && forall w :: w in pages ==> Content(m', pages, w) == if w == v then Content(m, pages, w)[off := x] else Content(m, pages, w)
  {
    hide At, HasSlot, SlotOf;
    var m' := Store(m, v, off, x);
    forall w | w in pages && At(m'.table, w).valid ensures exists j :: InFrame(m', w, j) {
      var j :| InFrame(m, w, j);
      assert InFrame(m', w, j);
    }
    forall w | w in pages && w != v ensures Content(m', pages, w) == Content(m, pages, w) {
      if At(m.table, w).valid && At(m.table, w).paddr == At(m.table, v).paddr { NoSharing(m, pages, v, w); }
    }
  }
}
