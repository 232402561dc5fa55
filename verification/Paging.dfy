/** Demand paging (kern/vm/addrspace.c, kern/vm/swapspace.c) for one address space whose accesses
    go through its page table: faults, frame allocation, replacement and swapping, one page at a
    time.  Whatever the kernel does underneath, the user sees a flat memory. */
module Paging {
  import opened Digits
  import opened PageTable
  import opened Clock

  const USERSTACK: nat := 0x8000_0000
  const INIT_STACKPAGES: nat := 12

  datatype Regions = Regions(vbase1: nat, npages1: nat, vbase2: nat, npages2: nat)

  /** What vm_fault asserts of an address space, and that it lies in the 32-bit space. */
  predicate RegionsOk(sp: Regions) {
    && sp.vbase1 != 0 && sp.npages1 != 0 && sp.vbase1 % PAGE_SIZE == 0 && sp.vbase1 + sp.npages1 * PAGE_SIZE < SPACE
    && sp.vbase2 != 0 && sp.npages2 != 0 && sp.vbase2 % PAGE_SIZE == 0 && sp.vbase2 + sp.npages2 * PAGE_SIZE < SPACE
  }

  predicate InRegions(sp: Regions, v: nat) {
    || sp.vbase1 <= v < sp.vbase1 + sp.npages1 * PAGE_SIZE
    || sp.vbase2 <= v < sp.vbase2 + sp.npages2 * PAGE_SIZE
    || USERSTACK - INIT_STACKPAGES * PAGE_SIZE <= v < USERSTACK
  }

  ghost function Pages(sp: Regions): iset<nat> {
    iset v: nat | IsPage(v) && InRegions(sp, v)
  }

  datatype FaultType = ReadOnly | Read | Write | Other

  datatype Outcome = Fine(paddr: nat) | Efault | Einval | Panic

  // ------------------------------------------------------------- the pages in the slots

  /** Unused slots from i on. */
  function FreeFrom(slots: seq<Slot>, i: nat): nat
    requires i <= |slots|
    decreases |slots| - i
  {
    if i == |slots| then 0 else (if slots[i].valid then 0 else 1) + FreeFrom(slots, i + 1)
  }

  predicate FirstUnused(slots: seq<Slot>, k: nat) {
    k < |slots| && !slots[k].valid && forall i :: 0 <= i < k ==> slots[i].valid
  }

  lemma {:induction false} FreeOne(slots: seq<Slot>, i: nat)
    requires i <= |slots| && FreeFrom(slots, i) > 0
    ensures exists k :: i <= k < |slots| && !slots[k].valid
    decreases |slots| - i
  {
    if slots[i].valid { FreeOne(slots, i + 1); }
  }

  lemma {:induction false} FreeStep(slots: seq<Slot>, pos: nat, x: Slot, i: nat)
    requires pos < |slots| && i <= |slots| && !slots[pos].valid && x.valid
    ensures FreeFrom(slots[pos := x], i) == FreeFrom(slots, i) - if i <= pos then 1 else 0
    decreases |slots| - i
  {
    if i == |slots| {
    } else {
      FreeStep(slots, pos, x, i + 1);
    }
  }

  predicate Loaded(slots: seq<Slot>, v: nat) {
    exists k :: 0 <= k < |slots| && slots[k].vaddr == v && slots[k].valid
  }

  lemma LoadedStays(s: seq<Slot>, t: seq<Slot>, v: nat)
    requires |s| == |t| && Loaded(s, v) && forall k :: 0 <= k < |s| && s[k].valid ==> t[k] == s[k]
    ensures Loaded(t, v) && HasSlot(t, v)
  {
    var k :| 0 <= k < |s| && s[k].vaddr == v && s[k].valid;
    assert t[k].vaddr == v && t[k].valid;
  }

  function RunPage(first: nat, i: nat, down: bool): nat
    requires down ==> (i + 1) * PAGE_SIZE <= first
  {
    if down then first - (i + 1) * PAGE_SIZE else first + i * PAGE_SIZE
  }

  /** The three loops reach every page of the address space. */
  lemma PageInRun(sp: Regions, v: nat)
    requires RegionsOk(sp) && v in Pages(sp)
    ensures (exists i: nat :: i < sp.npages1 && v == RunPage(sp.vbase1, i, false))
         || (exists i: nat :: i < sp.npages2 && v == RunPage(sp.vbase2, i, false))
         || (exists i: nat :: i < INIT_STACKPAGES && v == RunPage(USERSTACK, i, true))
  {
    if sp.vbase1 <= v < sp.vbase1 + sp.npages1 * PAGE_SIZE {
      var i := PageNumber(sp.vbase1, sp.npages1, v);
    } else if sp.vbase2 <= v < sp.vbase2 + sp.npages2 * PAGE_SIZE {
      var i := PageNumber(sp.vbase2, sp.npages2, v);
    } else {
      var i := PageNumber(USERSTACK - INIT_STACKPAGES * PAGE_SIZE, INIT_STACKPAGES, v);
      assert v == RunPage(USERSTACK, INIT_STACKPAGES - 1 - i, true);
    }
  }

  /** And no others. */
  lemma RunInPages(sp: Regions, i: nat)
    requires RegionsOk(sp)
    ensures i < sp.npages1 ==> RunPage(sp.vbase1, i, false) in Pages(sp)
    ensures i < sp.npages2 ==> RunPage(sp.vbase2, i, false) in Pages(sp)
    ensures i < INIT_STACKPAGES ==> RunPage(USERSTACK, i, true) in Pages(sp)
  {
    if i < sp.npages1 { Within(sp.vbase1, i, sp.npages1); }
    if i < sp.npages2 { Within(sp.vbase2, i, sp.npages2); }
    if i < INIT_STACKPAGES { Within(USERSTACK - INIT_STACKPAGES * PAGE_SIZE, INIT_STACKPAGES - 1 - i, INIT_STACKPAGES); }
  }

  lemma Within(first: nat, i: nat, n: nat)
    requires first % PAGE_SIZE == 0 && i < n
    ensures first <= first + i * PAGE_SIZE < first + n * PAGE_SIZE && (first + i * PAGE_SIZE) % PAGE_SIZE == 0
  {
  }

  lemma PageNumber(first: nat, n: nat, v: nat) returns (i: nat)
    requires first % PAGE_SIZE == 0 && v % PAGE_SIZE == 0 && first <= v < first + n * PAGE_SIZE
    ensures i < n && v == RunPage(first, i, false)
  {
    DivModParts(first, PAGE_SIZE);
    DivModParts(v, PAGE_SIZE);
    i := v / PAGE_SIZE - first / PAGE_SIZE;
  }

  /** The first free frame from i on. */
  function FreeFrameFrom(frames: seq<Frame>, i: nat): (k: nat)
    requires i <= |frames|
    ensures i <= k <= |frames|
    decreases |frames| - i
  {
    if i == |frames| || !frames[i].valid then i else FreeFrameFrom(frames, i + 1)
  }

  /** The frame holds a page that has a slot. */
  predicate CanEvict(m: Vm, i: nat) {
    && TableOk(m.table) && i < |m.frames| && m.frames[i].vaddr < SPACE
    && HasSlot(m.slots, m.frames[i].vaddr) && m.frames[i].paddr in m.ram
  }

  // --------------------------------------------------------- what methods use of the state

  lemma InvShape(m: Vm, pages: iset<nat>)
    requires Inv(m, pages)
    ensures Shape(m, pages)
  {
  }

  lemma InvSound(m: Vm, pages: iset<nat>)
    requires Inv(m, pages)
    ensures Sound(m, pages)
  {
  }

  lemma ReservedShape(m: Vm, pages: iset<nat>, i: int)
    requires Reserved(m, pages, i)
    ensures Shape(m, pages) && Mapped(m, pages) && 0 <= i < |m.frames|
    ensures forall v :: v in pages ==> HasSlot(m.slots, v) && m.slots[SlotOf(m.slots, v)].offset in m.disk
  {
  }

  lemma Same(m: Vm, pages: iset<nat>)
    requires Inv(m, pages)
    ensures SameContents(m, m, pages)
  {
  }

  lemma Transitive(a: Vm, b: Vm, c: Vm, pages: iset<nat>)
    requires SameContents(a, b, pages) && SameContents(b, c, pages)
    ensures SameContents(a, c, pages)
  {
    hide Content, Shape, Mapped;
  }

  lemma AtIs(table: seq<Level2>, v: nat)
    requires TableOk(table) && v < SPACE
    ensures Index1(v) < |table| && (table[Index1(v)].Level2? ==> Index2(v) < |table[Index1(v)].entries|)
    ensures At(table, v).valid ==> table[Index1(v)].Level2?
    ensures table[Index1(v)].Level2? ==> At(table, v) == table[Index1(v)].entries[Index2(v)]
    ensures table[Index1(v)].Missing? ==> !At(table, v).valid
  {
  }

  /** Replacement makes entries invalid only. */
  lemma EvictOnly(m: Vm, pages: iset<nat>, i: nat)
    requires Inv(m, pages) && i < |m.frames| && m.frames[i].valid
    ensures m.frames[i].vaddr in pages && At(m.table, m.frames[i].vaddr).valid && HasSlot(m.slots, m.frames[i].vaddr)
    ensures m.frames[i].paddr in m.ram
    ensures forall v :: v in pages && At(Evict(m, i).table, v).valid ==> At(m.table, v).valid
  {
    hide At, Set, HasSlot, SlotOf;
    var u := m.frames[i].vaddr;
    forall v | v in pages && At(Evict(m, i).table, v).valid ensures At(m.table, v).valid {
      SetAt(m.table, u, At(m.table, u).(valid := false), v);
    }
  }

  /** Frames of an aligned frame table are aligned. */
  lemma Aligned(base: nat, frames: seq<Frame>, p: nat)
    requires base % PAGE_SIZE == 0 && exists i :: 0 <= i < |frames| && p == base + i * PAGE_SIZE
    ensures p % PAGE_SIZE == 0
  {
    var i :| 0 <= i < |frames| && p == base + i * PAGE_SIZE;
    DivModParts(base, PAGE_SIZE);
    DivModUnique(p, PAGE_SIZE, base / PAGE_SIZE + i, 0);
  }

  lemma ValidContent(m: Vm, pages: iset<nat>, v: nat)
    requires Inv(m, pages) && v in pages && At(m.table, v).valid
    ensures At(m.table, v).paddr in m.ram && m.ram[At(m.table, v).paddr] == Content(m, pages, v)
    ensures exists i :: 0 <= i < |m.frames| && At(m.table, v).paddr == m.base + i * PAGE_SIZE
  {
    var i: nat :| InFrame(m, v, i);
    assert At(m.table, v).paddr == m.base + i * PAGE_SIZE;
  }

  // -------------------------------------------------------------------- the flat memory

  datatype Op = Load(addr: nat, tlbMiss: bool) | Save(addr: nat, x: int, tlbMiss: bool)

  datatype Answer = Value(x: int) | Done | Fault

  function FlatStep(mem: imap<nat, int>, op: Op): (imap<nat, int>, Answer) {
    if op.addr !in mem then (mem, Fault)
    else match op
      case Load(a, _) => (mem, Value(mem[a]))
      case Save(a, x, _) => (mem[a := x], Done)
  }

  function FlatRun(mem: imap<nat, int>, ops: seq<Op>): seq<Answer> {
    if ops == [] then []
    else
      var (mem', r) := FlatStep(mem, ops[0]);
      [r] + FlatRun(mem', ops[1..])
  }

  lemma FlatTail(mem: imap<nat, int>, ops: seq<Op>, i: nat)
    requires i < |ops|
    ensures FlatRun(mem, ops[i..]) == [FlatStep(mem, ops[i]).1] + FlatRun(FlatStep(mem, ops[i]).0, ops[i + 1..])
  {
    assert ops[i..][0] == ops[i] && ops[i..][1..] == ops[i + 1..];
  }

  predicate Saves(op: Op, a: nat) {
    op.Save? && op.addr == a
  }

  predicate NoSaves(ops: seq<Op>, lo: nat, hi: nat, a: nat)
    requires hi <= |ops|
  {
    forall i :: lo <= i < hi ==> !Saves(ops[i], a)
  }

  /** What a load reads: the last save to its address before it, or the initial value where there
      was none. */
  lemma {:induction false} LastSave(mem: imap<nat, int>, ops: seq<Op>, k: nat, a: nat)
    requires k < |ops| && ops[k].Load? && ops[k].addr == a && a in mem
    ensures |FlatRun(mem, ops)| == |ops|
    ensures NoSaves(ops, 0, k, a) ==> FlatRun(mem, ops)[k] == Value(mem[a])
    ensures forall j :: 0 <= j < k && Saves(ops[j], a) && NoSaves(ops, j + 1, k, a) ==> FlatRun(mem, ops)[k] == Value(ops[j].x)
    decreases |ops|
  {
    var mem', rest := FlatStep(mem, ops[0]).0, ops[1..];
    Answers(mem', rest);
    if k > 0 {
      LastSave(mem', rest, k - 1, a);
      assert forall i :: 0 <= i < |rest| ==> rest[i] == ops[i + 1];
      forall j | 0 <= j < k && Saves(ops[j], a) && NoSaves(ops, j + 1, k, a) ensures FlatRun(mem, ops)[k] == Value(ops[j].x) {
        if j > 0 {
          assert Saves(rest[j - 1], a) && NoSaves(rest, j, k - 1, a);
        } else {
          assert NoSaves(rest, 0, k - 1, a);
        }
      }
      if NoSaves(ops, 0, k, a) {
        assert !Saves(ops[0], a) && NoSaves(rest, 0, k - 1, a);
      }
    }
  }

  lemma {:induction false} Answers(mem: imap<nat, int>, ops: seq<Op>)
    ensures |FlatRun(mem, ops)| == |ops|
    decreases |ops|
  {
    if ops == [] {
    } else {
      Answers(FlatStep(mem, ops[0]).0, ops[1..]);
    }
  }

  lemma PageIs(a: nat)
    requires a < SPACE
    ensures IsPage(PageOf(a)) && a == PageOf(a) + a % PAGE_SIZE && (IsPage(a) ==> PageOf(a) == a)
  {
    DivModParts(a, PAGE_SIZE);
    DivModUnique(PageOf(a), PAGE_SIZE, a / PAGE_SIZE, 0);
  }

  ghost function Bytes(m: Vm, pages: iset<nat>): imap<nat, int>
    requires Sound(m, pages)
  {
    imap a: nat | PageOf(a) in pages :: Content(m, pages, PageOf(a))[a % PAGE_SIZE]
  }

  lemma SameBytes(m: Vm, m': Vm, pages: iset<nat>)
    requires SameContents(m, m', pages)
    ensures Bytes(m, pages) == Bytes(m', pages)
  {
    hide Content, At, Shape, Mapped;
  }

  lemma BytesAt(m: Vm, pages: iset<nat>, a: nat)
    requires Inv(m, pages)
    ensures a in Bytes(m, pages) <==> PageOf(a) in pages
    ensures PageOf(a) in pages ==> Bytes(m, pages)[a] == Content(m, pages, PageOf(a))[a % PAGE_SIZE]
  {
    hide Content, At, Shape, Mapped;
  }

  lemma StoreBytes(m: Vm, pages: iset<nat>, a: nat, x: int)
    requires Inv(m, pages) && PageOf(a) in pages && At(m.table, PageOf(a)).valid && a < SPACE
    ensures At(m.table, PageOf(a)).paddr in m.ram && |m.ram[At(m.table, PageOf(a)).paddr]| == PAGE_SIZE
    ensures var m' := Store(m, PageOf(a), a % PAGE_SIZE, x); Inv(m', pages) && Bytes(m', pages) == Bytes(m, pages)[a := x]
  {
    hide Content, At;
    StoreKeeps(m, pages, PageOf(a), a % PAGE_SIZE, x);
    var m' := Store(m, PageOf(a), a % PAGE_SIZE, x);
    forall b: nat | PageOf(b) in pages ensures Bytes(m', pages)[b] == if b == a then x else Bytes(m, pages)[b] {
      DivModParts(a, PAGE_SIZE);
      DivModParts(b, PAGE_SIZE);
    }
    assert Bytes(m', pages) == Bytes(m, pages)[a := x];
  }

  // ------------------------------------------------------------------------ the kernel

  class Pager {
    const base: nat
    const hands: TwoHands
    var table: seq<Level2>
    var frames: seq<Frame>
    var slots: seq<Slot>
    var ram: map<nat, Page>
    var disk: map<nat, Page>

    ghost function View(): Vm
      reads this
    {
      Vm(base, table, frames, slots, ram, disk)
    }

    ghost predicate HandsOk()
      reads this, hands
    {
      hands.Valid() && hands.frames == |frames| && base % PAGE_SIZE == 0
    }

    ghost predicate Valid(pages: iset<nat>)
      reads this, hands
    {
      HandsOk() && Inv(View(), pages)
    }

    /** page_frame_table_bootstrap, swapspace_init and as_create: all frames free, no level 2
        table, and slots whose other fields are whatever the memory held. */
    constructor (pa: nat, n: nat, angle: nat, raw: seq<Slot>, frameBytes: map<nat, Page>, swapFile: map<nat, Page>)
      requires 0 < angle < n && pa % PAGE_SIZE == 0
      requires forall i :: 0 <= i < n ==> pa + i * PAGE_SIZE in frameBytes
      requires forall k :: 0 <= k < |raw| ==> k * PAGE_SIZE in swapFile
      requires forall p :: p in frameBytes ==> |frameBytes[p]| == PAGE_SIZE
      requires forall p :: p in swapFile ==> |swapFile[p]| == PAGE_SIZE
      ensures base == pa && ram == frameBytes && disk == swapFile && HandsOk() && fresh(hands) && fresh(hands.refs)
      ensures Started() && |frames| == n && |slots| == |raw|
      ensures forall k :: 0 <= k < |raw| ==> slots[k] == raw[k].(offset := k * PAGE_SIZE)
    {
      base := pa;
      var bits := new bool[n];
      hands := new TwoHands(n, angle, bits);
      table := seq(LEVEL1, i => Missing);
      frames := seq(n, i requires i >= 0 => Frame(pa + i * PAGE_SIZE, 0, false, false));
      slots := seq(|raw|, k requires 0 <= k < |raw| => raw[k].(offset := k * PAGE_SIZE));
      ram, disk := frameBytes, swapFile;
    }

    /** No page is mapped and no frame is in use. */
    ghost predicate Started()
      reads this
    {
      var m := View();
      && TableOk(table) && FramesOk(m) && SlotsOk(m) && Sized(m)
      && (forall i :: 0 <= i < |table| ==> table[i] == Missing)
      && (forall i :: 0 <= i < |frames| ==> !frames[i].valid)
    }

    // ------------------------------------------------------- loading an address space

    /** swapspace_insert: the first unused slot becomes v's. */
    method SwapspaceInsert(v: nat, pid: int)
      requires exists k :: 0 <= k < |slots| && !slots[k].valid
      modifies this`slots
      ensures |slots| == |old(slots)| && FreeFrom(slots, 0) == FreeFrom(old(slots), 0) - 1
      ensures exists k: nat :: FirstUnused(old(slots), k) && slots == old(slots)[k := Slot(v, old(slots)[k].offset, true, pid, 0)]
      ensures exists k :: 0 <= k < |slots| && slots[k].vaddr == v && slots[k].valid
      ensures forall k :: 0 <= k < |slots| ==> slots[k].offset == old(slots)[k].offset
      ensures forall k :: 0 <= k < |slots| && old(slots)[k].valid ==> slots[k] == old(slots)[k]
    {
      var pos := 0;
      while pos < |slots|
        invariant pos <= |slots| && forall i :: 0 <= i < pos ==> slots[i].valid
      {
        if !slots[pos].valid {
          break;
        }
        pos := pos + 1;
      }
      FreeStep(slots, pos, slots[pos].(vaddr := v, counter := 0, pid := pid, valid := true), 0);
      slots := slots[pos := slots[pos].(vaddr := v, counter := 0, pid := pid, valid := true)];
      assert FirstUnused(old(slots), pos) && slots[pos].vaddr == v && slots[pos].valid;
    }

    /** One of swapspace_load_as's loops: n pages up from, or down below, an address. */
    method LoadRun(first: nat, n: nat, down: bool, pid: int)
      requires n <= FreeFrom(slots, 0) && (down ==> n * PAGE_SIZE <= first)
      modifies this`slots
      ensures |slots| == |old(slots)| && FreeFrom(slots, 0) == FreeFrom(old(slots), 0) - n
      ensures forall i :: 0 <= i < n ==> Loaded(slots, RunPage(first, i, down))
      ensures forall k :: 0 <= k < |slots| ==> slots[k].offset == old(slots)[k].offset
      ensures forall k :: 0 <= k < |slots| && old(slots)[k].valid ==> slots[k] == old(slots)[k]
    {
      var i := 0;
      while i < n
        invariant i <= n && |slots| == |old(slots)| && FreeFrom(slots, 0) == FreeFrom(old(slots), 0) - i
        invariant forall j :: 0 <= j < i ==> Loaded(slots, RunPage(first, j, down))
        invariant forall k :: 0 <= k < |slots| ==> slots[k].offset == old(slots)[k].offset
        invariant forall k :: 0 <= k < |slots| && old(slots)[k].valid ==> slots[k] == old(slots)[k]
      {
        FreeOne(slots, 0);
        ghost var before := slots;
        SwapspaceInsert(RunPage(first, i, down), pid);
        forall j | 0 <= j < i ensures Loaded(slots, RunPage(first, j, down)) { LoadedStays(before, slots, RunPage(first, j, down)); }
        i := i + 1;
      }
    }

    /** swapspace_load_as.  Afterwards every page of the address space has a slot. */
    method LoadAs(sp: Regions, pid: int)
      requires RegionsOk(sp) && Started() && HandsOk() && sp.npages1 + sp.npages2 + INIT_STACKPAGES <= FreeFrom(slots, 0)
      modifies this`slots
      ensures Valid(Pages(sp)) && Started()
    {
      LoadRun(sp.vbase1, sp.npages1, false, pid);
      ghost var s1 := slots;
      LoadRun(sp.vbase2, sp.npages2, false, pid);
      ghost var s2 := slots;
      LoadRun(USERSTACK, INIT_STACKPAGES, true, pid);
      forall v | v in Pages(sp) ensures HasSlot(slots, v) {
        PageInRun(sp, v);
        if i: nat :| i < sp.npages1 && v == RunPage(sp.vbase1, i, false) {
          LoadedStays(s1, s2, v);
          LoadedStays(s2, slots, v);
        } else if i: nat :| i < sp.npages2 && v == RunPage(sp.vbase2, i, false) {
          LoadedStays(s2, slots, v);
        }
      }
      assert Inv(View(), Pages(sp));
    }

    // -------------------------------------------------------------------- swapping

    /** The search loop of swap_in and swap_out. */
    method FindSlot(v: nat) returns (k: nat)
      requires HasSlot(slots, v)
      ensures k == SlotOf(slots, v)
    {
      k := 0;
      while k < |slots|
        invariant k <= |slots| && forall i :: 0 <= i < k ==> slots[i].vaddr != v
      {
        if slots[k].vaddr == v {
          break;
        }
        k := k + 1;
      }
    }

    method SwapOut(v: nat, p: nat)
      requires HasSlot(slots, v) && p in ram
      modifies this`disk
      ensures disk == old(disk)[slots[SlotOf(slots, v)].offset := ram[p]]
    {
      var k := FindSlot(v);
      disk := disk[slots[k].offset := ram[p]];
    }

    method SwapInTo(v: nat, p: nat)
      requires HasSlot(slots, v) && slots[SlotOf(slots, v)].offset in disk
      modifies this`ram
      ensures View() == SwapIn(old(View()), v, p)
    {
      var k := FindSlot(v);
      ram := ram[p := disk[slots[k].offset]];
    }

    // ------------------------------------------------------------------ allocation

    method AddPageEntry(v: nat, p: nat, ghost i: nat)
      requires HandsOk() && TableOk(table) && v < SPACE && i < |frames|
      requires frames[i].paddr == p == base + i * PAGE_SIZE
      modifies this`table, this`frames, hands.refs
      ensures HandsOk() && View() == Enter(old(View()), v, i) && hands.refs[..] == old(hands.refs[..])[i := false]
    {
      if table[Index1(v)].Missing? {
        table := table[Index1(v) := Level2(seq(LEVEL2, j => NO_ENTRY))];
      }
      var l2 := table[Index1(v)].entries;
      table := table[Index1(v) := Level2(l2[Index2(v) := Entry(p, v, true, false, false)])];
      DivModUnique(p - base, PAGE_SIZE, i, 0);
      var p12 := (p - base) / PAGE_SIZE;
      frames := frames[p12 := Frame(p, v, true, false)];
      hands.refs[p12] := false;
    }

    /** The scan for a free frame. */
    method FirstFree() returns (i: nat)
      ensures i == FreeFrameFrom(frames, 0) && i <= |frames|
      ensures i < |frames| ==> !frames[i].valid
      ensures i == |frames| ==> forall j :: 0 <= j < |frames| ==> frames[j].valid
    {
      i := 0;
      while i < |frames|
        invariant i <= |frames| && FreeFrameFrom(frames, i) == FreeFrameFrom(frames, 0)
        invariant forall j :: 0 <= j < i ==> frames[j].valid
      {
        if !frames[i].valid {
          return;
        }
        i := i + 1;
      }
    }

    /** virtual_alloc_kpages(1): a free frame, or else the clock's choice, whose page is put out. */
    method AllocFrame(ghost pages: iset<nat>) returns (p: nat, ghost i: nat, ghost m0: Vm)
      requires Valid(pages)
      modifies this`table, this`frames, this`disk, hands, hands.refs
      ensures HandsOk() && hands.refs == old(hands.refs)
      ensures Reserved(View(), pages, i) && p == frames[i].paddr == base + i * PAGE_SIZE
      ensures SameContents(old(View()), View(), pages)
      ensures forall v :: v in pages && At(table, v).valid ==> At(old(table), v).valid
      ensures FreeFrameFrom(old(frames), 0) < |frames| ==> i == FreeFrameFrom(old(frames), 0)
      ensures FreeFrameFrom(old(frames), 0) < |frames| ==> View() == Claim(old(View()), i) && hands.at == old(hands.at)
      ensures FreeFrameFrom(old(frames), 0) < |frames| ==> hands.refs[..] == old(hands.refs[..])[i := false]
      ensures FreeFrameFrom(old(frames), 0) == |frames| ==> i == (hands.at - 1) % |frames|
      ensures FreeFrameFrom(old(frames), 0) == |frames| ==> old(hands.at) < hands.at <= old(hands.at) + hands.angle + 1
      ensures FreeFrameFrom(old(frames), 0) == |frames| ==> m0 == old(View()) && CanEvict(m0, i) && View() == Evict(m0, i)
    {
      hide Inv, Reserved, SameContents, Content, At, Set, HasSlot, SlotOf;
      m0 := View();
      InvShape(View(), pages);
      var f := FirstFree();
      i := f;
      if f < |frames| {
        ClaimKeeps(View(), pages, f);
        frames := frames[f := frames[f].(valid := true, dirty := false)];
        hands.refs[f] := false;
        p := frames[f].paddr;
      } else {
        var n := hands.Replace();
        i := n;
        p := frames[n].paddr;
        DivModUnique(p - base, PAGE_SIZE, n, 0);
        var frame := (p - base) / PAGE_SIZE;
        var v := frames[frame].vaddr;
        EvictKeeps(View(), pages, frame);
        EvictOnly(View(), pages, frame);
        Invalidate(v);
        SwapOut(v, p);
      }
    }

    /** The old page's entry becomes invalid. */
    method Invalidate(v: nat)
      requires TableOk(table) && v < SPACE && At(table, v).valid
      modifies this`table
      ensures table == Set(old(table), v, At(old(table), v).(valid := false))
    {
      Indices(v);
      var l2 := table[Index1(v)].entries;
      table := table[Index1(v) := Level2(l2[Index2(v) := l2[Index2(v)].(valid := false)])];
    }

    /** The bits set at the end of get_physical_address. */
    method SetBits(v: nat, write: bool)
      requires TableOk(table) && v < SPACE && At(table, v).valid
      modifies this`table
      ensures View() == Mark(old(View()), v, write)
    {
      Indices(v);
      var l2 := table[Index1(v)].entries;
      var e := l2[Index2(v)];
      table := table[Index1(v) := Level2(l2[Index2(v) := e.(ref := true, dirty := e.dirty || write)])];
    }

    /** The missing page gets a frame, an entry, and its bytes. */
    method BringIn(v: nat, ghost pages: iset<nat>)
      requires Valid(pages) && v in pages && !At(table, v).valid
      modifies this`table, this`frames, this`disk, this`ram, hands, hands.refs
      ensures Valid(pages) && hands.refs == old(hands.refs)
      ensures SameContents(old(View()), View(), pages) && At(table, v).valid
    {
      hide Inv, Reserved, SameContents, Content, At, Set, HasSlot, SlotOf;
      ghost var m0 := View();
      var target: nat;
      ghost var i: nat, was: Vm;
      target, i, was := AllocFrame(pages);
      ghost var m1 := View();
      FillKeeps(m1, pages, v, i);
      ReservedShape(m1, pages, i);
      Transitive(m0, m1, SwapIn(Enter(m1, v, i), v, target), pages);
      AddPageEntry(v, target, i);
      SwapInTo(v, target);
    }

    /** The search loop of swap_in, for an address that need not have a slot. */
    method HasSlotFor(v: nat) returns (found: bool)
      ensures found == HasSlot(slots, v)
    {
      var k := 0;
      while k < |slots|
        invariant k <= |slots| && forall i :: 0 <= i < k ==> slots[i].vaddr != v
      {
        if slots[k].vaddr == v {
          return true;
        }
        k := k + 1;
      }
      found := false;
    }

    /** get_physical_address, for a read or a write.  vm_fault passes page addresses.  An address
        inside a page is translated too when the page is present; when it is missing, the search in
        swap_in finds no slot for that address, and its assert panics. */
    method GetPhysicalAddress(v: nat, write: bool, ghost pages: iset<nat>) returns (r: Outcome, ghost k: nat)
      requires Valid(pages) && v < SPACE && PageOf(v) in pages && (v != PageOf(v) ==> !HasSlot(slots, v))
      modifies this`table, this`frames, this`disk, this`ram, hands, hands.refs
      ensures r.Panic? <==> v != PageOf(v) && !At(old(table), PageOf(v)).valid
      ensures !r.Panic? ==> r.Fine? && Present(v, r.paddr, write, pages)
      ensures !r.Panic? ==> Valid(pages) && hands.refs == old(hands.refs) && SameContents(old(View()), View(), pages)
      ensures At(old(table), PageOf(v)).valid ==> View() == Mark(old(View()), PageOf(v), write) && hands.at == old(hands.at)
      ensures At(old(table), PageOf(v)).valid ==>
        RefAt(k, At(table, PageOf(v)).paddr) && hands.refs[..] == old(hands.refs[..])[k := true]
    {
      hide Inv, Reserved, SameContents, Content, At, Set, HasSlot, SlotOf;
      var offset, page := v % PAGE_SIZE, PageOf(v);
      PageIs(v);
      InvShape(View(), pages);
      ghost var m0 := View();
      Same(m0, pages);
      Indices(page);
      var missing := table[Index1(page)].Missing? || !table[Index1(page)].entries[Index2(page)].valid;
      assert missing == !At(table, page).valid by { AtIs(table, page); }
      if missing {
        if offset != 0 {
          var found := HasSlotFor(v);
          assert !found;
          return Panic, 0;
        }
        BringIn(page, pages);
      }
      ghost var m1 := View();
      var p: nat;
      p, k := Touch(v, write, pages);
      Transitive(m0, m1, View(), pages);
      r := Fine(p);
    }

    /** The end of get_physical_address, for a page that is present. */
    method Touch(v: nat, write: bool, ghost pages: iset<nat>) returns (p: nat, ghost k: nat)
      requires Valid(pages) && v < SPACE && PageOf(v) in pages && At(table, PageOf(v)).valid
      modifies this`table, hands.refs
      ensures Valid(pages) && View() == Mark(old(View()), PageOf(v), write) && SameContents(old(View()), View(), pages)
      ensures Present(v, p, write, pages)
      ensures RefAt(k, At(table, PageOf(v)).paddr) && hands.refs[..] == old(hands.refs[..])[k := true]
    {
      hide Inv, SameContents, Content, At, Set, HasSlot, SlotOf;
      var page := PageOf(v);
      PageIs(v);
      ghost var m := View();
      MarkKeeps(m, pages, page, write);
      InvShape(m, pages);
      SetBits(page, write);
      InvShape(View(), pages);
      InvSound(View(), pages);
      AtIs(table, page);
      var pad := table[Index1(page)].entries[Index2(page)].paddr;
      ValidContent(View(), pages, page);
      k := SetRef(pad);
      assert hands.refs[..][k] && hands.refs[k];
      p := pad + v % PAGE_SIZE;
    }

    /** The k-th reference bit is that of the frame at pad. */
    ghost predicate RefAt(k: nat, pad: nat)
      reads this, hands
    {
      k < |frames| && pad == base + k * PAGE_SIZE && hands.refs.Length == |frames|
    }

    /** The page of v is in a frame with its content, its bits are set, and p is v's address there. */
    ghost predicate Present(v: nat, p: nat, write: bool, pages: iset<nat>)
      reads this, hands, hands.refs
      requires v < SPACE && PageOf(v) in pages
    {
      && Sound(View(), pages) && hands.refs.Length == |frames|
      && var e := At(table, PageOf(v));
        && e.valid && p == e.paddr + v % PAGE_SIZE && e.paddr in ram && ram[e.paddr] == Content(View(), pages, PageOf(v))
        && e.ref && (write ==> e.dirty)
        && exists i :: 0 <= i < |frames| && e.paddr == base + i * PAGE_SIZE && hands.refs[i]
    }

    method SetRef(pad: nat) returns (ghost k: nat)
      requires HandsOk() && exists i :: 0 <= i < |frames| && pad == base + i * PAGE_SIZE
      modifies hands.refs
      ensures HandsOk() && k < |frames| && pad == base + k * PAGE_SIZE && hands.refs[..] == old(hands.refs[..])[k := true]
    {
      k :| 0 <= k < |frames| && pad == base + k * PAGE_SIZE;
      DivModUnique(pad - base, PAGE_SIZE, k, 0);
      hands.refs[(pad - base) / PAGE_SIZE] := true;
    }

    /** vm_fault: all ways it ends, and none of them changes what any page holds. */
    method VmFault(kind: FaultType, addr: nat, sp: Regions, hasSpace: bool) returns (r: Outcome)
      requires RegionsOk(sp) && Valid(Pages(sp)) && addr < SPACE
      modifies this`table, this`frames, this`disk, this`ram, hands, hands.refs
      ensures Valid(Pages(sp)) && hands.refs == old(hands.refs) && SameContents(old(View()), View(), Pages(sp))
      ensures r.Panic? <==> kind.ReadOnly?
      ensures r.Einval? <==> kind.Other?
      ensures r.Efault? <==> (kind.Read? || kind.Write?) && !(hasSpace && PageOf(addr) in Pages(sp))
      ensures r.Fine? ==> At(table, PageOf(addr)).valid && r.paddr == At(table, PageOf(addr)).paddr && r.paddr in ram
      ensures r.Fine? ==> ram[r.paddr] == Content(View(), Pages(sp), PageOf(addr)) && r.paddr % PAGE_SIZE == 0
    {
      hide Inv, SameContents, Content, At;
      Same(View(), Pages(sp));
      PageIs(addr);
      var page := PageOf(addr);
      match kind {
        case ReadOnly => return Panic;
        case Other => return Einval;
        case _ =>
      }
      if !hasSpace {
        return Efault;
      }
      if InRegions(sp, page) {
        PageIs(page);
        ghost var k: nat;
        r, k := GetPhysicalAddress(page, kind.Write?, Pages(sp));
        Aligned(base, frames, r.paddr);
      } else {
        r := Efault;
      }
    }

    // -------------------------------------------------------------------- user accesses

    /** The user's memory, byte by byte. */
    ghost function User(sp: Regions): imap<nat, int>
      requires Valid(Pages(sp))
      reads this, hands
    {
      Bytes(View(), Pages(sp))
    }

    /** An access translates through the page table, after a fault when the entry is not valid or
        the TLB lost it. */
    method Translate(addr: nat, write: bool, tlbMiss: bool, sp: Regions) returns (r: Outcome)
      requires RegionsOk(sp) && Valid(Pages(sp)) && addr < SPACE
      modifies this`table, this`frames, this`disk, this`ram, hands, hands.refs
      ensures Valid(Pages(sp)) && hands.refs == old(hands.refs) && SameContents(old(View()), View(), Pages(sp))
      ensures r.Fine? <==> PageOf(addr) in Pages(sp)
      ensures r.Fine? ==> At(table, PageOf(addr)).valid && r.paddr == At(table, PageOf(addr)).paddr && r.paddr in ram
      ensures r.Fine? ==> ram[r.paddr] == Content(View(), Pages(sp), PageOf(addr))
    {
      hide Inv, SameContents, Content, At;
      var page := PageOf(addr);
      PageIs(addr);
      InvShape(View(), Pages(sp));
      AtIs(table, page);
      if !tlbMiss && InRegions(sp, page) && table[Index1(page)].Level2? && table[Index1(page)].entries[Index2(page)].valid {
        ValidContent(View(), Pages(sp), page);
        Same(View(), Pages(sp));
        r := Fine(table[Index1(page)].entries[Index2(page)].paddr);
      } else {
        r := VmFault(if write then Write else Read, addr, sp, true);
      }
    }

    method Access(op: Op, sp: Regions) returns (r: Answer)
      requires RegionsOk(sp) && Valid(Pages(sp)) && op.addr < SPACE
      modifies this`table, this`frames, this`disk, this`ram, hands, hands.refs
      ensures Valid(Pages(sp)) && hands.refs == old(hands.refs)
      ensures (User(sp), r) == FlatStep(old(User(sp)), op)
    {
      hide Inv, SameContents, Content, At, Bytes;
      ghost var pages, m0 := Pages(sp), View();
      var t := Translate(op.addr, op.Save?, op.tlbMiss, sp);
      ghost var m1 := View();
      SameBytes(m0, m1, pages);
      BytesAt(m1, pages, op.addr);
      if !t.Fine? {
        return Fault;
      }
      var off := op.addr % PAGE_SIZE;
      match op {
        case Load(_, _) => r := Value(ram[t.paddr][off]);
        case Save(_, x, _) =>
          StoreKeeps(m1, pages, PageOf(op.addr), off, x);
          StoreBytes(m1, pages, op.addr, x);
          ram := ram[t.paddr := ram[t.paddr][off := x]];
          r := Done;
      }
    }

    /** Any run of accesses, with TLB misses anywhere, answers as a flat memory does: every load
        returns the last value saved at its address, or what was there at the start. */
    method Run(ops: seq<Op>, sp: Regions) returns (out: seq<Answer>)
      requires RegionsOk(sp) && Valid(Pages(sp)) && forall i :: 0 <= i < |ops| ==> ops[i].addr < SPACE
      modifies this`table, this`frames, this`disk, this`ram, hands, hands.refs
      ensures Valid(Pages(sp)) && out == FlatRun(old(User(sp)), ops)
    {
      hide Inv, Bytes, FlatStep, Pages, RegionsOk;
      out := [];
      var i := 0;
      assert ops[0..] == ops;
      while i < |ops|
        invariant i <= |ops| && Valid(Pages(sp)) && hands.refs == old(hands.refs)
        invariant out + FlatRun(User(sp), ops[i..]) == FlatRun(old(User(sp)), ops)
      {
        FlatTail(User(sp), ops, i);
        var r := Access(ops[i], sp);
        out := out + [r];
        i := i + 1;
      }
    }
  }
}
