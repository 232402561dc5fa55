/** Interrupt levels (kern/thread/spl.c), spinlocks (kern/thread/spinlock.c), interrupt entry and
    exit (kern/arch/mips/locore/trap.c) and their accounting across context switches
    (kern/thread/thread.c), for any number of CPUs and threads. */
module Interrupts {
  type Tid = int
  type Cid = int

  /** The spinlocks: each CPU's c_runqueue_lock, and all others. */
  datatype Lock = Runq(c: Cid) | Other(id: int)

  /** t_iplhigh_count, whether t_curspl is IPL_HIGH, and the processor's interrupt enable. */
  datatype Level = Level(count: int, high: bool, irq: bool)

  function Raise(l: Level): Level {
    Level(l.count + 1, l.high, if l.count == 0 then false else l.irq)
  }

  function Lower(l: Level): Level {
    Level(l.count - 1, l.high, if l.count - 1 == 0 then true else l.irq)
  }

  function SetLevel(l: Level, high: bool): Level {
    if !l.high && high then Raise(l).(high := true)
    else if l.high && !high then Lower(l.(high := false))
    else l
  }

  /** The fields of the current thread and processor that spl.c updates. */
  class Core {
    var count: int
    var high: bool
    var irq: bool

    constructor (count: int, high: bool, irq: bool)
      ensures Now() == Level(count, high, irq)
    {
      this.count, this.high, this.irq := count, high, irq;
    }

    ghost function Now(): Level
      reads this
    {
      Level(count, high, irq)
    }

    method SplRaise()
      modifies this
      ensures Now() == Raise(old(Now()))
    {
      if count == 0 {
        irq := false;
      }
      count := count + 1;
    }

    method SplLower()
      modifies this
      ensures Now() == Lower(old(Now()))
    {
      count := count - 1;
      if count == 0 {
        irq := true;
      }
    }

    method SplX(level: bool) returns (was: bool)
      modifies this
      ensures Now() == SetLevel(old(Now()), level) && was == old(high)
    {
      was := high;
      if !high && level {
        SplRaise();
        high := level;
      } else if high && !level {
        high := level;
        SplLower();
      }
    }
  }

  // ------------------------------------------------------------------- the machine

  /** What a thread's stack remembers: the level to go back to at the end of thread_switch (or
      of thread_startup, which goes to IPL_NONE), and an interrupt with or without adjustment. */
  datatype Frame = Switch(high: bool) | Irq(adjust: bool)

  datatype Thread = Thread(count: int, high: bool, stack: seq<Frame>)

  /** Where the CPU is: Parked holds the run queue lock and looks for a thread, Waiting is
      cpu_idle, Arrived is just after the context switch, Leaving after the lock's release, destroying
      zombies. */
  datatype Mode = Normal | Parked | Waiting | Arrived | Leaving

  /** `spinning` is between raising the level and getting the lock; `base` is where on the stack
      the frame of an interrupt out of cpu_idle is. */
  datatype Cpu = Cpu(cur: Tid, irq: bool, held: set<Lock>, spinning: bool, mode: Mode, idle: bool, base: nat)

  datatype State = State(cpus: map<Cid, Cpu>, threads: map<Tid, Thread>)

  datatype Step =
    | NewCpu(c: Cid, t: Tid)                  // cpu_create
    | Fork(t: Tid)                            // thread_create and thread_fork
    | Destroy(t: Tid)                         // exorcise
    | Want(c: Cid)                            // spinlock_acquire up to the spin loop
    | Got(c: Cid, l: Lock)                    // the spin loop ends
    | Free(c: Cid, l: Lock)                   // spinlock_release
    | Spl(c: Cid, high: bool)                 // splx, splhigh, spl0
    | Interrupt(c: Cid)
    | Return(c: Cid)                          // end of the interrupt handler
    | Park(c: Cid, wc: set<Lock>)             // thread_switch up to the loop; wc is the channel's lock
    | Wait(c: Cid)                            // nothing to run: release the run queue lock, cpu_idle
    | Again(c: Cid)                           // cpu_idle returned: lock
    | Resume(c: Cid, t: Tid)                  // the context switch
    | Finish(c: Cid)                          // release the run queue lock on the new stack
    | Leave(c: Cid)                           // splx(spl), or spl0 in thread_startup

  predicate Taken(s: State, l: Lock) {
    exists c :: c in s.cpus && l in s.cpus[c].held
  }

  predicate Current(s: State, t: Tid) {
    exists c :: c in s.cpus && s.cpus[c].cur == t
  }

  function Cur(s: State, c: Cid): Thread
    requires c in s.cpus && s.cpus[c].cur in s.threads
  {
    s.threads[s.cpus[c].cur]
  }

  predicate Live(s: State, c: Cid) {
    c in s.cpus && s.cpus[c].cur in s.threads
  }

  function Top(t: Thread): Frame
    requires t.stack != []
  {
    t.stack[|t.stack| - 1]
  }

  /** Code that takes spinlocks runs: anything outside thread_switch, or its clean-up of zombies. */
  predicate Working(cpu: Cpu) {
    cpu.mode == Normal || cpu.mode == Leaving
  }

  /** When a step can happen.  What is asked of callers: a lock is released by the CPU that holds
      it and not acquired twice; thread_switch is called with no spinlock but the channel's, and
      the channel is locked exactly when it is passed; an interrupt handler ends with the level
      high and its spinlocks released. */
  ghost predicate Enabled(s: State, step: Step) {
    match step
    case NewCpu(c, t) => c !in s.cpus && t !in s.threads
    case Fork(t) => t !in s.threads
    case Destroy(t) => t in s.threads && !Current(s, t)
    case Want(c) => Live(s, c) && Working(s.cpus[c]) && !s.cpus[c].spinning
    case Got(c, l) => Live(s, c) && s.cpus[c].spinning && !Taken(s, l)
    case Free(c, l) => Live(s, c) && Working(s.cpus[c]) && !s.cpus[c].spinning && l in s.cpus[c].held
    case Spl(c, high) => Live(s, c) && s.cpus[c].mode == Normal && !s.cpus[c].spinning
    case Interrupt(c) => Live(s, c) && (s.cpus[c].irq || s.cpus[c].mode == Waiting)
    case Return(c) =>
      Live(s, c) && s.cpus[c].mode == Normal && !s.cpus[c].spinning && s.cpus[c].held == {} && Cur(s, c).high &&
      Cur(s, c).stack != [] && Top(Cur(s, c)).Irq?
    case Park(c, wc) =>
      Live(s, c) && s.cpus[c].mode == Normal && !s.cpus[c].spinning && !s.cpus[c].idle &&
      s.cpus[c].held == wc && |wc| <= 1 && !Taken(s, Runq(c))
    case Wait(c) => Live(s, c) && s.cpus[c].mode == Parked
    case Again(c) => Live(s, c) && s.cpus[c].mode == Waiting && !Taken(s, Runq(c))
    case Resume(c, t) => Live(s, c) && s.cpus[c].mode == Parked && t in s.threads && (t == s.cpus[c].cur || !Current(s, t))
    case Finish(c) => Live(s, c) && s.cpus[c].mode == Arrived
    case Leave(c) =>
      Live(s, c) && s.cpus[c].mode == Leaving && s.cpus[c].held == {} && !s.cpus[c].spinning &&
      Cur(s, c).stack != [] && Top(Cur(s, c)).Switch?
  }

  function LevelOf(s: State, c: Cid): Level
    requires Live(s, c)
  {
    Level(Cur(s, c).count, Cur(s, c).high, s.cpus[c].irq)
  }

  /** Write back the level, the stack and the CPU's other fields. */
  function Put(s: State, c: Cid, l: Level, stack: seq<Frame>, cpu: Cpu): State
    requires Live(s, c)
  {
    State(s.cpus[c := cpu.(irq := l.irq)], s.threads[s.cpus[c].cur := Thread(l.count, l.high, stack)])
  }

  ghost function Apply(s: State, step: Step): State
    requires Enabled(s, step)
  {
    match step
    case NewCpu(c, t) =>
      State(s.cpus[c := Cpu(t, false, {}, false, Normal, false, 0)], s.threads[t := Thread(1, true, [])])
    case Fork(t) => s.(threads := s.threads[t := Thread(1 + 1, true, [Switch(false)])])
    case Destroy(t) => s.(threads := s.threads - {t})
    case Want(c) => Put(s, c, Raise(LevelOf(s, c)), Cur(s, c).stack, s.cpus[c].(spinning := true))
    case Got(c, l) => s.(cpus := s.cpus[c := s.cpus[c].(spinning := false, held := s.cpus[c].held + {l})])
    case Free(c, l) => Put(s, c, Lower(LevelOf(s, c)), Cur(s, c).stack, s.cpus[c].(held := s.cpus[c].held - {l}))
    case Spl(c, high) => Put(s, c, SetLevel(LevelOf(s, c), high), Cur(s, c).stack, s.cpus[c])
    case Interrupt(c) =>
      // the processor turns interrupts off; mips_trap then adjusts a low recorded level
      var l := LevelOf(s, c);
      var cpu := s.cpus[c].(mode := Normal, base := if l.high then |Cur(s, c).stack| else s.cpus[c].base);
      if l.high then Put(s, c, l.(irq := false), Cur(s, c).stack + [Irq(false)], cpu)
      else Put(s, c, Level(l.count + 1, true, false), Cur(s, c).stack + [Irq(true)], cpu)
    case Return(c) =>
      var l, stack := LevelOf(s, c), Cur(s, c).stack;
      if Top(Cur(s, c)).adjust then Put(s, c, Level(l.count - 1, false, true), stack[..|stack| - 1], s.cpus[c])
      else Put(s, c, l.(irq := false), stack[..|stack| - 1], s.cpus[c].(mode := Waiting))
    case Park(c, wc) =>
      var l := LevelOf(s, c);
      var l' := Raise(SetLevel(l, true));
      Put(s, c, if wc == {} then l' else Lower(l'), Cur(s, c).stack + [Switch(l.high)],
          s.cpus[c].(held := {Runq(c)}, mode := Parked, idle := true))
    case Wait(c) =>
      Put(s, c, Lower(LevelOf(s, c)), Cur(s, c).stack, s.cpus[c].(held := s.cpus[c].held - {Runq(c)}, mode := Waiting))
    case Again(c) =>
      Put(s, c, Raise(LevelOf(s, c)), Cur(s, c).stack, s.cpus[c].(held := s.cpus[c].held + {Runq(c)}, mode := Parked))
    case Resume(c, t) => s.(cpus := s.cpus[c := s.cpus[c].(cur := t, mode := Arrived, idle := false)])
    case Finish(c) =>
      Put(s, c, Lower(LevelOf(s, c)), Cur(s, c).stack, s.cpus[c].(held := s.cpus[c].held - {Runq(c)}, mode := Leaving))
    case Leave(c) =>
      var stack := Cur(s, c).stack;
      Put(s, c, SetLevel(LevelOf(s, c), Top(Cur(s, c)).high), stack[..|stack| - 1], s.cpus[c].(mode := Normal))
  }

  ghost predicate Reaches(s: State, n: nat)
    decreases n
  {
    if n == 0 then s == State(map[], map[])
    else exists p, step :: Reaches(p, n - 1) && Enabled(p, step) && s == Apply(p, step)
  }

  // -------------------------------------------------------------------- invariants

  function One(b: bool): int {
    if b then 1 else 0
  }

  /** The accounting law. */
  predicate Counted(cpu: Cpu, t: Thread) {
    && t.count == |cpu.held| + One(t.high) + One(cpu.spinning)
    && (cpu.irq <==> t.count == 0)
  }

  /** No frame of an interrupt out of cpu_idle. */
  predicate Plain(stack: seq<Frame>) {
    forall i :: 0 <= i < |stack| ==> stack[i] != Irq(false)
  }

  predicate InSwitch(high: bool, stack: seq<Frame>) {
    high && stack != [] && stack[|stack| - 1].Switch? && Plain(stack)
  }

  /** A thread that is not on a CPU. */
  predicate Out(t: Thread) {
    t.count == 2 && InSwitch(t.high, t.stack)
  }

  /** The stack of a CPU that was interrupted out of cpu_idle. */
  predicate IdleIrq(base: nat, stack: seq<Frame>) {
    && 1 <= base < |stack| && stack[base] == Irq(false) && stack[base - 1].Switch?
    && (forall i :: 0 <= i < base ==> stack[i] != Irq(false))
    && (forall i :: base < i < |stack| ==> stack[i] == Irq(true))
  }

  predicate ModeOk(c: Cid, cpu: Cpu, t: Thread) {
    match cpu.mode
    case Normal => if cpu.idle then IdleIrq(cpu.base, t.stack) else Plain(t.stack)
    case Parked => cpu.idle && cpu.held == {Runq(c)} && InSwitch(t.high, t.stack) && !cpu.spinning
    case Waiting => cpu.idle && cpu.held == {} && InSwitch(t.high, t.stack) && !cpu.spinning
    case Arrived => !cpu.idle && cpu.held == {Runq(c)} && InSwitch(t.high, t.stack) && !cpu.spinning
    case Leaving => !cpu.idle && InSwitch(t.high, t.stack)
  }

  predicate Sound(c: Cid, cpu: Cpu, t: Thread) {
    Counted(cpu, t) && ModeOk(c, cpu, t)
  }

  ghost predicate Inv(s: State) {
    && (forall c :: c in s.cpus ==> s.cpus[c].cur in s.threads && Sound(c, s.cpus[c], s.threads[s.cpus[c].cur]))
    && (forall c, d :: c in s.cpus && d in s.cpus && c != d ==>
          s.cpus[c].cur != s.cpus[d].cur && s.cpus[c].held !! s.cpus[d].held)
    && (forall t :: t in s.threads && !Current(s, t) ==> Out(s.threads[t]))
  }

  // ------------------------------------------------------------------ preservation

  /** A step that changes one CPU and its current thread. */
  lemma Local(s: State, c: Cid, cpu: Cpu, t: Thread)
    requires Inv(s) && c in s.cpus && cpu.cur == s.cpus[c].cur && Sound(c, cpu, t)
    requires forall d :: d in s.cpus && d != c ==> cpu.held !! s.cpus[d].held
    ensures Inv(State(s.cpus[c := cpu], s.threads[cpu.cur := t]))
  {
    hide Sound, Out;
    var s' := State(s.cpus[c := cpu], s.threads[cpu.cur := t]);
    forall u | u in s'.threads && !Current(s', u) ensures Out(s'.threads[u]) {
      assert forall d :: d in s.cpus ==> d in s'.cpus && s'.cpus[d].cur == s.cpus[d].cur;
    }
  }

  lemma PutLocal(s: State, c: Cid, l: Level, stack: seq<Frame>, cpu: Cpu)
    requires Inv(s) && Live(s, c) && cpu.cur == s.cpus[c].cur && Sound(c, cpu.(irq := l.irq), Thread(l.count, l.high, stack))
    requires forall d :: d in s.cpus && d != c ==> cpu.held !! s.cpus[d].held
    ensures Inv(Put(s, c, l, stack, cpu))
  {
    hide Inv, Sound;
    Local(s, c, cpu.(irq := l.irq), Thread(l.count, l.high, stack));
  }

  lemma Levels(l: Level, n: int, spin: bool)
    requires l.count == n + One(l.high) + One(spin) && n >= 0 && (l.irq <==> l.count == 0)
    ensures !spin ==> Raise(l).count == n + One(l.high) + 1 && !Raise(l).irq
    ensures n > 0 ==> Lower(l).count == (n - 1) + One(l.high) + One(spin) && (Lower(l).irq <==> Lower(l).count == 0)
    ensures forall h :: SetLevel(l, h).count == n + One(h) + One(spin) && SetLevel(l, h).high == h
    ensures forall h :: SetLevel(l, h).irq <==> SetLevel(l, h).count == 0
  {
  }

  lemma Grow(h: set<Lock>, l: Lock)
    ensures l !in h ==> |h + {l}| == |h| + 1
    ensures l in h ==> |h - {l}| == |h| - 1
  {
    if l in h { assert h == (h - {l}) + {l}; }
  }

  lemma LockKeeps(s: State, c: Cid, l: Lock, step: Step)
    requires Inv(s) && Enabled(s, step) && (step == Want(c) || step == Free(c, l))
    ensures Inv(Apply(s, step))
  {
    hide Inv, InSwitch, IdleIrq;
    var cpu, t := s.cpus[c], Cur(s, c);
    CpuSound(s, c);
    Grow(cpu.held, l);
    var lv := LevelOf(s, c);
    Levels(lv, |cpu.held|, cpu.spinning);
    match step {
      case Want(_) => PutLocal(s, c, Raise(lv), t.stack, cpu.(spinning := true));
      case Free(_, _) => PutLocal(s, c, Lower(lv), t.stack, cpu.(held := cpu.held - {l}));
    }
  }

  lemma GotKeeps(s: State, c: Cid, l: Lock)
    requires Inv(s) && Enabled(s, Got(c, l))
    ensures Inv(Apply(s, Got(c, l)))
  {
    hide Inv, InSwitch, IdleIrq;
    var cpu, t := s.cpus[c], Cur(s, c);
    CpuSound(s, c);
    Grow(cpu.held, l);
    assert l !in cpu.held;
    assert s.threads[cpu.cur := t] == s.threads;
    Local(s, c, cpu.(spinning := false, held := cpu.held + {l}), t);
  }

  /** What the invariant says of one CPU. */
  lemma CpuSound(s: State, c: Cid)
    requires Inv(s) && c in s.cpus
    ensures Live(s, c) && Sound(c, s.cpus[c], Cur(s, c))
    ensures forall d :: d in s.cpus && d != c ==> s.cpus[c].held !! s.cpus[d].held
  {
  }

  lemma SplKeeps(s: State, c: Cid, high: bool)
    requires Inv(s) && Enabled(s, Spl(c, high))
    ensures Inv(Apply(s, Spl(c, high)))
  {
    hide Inv;
    var cpu, lv := s.cpus[c], LevelOf(s, c);
    CpuSound(s, c);
    Levels(lv, |cpu.held|, cpu.spinning);
    PutLocal(s, c, SetLevel(lv, high), Cur(s, c).stack, cpu);
  }

  /** The asserts on interrupt entry: an interrupt at the recorded level 0 finds the count at 0
      and comes in the normal mode with no spinlock held; one at level HIGH comes out of
      cpu_idle. */
  lemma EntryAsserts(s: State, c: Cid)
    requires Inv(s) && Enabled(s, Interrupt(c))
    ensures s.cpus[c].held == {} && !s.cpus[c].spinning
    ensures !Cur(s, c).high ==> Cur(s, c).count == 0 && s.cpus[c].mode == Normal
    ensures Cur(s, c).high ==> Cur(s, c).count == 1 && s.cpus[c].mode == Waiting
  {
    hide Inv;
    CpuSound(s, c);
  }

  lemma InterruptKeeps(s: State, c: Cid)
    requires Inv(s) && Enabled(s, Interrupt(c))
    ensures Inv(Apply(s, Interrupt(c)))
  {
    hide Inv;
    var cpu, lv, stack := s.cpus[c], LevelOf(s, c), Cur(s, c).stack;
    CpuSound(s, c);
    EntryAsserts(s, c);
    var cpu' := cpu.(mode := Normal, base := if lv.high then |stack| else cpu.base);
    if lv.high {
      PutLocal(s, c, lv.(irq := false), stack + [Irq(false)], cpu');
    } else {
      PutLocal(s, c, Level(lv.count + 1, true, false), stack + [Irq(true)], cpu');
    }
  }

  /** The asserts on interrupt exit: the handler's end finds the count at exactly 1. */
  lemma ExitAsserts(s: State, c: Cid)
    requires Inv(s) && Enabled(s, Return(c))
    ensures Cur(s, c).count == 1
    ensures !Top(Cur(s, c)).adjust <==> s.cpus[c].idle && s.cpus[c].base == |Cur(s, c).stack| - 1
  {
    hide Inv;
    CpuSound(s, c);
  }

  lemma ReturnKeeps(s: State, c: Cid)
    requires Inv(s) && Enabled(s, Return(c))
    ensures Inv(Apply(s, Return(c)))
  {
    hide Inv;
    var cpu, lv, stack := s.cpus[c], LevelOf(s, c), Cur(s, c).stack;
    CpuSound(s, c);
    ExitAsserts(s, c);
    if Top(Cur(s, c)).adjust {
      PutLocal(s, c, Level(lv.count - 1, false, true), stack[..|stack| - 1], cpu);
    } else {
      PutLocal(s, c, lv.(irq := false), stack[..|stack| - 1], cpu.(mode := Waiting));
    }
  }

  lemma ParkKeeps(s: State, c: Cid, wc: set<Lock>)
    requires Inv(s) && Enabled(s, Park(c, wc))
    ensures Inv(Apply(s, Park(c, wc)))
  {
    hide Inv;
    var cpu, lv := s.cpus[c], LevelOf(s, c);
    CpuSound(s, c);
    assert |wc| == if wc == {} then 0 else 1;
    var l' := Raise(SetLevel(lv, true));
    var stack := Cur(s, c).stack + [Switch(lv.high)];
    PutLocal(s, c, if wc == {} then l' else Lower(l'), stack, cpu.(held := {Runq(c)}, mode := Parked, idle := true));
  }

  lemma WaitKeeps(s: State, c: Cid)
    requires Inv(s) && Enabled(s, Wait(c))
    ensures Inv(Apply(s, Wait(c)))
  {
    hide Inv, IdleIrq, Plain;
    var cpu, lv, stack := s.cpus[c], LevelOf(s, c), Cur(s, c).stack;
    CpuSound(s, c);
    Grow(cpu.held, Runq(c));
    PutLocal(s, c, Lower(lv), stack, cpu.(held := cpu.held - {Runq(c)}, mode := Waiting));
  }

  lemma AgainKeeps(s: State, c: Cid)
    requires Inv(s) && Enabled(s, Again(c))
    ensures Inv(Apply(s, Again(c)))
  {
    hide Inv, IdleIrq, Plain;
    var cpu, lv, stack := s.cpus[c], LevelOf(s, c), Cur(s, c).stack;
    CpuSound(s, c);
    Grow(cpu.held, Runq(c));
    PutLocal(s, c, Raise(lv), stack, cpu.(held := cpu.held + {Runq(c)}, mode := Parked));
  }

  lemma FinishKeeps(s: State, c: Cid)
    requires Inv(s) && Enabled(s, Finish(c))
    ensures Inv(Apply(s, Finish(c)))
  {
    hide Inv, IdleIrq, Plain;
    var cpu, lv, stack := s.cpus[c], LevelOf(s, c), Cur(s, c).stack;
    CpuSound(s, c);
    Grow(cpu.held, Runq(c));
    PutLocal(s, c, Lower(lv), stack, cpu.(held := cpu.held - {Runq(c)}, mode := Leaving));
  }

  lemma LeaveKeeps(s: State, c: Cid)
    requires Inv(s) && Enabled(s, Leave(c))
    ensures Inv(Apply(s, Leave(c)))
  {
    hide Inv;
    var cpu, lv, stack := s.cpus[c], LevelOf(s, c), Cur(s, c).stack;
    CpuSound(s, c);
    Levels(lv, |cpu.held|, cpu.spinning);
    PutLocal(s, c, SetLevel(lv, Top(Cur(s, c)).high), stack[..|stack| - 1], cpu.(mode := Normal));
  }

  /** The hand-over: the lock stays with the CPU, the counts of both threads already include it. */
  lemma ResumeKeeps(s: State, c: Cid, t: Tid)
    requires Inv(s) && Enabled(s, Resume(c, t))
    ensures Inv(Apply(s, Resume(c, t)))
  {
    var s', was := Apply(s, Resume(c, t)), s.cpus[c].cur;
    assert Sound(c, s.cpus[c], s.threads[was]);
    assert Sound(c, s'.cpus[c], s.threads[t]);
    forall u | u in s'.threads && !Current(s', u) ensures Out(s'.threads[u]) {
      assert s'.cpus[c].cur == t;
      assert forall d :: d in s.cpus && d != c ==> d in s'.cpus && s'.cpus[d] == s.cpus[d];
    }
    forall d, e | d in s'.cpus && e in s'.cpus && d != e
      ensures s'.cpus[d].cur != s'.cpus[e].cur && s'.cpus[d].held !! s'.cpus[e].held
    {
      assert s'.cpus[d].held == s.cpus[d].held && s'.cpus[e].held == s.cpus[e].held;
    }
  }

  lemma ThreadKeeps(s: State, c: Cid, t: Tid, step: Step)
    requires Inv(s) && Enabled(s, step) && (step == NewCpu(c, t) || step == Fork(t) || step == Destroy(t))
    ensures Inv(Apply(s, step))
  {
    var s' := Apply(s, step);
    assert step == NewCpu(c, t) ==> s'.cpus[c].cur == t;
    forall u | u in s'.threads && !Current(s', u) ensures Out(s'.threads[u]) {
      assert forall d :: d in s.cpus ==> d in s'.cpus && s'.cpus[d] == s.cpus[d];
    }
  }

  lemma StepKeeps(s: State, step: Step)
    requires Inv(s) && Enabled(s, step)
    ensures Inv(Apply(s, step))
  {
    hide Inv;
    match step {
      case NewCpu(c, t) => ThreadKeeps(s, c, t, step);
      case Fork(t) => ThreadKeeps(s, 0, t, step);
      case Destroy(t) => ThreadKeeps(s, 0, t, step);
      case Want(c) => LockKeeps(s, c, Other(0), step);
      case Got(c, l) => GotKeeps(s, c, l);
      case Free(c, l) => LockKeeps(s, c, l, step);
      case Spl(c, high) => SplKeeps(s, c, high);
      case Interrupt(c) => InterruptKeeps(s, c);
      case Return(c) => ReturnKeeps(s, c);
      case Park(c, wc) => ParkKeeps(s, c, wc);
      case Wait(c) => WaitKeeps(s, c);
      case Again(c) => AgainKeeps(s, c);
      case Resume(c, t) => ResumeKeeps(s, c, t);
      case Finish(c) => FinishKeeps(s, c);
      case Leave(c) => LeaveKeeps(s, c);
    }
  }

  lemma {:induction false} EveryRun(s: State, n: nat)
    requires Reaches(s, n)
    ensures Inv(s)
    decreases n
  {
    hide Inv, Enabled, Apply;
    if n == 0 {
      EmptyInv();
    } else {
      var p, step :| Reaches(p, n - 1) && Enabled(p, step) && s == Apply(p, step);
      EveryRun(p, n - 1);
      StepKeeps(p, step);
    }
  }

  lemma EmptyInv()
    ensures Inv(State(map[], map[]))
  {
  }

  // ------------------------------------------------------------------ what follows

  /** In every reachable state a CPU's current thread counts the spinlocks its CPU holds, plus one
      for the level and one while it spins, and interrupts are on exactly at zero. */
  lemma Accounting(s: State, n: nat, c: Cid)
    requires Reaches(s, n) && c in s.cpus
    ensures Live(s, c) && Counted(s.cpus[c], Cur(s, c))
  {
    EveryRun(s, n);
    assert Sound(c, s.cpus[c], Cur(s, c));
  }

  /** Every thread off the CPUs, new or switched out, has count 2 and level HIGH. */
  lemma SwitchedOut(s: State, n: nat, t: Tid)
    requires Reaches(s, n) && t in s.threads && !Current(s, t)
    ensures s.threads[t].count == 2 && s.threads[t].high
  {
    EveryRun(s, n);
    assert Out(s.threads[t]);
  }

  /** Two CPUs never hold the same spinlock, and the lock a thread finds on arrival is there for
      it to release. */
  lemma Exclusive(s: State, n: nat, c: Cid, d: Cid, l: Lock)
    requires Reaches(s, n) && c in s.cpus && d in s.cpus && l in s.cpus[c].held && l in s.cpus[d].held
    ensures c == d
  {
    EveryRun(s, n);
  }

  /** The hand-over of the run queue lock: whenever a CPU is in the loop of thread_switch or arrives
      on the next thread's stack, the one spinlock it holds is its own run queue lock, so the
      releases in the loop, at the tail of thread_switch and in thread_startup find the holder they
      assert, though another thread may have acquired it. */
  lemma HandedOver(s: State, n: nat, c: Cid)
    requires Reaches(s, n) && c in s.cpus && (s.cpus[c].mode == Parked || s.cpus[c].mode == Arrived)
    ensures s.cpus[c].held == {Runq(c)}
    ensures forall d :: d in s.cpus && Runq(c) in s.cpus[d].held ==> d == c
  {
    EveryRun(s, n);
    assert Sound(c, s.cpus[c], Cur(s, c));
  }

  /** Interrupts never strike a CPU that holds or wants a spinlock, so a handler cannot meet a lock
      its own CPU holds; entry and exit asserts hold. */
  lemma InterruptsAreSafe(s: State, n: nat, c: Cid)
    requires Reaches(s, n)
    ensures Enabled(s, Interrupt(c)) ==> s.cpus[c].held == {} && !s.cpus[c].spinning && Cur(s, c).count == One(Cur(s, c).high)
    ensures Enabled(s, Return(c)) ==> Cur(s, c).count == 1
  {
    hide Inv;
    EveryRun(s, n);
    if Enabled(s, Interrupt(c)) { EntryAsserts(s, c); }
    if Enabled(s, Return(c)) { ExitAsserts(s, c); }
  }

  /** A thread leaves thread_switch at the level it came in with, and at that level's interrupt
      state; the frame it left on its stack says which. */
  lemma LeavesAsItCame(s: State, n: nat, c: Cid)
    requires Reaches(s, n) && Enabled(s, Leave(c))
    ensures var s' := Apply(s, Leave(c)); var f := Top(Cur(s, c));
      && s'.cpus[c].cur in s'.threads && Cur(s', c).high == f.high
      && Cur(s', c).count == One(f.high) && (s'.cpus[c].irq <==> !f.high)
  {
    EveryRun(s, n);
    assert Sound(c, s.cpus[c], Cur(s, c));
  }

  /** The two early returns of thread_switch change nothing. */
  lemma EarlyReturns(cpu: Cpu, t: Thread)
    requires Counted(cpu, t) && !cpu.spinning
    ensures var l := Level(t.count, t.high, cpu.irq);
      && SetLevel(SetLevel(l, true), l.high) == l
      && SetLevel(Lower(Raise(SetLevel(l, true))), l.high) == l
  {
  }
}
