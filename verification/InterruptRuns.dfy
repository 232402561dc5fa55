/** What interrupt levels and context switches come to for one thread, over whole runs: a thread that
    goes through thread_switch, an interrupt or its first thread_startup finds its level again,
    whatever all CPUs did meanwhile. */
module InterruptRuns {
  import opened Interrupts

  datatype Turn = Turn(before: State, step: Step, after: State)

  /** The turns lead from s to s'. */
  ghost predicate Follows(s: State, trace: seq<Turn>, s': State)
    decreases |trace|
  {
    if trace == [] then s' == s
    else
      var q := trace[|trace| - 1];
      Follows(s, trace[..|trace| - 1], q.before) && Enabled(q.before, q.step) && q.after == Apply(q.before, q.step) == s'
  }

  /** Before every turn, t is there and its stack deeper than k. */
  ghost predicate Deep(trace: seq<Turn>, t: Tid, k: nat) {
    forall i :: 0 <= i < |trace| ==> DeepAt(trace[i].before, t, k)
  }

  predicate DeepAt(s: State, t: Tid, k: nat) {
    t in s.threads && k < |s.threads[t].stack|
  }

  /** A turn leaves the frames up to k of every thread as they are, or takes frame k off the top: a
      frame of a switch when its thread leaves, a frame of an interrupt when its thread returns. */
  ghost predicate Unwinds(q: Turn, t: Tid, k: nat)
    requires DeepAt(q.before, t, k)
  {
    var stack := q.before.threads[t].stack;
    && |stack| == k + 1 && t in q.after.threads && q.after.threads[t].stack == stack[..k]
    && (if stack[k].Switch? then q.step.Leave? else q.step.Return?)
    && Live(q.before, q.step.c) && q.before.cpus[q.step.c].cur == t
  }

  lemma StackTurn(q: Turn, t: Tid, k: nat)
    requires Inv(q.before) && Enabled(q.before, q.step) && q.after == Apply(q.before, q.step)
    requires DeepAt(q.before, t, k) && t in q.after.threads
    ensures Unwinds(q, t, k) || (DeepAt(q.after, t, k) && q.after.threads[t].stack[..k + 1] == q.before.threads[t].stack[..k + 1])
  {
    hide Inv, Raise, Lower, SetLevel;
    var s, stack := q.before, q.before.threads[t].stack;
    if (q.step.Leave? || q.step.Return?) && s.cpus[q.step.c].cur == t {
      assert |stack| > k + 1 ==> stack[..|stack| - 1][..k + 1] == stack[..k + 1];
    }
  }

  lemma {:induction false} FollowsInv(s: State, trace: seq<Turn>, s': State)
    requires Inv(s) && Follows(s, trace, s')
    ensures Inv(s')
    decreases |trace|
  {
    hide Inv, Enabled, Apply;
    if trace == [] {
    } else {
      var q := trace[|trace| - 1];
      FollowsInv(s, trace[..|trace| - 1], q.before);
      StepKeeps(q.before, q.step);
    }
  }

  /** While the stack stays deeper than k, its first frames stay. */
  lemma {:induction false} FramesStay(s: State, trace: seq<Turn>, s': State, t: Tid, k: nat)
    requires Inv(s) && Follows(s, trace, s') && Deep(trace, t, k) && DeepAt(s', t, k)
    ensures DeepAt(s, t, k) && s'.threads[t].stack[..k + 1] == s.threads[t].stack[..k + 1]
    decreases |trace|
  {
    hide Inv, Enabled, Apply, DeepAt;
    if trace == [] {
    } else {
      var q := trace[|trace| - 1];
      var before := trace[..|trace| - 1];
      assert forall i :: 0 <= i < |before| ==> before[i] == trace[i];
      FramesStay(s, before, q.before, t, k);
      FollowsInv(s, before, q.before);
      assert t in s'.threads by { InThreads(s', t, k); }
      StackTurn(q, t, k);
      if Unwinds(q, t, k) { Shallow(q, t, k); }
    }
  }

  lemma InThreads(s: State, t: Tid, k: nat)
    requires DeepAt(s, t, k)
    ensures t in s.threads && k < |s.threads[t].stack|
  {
  }

  lemma Shallow(q: Turn, t: Tid, k: nat)
    requires DeepAt(q.before, t, k) && Unwinds(q, t, k)
    ensures !DeepAt(q.after, t, k)
  {
  }

  /** The first time frame k is gone, the last turn took it off, as its kind asks. */
  lemma Popped(s: State, trace: seq<Turn>, s': State, t: Tid, k: nat)
    requires Inv(s) && DeepAt(s, t, k) && Follows(s, trace, s') && Deep(trace, t, k)
    requires t in s'.threads && |s'.threads[t].stack| <= k
    ensures trace != [] && DeepAt(trace[|trace| - 1].before, t, k) && Unwinds(trace[|trace| - 1], t, k)
    ensures Inv(trace[|trace| - 1].before) && trace[|trace| - 1].before.threads[t].stack == s.threads[t].stack[..k + 1]
  {
    hide Inv, Enabled, Apply;
    var n := |trace| - 1;
    var q := trace[n];
    assert forall i :: 0 <= i < n ==> trace[..n][i] == trace[i];
    FramesStay(s, trace[..n], q.before, t, k);
    FollowsInv(s, trace[..n], q.before);
    StackTurn(q, t, k);
    assert q.before.threads[t].stack[..k + 1] == q.before.threads[t].stack;
  }

  /** t runs on c at the level h, outside thread_switch, with no spinlock and interrupts on exactly
      at level 0. */
  predicate RunsAt(s: State, c: Cid, t: Tid, h: bool) {
    && c in s.cpus && s.cpus[c].cur == t && s.cpus[c].mode == Normal && s.cpus[c].held == {} && !s.cpus[c].spinning
    && t in s.threads && s.threads[t].high == h && s.threads[t].count == (if h then 1 else 0) && s.cpus[c].irq == !h
  }

  lemma LeaveEnds(s: State, c: Cid, h: bool)
    requires Inv(s) && Enabled(s, Leave(c)) && Top(Cur(s, c)) == Switch(h)
    ensures RunsAt(Apply(s, Leave(c)), c, s.cpus[c].cur, h)
  {
    CpuSound(s, c);
    hide Inv;
  }

  /** thread_switch: a thread that called it at level h, from whatever depth, is at level h when it
      is first back at that depth, on whichever CPU that is, with its stack as it was. */
  lemma {:induction false} SwitchRestores(s: State, n: nat, c: Cid, wc: set<Lock>, trace: seq<Turn>, s': State)
    requires Reaches(s, n) && Enabled(s, Park(c, wc))
    requires var t := s.cpus[c].cur; var k := |s.threads[t].stack|;
      && Follows(Apply(s, Park(c, wc)), trace, s') && Deep(trace, t, k)
      && t in s'.threads && |s'.threads[t].stack| <= k
    ensures trace != [] && trace[|trace| - 1].step.Leave?
    ensures RunsAt(s', trace[|trace| - 1].step.c, s.cpus[c].cur, Cur(s, c).high)
    ensures s'.threads[s.cpus[c].cur].stack == Cur(s, c).stack
  {
    hide Inv, Reaches, Raise, Lower, SetLevel, RunsAt, Deep;
    EveryRun(s, n);
    var t := s.cpus[c].cur;
    var k := |s.threads[t].stack|;
    var s1 := Apply(s, Park(c, wc));
    assert s1.threads[t].stack == s.threads[t].stack + [Switch(Cur(s, c).high)];
    ParkKeeps(s, c, wc);
    Popped(s1, trace, s', t, k);
    var q := trace[|trace| - 1];
    LeaveEnds(q.before, q.step.c, Cur(s, c).high);
  }

  /** A forked thread: when its stack is first empty, it is at level 0 with interrupts on. */
  lemma {:induction false} StartupEnds(s: State, n: nat, t: Tid, trace: seq<Turn>, s': State)
    requires Reaches(s, n) && Enabled(s, Fork(t))
    requires Follows(Apply(s, Fork(t)), trace, s') && Deep(trace, t, 0)
    requires t in s'.threads && s'.threads[t].stack == []
    ensures trace != [] && trace[|trace| - 1].step.Leave?
    ensures RunsAt(s', trace[|trace| - 1].step.c, t, false)
  {
    hide Inv, Reaches, Raise, Lower, SetLevel, RunsAt, Deep;
    EveryRun(s, n);
    ThreadKeeps(s, 0, t, Fork(t));
    Popped(Apply(s, Fork(t)), trace, s', t, 0);
    var q := trace[|trace| - 1];
    LeaveEnds(q.before, q.step.c, false);
  }

  lemma ReturnEnds(s: State, c: Cid, adjust: bool)
    requires Inv(s) && Enabled(s, Return(c)) && Top(Cur(s, c)) == Irq(adjust)
    ensures var s' := Apply(s, Return(c)); var t := s.cpus[c].cur; var stack := Cur(s, c).stack;
      && c in s'.cpus && s'.cpus[c].cur == t && t in s'.threads
      && s'.threads[t] == Thread(One(!adjust), !adjust, stack[..|stack| - 1])
      && s'.cpus[c].irq == adjust && s'.cpus[c].mode == (if adjust then Normal else Waiting)
  {
    CpuSound(s, c);
    hide Inv;
  }

  /** An interrupt: when the interrupted thread is first back at its depth, its level, its count and
      its stack are what they were, and the CPU it is on has interrupts on, and is in cpu_idle, just
      as the interrupted one was. */
  lemma {:induction false} InterruptRestores(s: State, n: nat, c: Cid, trace: seq<Turn>, s': State)
    requires Reaches(s, n) && Enabled(s, Interrupt(c))
    requires var t := s.cpus[c].cur; var k := |s.threads[t].stack|;
      && Follows(Apply(s, Interrupt(c)), trace, s') && Deep(trace, t, k)
      && t in s'.threads && |s'.threads[t].stack| <= k
    ensures trace != [] && trace[|trace| - 1].step.Return?
    ensures var t := s.cpus[c].cur; var d := trace[|trace| - 1].step.c;
      && s'.threads[t] == s.threads[t] && d in s'.cpus && s'.cpus[d].cur == t
      && s'.cpus[d].irq == s.cpus[c].irq && s'.cpus[d].mode == s.cpus[c].mode
  {
    hide Inv, Reaches, Raise, Lower, SetLevel, RunsAt, Deep;
    EveryRun(s, n);
    var t := s.cpus[c].cur;
    var k := |s.threads[t].stack|;
    var s1 := Apply(s, Interrupt(c));
    var f := Irq(!Cur(s, c).high);
    assert s1.threads[t].stack == s.threads[t].stack + [f];
    CpuSound(s, c);
    EntryAsserts(s, c);
    InterruptKeeps(s, c);
    Popped(s1, trace, s', t, k);
    var q := trace[|trace| - 1];
    ReturnEnds(q.before, q.step.c, f.adjust);
    assert q.before.threads[t].stack[..k] == s.threads[t].stack;
  }

  /** Writing a CPU and its thread twice, the second time as they were. */
  lemma PutBack(s: State, c: Cid, l: Level, stack: seq<Frame>, cpu: Cpu)
    requires Live(s, c) && cpu.cur == s.cpus[c].cur
    ensures var s' := Put(s, c, l, stack, cpu);
      && Live(s', c) && LevelOf(s', c) == l && Cur(s', c).stack == stack && s'.cpus[c] == cpu.(irq := l.irq)
      && Put(s', c, LevelOf(s, c), Cur(s, c).stack, s.cpus[c]) == s
  {
    var s' := Put(s, c, l, stack, cpu);
    var s'' := Put(s', c, LevelOf(s, c), Cur(s, c).stack, s.cpus[c]);
    assert s''.cpus == s.cpus;
    assert s''.threads == s.threads;
  }

  /** splx sets the level asked for, and setting the old level again undoes it. */
  lemma SplxUndoes(s: State, n: nat, c: Cid, high: bool)
    requires Reaches(s, n) && Enabled(s, Spl(c, high))
    ensures var s' := Apply(s, Spl(c, high)); Live(s', c) && Cur(s', c).high == high && Enabled(s', Spl(c, Cur(s, c).high))
    ensures Apply(Apply(s, Spl(c, high)), Spl(c, Cur(s, c).high)) == s
  {
    EveryRun(s, n);
    CpuSound(s, c);
    var l := LevelOf(s, c);
    assert SetLevel(SetLevel(l, high), l.high) == l && SetLevel(l, high).high == high;
    PutBack(s, c, SetLevel(l, high), Cur(s, c).stack, s.cpus[c]);
    var s' := Apply(s, Spl(c, high));
    hide Inv, SetLevel, Put;
  }

  lemma Wanted(s: State, c: Cid)
    requires Inv(s) && Enabled(s, Want(c))
    ensures var l, cpu := LevelOf(s, c), s.cpus[c].(spinning := true);
      Apply(s, Want(c)) == Put(s, c, Raise(l), Cur(s, c).stack, cpu) && !Raise(l).irq && Lower(Raise(l)) == l
  {
    CpuSound(s, c);
    hide Inv;
  }

  lemma LockFree(s: State, c: Cid, l: Lock)
    requires Inv(s) && Enabled(s, Want(c)) && !Taken(s, l)
    ensures var s1 := Apply(s, Want(c));
      && Enabled(s1, Got(c, l)) && !s1.cpus[c].irq && (forall d :: d in s1.cpus ==> l !in s1.cpus[d].held)
  {
    Wanted(s, c);
    hide Inv, Raise;
    var s1 := Apply(s, Want(c));
    assert !Taken(s1, l);
  }

  /** Acquiring a free spinlock and releasing it leaves everything as it was; in between interrupts are
      off and the lock is held by this CPU and no other. */
  lemma LockUndoes(s: State, n: nat, c: Cid, l: Lock)
    requires Reaches(s, n) && Enabled(s, Want(c)) && !Taken(s, l)
    ensures var s1 := Apply(s, Want(c)); Enabled(s1, Got(c, l)) && !s1.cpus[c].irq
    ensures var s2 := Apply(Apply(s, Want(c)), Got(c, l));
      && c in s2.cpus && !s2.cpus[c].irq && Enabled(s2, Free(c, l)) && Apply(s2, Free(c, l)) == s
      && (forall d :: d in s2.cpus ==> (l in s2.cpus[d].held <==> d == c))
  {
    EveryRun(s, n);
    LockFree(s, c, l);
    Wanted(s, c);
    var lv, stack, cpu := LevelOf(s, c), Cur(s, c).stack, s.cpus[c];
    assert l !in cpu.held;
    assert cpu.held + {l} - {l} == cpu.held;
    var s1 := Apply(s, Want(c));
    var s2 := Apply(s1, Got(c, l));
    PutBack(s, c, Raise(lv), stack, cpu.(held := cpu.held + {l}));
    assert s2.cpus == Put(s, c, Raise(lv), stack, cpu.(held := cpu.held + {l})).cpus;
    hide Inv, Raise, Lower;
  }

  /** No CPU is ever stuck: wherever it is, it has a next step, and the frame that step looks for is on
      top of the stack. */
  lemma SwitchGoesOn(s: State, n: nat, c: Cid, t: Tid)
    requires Reaches(s, n) && c in s.cpus
    ensures s.cpus[c].mode == Parked ==> Enabled(s, Wait(c))
    ensures s.cpus[c].mode == Parked && t in s.threads && (t == s.cpus[c].cur || !Current(s, t)) ==> Enabled(s, Resume(c, t))
    ensures s.cpus[c].mode == Waiting ==> Enabled(s, Interrupt(c)) && (!Taken(s, Runq(c)) ==> Enabled(s, Again(c)))
    ensures s.cpus[c].mode == Arrived ==> Enabled(s, Finish(c))
  {
    hide Inv, Reaches, Apply, Sound;
    EveryRun(s, n);
    CpuSound(s, c);
  }

  lemma LeavesSwitch(s: State, n: nat, c: Cid)
    requires Reaches(s, n) && c in s.cpus && s.cpus[c].mode == Leaving && s.cpus[c].held == {} && !s.cpus[c].spinning
    ensures Enabled(s, Leave(c))
  {
    hide Inv, Reaches, Apply;
    EveryRun(s, n);
    CpuSound(s, c);
  }

  lemma ThreadGoesOn(s: State, n: nat, c: Cid, high: bool)
    requires Reaches(s, n) && c in s.cpus && s.cpus[c].mode == Normal && !s.cpus[c].spinning
    ensures Enabled(s, Spl(c, high)) && (s.cpus[c].irq ==> Enabled(s, Interrupt(c)))
    ensures !s.cpus[c].idle && |s.cpus[c].held| <= 1 && !Taken(s, Runq(c)) ==> Enabled(s, Park(c, s.cpus[c].held))
  {
    hide Inv, Reaches, Apply, Sound;
    EveryRun(s, n);
    CpuSound(s, c);
  }

  lemma LockGoesOn(s: State, n: nat, c: Cid, l: Lock)
    requires Reaches(s, n) && c in s.cpus
    ensures s.cpus[c].spinning && !Taken(s, l) ==> Enabled(s, Got(c, l))
    ensures Working(s.cpus[c]) && !s.cpus[c].spinning ==> Enabled(s, Want(c)) && (l in s.cpus[c].held ==> Enabled(s, Free(c, l)))
  {
    hide Inv, Reaches, Apply, Sound;
    EveryRun(s, n);
    CpuSound(s, c);
  }

  /** A handler can return: the frame of its interrupt is on top of the stack of a CPU that is
      interrupted, and with the level high and no spinlock held it is taken off. */
  lemma HandlerReturns(s: State, n: nat, c: Cid)
    requires Reaches(s, n) && c in s.cpus && s.cpus[c].mode == Normal && s.cpus[c].idle
    ensures Live(s, c) && Cur(s, c).stack != [] && Top(Cur(s, c)).Irq?
    ensures s.cpus[c].held == {} && !s.cpus[c].spinning && Cur(s, c).high ==> Enabled(s, Return(c))
  {
    hide Inv, Reaches, Apply, Counted, Plain;
    EveryRun(s, n);
    CpuSound(s, c);
  }

  lemma OneMore(s: State, n: nat, step: Step)
    requires Reaches(s, n) && Enabled(s, step)
    ensures Reaches(Apply(s, step), n + 1)
  {
    hide Enabled, Apply;
  }

  /** k CPUs are up, and there are n threads. */
  ghost predicate Up(s: State, k: nat, n: nat) {
    (forall c :: c in s.cpus <==> 0 <= c < k) && forall t :: t in s.threads <==> 0 <= t < n
  }

  lemma BringsUp(s: State, k: nat, n: nat)
    requires Up(s, k, n)
    ensures Enabled(s, NewCpu(k, n)) && Up(Apply(s, NewCpu(k, n)), k + 1, n + 1)
    ensures Enabled(s, Fork(n)) && Up(Apply(s, Fork(n)), k, n + 1)
  {
  }

  lemma NoneUp()
    ensures var s := State(map[], map[]); Reaches(s, 0) && Up(s, 0, 0)
  {
  }

  /** Any number of CPUs can come up, and have any number of threads forked. */
  lemma {:induction false} AnyNumber(k: nat, m: nat) returns (s: State)
    ensures Reaches(s, k + m) && Up(s, k, k + m)
    decreases k + m
  {
    hide Reaches, Enabled, Apply, Up;
    if k + m == 0 {
      s := State(map[], map[]);
      NoneUp();
    } else {
      var p;
      if m == 0 {
        p := AnyNumber(k - 1, 0);
        BringsUp(p, k - 1, k - 1);
        s := Apply(p, NewCpu(k - 1, k - 1));
        OneMore(p, k - 1, NewCpu(k - 1, k - 1));
      } else {
        p := AnyNumber(k, m - 1);
        BringsUp(p, k, k + m - 1);
        s := Apply(p, Fork(k + m - 1));
        OneMore(p, k + m - 1, Fork(k + m - 1));
      }
    }
  }

  /** A thread that never ran can be destroyed, which leaves no trace of it. */
  lemma ForkUndoes(s: State, n: nat, t: Tid)
    requires Reaches(s, n) && t !in s.threads
    ensures Enabled(s, Fork(t)) && Enabled(Apply(s, Fork(t)), Destroy(t)) && Apply(Apply(s, Fork(t)), Destroy(t)) == s
  {
    EveryRun(s, n);
    var s' := Apply(s, Fork(t));
    assert !Current(s', t);
    hide Inv, Reaches;
    assert Apply(s', Destroy(t)).threads == s.threads;
  }
}
