/** What becomes of one thread, followed over whole runs of the thread system (kern/thread/thread.c):
    where it waits, who takes it from there and when, and what runs after a context switch. */
module ThreadRuns {
  import opened Sequences
  import opened Threads

  datatype Turn = Turn(before: State, step: Step, after: State)

  /** The turns lead from s to s'. */
  ghost predicate Follows(s: State, trace: seq<Turn>, s': State)
    decreases |trace|
  {
    if trace == [] then s' == s
    else
      var q := trace[|trace| - 1];
      Follows(s, trace[..|trace| - 1], q.before) && Enabled(q.before, q.step) && q.after == Apply(q.before, q.step) == s'
  }

  lemma {:induction false} FollowsReaches(s: State, n: nat, trace: seq<Turn>, s': State)
    requires Reaches(s, n) && Follows(s, trace, s')
    ensures Reaches(s', n + |trace|)
    decreases |trace|
  {
    hide Enabled, Apply;
    if trace == [] {
    } else {
      var q := trace[|trace| - 1];
      FollowsReaches(s, n, trace[..|trace| - 1], q.before);
      assert Reaches(q.before, n + |trace| - 1) && Enabled(q.before, q.step) && s' == Apply(q.before, q.step);
    }
  }

  lemma OneMore(s: State, n: nat, step: Step)
    requires Reaches(s, n) && Enabled(s, step)
    ensures Reaches(Apply(s, step), n + 1)
  {
    hide Enabled, Apply;
  }

  // ------------------------------------------------------------------ waiting in line

  /** The places a thread waits at until something takes the first one. */
  predicate Line(p: Place) {
    !p.Victims? && !p.Current?
  }

  /** The step takes the first thread at p, if there is one. */
  predicate Takes(step: Step, p: Place) {
    match p
    case OnChan(w) => step.WakeTake? && step.w == w
    case InHand(h) => step == MakeRunnable(h)
    case Runq(c) => step == Pick(c)
    case Zombies(c) => step == Reap(c)
    case _ => false
  }

  /** How often the first thread at p is taken. */
  function Taken(trace: seq<Turn>, p: Place): nat {
    if trace == [] then 0 else Taken(trace[..|trace| - 1], p) + if Takes(trace[|trace| - 1].step, p) then 1 else 0
  }

  /** What a step can do to the record of CPU c: its lines, and its current thread unless it is put away
      or found. */
  predicate CpuMoves(cpu: Cpu, cpu': Cpu, step: Step, c: Cid) {
    && (cpu.runq != [] ==>
          if step == Pick(c) then cpu'.runq == cpu.runq[1..]
          else if step == MigTake(c) then cpu'.runq == cpu.runq[..|cpu.runq| - 1]
          else cpu.runq <= cpu'.runq)
    && (cpu.zombies != [] ==>
          if step == Reap(c) then cpu'.zombies == cpu.zombies[1..] else cpu.zombies <= cpu'.zombies)
    && (cpu.phase == Arrived || cpu.phase == Reaping || cpu.phase == Running ==>
          (step.Park? && step.c == c) || (cpu'.cur == cpu.cur && cpu'.phase == PhaseAfter(cpu, step, c)))
  }

  function PhaseAfter(cpu: Cpu, step: Step, c: Cid): Phase {
    if step == Release(c) then Reaping
    else if step == Reap(c) && cpu.zombies == [] then Running
    else cpu.phase
  }

  lemma PutsAway(q: Turn, c: Cid)
    requires Enabled(q.before, q.step) && q.after == Apply(q.before, q.step) && c in q.before.cpus
    requires q.step.Park? || q.step.Store?
    ensures c in q.after.cpus && CpuMoves(q.before.cpus[c], q.after.cpus[c], q.step, c)
  {
  }

  lemma LooksAgain(q: Turn, c: Cid)
    requires Enabled(q.before, q.step) && q.after == Apply(q.before, q.step) && c in q.before.cpus
    requires q.step.Repoll?
    ensures c in q.after.cpus && CpuMoves(q.before.cpus[c], q.after.cpus[c], q.step, c)
  {
  }

  lemma Finds(q: Turn, c: Cid)
    requires Enabled(q.before, q.step) && q.after == Apply(q.before, q.step) && c in q.before.cpus
    requires q.step.Pick?
    ensures c in q.after.cpus && CpuMoves(q.before.cpus[c], q.after.cpus[c], q.step, c)
  {
  }

  lemma LetsGo(q: Turn, c: Cid)
    requires Enabled(q.before, q.step) && q.after == Apply(q.before, q.step) && c in q.before.cpus
    requires q.step.Release?
    ensures c in q.after.cpus && CpuMoves(q.before.cpus[c], q.after.cpus[c], q.step, c)
  {
  }

  lemma CleansUp(q: Turn, c: Cid)
    requires Enabled(q.before, q.step) && q.after == Apply(q.before, q.step) && c in q.before.cpus
    requires q.step.Reap?
    ensures c in q.after.cpus && CpuMoves(q.before.cpus[c], q.after.cpus[c], q.step, c)
  {
  }

  lemma Migrates(q: Turn, c: Cid)
    requires Enabled(q.before, q.step) && q.after == Apply(q.before, q.step) && c in q.before.cpus
    requires q.step.MigBegin? || q.step.MigTake? || q.step.MigReturn? || q.step.MigEnd?
    ensures c in q.after.cpus && CpuMoves(q.before.cpus[c], q.after.cpus[c], q.step, c)
  {
  }

  lemma Places(q: Turn, c: Cid)
    requires Enabled(q.before, q.step) && q.after == Apply(q.before, q.step) && c in q.before.cpus
    requires q.step.MakeRunnable? || q.step.MigPlace?
    ensures c in q.after.cpus && CpuMoves(q.before.cpus[c], q.after.cpus[c], q.step, c)
  {
  }

  lemma Brings(q: Turn, c: Cid)
    requires Enabled(q.before, q.step) && q.after == Apply(q.before, q.step) && c in q.before.cpus
    requires q.step.NewCpu? || q.step.Fork? || q.step.WakeTake?
    ensures c in q.after.cpus && CpuMoves(q.before.cpus[c], q.after.cpus[c], q.step, c)
  {
  }

  lemma CpuTurn(q: Turn, c: Cid)
    requires Enabled(q.before, q.step) && q.after == Apply(q.before, q.step) && c in q.before.cpus
    ensures c in q.after.cpus && CpuMoves(q.before.cpus[c], q.after.cpus[c], q.step, c)
  {
    hide Enabled, Apply, CpuMoves;
    match q.step {
      case Park(_, _) => PutsAway(q, c);
      case Store(_) => PutsAway(q, c);
      case Pick(_) => Finds(q, c);
      case Repoll(_) => LooksAgain(q, c);
      case Release(_) => LetsGo(q, c);
      case Reap(_) => CleansUp(q, c);
      case MakeRunnable(_) => Places(q, c);
      case MigPlace(_, _) => Places(q, c);
      case NewCpu(_, _) => Brings(q, c);
      case Fork(_, _, _) => Brings(q, c);
      case WakeTake(_, _) => Brings(q, c);
      case _ => Migrates(q, c);
    }
  }

  /** What a turn does to a line. */
  ghost predicate LineMoves(q: Turn, p: Place) {
    var l, l' := ListAt(q.before, p), ListAt(q.after, p);
    l != [] ==>
      if Takes(q.step, p) then l' == l[1..]
      else if p.Runq? && q.step == MigTake(p.c) then l' == l[..|l| - 1]
      else l <= l'
  }

  lemma ChanTurn(q: Turn, w: Wid)
    requires Enabled(q.before, q.step) && q.after == Apply(q.before, q.step)
    ensures LineMoves(q, OnChan(w))
  {
    hide Enabled;
  }

  lemma HandTurn(q: Turn, h: Hid)
    requires Enabled(q.before, q.step) && q.after == Apply(q.before, q.step)
    ensures LineMoves(q, InHand(h))
  {
    hide Enabled;
  }

  lemma RunqTurn(q: Turn, c: Cid)
    requires Enabled(q.before, q.step) && q.after == Apply(q.before, q.step)
    ensures LineMoves(q, Runq(c))
  {
    hide Enabled, Apply;
    if c in q.before.cpus { CpuTurn(q, c); }
  }

  lemma ZombiesTurn(q: Turn, c: Cid)
    requires Enabled(q.before, q.step) && q.after == Apply(q.before, q.step)
    ensures LineMoves(q, Zombies(c))
  {
    hide Enabled, Apply;
    if c in q.before.cpus { CpuTurn(q, c); }
  }

  lemma LineTurn(q: Turn, p: Place)
    requires Enabled(q.before, q.step) && q.after == Apply(q.before, q.step) && Line(p)
    ensures LineMoves(q, p)
  {
    hide Enabled, Apply, LineMoves;
    match p {
      case OnChan(w) => ChanTurn(q, w);
      case InHand(h) => HandTurn(q, h);
      case Runq(c) => RunqTurn(q, c);
      case Zombies(c) => ZombiesTurn(q, c);
    }
  }

  /** The thread t is at p before every turn. */
  ghost predicate Stays(trace: seq<Turn>, p: Place, t: Tid) {
    forall i :: 0 <= i < |trace| ==> t in ListAt(trace[i].before, p)
  }

  lemma StaysBefore(trace: seq<Turn>, p: Place, t: Tid)
    requires Stays(trace, p, t) && trace != []
    ensures Stays(trace[..|trace| - 1], p, t) && t in ListAt(trace[|trace| - 1].before, p)
  {
    hide ListAt;
    assert forall i :: 0 <= i < |trace| - 1 ==> trace[..|trace| - 1][i] == trace[i];
  }

  lemma AllDistinct(s: State, n: nat, p: Place)
    requires Reaches(s, n)
    ensures Distinct(ListAt(s, p))
  {
    hide ListAt, Distinct;
    var loc := EveryRun(s, n);
  }

  /** As long as a thread is at p, it moves up by one whenever the first is taken, and by nothing
      else. */
  lemma {:induction false} InLine(s: State, n: nat, trace: seq<Turn>, s': State, p: Place, t: Tid, i: nat)
    requires Reaches(s, n) && Follows(s, trace, s') && Line(p) && i < |ListAt(s, p)| && ListAt(s, p)[i] == t
    requires Stays(trace, p, t) && t in ListAt(s', p)
    ensures Taken(trace, p) <= i && i - Taken(trace, p) < |ListAt(s', p)| && ListAt(s', p)[i - Taken(trace, p)] == t
    decreases |trace|
  {
    hide ListAt, Enabled, Apply, Takes, Reaches, Stays, Line;
    if trace == [] {
    } else {
      var q := trace[|trace| - 1];
      StaysBefore(trace, p, t);
      InLine(s, n, trace[..|trace| - 1], q.before, p, t, i);
      FollowsReaches(s, n, trace[..|trace| - 1], q.before);
      AllDistinct(q.before, n + |trace| - 1, p);
      LineTurn(q, p);
    }
  }

  /** What a thread that leaves a line leaves it for: woken into the hands of the caller of wchan_wake*,
      made runnable on its own CPU, switched to, taken for migration, or destroyed. */
  ghost predicate LeftFor(q: Turn, p: Place, t: Tid) {
    match p
    case OnChan(w) => q.step.WakeTake? && q.step.w == w && Hand(q.after, q.step.h) == Hand(q.before, q.step.h) + [t]
    case InHand(h) =>
      && q.step == MakeRunnable(h) && t in q.before.threads && q.before.threads[t].cpu in q.before.cpus
      && ListAt(q.after, Runq(q.before.threads[t].cpu)) == ListAt(q.before, Runq(q.before.threads[t].cpu)) + [t]
    case Runq(c) =>
      || (q.step == Pick(c) && c in q.after.cpus && q.after.cpus[c].cur == t && !q.after.cpus[c].idle)
      || (q.step == MigTake(c) && t in ListAt(q.after, Victims(c)))
    case Zombies(c) => q.step == Reap(c) && t !in q.after.threads
    case _ => false
  }

  lemma HeadLeaves(q: Turn, p: Place)
    requires Enabled(q.before, q.step) && q.after == Apply(q.before, q.step) && Line(p)
    requires Takes(q.step, p) && ListAt(q.before, p) != []
    ensures LeftFor(q, p, ListAt(q.before, p)[0])
  {
  }

  lemma TailLeaves(q: Turn, c: Cid)
    requires Enabled(q.before, q.step) && q.after == Apply(q.before, q.step) && q.step == MigTake(c)
    requires var l := ListAt(q.before, Runq(c)); l != []
    ensures var l := ListAt(q.before, Runq(c)); LeftFor(q, Runq(c), l[|l| - 1])
  {
  }

  lemma LeavesTurn(q: Turn, p: Place, t: Tid)
    requires Enabled(q.before, q.step) && q.after == Apply(q.before, q.step) && Line(p)
    requires t in ListAt(q.before, p) && t !in ListAt(q.after, p)
    ensures LeftFor(q, p, t)
    ensures Takes(q.step, p) ==> t == ListAt(q.before, p)[0]
    ensures Takes(q.step, p) || (p.Runq? && q.step == MigTake(p.c))
  {
    hide Enabled, Apply, ListAt, LeftFor, Line, Takes;
    LineTurn(q, p);
    var l := ListAt(q.before, p);
    assert l == [l[0]] + l[1..] == l[..|l| - 1] + [l[|l| - 1]];
    if Takes(q.step, p) { HeadLeaves(q, p); } else if p.Runq? && q.step == MigTake(p.c) { TailLeaves(q, p.c); }
  }

  /** A thread that was i-th in line and is gone was taken as the first by the (i+1)-th taking, or, from
      a run queue only, for migration. */
  lemma LeavesLine(s: State, n: nat, trace: seq<Turn>, s': State, p: Place, t: Tid, i: nat)
    requires Reaches(s, n) && Follows(s, trace, s') && Line(p) && i < |ListAt(s, p)| && ListAt(s, p)[i] == t
    requires Stays(trace, p, t) && t !in ListAt(s', p)
    ensures trace != [] && LeftFor(trace[|trace| - 1], p, t)
    ensures Taken(trace, p) == i + 1 || (p.Runq? && trace[|trace| - 1].step == MigTake(p.c))
  {
    hide ListAt, Enabled, Apply, Reaches, Stays, Line, LeftFor;
    var q := trace[|trace| - 1];
    StaysBefore(trace, p, t);
    InLine(s, n, trace[..|trace| - 1], q.before, p, t, i);
    FollowsReaches(s, n, trace[..|trace| - 1], q.before);
    AllDistinct(q.before, n + |trace| - 1, p);
    LeavesTurn(q, p, t);
    LineTurn(q, p);
  }

  function ParkState(how: How): ThreadState {
    match how
    case Yield => READY
    case Sleep(_) => SLEEP
    case Exit => ZOMBIE
  }

  /** A thread in line is no CPU's current thread, unless that CPU has put it there and stands on its
      stack still. */
  lemma NotCurrent(s: State, n: nat, p: Place, t: Tid, c: Cid)
    requires Reaches(s, n) && Line(p) && t in ListAt(s, p) && c in s.cpus && s.cpus[c].cur == t
    ensures t in s.threads && s.threads[t].cpu == c
    ensures s.cpus[c].idle || s.cpus[c].phase.Storing?
  {
    hide Reaches, Placed, Distinct;
    var loc := EveryRun(s, n);
    IsAt(s, loc, p, t);
    assert CpuOk(s, c);
    if !s.cpus[c].idle && !s.cpus[c].phase.Storing? {
      assert t in ListAt(s, Current(c));
      IsAt(s, loc, Current(c), t);
    }
  }

  lemma PhaseOf(s: State, n: nat, c: Cid)
    requires Reaches(s, n) && c in s.cpus
    ensures s.cpus[c].cur in s.threads && s.threads[s.cpus[c].cur].cpu == c
    ensures s.cpus[c].idle <==> s.cpus[c].phase == Parked || s.cpus[c].phase == Idling
  {
    hide Reaches, Placed;
    var loc := EveryRun(s, n);
    assert CpuOk(s, c);
  }

  /** The state t is in, or that is about to be stored, stays. */
  ghost predicate SameState(q: Turn, t: Tid) {
    t in q.before.threads && t in q.after.threads && StateOf(q.after, t) == StateOf(q.before, t)
  }

  lemma StoreStays(q: Turn, n: nat, t: Tid)
    requires Reaches(q.before, n) && Enabled(q.before, q.step) && q.after == Apply(q.before, q.step)
    requires q.step.Store? && t in q.before.threads
    ensures SameState(q, t)
  {
    hide Reaches;
    PhaseOf(q.before, n, q.step.c);
  }

  lemma SwitchStays(q: Turn, n: nat, t: Tid)
    requires Reaches(q.before, n) && Enabled(q.before, q.step) && q.after == Apply(q.before, q.step)
    requires (q.step.Park? || q.step.Release?) && q.before.cpus[q.step.c].cur != t && t in q.before.threads
    ensures SameState(q, t)
  {
    hide Reaches;
    PhaseOf(q.before, n, q.step.c);
  }

  lemma PlaceStays(q: Turn, t: Tid)
    requires Enabled(q.before, q.step) && q.after == Apply(q.before, q.step)
    requires q.step.MigPlace? && t !in ListAt(q.before, Victims(q.step.c)) && t in q.before.threads
    ensures SameState(q, t)
  {
  }

  lemma QueueStays(q: Turn, t: Tid)
    requires Enabled(q.before, q.step) && q.after == Apply(q.before, q.step) && t in q.before.threads && t in q.after.threads
    requires q.step.MakeRunnable? || q.step.WakeTake? || q.step.MigBegin? || q.step.MigTake? || q.step.MigReturn? || q.step.MigEnd?
    ensures SameState(q, t)
  {
  }

  lemma OtherStays(q: Turn, t: Tid)
    requires Enabled(q.before, q.step) && q.after == Apply(q.before, q.step) && t in q.before.threads && t in q.after.threads
    requires q.before.threads[t].cpu in q.before.cpus
    requires q.step.NewCpu? || q.step.Fork? || q.step.Pick? || q.step.Repoll? || q.step.Reap?
    ensures SameState(q, t)
  {
  }

  lemma StateStays(q: Turn, n: nat, p: Place, t: Tid)
    requires Reaches(q.before, n) && Enabled(q.before, q.step) && q.after == Apply(q.before, q.step) && Line(p)
    requires t in ListAt(q.before, p) && t in ListAt(q.after, p)
    ensures SameState(q, t)
  {
    hide Reaches, Enabled, Apply, ListAt, SameState;
    NoneDestroyed(q.before, n, p, t);
    OneMore(q.before, n, q.step);
    NoneDestroyed(q.after, n + 1, p, t);
    match q.step {
      case Store(_) => StoreStays(q, n, t);
      case Park(_, _) =>
        Switches(q, n, p, t);
        SwitchStays(q, n, t);
      case Release(_) =>
        Switches(q, n, p, t);
        SwitchStays(q, n, t);
      case MigPlace(c, _) =>
        Elsewhere(q.before, n, p, Victims(c), t);
        PlaceStays(q, t);
      case NewCpu(_, _) =>
        HasCpu(q.before, n, t);
        OtherStays(q, t);
      case Fork(_, _, _) =>
        HasCpu(q.before, n, t);
        OtherStays(q, t);
      case Pick(_) =>
        HasCpu(q.before, n, t);
        OtherStays(q, t);
      case Repoll(_) =>
        HasCpu(q.before, n, t);
        OtherStays(q, t);
      case Reap(_) =>
        HasCpu(q.before, n, t);
        OtherStays(q, t);
      case _ => QueueStays(q, t);
    }
  }

  lemma Switches(q: Turn, n: nat, p: Place, t: Tid)
    requires Reaches(q.before, n) && Enabled(q.before, q.step) && Line(p) && t in ListAt(q.before, p)
    requires q.step.Park? || q.step.Release?
    ensures q.step.c in q.before.cpus && q.before.cpus[q.step.c].cur != t
  {
    hide Reaches, ListAt;
    PhaseOf(q.before, n, q.step.c);
    if q.before.cpus[q.step.c].cur == t { NotCurrent(q.before, n, p, t, q.step.c); }
  }

  lemma Elsewhere(s: State, n: nat, p: Place, r: Place, t: Tid)
    requires Reaches(s, n) && t in ListAt(s, p) && p != r
    ensures t !in ListAt(s, r)
  {
    hide Reaches, ListAt, Distinct;
    var loc := EveryRun(s, n);
    IsAt(s, loc, p, t);
    NotAt(s, loc, r, t);
  }

  lemma HasCpu(s: State, n: nat, t: Tid)
    requires Reaches(s, n) && t in s.threads
    ensures s.threads[t].cpu in s.cpus
  {
    hide Reaches, ListAt, Distinct;
    var loc := EveryRun(s, n);
    Known(s, loc, t);
    assert Owned(s, loc, t);
  }

  /** A thread that stays in line keeps its state. */
  lemma {:induction false} KeepsState(s: State, n: nat, trace: seq<Turn>, s': State, p: Place, t: Tid)
    requires Reaches(s, n) && Follows(s, trace, s') && Line(p) && Stays(trace, p, t) && t in ListAt(s', p)
    ensures t in s.threads && t in s'.threads && StateOf(s', t) == StateOf(s, t)
    decreases |trace|
  {
    hide ListAt, Enabled, Apply, Reaches, Stays, Line, StateOf;
    if trace == [] {
      NoneDestroyed(s, n, p, t);
    } else {
      var q := trace[|trace| - 1];
      StaysBefore(trace, p, t);
      KeepsState(s, n, trace[..|trace| - 1], q.before, p, t);
      FollowsReaches(s, n, trace[..|trace| - 1], q.before);
      StateStays(q, n + |trace| - 1, p, t);
    }
  }

  function ParkPlace(c: Cid, how: How): Place {
    match how
    case Yield => Runq(c)
    case Sleep(w) => OnChan(w)
    case Exit => Zombies(c)
  }

  lemma ParksLast(s: State, c: Cid, how: How)
    requires Enabled(s, Park(c, how))
    ensures c in s.cpus && ListAt(Apply(s, Park(c, how)), ParkPlace(c, how)) == ListAt(s, ParkPlace(c, how)) + [s.cpus[c].cur]
    ensures Line(ParkPlace(c, how))
  {
  }

  lemma Parks(s: State, n: nat, c: Cid, how: How)
    requires Reaches(s, n) && Enabled(s, Park(c, how))
    ensures var s1 := Apply(s, Park(c, how)); s.cpus[c].cur in s1.threads && StateOf(s1, s.cpus[c].cur) == ParkState(how)
  {
    hide Reaches;
    PhaseOf(s, n, c);
  }

  /** thread_switch: a thread that sleeps on w is on the channel w, one that yields on its CPU's run
      queue, one that exits among its CPU's zombies, behind those already there and in the state SLEEP,
      READY or ZOMBIE (stored, or about to be), for as long as it is not taken; and what takes it is a
      wake-up of that same w after as many as were ahead of it, the scheduler of that CPU in its turn (or
      migration), and the reaping on that CPU. */
  lemma ParkedUntilTaken(s: State, n: nat, c: Cid, how: How, trace: seq<Turn>, s': State)
    requires Reaches(s, n) && Enabled(s, Park(c, how)) && Follows(Apply(s, Park(c, how)), trace, s')
    requires Stays(trace, ParkPlace(c, how), s.cpus[c].cur)
    ensures var p, t := ParkPlace(c, how), s.cpus[c].cur; var i, k := |ListAt(s, p)|, Taken(trace, p);
      if t in ListAt(s', p) then
        && k <= i && i - k < |ListAt(s', p)| && ListAt(s', p)[i - k] == t
        && t in s'.threads && StateOf(s', t) == ParkState(how)
      else
        && trace != [] && LeftFor(trace[|trace| - 1], p, t)
        && (k == i + 1 || (how == Yield && trace[|trace| - 1].step == MigTake(c)))
  {
    hide ListAt, Enabled, Apply, Reaches, Stays, Line, LeftFor, Follows, Taken, StateOf, ParkState;
    ParksLast(s, c, how);
    var p, t, step := ParkPlace(c, how), s.cpus[c].cur, Park(c, how);
    var s1 := Apply(s, step);
    OneMore(s, n, step);
    var i := |ListAt(s, p)|;
    if t in ListAt(s', p) {
      InLine(s1, n + 1, trace, s', p, t, i);
      KeepsState(s1, n + 1, trace, s', p, t);
      Parks(s, n, c, how);
    } else {
      LeavesLine(s1, n + 1, trace, s', p, t, i);
    }
  }

  // ------------------------------------------------------------------------ running

  /** No turn parks the current thread of c. */
  ghost predicate NotParked(trace: seq<Turn>, c: Cid) {
    forall i :: 0 <= i < |trace| ==> !(trace[i].step.Park? && trace[i].step.c == c)
  }

  /** The CPU c has switched to t, and once past the tail of thread_switch t is in state RUN. */
  predicate On(s: State, c: Cid, t: Tid) {
    && c in s.cpus && s.cpus[c].cur == t && t in s.threads
    && (s.cpus[c].phase == Arrived || ((s.cpus[c].phase == Reaping || s.cpus[c].phase == Running) && s.threads[t].state == RUN))
  }

  lemma StateSet(q: Turn, t: Tid)
    requires Enabled(q.before, q.step) && q.after == Apply(q.before, q.step) && t in q.before.threads
    requires q.step.Store? || q.step.Release? || q.step.Reap?
    requires q.step.Store? ==> q.before.cpus[q.step.c].cur != t
    requires q.step.Reap? && q.before.cpus[q.step.c].zombies != [] ==> q.before.cpus[q.step.c].zombies[0] != t
    ensures t in q.after.threads
    ensures q.after.threads[t].state ==
      if q.step.Release? && q.before.cpus[q.step.c].cur == t then RUN else q.before.threads[t].state
  {
  }

  lemma StateSame(q: Turn, t: Tid)
    requires Enabled(q.before, q.step) && q.after == Apply(q.before, q.step) && t in q.before.threads
    requires !q.step.Store? && !q.step.Release? && !q.step.Reap?
    ensures t in q.after.threads && q.after.threads[t].state == q.before.threads[t].state
  {
  }

  lemma StoresOther(q: Turn, n: nat, c: Cid)
    requires Reaches(q.before, n) && Enabled(q.before, q.step) && c in q.before.cpus && !q.before.cpus[c].phase.Storing?
    ensures q.step.Store? ==> q.before.cpus[q.step.c].cur != q.before.cpus[c].cur
  {
    hide Reaches;
    if q.step.Store? { StacksApart(q.before, n, c, q.step.c); }
  }

  lemma ReapsOther(q: Turn, n: nat, c: Cid)
    requires Reaches(q.before, n) && Enabled(q.before, q.step) && c in q.before.cpus
    ensures q.step.Reap? && q.before.cpus[q.step.c].zombies != [] ==> q.before.cpus[q.step.c].zombies[0] != q.before.cpus[c].cur
  {
    hide Reaches;
    if q.step.Reap? && q.before.cpus[q.step.c].zombies != [] { ReapIsSafe(q.before, n, q.step.c); }
  }

  lemma EnabledCpu(s: State, step: Step)
    requires Enabled(s, step) && (step.Store? || step.Reap? || step.Release?)
    ensures step.c in s.cpus && (step.Reap? ==> s.cpus[step.c].phase == Reaping)
  {
  }

  lemma OnTurn(q: Turn, n: nat, c: Cid, t: Tid)
    requires Reaches(q.before, n) && Enabled(q.before, q.step) && q.after == Apply(q.before, q.step)
    requires On(q.before, c, t) && !(q.step.Park? && q.step.c == c)
    ensures On(q.after, c, t)
  {
    hide Reaches, Enabled, Apply;
    assert q.before.cpus[c].cur == t;
    CpuTurn(q, c);
    if q.step.Store? || q.step.Reap? || q.step.Release? {
      EnabledCpu(q.before, q.step);
      StoresOther(q, n, c);
      ReapsOther(q, n, c);
      StateSet(q, t);
    } else {
      StateSame(q, t);
    }
  }

  lemma Picked(s: State, n: nat, c: Cid)
    requires Reaches(s, n) && Enabled(s, Pick(c)) && s.cpus[c].runq != []
    ensures c in s.cpus && On(Apply(s, Pick(c)), c, s.cpus[c].runq[0])
  {
    hide Reaches;
    NoneDestroyed(s, n, Runq(c), s.cpus[c].runq[0]);
  }

  /** After a switch on c, the thread that was first on its run queue is its current thread until the next
      thread_switch there, and its state is RUN from the tail of this one on. */
  lemma {:induction false} HeadRuns(s: State, n: nat, c: Cid, trace: seq<Turn>, s': State)
    requires Reaches(s, n) && Enabled(s, Pick(c)) && s.cpus[c].runq != []
    requires Follows(Apply(s, Pick(c)), trace, s') && NotParked(trace, c)
    ensures On(s', c, s.cpus[c].runq[0])
    decreases |trace|
  {
    hide Enabled, Apply, Reaches, On;
    Picked(s, n, c);
    if trace == [] {
    } else {
      var q := trace[|trace| - 1];
      var before := trace[..|trace| - 1];
      assert forall i :: 0 <= i < |before| ==> before[i] == trace[i];
      HeadRuns(s, n, c, before, q.before);
      OneMore(s, n, Pick(c));
      FollowsReaches(Apply(s, Pick(c)), n + 1, before, q.before);
      OnTurn(q, n + |trace|, c, s.cpus[c].runq[0]);
    }
  }

  /** cpu_create and thread_fork: a new thread is READY and belongs to the CPU it is made on; the first one
      of a CPU is its current thread, one that is forked is last in the hands of the caller, which makes it
      runnable there. */
  lemma Created(s: State, n: nat, c: Cid, h: Hid, t: Tid, step: Step)
    requires Reaches(s, n) && Enabled(s, step) && (step == NewCpu(c, t) || step == Fork(c, h, t))
    ensures var s' := Apply(s, step);
      && t in s'.threads && s'.threads[t].cpu == c && s'.threads[t].state == READY
      && (if step.NewCpu? then ListAt(s', Current(c)) == [t] else Hand(s', h) == Hand(s, h) + [t])
  {
    if step.Fork? { CurrentIsOwn(s, n, c); }
  }

  /** A CPU that finds nothing to run lets go of its run queue, so that others can put threads on it, and
      when there is one, its next two steps switch to the first of them. */
  lemma IdleWakes(s: State, n: nat, c: Cid)
    requires Reaches(s, n) && c in s.cpus && s.cpus[c].phase == Parked && s.cpus[c].runq == []
    ensures Enabled(s, Pick(c))
    ensures var s' := Apply(s, Pick(c)); c in s'.cpus && s'.cpus[c].idle && !LockHeld(s'.cpus[c]) && s'.cpus[c].phase == Idling
  {
    PhaseOf(s, n, c);
  }

  lemma IdleSwitches(s: State, n: nat, c: Cid)
    requires Reaches(s, n) && c in s.cpus && s.cpus[c].phase == Idling && !s.cpus[c].migrating && s.cpus[c].runq != []
    ensures Enabled(s, Repoll(c)) && Enabled(Apply(s, Repoll(c)), Pick(c))
    ensures On(Apply(Apply(s, Repoll(c)), Pick(c)), c, s.cpus[c].runq[0])
  {
    hide Reaches;
    OneMore(s, n, Repoll(c));
    Picked(Apply(s, Repoll(c)), n + 1, c);
  }

  // ---------------------------------------------------------------------- migration

  /** Taking victims off the tail keeps them in their order. */
  lemma VictimsInOrder(s: State, c: Cid)
    requires Enabled(s, MigTake(c))
    ensures var s' := Apply(s, MigTake(c)); c in s'.cpus && s'.cpus[c].runq + s'.cpus[c].victims == s.cpus[c].runq + s.cpus[c].victims
  {
    var l := s.cpus[c].runq;
    assert l == l[..|l| - 1] + [l[|l| - 1]];
  }

  lemma Begun(s: State, c: Cid)
    requires Enabled(s, MigBegin(c))
    ensures Apply(s, MigBegin(c)) == SetCpu(s, c, s.cpus[c].(migrating := true)) && c in s.cpus && !s.cpus[c].migrating
  {
  }

  lemma TakesOne(s: State, c: Cid)
    requires c in s.cpus && s.cpus[c].migrating && s.cpus[c].runq != []
    ensures Enabled(s, MigTake(c))
    ensures var l := s.cpus[c].runq;
      Apply(s, MigTake(c)) == SetCpu(s, c, s.cpus[c].(runq := l[..|l| - 1], victims := [l[|l| - 1]] + s.cpus[c].victims))
  {
  }

  lemma PlacesOne(s: State, c: Cid, d: Cid, t: Tid)
    requires c in s.cpus && d in s.cpus && d != c && s.cpus[c].migrating && s.cpus[c].victims == [t]
    requires t in s.threads && t != s.cpus[c].cur && !LockHeld(s.cpus[d])
    ensures Enabled(s, MigPlace(c, d))
    ensures Apply(s, MigPlace(c, d)) ==
            SetCpu(SetCpu(s, c, s.cpus[c].(victims := [])), d, s.cpus[d].(runq := s.cpus[d].runq + [t]))
              .(threads := s.threads[t := s.threads[t].(cpu := d)])
  {
    assert s.cpus[c].victims[1..] == [];
  }

  lemma Ends(s: State, c: Cid)
    requires c in s.cpus && s.cpus[c].migrating && s.cpus[c].victims == []
    ensures Enabled(s, MigEnd(c)) && Apply(s, MigEnd(c)) == SetCpu(s, c, s.cpus[c].(migrating := false))
  {
  }

  /** These steps, one after the other, are possible in s and lead to s'. */
  ghost predicate Leads(s: State, steps: seq<Step>, s': State)
    decreases |steps|
  {
    if steps == [] then s' == s else Enabled(s, steps[0]) && Leads(Apply(s, steps[0]), steps[1..], s')
  }

  /** A CPU that decides to can send the last thread of its run queue to any other CPU whose run queue is
      unlocked: that thread then is last there and belongs there, and nothing else has moved. */
  lemma SendsOne(s: State, n: nat, c: Cid, d: Cid)
    requires Reaches(s, n) && Enabled(s, MigBegin(c)) && s.cpus[c].runq != [] && s.cpus[c].runq[|s.cpus[c].runq| - 1] != s.cpus[c].cur
    requires d in s.cpus && d != c && !LockHeld(s.cpus[d])
    ensures var l := s.cpus[c].runq; var t := l[|l| - 1];
      t in s.threads && Leads(s, [MigBegin(c), MigTake(c), MigPlace(c, d), MigEnd(c)], State(
        s.threads[t := s.threads[t].(cpu := d)],
        s.cpus[c := s.cpus[c].(runq := l[..|l| - 1])][d := s.cpus[d].(runq := s.cpus[d].runq + [t])], s.chans, s.hands))
  {
    hide Reaches, Enabled, Apply, Leads;
    Begun(s, c);
    var l := s.cpus[c].runq;
    var t := l[|l| - 1];
    NoVictims(s, n, c);
    QueuedIsOwn(s, n, c, t);
    var s1 := Apply(s, MigBegin(c));
    TakesOne(s1, c);
    var s2 := Apply(s1, MigTake(c));
    assert s2.cpus[c].victims == [t];
    PlacesOne(s2, c, d, t);
    var s3 := Apply(s2, MigPlace(c, d));
    Ends(s3, c);
    var s4 := Apply(s3, MigEnd(c));
    assert s4.cpus == s.cpus[c := s.cpus[c].(runq := l[..|l| - 1])][d := s.cpus[d].(runq := s.cpus[d].runq + [t])];
    FourSteps(s, s1, s2, s3, MigBegin(c), MigTake(c), MigPlace(c, d), MigEnd(c));
  }

  lemma FourSteps(s: State, s1: State, s2: State, s3: State, a: Step, b: Step, e: Step, f: Step)
    requires Enabled(s, a) && s1 == Apply(s, a) && Enabled(s1, b) && s2 == Apply(s1, b)
    requires Enabled(s2, e) && s3 == Apply(s2, e) && Enabled(s3, f)
    ensures Leads(s, [a, b, e, f], Apply(s3, f))
  {
    hide Enabled, Apply;
    var s4 := Apply(s3, f);
    assert [a, b, e, f][1..] == [b, e, f] && [b, e, f][1..] == [e, f] && [e, f][1..] == [f] && [f][1..] == [];
    assert Leads(s4, [], s4);
    assert Leads(s3, [f], s4);
    assert Leads(s2, [e, f], s4);
    assert Leads(s1, [b, e, f], s4);
  }

  lemma NoVictims(s: State, n: nat, c: Cid)
    requires Reaches(s, n) && c in s.cpus && !s.cpus[c].migrating
    ensures s.cpus[c].victims == []
  {
    hide Reaches, Placed;
    var loc := EveryRun(s, n);
    assert CpuOk(s, c);
  }
  // ----------------------------------------------------------------------- progress

  /** No CPU is ever stuck: whatever it is doing has a next step. */
  lemma CpuGoesOn(s: State, n: nat, c: Cid, w: Wid, h: Hid, t: Tid)
    requires Reaches(s, n) && c in s.cpus
    ensures var cpu := s.cpus[c];
      match cpu.phase
      case Running =>
        && (!cpu.migrating ==> Enabled(s, Park(c, Sleep(w))) && Enabled(s, Park(c, Exit)) && Enabled(s, MigBegin(c)))
        && (!cpu.migrating && cpu.runq != [] ==> Enabled(s, Park(c, Yield)))
        && (!cpu.migrating && t !in s.threads ==> Enabled(s, Fork(c, h, t)))
      case Storing(_) => Enabled(s, Store(c))
      case Parked => Enabled(s, Pick(c))
      case Idling => !cpu.migrating ==> Enabled(s, Repoll(c)) && Enabled(s, MigBegin(c))
      case Arrived => Enabled(s, Release(c))
      case Reaping => Enabled(s, Reap(c))
    ensures s.cpus[c].migrating ==>
      (s.cpus[c].runq != [] ==> Enabled(s, MigTake(c))) && Enabled(s, if s.cpus[c].victims == [] then MigEnd(c) else MigReturn(c))
  {
    hide Reaches, Apply;
    PhaseOf(s, n, c);
  }

  /** A sleeper can be taken as soon as there is one, and a thread in hand be made runnable as soon as
      the run queue of its CPU is unlocked. */
  lemma HandGoesOn(s: State, n: nat, w: Wid, h: Hid)
    requires Reaches(s, n)
    ensures Chan(s, w) != [] ==> Enabled(s, WakeTake(w, h))
    ensures Hand(s, h) != [] ==>
      var t := Hand(s, h)[0];
      t in s.threads && s.threads[t].cpu in s.cpus && (!LockHeld(s.cpus[s.threads[t].cpu]) ==> Enabled(s, MakeRunnable(h)))
  {
    hide Reaches, Apply;
    if Hand(s, h) != [] {
      var t := Hand(s, h)[0];
      assert t in ListAt(s, InHand(h));
      NoneDestroyed(s, n, InHand(h), t);
      HasCpu(s, n, t);
    }
  }

  /** k CPUs are up, each with its first thread. */
  ghost predicate Up(s: State, k: nat) {
    (forall c :: c in s.cpus <==> 0 <= c < k) && forall t :: t in s.threads <==> 0 <= t < k
  }

  lemma BringsUp(s: State, k: nat)
    requires Up(s, k)
    ensures Enabled(s, NewCpu(k, k)) && Up(Apply(s, NewCpu(k, k)), k + 1)
  {
  }

  lemma NoneUp()
    ensures var s := State(map[], map[], map[], map[]); Reaches(s, 0) && Up(s, 0)
  {
  }

  /** Any number of CPUs can come up. */
  lemma {:induction false} AnyNumber(k: nat) returns (s: State)
    ensures Reaches(s, k) && Up(s, k)
  {
    hide Reaches, Enabled, Apply, Up;
    if k == 0 {
      s := State(map[], map[], map[], map[]);
      NoneUp();
    } else {
      var p := AnyNumber(k - 1);
      BringsUp(p, k - 1);
      OneMore(p, k - 1, NewCpu(k - 1, k - 1));
      s := Apply(p, NewCpu(k - 1, k - 1));
    }
  }
}
