/** What callers of P and V (kern/thread/synch.c) get, counted over whole runs: who returned, what
    happened to the count, and in which order sleepers are woken. */
module SemaphoreRuns {
  import opened Semaphore

  /** One statement of one agent. */
  datatype Turn = Turn(before: State, a: Agent, after: State)

  /** The turns are one run from the initial state s0 to s. */
  ghost predicate Run(s0: State, trace: seq<Turn>, s: State)
    decreases |trace|
  {
    if trace == [] then Init(s0) && s == s0
    else
      var n := |trace| - 1;
      && Run(s0, trace[..n], trace[n].before)
      && Next(trace[n].before, trace[n].a, trace[n].after) && s == trace[n].after
  }

  lemma {:induction false} RunInv(s0: State, trace: seq<Turn>, s: State)
    requires Run(s0, trace, s)
    ensures Inv(s) && Init(s0)
    decreases |trace|
  {
    hide Inv, Next;
    if trace == [] {
      InitInv(s);
    } else {
      var n := |trace| - 1;
      RunInv(s0, trace[..n], trace[n].before);
      Kept(trace[n].before, trace[n].a, s);
    }
  }

  // ------------------------------------------------------------------- counting

  /** Inside a call of P, and of V. */
  predicate InP(pc: PC) {
    pc == PEnter || pc.PTest? || pc == PLockChan || pc == PUnlockSem || pc == PSleep || pc == PAsleep ||
    pc == PTaken || pc == PWoken || pc.PTake? || pc == PLeave
  }

  predicate InV(pc: PC) {
    pc != Idle && !InP(pc)
  }

  /** What a turn can be: the count goes up or down, a call begins or returns. */
  datatype What = Up | Down | PBegins | VBegins | PReturns | VReturns

  predicate Is(t: Turn, w: What) {
    match w
    case Up => t.after.count == t.before.count + 1
    case Down => t.after.count + 1 == t.before.count
    case PBegins => At(t.before, t.a) == Idle && InP(At(t.after, t.a))
    case VBegins => At(t.before, t.a) == Idle && InV(At(t.after, t.a))
    case PReturns => InP(At(t.before, t.a)) && At(t.after, t.a) == Idle
    case VReturns => InV(At(t.before, t.a)) && At(t.after, t.a) == Idle
  }

  /** How often it happens in a run, and how often as a turn of a. */
  function Times(trace: seq<Turn>, w: What): nat {
    if trace == [] then 0
    else Times(trace[..|trace| - 1], w) + if Is(trace[|trace| - 1], w) then 1 else 0
  }

  function TimesBy(trace: seq<Turn>, w: What, a: Agent): nat {
    if trace == [] then 0
    else TimesBy(trace[..|trace| - 1], w, a) + if trace[|trace| - 1].a == a && Is(trace[|trace| - 1], w) then 1 else 0
  }

  function One(b: bool): nat {
    if b then 1 else 0
  }

  /** A V after its increment. */
  predicate PastInc(pc: PC) {
    pc == VLockChan || pc == VTakeHead || pc.VUnlockChan? || pc.VRunnable? || pc == VLeave
  }

  /** What a turn does to the books of the agent that takes it. */
  lemma OwnPTurn(t: Turn)
    requires Next(t.before, t.a, t.after)
    ensures var pc, pc' := At(t.before, t.a), At(t.after, t.a);
      One(Is(t, Down)) + One(pc == PLeave) == One(Is(t, PReturns)) + One(pc' == PLeave)
  {
  }

  lemma OwnVTurn(t: Turn)
    requires Next(t.before, t.a, t.after)
    ensures var pc, pc' := At(t.before, t.a), At(t.after, t.a);
      One(Is(t, Up)) + One(PastInc(pc)) == One(Is(t, VReturns)) + One(PastInc(pc'))
  {
  }

  lemma OwnPCall(t: Turn)
    requires Next(t.before, t.a, t.after)
    ensures var pc, pc' := At(t.before, t.a), At(t.after, t.a);
      One(Is(t, PBegins)) + One(InP(pc)) == One(Is(t, PReturns)) + One(InP(pc'))
  {
  }

  lemma OwnVCall(t: Turn)
    requires Next(t.before, t.a, t.after)
    ensures var pc, pc' := At(t.before, t.a), At(t.after, t.a);
      One(Is(t, VBegins)) + One(InV(pc)) == One(Is(t, VReturns)) + One(InV(pc'))
  {
  }

  /** Other agents stay in the call they are in, on the same side of its change to the count. */
  lemma OtherTurn(t: Turn, b: Agent)
    requires Inv(t.before) && Next(t.before, t.a, t.after) && b != t.a
    ensures var pc, pc' := At(t.before, b), At(t.after, b);
      (pc == PLeave <==> pc' == PLeave) && (PastInc(pc) <==> PastInc(pc')) && (InP(pc) <==> InP(pc')) && (InV(pc) <==> InV(pc'))
  {
    WakeTarget(t.before, t.a, t.after);
    hide Inv, Next;
    if Bystander(t.before, t.a, b) { Others(t.before, t.a, t.after, b); }
  }

  /** The books of one agent, over every run. */
  lemma {:induction false} AgentBooks(s0: State, trace: seq<Turn>, s: State, a: Agent)
    requires Run(s0, trace, s)
    ensures TimesBy(trace, Down, a) == TimesBy(trace, PReturns, a) + One(At(s, a) == PLeave)
    ensures TimesBy(trace, Up, a) == TimesBy(trace, VReturns, a) + One(PastInc(At(s, a)))
    ensures TimesBy(trace, PBegins, a) == TimesBy(trace, PReturns, a) + One(InP(At(s, a)))
    ensures TimesBy(trace, VBegins, a) == TimesBy(trace, VReturns, a) + One(InV(At(s, a)))
    decreases |trace|
  {
    hide Inv, Next, Is, InP, InV, PastInc, At;
    if trace == [] {
      NobodyIn(s, a);
    } else {
      var n := |trace| - 1;
      AgentBooks(s0, trace[..n], trace[n].before, a);
      RunInv(s0, trace[..n], trace[n].before);
      if trace[n].a == a {
        OwnPTurn(trace[n]);
        OwnVTurn(trace[n]);
        OwnPCall(trace[n]);
        OwnVCall(trace[n]);
      } else {
        OtherTurn(trace[n], a);
      }
    }
  }

  lemma NobodyIn(s: State, a: Agent)
    requires Init(s)
    ensures At(s, a) != PLeave && !PastInc(At(s, a)) && !InP(At(s, a)) && !InV(At(s, a))
  {
  }

  /** Every P that returned lowered the count exactly once, and every V that returned raised it exactly
      once: whenever an agent is outside, its returned calls are its calls, and as many as its changes
      to the count. */
  lemma EachCallCounts(s0: State, trace: seq<Turn>, s: State, a: Agent)
    requires Run(s0, trace, s) && At(s, a) == Idle
    ensures TimesBy(trace, Down, a) == TimesBy(trace, PReturns, a) == TimesBy(trace, PBegins, a)
    ensures TimesBy(trace, Up, a) == TimesBy(trace, VReturns, a) == TimesBy(trace, VBegins, a)
  {
    AgentBooks(s0, trace, s, a);
  }

  // -------------------------------------------------------------------- the whole

  /** The one agent inside that has changed the count and not returned. */
  ghost predicate HolderAt(s: State, leaving: bool) {
    s.semLock.Some? && if leaving then At(s, s.semLock.value) == PLeave else PastInc(At(s, s.semLock.value))
  }

  lemma HolderTurn(t: Turn)
    requires Inv(t.before) && Next(t.before, t.a, t.after)
    ensures One(Is(t, Down)) + One(HolderAt(t.before, true)) == One(Is(t, PReturns)) + One(HolderAt(t.after, true))
    ensures One(Is(t, Up)) + One(HolderAt(t.before, false)) == One(Is(t, VReturns)) + One(HolderAt(t.after, false))
  {
    assert LockOk(t.before, t.a);
    assert t.before.semLock.Some? ==> LockOk(t.before, t.before.semLock.value);
    OwnPTurn(t);
    OwnVTurn(t);
    LockMoves(t.before, t.a, t.after);
    if t.before.semLock.Some? && t.before.semLock.value != t.a { OtherTurn(t, t.before.semLock.value); }
    hide Inv, Next, Is;
  }

  lemma CountTurn(t: Turn)
    requires Next(t.before, t.a, t.after)
    ensures t.after.count == t.before.count + One(Is(t, Up)) - One(Is(t, Down))
    ensures t.after.vs == t.before.vs + One(Is(t, Up)) && t.after.ps == t.before.ps + One(Is(t, Down))
  {
  }

  lemma {:induction false} AllBooks(s0: State, trace: seq<Turn>, s: State)
    requires Run(s0, trace, s)
    ensures s.count == s0.count + Times(trace, Up) - Times(trace, Down)
    ensures s.vs == Times(trace, Up) && s.ps == Times(trace, Down)
    ensures Times(trace, Down) == Times(trace, PReturns) + One(HolderAt(s, true))
    ensures Times(trace, Up) == Times(trace, VReturns) + One(HolderAt(s, false))
    decreases |trace|
  {
    hide Inv, Next, Is, PastInc, At;
    if trace == [] {
    } else {
      var n := |trace| - 1;
      AllBooks(s0, trace[..n], trace[n].before);
      RunInv(s0, trace[..n], trace[n].before);
      HolderTurn(trace[n]);
      CountTurn(trace[n]);
    }
  }

  /** Over every run, the Ps that returned never exceed the initial count plus the times a V raised it;
      and each V that returned is one of those. */
  lemma ReturnedPs(s0: State, trace: seq<Turn>, s: State)
    requires Run(s0, trace, s)
    ensures Times(trace, PReturns) <= s0.count + Times(trace, Up) && s.vs == Times(trace, Up)
    ensures Times(trace, VReturns) <= Times(trace, Up) <= Times(trace, VReturns) + 1
  {
    AllBooks(s0, trace, s);
  }

  // ------------------------------------------------------------------------ order

  /** Who went to sleep in a turn, and who was taken off the channel. */
  function Sleeps(t: Turn): seq<Agent> {
    if At(t.before, t.a) != PAsleep && At(t.after, t.a) == PAsleep then [t.a] else []
  }

  ghost predicate Leaves(t: Turn, b: Agent) {
    At(t.before, b) == PAsleep && At(t.after, b) != PAsleep
  }

  ghost function Taken(t: Turn): seq<Agent> {
    if exists b :: Leaves(t, b) then var b :| Leaves(t, b); [b] else []
  }

  function Slept(trace: seq<Turn>): seq<Agent> {
    if trace == [] then [] else Slept(trace[..|trace| - 1]) + Sleeps(trace[|trace| - 1])
  }

  ghost function TakenAll(trace: seq<Turn>): seq<Agent> {
    if trace == [] then [] else TakenAll(trace[..|trace| - 1]) + Taken(trace[|trace| - 1])
  }

  lemma OrderTurn(t: Turn)
    requires Inv(t.before) && Next(t.before, t.a, t.after)
    ensures t.before.chan + Sleeps(t) == Taken(t) + t.after.chan
  {
    var s, s' := t.before, t.after;
    WakeTarget(s, t.a, s');
    ChanMoves(s, t.a, s');
    forall b ensures Leaves(t, b) <==> At(s, t.a) == VTakeHead && s.chan != [] && b == s.chan[0] { WhoLeaves(t, b); }
    hide Inv, Next;
    if At(s, t.a) == VTakeHead && s.chan != [] {
      assert Leaves(t, s.chan[0]);
      assert s.chan == [s.chan[0]] + s.chan[1..];
    }
  }

  lemma WhoLeaves(t: Turn, b: Agent)
    requires Inv(t.before) && Next(t.before, t.a, t.after)
    ensures Leaves(t, b) <==> At(t.before, t.a) == VTakeHead && t.before.chan != [] && b == t.before.chan[0]
  {
    var s, s' := t.before, t.after;
    WakeTarget(s, t.a, s');
    ChanMoves(s, t.a, s');
    hide Inv, Next;
    if Bystander(s, t.a, b) { Others(s, t.a, s', b); }
  }

  /** Sleepers are woken in the order in which they went to sleep, each once: those taken off the
      channel so far, followed by those on it, are all that went to sleep. */
  lemma {:induction false} FirstInFirstOut(s0: State, trace: seq<Turn>, s: State)
    requires Run(s0, trace, s)
    ensures Slept(trace) == TakenAll(trace) + s.chan
    decreases |trace|
  {
    hide Inv, Next, Sleeps, Taken;
    if trace == [] {
    } else {
      var n := |trace| - 1;
      var t := trace[n];
      FirstInFirstOut(s0, trace[..n], t.before);
      RunInv(s0, trace[..n], t.before);
      OrderTurn(t);
      var x := TakenAll(trace[..n]);
      assert x + t.before.chan + Sleeps(t) == x + (t.before.chan + Sleeps(t)) == x + (Taken(t) + s.chan) == x + Taken(t) + s.chan;
    }
  }

  /** Any number of agents can be inside P at once. */
  lemma {:induction false} AnyNumber(s0: State, k: nat) returns (trace: seq<Turn>, s: State)
    requires Init(s0)
    ensures Run(s0, trace, s) && |trace| == k && forall a :: (0 <= a < k ==> At(s, a) == PEnter) && (a >= k ==> At(s, a) == Idle)
  {
    if k == 0 {
      trace, s := [], s0;
    } else {
      var before, p := AnyNumber(s0, k - 1);
      assert At(p, k - 1) == Idle;
      s := Move(p, k - 1, PEnter);
      trace := before + [Turn(p, k - 1, s)];
      assert trace[..k - 1] == before;
      CanCall(p, k - 1);
      forall a ensures (0 <= a < k ==> At(s, a) == PEnter) && (a >= k ==> At(s, a) == Idle) {
        if a != k - 1 { assert At(s, a) == At(p, a); }
      }
    }
  }

  /** An agent outside can begin either call. */
  lemma CanCall(s: State, a: Agent)
    requires At(s, a) == Idle
    ensures Next(s, a, Move(s, a, PEnter)) && Next(s, a, Move(s, a, VEnter))
  {
  }
}
