/** Semaphores over spinlocks and a wait channel (kern/thread/synch.c P and V, with
    wchan_sleep and wchan_wakeone of kern/thread/thread.c), as a step system: any number of
    agents, threads and interrupt handlers, each executing P or V statement by statement. */
module Semaphore {

  const INT_MAX := 0x7fffffff

  type Agent = int

  datatype Option<T> = None | Some(value: T)

  /** Where an agent is; the statement named is the next one it executes. */
  datatype PC =
    | Idle
    | PEnter                  // acquire sem_lock, first time round
    | PTest(woken: bool)      // test sem_count; `woken` when back from sleeping
    | PLockChan               // saw zero: lock the channel
    | PUnlockSem              // release sem_lock, still holding the channel
    | PSleep                  // join the channel's list and unlock it
    | PAsleep                 // on the channel's list
    | PTaken                  // off the list, not yet runnable
    | PWoken                  // runnable: acquire sem_lock again
    | PTake(woken: bool)      // saw a positive count: decrement it
    | PLeave                  // release sem_lock
    | VEnter                  // acquire sem_lock
    | VInc                    // increment sem_count
    | VLockChan               // wchan_wakeone: lock the channel
    | VTakeHead               // take the first sleeper
    | VUnlockChan(got: Option<Agent>)
    | VRunnable(target: Agent) // make the sleeper runnable
    | VLeave                  // release sem_lock

  datatype State = State(
    count: nat, semLock: Option<Agent>, chanLock: Option<Agent>, chan: seq<Agent>,
    pc: map<Agent, PC>,
    initial: nat, ps: nat, vs: nat)   // decrements and increments so far

  function At(s: State, a: Agent): PC {
    if a in s.pc then s.pc[a] else Idle
  }

  function Move(s: State, a: Agent, pc: PC): State {
    s.(pc := s.pc[a := pc])
  }

  /** One statement of agent a.  The only choice is which operation an idle agent starts. */
  ghost predicate Next(s: State, a: Agent, s': State) {
    match At(s, a)
    case Idle => s' == Move(s, a, PEnter) || s' == Move(s, a, VEnter)
    case PEnter => s.semLock == None && s' == Move(s, a, PTest(false)).(semLock := Some(a))
    case PTest(w) => s' == Move(s, a, if s.count == 0 then PLockChan else PTake(w))
    case PLockChan => s.chanLock == None && s' == Move(s, a, PUnlockSem).(chanLock := Some(a))
    case PUnlockSem => s' == Move(s, a, PSleep).(semLock := None)
    case PSleep => s' == Move(s, a, PAsleep).(chan := s.chan + [a], chanLock := None)
    case PAsleep => false
    case PTaken => false
    case PWoken => s.semLock == None && s' == Move(s, a, PTest(true)).(semLock := Some(a))
    case PTake(_) => s.count > 0 && s' == Move(s, a, PLeave).(count := s.count - 1, ps := s.ps + 1)
    case PLeave => s' == Move(s, a, Idle).(semLock := None)
    case VEnter => s.semLock == None && s' == Move(s, a, VInc).(semLock := Some(a))
    case VInc => s.count < INT_MAX && s' == Move(s, a, VLockChan).(count := s.count + 1, vs := s.vs + 1)
    case VLockChan => s.chanLock == None && s' == Move(s, a, VTakeHead).(chanLock := Some(a))
    case VTakeHead =>
      if s.chan == [] then s' == Move(s, a, VUnlockChan(None))
      else s' == Move(Move(s, s.chan[0], PTaken), a, VUnlockChan(Some(s.chan[0]))).(chan := s.chan[1..])
    case VUnlockChan(got) =>
      s' == Move(s, a, if got == None then VLeave else VRunnable(got.value)).(chanLock := None)
    case VRunnable(t) => s' == Move(Move(s, t, PWoken), a, VLeave)
    case VLeave => s' == Move(s, a, Idle).(semLock := None)
  }

  ghost predicate Init(s: State) {
    s.count == s.initial && s.semLock == None && s.chanLock == None && s.chan == [] && s.pc == map[] && s.ps == 0 && s.vs == 0
  }

  ghost predicate Reaches(s: State, n: nat)
    decreases n
  {
    if n == 0 then Init(s) else exists p, a :: Reaches(p, n - 1) && Next(p, a, s)
  }

  // -------------------------------------------------------------- invariants

  predicate HoldsSem(pc: PC) {
    match pc
    case PTest(_) => true
    case PLockChan => true
    case PUnlockSem => true
    case PTake(_) => true
    case PLeave => true
    case VInc => true
    case VLockChan => true
    case VTakeHead => true
    case VUnlockChan(_) => true
    case VRunnable(_) => true
    case VLeave => true
    case _ => false
  }

  predicate HoldsChan(pc: PC) {
    pc == PUnlockSem || pc == PSleep || pc == VTakeHead || pc.VUnlockChan?
  }

  /** The locks say who is inside. */
  ghost predicate Locks(s: State) {
    forall a :: LockOk(s, a)
  }

  /** The channel's list holds exactly the sleepers, once each. */
  ghost predicate Sleepers(s: State) {
    && (forall i, j :: 0 <= i < j < |s.chan| ==> s.chan[i] != s.chan[j])
    && (forall a :: a in s.chan <==> At(s, a) == PAsleep)
  }

  /** The sleeper that agent a's wakeup has in hand. */
  function InHand(pc: PC): Option<Agent> {
    match pc
    case VUnlockChan(got) => got
    case VRunnable(t) => Some(t)
    case _ => None
  }

  ghost predicate Transit(s: State) {
    && (forall a, t {:trigger At(s, a), At(s, t)} :: InHand(At(s, a)) == Some(t) ==> At(s, t) == PTaken)
    && (forall t :: At(s, t) == PTaken ==> s.semLock.Some? && InHand(At(s, s.semLock.value)) == Some(t))
  }

  ghost predicate Counts(s: State) {
    && s.count + s.ps == s.initial + s.vs
    && (forall a :: At(s, a) == PLockChan || At(s, a) == PUnlockSem ==> s.count == 0)
    && (forall a :: At(s, a).PTake? ==> s.count > 0)
  }

  /** A sleeper that was woken and has not finished looking at the count again. */
  predicate IsWoken(pc: PC) {
    pc == PTaken || pc == PWoken || pc == PTest(true) || pc == PTake(true)
  }

  ghost function Woken(s: State): set<Agent> {
    set a | a in s.pc && IsWoken(s.pc[a])
  }

  /** One while some V has incremented the count and not yet taken a sleeper. */
  ghost function Pending(s: State): nat {
    if s.semLock.Some? && (At(s, s.semLock.value) == VLockChan || At(s, s.semLock.value) == VTakeHead) then 1 else 0
  }

  /** Somebody sleeps, or is bound to: it holds the channel and will join the list. */
  ghost predicate Sleeping(s: State) {
    s.chan != [] || (s.chanLock.Some? && At(s, s.chanLock.value) == PSleep)
  }

  ghost predicate NoLostWakeup(s: State) {
    Sleeping(s) ==> s.count <= |Woken(s)| + Pending(s)
  }

  ghost predicate Inv(s: State) {
    Locks(s) && Sleepers(s) && Transit(s) && Counts(s) && NoLostWakeup(s)
  }

  // ------------------------------------------------------------ preservation

  /** A step moves the agent that takes it and, for a wakeup, the sleeper it wakes. */
  lemma Others(s: State, a: Agent, s': State, b: Agent)
    requires Next(s, a, s') && b != a
    requires !(At(s, a) == VTakeHead && s.chan != [] && s.chan[0] == b)
    requires At(s, a) != VRunnable(b)
    ensures At(s', b) == At(s, b)
  {
  }

  /** What the woken sleeper was and is. */
  lemma WakeTarget(s: State, a: Agent, s': State)
    requires Inv(s) && Next(s, a, s')
    ensures At(s, a) == VTakeHead && s.chan != [] ==> s.chan[0] != a && At(s, s.chan[0]) == PAsleep && At(s', s.chan[0]) == PTaken
    ensures At(s, a).VRunnable? ==> At(s, a).target != a && At(s, At(s, a).target) == PTaken && At(s', At(s, a).target) == PWoken
  {
    if At(s, a) == VTakeHead && s.chan != [] { assert s.chan[0] in s.chan; }
    if At(s, a).VRunnable? { assert InHand(At(s, a)) == Some(At(s, a).target); }
  }

  predicate LockOk(s: State, b: Agent) {
    (HoldsSem(At(s, b)) <==> s.semLock == Some(b)) && (HoldsChan(At(s, b)) <==> s.chanLock == Some(b))
  }

  predicate LockMove(l: Option<Agent>, l': Option<Agent>, a: Agent) {
    l' == l || (l == None && l' == Some(a)) || (l == Some(a) && l' == None)
  }

  /** A step changes a lock only by taking it free or by giving up its own. */
  lemma LockMoves(s: State, a: Agent, s': State)
    requires Next(s, a, s') && LockOk(s, a)
    ensures LockOk(s', a)
    ensures LockMove(s.semLock, s'.semLock, a) && LockMove(s.chanLock, s'.chanLock, a)
  {
  }

  lemma LocksKept(s: State, a: Agent, s': State)
    requires Inv(s) && Next(s, a, s')
    ensures Locks(s')
  {
    hide Counts, NoLostWakeup, Transit, Sleepers;
    WakeTarget(s, a, s');
    assert LockOk(s, a);
    LockMoves(s, a, s');
    forall b ensures LockOk(s', b) {
      LockKept(s, a, s', b);
    }
  }

  lemma LockKept(s: State, a: Agent, s': State, b: Agent)
    requires Inv(s) && Next(s, a, s')
    ensures LockOk(s', b)
  {
    WakeTarget(s, a, s');
    assert LockOk(s, a) && LockOk(s, b);
    hide Inv;
    LockMoves(s, a, s');
    if b == a {
      hide Next;
    } else if (At(s, a) == VTakeHead && s.chan != [] && s.chan[0] == b) || At(s, a) == VRunnable(b) {
      hide Next;
    } else {
      Others(s, a, s', b);
      hide Next;
    }
  }

  lemma SleepersKept(s: State, a: Agent, s': State)
    requires Inv(s) && Next(s, a, s')
    ensures Sleepers(s')
  {
    WakeTarget(s, a, s');
    assert Sleepers(s);
    hide Inv, Counts, NoLostWakeup, Locks, Transit;
    forall b ensures b in s'.chan <==> At(s', b) == PAsleep {
      SleeperKept(s, a, s', b);
    }
  }

  /** Agents the step does not move. */
  predicate Bystander(s: State, a: Agent, b: Agent) {
    b != a && !(At(s, a) == VTakeHead && s.chan != [] && s.chan[0] == b) && At(s, a) != VRunnable(b)
  }

  /** What a step does to the list and to the sleepers. */
  lemma ChanMoves(s: State, a: Agent, s': State)
    requires Next(s, a, s')
    ensures At(s, a) == PSleep ==> s'.chan == s.chan + [a]
    ensures At(s, a) == VTakeHead && s.chan != [] ==> s'.chan == s.chan[1..]
    ensures At(s, a) != PSleep && (At(s, a) != VTakeHead || s.chan == []) ==> s'.chan == s.chan
    ensures At(s', a) == PAsleep <==> At(s, a) == PSleep
    ensures At(s, a) != PAsleep
  {
  }

  lemma TailMembers(c: seq<Agent>, b: Agent)
    requires c != [] && forall i, j :: 0 <= i < j < |c| ==> c[i] != c[j]
    ensures b in c[1..] <==> b in c && b != c[0]
  {
    assert c == [c[0]] + c[1..];
  }

  lemma SleeperKept(s: State, a: Agent, s': State, b: Agent)
    requires Inv(s) && Next(s, a, s')
    ensures b in s'.chan <==> At(s', b) == PAsleep
  {
    hide Locks, Transit, Counts, NoLostWakeup;
    WakeTarget(s, a, s');
    ChanMoves(s, a, s');
    if At(s, a) == VTakeHead && s.chan != [] { TailMembers(s.chan, b); }
    assert b in s.chan <==> At(s, b) == PAsleep;
    hide Inv, Next, Sleepers;
    if Bystander(s, a, b) { Others(s, a, s', b); }
  }

  lemma TransitKept(s: State, a: Agent, s': State)
    requires Inv(s) && Next(s, a, s') && Locks(s')
    ensures Transit(s')
  {
    hide Counts, NoLostWakeup;
    WakeTarget(s, a, s');
    forall b, t | InHand(At(s', b)) == Some(t) ensures At(s', t) == PTaken {
      InHandKept(s, a, s', b, t);
    }
    forall t | At(s', t) == PTaken ensures s'.semLock.Some? && InHand(At(s', s'.semLock.value)) == Some(t) {
      TakenKept(s, a, s', t);
    }
  }

  lemma InHandKept(s: State, a: Agent, s': State, b: Agent, t: Agent)
    requires Inv(s) && Next(s, a, s') && Locks(s') && InHand(At(s', b)) == Some(t)
    ensures At(s', t) == PTaken
  {
    hide Counts, NoLostWakeup, Sleepers;
    WakeTarget(s, a, s');
    assert LockOk(s', b) && LockOk(s, a) && LockOk(s, b);
    if b == a {
      assert At(s, a) == VTakeHead || InHand(At(s, a)) == Some(t);
    } else {
      Others(s, a, s', b);
      assert At(s, t) == PTaken;
    }
  }

  lemma TakenKept(s: State, a: Agent, s': State, t: Agent)
    requires Inv(s) && Next(s, a, s') && At(s', t) == PTaken
    ensures s'.semLock.Some? && InHand(At(s', s'.semLock.value)) == Some(t)
  {
    hide Counts, NoLostWakeup, Sleepers;
    WakeTarget(s, a, s');
    assert LockOk(s, a);
    if At(s, t) == PTaken {
      var v := s.semLock.value;
      assert InHand(At(s, v)) == Some(t);
      assert LockOk(s, v);
      if v != a { Others(s, a, s', v); }
    }
  }

  lemma CountsKept(s: State, a: Agent, s': State)
    requires Inv(s) && Next(s, a, s')
    ensures Counts(s')
  {
    hide NoLostWakeup, Sleepers, Transit;
    forall b ensures (At(s', b) == PLockChan || At(s', b) == PUnlockSem ==> s'.count == 0) && (At(s', b).PTake? ==> s'.count > 0) {
      CountKept(s, a, s', b);
    }
  }

  lemma CountKept(s: State, a: Agent, s': State, b: Agent)
    requires Inv(s) && Next(s, a, s')
    ensures (At(s', b) == PLockChan || At(s', b) == PUnlockSem ==> s'.count == 0) && (At(s', b).PTake? ==> s'.count > 0)
  {
    WakeTarget(s, a, s');
    assert LockOk(s, a) && LockOk(s, b);
    assert (At(s, b) == PLockChan || At(s, b) == PUnlockSem ==> s.count == 0) && (At(s, b).PTake? ==> s.count > 0);
    assert (At(s, a) == PLockChan ==> s.count == 0);
    hide Inv;
    if b != a && !(At(s, a) == VTakeHead && s.chan != [] && s.chan[0] == b) && At(s, a) != VRunnable(b) {
      Others(s, a, s', b);
    }
  }

  /** How many woken sleepers a step adds or settles. */
  function WokenChange(s: State, a: Agent): int {
    match At(s, a)
    case VTakeHead => if s.chan != [] then 1 else 0
    case PTest(w) => if w && s.count == 0 then -1 else 0
    case PTake(w) => if w then -1 else 0
    case _ => 0
  }

  lemma WokenMember(s: State, b: Agent)
    ensures b in Woken(s) <==> IsWoken(At(s, b))
  {
  }

  /** The agent whose being woken a step changes. */
  function WokenAgent(s: State, a: Agent): Agent {
    if At(s, a) == VTakeHead && s.chan != [] then s.chan[0] else a
  }

  lemma WokenOne(s: State, a: Agent, s': State, b: Agent)
    requires Inv(s) && Next(s, a, s')
    ensures b != WokenAgent(s, a) || WokenChange(s, a) == 0 ==> (IsWoken(At(s', b)) <==> IsWoken(At(s, b)))
    ensures b == WokenAgent(s, a) && WokenChange(s, a) == 1 ==> IsWoken(At(s', b)) && !IsWoken(At(s, b))
    ensures b == WokenAgent(s, a) && WokenChange(s, a) == -1 ==> !IsWoken(At(s', b)) && IsWoken(At(s, b))
  {
    WakeTarget(s, a, s');
    WokenMoves(s, a, s');
    hide Inv, Next;
    if Bystander(s, a, b) { Others(s, a, s', b); }
  }

  /** The agent itself stops being a woken one when it decrements, or finds zero again. */
  lemma WokenMoves(s: State, a: Agent, s': State)
    requires Next(s, a, s')
    ensures WokenChange(s, a) == -1 ==> IsWoken(At(s, a)) && !IsWoken(At(s', a))
    ensures WokenChange(s, a) != -1 ==> (IsWoken(At(s', a)) <==> IsWoken(At(s, a)))
  {
  }

  lemma WokenKept(s: State, a: Agent, s': State)
    requires Inv(s) && Next(s, a, s')
    ensures |Woken(s')| == |Woken(s)| + WokenChange(s, a)
  {
    hide Inv, Woken, Next, At, IsWoken;
    var d, t := WokenChange(s, a), WokenAgent(s, a);
    forall b
      ensures b != t || d == 0 ==> (b in Woken(s') <==> b in Woken(s))
      ensures b == t && d == 1 ==> b in Woken(s') && b !in Woken(s)
      ensures b == t && d == -1 ==> b !in Woken(s') && b in Woken(s)
    {
      WokenMember(s, b);
      WokenMember(s', b);
      WokenOne(s, a, s', b);
    }
    ChangeRange(s, a);
    if d == 1 {
      assert Woken(s') == Woken(s) + {t};
    } else if d == -1 {
      assert Woken(s') == Woken(s) - {t};
    } else {
      assert Woken(s') == Woken(s);
    }
  }

  lemma ChangeRange(s: State, a: Agent)
    ensures -1 <= WokenChange(s, a) <= 1
  {
  }

  /** Where a V stands with its wakeup. */
  lemma VMoves(s: State, a: Agent, s': State)
    requires Next(s, a, s')
    ensures At(s', a) == VLockChan <==> At(s, a) == VInc
    ensures At(s', a) == VTakeHead <==> At(s, a) == VLockChan
  {
  }

  /** Whether a wakeup is still to come, before and after a step of the lock's holder. */
  lemma PendingKept(s: State, a: Agent, s': State)
    requires Inv(s) && Next(s, a, s')
    ensures Pending(s') == Pending(s) + (if At(s, a) == VInc then 1 else if At(s, a) == VTakeHead then -1 else 0)
  {
    WakeTarget(s, a, s');
    VMoves(s, a, s');
    assert LockOk(s, a);
    assert s.semLock.Some? ==> LockOk(s, s.semLock.value);
    LockMoves(s, a, s');
    hide Inv, Next;
    if s.semLock.Some? && s.semLock.value != a { Others(s, a, s', s.semLock.value); }
  }

  /** Somebody can newly be about to sleep only with the count at zero. */
  lemma SleepingKept(s: State, a: Agent, s': State)
    requires Inv(s) && Next(s, a, s') && Sleeping(s')
    ensures Sleeping(s) || s'.count == 0
    ensures At(s, a) == VTakeHead ==> s.chan != []
  {
    WakeTarget(s, a, s');
    assert LockOk(s, a);
    assert At(s, a) == PUnlockSem ==> s.count == 0;
    if s.chanLock.Some? {
      var v := s.chanLock.value;
      assert LockOk(s, v);
      hide Inv;
      if v != a && At(s, a) != VRunnable(v) && !(At(s, a) == VTakeHead && s.chan != [] && s.chan[0] == v) { Others(s, a, s', v); }
    }
  }

  lemma WakeupKept(s: State, a: Agent, s': State)
    requires Inv(s) && Next(s, a, s')
    ensures NoLostWakeup(s')
  {
    if Sleeping(s') {
      WokenKept(s, a, s');
      PendingKept(s, a, s');
      SleepingKept(s, a, s');
      CountMoves(s, a, s');
      assert NoLostWakeup(s);
      hide Inv, Next, Pending, Sleeping, Woken;
    }
  }

  lemma CountMoves(s: State, a: Agent, s': State)
    requires Next(s, a, s')
    ensures s'.count == s.count + (if At(s, a) == VInc then 1 else if At(s, a).PTake? then -1 else 0)
    ensures At(s, a).PTest? && s.count == 0 ==> s'.count == 0
  {
  }

  lemma Kept(s: State, a: Agent, s': State)
    requires Inv(s) && Next(s, a, s')
    ensures Inv(s')
  {
    LocksKept(s, a, s');
    SleepersKept(s, a, s');
    TransitKept(s, a, s');
    CountsKept(s, a, s');
    WakeupKept(s, a, s');
    hide Locks, Sleepers, Transit, Counts, NoLostWakeup, Next;
  }

  // ---------------------------------------------------------------- theorems

  /** In every interleaving of any number of P and V calls: the locks exclude, a sleeper never
      misses a wakeup, and completed Ps never exceed the initial count plus the Vs. */
  lemma {:induction false} EveryRun(s: State, n: nat)
    requires Reaches(s, n)
    ensures Inv(s)
    ensures s.chan != [] ==> s.count <= |Woken(s)| + Pending(s)
    ensures s.ps <= s.initial + s.vs && s.count == s.initial + s.vs - s.ps
    decreases n
  {
    hide Inv, Next, Woken, Pending;
    if n > 0 {
      var p, a :| Reaches(p, n - 1) && Next(p, a, s);
      EveryRun(p, n - 1);
      Kept(p, a, s);
    } else {
      InitInv(s);
    }
    InvSays(s);
  }

  lemma InitInv(s: State)
    requires Init(s)
    ensures Inv(s)
  {
  }

  lemma InvSays(s: State)
    requires Inv(s)
    ensures s.chan != [] ==> s.count <= |Woken(s)| + Pending(s)
    ensures s.ps <= s.initial + s.vs && s.count == s.initial + s.vs - s.ps
  {
    hide Woken, Pending, Locks, Sleepers, Transit;
  }

  /** When no wakeup is under way, threads sleep only if there is nothing to take. */
  lemma QuietSleepers(s: State, n: nat)
    requires Reaches(s, n) && s.chan != []
    requires forall a :: !IsWoken(At(s, a))
    requires s.semLock == None
    ensures s.count == 0
  {
    EveryRun(s, n);
    forall a ensures a !in Woken(s) { WokenMember(s, a); }
    assert Woken(s) == {};
  }

  /** An agent that can execute its next statement now. */
  ghost predicate CanStep(s: State, a: Agent) {
    exists s' :: Next(s, a, s')
  }

  predicate AtRest(pc: PC) {
    pc == Idle || pc == PAsleep
  }

  /** No deadlock: unless every agent is idle or asleep, some agent that is neither can go on. */
  lemma Progress(s: State, n: nat, a: Agent) returns (b: Agent)
    requires Reaches(s, n) && !AtRest(At(s, a)) && s.count < INT_MAX
    ensures CanStep(s, b) && !AtRest(At(s, b))
  {
    EveryRun(s, n);
    assert LockOk(s, a);
    if s.semLock.Some? {
      b := s.semLock.value;
      assert LockOk(s, b);
      if (At(s, b) == PLockChan || At(s, b) == VLockChan) && s.chanLock.Some? {
        b := s.chanLock.value;
        assert LockOk(s, b);
      }
    } else {
      b := a;
    }
    CanGo(s, b);
  }

  lemma CanGo(s: State, b: Agent)
    requires Inv(s) && LockOk(s, b) && !AtRest(At(s, b)) && At(s, b) != PTaken && s.count < INT_MAX
    requires HoldsSem(At(s, b)) || HoldsChan(At(s, b)) || s.semLock == None
    requires (At(s, b) == PLockChan || At(s, b) == VLockChan) ==> s.chanLock == None
    ensures CanStep(s, b)
  {
    var s' := match At(s, b)
      case PEnter => Move(s, b, PTest(false)).(semLock := Some(b))
      case PTest(w) => Move(s, b, if s.count == 0 then PLockChan else PTake(w))
      case PLockChan => Move(s, b, PUnlockSem).(chanLock := Some(b))
      case PUnlockSem => Move(s, b, PSleep).(semLock := None)
      case PSleep => Move(s, b, PAsleep).(chan := s.chan + [b], chanLock := None)
      case PWoken => Move(s, b, PTest(true)).(semLock := Some(b))
      case PTake(_) => Move(s, b, PLeave).(count := s.count - 1, ps := s.ps + 1)
      case PLeave => Move(s, b, Idle).(semLock := None)
      case VEnter => Move(s, b, VInc).(semLock := Some(b))
      case VInc => Move(s, b, VLockChan).(count := s.count + 1, vs := s.vs + 1)
      case VLockChan => Move(s, b, VTakeHead).(chanLock := Some(b))
      case VTakeHead =>
        if s.chan == [] then Move(s, b, VUnlockChan(None))
        else Move(Move(s, s.chan[0], PTaken), b, VUnlockChan(Some(s.chan[0]))).(chan := s.chan[1..])
      case VUnlockChan(got) => Move(s, b, if got == None then VLeave else VRunnable(got.value)).(chanLock := None)
      case VRunnable(t) => Move(Move(s, t, PWoken), b, VLeave)
      case VLeave => Move(s, b, Idle).(semLock := None)
      case _ => s;
    assert Next(s, b, s');
  }
}
