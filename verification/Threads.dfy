/** The thread system (kern/thread/thread.c): forking, context switches, wait channels,
    migration and exit, as a step system over any number of CPUs and threads.  A step is a
    lock-protected section or one round of a loop inside such a section. */
module Threads {
  import opened Sequences

  type Tid = int
  type Cid = int
  type Wid = int   // wait channels
  type Hid = int   // calls that hold threads on the way to a run queue

  datatype ThreadState = RUN | READY | SLEEP | ZOMBIE

  datatype Thread = Thread(state: ThreadState, cpu: Cid)

  /** Where a CPU is in thread_switch.  It holds its run queue lock while Storing, Parked and, across
      the context switch, while Arrived. */
  datatype Phase =
    | Running      // outside thread_switch
    | Storing(st: ThreadState)  // the old thread is on its list, its new state not stored yet
    | Parked       // the old thread is put away; looking for the next one
    | Idling       // in cpu_idle, lock released
    | Arrived      // on the next thread's stack, lock still held
    | Reaping      // lock released, destroying zombies

  datatype Cpu = Cpu(
    cur: Tid, idle: bool, runq: seq<Tid>, zombies: seq<Tid>,
    phase: Phase, migrating: bool, victims: seq<Tid>)

  datatype State = State(
    threads: map<Tid, Thread>, cpus: map<Cid, Cpu>,
    chans: map<Wid, seq<Tid>>, hands: map<Hid, seq<Tid>>)

  predicate LockHeld(c: Cpu) {
    c.phase.Storing? || c.phase == Parked || c.phase == Arrived
  }

  /** The CPU runs code other than thread_switch, migration included when asked for. */
  predicate Free(c: Cpu) {
    c.phase == Running && !c.migrating
  }

  function Chan(s: State, w: Wid): seq<Tid> {
    if w in s.chans then s.chans[w] else []
  }

  function Hand(s: State, h: Hid): seq<Tid> {
    if h in s.hands then s.hands[h] else []
  }

  datatype How = Yield | Sleep(w: Wid) | Exit

  datatype Step =
    | NewCpu(c: Cid, t: Tid)             // cpu_create
    | Fork(c: Cid, h: Hid, t: Tid)       // thread_fork up to thread_make_runnable
    | MakeRunnable(h: Hid)               // thread_make_runnable of the first thread in hand
    | Park(c: Cid, how: How)             // thread_switch: put the current thread on a list
    | Store(c: Cid)                      // store its new state; the CPU is now idle
    | Pick(c: Cid)                       // take the next thread, or go idle
    | Repoll(c: Cid)                     // back from cpu_idle: lock and look again
    | Release(c: Cid)                    // tail of thread_switch, start of thread_startup
    | Reap(c: Cid)                       // one round of exorcise
    | WakeTake(w: Wid, h: Hid)           // wchan_wakeone, one round of wchan_wakeall
    | MigBegin(c: Cid)                   // thread_consider_migration decides to send
    | MigTake(c: Cid)                    // take a victim from the tail of the own queue
    | MigPlace(c: Cid, d: Cid)           // give the first victim to another CPU
    | MigReturn(c: Cid)                  // put a leftover victim back
    | MigEnd(c: Cid)

  ghost predicate Enabled(s: State, step: Step) {
    match step
    case NewCpu(c, t) => c !in s.cpus && t !in s.threads
    case Fork(c, h, t) => c in s.cpus && Free(s.cpus[c]) && s.cpus[c].cur in s.threads && t !in s.threads
    case MakeRunnable(h) =>
      Hand(s, h) != [] && Hand(s, h)[0] in s.threads && s.threads[Hand(s, h)[0]].cpu in s.cpus &&
      !LockHeld(s.cpus[s.threads[Hand(s, h)[0]].cpu])
    case Park(c, how) => c in s.cpus && Free(s.cpus[c]) && s.cpus[c].cur in s.threads && (how == Yield ==> s.cpus[c].runq != [])
    case Store(c) => c in s.cpus && s.cpus[c].phase.Storing? && s.cpus[c].cur in s.threads
    case Pick(c) => c in s.cpus && s.cpus[c].phase == Parked
    case Repoll(c) => c in s.cpus && s.cpus[c].phase == Idling && !s.cpus[c].migrating
    case Release(c) => c in s.cpus && s.cpus[c].phase == Arrived && s.cpus[c].cur in s.threads
    case Reap(c) => c in s.cpus && s.cpus[c].phase == Reaping
    case WakeTake(w, h) => Chan(s, w) != []
    case MigBegin(c) => c in s.cpus && (s.cpus[c].phase == Running || s.cpus[c].phase == Idling) && !s.cpus[c].migrating
    case MigTake(c) => c in s.cpus && s.cpus[c].migrating && s.cpus[c].runq != []
    case MigPlace(c, d) =>
      c in s.cpus && d in s.cpus && d != c && s.cpus[c].migrating && s.cpus[c].victims != [] &&
      s.cpus[c].victims[0] in s.threads && !LockHeld(s.cpus[d])
    case MigReturn(c) => c in s.cpus && s.cpus[c].migrating && s.cpus[c].victims != []
    case MigEnd(c) => c in s.cpus && s.cpus[c].migrating && s.cpus[c].victims == []
  }

  function SetCpu(s: State, c: Cid, cpu: Cpu): State {
    s.(cpus := s.cpus[c := cpu])
  }

  function SetState(s: State, t: Tid, st: ThreadState): State
    requires t in s.threads
  {
    s.(threads := s.threads[t := s.threads[t].(state := st)])
  }

  ghost function Apply(s: State, step: Step): State
    requires Enabled(s, step)
  {
    match step
    case NewCpu(c, t) =>
      SetCpu(s, c, Cpu(t, false, [], [], Running, false, [])).(threads := s.threads[t := Thread(READY, c)])
    case Fork(c, h, t) =>
      s.(threads := s.threads[t := Thread(READY, s.threads[s.cpus[c].cur].cpu)], hands := s.hands[h := Hand(s, h) + [t]])
    case MakeRunnable(h) =>
      var t := Hand(s, h)[0];
      var c := s.threads[t].cpu;
      SetCpu(s, c, s.cpus[c].(runq := s.cpus[c].runq + [t])).(hands := s.hands[h := Hand(s, h)[1..]])
    case Park(c, how) =>
      var cpu := s.cpus[c];
      var t := cpu.cur;
      (match how
       case Yield => SetCpu(s, c, cpu.(runq := cpu.runq + [t], phase := Storing(READY)))
       case Sleep(w) => SetCpu(s, c, cpu.(phase := Storing(SLEEP))).(chans := s.chans[w := Chan(s, w) + [t]])
       case Exit => SetCpu(s, c, cpu.(zombies := cpu.zombies + [t], phase := Storing(ZOMBIE))))
    case Store(c) =>
      SetState(SetCpu(s, c, s.cpus[c].(idle := true, phase := Parked)), s.cpus[c].cur, s.cpus[c].phase.st)
    case Pick(c) =>
      var cpu := s.cpus[c];
      if cpu.runq == [] then SetCpu(s, c, cpu.(phase := Idling))
      else SetCpu(s, c, cpu.(cur := cpu.runq[0], runq := cpu.runq[1..], idle := false, phase := Arrived))
    case Repoll(c) => SetCpu(s, c, s.cpus[c].(phase := Parked))
    case Release(c) => SetState(SetCpu(s, c, s.cpus[c].(phase := Reaping)), s.cpus[c].cur, RUN)
    case Reap(c) =>
      var cpu := s.cpus[c];
      if cpu.zombies == [] then SetCpu(s, c, cpu.(phase := Running))
      else SetCpu(s, c, cpu.(zombies := cpu.zombies[1..])).(threads := s.threads - {cpu.zombies[0]})
    case WakeTake(w, h) =>
      s.(chans := s.chans[w := Chan(s, w)[1..]], hands := s.hands[h := Hand(s, h) + [Chan(s, w)[0]]])
    case MigBegin(c) => SetCpu(s, c, s.cpus[c].(migrating := true))
    case MigTake(c) =>
      var cpu := s.cpus[c];
      var n := |cpu.runq| - 1;
      SetCpu(s, c, cpu.(runq := cpu.runq[..n], victims := [cpu.runq[n]] + cpu.victims))
    case MigPlace(c, d) =>
      var cpu := s.cpus[c];
      var t := cpu.victims[0];
      if t == cpu.cur then SetCpu(s, c, cpu.(victims := cpu.victims[1..] + [t]))
      else
        SetCpu(SetCpu(s, c, cpu.(victims := cpu.victims[1..])), d, s.cpus[d].(runq := s.cpus[d].runq + [t]))
          .(threads := s.threads[t := s.threads[t].(cpu := d)])
    case MigReturn(c) =>
      var cpu := s.cpus[c];
      SetCpu(s, c, cpu.(victims := cpu.victims[1..], runq := cpu.runq + [cpu.victims[0]]))
    case MigEnd(c) => SetCpu(s, c, s.cpus[c].(migrating := false))
  }

  ghost predicate Reaches(s: State, n: nat)
    decreases n
  {
    if n == 0 then s == State(map[], map[], map[], map[])
    else exists p, step :: Reaches(p, n - 1) && Enabled(p, step) && s == Apply(p, step)
  }

  // ------------------------------------------------------------------ places

  datatype Place = Runq(c: Cid) | OnChan(w: Wid) | Zombies(c: Cid) | InHand(h: Hid) | Victims(c: Cid) | Current(c: Cid)

  /** The threads at a place; the current thread counts only until it is put on a list. */
  ghost function ListAt(s: State, p: Place): seq<Tid> {
    match p
    case Runq(c) => if c in s.cpus then s.cpus[c].runq else []
    case OnChan(w) => Chan(s, w)
    case Zombies(c) => if c in s.cpus then s.cpus[c].zombies else []
    case InHand(h) => Hand(s, h)
    case Victims(c) => if c in s.cpus then s.cpus[c].victims else []
    case Current(c) => if c in s.cpus && !s.cpus[c].idle && !s.cpus[c].phase.Storing? then [s.cpus[c].cur] else []
  }

  /** `loc` says where every undestroyed thread is, and it is nowhere else. */
  ghost predicate Placed(s: State, loc: map<Tid, Place>) {
    && (forall t :: t in loc <==> t in s.threads)
    && (forall p :: Distinct(ListAt(s, p)))
    && (forall p, t :: t in ListAt(s, p) <==> t in loc && loc[t] == p)
  }

  // -------------------------------------------------------------- invariants

  /** A thread on a CPU's lists, or running on it, belongs to it. */
  ghost predicate Owned(s: State, loc: map<Tid, Place>, t: Tid)
    requires t in loc && t in s.threads
  {
    && s.threads[t].cpu in s.cpus
    && (match loc[t]
        case Runq(c) => s.threads[t].cpu == c
        case Zombies(c) => s.threads[t].cpu == c
        case Victims(c) => s.threads[t].cpu == c
        case Current(c) => s.threads[t].cpu == c
        case _ => true)
  }

  /** The thread is on a list already, and its CPU has yet to store its new state. */
  predicate Unstored(s: State, t: Tid)
    requires t in s.threads
  {
    var c := s.threads[t].cpu;
    c in s.cpus && s.cpus[c].cur == t && s.cpus[c].phase.Storing?
  }

  /** The state a thread is in, or that is about to be stored. */
  function StateOf(s: State, t: Tid): ThreadState
    requires t in s.threads
  {
    if Unstored(s, t) then s.cpus[s.threads[t].cpu].phase.st else s.threads[t].state
  }

  /** The state agrees with the place. */
  ghost predicate StateOk(s: State, loc: map<Tid, Place>, t: Tid)
    requires t in loc && t in s.threads
  {
    && (StateOf(s, t) == ZOMBIE <==> loc[t].Zombies?)
    && (loc[t].OnChan? ==> StateOf(s, t) == SLEEP)
    && (StateOf(s, t) == RUN ==> loc[t].Current?)
    && (Unstored(s, t) ==> s.threads[t].state != ZOMBIE)
  }

  /** A CPU's current thread, on whose stack it runs even when idle, exists and is its own. */
  ghost predicate CpuOk(s: State, c: Cid)
    requires c in s.cpus
  {
    var cpu := s.cpus[c];
    && cpu.cur in s.threads && s.threads[cpu.cur].cpu == c
    && (cpu.idle <==> cpu.phase == Parked || cpu.phase == Idling)
    && (cpu.migrating ==> cpu.phase == Running || cpu.phase == Idling)
    && (cpu.victims != [] ==> cpu.migrating)
  }

  ghost predicate Inv(s: State, loc: map<Tid, Place>) {
    && Placed(s, loc)
    && (forall t :: t in loc && t in s.threads ==> Owned(s, loc, t) && StateOk(s, loc, t))
    && (forall c :: c in s.cpus ==> CpuOk(s, c))
  }

  // ----------------------------------------------------------- moving threads

  /** l' is l without t, and l' is l with t. */
  ghost predicate Lost(l: seq<Tid>, l': seq<Tid>, t: Tid) {
    Distinct(l') && forall u :: u in l' <==> u in l && u != t
  }

  ghost predicate Gained(l: seq<Tid>, l': seq<Tid>, t: Tid) {
    Distinct(l') && forall u :: u in l' <==> u in l || u == t
  }

  lemma DropHead(l: seq<Tid>)
    requires Distinct(l) && l != []
    ensures Lost(l, l[1..], l[0])
  {
    assert l == [l[0]] + l[1..];
  }

  lemma DropLast(l: seq<Tid>)
    requires Distinct(l) && l != []
    ensures Lost(l, l[..|l| - 1], l[|l| - 1])
  {
    assert l == l[..|l| - 1] + [l[|l| - 1]];
  }

  lemma AddEither(l: seq<Tid>, t: Tid)
    requires Distinct(l) && t !in l
    ensures Gained(l, l + [t], t) && Gained(l, [t] + l, t)
  {
  }

  /** One thread went from place p to place q and nothing else moved. */
  lemma Moved(s: State, s': State, loc: map<Tid, Place>, t: Tid, p: Place, q: Place)
    requires Placed(s, loc) && t in loc && loc[t] == p && p != q
    requires forall u :: u in s'.threads <==> u in s.threads
    requires forall r :: r != p && r != q ==> ListAt(s', r) == ListAt(s, r)
    requires Lost(ListAt(s, p), ListAt(s', p), t)
    requires Gained(ListAt(s, q), ListAt(s', q), t)
    ensures Placed(s', loc[t := q])
  {
    hide ListAt;
    var loc' := loc[t := q];
    forall r, u ensures u in ListAt(s', r) <==> u in loc' && loc'[u] == r {
      assert u in ListAt(s, r) <==> u in loc && loc[u] == r;
    }
    forall r ensures Distinct(ListAt(s', r)) {
      if r != p && r != q { assert Distinct(ListAt(s, r)); }
    }
  }

  /** Nothing moved. */
  lemma Stayed(s: State, s': State, loc: map<Tid, Place>)
    requires Placed(s, loc)
    requires forall u :: u in s'.threads <==> u in s.threads
    requires forall r :: ListAt(s', r) == ListAt(s, r)
    ensures Placed(s', loc)
  {
    hide ListAt;
    forall r, u ensures u in ListAt(s', r) <==> u in loc && loc[u] == r {
      assert u in ListAt(s, r) <==> u in loc && loc[u] == r;
    }
    forall r ensures Distinct(ListAt(s', r)) { assert Distinct(ListAt(s, r)); }
  }

  /** One list is rotated by one. */
  lemma Rotated(s: State, s': State, loc: map<Tid, Place>, p: Place)
    requires Placed(s, loc) && ListAt(s, p) != []
    requires forall u :: u in s'.threads <==> u in s.threads
    requires forall r :: r != p ==> ListAt(s', r) == ListAt(s, r)
    requires ListAt(s', p) == ListAt(s, p)[1..] + [ListAt(s, p)[0]]
    ensures Placed(s', loc)
  {
    hide ListAt;
    var l := ListAt(s, p);
    assert Distinct(l);
    DropHead(l);
    AddEither(l[1..], l[0]);
    forall r, u ensures u in ListAt(s', r) <==> u in loc && loc[u] == r {
      assert u in ListAt(s, r) <==> u in loc && loc[u] == r;
      if r == p { assert u in ListAt(s', r) <==> u in l; }
    }
    forall r ensures Distinct(ListAt(s', r)) {
      if r != p { assert Distinct(ListAt(s, r)); }
    }
  }

  /** A member of a place's list is there. */
  lemma IsAt(s: State, loc: map<Tid, Place>, p: Place, t: Tid)
    requires Placed(s, loc) && t in ListAt(s, p)
    ensures t in loc && loc[t] == p && t in s.threads
  {
    hide ListAt;
  }

  lemma NotAt(s: State, loc: map<Tid, Place>, p: Place, t: Tid)
    requires Placed(s, loc) && !(t in loc && loc[t] == p)
    ensures t !in ListAt(s, p) && Distinct(ListAt(s, p))
  {
    hide ListAt;
  }

  lemma Known(s: State, loc: map<Tid, Place>, t: Tid)
    requires Placed(s, loc) && t in s.threads
    ensures t in loc
  {
  }

  /** A new thread appeared at q. */
  lemma Appeared(s: State, s': State, loc: map<Tid, Place>, t: Tid, q: Place)
    requires Placed(s, loc) && t !in s.threads
    requires forall u :: u in s'.threads <==> u in s.threads || u == t
    requires forall r :: r != q ==> ListAt(s', r) == ListAt(s, r)
    requires ListAt(s', q) == ListAt(s, q) + [t]
    ensures Placed(s', loc[t := q]) && t !in loc
  {
    hide ListAt;
    NotAt(s, loc, q, t);
    AddEither(ListAt(s, q), t);
    var loc' := loc[t := q];
    forall r, u ensures u in ListAt(s', r) <==> u in loc' && loc'[u] == r {
      assert u in ListAt(s, r) <==> u in loc && loc[u] == r;
    }
    forall r ensures Distinct(ListAt(s', r)) {
      if r != q { assert Distinct(ListAt(s, r)); }
    }
  }

  /** The first thread at p is gone. */
  lemma Vanished(s: State, s': State, loc: map<Tid, Place>, t: Tid, p: Place)
    requires Placed(s, loc) && ListAt(s, p) != [] && t == ListAt(s, p)[0]
    requires forall u :: u in s'.threads <==> u in s.threads && u != t
    requires forall r :: r != p ==> ListAt(s', r) == ListAt(s, r)
    requires ListAt(s', p) == ListAt(s, p)[1..]
    ensures Placed(s', loc - {t})
  {
    hide ListAt;
    assert t in ListAt(s, p);
    IsAt(s, loc, p, t);
    assert Distinct(ListAt(s, p));
    DropHead(ListAt(s, p));
    var loc' := loc - {t};
    forall r, u ensures u in ListAt(s', r) <==> u in loc' && loc'[u] == r {
      assert u in ListAt(s, r) <==> u in loc && loc[u] == r;
    }
    forall r ensures Distinct(ListAt(s', r)) {
      if r != p { assert Distinct(ListAt(s, r)); }
    }
  }

  // ------------------------------------------------------------ preservation

  /** The rest of the invariant, after a step that changed the records of t and of the CPUs
      in ways that keep them sound. */
  lemma Rest(s: State, s': State, loc: map<Tid, Place>, loc': map<Tid, Place>, t: Tid)
    requires Inv(s, loc) && Placed(s', loc')
    requires forall u :: u in s'.threads && u != t ==> u in s.threads && s'.threads[u] == s.threads[u]
    requires forall u :: u in s'.threads && u != t ==> StateOf(s', u) == StateOf(s, u) && (Unstored(s', u) ==> Unstored(s, u))
    requires forall u :: u in loc' && u != t ==> u in loc && loc'[u] == loc[u]
    requires forall c :: c in s.cpus ==> c in s'.cpus
    requires t in s'.threads && t in loc' ==> Owned(s', loc', t) && StateOk(s', loc', t)
    requires forall c :: c in s'.cpus ==> CpuOk(s', c)
    ensures Inv(s', loc')
  {
    hide Placed;
    forall u | u in loc' && u in s'.threads ensures Owned(s', loc', u) && StateOk(s', loc', u) {
      if u != t { assert Owned(s, loc, u) && StateOk(s, loc, u); }
    }
  }

  predicate TookEnd(l: seq<Tid>, l': seq<Tid>, t: Tid) {
    l != [] && ((t == l[0] && l' == l[1..]) || (t == l[|l| - 1] && l' == l[..|l| - 1]))
  }

  /** The one thread at an end of p's list that a step moves to q. */
  lemma MoveOk(s: State, s': State, loc: map<Tid, Place>, t: Tid, p: Place, q: Place) returns (loc': map<Tid, Place>)
    requires Inv(s, loc) && p != q && t in ListAt(s, p)
    requires forall r :: r != p && r != q ==> ListAt(s', r) == ListAt(s, r)
    requires TookEnd(ListAt(s, p), ListAt(s', p), t)
    requires ListAt(s', q) == ListAt(s, q) + [t] || ListAt(s', q) == [t] + ListAt(s, q)
    requires forall u :: u in s.threads <==> u in s'.threads
    ensures loc' == loc[t := q] && Placed(s', loc') && t in loc && loc[t] == p && t in s.threads
  {
    hide ListAt;
    IsAt(s, loc, p, t);
    NotAt(s, loc, q, t);
    assert Distinct(ListAt(s, p));
    DropHead(ListAt(s, p));
    DropLast(ListAt(s, p));
    AddEither(ListAt(s, q), t);
    Moved(s, s', loc, t, p, q);
    loc' := loc[t := q];
  }

  lemma MakeRunnableKeeps(s: State, loc: map<Tid, Place>, h: Hid) returns (loc': map<Tid, Place>)
    requires Inv(s, loc) && Enabled(s, MakeRunnable(h))
    ensures Inv(Apply(s, MakeRunnable(h)), loc')
  {
    hide Placed, Distinct;
    var s', t := Apply(s, MakeRunnable(h)), Hand(s, h)[0];
    var c := s.threads[t].cpu;
    assert t in ListAt(s, InHand(h));
    loc' := MoveOk(s, s', loc, t, InHand(h), Runq(c));
    assert Owned(s, loc, t) && StateOk(s, loc, t);
    forall d | d in s'.cpus ensures CpuOk(s', d) { assert CpuOk(s, d); }
    Rest(s, s', loc, loc', t);
  }

  lemma ParkKeeps(s: State, loc: map<Tid, Place>, c: Cid, how: How) returns (loc': map<Tid, Place>)
    requires Inv(s, loc) && Enabled(s, Park(c, how))
    ensures Inv(Apply(s, Park(c, how)), loc')
  {
    hide Placed, Distinct;
    var s', t := Apply(s, Park(c, how)), s.cpus[c].cur;
    assert CpuOk(s, c);
    var q := match how case Yield => Runq(c) case Sleep(w) => OnChan(w) case Exit => Zombies(c);
    loc' := MoveOk(s, s', loc, t, Current(c), q);
    assert Owned(s, loc, t);
    forall d | d in s'.cpus ensures CpuOk(s', d) { assert CpuOk(s, d); }
    Rest(s, s', loc, loc', t);
  }

  lemma StoreKeeps(s: State, loc: map<Tid, Place>, c: Cid)
    requires Inv(s, loc) && Enabled(s, Store(c))
    ensures Inv(Apply(s, Store(c)), loc)
  {
    hide Placed, Distinct;
    var s', t := Apply(s, Store(c)), s.cpus[c].cur;
    assert CpuOk(s, c);
    Known(s, loc, t);
    Stayed(s, s', loc);
    assert Owned(s, loc, t) && StateOk(s, loc, t);
    forall d | d in s'.cpus ensures CpuOk(s', d) { assert CpuOk(s, d); }
    Rest(s, s', loc, loc, t);
  }

  lemma PickKeeps(s: State, loc: map<Tid, Place>, c: Cid) returns (loc': map<Tid, Place>)
    requires Inv(s, loc) && Enabled(s, Pick(c)) && s.cpus[c].runq != []
    ensures Inv(Apply(s, Pick(c)), loc')
  {
    hide Placed, Distinct;
    var s', t := Apply(s, Pick(c)), s.cpus[c].runq[0];
    assert t in ListAt(s, Runq(c));
    assert CpuOk(s, c);
    loc' := MoveOk(s, s', loc, t, Runq(c), Current(c));
    assert Owned(s, loc, t) && StateOk(s, loc, t);
    forall d | d in s'.cpus ensures CpuOk(s', d) { assert CpuOk(s, d); }
    Rest(s, s', loc, loc', t);
  }

  lemma ReleaseKeeps(s: State, loc: map<Tid, Place>, c: Cid)
    requires Inv(s, loc) && Enabled(s, Release(c))
    ensures Inv(Apply(s, Release(c)), loc)
  {
    hide Placed, Distinct;
    var s', t := Apply(s, Release(c)), s.cpus[c].cur;
    assert CpuOk(s, c);
    assert t in ListAt(s, Current(c));
    IsAt(s, loc, Current(c), t);
    Stayed(s, s', loc);
    assert Owned(s, loc, t);
    forall d | d in s'.cpus ensures CpuOk(s', d) { assert CpuOk(s, d); }
    Rest(s, s', loc, loc, t);
  }

  /** Changes of a CPU's phase alone. */
  lemma PhaseKeeps(s: State, loc: map<Tid, Place>, c: Cid, s': State)
    requires Inv(s, loc) && c in s.cpus
    requires c in s'.cpus && s' == SetCpu(s, c, s'.cpus[c])
    requires s'.cpus[c] == s.cpus[c].(phase := s'.cpus[c].phase, migrating := s'.cpus[c].migrating) && CpuOk(s', c)
    requires !s.cpus[c].phase.Storing? && !s'.cpus[c].phase.Storing?
    ensures Inv(s', loc)
  {
    hide Placed, Distinct;
    Stayed(s, s', loc);
    forall d | d in s'.cpus ensures CpuOk(s', d) { if d != c { assert CpuOk(s, d); } }
    var t := s.cpus[c].cur;
    assert CpuOk(s, c);
    Known(s, loc, t);
    assert Owned(s, loc, t) && StateOk(s, loc, t);
    Rest(s, s', loc, loc, t);
  }

  lemma WakeTakeKeeps(s: State, loc: map<Tid, Place>, w: Wid, h: Hid) returns (loc': map<Tid, Place>)
    requires Inv(s, loc) && Enabled(s, WakeTake(w, h))
    ensures Inv(Apply(s, WakeTake(w, h)), loc')
  {
    hide Placed, Distinct;
    var s', t := Apply(s, WakeTake(w, h)), Chan(s, w)[0];
    assert t in ListAt(s, OnChan(w));
    loc' := MoveOk(s, s', loc, t, OnChan(w), InHand(h));
    assert Owned(s, loc, t) && StateOk(s, loc, t);
    forall d | d in s'.cpus ensures CpuOk(s', d) { assert CpuOk(s, d); }
    Rest(s, s', loc, loc', t);
  }

  lemma MigTakeKeeps(s: State, loc: map<Tid, Place>, c: Cid) returns (loc': map<Tid, Place>)
    requires Inv(s, loc) && Enabled(s, MigTake(c))
    ensures Inv(Apply(s, MigTake(c)), loc')
  {
    hide Placed, Distinct;
    var s', n := Apply(s, MigTake(c)), |s.cpus[c].runq| - 1;
    var t := s.cpus[c].runq[n];
    assert t in ListAt(s, Runq(c));
    loc' := MoveOk(s, s', loc, t, Runq(c), Victims(c));
    assert Owned(s, loc, t) && StateOk(s, loc, t);
    forall d | d in s'.cpus ensures CpuOk(s', d) { assert CpuOk(s, d); }
    Rest(s, s', loc, loc', t);
  }

  lemma MigReturnKeeps(s: State, loc: map<Tid, Place>, c: Cid) returns (loc': map<Tid, Place>)
    requires Inv(s, loc) && Enabled(s, MigReturn(c))
    ensures Inv(Apply(s, MigReturn(c)), loc')
  {
    hide Placed, Distinct;
    var s', t := Apply(s, MigReturn(c)), s.cpus[c].victims[0];
    assert t in ListAt(s, Victims(c));
    loc' := MoveOk(s, s', loc, t, Victims(c), Runq(c));
    assert Owned(s, loc, t) && StateOk(s, loc, t);
    forall d | d in s'.cpus ensures CpuOk(s', d) { assert CpuOk(s, d); }
    Rest(s, s', loc, loc', t);
  }

  lemma MigPlaceMoves(s: State, loc: map<Tid, Place>, c: Cid, d: Cid) returns (loc': map<Tid, Place>)
    requires Inv(s, loc) && Enabled(s, MigPlace(c, d)) && s.cpus[c].victims[0] != s.cpus[c].cur
    ensures var t := s.cpus[c].victims[0];
      && t in loc && loc[t] == Victims(c) && t in s.threads && s.threads[t].cpu == c
      && loc' == loc[t := Runq(d)] && Placed(Apply(s, MigPlace(c, d)), loc')
  {
    hide Placed, Distinct, StateOk, CpuOk;
    var s', t := Apply(s, MigPlace(c, d)), s.cpus[c].victims[0];
    assert t in ListAt(s, Victims(c));
    loc' := MoveOk(s, s', loc, t, Victims(c), Runq(d));
    assert Owned(s, loc, t);
  }

  lemma MigPlaceKeeps(s: State, loc: map<Tid, Place>, c: Cid, d: Cid) returns (loc': map<Tid, Place>)
    requires Inv(s, loc) && Enabled(s, MigPlace(c, d)) && s.cpus[c].victims[0] != s.cpus[c].cur
    ensures Inv(Apply(s, MigPlace(c, d)), loc')
  {
    hide Placed, Distinct, ListAt;
    var s', t := Apply(s, MigPlace(c, d)), s.cpus[c].victims[0];
    loc' := MigPlaceMoves(s, loc, c, d);
    assert StateOk(s, loc, t);
    forall e | e in s'.cpus ensures CpuOk(s', e) {
      assert CpuOk(s, e);
      assert s.cpus[e].cur != t;   // no idle CPU is left on the stack of a thread that moves away
    }
    Rest(s, s', loc, loc', t);
  }

  lemma MigSkipKeeps(s: State, loc: map<Tid, Place>, c: Cid, d: Cid)
    requires Inv(s, loc) && Enabled(s, MigPlace(c, d)) && s.cpus[c].victims[0] == s.cpus[c].cur
    ensures Inv(Apply(s, MigPlace(c, d)), loc)
  {
    hide Placed, Distinct;
    var s', t := Apply(s, MigPlace(c, d)), s.cpus[c].victims[0];
    assert t in ListAt(s, Victims(c));
    IsAt(s, loc, Victims(c), t);
    Rotated(s, s', loc, Victims(c));
    assert Owned(s, loc, t) && StateOk(s, loc, t);
    forall e | e in s'.cpus ensures CpuOk(s', e) { assert CpuOk(s, e); }
    Rest(s, s', loc, loc, t);
  }

  lemma ForkKeeps(s: State, loc: map<Tid, Place>, c: Cid, h: Hid, t: Tid) returns (loc': map<Tid, Place>)
    requires Inv(s, loc) && Enabled(s, Fork(c, h, t))
    ensures Inv(Apply(s, Fork(c, h, t)), loc')
  {
    hide Placed, Distinct;
    var s' := Apply(s, Fork(c, h, t));
    Appeared(s, s', loc, t, InHand(h));
    loc' := loc[t := InHand(h)];
    assert CpuOk(s, c);
    forall d | d in s'.cpus ensures CpuOk(s', d) { assert CpuOk(s, d); }
    Rest(s, s', loc, loc', t);
  }

  lemma NewCpuKeeps(s: State, loc: map<Tid, Place>, c: Cid, t: Tid) returns (loc': map<Tid, Place>)
    requires Inv(s, loc) && Enabled(s, NewCpu(c, t))
    ensures Inv(Apply(s, NewCpu(c, t)), loc')
  {
    hide Placed, Distinct;
    var s' := Apply(s, NewCpu(c, t));
    Appeared(s, s', loc, t, Current(c));
    loc' := loc[t := Current(c)];
    forall d | d in s'.cpus ensures CpuOk(s', d) { if d != c { assert CpuOk(s, d); } }
    Rest(s, s', loc, loc', t);
  }

  /** What exorcise asserts of a zombie before it destroys it: it is not the thread running
      the loop, its state is ZOMBIE, and (what thread_destroy relies on) no CPU stands on its
      stack. */
  lemma ReapSafe(s: State, loc: map<Tid, Place>, c: Cid)
    requires Inv(s, loc) && Enabled(s, Reap(c)) && s.cpus[c].zombies != []
    ensures var z := s.cpus[c].zombies[0];
      && z in s.threads && s.threads[z].state == ZOMBIE
      && (forall d :: d in s.cpus ==> s.cpus[d].cur != z)
  {
    hide Placed, Distinct;
    var z := s.cpus[c].zombies[0];
    assert z in ListAt(s, Zombies(c));
    IsAt(s, loc, Zombies(c), z);
    assert Owned(s, loc, z) && StateOk(s, loc, z);
    forall d | d in s.cpus ensures s.cpus[d].cur != z {
      assert CpuOk(s, d);
      if d == c {
        assert s.cpus[c].cur in ListAt(s, Current(c));
        IsAt(s, loc, Current(c), s.cpus[c].cur);
      }
    }
  }

  lemma ReapKeeps(s: State, loc: map<Tid, Place>, c: Cid) returns (loc': map<Tid, Place>)
    requires Inv(s, loc) && Enabled(s, Reap(c)) && s.cpus[c].zombies != []
    ensures Inv(Apply(s, Reap(c)), loc')
  {
    hide Placed, Distinct;
    var s', z := Apply(s, Reap(c)), s.cpus[c].zombies[0];
    ReapSafe(s, loc, c);
    Vanished(s, s', loc, z, Zombies(c));
    loc' := loc - {z};
    forall d | d in s'.cpus ensures CpuOk(s', d) { assert CpuOk(s, d); }
    Rest(s, s', loc, loc', z);
  }

  /** Every step keeps the invariant. */
  lemma StepKeeps(s: State, loc: map<Tid, Place>, step: Step) returns (loc': map<Tid, Place>)
    requires Inv(s, loc) && Enabled(s, step)
    ensures Inv(Apply(s, step), loc')
  {
    hide Inv;
    loc' := loc;
    match step {
      case NewCpu(c, t) => loc' := NewCpuKeeps(s, loc, c, t);
      case Fork(c, h, t) => loc' := ForkKeeps(s, loc, c, h, t);
      case MakeRunnable(h) => loc' := MakeRunnableKeeps(s, loc, h);
      case Park(c, how) => loc' := ParkKeeps(s, loc, c, how);
      case Store(c) => StoreKeeps(s, loc, c);
      case Pick(c) => if s.cpus[c].runq == [] { QuietKeeps(s, loc, c, step); } else { loc' := PickKeeps(s, loc, c); }
      case Repoll(c) => QuietKeeps(s, loc, c, step);
      case Release(c) => ReleaseKeeps(s, loc, c);
      case Reap(c) => if s.cpus[c].zombies == [] { QuietKeeps(s, loc, c, step); } else { loc' := ReapKeeps(s, loc, c); }
      case WakeTake(w, h) => loc' := WakeTakeKeeps(s, loc, w, h);
      case MigBegin(c) => QuietKeeps(s, loc, c, step);
      case MigTake(c) => loc' := MigTakeKeeps(s, loc, c);
      case MigPlace(c, d) =>
        if s.cpus[c].victims[0] == s.cpus[c].cur { MigSkipKeeps(s, loc, c, d); } else { loc' := MigPlaceKeeps(s, loc, c, d); }
      case MigReturn(c) => loc' := MigReturnKeeps(s, loc, c);
      case MigEnd(c) => QuietKeeps(s, loc, c, step);
    }
  }

  /** Steps that move no thread. */
  ghost predicate Quiet(s: State, c: Cid, step: Step) {
    && c in s.cpus
    && (step == Repoll(c) || step == MigBegin(c) || step == MigEnd(c) ||
        (step == Pick(c) && s.cpus[c].runq == []) || (step == Reap(c) && s.cpus[c].zombies == []))
  }

  lemma QuietKeeps(s: State, loc: map<Tid, Place>, c: Cid, step: Step)
    requires Inv(s, loc) && Enabled(s, step) && Quiet(s, c, step)
    ensures Inv(Apply(s, step), loc)
  {
    hide Placed, Distinct;
    assert CpuOk(s, c);
    PhaseKeeps(s, loc, c, Apply(s, step));
  }

  lemma {:induction false} EveryRun(s: State, n: nat) returns (loc: map<Tid, Place>)
    requires Reaches(s, n)
    ensures Inv(s, loc)
    decreases n
  {
    hide Inv, Enabled, Apply;
    if n == 0 {
      loc := map[];
      EmptyInv();
    } else {
      var p, step :| Reaches(p, n - 1) && Enabled(p, step) && s == Apply(p, step);
      var was := EveryRun(p, n - 1);
      loc := StepKeeps(p, was, step);
    }
  }

  lemma EmptyInv()
    ensures Inv(State(map[], map[], map[], map[]), map[])
  {
  }

  /** In every reachable state each undestroyed thread is in exactly one place, once: current
      on a CPU that is not idle, on a run queue, asleep on a wait channel, a zombie, a
      migration victim, or on its way to a run queue. */
  lemma OnePlace(s: State, n: nat, t: Tid)
    requires Reaches(s, n) && t in s.threads
    ensures exists p :: t in ListAt(s, p) && Distinct(ListAt(s, p)) && forall q :: t in ListAt(s, q) ==> q == p
  {
    var loc := EveryRun(s, n);
    var p := loc[t];
    assert t in ListAt(s, p) && Distinct(ListAt(s, p));
  }

  /** And lists hold no thread that was destroyed. */
  lemma NoneDestroyed(s: State, n: nat, p: Place, t: Tid)
    requires Reaches(s, n) && t in ListAt(s, p)
    ensures t in s.threads
  {
    var loc := EveryRun(s, n);
    IsAt(s, loc, p, t);
  }

  /** A thread queued on a CPU is queued on the one it belongs to. */
  lemma QueuedIsOwn(s: State, n: nat, c: Cid, t: Tid)
    requires Reaches(s, n) && c in s.cpus && t in s.cpus[c].runq
    ensures t in s.threads && s.threads[t].cpu == c
  {
    hide Placed, Distinct;
    var loc := EveryRun(s, n);
    assert t in ListAt(s, Runq(c));
    IsAt(s, loc, Runq(c), t);
    assert Owned(s, loc, t);
  }

  /** No two CPUs ever stand on one thread's stack, even while one of them idles after its thread went
      to sleep, was woken, and waits on its run queue. */
  lemma StacksApart(s: State, n: nat, c: Cid, d: Cid)
    requires Reaches(s, n) && c in s.cpus && d in s.cpus && c != d
    ensures s.cpus[c].cur != s.cpus[d].cur
    ensures forall t :: t in s.cpus[c].runq ==> s.cpus[d].cur != t
  {
    hide Placed, Distinct;
    var loc := EveryRun(s, n);
    assert CpuOk(s, c) && CpuOk(s, d);
    forall t | t in s.cpus[c].runq ensures s.cpus[d].cur != t { QueuedIsOwn(s, n, c, t); }
  }

  /** What thread_switch asserts on entry: the current thread belongs to the CPU it runs on. */
  lemma CurrentIsOwn(s: State, n: nat, c: Cid)
    requires Reaches(s, n) && c in s.cpus
    ensures s.cpus[c].cur in s.threads && s.threads[s.cpus[c].cur].cpu == c
  {
    hide Placed;
    var loc := EveryRun(s, n);
    assert CpuOk(s, c);
  }

  /** The thread states follow the places.  Between the moment a thread is on its list (where, its
      channel being unlocked, another CPU may already take it) and the store of its new state, it is
      the state about to be stored that does. */
  lemma StatesAgree(s: State, n: nat, t: Tid, p: Place)
    requires Reaches(s, n) && t in ListAt(s, p)
    ensures t in s.threads
    ensures StateOf(s, t) == ZOMBIE <==> p.Zombies?
    ensures p.OnChan? ==> StateOf(s, t) == SLEEP
    ensures StateOf(s, t) == RUN ==> p.Current?
    ensures Unstored(s, t) ==> !p.Current? && !p.Victims? && s.threads[t].state != ZOMBIE
  {
    hide Placed;
    var loc := EveryRun(s, n);
    IsAt(s, loc, p, t);
    assert Owned(s, loc, t) && StateOk(s, loc, t);
    assert CpuOk(s, s.threads[t].cpu);
  }

  /** A thread whose new state is not stored yet is not queued to run anywhere but on the CPU that is
      still on its stack and holds its run queue lock. */
  lemma UnstoredIsSafe(s: State, n: nat, c: Cid, t: Tid)
    requires Reaches(s, n) && t in s.threads && Unstored(s, t) && c in s.cpus && t in s.cpus[c].runq
    ensures s.threads[t].cpu == c && s.cpus[c].cur == t && LockHeld(s.cpus[c])
  {
    QueuedIsOwn(s, n, c, t);
  }

  /** Zombies are destroyed only by the CPU they died on, off their own stack. */
  lemma ReapIsSafe(s: State, n: nat, c: Cid)
    requires Reaches(s, n) && Enabled(s, Reap(c)) && s.cpus[c].zombies != []
    ensures var z := s.cpus[c].zombies[0];
      && z in s.threads && s.threads[z].state == ZOMBIE
      && forall d :: d in s.cpus ==> s.cpus[d].cur != z
  {
    hide Inv;
    var loc := EveryRun(s, n);
    ReapSafe(s, loc, c);
  }
}
