/** thread_consider_migration (kern/thread/thread.c): one CPU counts all run queues, takes its
    surplus off the tail of its own queue, and hands it to CPUs below their share.

    The code is not atomic.  Whatever other CPUs do between two lock acquisitions is a
    parameter, `env`: any change at all to other CPUs' queues, and additions at the tail of
    this CPU's own queue (this CPU itself is busy here, in its timer interrupt). */
module Migration {
  import Digits

  type Tid = int
  type Queues = seq<seq<Tid>>
  type Env = (nat, Queues) -> Queues

  ghost predicate Allowed(env: Env, me: nat) {
    forall k, q :: |env(k, q)| == |q| && (me < |q| ==> q[me] <= env(k, q)[me])
  }

  /** Nobody interferes. */
  ghost predicate Quiet(env: Env) {
    forall k, q :: env(k, q) == q
  }

  function Sum(c: seq<nat>): nat {
    if c == [] then 0 else Sum(c[..|c| - 1]) + c[|c| - 1]
  }

  /** The threads of l other than t, and the occurrences of t. */
  function Without(l: seq<Tid>, t: Tid): seq<Tid> {
    if l == [] then []
    else if l[|l| - 1] == t then Without(l[..|l| - 1], t)
    else Without(l[..|l| - 1], t) + [l[|l| - 1]]
  }

  function Only(l: seq<Tid>, t: Tid): seq<Tid> {
    if l == [] then []
    else if l[|l| - 1] == t then Only(l[..|l| - 1], t) + [t]
    else Only(l[..|l| - 1], t)
  }

  /** All lists in order. */
  function Flat(q: Queues): seq<Tid> {
    if q == [] then [] else Flat(q[..|q| - 1]) + q[|q| - 1]
  }

  // ------------------------------------------------------------------ the trace

  /** One lock acquisition: the queues as this CPU last left them, as it found them with the lock,
      and as it left them when it released it. */
  datatype Turn = Turn(before: Queues, seen: Queues, after: Queues)

  /** The turns are one run from q0 to q: before each, the other CPUs did what `env` says. */
  ghost predicate Linked(env: Env, q0: Queues, trace: seq<Turn>, q: Queues)
    decreases |trace|
  {
    if trace == [] then q == q0
    else
      var n := |trace| - 1;
      && Linked(env, q0, trace[..n], trace[n].before)
      && trace[n].seen == env(n, trace[n].before) && q == trace[n].after && |trace[n].seen| == |q| == |q0|
  }

  lemma LinkedStep(env: Env, q0: Queues, trace: seq<Turn>, q: Queues, turn: Turn)
    requires Linked(env, q0, trace, q) && turn.before == q && turn.seen == env(|trace|, q)
    requires |turn.seen| == |turn.after| == |q0|
    ensures Linked(env, q0, trace + [turn], turn.after)
  {
    assert (trace + [turn])[..|trace|] == trace;
  }

  /** The counting turns change nothing; the k-th reads the length of queue k. */
  ghost predicate CountTurns(trace: seq<Turn>, counts: seq<nat>) {
    |counts| <= |trace| &&
    forall k :: 0 <= k < |counts| ==> trace[k].after == trace[k].seen && k < |trace[k].seen| && counts[k] == |trace[k].seen[k]|
  }

  /** How many CPUs before j are visited when the own one is left out. */
  function Rank(j: nat, me: nat): nat {
    if j > me then j - 1 else j
  }

  /** The turn of CPU j: its queue, as found, was below the share if it was given anything, which
      was appended and did not take it above the share; no other queue was touched. */
  ghost predicate PlaceTurn(turn: Turn, j: nat, add: seq<Tid>, found: nat, share: nat) {
    && j < |turn.seen| && turn.after == turn.seen[j := turn.seen[j] + add] && found == |turn.seen[j]|
    && (add != [] ==> |turn.seen[j]| < share && |turn.after[j]| <= share)
  }

  ghost predicate PlaceTurns(trace: seq<Turn>, base: nat, given: Queues, found: seq<nat>, me: nat, share: nat) {
    && |found| == |given| && Given(given, me) == [] && base + Rank(|given|, me) <= |trace|
    && (forall j :: 0 <= j < |given| && j != me ==> PlaceTurn(trace[base + Rank(j, me)], j, given[j], found[j], share))
  }

  /** Every CPU visited was filled up to the share. */
  ghost predicate Filled(trace: seq<Turn>, base: nat, i: nat, me: nat, share: nat) {
    && base + Rank(i, me) <= |trace|
    && (forall j :: 0 <= j < i && j != me ==>
          j < |trace[base + Rank(j, me)].after| && |trace[base + Rank(j, me)].after[j]| >= share)
  }

  lemma PlaceStep(trace: seq<Turn>, base: nat, given: Queues, found: seq<nat>, me: nat, share: nat, turn: Turn,
                  add: seq<Tid>, n: nat)
    requires PlaceTurns(trace, base, given, found, me, share) && |trace| == base + Rank(|given|, me) && |given| != me
    requires PlaceTurn(turn, |given|, add, n, share)
    ensures PlaceTurns(trace + [turn], base, given + [add], found + [n], me, share)
    ensures |trace + [turn]| == base + Rank(|given| + 1, me)
    ensures Filled(trace, base, |given|, me, share) && |turn.after[|given|]| >= share ==>
      Filled(trace + [turn], base, |given| + 1, me, share)
  {
    var g, f, tr := given + [add], found + [n], trace + [turn];
    forall j | 0 <= j < |g| && j != me ensures PlaceTurn(tr[base + Rank(j, me)], j, g[j], f[j], share) {
      if j < |given| { assert PlaceTurn(trace[base + Rank(j, me)], j, given[j], found[j], share); }
    }
    if Filled(trace, base, |given|, me, share) && |turn.after[|given|]| >= share {
      forall j | 0 <= j < |g| && j != me
        ensures j < |tr[base + Rank(j, me)].after| && |tr[base + Rank(j, me)].after[j]| >= share
      {
        if j < |given| { assert |trace[base + Rank(j, me)].after[j]| >= share; }
      }
    }
  }

  lemma SkipStep(trace: seq<Turn>, base: nat, given: Queues, found: seq<nat>, me: nat, share: nat, n: nat)
    requires PlaceTurns(trace, base, given, found, me, share) && |given| == me
    ensures PlaceTurns(trace, base, given + [[]], found + [n], me, share) && Rank(me + 1, me) == Rank(me, me)
    ensures Filled(trace, base, me, me, share) ==> Filled(trace, base, me + 1, me, share)
  {
    hide PlaceTurn;
    var g, f := given + [[]], found + [n];
    forall j | 0 <= j < |g| && j != me ensures PlaceTurn(trace[base + Rank(j, me)], j, g[j], f[j], share) {
      assert PlaceTurn(trace[base + Rank(j, me)], j, given[j], found[j], share);
    }
  }

  // ------------------------------------------------------------------- counting

  lemma NoTurns(env: Env, q0: Queues)
    ensures Linked(env, q0, [], q0) && CountTurns([], [])
  {
  }

  lemma CountStep(trace: seq<Turn>, counts: seq<nat>, turn: Turn)
    requires CountTurns(trace, counts) && |trace| == |counts| < |turn.seen| && turn.after == turn.seen
    ensures CountTurns(trace + [turn], counts + [|turn.seen[|trace|]|])
  {
    var tr, c := trace + [turn], counts + [|turn.seen[|trace|]|];
    forall k | 0 <= k < |c| ensures tr[k].after == tr[k].seen && k < |tr[k].seen| && c[k] == |tr[k].seen[k]| {
      if k < |counts| { assert tr[k] == trace[k]; }
    }
  }

  method CountAll(env: Env, q0: Queues, me: nat) returns (q: Queues, tick: nat, counts: seq<nat>,
                  ghost trace: seq<Turn>)
    requires Allowed(env, me) && me < |q0|
    ensures Linked(env, q0, trace, q) && tick == |trace| == |q0| == |counts| && CountTurns(trace, counts)
    ensures |q| == |q0| && q0[me] <= q[me] && |q0[me]| <= counts[me] <= |q[me]|
    ensures Quiet(env) ==> q == q0 && forall i :: 0 <= i < |q0| ==> counts[i] == |q0[i]|
  {
    hide Linked, CountTurns;
    q, tick, counts, trace := q0, 0, [], [];
    NoTurns(env, q0);
    var i := 0;
    while i < |q|
      invariant Linked(env, q0, trace, q) && i == tick == |trace| == |counts| && CountTurns(trace, counts)
      invariant i <= |q| == |q0| && q0[me] <= q[me]
      invariant i > me ==> |q0[me]| <= counts[me] <= |q[me]|
      invariant Quiet(env) ==> q == q0 && forall k :: 0 <= k < i ==> counts[k] == |q0[k]|
    {
      ghost var turn := Turn(q, env(tick, q), env(tick, q));
      LinkedStep(env, q0, trace, q, turn);
      CountStep(trace, counts, turn);
      q := env(tick, q);
      tick := tick + 1;
      counts := counts + [|q[i]|];
      trace := trace + [turn];
      i := i + 1;
    }
  }

  /** remtail/addhead, `toSend` times: the tail moves over in order. */
  method TakeVictims(own: seq<Tid>, toSend: nat) returns (kept: seq<Tid>, victims: seq<Tid>)
    requires toSend <= |own|
    ensures own == kept + victims && |victims| == toSend
  {
    kept, victims := own, [];
    var i := 0;
    while i < toSend
      invariant i <= toSend && own == kept + victims && |victims| == i
    {
      var t := kept[|kept| - 1];
      kept := kept[..|kept| - 1];
      victims := [t] + victims;
      i := i + 1;
    }
  }

  // -------------------------------------------------------------------- placing

  lemma Snoc<T>(l: seq<T>, k: nat)
    requires k < |l|
    ensures l[..k + 1][..k] == l[..k] && l[..k + 1][k] == l[k] && l[k..] == [l[k]] + l[k + 1..]
  {
  }

  lemma {:induction false} Split(a: seq<Tid>, b: seq<Tid>, t: Tid)
    ensures Without(a + b, t) == Without(a, t) + Without(b, t)
    ensures Only(a + b, t) == Only(a, t) + Only(b, t)
    decreases |b|
  {
    if b == [] {
      assert a + b == a;
    } else {
      var l := |b| - 1;
      assert (a + b)[..|a + b| - 1] == a + b[..l];
      Split(a, b[..l], t);
    }
  }

  lemma {:induction false} OnlyCur(l: seq<Tid>, t: Tid)
    ensures forall i :: 0 <= i < |Only(l, t)| ==> Only(l, t)[i] == t
    ensures forall i :: 0 <= i < |Without(l, t)| ==> Without(l, t)[i] != t
    ensures |Only(l, t)| + |Without(l, t)| == |l|
    ensures multiset(Only(l, t)) + multiset(Without(l, t)) == multiset(l)
    decreases |l|
  {
    if l == [] {
    } else {
      var k := |l| - 1;
      assert l == l[..k] + [l[k]];
      OnlyCur(l[..k], t);
    }
  }

  /** One round: the head victim is v[k]; it is appended to the queue or skipped. */
  lemma Round(v: seq<Tid>, k0: nat, k: nat, t: Tid)
    requires k0 <= k < |v|
    ensures v[k] == t ==> Without(v[k0..k + 1], t) == Without(v[k0..k], t) && Only(v[k0..k + 1], t) == Only(v[k0..k], t) + [t]
    ensures v[k] != t ==> Without(v[k0..k + 1], t) == Without(v[k0..k], t) + [v[k]] && Only(v[k0..k + 1], t) == Only(v[k0..k], t)
  {
    assert v[k0..k + 1][..k - k0] == v[k0..k];
  }

  function Max(a: nat, b: nat): nat {
    if a > b then a else b
  }

  /** The inner loop fills one CPU's queue up to the share from the head of the victim list,
      which holds `toSend` threads not yet looked at and then the skipped ones. */
  method Fill(queue0: seq<Tid>, victims0: seq<Tid>, toSend0: nat, cur: Tid, share: nat, ghost v: seq<Tid>,
              ghost skipped: seq<Tid>)
    returns (queue: seq<Tid>, victims: seq<Tid>, toSend: nat)
    requires toSend0 <= |v| && victims0 == v[|v| - toSend0..] + skipped
    ensures toSend <= toSend0
    ensures queue == queue0 + Without(v[|v| - toSend0..|v| - toSend], cur)
    ensures victims == v[|v| - toSend..] + (skipped + Only(v[|v| - toSend0..|v| - toSend], cur))
    ensures toSend == 0 || toSend0 - toSend >= share - |queue0|
    ensures toSend == 0 || |queue| >= share
    ensures |queue| <= Max(|queue0|, share)
  {
    queue, victims, toSend := queue0, victims0, toSend0;
    ghost var k0 := |v| - toSend0;
    ghost var k := k0;
    assert v[k0..k] == [];
    while |queue| < share && toSend > 0
      invariant k0 <= k <= |v| && toSend == |v| - k
      invariant queue == queue0 + Without(v[k0..k], cur)
      invariant victims == v[k..] + (skipped + Only(v[k0..k], cur))
      invariant |queue| <= Max(|queue0|, share) && |queue| - |queue0| <= k - k0
      decreases toSend
    {
      Round(v, k0, k, cur);
      Snoc(v, k);
      var t := victims[0];
      victims := victims[1..];
      assert victims == v[k + 1..] + (skipped + Only(v[k0..k], cur));
      if t == cur {
        victims := victims + [t];
      } else {
        queue := queue + [t];
      }
      toSend := toSend - 1;
      k := k + 1;
    }
  }

  /** What CPU j was given; CPUs the loop did not reach got nothing. */
  function Given(given: Queues, j: nat): seq<Tid> {
    if j < |given| then given[j] else []
  }

  /** How many threads CPUs i and up can take before they reach the share. */
  function Room(q: Queues, i: nat, me: nat, share: nat): nat
    decreases |q| - i
  {
    if i >= |q| then 0
    else (if i == me || |q[i]| >= share then 0 else share - |q[i]|) + Room(q, i + 1, me, share)
  }

  lemma FlatSnoc(q: Queues, l: seq<Tid>)
    ensures Flat(q + [l]) == Flat(q) + l
  {
    assert (q + [l])[..|q + [l]| - 1] == q;
  }

  /** The victims after one more CPU was filled: v[..a] became v[..b]. */
  lemma Fillings(v: seq<Tid>, a: nat, b: nat, t: Tid)
    requires a <= b <= |v|
    ensures Without(v[..b], t) == Without(v[..a], t) + Without(v[a..b], t)
    ensures Only(v[..b], t) == Only(v[..a], t) + Only(v[a..b], t)
  {
    assert v[..b] == v[..a] + v[a..b];
    Split(v[..a], v[a..b], t);
  }

  /** What an undisturbed run did to the queues before CPU i. */
  ghost predicate Undisturbed(q0: Queues, q: Queues, given: Queues, me: nat, share: nat) {
    && |q| == |q0|
    && (forall j :: 0 <= j < |q| ==> q[j] == q0[j] + Given(given, j))
    && (forall j :: 0 <= j < |q| && j != me ==> |q[j]| <= Max(|q0[j]|, share))
  }

  lemma UndisturbedStep(q0: Queues, q: Queues, given: Queues, me: nat, share: nat, add: seq<Tid>)
    requires Undisturbed(q0, q, given, me, share) && me < |q| && |given| < |q|
    requires |given| == me ==> add == []
    requires |given| != me ==> |q0[|given|] + add| <= Max(|q0[|given|]|, share)
    ensures q[|given|] == q0[|given|]
    ensures Undisturbed(q0, q[|given| := q[|given|] + add], given + [add], me, share)
  {
    var i := |given|;
    var q' := q[i := q[i] + add];
    forall j | 0 <= j < |q'| ensures q'[j] == q0[j] + Given(given + [add], j) {
      assert q[j] == q0[j] + Given(given, j);
    }
  }

  /** The run from `init` that stood at trace0 has visited CPUs 0 to |given| - 1. */
  ghost predicate Placing(env: Env, init: Queues, trace0: seq<Turn>, trace: seq<Turn>, q: Queues, given: Queues,
                          found: seq<nat>, me: nat, share: nat, toSend: nat) {
    && Linked(env, init, trace, q) && trace0 <= trace && |trace| == |trace0| + Rank(|given|, me)
    && PlaceTurns(trace, |trace0|, given, found, me, share)
    && (toSend > 0 ==> Filled(trace, |trace0|, |given|, me, share))
  }

  /** All but `toSend` of the victims v were given away or skipped. */
  ghost predicate Dealt(v: seq<Tid>, cur: Tid, victims: seq<Tid>, toSend: nat, given: Queues) {
    && toSend <= |v| && Flat(given) == Without(v[..|v| - toSend], cur)
    && victims == v[|v| - toSend..] + Only(v[..|v| - toSend], cur)
  }

  lemma DealtStep(v: seq<Tid>, cur: Tid, victims: seq<Tid>, toSend: nat, given: Queues, rest: seq<Tid>, n: nat,
                  add: seq<Tid>)
    requires Dealt(v, cur, victims, toSend, given) && n <= toSend
    requires add == Without(v[|v| - toSend..|v| - n], cur)
    requires rest == v[|v| - n..] + (Only(v[..|v| - toSend], cur) + Only(v[|v| - toSend..|v| - n], cur))
    ensures Dealt(v, cur, rest, n, given + [add])
  {
    hide Without, Only, Flat;
    Fillings(v, |v| - toSend, |v| - n, cur);
    FlatSnoc(given, add);
  }

  lemma PlacingStep(env: Env, init: Queues, trace0: seq<Turn>, trace: seq<Turn>, q: Queues, given: Queues, found: seq<nat>,
                    me: nat, share: nat, toSend: nat, turn: Turn, add: seq<Tid>, n: nat)
    requires Placing(env, init, trace0, trace, q, given, found, me, share, toSend) && |given| != me && 0 < toSend
    requires turn.before == q && turn.seen == env(|trace|, q) && |turn.seen| == |q| && |given| < |q|
    requires turn.after == turn.seen[|given| := turn.seen[|given|] + add]
    requires |turn.after[|given|]| <= Max(|turn.seen[|given|]|, share) && (n > 0 ==> |turn.after[|given|]| >= share)
    ensures Placing(env, init, trace0, trace + [turn], turn.after, given + [add], found + [|turn.seen[|given|]|], me, share, n)
  {
    hide PlaceTurns, Filled, Linked;
    BelowShare(turn.seen[|given|], add, share);
    SameSize(env, init, trace, q);
    LinkedStep(env, init, trace, q, turn);
    PlaceStep(trace, |trace0|, given, found, me, share, turn, add, |turn.seen[|given|]|);
  }

  /** From where the run stands: the victims go, in order, to the other CPUs' queues, each at its
      turn; if any are left, every CPU was visited and was at its share. */
  method PlaceAll(env: Env, ghost init: Queues, ghost trace0: seq<Turn>, q0: Queues, tick0: nat, me: nat, cur: Tid,
                  share: nat, v: seq<Tid>)
    returns (q: Queues, victims: seq<Tid>, toSend: nat, given: Queues, found: seq<nat>, tick: nat, ghost trace: seq<Turn>)
    requires Allowed(env, me) && me < |q0| && Linked(env, init, trace0, q0) && tick0 == |trace0|
    ensures Placing(env, init, trace0, trace, q, given, found, me, share, toSend) && tick == |trace|
    ensures Dealt(v, cur, victims, toSend, given) && (toSend > 0 ==> |given| == |q|)
    ensures |q| == |q0| && |given| <= |q| && q0[me] <= q[me]
    ensures Quiet(env) ==> Undisturbed(q0, q, given, me, share)
    ensures Quiet(env) && |v| <= Room(q0, 0, me, share) ==> toSend == 0
  {
    hide Without, Only, Undisturbed, Max, Placing, Dealt, Linked;
    q, tick, victims, toSend, given, found, trace := q0, tick0, v, |v|, [], [], trace0;
    Start(env, init, trace, q0, me, share, v, cur);
    var i := 0;
    while i < |q| && toSend > 0
      invariant i <= |q| == |q0| && |given| == i && q0[me] <= q[me] && tick == |trace|
      invariant Placing(env, init, trace0, trace, q, given, found, me, share, toSend)
      invariant Dealt(v, cur, victims, toSend, given)
      invariant Quiet(env) ==> Undisturbed(q0, q, given, me, share)
      invariant Quiet(env) && |v| <= Room(q0, 0, me, share) ==> toSend <= Room(q0, i, me, share)
      decreases |q| - i
    {
      if i != me {
        ghost var before := q;
        q := env(tick, q);
        tick := tick + 1;
        DealtParts(v, cur, victims, toSend, given);
        var queue, rest, n := Fill(q[i], victims, toSend, cur, share, v, Only(v[..|v| - toSend], cur));
        var add := queue[|q[i]|..];
        assert queue == q[i] + add;
        ghost var turn := Turn(before, q, q[i := queue]);
        DealtStep(v, cur, victims, toSend, given, rest, n, add);
        PlacingStep(env, init, trace0, trace, before, given, found, me, share, toSend, turn, add, n);
        if Quiet(env) { UndisturbedStep(q0, q, given, me, share, add) by { Same(q0, q, given, me, share); } }
        given, found, trace := given + [add], found + [|q[i]|], trace + [turn];
        q, victims, toSend := q[i := queue], rest, n;
      } else {
        PassOver(env, init, trace0, trace, q, given, found, me, share, toSend, v, cur, victims);
        if Quiet(env) { UndisturbedStep(q0, q, given, me, share, []); }
        assert q[i] + [] == q[i];
        assert q[i := q[i]] == q;
        given, found := given + [[]], found + [|q[i]|];
      }
      i := i + 1;
    }
  }

  lemma DealtParts(v: seq<Tid>, cur: Tid, victims: seq<Tid>, toSend: nat, given: Queues)
    requires Dealt(v, cur, victims, toSend, given)
    ensures toSend <= |v| && victims == v[|v| - toSend..] + Only(v[..|v| - toSend], cur)
    ensures Flat(given) == Without(v[..|v| - toSend], cur)
  {
    hide Flat, Only, Without;
  }

  /** The own CPU has no turn. */
  lemma PassOver(env: Env, init: Queues, trace0: seq<Turn>, trace: seq<Turn>, q: Queues, given: Queues, found: seq<nat>,
                 me: nat, share: nat, toSend: nat, v: seq<Tid>, cur: Tid, victims: seq<Tid>)
    requires Placing(env, init, trace0, trace, q, given, found, me, share, toSend) && |given| == me < |q|
    requires Dealt(v, cur, victims, toSend, given)
    ensures Placing(env, init, trace0, trace, q, given + [[]], found + [|q[me]|], me, share, toSend)
    ensures Dealt(v, cur, victims, toSend, given + [[]])
  {
    hide PlaceTurns, Filled, Linked, Without, Only, Flat;
    FlatSnoc(given, []);
    SkipStep(trace, |trace0|, given, found, me, share, |q[me]|);
  }

  lemma SameSize(env: Env, q0: Queues, trace: seq<Turn>, q: Queues)
    requires Linked(env, q0, trace, q)
    ensures |q| == |q0|
  {
  }

  lemma Start(env: Env, init: Queues, trace: seq<Turn>, q0: Queues, me: nat, share: nat, v: seq<Tid>, cur: Tid)
    requires Linked(env, init, trace, q0)
    ensures Placing(env, init, trace, trace, q0, [], [], me, share, |v|) && Dealt(v, cur, v, |v|, [])
    ensures Undisturbed(q0, q0, [], me, share)
  {
    hide Linked;
    Nothing(v, cur);
    assert v[0..] == v;
  }

  lemma BelowShare(queue: seq<Tid>, add: seq<Tid>, share: nat)
    requires |queue + add| <= Max(|queue|, share)
    ensures add != [] ==> |queue| < share && |queue| + |add| <= share
  {
  }

  lemma Same(q0: Queues, q: Queues, given: Queues, me: nat, share: nat)
    requires Undisturbed(q0, q, given, me, share) && |given| < |q|
    ensures |q| == |q0| && q[|given|] == q0[|given|]
  {
  }

  lemma Nothing(v: seq<Tid>, cur: Tid)
    ensures Flat([]) == Without(v[..0], cur) && Only(v[..0], cur) == []
  {
  }

  // ------------------------------------------------------------------ the share

  function Total(q: Queues): nat {
    if q == [] then 0 else Total(q[..|q| - 1]) + |q[|q| - 1]|
  }

  /** The lengths of the queues from i on. */
  function TotalFrom(q: Queues, i: nat): nat
    decreases |q| - i
  {
    if i >= |q| then 0 else |q[i]| + TotalFrom(q, i + 1)
  }

  lemma {:induction false} TotalSplits(q: Queues, i: nat)
    requires i <= |q|
    ensures Total(q) == Total(q[..i]) + TotalFrom(q, i)
    decreases |q| - i
  {
    if i == |q| {
      assert q[..i] == q;
    } else {
      assert q[..i + 1][..i] == q[..i];
      TotalSplits(q, i + 1);
    }
  }

  lemma {:induction false} CountsAreTotal(q: Queues, counts: seq<nat>)
    requires |counts| == |q| && forall i :: 0 <= i < |q| ==> counts[i] == |q[i]|
    ensures Sum(counts) == Total(q)
  {
    if q == [] {
    } else {
      var l := |q| - 1;
      CountsAreTotal(q[..l], counts[..l]);
    }
  }

  function Shares(k: nat, share: nat): nat {
    if k == 0 then 0 else share + Shares(k - 1, share)
  }

  lemma {:induction false} SharesProduct(k: nat, share: nat)
    ensures Shares(k, share) == k * share
  {
    if k == 0 {
    } else {
      SharesProduct(k - 1, share);
      assert k * share == (k - 1) * share + share;
    }
  }

  lemma RoundsUp(a: nat, b: nat)
    requires b > 0
    ensures a <= b * Digits.DivRoundUp(a, b)
  {
    var x := a + b - 1;
    assert x == b * (x / b) + x % b;
  }

  lemma {:induction false} RoomFrom(q: Queues, i: nat, me: nat, share: nat)
    requires me < |q| && i <= |q|
    ensures Room(q, i, me, share) + TotalFrom(q, i) + (if i <= me then share else 0) >=
            Shares(|q| - i, share) + if i <= me then |q[me]| else 0
    decreases |q| - i
  {
    if i == |q| {
    } else {
      RoomFrom(q, i + 1, me, share);
    }
  }

  /** The other CPUs have room for all that is above this CPU's share. */
  lemma RoomEnough(q: Queues, me: nat, share: nat)
    requires me < |q| && share == Digits.DivRoundUp(Total(q), |q|)
    ensures Room(q, 0, me, share) >= |q[me]| - share
  {
    RoomFrom(q, 0, me, share);
    TotalSplits(q, 0);
    SharesProduct(|q|, share);
    RoundsUp(Total(q), |q|);
  }

  /** Room does not look at the own queue. */
  lemma {:induction false} RoomSame(q: Queues, q': Queues, i: nat, me: nat, share: nat)
    requires |q| == |q'| && forall j :: 0 <= j < |q| && j != me ==> q[j] == q'[j]
    ensures Room(q, i, me, share) == Room(q', i, me, share)
    decreases |q| - i
  {
    if i >= |q| {
    } else {
      RoomSame(q, q', i + 1, me, share);
    }
  }

  // ------------------------------------------------------------- the whole call

  /** The queues afterwards, and what happened on the way: the counts read, the share, the own
      queue's part that stayed, the victims, how many of them were dealt with, what each CPU was
      given and how long its queue was then, and what arrived on the own queue meanwhile. */
  datatype Outcome = Outcome(
    q: Queues, counts: seq<nat>, share: nat, kept: seq<Tid>, taken: seq<Tid>, dealt: nat,
    given: Queues, found: seq<nat>, late: seq<Tid>)

  /** What goes back on the own queue: victims not looked at, then the current thread if it was met. */
  function Left(r: Outcome, cur: Tid): seq<Tid>
    requires r.dealt <= |r.taken|
  {
    r.taken[r.dealt..] + Only(r.taken[..r.dealt], cur)
  }

  /** The turns of a call that sends threads away: n counting turns, one that takes the victims off
      the tail of the own queue, one for each CPU visited, and one that puts the rest back. */
  ghost predicate SendTurns(trace: seq<Turn>, n: nat, me: nat, cur: Tid, r: Outcome)
    requires r.dealt <= |r.taken|
  {
    var m := n + 1 + Rank(|r.given|, me);
    && m <= |trace|
    && TakeTurn(trace[n], me, r.kept, r.taken)
    && PlaceTurns(trace, n + 1, r.given, r.found, me, r.share) && |r.given| <= n
    && (r.dealt < |r.taken| ==> |r.given| == n && Filled(trace, n + 1, n, me, r.share))
    && (if Left(r, cur) == [] then |trace| == m else |trace| == m + 1 && ReturnTurn(trace[m], me, Left(r, cur)))
  }

  ghost predicate TakeTurn(turn: Turn, me: nat, kept: seq<Tid>, taken: seq<Tid>) {
    me < |turn.seen| && turn.seen[me] == kept + taken && turn.after == turn.seen[me := kept]
  }

  ghost predicate ReturnTurn(turn: Turn, me: nat, left: seq<Tid>) {
    me < |turn.seen| && turn.after == turn.seen[me := turn.seen[me] + left]
  }

  /** However the other CPUs interfere: the own queue's surplus over the share is taken from its
      tail (never from an empty queue); those given away are appended, in order, to queues that are
      below their share when this CPU holds their lock, and the current thread is never among them;
      the rest is back on the own queue, with a current thread that was met at the very end. */
  ghost predicate Migrated(env: Env, q0: Queues, me: nat, cur: Tid, r: Outcome, trace: seq<Turn>)
    requires me < |q0|
  {
    && Linked(env, q0, trace, r.q) && CountTurns(trace, r.counts)
    && |r.counts| == |q0| == |r.q| && r.share == Digits.DivRoundUp(Sum(r.counts), |q0|) && r.dealt <= |r.taken|
    && (if r.counts[me] < r.share then |trace| == |q0| && r.taken == [] && r.given == []
        else SendTurns(trace, |q0|, me, cur, r) && |r.taken| == r.counts[me] - r.share)
    && q0[me] <= r.kept + r.taken
    && r.q[me] == r.kept + r.late + Left(r, cur)
    && Flat(r.given) == Without(r.taken[..r.dealt], cur)
  }

  /** With nobody interfering, all victims are dealt with and the other queues only gain. */
  ghost predicate Alone(q0: Queues, me: nat, r: Outcome)
    requires me < |q0| == |r.q| == |r.counts|
  {
    && Sum(r.counts) == Total(q0) && r.counts[me] == |q0[me]|
    && r.late == [] && r.kept + r.taken == q0[me] && r.dealt == |r.taken| && Given(r.given, me) == []
    && (forall j :: 0 <= j < |q0| && j != me ==> r.q[j] == q0[j] + Given(r.given, j))
    && (forall j :: 0 <= j < |q0| && j != me ==> |r.q[j]| <= Max(|q0[j]|, r.share))
  }

  method ConsiderMigration(env: Env, q0: Queues, me: nat, cur: Tid) returns (r: Outcome, ghost trace: seq<Turn>)
    requires Allowed(env, me) && me < |q0|
    ensures Migrated(env, q0, me, cur, r, trace)
    ensures Quiet(env) ==> Alone(q0, me, r)
  {
    hide Only, Without, Flat, Sum, Digits.DivRoundUp, Linked, CountTurns, SendTurns;
    var q, tick, counts;
    q, tick, counts, trace := CountAll(env, q0, me);
    var share := Digits.DivRoundUp(Sum(counts), |q0|);
    if Quiet(env) { CountsAreTotal(q0, counts); }
    Nothing([], cur);
    if counts[me] < share {
      r := Outcome(q, counts, share, q[me], [], 0, [], [], []);
      return;
    }
    if Quiet(env) { RoomEnough(q0, me, share); }
    r, trace := SendAway(env, q0, trace, q, tick, me, cur, counts, share);
  }

  /** The call after the decision to send threads away. */
  method SendAway(env: Env, ghost q0: Queues, ghost trace0: seq<Turn>, q1: Queues, tick0: nat, me: nat, cur: Tid,
                  counts: seq<nat>, share: nat)
    returns (r: Outcome, ghost trace: seq<Turn>)
    requires Allowed(env, me) && me < |q0| == |q1| == |counts| == tick0 && tick0 == |trace0| && Linked(env, q0, trace0, q1)
    requires CountTurns(trace0, counts) && share <= counts[me] <= |q1[me]| && q0[me] <= q1[me]
    ensures Linked(env, q0, trace, r.q) && CountTurns(trace, counts) && r.counts == counts && r.share == share && |r.q| == |q0|
    ensures r.dealt <= |r.taken| && SendTurns(trace, |q0|, me, cur, r) && |r.taken| == counts[me] - share
    ensures q0[me] <= r.kept + r.taken && r.q[me] == r.kept + r.late + Left(r, cur)
    ensures Flat(r.given) == Without(r.taken[..r.dealt], cur)
    ensures Quiet(env) && q1 == q0 && |r.taken| <= Room(q0, 0, me, share) ==>
      r.late == [] && r.kept + r.taken == q0[me] && r.dealt == |r.taken| && Given(r.given, me) == []
    ensures Quiet(env) && q1 == q0 && |r.taken| <= Room(q0, 0, me, share) ==> forall j :: 0 <= j < |q0| && j != me ==>
      r.q[j] == q0[j] + Given(r.given, j) && |r.q[j]| <= Max(|q0[j]|, share)
  {
    hide Only, Without, Flat, Linked, CountTurns, Max, Room, Placing, SendTurns, Undisturbed, Dealt;
    var toSend := counts[me] - share;
    var q := env(tick0, q1);
    Prefixes(q0[me], q1[me], q[me]);
    var kept, taken := TakeVictims(q[me], toSend);
    ghost var turn := Turn(q1, q, q[me := kept]);
    LinkedStep(env, q0, trace0, q1, turn);
    ghost var mid := trace0 + [turn];
    q := q[me := kept];
    if Quiet(env) && q1 == q0 { RoomSame(q0, q, 0, me, share); }
    var victims, given, found, tick;
    q, victims, toSend, given, found, tick, trace := PlaceAll(env, q0, mid, q, tick0 + 1, me, cur, share, taken);
    PlacingParts(env, q0, mid, trace, q, given, found, me, share, toSend);
    DealtParts(taken, cur, victims, toSend, given);
    ghost var placed, q2 := trace, q;
    var late;
    q, late, trace := PutBack(env, q0, placed, q, tick, me, kept, victims);
    r := Outcome(q, counts, share, kept, taken, |taken| - toSend, given, found, late);
    Sent(env, q0, trace0, turn, placed, trace, q2, me, cur, r);
    if Quiet(env) && q1 == q0 && |taken| <= Room(q0, 0, me, share) { SentAlone(q0, turn.after, q2, me, r); }
  }

  lemma PlacingParts(env: Env, init: Queues, trace0: seq<Turn>, trace: seq<Turn>, q: Queues, given: Queues,
                     found: seq<nat>, me: nat, share: nat, toSend: nat)
    requires Placing(env, init, trace0, trace, q, given, found, me, share, toSend)
    ensures Linked(env, init, trace, q) && trace0 <= trace && Given(given, me) == []
  {
    hide Linked;
  }

  /** The turns put together. */
  lemma Sent(env: Env, q0: Queues, trace0: seq<Turn>, turn: Turn, placed: seq<Turn>, trace: seq<Turn>, q2: Queues,
             me: nat, cur: Tid, r: Outcome)
    requires r.dealt <= |r.taken| && |trace0| == |q0| && CountTurns(trace0, r.counts) && TakeTurn(turn, me, r.kept, r.taken)
    requires Placing(env, q0, trace0 + [turn], placed, q2, r.given, r.found, me, r.share, |r.taken| - r.dealt)
    requires |r.given| <= |q0| && (r.dealt < |r.taken| ==> |r.given| == |q0|)
    requires if Left(r, cur) == [] then trace == placed
             else |trace| == |placed| + 1 && placed <= trace && ReturnTurn(trace[|placed|], me, Left(r, cur))
    ensures CountTurns(trace, r.counts) && SendTurns(trace, |q0|, me, cur, r)
  {
    hide Linked, CountTurns, PlaceTurns, Filled, Only;
    PlaceMore(placed, |q0| + 1, r.given, r.found, me, r.share, trace);
    CountMore(trace0, r.counts, trace);
    assert trace[|q0|] == placed[|q0|] == (trace0 + [turn])[|q0|];
  }

  lemma SentAlone(q0: Queues, q1: Queues, q2: Queues, me: nat, r: Outcome)
    requires me < |q0| == |q1| == |r.q| && q0[me] == r.kept + r.taken && q1 == q0[me := r.kept]
    requires Undisturbed(q1, q2, r.given, me, r.share) && Given(r.given, me) == []
    requires r.q == q2[me := r.q[me]] && r.late == q2[me][|r.kept|..]
    ensures r.late == []
    ensures forall j :: 0 <= j < |q0| && j != me ==> r.q[j] == q0[j] + Given(r.given, j) && |r.q[j]| <= Max(|q0[j]|, r.share)
  {
    hide Given, Max;
    assert q2[me] == r.kept + [];
  }

  /** The leftover victims go to the end of the own queue, behind what arrived there meanwhile. */
  method PutBack(env: Env, ghost init: Queues, ghost trace0: seq<Turn>, q1: Queues, tick: nat, me: nat,
                 kept: seq<Tid>, victims: seq<Tid>)
    returns (q: Queues, late: seq<Tid>, ghost trace: seq<Turn>)
    requires Allowed(env, me) && me < |q1| == |init| && Linked(env, init, trace0, q1) && tick == |trace0| && kept <= q1[me]
    ensures Linked(env, init, trace, q) && |q| == |q1| && q[me] == kept + late + victims
    ensures if victims == [] then trace == trace0
            else |trace| == |trace0| + 1 && trace0 <= trace && ReturnTurn(trace[|trace0|], me, victims)
    ensures Quiet(env) ==> q == q1[me := q1[me] + victims] && late == q1[me][|kept|..]
  {
    hide Linked;
    q, late, trace := q1, q1[me][|kept|..], trace0;
    assert q1[me] == kept + late;
    if victims != [] {
      q := env(tick, q);
      late := q[me][|kept|..];
      Prefixes(kept, q1[me], q[me]);
      ghost var turn := Turn(q1, q, q[me := q[me] + victims]);
      LinkedStep(env, init, trace0, q1, turn);
      trace := trace + [turn];
      q := q[me := q[me] + victims];
    } else {
      assert q[me] + victims == q[me] == kept + late + victims;
      assert q1[me := q1[me]] == q1;
    }
  }

  lemma Prefixes(a: seq<Tid>, b: seq<Tid>, c: seq<Tid>)
    requires a <= b <= c
    ensures a <= c && c == a + c[|a|..]
  {
  }

  lemma CountMore(trace: seq<Turn>, counts: seq<nat>, trace': seq<Turn>)
    requires CountTurns(trace, counts) && trace <= trace'
    ensures CountTurns(trace', counts)
  {
    assert forall k :: 0 <= k < |trace| ==> trace'[k] == trace[k];
  }

  lemma PlaceMore(trace: seq<Turn>, base: nat, given: Queues, found: seq<nat>, me: nat, share: nat, trace': seq<Turn>)
    requires PlaceTurns(trace, base, given, found, me, share) && trace <= trace'
    ensures PlaceTurns(trace', base, given, found, me, share)
    ensures Filled(trace, base, |given|, me, share) ==> Filled(trace', base, |given|, me, share)
  {
    assert forall k :: 0 <= k < |trace| ==> trace'[k] == trace[k];
  }

  // --------------------------------------------------------------- conservation

  /** What the own queue held and gained meanwhile is what it holds now and what was given away; the
      current thread was not. */
  lemma OwnConserved(env: Env, q0: Queues, me: nat, cur: Tid, r: Outcome, trace: seq<Turn>)
    requires me < |q0| && Migrated(env, q0, me, cur, r, trace)
    ensures multiset(r.q[me]) + multiset(Flat(r.given)) == multiset(r.kept + r.taken) + multiset(r.late)
    ensures forall i :: 0 <= i < |Flat(r.given)| ==> Flat(r.given)[i] != cur
  {
    hide Sum, Digits.DivRoundUp, SendTurns, CountTurns, Linked;
    OnlyCur(r.taken[..r.dealt], cur);
    assert r.taken == r.taken[..r.dealt] + r.taken[r.dealt..];
  }

  /** How often t is in l, and how often it is queued anywhere. */
  function Occurs(l: seq<Tid>, t: Tid): nat {
    multiset(l)[t]
  }

  function Queued(q: Queues, t: Tid): nat {
    if q == [] then 0 else Queued(q[..|q| - 1], t) + Occurs(q[|q| - 1], t)
  }

  /** What the other CPUs brought, less what they took away, over all turns. */
  function Brought(trace: seq<Turn>, t: Tid): int {
    if trace == [] then 0
    else Brought(trace[..|trace| - 1], t) + Queued(trace[|trace| - 1].seen, t) - Queued(trace[|trace| - 1].before, t)
  }

  /** What this CPU added, less what it took away, over all turns. */
  function Made(trace: seq<Turn>, t: Tid): int {
    if trace == [] then 0
    else Made(trace[..|trace| - 1], t) + Queued(trace[|trace| - 1].after, t) - Queued(trace[|trace| - 1].seen, t)
  }

  lemma {:induction false} Telescopes(env: Env, q0: Queues, trace: seq<Turn>, q: Queues, t: Tid)
    requires Linked(env, q0, trace, q)
    ensures Queued(q, t) == Queued(q0, t) + Brought(trace, t) + Made(trace, t)
    decreases |trace|
  {
    hide Queued;
    if trace == [] {
    } else {
      Telescopes(env, q0, trace[..|trace| - 1], trace[|trace| - 1].before, t);
    }
  }

  lemma MadeNext(trace: seq<Turn>, k: nat, t: Tid)
    requires k < |trace|
    ensures Made(trace[..k + 1], t) == Made(trace[..k], t) + Queued(trace[k].after, t) - Queued(trace[k].seen, t)
  {
    assert trace[..k + 1][..k] == trace[..k];
  }

  lemma Plus(a: seq<Tid>, b: seq<Tid>, t: Tid)
    ensures Occurs(a + b, t) == Occurs(a, t) + Occurs(b, t) && Occurs([], t) == 0
  {
  }

  /** Only the queue that changes makes a difference. */
  lemma {:induction false} QueuedUpdate(q: Queues, j: nat, l: seq<Tid>, t: Tid)
    requires j < |q|
    ensures Queued(q[j := l], t) == Queued(q, t) - Occurs(q[j], t) + Occurs(l, t)
    decreases |q|
  {
    hide Occurs;
    var n := |q| - 1;
    if j == n {
      assert q[j := l][..n] == q[..n];
    } else {
      assert q[j := l][..n] == q[..n][j := l];
      QueuedUpdate(q[..n], j, l, t);
    }
  }

  lemma {:induction false} FlatOccurs(q: Queues, t: Tid)
    ensures Occurs(Flat(q), t) == Queued(q, t)
  {
    hide Occurs;
    if q == [] {
      Plus([], [], t);
    } else {
      var l := |q| - 1;
      FlatOccurs(q[..l], t);
      Plus(Flat(q[..l]), q[l], t);
    }
  }

  lemma {:induction false} MadeCounting(trace: seq<Turn>, counts: seq<nat>, k: nat, t: Tid)
    requires CountTurns(trace, counts) && k <= |counts|
    ensures Made(trace[..k], t) == 0
  {
    hide Queued;
    if k == 0 {
    } else {
      MadeCounting(trace, counts, k - 1, t);
      MadeNext(trace, k - 1, t);
    }
  }

  /** The visits added what was given. */
  lemma {:induction false} MadePlacing(trace: seq<Turn>, base: nat, given: Queues, found: seq<nat>, me: nat,
                                       share: nat, i: nat, t: Tid)
    requires PlaceTurns(trace, base, given, found, me, share) && i <= |given|
    ensures base + Rank(i, me) <= |trace|
    ensures Made(trace[..base + Rank(i, me)], t) == Made(trace[..base], t) + Queued(given[..i], t)
  {
    hide Made, Occurs;
    if i == 0 {
    } else {
      var j := i - 1;
      MadePlacing(trace, base, given, found, me, share, j, t);
      assert given[..i][..j] == given[..j];
      if j == me {
        Plus([], [], t);
      } else {
        var k := base + Rank(j, me);
        assert PlaceTurn(trace[k], j, given[j], found[j], share);
        MadeNext(trace, k, t);
        QueuedUpdate(trace[k].seen, j, trace[k].seen[j] + given[j], t);
        Plus(trace[k].seen[j], given[j], t);
      }
    }
  }

  lemma VictimsAccounted(r: Outcome, cur: Tid, t: Tid)
    requires r.dealt <= |r.taken| && Flat(r.given) == Without(r.taken[..r.dealt], cur)
    ensures Occurs(r.taken, t) == Queued(r.given, t) + Occurs(Left(r, cur), t)
  {
    OnlyCur(r.taken[..r.dealt], cur);
    FlatOccurs(r.given, t);
    var a, b := r.taken[..r.dealt], r.taken[r.dealt..];
    assert r.taken == a + b;
    assert (multiset(Only(a, cur)) + multiset(Without(a, cur)))[t] == multiset(a)[t];
  }

  /** Whatever this CPU takes off a queue it puts on one. */
  lemma MadeNothing(env: Env, q0: Queues, me: nat, cur: Tid, r: Outcome, trace: seq<Turn>, t: Tid)
    requires me < |q0| && Migrated(env, q0, me, cur, r, trace)
    ensures Made(trace, t) == 0
  {
    hide Sum, Digits.DivRoundUp, Flat, Only, Without, Linked, CountTurns, PlaceTurns, Filled, Made, Queued, Occurs;
    var n := |q0|;
    MadeCounting(trace, r.counts, n, t);
    assert trace[..|trace|] == trace;
    if r.counts[me] >= r.share {
      var m := n + 1 + Rank(|r.given|, me);
      MadeNext(trace, n, t);
      QueuedUpdate(trace[n].seen, me, r.kept, t);
      Plus(r.kept, r.taken, t);
      MadePlacing(trace, n + 1, r.given, r.found, me, r.share, |r.given|, t);
      assert r.given[..|r.given|] == r.given;
      VictimsAccounted(r, cur, t);
      if Left(r, cur) == [] {
        Plus([], [], t);
      } else {
        MadeNext(trace, m, t);
        QueuedUpdate(trace[m].seen, me, trace[m].seen[me] + Left(r, cur), t);
        Plus(trace[m].seen[me], Left(r, cur), t);
      }
    }
  }

  /** Conservation over the whole machine, whatever the interference: every thread is queued as often
      as before, plus what the other CPUs brought and less what they took. */
  lemma AllConserved(env: Env, q0: Queues, me: nat, cur: Tid, r: Outcome, trace: seq<Turn>, t: Tid)
    requires me < |q0| && Migrated(env, q0, me, cur, r, trace)
    ensures Queued(r.q, t) == Queued(q0, t) + Brought(trace, t)
  {
    hide Sum, Digits.DivRoundUp, Linked, SendTurns, CountTurns, Flat, Only, Without, Made, Queued;
    Telescopes(env, q0, trace, r.q, t);
    MadeNothing(env, q0, me, cur, r, trace, t);
  }

  /** The other CPUs only add to queues. */
  ghost predicate OnlyAdds(env: Env) {
    forall k, q, t :: Queued(env(k, q), t) >= Queued(q, t)
  }

  lemma {:induction false} BroughtSome(env: Env, q0: Queues, trace: seq<Turn>, q: Queues, t: Tid)
    requires Linked(env, q0, trace, q)
    ensures OnlyAdds(env) ==> Brought(trace, t) >= 0
    ensures Quiet(env) ==> Brought(trace, t) == 0
    decreases |trace|
  {
    hide Queued;
    if trace == [] {
    } else {
      BroughtSome(env, q0, trace[..|trace| - 1], trace[|trace| - 1].before, t);
    }
  }

  /** So no queued thread is lost while others only add, and nothing changes if nobody interferes. */
  lemma NoneLost(env: Env, q0: Queues, me: nat, cur: Tid, r: Outcome, trace: seq<Turn>, t: Tid)
    requires me < |q0| && Migrated(env, q0, me, cur, r, trace)
    ensures OnlyAdds(env) ==> Queued(r.q, t) >= Queued(q0, t)
    ensures Quiet(env) ==> Queued(r.q, t) == Queued(q0, t)
  {
    hide Sum, Digits.DivRoundUp, Linked, SendTurns, CountTurns, Flat, Only, Without, Queued, Brought;
    AllConserved(env, q0, me, cur, r, trace, t);
    BroughtSome(env, q0, trace, r.q, t);
  }

  /** Every CPU that was given threads had a turn: its queue, as found under its lock, was below the
      share; the threads are on it afterwards; and it is not above the share then. */
  lemma NeverOverfilled(env: Env, q0: Queues, me: nat, cur: Tid, r: Outcome, trace: seq<Turn>, j: nat)
    requires me < |q0| && Migrated(env, q0, me, cur, r, trace) && j < |r.given| && r.given[j] != []
    ensures j != me && |q0| + 1 + Rank(j, me) < |trace| && j < |r.found|
    ensures PlaceTurn(trace[|q0| + 1 + Rank(j, me)], j, r.given[j], r.found[j], r.share)
  {
    hide Sum, Digits.DivRoundUp, Linked, CountTurns, Flat, Only, Without, Filled, PlaceTurns, PlaceTurn;
    TurnOf(trace, |q0| + 1, r.given, r.found, me, r.share, j);
  }

  lemma TurnOf(trace: seq<Turn>, base: nat, given: Queues, found: seq<nat>, me: nat, share: nat, j: nat)
    requires PlaceTurns(trace, base, given, found, me, share) && j < |given| && given[j] != []
    ensures j != me && base + Rank(j, me) < |trace| && j < |found|
    ensures PlaceTurn(trace[base + Rank(j, me)], j, given[j], found[j], share)
  {
    hide PlaceTurn;
  }

  /** A CPU at or above its share ends exactly at it, plus the current thread when that was among
      the victims; a CPU below it is left alone; no other CPU is raised above the share. */
  lemma Balanced(env: Env, q0: Queues, me: nat, cur: Tid, r: Outcome, trace: seq<Turn>)
    requires me < |q0| && Migrated(env, q0, me, cur, r, trace) && Alone(q0, me, r)
    ensures |q0[me]| >= r.share ==> |r.q[me]| == r.share + |Only(r.taken, cur)|
    ensures cur !in q0[me] ==> Only(r.taken, cur) == []
    ensures |q0[me]| < r.share ==> r.q == q0
    ensures r.share == Digits.DivRoundUp(Total(q0), |q0|)
    ensures forall j :: 0 <= j < |q0| && j != me && |q0[j]| <= r.share ==> |r.q[j]| <= r.share
  {
    hide Sum, Digits.DivRoundUp, Only, Without, Flat, Given, Linked, CountTurns, PlaceTurns;
    assert r.taken[..r.dealt] == r.taken && r.taken[r.dealt..] == [];
    CurMet(r.taken, cur);
    if |q0[me]| < r.share { LeftAlone(env, q0, me, cur, r, trace); }
  }

  lemma CurMet(l: seq<Tid>, cur: Tid)
    ensures cur !in l ==> Only(l, cur) == []
  {
    OnlyCur(l, cur);
    if Only(l, cur) != [] {
      assert Only(l, cur)[0] in multiset(Only(l, cur));
      assert cur in multiset(l);
    }
  }

  lemma LeftAlone(env: Env, q0: Queues, me: nat, cur: Tid, r: Outcome, trace: seq<Turn>)
    requires me < |q0| && Migrated(env, q0, me, cur, r, trace) && Alone(q0, me, r) && |q0[me]| < r.share
    ensures r.q == q0
  {
    hide Sum, Digits.DivRoundUp, Flat, Linked, CountTurns;
    assert r.taken[..r.dealt] == [] && r.taken[r.dealt..] == [];
    NothingGiven(r.given);
    assert r.q[me] == q0[me];
    assert forall j :: 0 <= j < |q0| ==> r.q[j] == q0[j];
  }

  lemma {:induction false} NothingGiven(given: Queues)
    requires Flat(given) == []
    ensures forall j :: 0 <= j ==> Given(given, j) == []
  {
    if given == [] {
    } else {
      var l := |given| - 1;
      assert Flat(given) == Flat(given[..l]) + given[l];
      assert |given[l]| == 0;
      NothingGiven(given[..l]);
      forall j | 0 <= j ensures Given(given, j) == [] {
        if j < l { assert Given(given[..l], j) == []; }
      }
    }
  }
}
