/** Doubly linked thread lists with bookend nodes (kern/thread/threadlist.c). */
module ThreadList {

  class Node {
    var prev: Node?
    var next: Node?
    var self: Thread?

    /** threadlistnode_init, for a bookend when t is null. */
    constructor (t: Thread?)
      ensures prev == null && next == null && self == t
    {
      prev, next, self := null, null, t;
    }
  }

  class Thread {
    const listnode: Node

    constructor (n: Node)
      ensures listnode == n
    {
      listnode := n;
    }
  }

  /** A thread that is on no list. */
  ghost predicate Unlisted(t: Thread)
    reads t.listnode
  {
    t.listnode.prev == null && t.listnode.next == null && t.listnode.self == t
  }

  function Reverse<T>(s: seq<T>): (r: seq<T>)
    ensures |r| == |s| && forall i :: 0 <= i < |s| ==> r[i] == s[|s| - 1 - i]
  {
    if s == [] then [] else Reverse(s[1..]) + [s[0]]
  }

  class List {
    const head: Node
    const tail: Node
    var count: nat
    /** The threads on the list, in order, and the chain of their nodes with the bookends. */
    ghost var threads: seq<Thread>
    ghost var chain: seq<Node>

    /** The links spell out `threads` in both directions. */
    ghost predicate Linked()
      reads this, chain
    {
      && |chain| == |threads| + 2 && chain[0] == head && chain[|threads| + 1] == tail
      && (forall i :: 0 <= i < |threads| ==> threads[i].listnode == chain[i + 1])
      && (forall i :: 0 <= i < |threads| ==> chain[i + 1].self == threads[i])
      && head.prev == null && tail.next == null && head.self == null && tail.self == null
      && (forall i {:trigger chain[i].next} :: 0 <= i <= |threads| ==> chain[i].next == chain[i + 1])
      && (forall i {:trigger chain[i].prev} :: 0 < i <= |threads| + 1 ==> chain[i].prev == chain[i - 1])
    }

    ghost predicate Valid()
      reads this, chain
    {
      Linked() && count == |threads|
    }

    /** threadlist_init. */
    constructor ()
      ensures Valid() && threads == [] && fresh(head) && fresh(tail)
    {
      var h := new Node(null);
      var t := new Node(null);
      head, tail, count, threads, chain := h, t, 0, [], [h, t];
      new;
      h.next := t;
      t.prev := h;
    }

    /** The chain has no loops: its nodes are distinct. */
    lemma {:induction false} Distinct(i: nat, j: nat)
      requires Linked() && i < j < |chain|
      ensures chain[i] != chain[j]
      decreases |chain| - j
    {
      assert chain[i].next == chain[i + 1];
      if j <= |threads| {
        Distinct(i + 1, j + 1);
        assert chain[j].next == chain[j + 1];
      }
    }

    lemma AllDistinct()
      requires Linked()
      ensures forall i, j :: 0 <= i < j < |chain| ==> chain[i] != chain[j]
    {
      forall i, j | 0 <= i < j < |chain| ensures chain[i] != chain[j] {
        Distinct(i, j);
      }
    }

    lemma UnlistedIsOff(t: Thread)
      requires Linked() && Unlisted(t)
      ensures t.listnode !in chain && t !in threads
    {
      forall i | 0 <= i < |chain| ensures chain[i] != t.listnode {
        if i <= |threads| { assert chain[i].next == chain[i + 1]; }
      }
    }

    // ------------------------------------------------------------- internal

    /** threadlist_insertafternode: t goes behind the k-th node of the chain. */
    method InsertAfterNode(onlist: Node, t: Thread, ghost k: nat)
      requires Linked() && Unlisted(t) && k <= |threads| && onlist == chain[k]
      modifies `threads, `chain, chain, t.listnode
      ensures Linked() && threads == old(threads)[..k] + [t] + old(threads)[k..]
      ensures chain == old(chain)[..k + 1] + [t.listnode] + old(chain)[k + 1..]
    {
      AllDistinct();
      UnlistedIsOff(t);
      var addee := t.listnode;
      assert onlist.next == chain[k + 1] != onlist;
      assert addee != onlist && addee != chain[k + 1];
      addee.prev := onlist;
      addee.next := onlist.next;
      addee.prev.next := addee;
      addee.next.prev := addee;
      threads := threads[..k] + [t] + threads[k..];
      chain := chain[..k + 1] + [addee] + chain[k + 1..];
    }

    /** threadlist_insertbeforenode: t goes before the k+1-st node of the chain. */
    method InsertBeforeNode(t: Thread, onlist: Node, ghost k: nat)
      requires Linked() && Unlisted(t) && k <= |threads| && onlist == chain[k + 1]
      modifies `threads, `chain, chain, t.listnode
      ensures Linked() && threads == old(threads)[..k] + [t] + old(threads)[k..]
      ensures chain == old(chain)[..k + 1] + [t.listnode] + old(chain)[k + 1..]
    {
      AllDistinct();
      UnlistedIsOff(t);
      var addee := t.listnode;
      assert onlist.prev == chain[k];
      addee.prev := onlist.prev;
      addee.next := onlist;
      addee.prev.next := addee;
      addee.next.prev := addee;
      threads := threads[..k] + [t] + threads[k..];
      chain := chain[..k + 1] + [addee] + chain[k + 1..];
    }

    /** threadlist_removenode, of the k-th thread. */
    method RemoveNode(tln: Node, ghost k: nat)
      requires Linked() && k < |threads| && tln == chain[k + 1]
      modifies `threads, `chain, chain
      ensures Linked() && threads == old(threads)[..k] + old(threads)[k + 1..]
      ensures chain == old(chain)[..k + 1] + old(chain)[k + 2..]
      ensures Unlisted(old(threads)[k]) && tln.self == old(threads)[k]
    {
      AllDistinct();
      assert tln.prev == chain[k] && tln.next == chain[k + 2];
      tln.prev.next := tln.next;
      tln.next.prev := tln.prev;
      tln.prev := null;
      tln.next := null;
      threads := threads[..k] + threads[k + 1..];
      chain := chain[..k + 1] + chain[k + 2..];
    }

    // --------------------------------------------------------------- public

    /** threadlist_isempty; the other test, on the links, says the same. */
    method IsEmpty() returns (r: bool)
      requires Valid()
      ensures r <==> threads == []
      ensures r <==> head.next == tail
    {
      AllDistinct();
      assert chain[0].next == chain[1];
      r := count == 0;
    }

    method AddHead(t: Thread)
      requires Valid() && Unlisted(t)
      modifies this, chain, t.listnode
      ensures Valid() && threads == [t] + old(threads)
      ensures chain == old(chain)[..1] + [t.listnode] + old(chain)[1..]
    {
      InsertAfterNode(head, t, 0);
      count := count + 1;
    }

    method AddTail(t: Thread)
      requires Valid() && Unlisted(t)
      modifies this, chain, t.listnode
      ensures Valid() && threads == old(threads) + [t]
      ensures chain == old(chain)[..|old(chain)| - 1] + [t.listnode, tail]
    {
      InsertBeforeNode(t, tail, |threads|);
      count := count + 1;
    }

    /** threadlist_remhead: the first thread, or null when there is none. */
    method RemHead() returns (t: Thread?)
      requires Valid()
      modifies this, chain
      ensures Valid()
      ensures old(threads) == [] ==> t == null && threads == [] && chain == old(chain)
      ensures old(threads) != [] ==> t == old(threads)[0] && threads == old(threads)[1..] && Unlisted(t)
      ensures old(threads) != [] ==> chain == old(chain)[..1] + old(chain)[2..]
    {
      assert chain[0].next == chain[1];
      var tln := head.next;
      if threads != [] { assert chain[1].next == chain[2]; }
      if tln.next == null {
        return null;
      }
      RemoveNode(tln, 0);
      count := count - 1;
      return tln.self;
    }

    /** threadlist_remtail: the last thread, or null when there is none. */
    method RemTail() returns (t: Thread?)
      requires Valid()
      modifies this, chain
      ensures Valid()
      ensures old(threads) == [] ==> t == null && threads == [] && chain == old(chain)
      ensures old(threads) != [] ==>
        var n := |old(threads)| - 1;
        t == old(threads)[n] && threads == old(threads)[..n] && Unlisted(t) && chain == old(chain)[..n + 1] + [tail]
    {
      assert chain[|threads| + 1].prev == chain[|threads|];
      var tln := tail.prev;
      if threads != [] { assert chain[|threads|].prev == chain[|threads| - 1]; }
      if tln.prev == null {
        return null;
      }
      RemoveNode(tln, |threads| - 1);
      count := count - 1;
      return tln.self;
    }

    method InsertAfter(onlist: Thread, addee: Thread, ghost k: nat)
      requires Valid() && Unlisted(addee) && k < |threads| && threads[k] == onlist
      modifies this, chain, addee.listnode
      ensures Valid() && threads == old(threads)[..k + 1] + [addee] + old(threads)[k + 1..]
    {
      InsertAfterNode(onlist.listnode, addee, k + 1);
      count := count + 1;
    }

    method InsertBefore(addee: Thread, onlist: Thread, ghost k: nat)
      requires Valid() && Unlisted(addee) && k < |threads| && threads[k] == onlist
      modifies this, chain, addee.listnode
      ensures Valid() && threads == old(threads)[..k] + [addee] + old(threads)[k..]
    {
      InsertBeforeNode(addee, onlist.listnode, k);
      count := count + 1;
    }

    method Remove(t: Thread, ghost k: nat)
      requires Valid() && k < |threads| && threads[k] == t
      modifies this, chain
      ensures Valid() && threads == old(threads)[..k] + old(threads)[k + 1..] && Unlisted(t)
    {
      RemoveNode(t.listnode, k);
      count := count - 1;
    }

    // ---------------------------------------------------------------- walks

    /** Following `next` from the head visits the threads in order. */
    method WalkForward() returns (s: seq<Thread>)
      requires Valid()
      ensures s == threads
    {
      s := [];
      assert chain[0].next == chain[1];
      var n := head.next;
      ghost var k := 1;
      while n.next != null
        invariant 1 <= k <= |threads| + 1 && n == chain[k] && s == threads[..k - 1]
        decreases |threads| - k
      {
        assert k <= |threads| && chain[k].next == chain[k + 1] && chain[(k - 1) + 1].self == threads[k - 1];
        var t: Thread := n.self;
        s := s + [t];
        n := n.next;
        k := k + 1;
      }
    }

    /** Following `prev` from the tail visits them in the opposite order. */
    method WalkBackward() returns (s: seq<Thread>)
      requires Valid()
      ensures s == Reverse(threads)
    {
      s := [];
      assert chain[|threads| + 1].prev == chain[|threads|];
      var n := tail.prev;
      ghost var k := |threads|;
      while n.prev != null
        invariant 0 <= k <= |threads| && n == chain[k]
        invariant |s| == |threads| - k && forall i :: 0 <= i < |s| ==> s[i] == threads[|threads| - 1 - i]
        decreases k
      {
        assert k > 0 && chain[k].prev == chain[k - 1] && chain[(k - 1) + 1].self == threads[k - 1];
        var t: Thread := n.self;
        s := s + [t];
        n := n.prev;
        k := k - 1;
      }
    }
  }

  /** Lists with different tails share no node: a node's links lead to one tail only. */
  lemma {:induction false} OnOneChain(a: List, b: List, i: nat, j: nat)
    requires a.Linked() && b.Linked() && a.tail != b.tail
    requires i < |a.chain| && j < |b.chain|
    ensures a.chain[i] != b.chain[j]
    decreases |a.chain| - i
  {
    if i + 1 < |a.chain| {
      assert a.chain[i].next == a.chain[i + 1];
      if j + 1 < |b.chain| {
        OnOneChain(a, b, i + 1, j + 1);
        assert b.chain[j].next == b.chain[j + 1];
      }
    } else if j + 1 < |b.chain| {
      assert b.chain[j].next == b.chain[j + 1];
    }
  }

  /** A thread is on at most one list. */
  lemma OnOneList(a: List, b: List)
    requires a.Valid() && b.Valid() && a.tail != b.tail
    ensures a != b && (forall i :: 0 <= i < |a.chain| ==> a.chain[i] !in b.chain)
    ensures forall t :: t in a.threads ==> t !in b.threads
  {
    forall i | 0 <= i < |a.chain| ensures a.chain[i] !in b.chain {
      forall j | 0 <= j < |b.chain| ensures b.chain[j] != a.chain[i] {
        OnOneChain(a, b, i, j);
      }
    }
    forall t | t in a.threads ensures t !in b.threads {
      var i :| 0 <= i < |a.threads| && a.threads[i] == t;
      assert a.chain[i + 1] == t.listnode;
    }
  }

  /** Take the head of one list to the tail of another. */
  method MoveHead(from: List, to: List) returns (moved: bool)
    requires from.Valid() && to.Valid() && from.tail != to.tail
    modifies from, to, from.chain, to.chain
    ensures from.Valid() && to.Valid()
    ensures moved <==> old(from.threads) != []
    ensures moved ==> from.threads == old(from.threads)[1..] && to.threads == old(to.threads) + [old(from.threads)[0]]
    ensures !moved ==> from.threads == [] && to.threads == old(to.threads)
    ensures forall i :: 0 <= i < |from.chain| ==> from.chain[i] in old(from.chain)
    ensures forall i :: 0 <= i < |to.chain| ==> to.chain[i] in old(from.chain) + old(to.chain)
  {
    OnOneList(from, to);
    OnOneList(to, from);
    var t := from.RemHead();
    assert to.Valid();
    moved := t != null;
    if moved {
      from.UnlistedIsOff(t);
      to.UnlistedIsOff(t);
      OnOneList(from, to);
      to.AddTail(t);
    }
  }

  /** The loop of wchan_wakeall: move every thread to the end of another list, in order. */
  method MoveAll(from: List, to: List)
    requires from.Valid() && to.Valid() && from.tail != to.tail
    modifies from, to, from.chain, to.chain
    ensures from.Valid() && to.Valid()
    ensures from.threads == [] && to.threads == old(to.threads) + old(from.threads)
  {
    var moved := true;
    while moved
      invariant from.Valid() && to.Valid()
      invariant forall i :: 0 <= i < |from.chain| ==> from.chain[i] in old(from.chain)
      invariant forall i :: 0 <= i < |to.chain| ==> to.chain[i] in old(from.chain) + old(to.chain)
      invariant to.threads + from.threads == old(to.threads) + old(from.threads)
      invariant !moved ==> from.threads == []
      decreases |from.threads|, moved
    {
      moved := MoveHead(from, to);
    }
  }
}
