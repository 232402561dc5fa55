/** The two-handed clock (second_chance_replace, kern/vm/addrspace.c) over any number of frames
    and any angle between the hands; the kernel has MAX_PM_SIZE = 30 frames and CLOCK_ANGLE = 8. */
module Clock {
  import opened Digits

  const MAX_PM_SIZE: nat := 30
  const CLOCK_ANGLE: nat := 8

  lemma StepMod(x: nat, n: nat)
    requires n > 0
    ensures (x % n + 1) % n == (x + 1) % n
  {
    DivModParts(x, n);
    var q, r := x / n, x % n;
    if r + 1 < n {
      DivModUnique(x + 1, n, q, r + 1);
      DivModUnique(r + 1, n, 0, r + 1);
    } else {
      NextMultiple(q, n);
      DivModUnique(x + 1, n, q + 1, 0);
      DivModUnique(n, n, 1, 0);
    }
  }

  lemma NextMultiple(q: int, n: int)
    ensures (q + 1) * n == q * n + n
  {
  }

  /** Two positions on the same frame are a full circle apart. */
  lemma FullCircle(x: nat, y: nat, n: nat)
    requires n > 0 && x < y && x % n == y % n
    ensures y - x >= n
  {
    DivModParts(x, n);
    DivModParts(y, n);
    var p, q := x / n, y / n;
    if q <= p {
      MulLe(q, p, n);
      assert false;
    }
    MulLe(p + 1, q, n);
    NextMultiple(p, n);
  }

  /** Frame k was under a hand that went from position lo up to, and not into, hi. */
  ghost predicate Passed(k: nat, lo: nat, hi: nat, n: nat)
    requires n > 0
  {
    exists i :: lo <= i < hi && k == i % n
  }

  lemma PassedOn(k: nat, lo: nat, hi: nat, n: nat)
    requires n > 0 && Passed(k, lo, hi, n)
    ensures Passed(k, lo, hi + 1, n)
  {
  }

  /** The eviction hand ep, followed by the reference hand rp at a fixed angle ahead. */
  class TwoHands {
    const frames: nat
    const angle: nat
    var refs: array<bool>
    var ep: nat
    var rp: nat
    ghost var at: nat   // how far ep has come in all

    ghost predicate Valid()
      reads this
    {
      && frames > 0 && angle > 0 && refs.Length == frames
      && ep == at % frames && rp == (at + angle) % frames
    }

    /** page_frame_table_bootstrap; the hand positions are frame numbers only if the angle is
        below the number of frames. */
    constructor (n: nat, a: nat, r: array<bool>)
      requires 0 < a < n == r.Length
      ensures Valid() && frames == n && angle == a && refs == r && at == 0 && ep == 0 && rp == a
    {
      frames, angle, refs, ep, rp, at := n, a, r, 0, a, 0;
      new;
      DivModUnique(0, n, 0, 0);
      DivModUnique(a, n, 0, a);
    }

    /** Both hands move on by one frame. */
    method Advance()
      requires Valid()
      modifies this
      ensures Valid() && at == old(at) + 1 && refs == old(refs)
    {
      StepMod(at, frames);
      StepMod(at + angle, frames);
      ep, rp := (ep + 1) % frames, (rp + 1) % frames;
      at := at + 1;
    }

    /** Whatever the reference bits, the loop stops after at most `angle` advances, by its test and
        not by its bound, on a frame whose bit is clear; it passed referenced frames only, cleared
        the bits under the reference hand and no others; the hands end one further, at their
        angle. */
    method Replace() returns (frame: nat)
      requires Valid()
      modifies this, refs
      ensures Valid() && refs == old(refs)
      ensures old(at) < at <= old(at) + angle + 1
      ensures frame == (at - 1) % frames && frame < frames && !refs[frame]
      ensures forall k :: old(at) <= k < at - 1 ==> old(refs[k % frames]) && !refs[(k + angle) % frames]
      ensures forall k :: 0 <= k < frames && refs[k] != old(refs[k]) ==> Passed(k, old(at) + angle, at - 1 + angle, frames)
      ensures forall k :: 0 <= k < frames && !old(refs[k]) ==> !refs[k]
    {
      var i := 0;
      ghost var start := at;
      while i <= angle + 1
        invariant Valid() && refs == old(refs) && i <= angle + 2
        invariant at == start + i
        invariant i <= angle
        invariant i > 0 ==> !refs[(start + angle) % frames]
        invariant forall k :: 0 <= k < frames && !old(refs[k]) ==> !refs[k]
        invariant forall k :: start <= k < at ==> old(refs[k % frames]) && !refs[(k + angle) % frames]
        invariant forall k :: 0 <= k < frames && refs[k] != old(refs[k]) ==> Passed(k, start + angle, at + angle, frames)
      {
        if !refs[ep] {
          break;
        } else {
          assert old(refs[ep]);
          refs[rp] := false;
          ghost var lo, hi, n := start + angle, at + angle, frames;
          ghost var hi' := hi + 1;
          assert Passed(rp, lo, hi', n) by { assert rp == hi % n; }
          forall k | 0 <= k < n && Passed(k, lo, hi, n) ensures Passed(k, lo, hi', n) { PassedOn(k, lo, hi, n); }
          Advance();
        }
        i := i + 1;
      }
      frame := ep;
      Advance();
    }
  }

  // ------------------------------------------------------------------- whole runs

  lemma RoundsUpLeast(a: nat, b: nat, k: nat)
    requires b > 0 && k * b >= a
    ensures k >= DivRoundUp(a, b)
  {
    var q := DivRoundUp(a, b);
    DivModParts(a + b - 1, b);
    if k < q {
      MulLe(k + 1, q, b);
      NextMultiple(k, b);
      assert false;
    }
  }

  /** Successive picks lie 1 to `gap` positions apart. */
  predicate Spaced(pos: seq<nat>, gap: nat) {
    forall i :: 0 <= i < |pos| - 1 ==> pos[i] < pos[i + 1] <= pos[i] + gap
  }

  lemma {:induction false} Spread(pos: seq<nat>, gap: nat, i: nat, j: nat)
    requires Spaced(pos, gap) && i < j < |pos|
    ensures pos[i] < pos[j] && pos[j] - pos[i] <= (j - i) * gap
    decreases j
  {
    if i + 1 == j {
      assert (j - i) * gap == gap;
    } else {
      Spread(pos, gap, i, j - 1);
      NextMultiple(j - 1 - i, gap);
    }
  }

  /** No frame is picked again within fewer than frames / (angle + 1) calls, rounded up. */
  lemma NoEarlyReuse(pos: seq<nat>, angle: nat, n: nat, i: nat, j: nat)
    requires Spaced(pos, angle + 1) && i < j < |pos| && n > 0
    requires pos[i] % n == pos[j] % n
    ensures j - i >= DivRoundUp(n, angle + 1)
  {
    Spread(pos, angle + 1, i, j);
    FullCircle(pos[i], pos[j], n);
    RoundsUpLeast(n, angle + 1, j - i);
  }

  /** In the kernel, with 30 frames and an angle of 8, a frame is safe for four calls. */
  lemma KernelReuse(pos: seq<nat>, i: nat, j: nat)
    requires Spaced(pos, CLOCK_ANGLE + 1) && i < j < |pos| && pos[i] % MAX_PM_SIZE == pos[j] % MAX_PM_SIZE
    ensures j - i >= 4
  {
    NoEarlyReuse(pos, CLOCK_ANGLE, MAX_PM_SIZE, i, j);
  }

  /** Any number of replacements; before each one, accesses may leave the reference bits in any
      state at all. */
  method Run(hands: TwoHands, touches: seq<seq<bool>>) returns (picks: seq<nat>)
    requires hands.Valid() && forall i :: 0 <= i < |touches| ==> |touches[i]| == hands.frames
    modifies hands, hands.refs
    ensures hands.Valid() && |picks| == |touches|
    ensures forall i, j :: 0 <= i < j < |picks| && picks[i] == picks[j] ==> j - i >= DivRoundUp(hands.frames, hands.angle + 1)
  {
    hide DivRoundUp;
    picks := [];
    ghost var pos: seq<nat> := [];
    var n := 0;
    while n < |touches|
      invariant hands.Valid() && n <= |touches| && |picks| == |pos| == n && hands.refs == old(hands.refs)
      invariant Spaced(pos, hands.angle + 1)
      invariant n > 0 ==> hands.at == pos[n - 1] + 1
      invariant forall i :: 0 <= i < n ==> picks[i] == pos[i] % hands.frames
    {
      Touch(hands.refs, touches[n]);
      var frame := hands.Replace();
      picks, pos := picks + [frame], pos + [hands.at - 1];
      n := n + 1;
    }
    Reuses(picks, pos, hands.angle, hands.frames);
  }

  lemma Reuses(picks: seq<nat>, pos: seq<nat>, angle: nat, n: nat)
    requires Spaced(pos, angle + 1) && n > 0 && |picks| == |pos| && forall i :: 0 <= i < |pos| ==> picks[i] == pos[i] % n
    ensures forall i, j :: 0 <= i < j < |picks| && picks[i] == picks[j] ==> j - i >= DivRoundUp(n, angle + 1)
  {
    hide DivRoundUp, Spaced;
    forall i, j | 0 <= i < j < |picks| && picks[i] == picks[j] ensures j - i >= DivRoundUp(n, angle + 1) {
      NoEarlyReuse(pos, angle, n, i, j);
    }
  }

  method Touch(refs: array<bool>, bits: seq<bool>)
    requires |bits| == refs.Length
    modifies refs
    ensures refs[..] == bits
  {
    for k := 0 to refs.Length
      invariant refs[..k] == bits[..k]
    {
      refs[k] := bits[k];
    }
  }
}
