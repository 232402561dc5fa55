/** Positional numbers: digit sequences in a base, most significant digit first. */
module Digits {

  /** b to the power e. */
  function Pow(b: nat, e: nat): (r: nat)
    ensures b > 0 ==> r > 0
  {
    if e == 0 then 1
    else
      MulPositive(b, Pow(b, e - 1));
      b * Pow(b, e - 1)
  }

  /** The number written by the digits s, most significant first. */
  function Val(b: nat, s: seq<nat>): nat
  {
    if s == [] then 0 else s[0] * Pow(b, |s| - 1) + Val(b, s[1..])
  }

  predicate IsDigits(b: nat, s: seq<nat>) {
    forall i :: 0 <= i < |s| ==> s[i] < b
  }

  // ---------------------------------------------------------------- products

  lemma MulPositive(x: int, y: int)
    ensures x >= 0 && y >= 0 ==> x * y >= 0
    ensures x > 0 && y > 0 ==> x * y > 0
  {
  }

  lemma MulLe(x: int, y: int, c: int)
    requires x <= y && 0 <= c
    ensures x * c <= y * c
  {
  }

  lemma MulLt(x: int, y: int, c: int)
    requires x < y && 0 < c
    ensures x * c < y * c
  {
  }

  lemma Distribute(d: int, x: int, z: int, y: int)
    ensures d * (x * y) + z * y == (d * x + z) * y
  {
  }

  lemma DivModParts(x: int, d: int)
    requires d > 0
    ensures x == (x / d) * d + x % d && 0 <= x % d < d
  {
  }

  /** A number is determined by its quotient and remainder. */
  lemma DivModUnique(x: int, d: int, q: int, r: int)
    requires d > 0 && 0 <= r < d && x == q * d + r
    ensures x / d == q && x % d == r
  {
    var q', r' := x / d, x % d;
    assert x == q' * d + r';
    if q' < q {
      MulLe(q' + 1, q, d);
      assert false;
    } else if q < q' {
      MulLe(q + 1, q', d);
      assert false;
    }
  }

  /** The quotient, rounded up. */
  function DivRoundUp(a: nat, b: nat): nat
    requires b > 0
  {
    (a + b - 1) / b
  }

  lemma QuotientBelow(b: int, x: int, d: int, q: int, r: int)
    requires d > 0 && r >= 0 && x == q * d + r && x < b * d
    ensures q < b
  {
    if b <= q {
      MulLe(b, q, d);
      assert false;
    }
  }

  // ------------------------------------------------------------------ powers

  lemma {:induction false} PowAdd(b: nat, e: nat, f: nat)
    ensures Pow(b, e + f) == Pow(b, e) * Pow(b, f)
  {
    PowZero(b);
    hide Pow;
    if e > 0 {
      PowAdd(b, e - 1, f);
      PowStep(b, e - 1 + f);
      PowStep(b, e - 1);
      Associate(b, Pow(b, e - 1), Pow(b, f));
    }
  }

  lemma PowZero(b: nat)
    ensures Pow(b, 0) == 1
  {
  }

  lemma Associate(x: int, y: int, z: int)
    ensures x * (y * z) == (x * y) * z
  {
  }

  lemma PowStep(b: nat, e: nat)
    ensures Pow(b, e + 1) == b * Pow(b, e)
  {
  }

  lemma PowOne(b: nat)
    ensures Pow(b, 1) == b
  {
    assert Pow(b, 1) == b * Pow(b, 0);
  }

  lemma PowTwo(b: nat)
    ensures Pow(b, 2) == b * b
  {
    PowOne(b);
    assert Pow(b, 2) == b * Pow(b, 1);
  }

  // ------------------------------------------------------------ digit values

  /** Splitting a numeral anywhere. */
  lemma {:induction false} ValConcat(b: nat, s: seq<nat>, t: seq<nat>)
    ensures Val(b, s + t) == Val(b, s) * Pow(b, |t|) + Val(b, t)
  {
    if s == [] {
      assert s + t == t;
    } else {
      assert (s + t)[1..] == s[1..] + t;
      ValConcat(b, s[1..], t);
      PowAdd(b, |s| - 1, |t|);
      Distribute(s[0], Pow(b, |s| - 1), Val(b, s[1..]), Pow(b, |t|));
    }
  }

  lemma ValOne(b: nat, d: nat)
    ensures Val(b, [d]) == d
  {
    assert [d][1..] == [];
    assert d * Pow(b, 0) == d;
  }

  lemma ValSnoc(b: nat, s: seq<nat>, d: nat)
    ensures Val(b, s + [d]) == Val(b, s) * b + d
  {
    ValConcat(b, s, [d]);
    ValOne(b, d);
    PowOne(b);
  }

  lemma ValSplit(b: nat, s: seq<nat>, k: nat)
    requires k <= |s|
    ensures Val(b, s) == Val(b, s[..k]) * Pow(b, |s| - k) + Val(b, s[k..])
  {
    assert s == s[..k] + s[k..];
    ValConcat(b, s[..k], s[k..]);
  }

  lemma {:induction false} ValBound(b: nat, s: seq<nat>)
    requires IsDigits(b, s)
    ensures Val(b, s) < Pow(b, |s|)
  {
    if s != [] {
      ValBound(b, s[1..]);
      var p := Pow(b, |s| - 1);
      MulLe(s[0] + 1, b, p);
      assert (s[0] + 1) * p == s[0] * p + p;
    }
  }

  /** A numeral below b to the n, on n+k digits, starts with k zeros. */
  lemma {:induction false} ValSmall(b: nat, s: seq<nat>, n: nat)
    requires b > 0 && n <= |s| && IsDigits(b, s)
    requires Val(b, s) < Pow(b, n)
    ensures forall i :: 0 <= i < |s| - n ==> s[i] == 0
    ensures Val(b, s) == Val(b, s[|s| - n..])
  {
    if n < |s| {
      var p := Pow(b, |s| - 1);
      PowAdd(b, |s| - 1 - n, n);
      MulLe(1, Pow(b, |s| - 1 - n), Pow(b, n));
      if s[0] > 0 {
        MulLe(1, s[0], p);
        assert false;
      }
      ValSmall(b, s[1..], n);
      assert s[1..][|s| - 1 - n..] == s[|s| - n..];
      forall i | 0 <= i < |s| - n ensures s[i] == 0 {
        if i > 0 { assert s[i] == s[1..][i - 1]; }
      }
    } else {
      assert s[|s| - n..] == s;
    }
  }

  /** Leading zeros do not count. */
  lemma {:induction false} ValZeros(b: nat, s: seq<nat>, k: nat)
    requires k <= |s| && forall i :: 0 <= i < k ==> s[i] == 0
    ensures Val(b, s) == Val(b, s[k..])
  {
    if k > 0 {
      ValZeros(b, s[1..], k - 1);
      assert s[1..][k - 1..] == s[k..];
    } else {
      assert s[0..] == s;
    }
  }

  lemma ValFour(b: nat, s: seq<nat>)
    requires |s| == 4
    ensures Val(b, s) == ((s[0] * b + s[1]) * b + s[2]) * b + s[3]
  {
    assert s == ((([] + [s[0]]) + [s[1]]) + [s[2]]) + [s[3]];
    ValSnoc(b, [], s[0]);
    assert 0 * b == 0;
    ValSnoc(b, [] + [s[0]], s[1]);
    ValSnoc(b, [] + [s[0]] + [s[1]], s[2]);
    ValSnoc(b, [] + [s[0]] + [s[1]] + [s[2]], s[3]);
  }
}
