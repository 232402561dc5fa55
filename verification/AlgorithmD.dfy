/** Algorithm D of gcc-millicode qdivrem.c, for any digit counts.
 */
module AlgorithmD {
  import opened Digits
  import opened LongLong

  predicate AllDigits(b: nat, a: array<nat>)
    reads a
  {
    forall i :: 0 <= i < a.Length ==> a[i] < b
  }

  // -------------------------------------------------------------- D1: shifting

  /** Moving a digit x left by `two` splits it over two digits. */
  lemma ShiftDigit(b: nat, x: nat, two: nat, rest: nat)
    requires two > 0 && rest > 0 && b == two * rest && x < b
    ensures x * two == (x / rest) * b + (x % rest) * two
    ensures LHalf(b, x * two) == (x % rest) * two
    ensures LHalf(b, x * two) % two == 0
    ensures x / rest < two
    ensures (x % rest) * two <= b - two
  {
    DivModParts(x, rest);
    var hi, lo := x / rest, x % rest;
    ShiftSplit(hi, rest, lo, two);
    ShiftLow(b, lo, two, rest);
    DivModUnique(x * two, b, hi, lo * two);
    DivModUnique(lo * two, two, lo, 0);
    QuotientBelow(two, x, rest, hi, lo);
  }

  lemma ShiftLow(b: int, lo: int, two: int, rest: int)
    requires 0 <= lo < rest && two > 0 && b == two * rest
    ensures 0 <= lo * two <= b - two
  {
    MulPositive(lo, two);
    MulLe(lo + 1, rest, two);
  }

  lemma ShiftSplit(hi: int, rest: int, lo: int, two: int)
    ensures (hi * rest + lo) * two == hi * (two * rest) + lo * two
  {
  }

  /** The digit x moved left, with the high part of the next digit y moved in. */
  function ShiftIn(b: nat, x: nat, y: nat, two: nat, rest: nat): (d: nat)
    requires two > 0 && rest > 0 && b == two * rest && x < b && y < b
    ensures d < b
    ensures x * two < b ==> x * two <= d
  {
    ShiftDigit(b, x, two, rest);
    ShiftDigit(b, y, two, rest);
    assert x * two < b ==> LHalf(b, x * two) == x * two by {
      if x * two < b { DivModUnique(x * two, b, 0, x * two); }
    }
    Or(LHalf(b, x * two), y / rest, two)
  }

  lemma ShiftInZero(b: nat, x: nat, two: nat, rest: nat)
    requires two > 0 && rest > 0 && b == two * rest && x < b
    ensures ShiftIn(b, x, 0, two, rest) == LHalf(b, x * two)
  {
    DivModUnique(0, rest, 0, 0);
  }

  /** Every digit moved left, a zero following the last. */
  function ShiftAll(b: nat, s: seq<nat>, two: nat, rest: nat): (r: seq<nat>)
    requires two > 0 && rest > 0 && b == two * rest && IsDigits(b, s)
    ensures |r| == |s| && IsDigits(b, r)
  {
    if s == [] then []
    else [ShiftIn(b, s[0], if |s| > 1 then s[1] else 0, two, rest)] + ShiftAll(b, s[1..], two, rest)
  }

  /** Shifting multiplies by `two`, less what the first digit loses. */
  lemma {:induction false} ShiftAllVal(b: nat, s: seq<nat>, two: nat, rest: nat)
    requires two > 0 && rest > 0 && b == two * rest && IsDigits(b, s)
    ensures Val(b, ShiftAll(b, s, two, rest)) == Val(b, s) * two - (if s == [] then 0 else s[0] / rest) * Pow(b, |s|)
  {
    if s != [] {
      var next := if |s| > 1 then s[1] / rest else 0;
      ShiftAllVal(b, s[1..], two, rest);
      ShiftDigit(b, s[0], two, rest);
      if |s| == 1 { DivModUnique(0, rest, 0, 0); }
      var d := ShiftIn(b, s[0], if |s| > 1 then s[1] else 0, two, rest);
      ValHead(b, ShiftAll(b, s, two, rest), d, ShiftAll(b, s[1..], two, rest));
      ShiftAlgebra(b, two, Pow(b, |s| - 1), s[0], s[0] / rest, (s[0] % rest) * two, next, Val(b, s[1..]));
    }
  }

  lemma ShiftAlgebra(b: int, two: int, p: int, x: int, hi: int, lo: int, next: int, low: int)
    requires x * two == hi * b + lo
    ensures (lo + next) * p + (low * two - next * p) == (x * p + low) * two - hi * (b * p)
  {
    assert (x * two) * p == hi * (b * p) + lo * p;
    assert (x * p + low) * two == (x * two) * p + low * two;
  }

  lemma {:induction false} ShiftAllAt(b: nat, s: seq<nat>, two: nat, rest: nat, k: nat)
    requires two > 0 && rest > 0 && b == two * rest && IsDigits(b, s) && k < |s|
    ensures ShiftAll(b, s, two, rest)[k] == ShiftIn(b, s[k], if k + 1 < |s| then s[k + 1] else 0, two, rest)
  {
    if k > 0 { ShiftAllAt(b, s[1..], two, rest, k - 1); }
  }

  /** Shift the len+1 digits at p[o..] left by sh bits, in place. */
  method Shl(b: nat, h: nat, p: array<nat>, o: nat, len: nat, sh: nat)
    requires b == Pow(2, h) && 0 < sh < h
    requires o + len < p.Length && AllDigits(b, p)
    requires p[o] * Pow(2, sh) < b
    modifies p
    ensures AllDigits(b, p)
    ensures Val(b, p[o..o + len + 1]) == old(Val(b, p[o..o + len + 1])) * Pow(2, sh)
    ensures old(p[o]) * Pow(2, sh) <= p[o]
    ensures forall k :: 0 <= k < p.Length && !(o <= k <= o + len) ==> p[k] == old(p[k])
  {
    hide Val, Pow, ShiftAll, ShiftIn;
    var two, rest := Pow(2, sh), Pow(2, h - sh);
    PowAdd(2, sh, h - sh);
    ghost var was := p[..];
    ghost var src := p[o..o + len + 1];
    ghost var dst := ShiftAll(b, src, two, rest);
    var i := 0;
    while i < len
      invariant 0 <= i <= len
      invariant forall k :: 0 <= k < p.Length && !(o <= k < o + i) ==> p[k] == was[k]
      invariant forall k :: o <= k < o + i ==> p[k] == dst[k - o]
    {
      ShiftAllAt(b, src, two, rest, i);
      p[o + i] := ShiftIn(b, p[o + i], p[o + i + 1], two, rest);
      i := i + 1;
    }
    ShiftAllAt(b, src, two, rest, i);
    ShiftInZero(b, p[o + i], two, rest);
    p[o + i] := LHalf(b, p[o + i] * two);
    assert p[o..o + len + 1] == dst;
    ShiftAllVal(b, src, two, rest);
    NoOverflow(b, was[o], two, rest, Pow(b, len + 1));
    ShiftAllAt(b, src, two, rest, 0);
  }

  lemma NoOverflow(b: nat, x: nat, two: nat, rest: nat, p: nat)
    requires two > 0 && rest > 0 && b == two * rest && x * two < b
    ensures (x / rest) * p == 0
  {
    if rest <= x {
      MulLe(rest, x, two);
      assert false;
    }
    DivModUnique(x, rest, 0, x);
  }

  // --------------------------------------------------- D3: the quotient digit

  /** The number x followed by the digit y. */
  ghost function Join(b: nat, x: nat, y: nat): nat {
    MulPositive(x, b);
    x * b + y
  }

  /** q is the largest digit with q * v2 <= u3. */
  ghost predicate BestDigit(b: nat, q: int, u3: nat, v2: nat) {
    && 0 <= q < b
    && q * v2 <= u3
    && (q == b - 1 || u3 < (q + 1) * v2)
  }

  /** qhat, with remainder rhat, is not below the wanted digit. */
  ghost predicate Candidate(b: nat, top: nat, u3: nat, v1: nat, dv: nat, qhat: int, rhat: int) {
    && qhat * v1 + rhat == top
    && (qhat >= b - 1 || u3 < (qhat + 1) * dv)
  }

  /** Guess the quotient digit from three dividend digits and two divisor digits;
      `tries` counts the corrections made on the way. */
  method EstimateDigit(b: nat, uj0: nat, uj1: nat, uj2: nat, v1: nat, v2: nat)
    returns (qhat: nat, ghost tries: nat)
    requires uj0 < b && uj1 < b && uj2 < b && v1 < b && v2 < b
    requires uj0 <= v1 && b <= 2 * v1
    ensures BestDigit(b, qhat, Join(b, Join(b, uj0, uj1), uj2), Join(b, v1, v2))
    ensures tries <= 2
  {
    ghost var top := Join(b, uj0, uj1);
    var rhat: nat;
    var tooBig := uj0 == v1;
    if tooBig {
      qhat, rhat := b, uj1;
      assert Candidate(b, top, Join(b, top, uj2), v1, Join(b, v1, v2), qhat, rhat);
    } else {
      var nn := Combine(b, uj0, uj1);
      qhat, rhat := nn / v1, nn % v1;
      EstimateStart(b, uj0, uj1, uj2, v1, v2, qhat, rhat);
    }
    qhat, tries := CorrectDigit(b, top, Join(b, top, uj2), Join(b, v1, v2), uj2, v1, v2, qhat, rhat, tooBig);
  }

  /** The correction loop; `tooBig` says that it is entered in the middle. */
  method CorrectDigit(b: nat, ghost top: nat, ghost u3: nat, ghost dv: nat, uj2: nat, v1: nat, v2: nat,
                      qhat0: nat, rhat0: nat, enterInside: bool)
    returns (qhat: nat, ghost tries: nat)
    requires uj2 < b && v1 < b && v2 < b && b <= 2 * v1
    requires u3 == top * b + uj2 && dv == v1 * b + v2
    requires if enterInside then qhat0 == b else qhat0 < b && rhat0 < b
    requires Candidate(b, top, u3, v1, dv, qhat0, rhat0)
    ensures BestDigit(b, qhat, u3, dv)
    ensures tries <= 2
  {
    hide Candidate, TooBig, BestDigit;
    var rhat: nat, tooBig := rhat0, enterInside;
    qhat, tries := qhat0, 0;
    while tooBig || TestDigit(b, top, u3, dv, uj2, v1, v2, qhat, rhat)
      invariant if tooBig then qhat == b && tries == 0 else qhat < b && rhat < b
      invariant Candidate(b, top, u3, v1, dv, qhat, rhat)
      invariant tries <= 1 && (tries == 1 ==> v1 <= rhat)
      decreases qhat
    {
      EstimateLess(b, top, u3, v1, dv, qhat, rhat);
      tooBig := false;
      qhat, rhat, tries := qhat - 1, rhat + v1, tries + 1;
      if rhat >= b {
        EstimateStop(b, top, u3, dv, uj2, v1, v2, qhat, rhat);
        break;
      }
    }
    CandidateBest(b, top, u3, v1, dv, qhat, rhat);
  }

  lemma CandidateBest(b: nat, top: nat, u3: nat, v1: nat, dv: nat, qhat: nat, rhat: nat)
    requires Candidate(b, top, u3, v1, dv, qhat, rhat) && qhat < b && !TooBig(qhat, dv, u3)
    ensures BestDigit(b, qhat, u3, dv)
  {
  }

  ghost predicate TooBig(qhat: int, dv: int, u3: int) {
    qhat * dv > u3
  }

  /** The test on two divisor digits decides whether qhat is still too large. */
  function TestDigit(b: nat, ghost top: nat, ghost u3: nat, ghost dv: nat, uj2: nat, v1: nat, v2: nat,
                     qhat: nat, rhat: nat): (big: bool)
    requires uj2 < b && v2 < b && qhat < b && rhat < b
    requires u3 == top * b + uj2 && dv == v1 * b + v2 && Candidate(b, top, u3, v1, dv, qhat, rhat)
    ensures big <==> TooBig(qhat, dv, u3)
  {
    FitsWord(b, v2, qhat);
    EstimateTest(b, top, u3, dv, uj2, v1, v2, qhat, rhat);
    v2 * qhat > Combine(b, rhat, uj2)
  }

  /** The product the code compares fits an unsigned int. */
  lemma FitsWord(b: nat, v2: nat, qhat: nat)
    requires v2 < b && qhat < b
    ensures v2 * qhat < b * b
  {
    MulLe(v2, b, qhat);
    MulLt(qhat, b, b);
  }

  lemma EstimateStart(b: nat, uj0: nat, uj1: nat, uj2: nat, v1: nat, v2: nat, qhat: nat, rhat: nat)
    requires uj0 < v1 < b && uj1 < b && uj2 < b && v2 < b
    requires qhat == Join(b, uj0, uj1) / v1 && rhat == Join(b, uj0, uj1) % v1
    ensures qhat < b
    ensures Candidate(b, Join(b, uj0, uj1), Join(b, Join(b, uj0, uj1), uj2), v1, Join(b, v1, v2), qhat, rhat)
  {
    var top := Join(b, uj0, uj1);
    DivModParts(top, v1);
    LeadBelow(b, uj0, uj1, v1);
    QuotientBelow(b, top, v1, qhat, rhat);
    EstimateAbove(b, top, uj2, v1, v2, qhat, rhat);
  }

  lemma LeadBelow(b: nat, uj0: nat, uj1: nat, v1: nat)
    requires uj0 < v1 && uj1 < b
    ensures Join(b, uj0, uj1) < b * v1
  {
    MulLe(uj0 + 1, v1, b);
  }

  lemma EstimateAbove(b: nat, top: nat, uj2: nat, v1: nat, v2: nat, qhat: nat, rhat: nat)
    requires uj2 < b && top == qhat * v1 + rhat && rhat < v1
    ensures top * b + uj2 < (qhat + 1) * (v1 * b + v2)
  {
    var kv := (qhat + 1) * v1;
    assert kv == qhat * v1 + v1;
    MulLe(top + 1, kv, b);
    ExpandDivisor(qhat + 1, v1, b, v2);
    MulPositive(qhat + 1, v2);
  }

  lemma ExpandDivisor(k: int, v1: int, b: int, v2: int)
    ensures k * (v1 * b + v2) == (k * v1) * b + k * v2
  {
  }

  lemma EstimateTest(b: nat, top: nat, u3: nat, dv: nat, uj2: nat, v1: nat, v2: nat, qhat: nat, rhat: nat)
    requires u3 == top * b + uj2 && dv == v1 * b + v2 && qhat * v1 + rhat == top
    ensures v2 * qhat > rhat * b + uj2 <==> TooBig(qhat, dv, u3)
  {
    assert (qhat * v1 + rhat) * b == (qhat * v1) * b + rhat * b;
    ExpandDivisor(qhat, v1, b, v2);
  }

  /** Taking one off a guess that is too large. */
  lemma EstimateLess(b: nat, top: nat, u3: nat, v1: nat, dv: nat, qhat: nat, rhat: nat)
    requires b > 0 && Candidate(b, top, u3, v1, dv, qhat, rhat)
    requires qhat == b || TooBig(qhat, dv, u3)
    ensures qhat > 0
    ensures Candidate(b, top, u3, v1, dv, qhat - 1, rhat + v1)
  {
    assert (qhat - 1) * v1 == qhat * v1 - v1;
  }

  lemma EstimateStop(b: nat, top: nat, u3: nat, dv: nat, uj2: nat, v1: nat, v2: nat, qhat: nat, rhat: nat)
    requires u3 == top * b + uj2 && dv == v1 * b + v2
    requires Candidate(b, top, u3, v1, dv, qhat, rhat) && rhat >= b && v2 < b && qhat < b
    ensures !TooBig(qhat, dv, u3)
  {
    FitsWord(b, v2, qhat);
    MulLe(b, rhat, b);
    EstimateTest(b, top, u3, dv, uj2, v1, v2, qhat, rhat);
  }

  /** Knuth's theorem on the guess: against the whole numbers, of any length, the
      guess from the leading digits is the true quotient digit or one more. */
  lemma EstimateOffByOne(b: nat, u3: nat, ul: nat, v2: nat, vl: nat, p: nat, qhat: nat)
    requires ul < p && vl < p && b <= v2
    requires BestDigit(b, qhat, u3, v2)
    requires u3 * p + ul < (v2 * p + vl) * b
    ensures u3 * p + ul < (qhat + 1) * (v2 * p + vl)
    ensures qhat * (v2 * p + vl) < (u3 * p + ul) + (v2 * p + vl)
  {
    if qhat < b - 1 {
      NotTooSmall(u3, ul, v2, vl, p, qhat);
    }
    NotTooBig(b, u3, ul, v2, vl, p, qhat);
  }

  lemma NotTooSmall(u3: nat, ul: nat, v2: nat, vl: nat, p: nat, qhat: nat)
    requires ul < p && u3 < (qhat + 1) * v2
    ensures u3 * p + ul < (qhat + 1) * (v2 * p + vl)
  {
    MulLe(u3 + 1, (qhat + 1) * v2, p);
    ExpandDivisor(qhat + 1, v2, p, vl);
    MulPositive(qhat + 1, vl);
  }

  lemma NotTooBig(b: nat, u3: nat, ul: nat, v2: nat, vl: nat, p: nat, qhat: nat)
    requires vl < p && b <= v2 && qhat < b && qhat * v2 <= u3
    ensures qhat * (v2 * p + vl) < (u3 * p + ul) + (v2 * p + vl)
  {
    MulLe(qhat * v2, u3, p);
    ExpandDivisor(qhat, v2, p, vl);
    MulLe(vl, p, qhat);
    MulLt(qhat, v2, p);
  }

  // ------------------------------------------- D4, D6: multiply-subtract, add

  /** The borrow that the digits us[i..] - vs[i..]*qhat take from the digit before,
      in the code's unsigned int arithmetic. */
  function Borrow(b: nat, us: seq<nat>, vs: seq<nat>, qhat: nat, i: nat): (t: nat)
    requires b > 1 && i <= |us| == |vs|
    ensures t < b
    decreases |us| - i, 1
  {
    if i == |us| then 0 else (b - HHalf(b, DiffWord(b, us, vs, qhat, i))) % b
  }

  function DiffWord(b: nat, us: seq<nat>, vs: seq<nat>, qhat: nat, i: nat): nat
    requires b > 1 && i < |us| == |vs|
    decreases |us| - i, 0
  {
    Word(b, us[i] - vs[i] * qhat - Borrow(b, us, vs, qhat, i + 1))
  }

  /** The digits `now` are the code's us - vs*qhat from position i on. */
  ghost predicate IsDiff(b: nat, now: seq<nat>, us: seq<nat>, vs: seq<nat>, qhat: nat, i: nat)
    requires b > 1 && i <= |now| == |us| == |vs|
  {
    forall k :: i <= k < |us| ==> now[k] == LHalf(b, DiffWord(b, us, vs, qhat, k))
  }

  /** The wrapped arithmetic is exact: the digits less the borrow are the difference. */
  lemma {:induction false} DiffVal(b: nat, now: seq<nat>, us: seq<nat>, vs: seq<nat>, qhat: nat, i: nat)
    requires b > 1 && i <= |now| == |us| == |vs| && IsDigits(b, us) && IsDigits(b, vs) && qhat < b
    requires IsDiff(b, now, us, vs, qhat, i)
    ensures Val(b, now[i..]) == Val(b, us[i..]) - qhat * Val(b, vs[i..]) + Borrow(b, us, vs, qhat, i) * Pow(b, |us| - i)
    decreases |us| - i
  {
    if i < |us| {
      DiffVal(b, now, us, vs, qhat, i + 1);
      var w, t := DiffWord(b, us, vs, qhat, i), Borrow(b, us, vs, qhat, i + 1);
      SubtractDigit(b, us[i], vs[i], qhat, t, w);
      ValHead(b, now[i..], now[i], now[i + 1..]);
      ValHead(b, us[i..], us[i], us[i + 1..]);
      ValHead(b, vs[i..], vs[i], vs[i + 1..]);
      SubtractAlgebra(b, Pow(b, |us| - i - 1), Val(b, now[i + 1..]), Val(b, us[i + 1..]), Val(b, vs[i + 1..]), qhat, t,
                      now[i], Borrow(b, us, vs, qhat, i), us[i], vs[i]);
    }
  }

  /** One digit of u - v*qhat with an incoming borrow, computed modulo b*b. */
  lemma SubtractDigit(b: nat, x: nat, y: nat, qhat: nat, t: nat, w: nat)
    requires b > 1 && x < b && y < b && qhat < b && t < b
    requires w == Word(b, x - y * qhat - t)
    ensures LHalf(b, w) - ((b - HHalf(b, w)) % b) * b == x - y * qhat - t
  {
    var z := x - y * qhat - t;
    MulLe(y, b - 1, qhat);
    MulLe(qhat, b - 1, b - 1);
    MulPositive(y, qhat);
    SquareLess(b);
    SubtractWord(b, z, w);
  }

  lemma SquareLess(b: int)
    ensures (b - 1) * (b - 1) == b * b - 2 * b + 1
    ensures (b - 1) * b == b * b - b
  {
  }

  lemma SubtractWord(b: nat, z: int, w: nat)
    requires b > 1 && -(b * b) + b <= z < b && w == Word(b, z)
    ensures LHalf(b, w) - ((b - HHalf(b, w)) % b) * b == z
  {
    if z >= 0 {
      MulLe(1, b, b);
      DivModUnique(z, b * b, 0, z);
      DivModUnique(w, b, 0, w);
      DivModUnique(b, b, 1, 0);
    } else {
      DivModUnique(z, b * b, -1, z + b * b);
      BorrowDigit(b, w, HHalf(b, w), LHalf(b, w));
    }
  }

  lemma BorrowDigit(b: nat, w: nat, hi: nat, lo: nat)
    requires b > 1 && b <= w < b * b && w == hi * b + lo && lo < b
    ensures ((b - hi) % b) * b == b * b - w + lo
  {
    QuotientBelow(b, w, b, hi, lo);
    if hi == 0 { assert false; }
    DivModUnique(b - hi, b, 0, b - hi);
    assert (b - hi) * b == b * b - hi * b;
  }

  lemma SubtractAlgebra(b: int, p: int, low: int, oldLow: int, vLow: int, qhat: int, t: int, d: int, t': int,
                        x: int, y: int)
    requires low == oldLow - qhat * vLow + t * p
    requires d - t' * b == x - y * qhat - t
    ensures d * p + low == (x * p + oldLow) - qhat * (y * p + vLow) + t' * (b * p)
  {
    assert (d - t' * b) * p == d * p - t' * (b * p);
    assert (x - y * qhat - t) * p == x * p - qhat * (y * p) - t * p;
    assert qhat * (y * p + vLow) == qhat * (y * p) + qhat * vLow;
  }

  lemma ValHead(b: nat, s: seq<nat>, d: nat, t: seq<nat>)
    requires s == [d] + t
    ensures Val(b, s) == d * Pow(b, |t|) + Val(b, t)
  {
    assert s[1..] == t;
  }

  /** D4: u[o..o+n] -= qhat * v[vo+1..vo+n], modulo b^(n+1). */
  method MultiplySubtract(b: nat, u: array<nat>, o: nat, v: array<nat>, vo: nat, n: nat,
                          qhat: nat) returns (borrow: bool)
    requires b > 1 && u != v && o + n < u.Length && vo + n < v.Length
    requires AllDigits(b, u) && AllDigits(b, v) && qhat < b
    modifies u
    ensures AllDigits(b, u)
    ensures forall k :: 0 <= k < u.Length && !(o <= k <= o + n) ==> u[k] == old(u[k])
    ensures Val(b, u[o..o + n + 1]) ==
            old(Val(b, u[o..o + n + 1])) - qhat * Val(b, v[vo + 1..vo + n + 1]) + (if borrow then Pow(b, n + 1) else 0)
  {
    ghost var us, vs := u[o..o + n + 1], [0] + v[vo + 1..vo + n + 1];
    var t: int := SubtractDigits(b, u, o, v, vo, n, qhat);
    t := Word(b, u[o] - t);
    u[o] := LHalf(b, t);
    borrow := HHalf(b, t) != 0;
    SubtractResult(b, u[o..o + n + 1], us, vs, v[vo + 1..vo + n + 1], qhat, t);
  }

  /** The loop of D4: all digits but the first, and the borrow into the first. */
  method SubtractDigits(b: nat, u: array<nat>, o: nat, v: array<nat>, vo: nat, n: nat, qhat: nat) returns (t: nat)
    requires b > 1 && u != v && o + n < u.Length && vo + n < v.Length
    modifies u
    ensures forall k :: 0 <= k < u.Length && !(o < k <= o + n) ==> u[k] == old(u[k])
    ensures t == Borrow(b, old(u[o..o + n + 1]), [0] + v[vo + 1..vo + n + 1], qhat, 1)
    ensures IsDiff(b, u[o..o + n + 1], old(u[o..o + n + 1]), [0] + v[vo + 1..vo + n + 1], qhat, 1)
  {
    ghost var was, us, vs := u[..], u[o..o + n + 1], [0] + v[vo + 1..vo + n + 1];
    var i := n;
    t := 0;
    while i > 0
      invariant 0 <= i <= n
      invariant t == Borrow(b, us, vs, qhat, i + 1)
      invariant forall k :: 0 <= k < u.Length && !(o + i < k <= o + n) ==> u[k] == was[k]
      invariant forall k :: i < k <= n ==> u[o + k] == LHalf(b, DiffWord(b, us, vs, qhat, k))
    {
      t := Word(b, u[o + i] - v[vo + i] * qhat - t);
      u[o + i] := LHalf(b, t);
      t := (b - HHalf(b, t)) % b;
      i := i - 1;
    }
  }

  lemma SubtractResult(b: nat, now: seq<nat>, us: seq<nat>, vs: seq<nat>, vd: seq<nat>, qhat: nat, w: nat)
    requires b > 1 && |now| == |us| == |vs| && IsDigits(b, us) && IsDigits(b, vd) && qhat < b && vs == [0] + vd
    requires IsDiff(b, now, us, vs, qhat, 1)
    requires w == Word(b, us[0] - Borrow(b, us, vs, qhat, 1)) && now[0] == LHalf(b, w)
    ensures IsDigits(b, now)
    ensures Val(b, now) == Val(b, us) - qhat * Val(b, vd) + if HHalf(b, w) != 0 then Pow(b, |us|) else 0
  {
    FirstBorrow(b, us, vs, qhat, w);
    assert now[0..] == now && us[0..] == us && vs[0..] == vs && vs[1..] == vd;
    DiffVal(b, now, us, vs, qhat, 0);
    ValZeros(b, vs, 1);
  }

  lemma FirstBorrow(b: nat, us: seq<nat>, vs: seq<nat>, qhat: nat, w: nat)
    requires b > 1 && |us| == |vs| > 0 && us[0] < b && vs[0] == 0
    requires w == Word(b, us[0] - Borrow(b, us, vs, qhat, 1))
    ensures w == DiffWord(b, us, vs, qhat, 0)
    ensures Borrow(b, us, vs, qhat, 0) == if HHalf(b, w) != 0 then 1 else 0
  {
    assert 0 * qhat == 0;
    FinalBorrow(b, us[0], Borrow(b, us, vs, qhat, 1), w);
  }

  /** The last subtraction sets the high half exactly when it borrows, by one. */
  lemma FinalBorrow(b: nat, x: nat, t0: nat, w: nat)
    requires b > 1 && x < b && t0 < b && w == Word(b, x - t0)
    ensures HHalf(b, w) != 0 <==> x < t0
    ensures (b - HHalf(b, w)) % b == if x < t0 then 1 else 0
  {
    SquareLess(b);
    MulLe(1, b, b);
    if x < t0 {
      DivModUnique(x - t0, b * b, -1, x - t0 + b * b);
      DivModUnique(w, b, b - 1, x - t0 + b);
      DivModUnique(1, b, 0, 1);
    } else {
      DivModUnique(x - t0, b * b, 0, x - t0);
      DivModUnique(w, b, 0, x - t0);
      DivModUnique(b, b, 1, 0);
    }
  }

  /** The carry out of us[i..] + vs[i..]. */
  function Carry(b: nat, us: seq<nat>, vs: seq<nat>, i: nat): nat
    requires b > 1 && i <= |us| == |vs|
    decreases |us| - i, 1
  {
    if i == |us| then 0 else HHalf(b, SumWord(b, us, vs, i))
  }

  function SumWord(b: nat, us: seq<nat>, vs: seq<nat>, i: nat): nat
    requires b > 1 && i < |us| == |vs|
    decreases |us| - i, 0
  {
    Carry(b, us, vs, i + 1) + us[i] + vs[i]
  }

  lemma {:induction false} SumVal(b: nat, now: seq<nat>, us: seq<nat>, vs: seq<nat>, i: nat)
    requires b > 1 && i <= |now| == |us| == |vs| && IsDigits(b, us) && IsDigits(b, vs)
    requires forall k :: i <= k < |us| ==> now[k] == LHalf(b, SumWord(b, us, vs, k))
    ensures Carry(b, us, vs, i) <= 1
    ensures Val(b, now[i..]) == Val(b, us[i..]) + Val(b, vs[i..]) - Carry(b, us, vs, i) * Pow(b, |us| - i)
    decreases |us| - i
  {
    if i < |us| {
      SumVal(b, now, us, vs, i + 1);
      var w := SumWord(b, us, vs, i);
      CarryDigit(b, w);
      ValHead(b, now[i..], now[i], now[i + 1..]);
      ValHead(b, us[i..], us[i], us[i + 1..]);
      ValHead(b, vs[i..], vs[i], vs[i + 1..]);
      AddAlgebra(b, Pow(b, |us| - i - 1), Val(b, now[i + 1..]), Val(b, us[i + 1..]), Val(b, vs[i + 1..]),
                 Carry(b, us, vs, i + 1), now[i], HHalf(b, w), us[i], vs[i]);
    }
  }

  lemma AddAlgebra(b: int, p: int, low: int, oldLow: int, vLow: int, t: int, d: int, t': int, x: int, y: int)
    requires low == oldLow + vLow - t * p
    requires d + t' * b == x + y + t
    ensures d * p + low == (x * p + oldLow) + (y * p + vLow) - t' * (b * p)
  {
    assert (d + t' * b) * p == d * p + t' * (b * p);
    assert (x + y + t) * p == x * p + y * p + t * p;
  }

  /** The running sum fits an unsigned int, and its carry is a single bit. */
  lemma CarryDigit(b: nat, t: nat)
    requires b > 1 && t < 2 * b
    ensures LHalf(b, t) < b && HHalf(b, t) <= 1
    ensures LHalf(b, t) + HHalf(b, t) * b == t
    ensures t < b * b
  {
    MulLe(2, b, b);
    QuotientBelow(2, t, b, t / b, t % b);
  }

  /** D6: u[o..o+n] += v[vo+1..vo+n], modulo b^(n+1); `carry` is the bit that falls out. */
  method AddBack(b: nat, u: array<nat>, o: nat, v: array<nat>, vo: nat, n: nat) returns (ghost carry: nat)
    requires b > 1 && u != v && o + n < u.Length && vo + n < v.Length
    requires AllDigits(b, u) && AllDigits(b, v)
    modifies u
    ensures AllDigits(b, u) && carry <= 1
    ensures forall k :: 0 <= k < u.Length && !(o <= k <= o + n) ==> u[k] == old(u[k])
    ensures Val(b, u[o..o + n + 1]) ==
            old(Val(b, u[o..o + n + 1])) + Val(b, v[vo + 1..vo + n + 1]) - carry * Pow(b, n + 1)
  {
    hide Val, Pow;
    ghost var was, us, vs := u[..], u[o..o + n + 1], [0] + v[vo + 1..vo + n + 1];
    var t: nat, i := 0, n;
    while i > 0
      invariant 0 <= i <= n
      invariant t == Carry(b, us, vs, i + 1)
      invariant forall k :: 0 <= k < u.Length && !(o + i < k <= o + n) ==> u[k] == was[k]
      invariant forall k :: i < k <= n ==> u[o + k] == LHalf(b, SumWord(b, us, vs, k))
    {
      t := t + u[o + i] + v[vo + i];
      u[o + i] := LHalf(b, t);
      t := HHalf(b, t);
      i := i - 1;
    }
    u[o] := LHalf(b, u[o] + t);
    carry := Carry(b, us, vs, 0);
    hide Carry, SumWord, LHalf, HHalf;
    SumResult(b, u[o..o + n + 1], us, vs, v[vo + 1..vo + n + 1]);
  }

  lemma SumResult(b: nat, now: seq<nat>, us: seq<nat>, vs: seq<nat>, vd: seq<nat>)
    requires b > 1 && |now| == |us| == |vs| && IsDigits(b, us) && IsDigits(b, vd) && vs == [0] + vd
    requires forall k :: 0 <= k < |us| ==> now[k] == LHalf(b, SumWord(b, us, vs, k))
    ensures Carry(b, us, vs, 0) <= 1
    ensures IsDigits(b, now)
    ensures Val(b, now) == Val(b, us) + Val(b, vd) - Carry(b, us, vs, 0) * Pow(b, |us|)
  {
    assert vs[1..] == vd;
    assert now[0..] == now && us[0..] == us && vs[0..] == vs;
    SumVal(b, now, us, vs, 0);
    ValZeros(b, vs, 1);
  }

  // ------------------------------------------------- D3-D7: one digit, all digits

  lemma {:induction false} LeadingLe(b: nat, s: seq<nat>, t: seq<nat>)
    requires |s| == |t| > 0 && IsDigits(b, s) && IsDigits(b, t) && Val(b, s) < Val(b, t)
    ensures s[0] <= t[0]
  {
    ValBound(b, t[1..]);
    LeadingDigit(s[0], t[0], Pow(b, |t| - 1), Val(b, s[1..]), Val(b, t[1..]));
  }

  lemma LeadingDigit(x: int, y: int, p: int, xl: int, yl: int)
    requires x * p + xl < y * p + yl && 0 <= xl && 0 <= yl < p
    ensures x <= y
  {
    if y < x {
      MulLe(y + 1, x, p);
      assert false;
    }
  }

  lemma SnocLess(x: int, v: int, b: int, d: int)
    requires x < v && d < b && 0 < b
    ensures x * b + d < v * b
  {
    MulLe(x + 1, v, b);
  }

  lemma TopTwo(b: nat, s: seq<nat>)
    requires |s| >= 2
    ensures Val(b, s) == Join(b, s[0], s[1]) * Pow(b, |s| - 2) + Val(b, s[2..])
  {
    ValSplit(b, s, 2);
    ValSnoc(b, [s[0]], s[1]);
    ValOne(b, s[0]);
    assert s[..2] == [s[0]] + [s[1]];
  }

  lemma TopThree(b: nat, s: seq<nat>)
    requires |s| >= 3
    ensures Val(b, s) == Join(b, Join(b, s[0], s[1]), s[2]) * Pow(b, |s| - 3) + Val(b, s[3..])
  {
    ValSplit(b, s, 3);
    ValSnoc(b, [s[0]] + [s[1]], s[2]);
    ValSnoc(b, [s[0]], s[1]);
    ValOne(b, s[0]);
    assert s[..3] == [s[0]] + [s[1]] + [s[2]];
  }

  /** For any number of digits: the guess is the quotient digit or one more than it. */
  lemma GuessOffByOne(b: nat, us: seq<nat>, vs: seq<nat>, qhat: nat)
    requires |us| == |vs| + 1 && |vs| >= 2 && IsDigits(b, us) && IsDigits(b, vs) && vs[0] > 0
    requires BestDigit(b, qhat, Join(b, Join(b, us[0], us[1]), us[2]), Join(b, vs[0], vs[1]))
    requires Val(b, us) < Val(b, vs) * b
    ensures Val(b, us) < (qhat + 1) * Val(b, vs)
    ensures qhat * Val(b, vs) < Val(b, us) + Val(b, vs)
  {
    hide Val, Pow, Join;
    TopThree(b, us);
    TopTwo(b, vs);
    ValBound(b, us[3..]);
    ValBound(b, vs[2..]);
    LeadPositive(b, vs[0], vs[1]);
    EstimateOffByOne(b, Join(b, Join(b, us[0], us[1]), us[2]), Val(b, us[3..]), Join(b, vs[0], vs[1]),
                     Val(b, vs[2..]), Pow(b, |vs| - 2), qhat);
  }

  lemma LeadPositive(b: nat, x: nat, y: nat)
    requires x > 0
    ensures b <= Join(b, x, y)
  {
    MulLe(1, x, b);
  }

  /** Step D5: the borrow is out exactly when the guess was one too large. */
  lemma ResolveBorrow(u: nat, v: nat, qhat: nat, x: int, p: nat, borrow: bool)
    requires u < (qhat + 1) * v && qhat * v < u + v && v <= p
    requires x == u - qhat * v + (if borrow then p else 0) && 0 <= x < p
    ensures borrow <==> u < qhat * v
    ensures borrow ==> qhat > 0 && 0 <= u - (qhat - 1) * v < v
    ensures borrow ==> x + v - p == u - (qhat - 1) * v
    ensures !borrow ==> x < v
  {
    assert (qhat + 1) * v == qhat * v + v;
    assert (qhat - 1) * v == qhat * v - v;
  }

  /** The digit q and the remainder digits rem are those of us over vs. */
  ghost predicate DividedOnce(b: nat, us: seq<nat>, q: nat, vs: seq<nat>, rem: seq<nat>) {
    && Val(b, us) == q * Val(b, vs) + Val(b, rem)
    && Val(b, rem) < Val(b, vs)
  }

  /** One round of the loop: divide the n+1 digits u[o..o+n] by v[vo+1..vo+n], leaving
      the remainder in place.  `guess` is what D3 proposed. */
  method DivideDigit(b: nat, u: array<nat>, o: nat, v: array<nat>, vo: nat, n: nat) returns (qhat: nat,
                     ghost guess: nat)
    requires b > 1 && n >= 2 && u != v && o + n < u.Length && vo + n < v.Length
    requires AllDigits(b, u) && AllDigits(b, v) && b <= 2 * v[vo + 1]
    requires Val(b, u[o..o + n]) < Val(b, v[vo + 1..vo + n + 1])
    modifies u
    ensures AllDigits(b, u) && qhat < b
    ensures forall k :: 0 <= k < u.Length && !(o <= k <= o + n) ==> u[k] == old(u[k])
    ensures DividedOnce(b, old(u[o..o + n + 1]), qhat, v[vo + 1..vo + n + 1], u[o..o + n + 1])
    ensures guess == qhat || guess == qhat + 1
  {
    hide Val, Pow, BestDigit, Join;
    ghost var us, vs := u[o..o + n + 1], v[vo + 1..vo + n + 1];
    assert us[..n] == u[o..o + n];
    RoundStart(b, us, vs);
    ghost var tries;
    qhat, tries := EstimateDigit(b, u[o], u[o + 1], u[o + 2], v[vo + 1], v[vo + 2]);
    guess := qhat;
    GuessOffByOne(b, us, vs, qhat);
    var borrow := MultiplySubtract(b, u, o, v, vo, n, qhat);
    RoundEnd(b, us, vs, u[o..o + n + 1], qhat, borrow);
    if borrow {
      qhat := qhat - 1;
      ghost var low := u[o..o + n + 1];
      ghost var carry := AddBack(b, u, o, v, vo, n);
      AddBackEnd(b, us, vs, low, u[o..o + n + 1], qhat, carry);
    }
  }

  /** The carry out of the add-back cancels the borrow, leaving the remainder. */
  lemma AddBackEnd(b: nat, us: seq<nat>, vs: seq<nat>, low: seq<nat>, now: seq<nat>, q: int, carry: nat)
    requires |us| == |now| && IsDigits(b, now) && carry <= 1
    requires Val(b, low) + Val(b, vs) - Pow(b, |us|) == Val(b, us) - q * Val(b, vs)
    requires 0 <= Val(b, us) - q * Val(b, vs)
    requires Val(b, now) == Val(b, low) + Val(b, vs) - carry * Pow(b, |us|)
    ensures Val(b, us) == q * Val(b, vs) + Val(b, now)
  {
    hide Val, Pow;
    ValBound(b, now);
    CarryOne(Val(b, low), Val(b, vs), Pow(b, |us|), q * Val(b, vs), Val(b, us), Val(b, now), carry);
  }

  lemma CarryOne(low: int, v: int, p: int, qv: int, u: int, now: int, carry: nat)
    requires low + v - p == u - qv && 0 <= u - qv && carry <= 1
    requires now == low + v - carry * p && now < p
    ensures u == qv + now
  {
    if carry == 0 { assert false; }
  }

  lemma RoundStart(b: nat, us: seq<nat>, vs: seq<nat>)
    requires |us| == |vs| + 1 && |vs| >= 2 && IsDigits(b, us) && IsDigits(b, vs)
    requires Val(b, us[..|vs|]) < Val(b, vs)
    ensures us[0] <= vs[0]
    ensures Val(b, us) < Val(b, vs) * b
  {
    LeadingLe(b, us[..|vs|], vs);
    assert us == us[..|vs|] + [us[|vs|]];
    ValSnoc(b, us[..|vs|], us[|vs|]);
    SnocLess(Val(b, us[..|vs|]), Val(b, vs), b, us[|vs|]);
  }

  lemma RoundEnd(b: nat, us: seq<nat>, vs: seq<nat>, now: seq<nat>, qhat: nat, borrow: bool)
    requires b > 1 && |us| == |now| == |vs| + 1 && IsDigits(b, vs) && IsDigits(b, now)
    requires Val(b, us) < (qhat + 1) * Val(b, vs) && qhat * Val(b, vs) < Val(b, us) + Val(b, vs)
    requires Val(b, now) == Val(b, us) - qhat * Val(b, vs) + (if borrow then Pow(b, |us|) else 0)
    ensures Val(b, vs) < Pow(b, |vs|) <= Pow(b, |us|)
    ensures borrow ==> qhat > 0 && Val(b, now) + Val(b, vs) - Pow(b, |us|) == Val(b, us) - (qhat - 1) * Val(b, vs)
    ensures borrow ==> 0 <= Val(b, us) - (qhat - 1) * Val(b, vs) < Val(b, vs)
    ensures !borrow ==> Val(b, now) < Val(b, vs)
  {
    ValBound(b, vs);
    ValBound(b, now);
    MulLe(1, b, Pow(b, |vs|));
    ResolveBorrow(Val(b, us), Val(b, vs), qhat, Val(b, now), Pow(b, |us|), borrow);
  }

  /** D2-D7.  Divide u[uo..uo+m+n] by v[vo+1..vo+n], digit by digit from the left: the
      m+1 quotient digits go to q[qo..], the remainder stays in the last n digits of u. */
  method DivideLoop(b: nat, u: array<nat>, uo: nat, v: array<nat>, vo: nat, q: array<nat>, qo: nat, m: nat, n: nat)
    requires b > 1 && n >= 2 && u != v && u != q && v != q
    requires uo + m + n < u.Length && vo + n < v.Length && qo + m < q.Length
    requires AllDigits(b, u) && AllDigits(b, v) && b <= 2 * v[vo + 1]
    requires Val(b, u[uo..uo + n]) < Val(b, v[vo + 1..vo + n + 1])
    modifies u, q
    ensures AllDigits(b, u) && forall k :: qo <= k <= qo + m ==> q[k] < b
    ensures forall k :: 0 <= k < u.Length && !(uo <= k <= uo + m + n) ==> u[k] == old(u[k])
    ensures forall k :: 0 <= k < q.Length && !(qo <= k <= qo + m) ==> q[k] == old(q[k])
    ensures forall k :: uo <= k <= uo + m ==> u[k] == 0
    ensures Divided(b, old(u[uo..uo + m + n + 1]), q[qo..qo + m + 1], v[vo + 1..vo + n + 1], u[uo + m + 1..uo + m + n + 1])
  {
    hide Divided, DividedOnce, Val, Pow;
    ghost var was, vs := u[..], v[vo + 1..vo + n + 1];
    var j := 0;
    DividedStart(b, was[uo..uo + n], q[qo..qo], vs);
    while j <= m
      invariant 0 <= j <= m + 1
      invariant AllDigits(b, u) && forall k :: qo <= k < qo + j ==> q[k] < b
      invariant forall k :: 0 <= k < u.Length && !(uo <= k < uo + j + n) ==> u[k] == was[k]
      invariant forall k :: 0 <= k < q.Length && !(qo <= k < qo + j) ==> q[k] == old(q[k])
      invariant forall k :: uo <= k < uo + j ==> u[k] == 0
      invariant Divided(b, was[uo..uo + j + n], q[qo..qo + j], vs, u[uo + j..uo + j + n])
    {
      ghost var qs, prefix := q[qo..qo + j], was[uo..uo + j + n];
      var qhat := DivideNext(b, u, uo + j, v, vo, n, prefix, qs);
      q[qo + j] := qhat;
      assert q[qo..qo + j + 1] == qs + [qhat];
      assert was[uo..uo + j + n + 1] == prefix + [was[uo + j + n]];
      j := j + 1;
    }
  }

  /** One round, seen from the digits divided so far. */
  method DivideNext(b: nat, u: array<nat>, o: nat, v: array<nat>, vo: nat, n: nat, ghost prefix: seq<nat>,
                    ghost qs: seq<nat>)
    returns (qhat: nat)
    requires b > 1 && n >= 2 && u != v && o + n < u.Length && vo + n < v.Length
    requires AllDigits(b, u) && AllDigits(b, v) && b <= 2 * v[vo + 1]
    requires Divided(b, prefix, qs, v[vo + 1..vo + n + 1], u[o..o + n])
    modifies u
    ensures AllDigits(b, u) && qhat < b && u[o] == 0
    ensures forall k :: 0 <= k < u.Length && !(o <= k <= o + n) ==> u[k] == old(u[k])
    ensures Divided(b, prefix + [old(u[o + n])], qs + [qhat], v[vo + 1..vo + n + 1], u[o + 1..o + n + 1])
  {
    hide Val, Pow, DividedOnce;
    ghost var rem, x := u[o..o + n], u[o + n];
    ghost var guess;
    assert u[o..o + n + 1] == rem + [x];
    qhat, guess := DivideDigit(b, u, o, v, vo, n);
    NextDigit(b, prefix, qs, v[vo + 1..vo + n + 1], rem, x, qhat, u[o..o + n + 1]);
    assert u[o..o + n + 1][1..] == u[o + 1..o + n + 1];
  }

  /** The quotient digits qs and the remainder digits rem are those of us over vs. */
  ghost predicate Divided(b: nat, us: seq<nat>, qs: seq<nat>, vs: seq<nat>, rem: seq<nat>) {
    && Val(b, us) == Val(b, qs) * Val(b, vs) + Val(b, rem)
    && Val(b, rem) < Val(b, vs)
  }

  lemma DividedStart(b: nat, us: seq<nat>, qs: seq<nat>, vs: seq<nat>)
    requires qs == [] && Val(b, us) < Val(b, vs)
    ensures Divided(b, us, qs, vs, us)
  {
    assert 0 * Val(b, vs) == 0;
  }

  /** Bringing down the next dividend digit x and dividing the remainder so far. */
  lemma NextDigit(b: nat, prefix: seq<nat>, qs: seq<nat>, vs: seq<nat>, rem: seq<nat>, x: nat, qhat: nat, now: seq<nat>)
    requires b > 1 && |now| == |rem| + 1 && |vs| == |rem| && IsDigits(b, now) && IsDigits(b, vs)
    requires Divided(b, prefix, qs, vs, rem)
    requires DividedOnce(b, rem + [x], qhat, vs, now)
    ensures now[0] == 0 && Val(b, now[1..]) < Val(b, vs)
    ensures Divided(b, prefix + [x], qs + [qhat], vs, now[1..])
  {
    hide Val;
    hide Pow;
    ValBound(b, vs);
    ValSmall(b, now, |vs|);
    ValSnoc(b, prefix, x);
    ValSnoc(b, qs, qhat);
    ValSnoc(b, rem, x);
    NextAlgebra(b, Val(b, prefix), Val(b, qs), Val(b, vs), Val(b, rem), x, qhat, Val(b, now));
  }

  lemma NextAlgebra(b: int, prefix: int, q: int, v: int, r: int, x: int, qhat: int, now: int)
    requires prefix == q * v + r && r * b + x == qhat * v + now
    ensures prefix * b + x == (q * b + qhat) * v + now
  {
    assert (q * v + r) * b == (q * b) * v + r * b;
    assert (q * b + qhat) * v == (q * b) * v + qhat * v;
  }

  // ---------------------------------------------------- moving the remainder back

  /** The digit x moved right, with the low part of the digit y before it moved in. */
  function ShiftOut(b: nat, y: nat, x: nat, two: nat, rest: nat): (d: nat)
    requires two > 0 && rest > 0 && b == two * rest && x < b && y < b
    ensures d < b && d == x / two + (y % two) * rest
  {
    assert b == rest * two;
    ShiftDigit(b, y, rest, two);
    ShiftDigit(b, x, rest, two);
    Or(LHalf(b, y * rest), x / two, rest)
  }

  lemma {:induction false} ShiftOutVal(b: nat, s: seq<nat>, now: seq<nat>, two: nat, rest: nat, k: nat)
    requires two > 0 && rest > 0 && b == two * rest && 1 <= k <= |s| == |now| && IsDigits(b, s)
    requires forall i :: k <= i < |s| ==> now[i] == ShiftOut(b, s[i - 1], s[i], two, rest)
    ensures Val(b, now[k..]) * two + s[|s| - 1] % two == Val(b, s[k..]) + (s[k - 1] % two) * Pow(b, |s| - k)
    decreases |s| - k
  {
    hide ShiftOut;
    if k == |s| {
      assert (s[k - 1] % two) * Pow(b, 0) == s[k - 1] % two;
    } else {
      hide Val;
      hide Pow;
      PowStep(b, |s| - k - 1);
      DivModParts(s[k], two);
      ShiftOutVal(b, s, now, two, rest, k + 1);
      ValHead(b, now[k..], now[k], now[k + 1..]);
      ValHead(b, s[k..], s[k], s[k + 1..]);
      ShiftOutAlgebra(b, two, rest, Pow(b, |s| - k - 1), Pow(b, |s| - k), s[k] / two, s[k] % two, s[k - 1] % two,
                      now[k], s[k], Val(b, now[k + 1..]), Val(b, s[k + 1..]), Val(b, now[k..]), Val(b, s[k..]),
                      s[|s| - 1] % two);
    }
  }

  lemma ShiftOutAlgebra(b: int, two: int, rest: int, p: int, bp: int, hi: int, lo: int, y: int, d: int, x: int,
                        nowLow: int, wasLow: int, now: int, was: int, out: int)
    requires b == two * rest && bp == b * p && nowLow * two + out == wasLow + lo * p
    requires d == hi + y * rest && x == hi * two + lo
    requires now == d * p + nowLow && was == x * p + wasLow
    ensures now * two + out == was + y * bp
  {
    assert d * two == hi * two + y * b;
    assert (d * p) * two == (d * two) * p;
    assert (hi * two + y * b) * p == (hi * two) * p + y * (b * p);
    assert (hi * two + lo) * p == (hi * two) * p + lo * p;
  }

  /** u[o..o+n] >>= d, for a first digit that is zero. */
  method ShiftRemainder(b: nat, h: nat, u: array<nat>, o: nat, n: nat, d: nat)
    requires b == Pow(2, h) && 0 < d < h && o + n < u.Length && AllDigits(b, u) && u[o] == 0
    modifies u
    ensures AllDigits(b, u) && u[o] == 0
    ensures forall k :: 0 <= k < u.Length && !(o < k <= o + n) ==> u[k] == old(u[k])
    ensures Val(b, u[o + 1..o + n + 1]) == old(Val(b, u[o + 1..o + n + 1])) / Pow(2, d)
  {
    hide Val;
    var two, rest := Pow(2, d), Pow(2, h - d);
    PowAdd(2, d, h - d);
    ghost var was, s := u[..], u[o..o + n + 1];
    var i := n;
    while i > 0
      invariant 0 <= i <= n
      invariant AllDigits(b, u)
      invariant forall k :: 0 <= k < u.Length && !(o + i < k <= o + n) ==> u[k] == was[k]
      invariant forall k :: i < k <= n ==> u[o + k] == ShiftOut(b, s[k - 1], s[k], two, rest)
    {
      u[o + i] := ShiftOut(b, u[o + i - 1], u[o + i], two, rest);
      i := i - 1;
    }
    u[o + i] := 0;
    ghost var now := u[o..o + n + 1];
    ShiftOutDiv(b, s, now, two, rest);
    assert now[1..] == u[o + 1..o + n + 1] && s[1..] == was[o + 1..o + n + 1];
  }

  lemma ShiftOutDiv(b: nat, s: seq<nat>, now: seq<nat>, two: nat, rest: nat)
    requires two > 0 && rest > 0 && b == two * rest && 1 <= |s| == |now| && IsDigits(b, s) && s[0] == 0
    requires forall i :: 1 <= i < |s| ==> now[i] == ShiftOut(b, s[i - 1], s[i], two, rest)
    ensures Val(b, now[1..]) == Val(b, s[1..]) / two
  {
    hide Val;
    hide ShiftOut;
    ShiftOutVal(b, s, now, two, rest, 1);
    DivModUnique(0, two, 0, 0);
    assert 0 * Pow(b, |s| - 1) == 0;
    DivModUnique(Val(b, s[1..]), two, Val(b, now[1..]), s[|s| - 1] % two);
  }
}
