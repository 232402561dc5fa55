/** Double-word division (gcc-millicode qdivrem.c, divdi3.c, moddi3.c): splitting into
    digits, the one-digit divisor, normalisation, Algorithm D, and the signed wrappers. */
module QDivRem {
  import opened Digits
  import opened LongLong
  import opened AlgorithmD

  /** What __qdivrem hands back: the quotient, and the remainder when it was asked for. */
  datatype Division = DivideByZero | Division(quotient: nat, remainder: Remainder)
  datatype Remainder = NotWanted | Remainder(value: nat)

  // ------------------------------------------------------ splitting and joining

  /** The four half-words of a double word. */
  function Split(b: nat, x: nat): seq<nat>
    requires b > 0
  {
    var hi, lo := x / (b * b), x % (b * b);
    [HHalf(b, hi), LHalf(b, hi), HHalf(b, lo), LHalf(b, lo)]
  }

  lemma SplitVal(b: nat, x: nat)
    requires b > 0 && x < Pow(b, 4)
    ensures IsDigits(b, Split(b, x)) && Val(b, Split(b, x)) == x
  {
    var w := b * b;
    var hi, lo := x / w, x % w;
    PowFour(b);
    DivModParts(x, w);
    DivModParts(hi, b);
    DivModParts(lo, b);
    QuotientBelow(w, x, w, hi, lo);
    QuotientBelow(b, hi, b, hi / b, hi % b);
    QuotientBelow(b, lo, b, lo / b, lo % b);
    ValFour(b, Split(b, x));
    JoinFour(b, hi / b, hi % b, lo / b, lo % b);
  }

  lemma JoinFour(b: int, x1: int, x2: int, x3: int, x4: int)
    ensures ((x1 * b + x2) * b + x3) * b + x4 == (x1 * b + x2) * (b * b) + (x3 * b + x4)
  {
    var y := x1 * b + x2;
    assert (y * b + x3) * b == y * (b * b) + x3 * b;
  }

  /** The double word made of four half-words. */
  function Assemble(b: nat, x1: nat, x2: nat, x3: nat, x4: nat): (r: nat)
    requires x1 < b && x2 < b && x3 < b && x4 < b
    ensures r == Val(b, [x1, x2, x3, x4])
  {
    ValFour(b, [x1, x2, x3, x4]);
    JoinFour(b, x1, x2, x3, x4);
    Combine(b, x1, x2) * (b * b) + Combine(b, x3, x4)
  }

  // ------------------------------------------------------------ one-digit divisor

  /** The quotient digits qs and the remainder r are those of us over the digit t. */
  ghost predicate ShortDivided(b: nat, us: seq<nat>, qs: seq<nat>, t: nat, r: nat) {
    Val(b, us) == Val(b, qs) * t + r && r < t
  }

  function Quo(y: nat, t: nat): nat
    requires t > 0
  {
    y / t
  }

  function Rem(y: nat, t: nat): nat
    requires t > 0
  {
    y % t
  }

  lemma ShortStep(b: nat, us: seq<nat>, qs: seq<nat>, t: nat, r: nat, x: nat)
    requires b > 1 && 0 < t < b && r < b && x < b && ShortDivided(b, us, qs, t, r)
    ensures Quo(Combine(b, r, x), t) < b && Rem(Combine(b, r, x), t) < t
    ensures ShortDivided(b, us + [x], qs + [Quo(Combine(b, r, x), t)], t, Rem(Combine(b, r, x), t))
  {
    var y := Combine(b, r, x);
    ShortDigit(b, y, r, x, t);
    hide *;
    ShortSnoc(b, us, qs, t, r, x, Quo(y, t), Rem(y, t));
  }

  lemma ShortDigit(b: nat, y: nat, r: nat, x: nat, t: nat)
    requires b > 1 && 0 < t && r < t && x < b && y == r * b + x
    ensures y == Quo(y, t) * t + Rem(y, t) && Quo(y, t) < b && Rem(y, t) < t
  {
    DivModParts(y, t);
    SnocLess(r, t, b, x);
    QuotientBelow(b, y, t, y / t, y % t);
  }

  lemma ShortSnoc(b: nat, us: seq<nat>, qs: seq<nat>, t: nat, r: nat, x: nat, q: nat, r': nat)
    requires ShortDivided(b, us, qs, t, r) && r * b + x == q * t + r' && r' < t
    ensures ShortDivided(b, us + [x], qs + [q], t, r')
  {
    hide Val;
    ValSnoc(b, us, x);
    ValSnoc(b, qs, q);
    NextAlgebra(b, Val(b, us), Val(b, qs), t, r, x, q, r');
  }

  lemma ShortStart(b: nat, t: nat, x: nat)
    requires b > 1 && 0 < t && x < b
    ensures Quo(x, t) < b && Rem(x, t) < t
    ensures ShortDivided(b, [x], [Quo(x, t)], t, Rem(x, t))
  {
    assert 0 * b == 0;
    ShortDigit(b, x, 0, x, t);
    hide Quo, Rem, Val;
    ValOne(b, x);
    ValOne(b, Quo(x, t));
  }

  /** Division by a single digit t, unrolled. */
  method ShortDivide(b: nat, u: array<nat>, t: nat) returns (quotient: nat, rem: nat)
    requires b > 1 && u.Length == 5 && AllDigits(b, u) && 0 < t < b
    ensures Val(b, u[1..5]) == quotient * t + rem && rem < t
  {
    hide Val, Combine, Quo, Rem;
    ShortStart(b, t, u[1]);
    var q1 := Quo(u[1], t);
    ShortStep(b, [u[1]], [q1], t, Rem(u[1], t), u[2]);
    var rbj := Combine(b, Rem(u[1], t), u[2]);
    var q2 := Quo(rbj, t);
    ShortStep(b, [u[1]] + [u[2]], [q1] + [q2], t, Rem(rbj, t), u[3]);
    rbj := Combine(b, Rem(rbj, t), u[3]);
    var q3 := Quo(rbj, t);
    ShortStep(b, [u[1]] + [u[2]] + [u[3]], [q1] + [q2] + [q3], t, Rem(rbj, t), u[4]);
    rbj := Combine(b, Rem(rbj, t), u[4]);
    var q4 := Quo(rbj, t);
    rem := Rem(rbj, t);
    quotient := Assemble(b, q1, q2, q3, q4);
    assert u[1..5] == [u[1]] + [u[2]] + [u[3]] + [u[4]];
    assert [q1] + [q2] + [q3] + [q4] == [q1, q2, q3, q4];
  }

  // -------------------------------------------------------------- normalisation

  /** D1: the shift that brings the leading digit to at least half the base. */
  method Normalise(b: nat, h: nat, v1: nat) returns (d: nat)
    requires h > 0 && b == Pow(2, h) && 0 < v1 < b
    ensures d < h && v1 * Pow(2, d) < b <= 2 * (v1 * Pow(2, d))
  {
    d := 0;
    var t := v1;
    assert v1 * Pow(2, 0) == v1;
    assert b == 2 * Pow(2, h - 1);
    while t < b / 2
      invariant t == v1 * Pow(2, d) && 0 < t < b
      decreases b - t
    {
      d := d + 1;
      assert v1 * (2 * Pow(2, d - 1)) == 2 * (v1 * Pow(2, d - 1));
      t := t * 2;
    }
    ShiftBelow(b, h, v1, d);
  }

  lemma ShiftBelow(b: nat, h: nat, v1: nat, d: nat)
    requires b == Pow(2, h) && 0 < v1 && v1 * Pow(2, d) < b
    ensures d < h
  {
    if h <= d {
      PowAdd(2, d - h, h);
      MulLe(1, Pow(2, d - h), b);
      MulLe(1, v1, Pow(2, d));
      assert false;
    }
  }

  /** Numbers with k leading zeros are small; a nonzero leading digit makes them large. */
  lemma LeadingZeros(b: nat, s: seq<nat>, k: nat)
    requires b > 0 && k <= |s| && IsDigits(b, s) && forall i :: 0 <= i < k ==> s[i] == 0
    ensures Val(b, s) == Val(b, s[k..]) < Pow(b, |s| - k)
    ensures k < |s| && s[k] > 0 ==> Val(b, s) >= Pow(b, |s| - k - 1)
  {
    hide Val, Pow;
    ValZeros(b, s, k);
    ValBound(b, s[k..]);
    if k < |s| && s[k] > 0 {
      LeadingNonzero(b, s[k..]);
    }
  }

  lemma LeadingNonzero(b: nat, s: seq<nat>)
    requires |s| > 0 && s[0] > 0
    ensures Val(b, s) >= Pow(b, |s| - 1)
  {
    MulLe(1, s[0], Pow(b, |s| - 1));
  }

  /** With no more digits than the divisor before the point, the dividend's leading
      n digits stay below the divisor, also after both are multiplied by `two`. */
  lemma LeadingBelow(b: nat, us: seq<nat>, vs: seq<nat>, u: nat, v: nat, two: nat, m: nat, n: nat)
    requires b > 0 && two > 0 && n >= 1 && |us| == m + n + 1
    requires Val(b, us) == u * two && Val(b, vs) == v * two
    requires u < Pow(b, m + n) && Pow(b, n - 1) <= v
    ensures Val(b, us[..n]) < Val(b, vs)
  {
    hide Val;
    hide Pow;
    ValSplit(b, us, n);
    PowAdd(b, n - 1, m + 1);
    var p, top := Pow(b, m + 1), Val(b, us[..n]);
    MulLe(Pow(b, n - 1), v, p);
    TopBelow(top, p, Val(b, us[n..]), u, v, two);
  }

  lemma TopBelow(top: nat, p: nat, low: nat, u: nat, v: nat, two: nat)
    requires top * p + low == u * two && u < v * p && 0 < two
    ensures top < v * two
  {
    MulLt(u, v * p, two);
    assert (v * p) * two == (v * two) * p;
    if v * two <= top {
      MulLe(v * two, top, p);
      assert false;
    }
  }

  /** Undoing the normalisation. */
  lemma Denormalise(u: nat, v: nat, two: nat, ut: nat, vt: nat, q: nat, r: nat)
    requires two > 0 && ut == u * two && vt == v * two && ut == q * vt + r && r < vt
    ensures u == q * v + r / two && r / two < v
  {
    DivModParts(r, two);
    assert q * (v * two) == (q * v) * two;
    assert (u - q * v) * two == u * two - (q * v) * two;
    DivModUnique(r, two, u - q * v, 0);
    if v <= r / two {
      MulLe(v, r / two, two);
      assert false;
    }
  }

  // ------------------------------------------------------------------ __qdivrem

  /** Skip the dividend's leading zeros: m + 1 is the number of quotient digits. */
  method SkipZeros(b: nat, u: array<nat>, n: nat, ghost ull: nat, ghost vll: nat) returns (uo: nat, m: nat)
    requires b > 1 && u.Length == 5 && AllDigits(b, u) && u[0] == 0 && Val(b, u[1..5]) == ull
    requires 2 <= n <= 4 && Pow(b, n - 1) <= vll <= ull
    ensures uo + m + n == 4 && forall i :: 0 <= i <= uo ==> u[i] == 0
    ensures Val(b, u[uo..5]) == ull < Pow(b, m + n)
  {
    hide Val, Pow;
    uo, m := 0, 4 - n;
    while u[uo + 1] == 0
      invariant uo + m + n == 4 && forall i :: 0 <= i <= uo ==> u[i] == 0
      decreases m
    {
      SkipDigit(b, u[1..5], uo, n, vll);
      uo, m := uo + 1, m - 1;
    }
    assert u[0..5][1..] == u[1..5] && u[0..5][uo..] == u[uo..5];
    DividendDigits(b, u[0..5], uo, m, n, ull);
  }

  /** D1 on both numbers: multiply them by the same power of two, 2^d. */
  method NormaliseBoth(b: nat, h: nat, u: array<nat>, uo: nat, m: nat, v: array<nat>, vo: nat, n: nat,
                       ghost ull: nat, ghost vll: nat)
    returns (d: nat)
    requires h > 0 && b == Pow(2, h) && b > 1 && u != v && AllDigits(b, u) && AllDigits(b, v) && n >= 1
    requires uo + m + n < u.Length && vo + n < v.Length && u[uo] == 0 && v[vo + 1] > 0
    requires Val(b, u[uo..uo + m + n + 1]) == ull && Val(b, v[vo + 1..vo + n + 1]) == vll
    modifies u, v
    ensures d < h && AllDigits(b, u) && AllDigits(b, v) && b <= 2 * v[vo + 1]
    ensures Val(b, u[uo..uo + m + n + 1]) == ull * Pow(2, d)
    ensures Val(b, v[vo + 1..vo + n + 1]) == vll * Pow(2, d)
    ensures forall k :: 0 <= k < u.Length && !(uo <= k <= uo + m + n) ==> u[k] == old(u[k])
  {
    hide Val, Pow;
    d := Normalise(b, h, v[vo + 1]);
    if d > 0 {
      assert u[uo] * Pow(2, d) == 0;
      Shl(b, h, u, uo, m + n, d);
      Shl(b, h, v, vo + 1, n - 1, d);
    } else {
      PowZero(2);
    }
  }

  /** The quotient digits before the first one computed are zero. */
  method ZeroLeading(q: array<nat>, k: nat)
    requires k <= q.Length
    modifies q
    ensures forall i :: 0 <= i < k ==> q[i] == 0
  {
    var i := k;
    while i > 0
      invariant 0 <= i <= k && forall j :: i <= j < k ==> q[j] == 0
    {
      i := i - 1;
      q[i] := 0;
    }
  }

  /** The part of __qdivrem after the divisor's leading zeros were skipped: v points to
      vspace + vo and has n == 4 - vo >= 2 digits. */
  method LongDivide(b: nat, h: nat, u: array<nat>, v: array<nat>, vo: nat, ghost ull: nat, ghost vll: nat, want: bool)
    returns (quotient: nat, rem: Remainder)
    requires h > 0 && b == Pow(2, h) && b > 1
    requires u != v && u.Length == v.Length == 5 && AllDigits(b, u) && AllDigits(b, v)
    requires u[0] == 0 && Val(b, u[1..5]) == ull && Val(b, v[1..5]) == vll && 0 < vll <= ull
    requires vo <= 2 && v[vo + 1] > 0 && forall i :: 1 <= i <= vo ==> v[i] == 0
    modifies u, v
    ensures ull / vll == quotient
    ensures rem == if want then Remainder(ull % vll) else NotWanted
  {
    hide Val, Pow, Divided;
    var n := 4 - vo;
    DivisorDigits(b, v[1..5], vo);
    assert v[1..5][vo..] == v[vo + 1..vo + n + 1];
    var uo, m := SkipZeros(b, u, n, ull, vll);
    var q := new nat[5];
    ZeroLeading(q, 4 - m);
    var d := NormaliseBoth(b, h, u, uo, m, v, vo, n, ull, vll);
    ghost var us, vs := u[uo..uo + m + n + 1], v[vo + 1..vo + n + 1];
    LeadingBelow(b, us, vs, ull, vll, Pow(2, d), m, n);
    assert us[..n] == u[uo..uo + n];
    DivideLoop(b, u, uo, v, vo, q, 4 - m, m, n);
    QuotientRemainder(b, us, q[4 - m..5], vs, u[uo + m + 1..uo + m + n + 1], ull, vll, Pow(2, d));
    quotient := AssembleArray(b, q, 3 - m);
    rem := NotWanted;
    if want {
      var r := TakeRemainder(b, h, u, uo + m, n, d);
      rem := Remainder(r);
    }
  }

  /** The double word in a[1..4], whose first k digits are zero. */
  method AssembleArray(b: nat, a: array<nat>, k: nat) returns (r: nat)
    requires a.Length == 5 && k <= 4 && forall i :: 1 <= i <= k ==> a[i] == 0
    requires forall i :: 1 <= i <= 4 ==> a[i] < b
    ensures r == Val(b, a[k + 1..5])
  {
    hide Val;
    r := Assemble(b, a[1], a[2], a[3], a[4]);
    assert a[1..5] == [a[1], a[2], a[3], a[4]];
    ValZeros(b, a[1..5], k);
    assert a[1..5][k..] == a[k + 1..5];
  }

  /** Shift the remainder back and collect it. */
  method TakeRemainder(b: nat, h: nat, u: array<nat>, o: nat, n: nat, d: nat) returns (r: nat)
    requires b == Pow(2, h) && b > 1 && d < h && u.Length == 5 && o + n == 4 && AllDigits(b, u)
    requires forall i :: 0 <= i <= o ==> u[i] == 0
    modifies u
    ensures r == old(Val(b, u[o + 1..5])) / Pow(2, d)
  {
    hide Val, Pow;
    if d > 0 {
      ShiftRemainder(b, h, u, o, n, d);
    } else {
      PowZero(2);
    }
    r := AssembleArray(b, u, o);
  }

  lemma DivisorDigits(b: nat, s: seq<nat>, vo: nat)
    requires b > 0 && |s| == 4 && vo < 4 && IsDigits(b, s) && s[vo] > 0 && forall i :: 0 <= i < vo ==> s[i] == 0
    ensures Val(b, s[vo..]) == Val(b, s) >= Pow(b, 3 - vo) > 0
  {
    LeadingZeros(b, s, vo);
  }

  /** A dividend that is not below the divisor has a nonzero digit at or before it. */
  lemma SkipDigit(b: nat, s: seq<nat>, uo: nat, n: nat, vll: nat)
    requires b > 0 && |s| == 4 && 1 <= n && uo <= 4 - n && IsDigits(b, s) && forall i :: 0 <= i <= uo ==> s[i] == 0
    requires Pow(b, n - 1) <= vll <= Val(b, s)
    ensures uo < 4 - n
  {
    if uo == 4 - n {
      LeadingZeros(b, s, uo + 1);
      assert false;
    }
  }

  lemma DividendDigits(b: nat, s: seq<nat>, uo: nat, m: nat, n: nat, ull: nat)
    requires b > 0 && |s| == 5 && IsDigits(b, s) && uo + m + n == 4 && forall i :: 0 <= i <= uo ==> s[i] == 0
    requires ull == Val(b, s[1..])
    ensures Val(b, s[uo..]) == ull < Pow(b, m + n)
  {
    LeadingZeros(b, s, uo);
    LeadingZeros(b, s, uo + 1);
    ValZeros(b, s, 1);
  }

  lemma QuotientRemainder(b: nat, us: seq<nat>, qs: seq<nat>, vs: seq<nat>, rem: seq<nat>, ull: nat, vll: nat, two: nat)
    requires two > 0 && vll > 0 && Divided(b, us, qs, vs, rem)
    requires Val(b, us) == ull * two && Val(b, vs) == vll * two
    ensures Val(b, qs) == ull / vll && Val(b, rem) / two == ull % vll
  {
    hide Val;
    Denormalise(ull, vll, two, Val(b, us), Val(b, vs), Val(b, qs), Val(b, rem));
    DivModUnique(ull, vll, Val(b, qs), Val(b, rem) / two);
  }

  /** __qdivrem: for every dividend and divisor, quotient and remainder. */
  method QuotRem(h: nat, ull: nat, vll: nat, want: bool) returns (r: Division)
    requires h > 0 && ull < Range(h) && vll < Range(h)
    ensures vll == 0 ==> r == DivideByZero
    ensures vll > 0 ==> r == Division(ull / vll, if want then Remainder(ull % vll) else NotWanted)
  {
    hide Val, Pow;
    var b := Pow(2, h);
    BaseIsEven(h);
    if vll == 0 {
      return DivideByZero;
    }
    if ull < vll {
      DivModUnique(ull, vll, 0, ull);
      return Division(0, if want then Remainder(ull) else NotWanted);
    }
    var u := LoadDigits(b, ull);
    var v := LoadDigits(b, vll);
    var n, vo := 4, 0;
    while v[vo + 1] == 0
      invariant n == 4 - vo && 0 <= vo <= 2 && forall i :: 1 <= i <= vo ==> v[i] == 0
      decreases n
    {
      n := n - 1;
      if n == 1 {
        var t := v[vo + 2];
        OneDigit(b, v[1..5]);
        var q, rem := ShortDivide(b, u, t);
        DivModUnique(ull, vll, q, rem);
        return Division(q, if want then Remainder(rem) else NotWanted);
      }
      vo := vo + 1;
    }
    var q, rem := LongDivide(b, h, u, v, vo, ull, vll, want);
    return Division(q, rem);
  }

  /** The digits of x at [1..4] of a five-digit space whose first digit is zero. */
  method LoadDigits(b: nat, x: nat) returns (u: array<nat>)
    requires b > 1 && x < Pow(b, 4)
    ensures fresh(u) && u.Length == 5 && AllDigits(b, u) && u[0] == 0 && Val(b, u[1..5]) == x
  {
    hide Val, Pow, Split;
    u := new nat[5];
    var s := Split(b, x);
    SplitVal(b, x);
    SplitLength(b, x);
    u[0], u[1], u[2], u[3], u[4] := 0, s[0], s[1], s[2], s[3];
    assert u[1..5] == s;
  }

  lemma SplitLength(b: nat, x: nat)
    requires b > 0
    ensures |Split(b, x)| == 4
  {
  }

  lemma OneDigit(b: nat, s: seq<nat>)
    requires |s| == 4 && forall i :: 0 <= i < 3 ==> s[i] == 0
    ensures Val(b, s) == s[3]
  {
    ValZeros(b, s, 3);
    assert s[3..] == [s[3]];
    ValOne(b, s[3]);
  }

  // ------------------------------------------------------------ signed wrappers

  /** Quotient truncated toward zero and its remainder (section 6.5.5 of C99). */
  function TruncDiv(a: int, b: int): int
    requires b != 0
  {
    if (a < 0) == (b < 0) then Abs(a) / Abs(b) else -(Abs(a) / Abs(b))
  }

  function TruncMod(a: int, b: int): int
    requires b != 0
  {
    if a < 0 then -(Abs(a) % Abs(b)) else Abs(a) % Abs(b)
  }

  /** The law of section 6.5.5: (a/b)*b + a%b is a, and |a%b| < |b|. */
  lemma TruncLaw(a: int, b: int)
    requires b != 0
    ensures TruncDiv(a, b) * b + TruncMod(a, b) == a
    ensures Abs(TruncMod(a, b)) < Abs(b)
    ensures TruncMod(a, b) != 0 ==> (TruncMod(a, b) < 0 <==> a < 0)
  {
    DivModParts(Abs(a), Abs(b));
    SignedProduct(Abs(a) / Abs(b), b);
  }

  lemma SignedProduct(q: int, b: int)
    ensures (-q) * b == -(q * b) && (-q) * (-b) == q * b && q * (-b) == -(q * b)
  {
  }

  lemma AbsQuotient(a: nat, b: nat)
    requires b > 0
    ensures a / b <= a
    ensures b > 1 ==> 2 * (a / b) <= a
    ensures a % b < b
  {
    DivModParts(a, b);
    MulLe(1, b, a / b);
    if b > 1 { MulLe(2, b, a / b); }
  }

  datatype Result = Trap | Value(value: int)

  /** __divdi3: truncated quotient; only the most negative number over -1 does not fit,
      and gives itself. */
  method DivDi3(h: nat, a: int, b: int) returns (r: Result)
    requires h > 0 && IsLongLong(Range(h), a) && IsLongLong(Range(h), b)
    ensures b == 0 ==> r == Trap
    ensures b != 0 && !(2 * a == 0 - Range(h) && b == -1) ==> r == Value(TruncDiv(a, b))
    ensures 2 * a == 0 - Range(h) && b == -1 ==> r == Value(a)
  {
    hide Pow, Range;
    var range := Range(h);
    RangeIsEven(h);
    var ua, ub := a % range, b % range;
    ToUnsigned(range, a);
    ToUnsigned(range, b);
    NegateFacts(range, ua);
    NegateFacts(range, ub);
    var neg := false;
    if a < 0 { ua, neg := Negate(range, ua), !neg; }
    if b < 0 { ub, neg := Negate(range, ub), !neg; }
    assert ua == Abs(a) && ub == Abs(b);
    var d := QuotRem(h, ua, ub, false);
    if d == DivideByZero { return Trap; }
    var uq := d.quotient;
    AbsQuotient(ua, ub);
    NegateFacts(range, uq);
    if neg { uq := Negate(range, uq); }
    return Value(Signed(range, uq));
  }

  /** __moddi3: the remainder with the sign of the dividend, for every divisor. */
  method ModDi3(h: nat, a: int, b: int) returns (r: Result)
    requires h > 0 && IsLongLong(Range(h), a) && IsLongLong(Range(h), b)
    ensures b == 0 ==> r == Trap
    ensures b != 0 ==> r == Value(TruncMod(a, b))
  {
    hide Pow, Range;
    var range := Range(h);
    RangeIsEven(h);
    var ua, ub := a % range, b % range;
    ToUnsigned(range, a);
    ToUnsigned(range, b);
    NegateFacts(range, ua);
    NegateFacts(range, ub);
    var neg := false;
    if a < 0 { ua, neg := Negate(range, ua), !neg; }
    if b < 0 { ub := Negate(range, ub); }
    assert ua == Abs(a) && ub == Abs(b);
    var d := QuotRem(h, ua, ub, true);
    if d == DivideByZero { return Trap; }
    var ur := d.remainder.value;
    AbsQuotient(ua, ub);
    NegateFacts(range, ur);
    if neg { ur := Negate(range, ur); }
    return Value(Signed(range, ur));
  }
}
