/** Double-word multiplication from three half-size products (gcc-millicode muldi3.c). */
module MulDi3 {
  import opened Digits
  import opened LongLong

  /** A double word as the code keeps it: two unsigned ints. */
  datatype Pair = Pair(hi: nat, lo: nat)

  ghost predicate IsPair(w: nat, p: Pair) {
    p.hi < w && p.lo < w
  }

  ghost function Double(w: nat, p: Pair): int {
    p.hi * w + p.lo
  }

  /** One more than the largest unsigned int and unsigned long long. */
  function IntRange(b: nat): (r: nat)
    ensures b > 0 ==> r > 0
  {
    b * b
  }

  function LongRange(b: nat): (r: nat)
    ensures b > 0 ==> r > 0
  {
    MulPositive(b, b);
    MulPositive(b * b, b * b);
    (b * b) * (b * b)
  }

  /** LHUP: the low half moved to the upper half. */
  function LHup(b: nat, x: nat): nat
    requires b > 0
  {
    Word(b, x * b)
  }

  /** -x as an unsigned int. */
  function NegWord(b: nat, x: int): nat
    requires b > 0
  {
    Word(b, 0 - x)
  }

  // ------------------------------------------------------------- modular sums

  function Mod(x: int, m: nat): nat
    requires m > 0
  {
    x % m
  }

  lemma ModUnique(x: int, y: int, m: nat, k: int)
    requires m > 0 && x == y + k * m
    ensures x % m == y % m
  {
    DivModParts(y, m);
    assert (y / m + k) * m == (y / m) * m + k * m;
    DivModUnique(x, m, y / m + k, y % m);
  }

  lemma ModAdd(x: int, y: int, m: nat)
    requires m > 0
    ensures Mod(Mod(x, m) + y, m) == Mod(x + y, m)
  {
    DivModParts(x, m);
    ModUnique(x + y, x % m + y, m, x / m);
  }

  lemma ModSmall(x: nat, m: nat)
    requires x < m
    ensures Mod(x, m) == x
  {
    DivModUnique(x, m, 0, x);
  }

  /** The comparison finds the carry of a word addition, and the borrow of a subtraction. */
  lemma WordSum(w: nat, x: nat, y: nat)
    requires x < w && y < w
    ensures (x + y) % w < w && ((x + y) % w < x <==> (x + y) % w < y)
    ensures (x + y) % w == x + y - (if (x + y) % w < x then w else 0)
    ensures (x - y) % w < w
    ensures (x - y) % w == x - y + (if (x - y) % w > x then w else 0)
  {
    DivModUnique(x + y, w, if x + y < w then 0 else 1, if x + y < w then x + y else x + y - w);
    DivModUnique(x - y, w, if y <= x then 0 else -1, if y <= x then x - y else x - y + w);
  }

  /** Adding a double word with the carry found by comparing the low words. */
  lemma AddCarry(w: nat, p: Pair, xh: nat, xl: nat, r: Pair)
    requires w > 0 && IsPair(w, p) && xl < w
    requires r.lo == (p.lo + xl) % w
    requires r.hi == (p.hi + (xh + if r.lo < p.lo then 1 else 0)) % w
    ensures IsPair(w, r) && (r.lo < p.lo <==> r.lo < xl)
    ensures Double(w, r) == Mod(Double(w, p) + Double(w, Pair(xh, xl)), w * w)
  {
    WordSum(w, p.lo, xl);
    var carry := if r.lo < p.lo then 1 else 0;
    HighWord(w, p.hi + (xh + carry), r.lo);
    Distribute3(p.hi, xh, carry, w);
    hide Mod;
    assert (p.hi + (xh + carry)) * w + r.lo == Double(w, p) + Double(w, Pair(xh, xl));
  }

  /** Subtracting a double word, with the borrow found in the same way. */
  lemma SubBorrow(w: nat, p: Pair, xh: nat, xl: nat, r: Pair)
    requires w > 0 && IsPair(w, p) && xl < w
    requires r.lo == (p.lo - xl) % w
    requires r.hi == (p.hi - (xh + if r.lo > p.lo then 1 else 0)) % w
    ensures IsPair(w, r)
    ensures Double(w, r) == Mod(Double(w, p) - Double(w, Pair(xh, xl)), w * w)
  {
    WordSum(w, p.lo, xl);
    var borrow := if r.lo > p.lo then 1 else 0;
    HighWord(w, p.hi - (xh + borrow), r.lo);
    hide Mod;
    Distribute3(p.hi, xh, borrow, w);
  }

  lemma Distribute3(x: int, y: int, z: int, w: int)
    ensures (x + (y + z)) * w == x * w + y * w + z * w
    ensures (x - (y + z)) * w == x * w - y * w - z * w
  {
  }

  /** Reducing the high word modulo w reduces the double word modulo w*w. */
  lemma HighWord(w: nat, x: int, lo: nat)
    requires w > 0 && lo < w
    ensures (x % w) * w + lo == Mod(x * w + lo, w * w)
  {
    DivModParts(x, w);
    var k, y := x / w, x % w;
    assert (k * w + y) * w == k * (w * w) + y * w;
    SnocBelow(y, w, lo);
    DivModUnique(x * w + lo, w * w, k, y * w + lo);
  }

  lemma SnocBelow(y: nat, w: nat, lo: nat)
    requires y < w && lo < w
    ensures y * w + lo < w * w
  {
    MulLe(y + 1, w, w);
  }

  /** x << N is HHALF(x) above LHUP(x). */
  lemma ShiftUp(b: nat, x: nat)
    requires b > 1 && x < b * b
    ensures HHalf(b, x) < b && LHup(b, x) < b * b
    ensures HHalf(b, x) * (b * b) + LHup(b, x) == x * b
  {
    var w := b * b;
    DivModParts(x, b);
    QuotientBelow(b, x, b, x / b, x % b);
    assert ((x / b) * b + x % b) * b == (x / b) * (b * b) + (x % b) * b;
    MulLt(x % b, b, b);
    DivModUnique(x * b, w, x / b, (x % b) * b);
  }

  /** Knuth's three-product identity. */
  lemma ThreeProducts(b: int, u1: int, u0: int, v1: int, v0: int)
    ensures (u1 * b + u0) * (v1 * b + v0) ==
            ((u1 * v1) * (b * b) + (u1 * v1) * b) + ((u1 - u0) * (v0 - v1)) * b + (u0 * v0) * b + u0 * v0
  {
    var hi, lo := u1 * v1, u0 * v0;
    assert (u1 - u0) * (v0 - v1) == u1 * v0 - hi - lo + u0 * v1;
    assert (u1 * b + u0) * (v1 * b + v0) == hi * (b * b) + (u1 * v0 + u0 * v1) * b + lo by {
      assert (u1 * b) * (v1 * b) == hi * (b * b);
      assert (u1 * b) * v0 == (u1 * v0) * b;
      assert u0 * (v1 * b) == (u0 * v1) * b;
    }
    assert (hi + (u1 * v0 - hi - lo + u0 * v1) + lo) * b == hi * b + (u1 * v0 - hi - lo + u0 * v1) * b + lo * b;
  }

  // ------------------------------------------------------------------- __lmulq

  /** |x - y| and whether x < y. */
  function Gap(x: nat, y: nat): (d: nat)
    ensures d == x - y || d == y - x
  {
    if x >= y then x - y else y - x
  }

  /** __lmulq: the exact double-word product of two unsigned ints. */
  method LMulQ(b: nat, u: nat, v: nat) returns (prod: Pair)
    requires b > 1 && u < IntRange(b) && v < IntRange(b)
    ensures IsPair(IntRange(b), prod) && Double(IntRange(b), prod) == u * v
  {
    hide *;
    var u1, u0, v1, v0 := HHalf(b, u), LHalf(b, u), HHalf(b, v), LHalf(b, v);
    Halves(b, u);
    Halves(b, v);
    MulPositive(u0, v0);
    MulPositive(u1, v1);
    var low := Word(b, u0 * v0);
    ProductFits(b, u0, v0);
    if u1 == 0 && v1 == 0 {
      SmallProduct(b, u, v, u0, v0, low);
      return Pair(0, low);
    }
    var udiff, vdiff := Gap(u1, u0), Gap(v0, v1);
    MulPositive(udiff, vdiff);
    var neg := (u1 < u0) != (v0 < v1);
    var mid := Word(b, udiff * vdiff);
    MiddleProduct(b, u1, u0, v1, v0, mid);
    var high := Word(b, u1 * v1);
    ProductFits(b, u1, v1);
    prod := AddParts(b, high, mid, low, neg);
    Collect(b, u, v, u1, u0, v1, v0, high, mid, low, neg);
  }

  /** What the three products add up to. */
  ghost function Parts(b: nat, high: nat, mid: nat, low: nat, neg: bool): int {
    high * (b * b) + high * b + SignedMid(mid, neg) * b + low * b + low
  }

  /** Add up the products, each at its place, with hand-made carries. */
  method AddParts(b: nat, high: nat, mid: nat, low: nat, neg: bool) returns (prod: Pair)
    requires b > 1 && high < IntRange(b) && mid < IntRange(b) && low < IntRange(b)
    ensures IsPair(IntRange(b), prod)
    ensures Double(IntRange(b), prod) == Mod(Parts(b, high, mid, low, neg), LongRange(b))
  {
    hide *;
    var prodh, prodl := Word(b, high + HHalf(b, high)), LHup(b, high);
    ghost var p0 := Pair(prodh, prodl);
    StartProduct(b, high, p0);
    var was := prodl;
    if neg {
      prodl := Word(b, prodl - LHup(b, mid));
      prodh := Word(b, prodh - (HHalf(b, mid) + if prodl > was then 1 else 0));
    } else {
      prodl := Word(b, prodl + LHup(b, mid));
      prodh := Word(b, prodh + (HHalf(b, mid) + if prodl < was then 1 else 0));
    }
    ghost var p1 := Pair(prodh, prodl);
    AddMiddle(b, p0, mid, neg, p1);
    was := prodl;
    prodl := Word(b, prodl + LHup(b, low));
    prodh := Word(b, prodh + (HHalf(b, low) + if prodl < was then 1 else 0));
    ghost var p2 := Pair(prodh, prodl);
    AddMiddle(b, p1, low, false, p2);
    prodl := Word(b, prodl + low);
    if prodl < low {
      prodh := Word(b, prodh + 1);
    }
    prod := Pair(prodh, prodl);
    AddLow(b, p2, low, prod);
    SumOfParts(b, high, mid, low, neg, p0, p1, p2, prod);
  }

  lemma Halves(b: nat, x: nat)
    requires b > 1 && x < IntRange(b)
    ensures HHalf(b, x) < b && LHalf(b, x) < b && x == HHalf(b, x) * b + LHalf(b, x)
  {
    DivModParts(x, b);
    QuotientBelow(b, x, b, x / b, x % b);
  }

  /** A product of two half-words fits an unsigned int. */
  lemma ProductFits(b: nat, x: nat, y: nat)
    requires x < b && y < b
    ensures 0 <= x * y < IntRange(b) && Word(b, x * y) == x * y
  {
    MulPositive(x, y);
    MulLe(x, b, y);
    MulLt(y, b, b);
    ModSmall(x * y, b * b);
  }

  lemma SmallProduct(b: nat, u: nat, v: nat, u0: nat, v0: nat, low: nat)
    requires b > 1 && u == 0 * b + u0 && v == 0 * b + v0 && low == u0 * v0 && low < IntRange(b)
    ensures IsPair(IntRange(b), Pair(0, low)) && Double(IntRange(b), Pair(0, low)) == u * v
  {
    assert 0 * (b * b) == 0;
  }

  ghost function SignedMid(mid: nat, neg: bool): int {
    if neg then 0 - mid else mid
  }

  lemma MiddleProduct(b: nat, u1: nat, u0: nat, v1: nat, v0: nat, mid: nat)
    requires b > 1 && u1 < b && u0 < b && v1 < b && v0 < b
    requires mid == Word(b, Gap(u1, u0) * Gap(v0, v1))
    ensures mid < IntRange(b) && SignedMid(mid, (u1 < u0) != (v0 < v1)) == (u1 - u0) * (v0 - v1)
  {
    var x, y := Gap(u1, u0), Gap(v0, v1);
    ProductFits(b, x, y);
    Signs(u1 - u0, v0 - v1);
  }

  lemma Signs(x: int, y: int)
    ensures (0 - x) * y == 0 - x * y && x * (0 - y) == 0 - x * y && (0 - x) * (0 - y) == x * y
  {
  }

  lemma StartProduct(b: nat, high: nat, p: Pair)
    requires b > 1 && high < IntRange(b) && p == Pair(Word(b, high + HHalf(b, high)), LHup(b, high))
    ensures IsPair(IntRange(b), p)
    ensures Double(IntRange(b), p) == Mod(high * (b * b) + high * b, LongRange(b))
  {
    ShiftUp(b, high);
    HighWord(b * b, high + HHalf(b, high), LHup(b, high));
    Distribute3(high, HHalf(b, high), 0, b * b);
  }

  lemma AddMiddle(b: nat, p: Pair, x: nat, neg: bool, r: Pair)
    requires b > 1 && x < IntRange(b) && IsPair(IntRange(b), p)
    requires !neg ==> r.lo == Word(b, p.lo + LHup(b, x)) &&
                      r.hi == Word(b, p.hi + (HHalf(b, x) + if r.lo < p.lo then 1 else 0))
    requires neg ==> r.lo == Word(b, p.lo - LHup(b, x)) &&
                     r.hi == Word(b, p.hi - (HHalf(b, x) + if r.lo > p.lo then 1 else 0))
    ensures IsPair(IntRange(b), r)
    ensures Double(IntRange(b), r) == Mod(Double(IntRange(b), p) + SignedMid(x, neg) * b, LongRange(b))
  {
    ShiftUp(b, x);
    if neg {
      SubBorrow(b * b, p, HHalf(b, x), LHup(b, x), r);
      Signs(x, b);
    } else {
      AddCarry(b * b, p, HHalf(b, x), LHup(b, x), r);
    }
  }

  lemma AddLow(b: nat, p: Pair, low: nat, r: Pair)
    requires b > 1 && low < IntRange(b) && IsPair(IntRange(b), p)
    requires r.lo == Word(b, p.lo + low)
    requires r.hi == if r.lo < low then Word(b, p.hi + 1) else p.hi
    ensures IsPair(IntRange(b), r)
    ensures Double(IntRange(b), r) == Mod(Double(IntRange(b), p) + low, LongRange(b))
  {
    var w := b * b;
    assert 0 * w == 0;
    ModSmall(p.hi, w);
    WordSum(w, p.lo, low);
    AddCarry(w, p, 0, low, r);
  }

  lemma SumOfParts(b: nat, high: nat, mid: nat, low: nat, neg: bool, p0: Pair, p1: Pair, p2: Pair, p3: Pair)
    requires b > 1
    requires Double(IntRange(b), p0) == Mod(high * (b * b) + high * b, LongRange(b))
    requires Double(IntRange(b), p1) == Mod(Double(IntRange(b), p0) + SignedMid(mid, neg) * b, LongRange(b))
    requires Double(IntRange(b), p2) == Mod(Double(IntRange(b), p1) + SignedMid(low, false) * b, LongRange(b))
    requires Double(IntRange(b), p3) == Mod(Double(IntRange(b), p2) + low, LongRange(b))
    ensures Double(IntRange(b), p3) == Mod(Parts(b, high, mid, low, neg), LongRange(b))
  {
    hide Mod, Double, IntRange, LongRange;
    Chain(LongRange(b), high * (b * b) + high * b, SignedMid(mid, neg) * b, SignedMid(low, false) * b, low,
          Double(IntRange(b), p0), Double(IntRange(b), p1), Double(IntRange(b), p2), Double(IntRange(b), p3));
  }

  lemma Collect(b: nat, u: nat, v: nat, u1: nat, u0: nat, v1: nat, v0: nat, high: nat, mid: nat, low: nat, neg: bool)
    requires b > 1 && u < IntRange(b) && v < IntRange(b) && u == u1 * b + u0 && v == v1 * b + v0
    requires high == u1 * v1 && low == u0 * v0 && SignedMid(mid, neg) == (u1 - u0) * (v0 - v1)
    ensures Mod(Parts(b, high, mid, low, neg), LongRange(b)) == u * v
  {
    hide Mod, IntRange, LongRange;
    Below(b, u, v);
    ThreeProducts(b, u1, u0, v1, v0);
    ModSmall(u * v, LongRange(b));
  }

  lemma Chain(m: nat, x0: int, x1: int, x2: int, x3: int, d0: int, d1: int, d2: int, d3: int)
    requires m > 0 && d0 == Mod(x0, m) && d1 == Mod(d0 + x1, m) && d2 == Mod(d1 + x2, m) && d3 == Mod(d2 + x3, m)
    ensures d3 == Mod(x0 + x1 + x2 + x3, m)
  {
    hide Mod;
    ModAdd(x0, x1, m);
    ModAdd(x0 + x1, x2, m);
    ModAdd(x0 + x1 + x2, x3, m);
  }

  lemma Below(b: nat, u: nat, v: nat)
    requires b > 1 && u < IntRange(b) && v < IntRange(b)
    ensures 0 <= u * v < LongRange(b)
  {
    ProductFits(b * b, u, v);
  }

  // ------------------------------------------------------------------ __muldi3

  /** __muldi3: the product of two long longs, modulo the range of long long. */
  method Multiply(h: nat, a: int, c: int) returns (r: int)
    requires h > 0 && IsLongLong(Range(h), a) && IsLongLong(Range(h), c)
    ensures r == Signed(Range(h), Mod(a * c, Range(h)))
  {
    hide *;
    var b := Pow(2, h);
    var range := Range(h);
    Ranges(h);
    var u, v := a % range, c % range;
    Magnitude(range, a);
    Magnitude(range, c);
    var negall := false;
    if a < 0 { u, negall := Negate(range, u), true; }
    if c < 0 { v, negall := Negate(range, v), !negall; }
    var prod := MultiplyUnsigned(b, u, v);
    var x := JoinPair(b, prod);
    ghost var x0 := x;
    if negall { x := Negate(range, x); }
    r := Signed(range, x);
    SignOfProduct(range, a, c, x0, x);
  }

  function JoinPair(b: nat, p: Pair): nat {
    MulPositive(p.hi, b * b);
    p.hi * (b * b) + p.lo
  }

  lemma Ranges(h: nat)
    requires h > 0
    ensures Pow(2, h) > 1 && Range(h) == LongRange(Pow(2, h)) && Range(h) > 1
  {
    BaseIsEven(h);
    PowFour(Pow(2, h));
    RangeIsEven(h);
  }

  /** The bits of a or of -a, whichever is not negative, are |a|, the most negative
      number included. */
  lemma Magnitude(range: nat, a: int)
    requires range > 1 && IsLongLong(range, a)
    ensures 0 <= a % range < range
    ensures (if a < 0 then Negate(range, a % range) else a % range) == Abs(a) < range
  {
    ToUnsigned(range, a);
    NegateFacts(range, a % range);
  }

  lemma SignOfProduct(range: nat, a: int, c: int, x0: nat, x: nat)
    requires range > 1 && x0 == Mod(Abs(a) * Abs(c), range)
    requires x == if (a < 0) != (c < 0) then Negate(range, x0) else x0
    ensures x == Mod(a * c, range)
  {
    Signs(a, c);
    if (a < 0) != (c < 0) {
      NegateMod(range, Abs(a) * Abs(c));
    }
  }

  lemma NegateMod(range: nat, y: int)
    requires range > 0
    ensures Negate(range, Mod(y, range)) == Mod(0 - y, range)
  {
    DivModParts(y, range);
    Signs(y / range, range);
    ModUnique(0 - y, 0 - Mod(y, range), range, 0 - y / range);
  }

  /** The unsigned part: the product modulo LongRange(b). */
  method MultiplyUnsigned(b: nat, u: nat, v: nat) returns (prod: Pair)
    requires b > 1 && u < LongRange(b) && v < LongRange(b)
    ensures JoinPair(b, prod) == Mod(u * v, LongRange(b))
  {
    hide *;
    Words(b, u);
    Words(b, v);
    var u1, u0, v1, v0 := u / (b * b), u % (b * b), v / (b * b), v % (b * b);
    if u1 == 0 && v1 == 0 {
      prod := LMulQ(b, u0, v0);
      OneWord(b, u, v, prod);
    } else {
      var low := LMulQ(b, u0, v0);
      var udiff, vdiff := Gap(u1, u0), Gap(v0, v1);
      var negmid := (u1 < u0) != (v0 < v1);
      var mid := Word(b, udiff * vdiff);
      var high := Word(b, u1 * v1);
      prod := Pair(Word(b, high + (if negmid then NegWord(b, mid) else mid) + low.lo + low.hi), low.lo);
      TwoWords(b, u, v, u1, u0, v1, v0, low, high, mid, negmid, prod);
    }
  }

  lemma Words(b: nat, x: nat)
    requires b > 1 && x < LongRange(b)
    ensures b * b > 0 && 0 <= x / (b * b) < IntRange(b) && 0 <= x % (b * b) < IntRange(b)
    ensures x == (x / (b * b)) * (b * b) + x % (b * b)
  {
    Halves(b * b, x);
  }

  lemma OneWord(b: nat, u: nat, v: nat, prod: Pair)
    requires b > 1 && u < LongRange(b) && v < LongRange(b) && u / (b * b) == 0 && v / (b * b) == 0
    requires Double(IntRange(b), prod) == (u % (b * b)) * (v % (b * b))
    ensures JoinPair(b, prod) == Mod(u * v, LongRange(b))
  {
    Words(b, u);
    Words(b, v);
    assert 0 * (b * b) == 0;
    Below(b, u, v);
    ModSmall(u * v, LongRange(b));
  }

  lemma TwoWords(b: nat, u: nat, v: nat, u1: nat, u0: nat, v1: nat, v0: nat, low: Pair, high: nat, mid: nat,
                 negmid: bool, prod: Pair)
    requires b > 1 && u == u1 * (b * b) + u0 && v == v1 * (b * b) + v0
    requires IsPair(IntRange(b), low) && Double(IntRange(b), low) == u0 * v0
    requires high == Word(b, u1 * v1) && mid == Word(b, Gap(u1, u0) * Gap(v0, v1)) && negmid == ((u1 < u0) != (v0 < v1))
    requires prod == Pair(Word(b, high + (if negmid then NegWord(b, mid) else mid) + low.lo + low.hi), low.lo)
    ensures JoinPair(b, prod) == Mod(u * v, LongRange(b))
  {
    var w := IntRange(b);
    var m := (u1 - u0) * (v0 - v1);
    MiddleWord(b, u1, u0, v1, v0, mid, negmid);
    var y := u1 * v1 + m + low.lo + low.hi;
    HighSum(w, u1 * v1, m, low.lo + low.hi, high, if negmid then NegWord(b, mid) else mid);
    HighWord(w, y, low.lo);
    ThreeProducts(w, u1, u0, v1, v0);
    TwoWordSum(w, u1 * v1, m, low.hi, low.lo, u0 * v0, u * v, y);
  }

  /** The middle product, sign included, modulo a word. */
  lemma MiddleWord(b: nat, u1: nat, u0: nat, v1: nat, v0: nat, mid: nat, negmid: bool)
    requires b > 1 && mid == Word(b, Gap(u1, u0) * Gap(v0, v1)) && negmid == ((u1 < u0) != (v0 < v1))
    ensures (if negmid then NegWord(b, mid) else mid) == Mod((u1 - u0) * (v0 - v1), IntRange(b))
  {
    var x := Gap(u1, u0) * Gap(v0, v1);
    Signs(u1 - u0, v0 - v1);
    if negmid {
      NegateMod(IntRange(b), x);
    }
  }

  lemma HighSum(w: nat, x: int, m: int, z: int, high: nat, mid: nat)
    requires w > 0 && high == Mod(x, w) && mid == Mod(m, w)
    ensures Mod(high + mid + z, w) == Mod(x + m + z, w)
  {
    hide Mod;
    ModAdd(x, mid + z, w);
    ModAdd(m, x + z, w);
  }

  lemma TwoWordSum(w: nat, hv: int, m: int, lh: int, ll: int, lv: int, uv: int, y: int)
    requires w > 0 && lv == lh * w + ll && y == hv + m + ll + lh
    requires uv == (hv * (w * w) + hv * w) + m * w + lv * w + lv
    ensures Mod(uv, w * w) == Mod(y * w + ll, w * w)
  {
    assert (lh * w + ll) * w == lh * (w * w) + ll * w;
    assert y * w == hv * w + m * w + ll * w + lh * w;
    assert (hv + lh) * (w * w) == hv * (w * w) + lh * (w * w);
    ModUnique(uv, y * w + ll, w * w, hv + lh);
  }
}
