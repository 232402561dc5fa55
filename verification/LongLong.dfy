/** The words of gcc-millicode longlong.h.

    The half-word size h is a parameter: b == 2^h is the digit base, an
    `unsigned int` holds the numbers below b*b and an `unsigned long long` the
    numbers below b^4.  The shipped library has h == 16. */
module LongLong {
  import opened Digits

  // ------------------------------------------------- the header's word macros

  /** What an unsigned int keeps of an integer. */
  function Word(b: nat, x: int): nat
    requires b > 0
  {
    x % (b * b)
  }

  function HHalf(b: nat, x: nat): nat
    requires b > 0
  {
    x / b
  }

  function LHalf(b: nat, x: nat): nat
    requires b > 0
  {
    x % b
  }

  /** Bitwise or of a multiple of k and a number below k, where no bit is in both. */
  function Or(hi: nat, lo: nat, k: nat): nat
    requires k > 0 && hi % k == 0 && lo < k
  {
    hi + lo
  }

  function Combine(b: nat, x: nat, y: nat): (r: nat)
    requires x < b && y < b
    ensures r == x * b + y && r < b * b
  {
    DivModUnique(x * b, b, x, 0);
    MulLe(x + 1, b, b);
    Or(x * b, y, b)
  }

  // ---------------------------------------------------------------- long longs

  /** One more than the largest unsigned long long, for half-words of h bits. */
  function Range(h: nat): nat {
    Pow(Pow(2, h), 4)
  }

  lemma PowFour(b: nat)
    ensures Pow(b, 4) == (b * b) * (b * b)
  {
    PowAdd(b, 2, 2);
    PowTwo(b);
  }

  lemma BaseIsEven(h: nat)
    requires h > 0
    ensures Pow(2, h) == 2 * Pow(2, h - 1) && Pow(2, h) > 1
  {
  }

  /** The long long with the same bits as x. */
  function Signed(range: nat, x: nat): int {
    if 2 * x < range then x else x - range
  }

  predicate IsLongLong(range: nat, a: int) {
    0 - range <= 2 * a < range
  }

  /** Negation of an unsigned long long. */
  function Negate(range: nat, x: nat): nat
    requires range > 0
  {
    (0 - x) % range
  }

  function Abs(a: int): nat {
    if a < 0 then -a else a
  }

  lemma NegateFacts(range: nat, x: nat)
    requires range > 0 && x < range
    ensures Negate(range, x) == if x == 0 then 0 else range - x
  {
    DivModUnique(0 - x, range, if x == 0 then 0 else -1, if x == 0 then 0 else range - x);
  }

  lemma ToUnsigned(range: nat, a: int)
    requires range > 0 && IsLongLong(range, a)
    ensures a % range == if a < 0 then a + range else a
  {
    DivModUnique(a, range, if a < 0 then -1 else 0, if a < 0 then a + range else a);
  }

  lemma RangeIsEven(h: nat)
    requires h > 0
    ensures Range(h) > 1 && Range(h) % 2 == 0
  {
    BaseIsEven(h);
    PowStep(Pow(2, h), 3);
    EvenProduct(Pow(2, h - 1), Pow(Pow(2, h), 3));
  }

  lemma EvenProduct(x: nat, p: nat)
    requires x > 0 && p > 0
    ensures ((2 * x) * p) % 2 == 0 && (2 * x) * p > 1
  {
    assert (2 * x) * p == 2 * (x * p);
    MulPositive(x, p);
  }
}
