/** atoi (common/libc/stdlib/atoi.c) and its round trip with printf's %d. */
module Atoi {
  import opened Digits
  import opened Format
  import opened FormatMeaning
  import LongLong

  predicate IsDigit(ch: char) {
    '0' <= ch <= '9'
  }

  function DigitValue(ch: char): nat
    requires IsDigit(ch)
  {
    (ch - '0') as nat
  }

  /** The first position from i on that is not a blank. */
  function SkipBlanks(s: string, i: nat): (k: nat)
    requires i <= |s|
    ensures i <= k <= |s|
    decreases |s| - i
  {
    if i < |s| && (s[i] == ' ' || s[i] == '\t') then SkipBlanks(s, i + 1) else i
  }

  /** The digits from i on, read as one number after `acc`, with no limit on its size. */
  function ReadFrom(s: string, i: nat, acc: nat): nat
    requires i <= |s|
    decreases |s| - i
  {
    if i < |s| && IsDigit(s[i]) then ReadFrom(s, i + 1, acc * 10 + DigitValue(s[i])) else acc
  }

  /** What a string stands for: blanks, a sign, digits, and anything after them. */
  function Parsed(s: string): int {
    var i := SkipBlanks(s, 0);
    if i < |s| && s[i] == '-' then 0 - ReadFrom(s, i + 1, 0)
    else if i < |s| && s[i] == '+' then ReadFrom(s, i + 1, 0)
    else ReadFrom(s, i, 0)
  }

  lemma ModStep(a: nat, b: nat, d: nat)
    requires a % W32 == b % W32
    ensures (a * 10 + d) % W32 == (b * 10 + d) % W32
  {
  }

  lemma {:induction false} ReadMod(s: string, i: nat, a: nat, b: nat)
    requires i <= |s| && a % W32 == b % W32
    ensures ReadFrom(s, i, a) % W32 == ReadFrom(s, i, b) % W32
    decreases |s| - i
  {
    if i < |s| && IsDigit(s[i]) {
      ModStep(a, b, DigitValue(s[i]));
      ReadMod(s, i + 1, a * 10 + DigitValue(s[i]), b * 10 + DigitValue(s[i]));
    }
  }

  /** The code, with its 32-bit accumulator, gives what the string stands for, reduced to an int. */
  method Convert(s: string) returns (r: int)
    requires NoNul(s)
    ensures r == Signed(Parsed(s), W32)
  {
    hide Signed;
    var val: nat, neg, i := 0, false, 0;
    while i < |s| && (s[i] == ' ' || s[i] == '\t')
      invariant i <= |s| && SkipBlanks(s, i) == SkipBlanks(s, 0)
    {
      i := i + 1;
    }
    if i < |s| && s[i] == '-' {
      neg := true;
      i := i + 1;
    } else if i < |s| && s[i] == '+' {
      i := i + 1;
    }
    ghost var total := ReadFrom(s, i, 0);
    while i < |s|
      invariant i <= |s| && val < W32 && ReadFrom(s, i, val) % W32 == total % W32
    {
      if !IsDigit(s[i]) {
        break;
      }
      ReadMod(s, i + 1, val * 10 + DigitValue(s[i]), (val * 10 + DigitValue(s[i])) % W32);
      val := (val * 10 + DigitValue(s[i])) % W32;
      i := i + 1;
    }
    Reduced(total, val);
    if neg {
      return Signed((W32 - val) % W32, W32);
    }
    return Signed(val, W32);
  }

  lemma Reduced(total: nat, val: nat)
    requires val < W32 && total % W32 == val % W32
    ensures Signed(val, W32) == Signed(total, W32) && Signed((W32 - val) % W32, W32) == Signed(0 - total, W32)
  {
    DivModParts(total, W32);
    DivModParts(val, W32);
    DivModUnique(val, W32, 0, val);
    var q := total / W32;
    if val == 0 {
      DivModUnique(0 - total, W32, 0 - q, 0);
      DivModUnique(W32, W32, 1, 0);
    } else {
      DivModUnique(0 - total, W32, 0 - q - 1, W32 - val);
      DivModUnique(W32 - val, W32, 0, W32 - val);
    }
  }

  // ------------------------------------------------------------------ the round trip

  predicate AllDigits(d: string) {
    forall i :: 0 <= i < |d| ==> IsDigit(d[i])
  }

  /** The number after `acc` and the digits d. */
  function Acc(d: string, acc: nat): nat
    requires AllDigits(d)
  {
    if d == "" then acc else Acc(d[..|d| - 1], acc) * 10 + DigitValue(d[|d| - 1])
  }

  lemma {:induction false} ReadsAll(s: string, i: nat, k: nat, acc: nat)
    requires i + k <= |s| && AllDigits(s[i..i + k])
    ensures ReadFrom(s, i, acc) == ReadFrom(s, i + k, Acc(s[i..i + k], acc))
  {
    if k == 0 {
    } else {
      var d := s[i..i + k];
      assert d[..k - 1] == s[i..i + k - 1] && d[k - 1] == s[i + k - 1];
      assert AllDigits(d[..k - 1]);
      ReadsAll(s, i, k - 1, acc);
      assert IsDigit(s[i + k - 1]);
    }
  }

  lemma {:induction false} AccSplit(a: string, b: string, acc: nat)
    requires AllDigits(a) && AllDigits(b)
    ensures AllDigits(a + b) && Acc(a + b, acc) == Acc(b, Acc(a, acc))
    decreases |b|
  {
    if b == "" {
      assert a + b == a;
    } else {
      AccSplit(a, b[..|b| - 1], acc);
      assert (a + b)[..|a + b| - 1] == a + b[..|b| - 1];
    }
  }

  /** Zeros shift what they follow, and change nothing at the front. */
  lemma {:induction false} AccZeros(k: nat, acc: nat)
    ensures AllDigits(Repeat('0', k)) && Acc(Repeat('0', k), acc) == acc * Pow(10, k)
  {
    RepeatIs('0', k);
    if k == 0 {
      PowZero(10);
    } else {
      hide Pow;
      AccZeros(k - 1, acc);
      var z := Repeat('0', k);
      assert z[..k - 1] == Repeat('0', k - 1) && z[k - 1] == '0';
      PowStep(10, k - 1);
      TenTimes(acc, Pow(10, k - 1));
    }
  }

  lemma TenTimes(acc: nat, p: nat)
    ensures acc * p * 10 == acc * (10 * p)
  {
  }

  lemma {:induction false} AccReads(d: string)
    requires AllDigits(d)
    ensures Acc(d, 0) == ReadBase(d, 10)
  {
    if d == "" {
    } else {
      assert AllDigits(d[..|d| - 1]) && IsDigit(d[|d| - 1]);
      AccReads(d[..|d| - 1]);
    }
  }

  /** The printed digits read back as the number. */
  lemma AccDigits(n: nat)
    ensures AllDigits(DigitsOf(n, 10)) && |DigitsOf(n, 10)| > 0 && Acc(DigitsOf(n, 10), 0) == n
  {
    DigitsRead(n, 10);
    var d := DigitsOf(n, 10);
    forall i | 0 <= i < |d| ensures IsDigit(d[i]) { assert Value(d[i]) < 10; }
    AccReads(d);
  }

  function Sign(neg: bool): string {
    if neg then "-" else ""
  }

  /** Any text is blanks, a sign or none, digits, and an end that continues none of these; it stands for
      the number its digits are, with its sign, and for 0 if it has no digits. */
  lemma ParsesTo(blanks: string, sign: string, d: string, end: string)
    requires (forall i :: 0 <= i < |blanks| ==> blanks[i] == ' ' || blanks[i] == '\t') && AllDigits(d)
    requires sign == "" || sign == "-" || sign == "+"
    requires end == "" || (!IsDigit(end[0]) && (sign + d == "" ==> end[0] !in " \t-+"))
    ensures Parsed(blanks + sign + d + end) == if sign == "-" then 0 - Acc(d, 0) else Acc(d, 0)
  {
    hide ReadFrom, SkipBlanks, Acc;
    var s := blanks + sign + d + end;
    var i := |blanks|;
    var k := i + |sign|;
    assert s[k..k + |d|] == d;
    assert end != "" ==> s[k + |d|] == end[0];
    assert s == blanks + (sign + d + end);
    Skipped(blanks, sign + d + end, s);
    ReadsAll(s, k, |d|, 0);
    ReadStops(s, k + |d|, Acc(d, 0));
    assert sign != "" ==> s[i] == sign[0];
    assert d != "" ==> IsDigit(d[0]) && s[k] == d[0];
  }

  lemma Skipped(blanks: string, text: string, s: string)
    requires s == blanks + text && (forall i :: 0 <= i < |blanks| ==> blanks[i] == ' ' || blanks[i] == '\t')
    requires text != "" ==> text[0] != ' ' && text[0] != '\t'
    ensures SkipBlanks(s, 0) == |blanks|
  {
    hide SkipBlanks;
    assert forall j :: 0 <= j < |blanks| ==> s[j] == blanks[j];
    SkipsTo(s, 0, |blanks|);
  }

  lemma ReadStops(s: string, i: nat, acc: nat)
    requires i <= |s| && (i < |s| ==> !IsDigit(s[i]))
    ensures ReadFrom(s, i, acc) == acc
  {
  }

  lemma {:induction false} SkipsTo(s: string, i: nat, k: nat)
    requires i <= k <= |s| && (forall j :: i <= j < k ==> s[j] == ' ' || s[j] == '\t')
    requires k < |s| ==> s[k] != ' ' && s[k] != '\t'
    ensures SkipBlanks(s, i) == k
    decreases k - i
  {
    if i < k { SkipsTo(s, i + 1, k); }
  }

  // ------------------------------------------------------ left alignment with zero fill

  lemma Cancel(p: int, a: int, b: int)
    requires p > 0 && p * a == p * b
    ensures a == b
  {
    if a < b {
      MulLt(a, b, p);
      assert false;
    } else if b < a {
      MulLt(b, a, p);
      assert false;
    }
  }

  /** An odd factor does not help to reach a multiple of a power of two. */
  lemma {:induction false} OddFactor(z: int, n: nat, e: nat, q: int) returns (w: int)
    requires z % 2 == 1 && n * z == Pow(2, e) * q
    ensures n == Pow(2, e) * w
    decreases e
  {
    if e == 0 {
      w := n;
    } else {
      PowStep(2, e - 1);
      var p := Pow(2, e - 1);
      assert (2 * p) * q == p * (2 * q);
      var u := OddFactor(z, n, e - 1, 2 * q);
      assert (p * u) * z == p * (u * z);
      Cancel(p, u * z, 2 * q);
      EvenPart(u, z, q);
      w := u / 2;
      assert p * (2 * w) == (2 * p) * w;
    }
  }

  lemma EvenPart(u: int, z: int, q: int)
    requires z % 2 == 1 && u * z == 2 * q
    ensures u == 2 * (u / 2)
  {
    var h := z / 2;
    assert z == 2 * h + 1;
    assert u * z == 2 * (u * h) + u;
  }

  lemma {:induction false} TenIsEven(k: nat)
    requires k > 0
    ensures Pow(10, k) % 2 == 0
  {
    PowStep(10, k - 1);
    var p := Pow(10, k - 1);
    assert 10 * p == 2 * (5 * p);
  }

  lemma Pow32()
    ensures Pow(2, 32) == W32
  {
    PowTwo(2);
    PowAdd(2, 2, 2);
    PowAdd(2, 4, 4);
    PowAdd(2, 8, 8);
    PowAdd(2, 16, 16);
  }

  /** An int is what a number reduces to exactly when they differ by a multiple of 2^32. */
  lemma ReducesTo(x: int, v: int)
    requires 0 - W32 / 2 <= v < W32 / 2
    ensures Signed(x, W32) == v <==> exists q :: x - v == W32 * q
  {
    DivModParts(x, W32);
    var r := x % W32;
    if Signed(x, W32) == v {
      assert x - v == W32 * (x / W32 + if r < W32 / 2 then 0 else 1);
    }
    if q :| x - v == W32 * q {
      if v >= 0 { DivModUnique(x, W32, q, v); } else { DivModUnique(x, W32, q - 1, v + W32); }
    }
  }

  /** Trailing zeros change an int, unless it is 0. */
  lemma ZerosShow(n: nat, k: nat, neg: bool)
    requires k > 0 && n <= W32 / 2 && (neg || n < W32 / 2)
    ensures var v, x := if neg then 0 - n else n as int, if neg then 0 - n * Pow(10, k) else n * Pow(10, k);
      Signed(x, W32) == v <==> n == 0
  {
    hide Signed, Pow;
    var p := Pow(10, k);
    var v, x := if neg then 0 - n else n as int, if neg then 0 - n * p else n * p;
    ReducesTo(x, v);
    if n == 0 {
      assert x - v == W32 * 0;
    }
    if q :| x - v == W32 * q {
      TenIsEven(k);
      Pow32();
      var q' := if neg then 0 - q else q;
      assert n * (p - 1) == n * p - n;
      assert n * (p - 1) == W32 * q';
      var w := OddFactor(p - 1, n, 32, q');
      SmallMultiple(n, w);
    }
  }

  lemma SmallMultiple(n: nat, w: int)
    requires n <= W32 / 2 && n == W32 * w
    ensures n == 0
  {
  }

  // ----------------------------------------------------------------------- the theorem

  /** Zero fill on the right of a non-zero number: the printed text stands for another number. */
  predicate Spoilt(f: Field, natural: nat, v: int) {
    f.left && f.fill == '0' && f.spacing > natural && v != 0
  }

  /** How many characters v takes without padding. */
  function Natural(v: int): nat {
    if v < 0 then 1 + |DigitsOf(0 - v, 10)| else |DigitsOf(v, 10)|
  }

  lemma Magnitudes(f: Field, v: int)
    requires 0 - W32 / 2 <= v < W32 / 2
    ensures Negative(f, 'd', v) <==> v < 0
    ensures Magnitude(f, 'd', v) == if v < 0 then 0 - v else v
  {
    var span := Span(f.size);
    if v < 0 { DivModUnique(v, span, -1, v + span); } else { DivModUnique(v, span, 0, v); }
  }

  lemma NumberIs(f: Field, v: int)
    requires 0 - W32 / 2 <= v < W32 / 2
    ensures Number(f, 'd', v) == Stuff(f, Sign(v < 0), "", DigitsOf(LongLong.Abs(v), 10))
  {
    hide Stuff, DigitsOf;
    Magnitudes(f, v);
  }

  /** The padded text, in the form atoi looks at it. */
  lemma Forms(f: Field, p: string, d: string, pad: string)
    requires pad == Repeat(f.fill, Padding(f, |p| + |d|))
    ensures f.left ==> Stuff(f, p, "", d) == "" + p + d + pad && Stuff(f, p, "", d) == "" + p + (d + pad) + ""
    ensures !f.left && f.fill != '0' ==> Stuff(f, p, "", d) == pad + p + d + ""
    ensures !f.left && f.fill == '0' ==> Stuff(f, p, "", d) == "" + p + (pad + d) + ""
  {
    hide Repeat, Padding;
    assert p + "" + d + pad == "" + p + d + pad;
    assert p + "" + d + pad == "" + p + (d + pad) + "";
    assert pad + p + "" + d == pad + p + d + "";
    assert p + "" + pad + d == "" + p + (pad + d) + "";
  }

  /** Digits with zeros before them, or blanks around them, still stand for v. */
  lemma PaddedReads(f: Field, v: int, d: string, k: nat)
    requires !(f.left && f.fill == '0' && k > 0) && (f.fill == ' ' || f.fill == '0')
    requires d != "" && AllDigits(d) && Acc(d, 0) == LongLong.Abs(v) && k == Padding(f, |Sign(v < 0)| + |d|)
    ensures Parsed(Stuff(f, Sign(v < 0), "", d)) == v
  {
    hide Parsed, Acc, Stuff, Padding, Repeat, AllDigits, Pow;
    var pad := Repeat(f.fill, k);
    RepeatIs(f.fill, k);
    Forms(f, Sign(v < 0), d, pad);
    if !f.left && f.fill == ' ' {
      ParsesTo(pad, Sign(v < 0), d, "");
    } else if !f.left {
      AccZeros(k, 0);
      AccSplit(pad, d, 0);
      ParsesTo("", Sign(v < 0), pad + d, "");
    } else {
      assert pad == "" || !IsDigit(pad[0]);
      ParsesTo("", Sign(v < 0), d, pad);
    }
  }

  /** With zeros after them they stand for v times a power of ten. */
  lemma ZeroesRead(f: Field, v: int, d: string, k: nat)
    requires f.left && f.fill == '0' && d != "" && AllDigits(d) && Acc(d, 0) == LongLong.Abs(v) && k == Padding(f, |Sign(v < 0)| + |d|)
    ensures Parsed(Stuff(f, Sign(v < 0), "", d)) == if v < 0 then 0 - LongLong.Abs(v) * Pow(10, k) else LongLong.Abs(v) * Pow(10, k)
  {
    hide Parsed, Acc, Pow, Stuff, Padding, Repeat, AllDigits;
    var pad := Repeat('0', k);
    Forms(f, Sign(v < 0), d, pad);
    AccZeros(k, LongLong.Abs(v));
    AccSplit(d, pad, 0);
    ParsesTo("", Sign(v < 0), d + pad, "");
  }

  /** atoi of printf's %d is the original int exactly when the field is not spoilt; and the text is as
      long as the width or the number needs. */
  lemma FieldRoundTrip(f: Field, v: int)
    requires 0 - W32 / 2 <= v < W32 / 2 && (f.fill == ' ' || f.fill == '0')
    ensures Signed(Parsed(Number(f, 'd', v)), W32) == v <==> !Spoilt(f, Natural(v), v)
    ensures |Number(f, 'd', v)| == if f.spacing > Natural(v) then f.spacing else Natural(v)
  {
    hide Signed, Parsed, Acc, DigitsOf, Stuff, Number, Pow;
    NumberIs(f, v);
    var n, d := LongLong.Abs(v), DigitsOf(LongLong.Abs(v), 10);
    AccDigits(n);
    StuffLength(f, Sign(v < 0), "", d);
    var k := Padding(f, |Sign(v < 0)| + |d|);
    if f.left && f.fill == '0' && k > 0 {
      ZeroesRead(f, v, d, k);
      ZerosShow(n, k, v < 0);
    } else {
      PaddedReads(f, v, d, k);
      SmallInt(v);
    }
  }

  /** The whole format "%" + mods + "d", with any modifiers, as printf prints it and atoi reads it: the int
      comes back unless it is aligned left, filled with zeros, shorter than the width, and not 0. */
  lemma RoundTrip(mods: string, args: Args)
    requires Modifiers(mods) && 0 - W32 / 2 <= args(0).num < W32 / 2
    ensures var v, text := args(0).num, Output("%" + mods + "d", args);
      && (Signed(Parsed(text), W32) == v <==> !('-' in mods && ZeroFill(mods) && Width(mods) > Natural(v) && v != 0))
      && |text| == if Width(mods) > Natural(v) then Width(mods) else Natural(v)
  {
    hide Number, Parsed, Signed, Natural, Output, DigitsIn, Width, ZeroFill, Ells;
    OneField(mods, 'd', args);
    ModifiersMean(mods);
    FieldRoundTrip(ModifyAll(OPEN, mods), args(0).num);
  }

  /** A spoilt field: 7 printed with "%-05d" is "70000". */
  lemma LeftZeroFill(args: Args)
    requires args(0).num == 7
    ensures Signed(Parsed(Output("%-05d", args)), W32) != 7
  {
    hide Signed, Parsed, Output;
    assert "-05" == "-" + "0" + "5" && "-" == "" + "-";
    DigitsSnoc("", '-');
    DigitsSnoc("-", '0');
    DigitsSnoc("-0", '5');
    assert '-' in "-05" && Natural(7) == 1;
    assert "%" + "-05" + "d" == "%-05d";
    RoundTrip("-05", args);
  }

  lemma SmallInt(v: int)
    requires 0 - W32 / 2 <= v < W32 / 2
    ensures Signed(v, W32) == v
  {
    ReducesTo(v, v);
    assert v - v == W32 * 0;
  }
}
