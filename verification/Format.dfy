/** What printf prints (common/libc/printf/__printf.c): the text of one conversion and of a whole
    format, for any arguments. */
module Format {
  import opened Digits

  datatype Size = IntSz | LongSz | LLongSz

  /** The part of the PF structure that modifiers set: inside a %-field or not, size, field width,
      left alignment, fill character, alternate format. */
  datatype Field = Field(inPct: bool, size: Size, spacing: nat, left: bool, fill: char, alt: bool)

  const START: Field := Field(false, IntSz, 0, false, ' ', false)

  datatype MaybeString = Null | Text(s: string)

  /** One argument, as a number and as a string pointer. */
  datatype Arg = Arg(num: int, str: MaybeString)

  type Args = nat -> Arg

  /** Strings in memory end at their first NUL. */
  predicate NoNul(s: string) {
    forall i :: 0 <= i < |s| ==> s[i] != '\0'
  }

  // ------------------------------------------------------------------- modifiers

  predicate IsModifier(ch: char) {
    ch == '#' || ch == '-' || ch == 'l' || '0' <= ch <= '9'
  }

  predicate IsConversion(ch: char) {
    ch == 'd' || ch == 'o' || ch == 'u' || ch == 'p' || ch == 'x'
  }

  function Modify(f: Field, ch: char): Field
    requires IsModifier(ch)
  {
    match ch
    case '#' => f.(alt := true)
    case '-' => f.(left := true)
    case 'l' => f.(size := if f.size == LongSz then LLongSz else LongSz)
    case '0' => if f.spacing > 0 then f.(spacing := f.spacing * 10) else f.(fill := '0')
    case _ => f.(spacing := f.spacing * 10 + (ch - '0') as nat)
  }

  function ModifyAll(f: Field, mods: string): Field
    requires forall i :: 0 <= i < |mods| ==> IsModifier(mods[i])
    decreases |mods|
  {
    if mods == "" then f
    else ModifyAll(Modify(f, mods[0]), mods[1..])
  }

  // --------------------------------------------------------------------- numbers

  const W32: nat := 0x1_0000_0000
  const W64: nat := 0x1_0000_0000_0000_0000

  /** int and long have 32 bits, long long has 64. */
  function Span(size: Size): nat {
    if size == LLongSz then W64 else W32
  }

  function Unsigned(v: int, span: nat): nat
    requires span > 0
  {
    v % span
  }

  function Signed(v: int, span: nat): int
    requires span > 0
  {
    if v % span < span / 2 then v % span else v % span - span
  }

  function Negative(f: Field, ch: char, v: int): bool {
    ch == 'd' && Signed(v, Span(f.size)) < 0
  }

  function Magnitude(f: Field, ch: char, v: int): (r: nat)
    ensures r < W64
  {
    if ch == 'p' then Unsigned(v, W32)
    else if ch == 'd' then (var x := Signed(v, Span(f.size)); if x < 0 then 0 - x else x)
    else Unsigned(v, Span(f.size))
  }

  function BaseOf(ch: char): (b: nat)
    ensures 8 <= b <= 16
  {
    if ch == 'd' || ch == 'u' then 10 else if ch == 'o' then 8 else 16
  }

  function Prefix(f: Field, ch: char): string {
    PrefixText(f.alt || ch == 'p', BaseOf(ch))
  }

  function PrefixText(baseprefix: bool, base: nat): string {
    if baseprefix && base == 16 then "0x" else if baseprefix && base == 8 then "0" else ""
  }

  const DIGITS: string := "0123456789abcdef"

  function DigitChar(d: nat): char
    requires d < 16
  {
    DIGITS[d]
  }

  /** n in base b, no leading zero. */
  function DigitsOf(n: nat, b: nat): string
    requires 2 <= b <= 16
    decreases n
  {
    if n < b then [DigitChar(n)]
    else
      DivModParts(n, b);
      MulLe(2, b, n / b);
      DigitsOf(n / b, b) + [DigitChar(n % b)]
  }

  // --------------------------------------------------------------------- padding

  function Repeat(ch: char, n: nat): string {
    if n == 0 then "" else Repeat(ch, n - 1) + [ch]
  }

  function Padding(f: Field, len: nat): nat {
    if f.spacing > len then f.spacing - len else 0
  }

  /** Prefixes go after space padding but before zero padding. */
  function Stuff(f: Field, prefix: string, prefix2: string, stuff: string): string {
    var pad := Repeat(f.fill, Padding(f, |prefix| + |prefix2| + |stuff|));
    if f.left then prefix + prefix2 + stuff + pad
    else if f.fill != '0' then pad + prefix + prefix2 + stuff
    else prefix + prefix2 + pad + stuff
  }

  function Number(f: Field, ch: char, v: int): string {
    Stuff(f, if Negative(f, ch, v) then "-" else "", Prefix(f, ch), DigitsOf(Magnitude(f, ch, v), BaseOf(ch)))
  }

  /** The string of %c, %% and unknown characters; %c of NUL is an empty string. */
  function OneChar(ch: char, v: int): string {
    var c := if ch == 'c' then (v % 256) as char else ch;
    if c == '\0' then "" else [c]
  }

  // ------------------------------------------------------------------ whole formats

  predicate TakesArg(f: Field, ch: char) {
    f.inPct && !IsModifier(ch) && (IsConversion(ch) || ch == 's' || ch == 'c')
  }

  /** What one character of the format prints. */
  function TextOf(f: Field, ch: char, arg: Arg): string {
    if !f.inPct then (if ch == '%' then "" else [ch])
    else if IsModifier(ch) then ""
    else if IsConversion(ch) then Number(f, ch, arg.num)
    else if ch == 's' then Stuff(f, "", "", if arg.str.Null? then "(null)" else arg.str.s)
    else Stuff(f, "", "", OneChar(ch, arg.num))
  }

  function Next(f: Field, ch: char): Field {
    if !f.inPct then f.(inPct := ch == '%') else if IsModifier(ch) then Modify(f, ch) else START
  }

  /** What the format prints from its i-th character on. */
  function TextFrom(fmt: string, i: nat, f: Field, args: Args, ap: nat): string
    requires i <= |fmt|
    decreases |fmt| - i
  {
    if i == |fmt| then ""
    else
      TextOf(f, fmt[i], args(ap)) +
      TextFrom(fmt, i + 1, Next(f, fmt[i]), args, if TakesArg(f, fmt[i]) then ap + 1 else ap)
  }

  /** The unbounded output of a format. */
  function Output(fmt: string, args: Args): string {
    TextFrom(fmt, 0, START, args, 0)
  }

  // --------------------------------------------------------------------- lengths

  lemma {:induction false} RepeatIs(ch: char, n: nat)
    ensures |Repeat(ch, n)| == n && forall i :: 0 <= i < n ==> Repeat(ch, n)[i] == ch
  {
    if n == 0 {
    } else {
      RepeatIs(ch, n - 1);
    }
  }

  /** Every conversion prints as many characters as its width or its text needs, whichever is more. */
  lemma StuffLength(f: Field, p: string, q: string, s: string)
    ensures |Stuff(f, p, q, s)| == if f.spacing > |p| + |q| + |s| then f.spacing else |p| + |q| + |s|
  {
    RepeatIs(f.fill, Padding(f, |p| + |q| + |s|));
  }

  /** A number below 8^k has at most k digits in base 8 and up. */
  lemma {:induction false} DigitCount(n: nat, b: nat, k: nat)
    requires 8 <= b <= 16 && k > 0 && n < Pow(8, k)
    ensures 0 < |DigitsOf(n, b)| <= k
    decreases k
  {
    hide Pow, DigitsOf;
    OneMoreDigit(n, b);
    if n >= b {
      FewerPowers(n, b, k);
      DigitCount(n / b, b, k - 1);
    }
  }

  lemma OneMoreDigit(n: nat, b: nat)
    requires 2 <= b <= 16
    ensures 0 <= n / b
    ensures |DigitsOf(n, b)| == if n < b then 1 else |DigitsOf(n / b, b)| + 1
  {
    DivModParts(n, b);
  }

  lemma FewerPowers(n: nat, b: nat, k: nat)
    requires 8 <= b <= n < Pow(8, k) && k > 0
    ensures k > 1 && n / b < Pow(8, k - 1)
  {
    PowOne(8);
    PowStep(8, k - 1);
    hide Pow;
    Quotient(n, b, Pow(8, k - 1));
  }

  lemma Quotient(n: nat, b: nat, p: nat)
    requires 8 <= b && n < 8 * p
    ensures n / b < p
  {
    DivModParts(n, b);
    MulLe(8, b, n / b);
  }

  lemma Pow8()
    ensures Pow(8, 22) == 0x4_0000_0000_0000_0000
  {
    PowTwo(8);
    PowAdd(8, 2, 2);
    PowAdd(8, 4, 4);
    PowAdd(8, 8, 8);
    PowAdd(8, 16, 4);
    PowAdd(8, 20, 2);
  }

  /** NUMBER_BUF_SIZE holds any 64-bit number in base 8, 10 or 16 and its NUL. */
  const NUMBER_BUF_SIZE: nat := 64 / 3 + 2

  lemma BufferHolds(n: nat, b: nat)
    requires n < W64 && 8 <= b <= 16
    ensures |DigitsOf(n, b)| <= NUMBER_BUF_SIZE - 1
  {
    Pow8();
    DigitCount(n, b, 22);
  }
}
