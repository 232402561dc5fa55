/** What formats mean, in plain terms: how a format splits into text and fields, what the modifiers of a
    field say, and what each conversion prints, read back by a reader of digits of its own. */
module FormatMeaning {
  import opened Digits
  import opened Format

  // ------------------------------------------------------------------ reading digits

  /** The value of a digit character; 16 for any other. */
  function Value(ch: char): nat {
    if '0' <= ch <= '9' then (ch - '0') as nat
    else if 'a' <= ch <= 'f' then 10 + (ch - 'a') as nat
    else 16
  }

  function ReadBase(s: string, b: nat): nat {
    if s == "" then 0 else ReadBase(s[..|s| - 1], b) * b + Value(s[|s| - 1])
  }

  /** A numeral: digits below the base, the first one not 0 except in "0". */
  predicate Numeral(s: string, b: nat) {
    s != "" && (forall i :: 0 <= i < |s| ==> Value(s[i]) < b) && (s[0] == '0' ==> s == "0")
  }

  lemma DigitHas(d: nat)
    requires d < 16
    ensures Value(DigitChar(d)) == d && (DigitChar(d) == '0' <==> d == 0)
  {
    assert DIGITS[10..] == "abcdef";
    assert d < 10 ==> DIGITS[d] as int == '0' as int + d;
    assert d >= 10 ==> DIGITS[d] as int == 'a' as int + d - 10;
  }

  /** The printed digits are the numeral of the number, in every base. */
  lemma {:induction false} DigitsRead(n: nat, b: nat)
    requires 2 <= b <= 16
    ensures DigitsOf(n, b) != "" && Numeral(DigitsOf(n, b), b) && ReadBase(DigitsOf(n, b), b) == n
    ensures n > 0 ==> DigitsOf(n, b)[0] != '0'
    decreases n
  {
    hide DigitsOf, ReadBase, Numeral, DigitChar;
    DigitsStep(n, b);
    if n < b {
      DigitHas(n);
      ReadSnoc("", DigitChar(n), b);
      assert "" + [DigitChar(n)] == [DigitChar(n)];
    } else {
      DigitHas(n % b);
      DigitsRead(n / b, b);
      ReadSnoc(DigitsOf(n / b, b), DigitChar(n % b), b);
    }
  }

  lemma ReadSnoc(s: string, ch: char, b: nat)
    requires Value(ch) < b && (s == "" || (Numeral(s, b) && s[0] != '0'))
    ensures ReadBase(s + [ch], b) == (if s == "" then 0 else ReadBase(s, b) * b) + Value(ch)
    ensures Numeral(s + [ch], b) && (s + [ch])[0] == if s == "" then ch else s[0]
  {
    assert (s + [ch])[..|s|] == s;
    assert ReadBase("", b) * b == 0;
  }

  lemma DigitsStep(n: nat, b: nat)
    requires 2 <= b <= 16
    ensures 0 <= n / b && 0 <= n % b < b
    ensures n < b ==> DigitsOf(n, b) == [DigitChar(n)]
    ensures n >= b ==> 0 < n / b < n && n == (n / b) * b + n % b && DigitsOf(n, b) == DigitsOf(n / b, b) + [DigitChar(n % b)]
  {
    hide DigitChar;
    DivModParts(n, b);
    MulLe(2, b, n / b);
    assert b * (n / b) == (n / b) * b;
  }

  // ------------------------------------------------------------------ whole formats

  predicate Modifiers(mods: string) {
    forall i :: 0 <= i < |mods| ==> IsModifier(mods[i])
  }

  predicate NoPercent(s: string) {
    forall i :: 0 <= i < |s| ==> s[i] != '%'
  }

  /** The arguments from the n-th on. */
  function Later(args: Args, n: nat): Args {
    (k: nat) => args(n + k)
  }

  lemma {:induction false} Rest(fmt: string, i: nat, j: nat, f: Field, args: Args, ap: nat, b: nat)
    requires i + j <= |fmt|
    ensures TextFrom(fmt, i + j, f, args, ap + b) == TextFrom(fmt[i..], j, f, Later(args, ap), b)
    decreases |fmt| - (i + j)
  {
    hide TextOf, Next, TakesArg;
    if i + j == |fmt| {
    } else {
      assert fmt[i..][j] == fmt[i + j] && Later(args, ap)(b) == args(ap + b);
      var b' := if TakesArg(f, fmt[i + j]) then b + 1 else b;
      Rest(fmt, i, j + 1, Next(f, fmt[i + j]), args, ap, b');
    }
  }

  lemma {:induction false} Literal(fmt: string, k: nat, args: Args)
    requires k <= |fmt| && NoPercent(fmt[..k])
    ensures Output(fmt, args) == fmt[..k] + TextFrom(fmt, k, START, args, 0)
  {
    if k == 0 {
    } else {
      assert forall i :: 0 <= i < k - 1 ==> fmt[..k - 1][i] == fmt[..k][i];
      Literal(fmt, k - 1, args);
      assert fmt[..k][k - 1] == fmt[k - 1] && fmt[..k] == fmt[..k - 1] + [fmt[k - 1]];
      assert TextFrom(fmt, k - 1, START, args, 0) == [fmt[k - 1]] + TextFrom(fmt, k, START, args, 0);
    }
  }

  lemma {:induction false} ModifiersPrintNothing(fmt: string, i: nat, k: nat, f: Field, args: Args, ap: nat)
    requires i + k <= |fmt| && Modifiers(fmt[i..i + k]) && f.inPct
    ensures TextFrom(fmt, i, f, args, ap) == TextFrom(fmt, i + k, ModifyAll(f, fmt[i..i + k]), args, ap)
    ensures ModifyAll(f, fmt[i..i + k]).inPct
    decreases k
  {
    hide Modify;
    var mods := fmt[i..i + k];
    if k == 0 {
      assert mods == "";
    } else {
      assert mods[0] == fmt[i] && mods[1..] == fmt[i + 1..i + k];
      assert IsModifier(mods[0]) && Modifiers(mods[1..]);
      StillIn(f, mods[0]);
      ModifiersPrintNothing(fmt, i + 1, k - 1, Modify(f, fmt[i]), args, ap);
    }
  }

  lemma StillIn(f: Field, ch: char)
    requires IsModifier(ch) && f.inPct
    ensures Modify(f, ch).inPct
  {
  }

  const OPEN: Field := START.(inPct := true)

  /** Text without a percent sign is printed as it is, and a field that the format does not finish prints
      nothing. */
  lemma Unfinished(text: string, mods: string, args: Args)
    requires NoPercent(text) && Modifiers(mods)
    ensures Output(text, args) == text && Output(text + "%" + mods, args) == text
  {
    assert text[..|text|] == text;
    Literal(text, |text|, args);
    var fmt := text + "%" + mods;
    var n := |text|;
    assert fmt[..n] == text && fmt[n + 1..n + 1 + |mods|] == mods;
    Literal(fmt, n, args);
    assert fmt[n] == '%' && Next(START, '%') == OPEN;
    ModifiersPrintNothing(fmt, n + 1, |mods|, OPEN, args, 0);
  }

  predicate TakesOne(ch: char) {
    ch == 'd' || ch == 'o' || ch == 'u' || ch == 'p' || ch == 'x' || ch == 's' || ch == 'c'
  }

  /** The text of one whole field. */
  function FieldText(mods: string, ch: char, arg: Arg): string
    requires Modifiers(mods)
  {
    TextOf(ModifyAll(OPEN, mods), ch, arg)
  }

  /** Up to its first field a format prints itself, then the field, then what the rest of the format
      prints of the arguments that are left; with Unfinished this gives the output of every format. */
  lemma FirstField(text: string, mods: string, ch: char, rest: string, args: Args)
    requires NoPercent(text) && Modifiers(mods) && !IsModifier(ch)
    ensures Output(text + "%" + mods + [ch] + rest, args) ==
            text + FieldText(mods, ch, args(0)) + Output(rest, if TakesOne(ch) then Later(args, 1) else args)
  {
    hide TextOf, Modify, Next, TakesArg, TextFrom, Output, FieldText, ModifyAll;
    var fmt := text + "%" + mods + [ch] + rest;
    var n, m := |text|, |text| + 1 + |mods|;
    assert fmt[..n] == text && fmt[n] == '%' && fmt[n + 1..n + 1 + |mods|] == mods && fmt[m] == ch && fmt[m + 1..] == rest;
    Literal(fmt, n, args);
    Opens(fmt, n, args);
    ModifiersPrintNothing(fmt, n + 1, |mods|, OPEN, args, 0);
    Closes(fmt, m, mods, args);
    Remains(fmt, m + 1, args, if TakesOne(ch) then 1 else 0);
    var a, b := FieldText(mods, ch, args(0)), Output(rest, if TakesOne(ch) then Later(args, 1) else args);
    assert text + (a + b) == text + a + b;
  }

  lemma Opens(fmt: string, n: nat, args: Args)
    requires n < |fmt| && fmt[n] == '%'
    ensures TextFrom(fmt, n, START, args, 0) == TextFrom(fmt, n + 1, OPEN, args, 0)
  {
    assert Next(START, '%') == OPEN && TextOf(START, '%', args(0)) == "";
  }

  lemma Closes(fmt: string, m: nat, mods: string, args: Args)
    requires Modifiers(mods) && m < |fmt| && !IsModifier(fmt[m]) && ModifyAll(OPEN, mods).inPct
    ensures TextFrom(fmt, m, ModifyAll(OPEN, mods), args, 0) ==
            FieldText(mods, fmt[m], args(0)) + TextFrom(fmt, m + 1, START, args, if TakesOne(fmt[m]) then 1 else 0)
  {
    hide TextOf, ModifyAll;
    var f := ModifyAll(OPEN, mods);
    assert Next(f, fmt[m]) == START && (TakesArg(f, fmt[m]) <==> TakesOne(fmt[m]));
  }

  lemma Remains(fmt: string, m: nat, args: Args, k: nat)
    requires m <= |fmt| && k <= 1
    ensures TextFrom(fmt, m, START, args, k) == Output(fmt[m..], if k == 1 then Later(args, 1) else args)
  {
    hide TextFrom;
    Rest(fmt, m, 0, START, args, k, 0);
    if k == 0 { NoneTaken(fmt[m..], 0, START, args, 0); }
  }

  lemma {:induction false} NoneTaken(fmt: string, i: nat, f: Field, args: Args, ap: nat)
    requires i <= |fmt|
    ensures TextFrom(fmt, i, f, Later(args, 0), ap) == TextFrom(fmt, i, f, args, ap)
    decreases |fmt| - i
  {
    hide TextOf, Next, TakesArg;
    if i == |fmt| {
    } else {
      assert Later(args, 0)(ap) == args(ap);
      NoneTaken(fmt, i + 1, Next(f, fmt[i]), args, if TakesArg(f, fmt[i]) then ap + 1 else ap);
    }
  }

  /** A format that is one field. */
  lemma OneField(mods: string, ch: char, args: Args)
    requires Modifiers(mods) && !IsModifier(ch)
    ensures Output("%" + mods + [ch], args) == FieldText(mods, ch, args(0))
  {
    hide FieldText, IsModifier;
    FirstField("", mods, ch, "", args);
    var t := FieldText(mods, ch, args(0));
    assert "" + "%" + mods + [ch] + "" == "%" + mods + [ch];
    assert "" + t + "" == t;
    assert Output("", args) == "" && Output("", Later(args, 1)) == "";
  }

  // ----------------------------------------------------------------------- modifiers

  /** The digits among the modifiers, in order. */
  function DigitsIn(mods: string): string {
    if mods == "" then ""
    else
      var last := mods[|mods| - 1];
      DigitsIn(mods[..|mods| - 1]) + if '0' <= last <= '9' then [last] else ""
  }

  function Ells(mods: string): nat {
    if mods == "" then 0 else Ells(mods[..|mods| - 1]) + if mods[|mods| - 1] == 'l' then 1 else 0
  }

  /** The width a field asks for: its digits as a decimal number. */
  function Width(mods: string): nat {
    ReadBase(DigitsIn(mods), 10)
  }

  /** Padding with zeros: the first of the digits is 0. */
  predicate ZeroFill(mods: string) {
    DigitsIn(mods) != "" && DigitsIn(mods)[0] == '0'
  }

  /** How many values the type has that the l's ask for: none or an odd number, 32 bits; an even number,
      64. */
  function SpanOf(mods: string): nat {
    if Ells(mods) > 0 && Ells(mods) % 2 == 0 then 0x1_0000_0000_0000_0000 else 0x1_0000_0000
  }

  lemma {:induction false} ModifySnoc(f: Field, mods: string, ch: char)
    requires Modifiers(mods) && IsModifier(ch)
    ensures Modifiers(mods + [ch]) && ModifyAll(f, mods + [ch]) == Modify(ModifyAll(f, mods), ch)
    decreases |mods|
  {
    hide Modify;
    var all := mods + [ch];
    if mods == "" {
      assert all[0] == ch && all[1..] == "";
      assert ModifyAll(Modify(f, ch), "") == Modify(f, ch);
    } else {
      assert all[0] == mods[0] && all[1..] == mods[1..] + [ch];
      assert IsModifier(mods[0]) && Modifiers(mods[1..]);
      ModifySnoc(Modify(f, mods[0]), mods[1..], ch);
    }
  }

  function SizeFor(ells: nat): Size {
    if ells == 0 then IntSz else if ells % 2 == 1 then LongSz else LLongSz
  }

  /** What the modifiers say, whatever their order. */
  function Meant(mods: string): Field {
    Field(true, SizeFor(Ells(mods)), Width(mods), '-' in mods, if ZeroFill(mods) then '0' else ' ', '#' in mods)
  }

  lemma {:induction false} ModifiersMean(mods: string)
    requires Modifiers(mods)
    ensures ModifyAll(OPEN, mods) == Meant(mods)
    decreases |mods|
  {
    if mods == "" {
    } else {
      hide Modify, Meant;
      var n := |mods| - 1;
      var init, ch := mods[..n], mods[n];
      assert mods == init + [ch] && Modifiers(init) && IsModifier(ch);
      ModifiersMean(init);
      ModifySnoc(OPEN, init, ch);
      OneModifier(init, ch);
    }
  }

  lemma OneModifier(init: string, ch: char)
    requires IsModifier(ch)
    ensures Modify(Meant(init), ch) == Meant(init + [ch])
  {
    hide DigitsIn, Ells, Width;
    DigitsSnoc(init, ch);
    WidthZero(init);
    assert forall c :: c in init + [ch] <==> c in init || c == ch;
  }

  /** A width of zero is no digits at all, or zeros. */
  lemma {:induction false} WidthZero(mods: string)
    ensures Width(mods) == 0 && DigitsIn(mods) != "" ==> ZeroFill(mods)
    ensures DigitsIn(mods) == "" ==> Width(mods) == 0
    decreases |mods|
  {
    if mods == "" {
    } else {
      var n := |mods| - 1;
      WidthZero(mods[..n]);
      assert mods == mods[..n] + [mods[n]];
      hide DigitsIn, Width;
      DigitsSnoc(mods[..n], mods[n]);
    }
  }

  lemma DigitsSnoc(init: string, ch: char)
    ensures DigitsIn(init + [ch]) == DigitsIn(init) + if '0' <= ch <= '9' then [ch] else ""
    ensures Width(init + [ch]) == if '0' <= ch <= '9' then Width(init) * 10 + Value(ch) else Width(init)
    ensures Ells(init + [ch]) == Ells(init) + if ch == 'l' then 1 else 0
  {
    assert (init + [ch])[..|init|] == init;
    var d := DigitsIn(init);
    if '0' <= ch <= '9' { assert (d + [ch])[..|d|] == d; } else { assert d + "" == d; }
  }

  // --------------------------------------------------------------------- conversions

  /** A sign or prefix and a body, padded to the width: on the right when aligned left, else on the left,
      zeros after the prefix and blanks before it. */
  function Laid(width: nat, left: bool, zeros: bool, lead: string, body: string): string {
    var len := |lead| + |body|;
    var pad := Repeat(if zeros then '0' else ' ', if width > len then width - len else 0);
    if left then lead + body + pad else if zeros then lead + pad + body else pad + lead + body
  }

  lemma LaidIs(f: Field, p: string, q: string, s: string)
    requires f.fill == '0' || f.fill == ' '
    ensures Stuff(f, p, q, s) == Laid(f.spacing, f.left, f.fill == '0', p + q, s)
  {
    var pad := Repeat(f.fill, Padding(f, |p| + |q| + |s|));
    assert pad + p + q + s == pad + (p + q) + s;
  }

  /** The argument as %d takes it: the number of its type that has the same residue. */
  function AsSigned(mods: string, v: int): int {
    var x := v % SpanOf(mods);
    if x < SpanOf(mods) / 2 then x else x - SpanOf(mods)
  }

  function NumberOf(mods: string, ch: char, v: int): int {
    match ch
    case 'd' => AsSigned(mods, v)
    case 'p' => v % 0x1_0000_0000
    case _ => v % SpanOf(mods)
  }

  function RadixOf(ch: char): nat {
    match ch
    case 'o' => 8
    case 'd' => 10
    case 'u' => 10
    case _ => 16
  }

  /** 0x before hexadecimal and 0 before octal, if # asks for it and always for pointers. */
  function PrefixOf(mods: string, ch: char): string {
    match ch
    case 'p' => "0x"
    case 'x' => if '#' in mods then "0x" else ""
    case 'o' => if '#' in mods then "0" else ""
    case _ => ""
  }

  /** %d, %u, %o, %x and %p with any modifiers: the sign, the prefix and the numeral of the argument's
      value in its type, in the conversion's base, laid out in the field. */
  lemma NumbersMean(mods: string, ch: char, args: Args) returns (d: string)
    requires Modifiers(mods) && (ch == 'd' || ch == 'u' || ch == 'o' || ch == 'x' || ch == 'p')
    ensures var x := NumberOf(mods, ch, args(0).num); var sign := if x < 0 then "-" else "";
      && Output("%" + mods + [ch], args) == Laid(Width(mods), '-' in mods, ZeroFill(mods), sign + PrefixOf(mods, ch), d)
      && (Width(mods) == 0 ==> Output("%" + mods + [ch], args) == sign + PrefixOf(mods, ch) + d)
      && Numeral(d, RadixOf(ch)) && ReadBase(d, RadixOf(ch)) == if x < 0 then 0 - x else x
  {
    hide Stuff, DigitsOf, Modify, Laid, Numeral, ReadBase, DigitsIn, Ells, Width, ZeroFill;
    OneField(mods, ch, args);
    ModifiersMean(mods);
    var f, v := ModifyAll(OPEN, mods), args(0).num;
    var sign := if Negative(f, ch, v) then "-" else "";
    d := DigitsOf(Magnitude(f, ch, v), BaseOf(ch));
    ValueIs(mods, f, ch, v);
    DigitsRead(Magnitude(f, ch, v), BaseOf(ch));
    LaidIs(f, sign, Prefix(f, ch), d);
    NoWidth('-' in mods, ZeroFill(mods), sign + PrefixOf(mods, ch), d);
  }

  lemma ValueIs(mods: string, f: Field, ch: char, v: int)
    requires f.size == SizeFor(Ells(mods)) && (ch == 'd' || ch == 'u' || ch == 'o' || ch == 'x' || ch == 'p')
    requires f.alt <==> '#' in mods
    ensures var x := NumberOf(mods, ch, v);
      (Negative(f, ch, v) <==> x < 0) && Magnitude(f, ch, v) == if x < 0 then 0 - x else x
    ensures BaseOf(ch) == RadixOf(ch) && Prefix(f, ch) == PrefixOf(mods, ch)
  {
    hide Ells;
    assert Span(f.size) == SpanOf(mods);
  }

  /** %s prints the string, and (null) for none; %c the character of the argument's low byte, which is
      nothing for NUL; any other character prints itself; each laid out in the field. */
  lemma TextsMean(mods: string, ch: char, args: Args)
    requires Modifiers(mods) && !IsModifier(ch) && ch != '\0' && ch != 'd' && ch != 'u' && ch != 'o' && ch != 'x' && ch != 'p'
    ensures var text := match ch
              case 's' => (match args(0).str case Null => "(null)" case Text(s) => s)
              case 'c' => if args(0).num % 256 == 0 then "" else [(args(0).num % 256) as char]
              case _ => [ch];
      && Output("%" + mods + [ch], args) == Laid(Width(mods), '-' in mods, ZeroFill(mods), "", text)
      && (Width(mods) == 0 ==> Output("%" + mods + [ch], args) == text)
  {
    hide Stuff, Modify, Laid, DigitsIn, Ells, Width, ZeroFill;
    OneField(mods, ch, args);
    ModifiersMean(mods);
    var f := ModifyAll(OPEN, mods);
    var text := match ch
      case 's' => (match args(0).str case Null => "(null)" case Text(s) => s)
      case _ => OneChar(ch, args(0).num);
    LaidIs(f, "", "", text);
    NoWidth('-' in mods, ZeroFill(mods), "", text);
    assert "" + "" == "" && "" + text == text;
    if ch == 'c' { assert (args(0).num % 256) as char == '\0' <==> args(0).num % 256 == 0; }
  }

  /** With no width nothing is padded. */
  lemma NoWidth(left: bool, zeros: bool, lead: string, body: string)
    ensures Laid(0, left, zeros, lead, body) == lead + body
  {
    assert lead + body + "" == lead + "" + body == "" + lead + body == lead + body;
  }
}
