/** printf's engine (common/libc/printf/__printf.c) and snprintf (common/libc/printf/snprintf.c). */
module Printf {
  import opened Digits
  import opened Format
  import FormatMeaning

  function Min(a: nat, b: nat): nat {
    if a < b then a else b
  }

  /** The context of snprintf: the buffer, how much of it may be filled, and how much is. */
  class Snp {
    const buf: array<char>
    const buflen: nat
    var bufpos: nat
    ghost var sent: string          // everything sent so far
    ghost const before: seq<char>   // the buffer at the start

    constructor (b: array<char>, len: nat)
      requires len <= b.Length
      ensures Valid() && sent == "" && buf == b && buflen == len && before == b[..]
    {
      buf, buflen, bufpos, sent, before := b, len, 0, "", b[..];
    }

    /** The buffer holds the first `buflen` characters sent; the rest of it is untouched. */
    ghost predicate Valid()
      reads this, buf
    {
      && buflen <= buf.Length == |before| && bufpos == Min(|sent|, buflen)
      && (forall k :: 0 <= k < bufpos ==> buf[k] == sent[k])
      && (forall k :: bufpos <= k < buf.Length ==> buf[k] == before[k])
    }

    method Send(data: string)
      requires Valid()
      modifies this, buf
      ensures Valid() && sent == old(sent) + data
    {
      var i := 0;
      while i < |data|
        invariant i <= |data| && Valid() && sent == old(sent) + data[..i]
      {
        if bufpos < buflen {
          buf[bufpos] := data[i];
          bufpos := bufpos + 1;
        }
        sent := sent + [data[i]];
        i := i + 1;
      }
      assert data[..|data|] == data;
    }
  }

  class PF {
    const client: Snp
    const args: Args
    var ap: nat
    var charcount: nat
    var inPct: bool
    var size: Size
    var num: nat
    var negative: bool
    var spacing: nat
    var rightspc: bool
    var fillchar: char
    var base: nat
    var baseprefix: bool
    var altformat: bool

    constructor (c: Snp, a: Args)
      requires c.Valid() && c.sent == ""
      ensures Valid() && client == c && args == a && ap == 0 && charcount == 0 && F() == START && Clean()
    {
      client, args, ap, charcount := c, a, 0, 0;
      inPct, size, num, negative, spacing, rightspc := false, IntSz, 0, false, 0, false;
      fillchar, base, baseprefix, altformat := ' ', 0, false, false;
    }

    ghost predicate Valid()
      reads this, client, client.buf
    {
      client.Valid() && charcount == |client.sent|
    }

    ghost function F(): Field
      reads this
    {
      Field(inPct, size, spacing, rightspc, fillchar, altformat)
    }

    /** Nothing is left of an earlier conversion. */
    ghost predicate Clean()
      reads this
    {
      num == 0 && !negative && base == 0 && !baseprefix
    }

    method Print(txt: string)
      requires Valid()
      modifies this`charcount, client, client.buf
      ensures Valid() && client.sent == old(client.sent) + txt
    {
      client.Send(txt);
      charcount := charcount + |txt|;
    }

    method EndField()
      modifies this`inPct, this`size, this`num, this`negative, this`spacing
      modifies this`rightspc, this`fillchar, this`base, this`baseprefix, this`altformat
      ensures F() == START && Clean()
    {
      inPct, size, num, negative, spacing, rightspc := false, IntSz, 0, false, 0, false;
      fillchar, base, baseprefix, altformat := ' ', 0, false, false;
    }

    method Modifier(ch: char)
      requires IsModifier(ch)
      modifies this`altformat, this`rightspc, this`size, this`spacing, this`fillchar
      ensures F() == Modify(old(F()), ch)
    {
      match ch {
        case '#' => altformat := true;
        case '-' => rightspc := true;
        case 'l' =>
          if size == LongSz {
            size := LLongSz;
          } else {
            size := LongSz;
          }
        case '0' =>
          if spacing > 0 {
            spacing := spacing * 10;
          } else {
            fillchar := '0';
          }
        case _ => spacing := spacing * 10 + (ch - '0') as nat;
      }
    }

    method GetNum(ch: char)
      requires IsConversion(ch) && Clean()
      modifies this`num, this`negative, this`ap
      ensures num == Magnitude(F(), ch, args(old(ap)).num) && negative == Negative(F(), ch, args(old(ap)).num)
      ensures ap == old(ap) + 1
    {
      var v := args(ap).num;
      ap := ap + 1;
      if ch == 'p' {
        num := Unsigned(v, W32);
      } else if ch == 'd' {
        var signednum := Signed(v, Span(size));
        if signednum < 0 {
          negative := true;
          num := 0 - signednum;
        } else {
          num := signednum;
        }
      } else {
        num := Unsigned(v, Span(size));
      }
    }

    method SetBase(ch: char)
      requires IsConversion(ch) && !baseprefix
      modifies this`base, this`baseprefix
      ensures base == BaseOf(ch) && baseprefix == (altformat || ch == 'p')
    {
      match ch {
        case 'd' => base := 10;
        case 'u' => base := 10;
        case 'x' => base := 16;
        case 'p' => base := 16;
        case _ => base := 8;
      }
      if altformat || ch == 'p' {
        baseprefix := true;
      }
    }

    method Fill(spc: nat)
      requires Valid()
      modifies this`charcount, client, client.buf
      ensures Valid() && client.sent == old(client.sent) + Repeat(fillchar, spc)
    {
      var i := 0;
      while i < spc
        invariant i <= spc && Valid() && client.sent == old(client.sent) + Repeat(fillchar, i)
      {
        Print([fillchar]);
        i := i + 1;
      }
    }

    method PrintStuff(prefix: string, prefix2: string, stuff: string)
      requires Valid()
      modifies this`charcount, client, client.buf
      ensures Valid() && client.sent == old(client.sent) + Stuff(F(), prefix, prefix2, stuff)
    {
      hide Repeat;
      var len := |prefix| + |prefix2| + |stuff|;
      var spc := spacing;
      if spc > len {
        spc := spc - len;
      } else {
        spc := 0;
      }
      ghost var start, none := client.sent, Repeat(fillchar, 0);
      ghost var a, b, c := "", "", "";
      if spc > 0 && !rightspc && fillchar != '0' {
        Fill(spc);
        a := Repeat(fillchar, spc);
      }
      Print(prefix);
      Print(prefix2);
      if spc > 0 && !rightspc && fillchar == '0' {
        Fill(spc);
        b := Repeat(fillchar, spc);
      }
      Print(stuff);
      if spc > 0 && rightspc {
        Fill(spc);
        c := Repeat(fillchar, spc);
      }
      Assembled(F(), prefix, prefix2, stuff, spc, a, b, c);
      Concat(start, a, prefix, prefix2, b, stuff, c);
    }

    method PrintNum()
      requires Valid() && num < W64 && 8 <= base <= 16
      modifies this`charcount, client, client.buf
      ensures Valid()
      ensures client.sent == old(client.sent) +
        Stuff(F(), if negative then "-" else "", PrefixText(baseprefix, base), DigitsOf(num, base))
    {
      hide DigitsOf;
      var text := Convert(num, base);
      var bprefix := if baseprefix && base == 16 then "0x" else if baseprefix && base == 8 then "0" else "";
      var sprefix := if negative then "-" else "";
      PrintStuff(sprefix, bprefix, text);
    }

    /** One character of the format string. */
    method SendChar(ch: char)
      requires Valid() && Clean() && ch != '\0'
      modifies this, client, client.buf
      ensures Valid() && Clean()
      ensures client.sent == old(client.sent) + TextOf(old(F()), ch, args(old(ap))) && F() == Next(old(F()), ch)
      ensures ap == if TakesArg(old(F()), ch) then old(ap) + 1 else old(ap)
    {
      hide Stuff, DigitsOf, Modify, Magnitude, Negative;
      if !inPct && ch != '%' {
        Print([ch]);
      } else if !inPct {
        inPct := true;
      } else if IsModifier(ch) {
        Modifier(ch);
      } else if IsConversion(ch) {
        GetNum(ch);
        SetBase(ch);
        PrintNum();
        EndField();
      } else if ch == 's' {
        var str := args(ap).str;
        ap := ap + 1;
        PrintStuff("", "", if str.Null? then "(null)" else str.s);
        EndField();
      } else {
        var x := ch;
        if ch == 'c' {
          x := (args(ap).num % 256) as char;
          ap := ap + 1;
        }
        PrintStuff("", "", if x == '\0' then "" else [x]);
        EndField();
      }
    }

    /** __vprintf's loop.  It returns the number of characters sent. */
    method Vprintf(format: string) returns (chars: nat)
      requires Valid() && Clean() && F() == START && ap == 0 && client.sent == "" && NoNul(format)
      modifies this, client, client.buf
      ensures Valid() && client.sent == Output(format, args) && chars == |Output(format, args)|
    {
      hide TextOf, Next, TakesArg;
      var i := 0;
      while i < |format|
        invariant i <= |format| && Valid() && Clean()
        invariant client.sent + TextFrom(format, i, F(), args, ap) == Output(format, args)
      {
        SendChar(format[i]);
        i := i + 1;
      }
      chars := charcount;
    }
  }

  /** vsnprintf: the buffer holds as much of the whole output as fits before the terminator, nothing
      after the terminator changes, and the length of the whole output is returned. */
  method Vsnprintf(buf: array<char>, len: nat, fmt: string, args: Args) returns (chars: nat)
    requires len <= buf.Length && NoNul(fmt)
    modifies buf
    ensures chars == |Output(fmt, args)|
    ensures len > 0 ==> buf[..Min(len - 1, chars)] == Output(fmt, args)[..Min(len - 1, chars)] && buf[Min(len - 1, chars)] == '\0'
    ensures forall k :: (if len == 0 then 0 else Min(len - 1, chars) + 1) <= k < buf.Length ==> buf[k] == old(buf[k])
  {
    hide Output;
    var snp := new Snp(buf, if len == 0 then 0 else len - 1);
    var pf := new PF(snp, args);
    chars := pf.Vprintf(fmt);
    assert forall k :: snp.bufpos <= k < buf.Length ==> buf[k] == old(buf[k]);
    if len > 0 {
      buf[snp.bufpos] := '\0';
    }
  }

  /** Where the padding goes. */
  lemma Assembled(f: Field, p: string, q: string, s: string, spc: nat, a: string, b: string, c: string)
    requires spc == Padding(f, |p| + |q| + |s|)
    requires a == if spc > 0 && !f.left && f.fill != '0' then Repeat(f.fill, spc) else ""
    requires b == if spc > 0 && !f.left && f.fill == '0' then Repeat(f.fill, spc) else ""
    requires c == if spc > 0 && f.left then Repeat(f.fill, spc) else ""
    ensures Stuff(f, p, q, s) == a + p + q + b + s + c
  {
    var pad := Repeat(f.fill, spc);
    assert p + q + s + pad == "" + p + q + "" + s + pad;
    assert pad + p + q + s == pad + p + q + "" + s + "";
    assert p + q + pad + s == "" + p + q + pad + s + "";
    assert pad == "" ==> p + q + s + pad == "" + p + q + "" + s + "";
  }

  lemma Concat(start: string, a: string, p: string, q: string, b: string, s: string, c: string)
    ensures start + a + p + q + b + s + c == start + (a + p + q + b + s + c)
    ensures a == "" ==> start + p + q + b + s + c == start + (a + p + q + b + s + c)
    ensures a == "" && b == "" ==> start + p + q + s + c == start + (a + p + q + b + s + c)
    ensures a == "" && b == "" && c == "" ==> start + p + q + s == start + (a + p + q + b + s + c)
    ensures a == "" && c == "" ==> start + p + q + b + s == start + (a + p + q + b + s + c)
    ensures b == "" && c == "" ==> start + a + p + q + s == start + (a + p + q + b + s + c)
  {
  }

  /** The digit loop: from right to left in a buffer of NUMBER_BUF_SIZE characters, of which it never
      leaves the left end. */
  method Convert(num: nat, base: nat) returns (text: string)
    requires num < W64 && 8 <= base <= 16
    ensures text == DigitsOf(num, base)
    ensures FormatMeaning.Numeral(text, base) && FormatMeaning.ReadBase(text, base) == num
  {
    hide DigitsOf, DigitChar, Rest, FormatMeaning.Numeral, FormatMeaning.ReadBase;
    var buf := new char[NUMBER_BUF_SIZE];
    var x: int := buf.Length - 1;
    buf[x] := '\0';
    x := x - 1;
    var xnum: nat := num;
    BufferHolds(num, base);
    // the first round of the do loop
    LastDigit(xnum, base);
    buf[x] := DigitChar(xnum % base);
    x := x - 1;
    xnum := xnum / base;
    assert buf[x + 1..buf.Length - 1] == [DigitChar(num % base)];
    while xnum > 0
      invariant -1 <= x < buf.Length - 2 && |buf[x + 1..buf.Length - 1]| == buf.Length - 2 - x
      invariant DigitsOf(num, base) == Rest(xnum, base) + buf[x + 1..buf.Length - 1]
      decreases xnum
    {
      LastDigit(xnum, base);
      SomeDigits(xnum, base);
      var q := xnum / base;
      ghost var was := buf[x + 1..buf.Length - 1];
      buf[x] := DigitChar(xnum % base);
      assert buf[x..buf.Length - 1] == [DigitChar(xnum % base)] + was;
      x := x - 1;
      xnum := q;
    }
    x := x + 1;
    text := buf[x..buf.Length - 1];
    NoMore(base);
    FormatMeaning.DigitsRead(num, base);
  }

  lemma NoMore(b: nat)
    requires 8 <= b <= 16
    ensures Rest(0, b) == ""
  {
  }

  /** The digits not yet converted. */
  function Rest(n: nat, b: nat): string
    requires 8 <= b <= 16
  {
    if n == 0 then "" else DigitsOf(n, b)
  }

  lemma LastDigit(n: nat, b: nat)
    requires 8 <= b <= 16
    ensures DigitsOf(n, b) == Rest(n / b, b) + [DigitChar(n % b)]
    ensures 0 <= n / b && 0 <= n % b < b && (n > 0 ==> n / b < n)
  {
    DivModParts(n, b);
    if n < b {
      DivModUnique(n, b, 0, n);
    } else {
      MulLe(2, b, n / b);
    }
  }

  lemma SomeDigits(n: nat, b: nat)
    requires 8 <= b <= 16
    ensures |DigitsOf(n, b)| > 0 && (n > 0 ==> Rest(n, b) == DigitsOf(n, b))
  {
  }
}
