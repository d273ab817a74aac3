/** The printf engine of __printf.c and the truncating sink of snprintf.c, against the meaning of a
    format given in Text. */
module Printf {
  import opened Basics
  import opened Text

  const NUMBER_BUF_SIZE := 64 / 3 + 2
  const NUL: char := 0 as char

  // ---------------------------------------------------------------------------
  // The sink
  // ---------------------------------------------------------------------------

  /** snprintf's context; buflen leaves out the terminator. */
  class Snp {
    const buf: array<char>
    const buflen: nat
    var bufpos: nat
    /** Everything the engine has sent, and the buffer before it sent anything. */
    ghost var sent: string
    ghost const was: seq<char>

    constructor (b: array<char>, n: nat)
      requires n <= b.Length
      ensures buf == b && buflen == n && sent == "" && was == b[..] && Valid()
    {
      buf, buflen, bufpos, sent, was := b, n, 0, "", b[..];
    }

    ghost predicate Valid()
      reads this, buf
    {
      && buflen <= buf.Length && bufpos == Min(|sent|, buflen)
      && buf[..] == sent[..bufpos] + was[Min(bufpos, |was|)..]
      && |was| == buf.Length
    }

    /** __snprintf_send keeps the first buflen characters of all it is sent, however they come. */
    method Send(data: string)
      requires Valid()
      modifies this, buf
      ensures Valid() && sent == old(sent) + data
    {
      var i := 0;
      ghost var before := sent;
      while i < |data|
        invariant 0 <= i <= |data| && Valid() && sent == before + data[..i]
      {
        ghost var all := sent;
        sent := sent + [data[i]];
        if bufpos < buflen {
          buf[bufpos] := data[i];
          bufpos := bufpos + 1;
        }
        assert all + [data[i]] == before + data[..i + 1];
        i := i + 1;
      }
    }
  }

  // ---------------------------------------------------------------------------
  // The engine
  // ---------------------------------------------------------------------------

  datatype Size = IntSz | LongSz | LLongSz

  function SizeOf(ells: nat): Size { if ells == 0 then IntSz else if ells % 2 == 1 then LongSz else LLongSz }

  /** What the modifiers of a field ask for. */
  datatype Flags = Flags(size: Size, spacing: int, rightspc: bool, fillchar: char, altformat: bool)

  function FlagsOf(mods: string): Flags
  {
    Flags(SizeOf(Ells(mods)), Width(mods), LeftAligned(mods), if Zero(mods) then '0' else ' ', Alternate(mods))
  }

  lemma SizeStep(n: nat)
    ensures SizeOf(n + 1) == if SizeOf(n).LongSz? then LLongSz else LongSz
  {
  }

  lemma DigitFlags(mods: string, c: char)
    requires '0' <= c <= '9'
    ensures var f, g := FlagsOf(mods), FlagsOf(mods + [c]);
            && g.size == f.size && g.rightspc == f.rightspc && g.altformat == f.altformat
            && g.spacing == NextWidth(f.spacing, c)
            && g.fillchar == if c == '0' && f.spacing <= 0 then '0' else f.fillchar
  {
    WidthStep(mods, c);
    Snoc(mods, c);
    hide Width, Zero, Ells, LeftAligned, Alternate, SizeOf;
  }

  lemma LetterFlags(mods: string, c: char)
    requires !('0' <= c <= '9')
    ensures var f, g := FlagsOf(mods), FlagsOf(mods + [c]);
            && g.size == (if c == 'l' then (if f.size.LongSz? then LLongSz else LongSz) else f.size)
            && g.rightspc == (f.rightspc || c == '-') && g.altformat == (f.altformat || c == '#')
            && g.spacing == f.spacing && g.fillchar == f.fillchar
  {
    WidthStep(mods, c);
    Snoc(mods, c);
    SizeStep(Ells(mods));
    hide Width, Zero, Ells, LeftAligned, Alternate, SizeOf;
  }

  /** One more modifier. */
  function WithModifier(f: Flags, c: char): Flags
    requires IsModifier(c)
  {
    if c == '#' then f.(altformat := true)
    else if c == '-' then f.(rightspc := true)
    else if c == 'l' then f.(size := if f.size.LongSz? then LLongSz else LongSz)
    else f.(spacing := NextWidth(f.spacing, c), fillchar := if c == '0' && f.spacing <= 0 then '0' else f.fillchar)
  }

  /** Reading the modifiers one by one gives what they ask for together. */
  lemma FlagsStep(mods: string, c: char)
    requires IsModifier(c)
    ensures FlagsOf(mods + [c]) == WithModifier(FlagsOf(mods), c)
  {
    if '0' <= c <= '9' {
      DigitFlags(mods, c);
    } else {
      LetterFlags(mods, c);
    }
    hide FlagsOf, DigitValue;
  }

  lemma NoFlags()
    ensures FlagsOf("") == Flags(IntSz, 0, false, ' ', false)
  {
  }

  function Quot(n: nat, b: nat): nat
    requires b > 0
  {
    n / b
  }

  function Rem(n: nat, b: nat): (r: nat)
    requires b > 0
    ensures r < b
  {
    n % b
  }

  lemma NextDigit(num: nat, base: nat, xnum: nat, x: nat, tail: string, q: nat, r: nat)
    requires 8 <= base <= 16 && q == Quot(xnum, base) && r == Rem(xnum, base) && r < 16
    requires Numeral(num, base) == Numeral(xnum, base) + tail && xnum < Power(8, x + 1)
    ensures q < Power(8, x) && (q > 0 ==> x > 0)
    ensures Numeral(num, base) == (if q > 0 then Numeral(q, base) else "") + ([DigitChar(r)] + tail)
  {
    hide Power, Numeral, DigitChar;
    PowerStep(8, x);
    DivBelow(xnum, base, 8, Power(8, x));
    NumeralStep(xnum, base);
    if q > 0 {
      assert xnum >= base;
      assert Numeral(q, base) + [DigitChar(r)] + tail == Numeral(q, base) + ([DigitChar(r)] + tail);
    } else {
      assert xnum < base;
    }
  }

  /** Puts down one digit, going left. */
  method PutDigit(buf: array<char>, x: nat, c: char, ghost tail: string)
    requires x < buf.Length - 1 && tail == buf[x + 1..buf.Length - 1]
    modifies buf
    ensures buf[x..buf.Length - 1] == [c] + tail && buf[buf.Length - 1] == old(buf[buf.Length - 1])
  {
    buf[x] := c;
  }

  /** The digits of a number, put down from right to left in a buffer of NUMBER_BUF_SIZE. */
  method NumberText(num: nat, base: nat) returns (text: string)
    requires num < Range(64) && 8 <= base <= 16
    ensures text == Numeral(num, base)
  {
    hide Power, Numeral, DigitChar, Quot, Rem;
    PowerOfEight();
    var buf := new char[NUMBER_BUF_SIZE];
    buf[NUMBER_BUF_SIZE - 1] := NUL;
    var x: nat := NUMBER_BUF_SIZE - 1;
    var xnum: nat, more := num, true;
    ghost var tail := "";
    assert Numeral(num, base) + tail == Numeral(num, base);
    while more
      invariant 0 <= x <= NUMBER_BUF_SIZE - 1 && xnum < Power(8, x) && (more ==> 0 < x)
      invariant Numeral(num, base) == (if more then Numeral(xnum, base) else "") + tail
      invariant tail == buf[x..NUMBER_BUF_SIZE - 1] && buf[NUMBER_BUF_SIZE - 1] == NUL
      decreases x
    {
      x := x - 1;
      var q, r := Quot(xnum, base), Rem(xnum, base);
      NextDigit(num, base, xnum, x, tail, q, r);
      PutDigit(buf, x, DigitChar(r), tail);
      tail := [DigitChar(r)] + tail;
      xnum := q;
      more := q > 0;
    }
    text := buf[x..NUMBER_BUF_SIZE - 1];
  }

  // The padding at the three places __pf_printstuff may put it.

  function Lead(f: Flags, len: nat): string
  {
    if Pad(f.spacing, len) > 0 && !f.rightspc && f.fillchar != '0' then Fill(f.fillchar, Pad(f.spacing, len)) else ""
  }

  function Zeros(f: Flags, len: nat): string
  {
    if Pad(f.spacing, len) > 0 && !f.rightspc && f.fillchar == '0' then Fill(f.fillchar, Pad(f.spacing, len)) else ""
  }

  function Trail(f: Flags, len: nat): string
  {
    if Pad(f.spacing, len) > 0 && f.rightspc then Fill(f.fillchar, Pad(f.spacing, len)) else ""
  }

  lemma PaddedParts(mods: string, f: Flags, prefix: string, prefix2: string, stuff: string)
    requires f == FlagsOf(mods)
    ensures var len := |prefix| + |prefix2| + |stuff|;
            Padded(mods, prefix + prefix2, stuff) ==
            Lead(f, len) + prefix + prefix2 + Zeros(f, len) + stuff + Trail(f, len)
  {
    hide Width, Zero, LeftAligned, Alternate, Ells, SizeOf;
  }

  lemma ValueRange(mods: string, conv: char, args: seq<Arg>)
    ensures Abs(Value(mods, conv, args)) < Range(64)
  {
  }

  lemma Regroup(s: string, a: string, b: string, c: string, d: string, e: string, f: string)
    ensures s + a + b + c + d + e + f == s + (a + b + c + d + e + f)
  {
  }

  lemma PrintedStep(field: Option<string>, ch: char, rest: string, args: seq<Arg>)
    ensures Printed(field, [ch] + rest, args) ==
            if field.None? then (if ch == '%' then Printed(Some(""), rest, args) else [ch] + Printed(None, rest, args))
            else if IsModifier(ch) then Printed(Some(field.value + [ch]), rest, args)
            else Field(field.value, ch, args) + Printed(None, rest, After(ch, args))
  {
    hide Field, IsModifier, After;
    assert ([ch] + rest)[1..] == rest;
  }

  lemma IntTwice(n: int, k: int)
    ensures Int(Int(n) + k) == Int(n + k)
  {
    var q := (n - Int(n)) / Range(32);
    assert n == Int(n) + Range(32) * q;
  }

  /** The state of one printf call: what __printf.c keeps in its PF. */
  class Pf {
    const sink: Snp
    var args: seq<Arg>
    var charcount: int
    /** The characters printed, of which charcount is what an int holds. */
    ghost var total: nat
    var inPct: bool
    var size: Size
    var num: nat
    var sign: bool
    var spacing: int
    var rightspc: bool
    var fillchar: char
    var base: nat
    var baseprefix: bool
    var altformat: bool

    ghost function State(): Flags
      reads this
    {
      Flags(size, spacing, rightspc, fillchar, altformat)
    }

    ghost predicate Good()
      reads this, sink, sink.buf
    {
      sink.Valid() && charcount == Int(total)
    }

    /** No number is being printed. */
    ghost predicate Idle()
      reads this
    {
      num == 0 && !sign && base == 0 && !baseprefix
    }

    constructor (s: Snp, a: seq<Arg>)
      requires s.Valid()
      ensures sink == s && args == a && charcount == total == 0 && Good() && !inPct && Idle()
              && State() == Flags(IntSz, 0, false, ' ', false)
    {
      sink, args, charcount, total, inPct := s, a, 0, 0, false;
      size, num, sign, spacing, rightspc := IntSz, 0, false, 0, false;
      fillchar, base, baseprefix, altformat := ' ', 0, false, false;
    }

    /** __pf_print */
    method Print(txt: string)
      requires Good()
      modifies this`charcount, this`total, sink, sink.buf
      ensures Good() && sink.sent == old(sink.sent) + txt && total == old(total) + |txt|
    {
      sink.Send(txt);
      IntTwice(total, |txt|);
      charcount := Int(charcount + |txt|);
      total := total + |txt|;
    }

    /** __pf_endfield */
    method EndField()
      modifies this
      ensures !inPct && Idle() && State() == Flags(IntSz, 0, false, ' ', false) && args == old(args)
              && total == old(total) && charcount == old(charcount)
    {
      inPct := false;
      size := IntSz;
      num := 0;
      sign := false;
      spacing := 0;
      rightspc := false;
      fillchar := ' ';
      base := 0;
      baseprefix := false;
      altformat := false;
    }

    /** __pf_modifier */
    method Modifier(ch: char)
      requires IsModifier(ch)
      modifies this`altformat, this`rightspc, this`size, this`spacing, this`fillchar
      ensures State() == WithModifier(old(State()), ch)
    {
      if ch == '#' {
        altformat := true;
      } else if ch == '-' {
        rightspc := true;
      } else if ch == 'l' {
        size := if size.LongSz? then LLongSz else LongSz;
      } else if ch == '0' {
        if spacing > 0 {
          spacing := Int(spacing * 10);
        } else {
          fillchar := '0';
        }
      } else {
        spacing := Int(spacing * 10 + DigitValue(ch));
      }
    }

    /** va_arg for a number: the next word, sign-extended or not as the size asks. */
    method GetNum(ch: char, ghost mods: string)
      requires IsNumeric(ch) && size == SizeOf(Ells(mods)) && !sign
      modifies this`args, this`num, this`sign
      ensures args == After(ch, old(args)) && num == Abs(Value(mods, ch, old(args)))
      ensures sign == (Value(mods, ch, old(args)) < 0)
    {
      var w := WordAt(args);
      if args != [] {
        args := args[1..];
      }
      if ch == 'p' {
        num := Unsigned(w, 32);
      } else if ch == 'd' {
        var signednum := if size.LLongSz? then Signed(w, 64) else Signed(w, 32);
        if signednum < 0 {
          sign := true;
          num := -signednum;
        } else {
          num := signednum;
        }
      } else {
        num := if size.LLongSz? then Unsigned(w, 64) else Unsigned(w, 32);
      }
    }

    /** __pf_setbase */
    method SetBase(ch: char)
      requires IsNumeric(ch) && !baseprefix
      modifies this`base, this`baseprefix
      ensures base == Base(ch) && baseprefix == (altformat || ch == 'p')
    {
      if ch == 'd' || ch == 'u' {
        base := 10;
      } else if ch == 'x' || ch == 'p' {
        base := 16;
      } else {
        base := 8;
      }
      if altformat || ch == 'p' {
        baseprefix := true;
      }
    }

    /** __pf_fill */
    method FillOut(spc: nat)
      requires Good()
      modifies this`charcount, this`total, sink, sink.buf
      ensures Good() && sink.sent == old(sink.sent) + Fill(fillchar, spc) && total == old(total) + spc
    {
      var i := 0;
      ghost var before := sink.sent;
      while i < spc
        invariant 0 <= i <= spc && Good() && total == old(total) + i
        invariant sink.sent == before + Fill(fillchar, i)
      {
        Print([fillchar]);
        assert Fill(fillchar, i) + [fillchar] == Fill(fillchar, i + 1);
        i := i + 1;
      }
    }

    /** __pf_printstuff */
    method PrintStuff(prefix: string, prefix2: string, stuff: string, ghost mods: string)
      requires Good() && State() == FlagsOf(mods)
      modifies this`charcount, this`total, sink, sink.buf
      ensures Good() && sink.sent == old(sink.sent) + Padded(mods, prefix + prefix2, stuff)
      ensures total == old(total) + |Padded(mods, prefix + prefix2, stuff)|
    {
      hide Padded, FlagsOf, Pad, Int;
      var len := |prefix| + |prefix2| + |stuff|;
      var spc := Pad(spacing, len);
      ghost var before, f := sink.sent, State();
      PaddedParts(mods, f, prefix, prefix2, stuff);
      MaybeFill(spc, spc > 0 && !rightspc && fillchar != '0');
      Print(prefix);
      Print(prefix2);
      MaybeFill(spc, spc > 0 && !rightspc && fillchar == '0');
      Print(stuff);
      MaybeFill(spc, spc > 0 && rightspc);
      Regroup(before, Lead(f, len), prefix, prefix2, Zeros(f, len), stuff, Trail(f, len));
    }

    method MaybeFill(spc: nat, wanted: bool)
      requires Good()
      modifies this`charcount, this`total, sink, sink.buf
      ensures Good() && sink.sent == old(sink.sent) + (if wanted then Fill(fillchar, spc) else "")
      ensures total == old(total) + |if wanted then Fill(fillchar, spc) else ""|
    {
      if wanted {
        FillOut(spc);
      }
    }

    /** __pf_printnum */
    method PrintNum(ghost mods: string, ghost conv: char, ghost was: seq<Arg>)
      requires Good() && State() == FlagsOf(mods) && IsNumeric(conv)
      requires num == Abs(Value(mods, conv, was)) && sign == (Value(mods, conv, was) < 0)
      requires base == Base(conv) && baseprefix == (Alternate(mods) || conv == 'p')
      modifies this`charcount, this`total, sink, sink.buf
      ensures Good() && sink.sent == old(sink.sent) + Field(mods, conv, was)
      ensures total == old(total) + |Field(mods, conv, was)|
    {
      ValueRange(mods, conv, was);
      var text := NumberText(num, base);
      var bprefix := if baseprefix && base == 16 then "0x" else if baseprefix && base == 8 then "0" else "";
      var sprefix := if sign then "-" else "";
      assert sprefix + bprefix == Prefix(mods, conv, was);
      hide Padded, FlagsOf;
      PrintStuff(sprefix, bprefix, text, mods);
    }

    /** The engine is outside a field, or inside one whose modifiers so far are these. */
    ghost predicate Between(field: Option<string>)
      reads this
    {
      && Idle() && inPct == field.Some?
      && State() == FlagsOf(if field.Some? then field.value else "")
    }

    /** The last part of __pf_send: the character after the modifiers. */
    method Convert(ch: char, ghost mods: string)
      requires Good() && Between(Some(mods)) && !IsModifier(ch)
      modifies this, sink, sink.buf
      ensures Good() && Between(None) && args == After(ch, old(args))
      ensures sink.sent == old(sink.sent) + Field(mods, ch, old(args))
      ensures total == old(total) + |Field(mods, ch, old(args))|
    {
      hide Padded, Width, Zero, LeftAligned, Ells, SizeOf, Alternate, Numeral, Value, Int;
      NoFlags();
      ghost var was := args;
      if IsNumeric(ch) {
        GetNum(ch, mods);
        SetBase(ch);
        PrintNum(mods, ch, was);
      } else if ch == 's' {
        var str := StringAt(args);
        if args != [] {
          args := args[1..];
        }
        assert "" + "" == Prefix(mods, ch, was);
        PrintStuff("", "", str, mods);
      } else if ch == 'c' {
        var w := WordAt(args) % 256;
        if args != [] {
          args := args[1..];
        }
        assert "" + "" == Prefix(mods, ch, was);
        PrintStuff("", "", if w == 0 then "" else [w as char], mods);
      } else {
        assert "" + "" == Prefix(mods, ch, was);
        PrintStuff("", "", [ch], mods);
      }
      EndField();
    }

    /** __pf_send: one character of the format. */
    method SendChar(ch: char, ghost field: Option<string>) returns (ghost field': Option<string>, ghost text: string)
      requires Good() && Between(field)
      modifies this, sink, sink.buf
      ensures Good() && Between(field') && sink.sent == old(sink.sent) + text && total == old(total) + |text|
      ensures forall rest :: Printed(field, [ch] + rest, old(args)) == text + Printed(field', rest, args)
    {
      hide Field, FlagsOf, IsModifier, WithModifier, After, Int, Printed;
      field', text := field, "";
      ghost var was := args;
      if !inPct && ch != '%' {
        Print([ch]);
        text := [ch];
      } else if !inPct {
        inPct := true;
        field' := Some("");
      } else if IsModifier(ch) {
        FlagsStep(field.value, ch);
        Modifier(ch);
        field' := Some(field.value + [ch]);
      } else {
        Convert(ch, field.value);
        field', text := None, Field(field.value, ch, was);
      }
      forall rest ensures Printed(field, [ch] + rest, was) == text + Printed(field', rest, args) {
        PrintedStep(field, ch, rest, was);
      }
    }

    /** __vprintf */
    method Vprintf(format: string)
      requires Good() && Between(None) && total == 0
      modifies this, sink, sink.buf
      ensures Good() && sink.sent == old(sink.sent) + Printed(None, format, old(args))
      ensures charcount == Int(|Printed(None, format, old(args))|)
    {
      hide Printed;
      ghost var was, before, field, done := args, sink.sent, None, "";
      var i := 0;
      assert format[0..] == format;
      while i < |format|
        invariant 0 <= i <= |format| && Good() && Between(field)
        invariant sink.sent == before + done && total == |done|
        invariant Printed(None, format, was) == done + Printed(field, format[i..], args)
      {
        ghost var text, field', left := "", field, args;
        field', text := SendChar(format[i], field);
        assert format[i..] == [format[i]] + format[i + 1..];
        assert Printed(field, format[i..], left) == text + Printed(field', format[i + 1..], args);
        done, field := done + text, field';
        i := i + 1;
      }
      PrintedEnd(field, args);
      assert format[i..] == "";
    }
  }

  lemma PrintedEnd(field: Option<string>, args: seq<Arg>)
    ensures Printed(field, "", args) == ""
  {
  }

  /** What a buffer holds after n characters at most have gone into it. */
  function Stored(out: string, was: seq<char>, n: nat): seq<char>
    requires n <= |was|
  {
    var k := Min(|out|, n);
    out[..k] + was[k..]
  }

  /** __vprintf with the sink of snprintf. */
  method PrintInto(buf: array<char>, n: nat, format: string, args: seq<Arg>) returns (chars: int, pos: nat)
    requires n <= buf.Length
    modifies buf
    ensures chars == Int(|Printed(None, format, args)|) && pos == Min(|Printed(None, format, args)|, n)
    ensures buf[..] == Stored(Printed(None, format, args), old(buf[..]), n)
  {
    hide Printed, FlagsOf;
    NoFlags();
    var snp := new Snp(buf, n);
    var pf := new Pf(snp, args);
    pf.Vprintf(format);
    assert "" + Printed(None, format, args) == Printed(None, format, args);
    chars, pos := pf.charcount, snp.bufpos;
  }

  /** vsnprintf: the first len - 1 characters of what the format prints, and a terminator; nothing
      at all when len is 0. The result is the untruncated length. */
  method Vsnprintf(buf: array<char>, len: nat, format: string, args: seq<Arg>) returns (chars: int)
    requires len <= buf.Length
    modifies buf
    ensures chars == Int(|Printed(None, format, args)|)
    ensures len == 0 ==> buf[..] == old(buf[..])
    ensures len > 0 ==>
              var k := Min(len - 1, |Printed(None, format, args)|);
              buf[..] == Printed(None, format, args)[..k] + [NUL] + old(buf[..])[k + 1..]
  {
    hide Printed;
    ghost var was, out := buf[..], Printed(None, format, args);
    var pos;
    chars, pos := PrintInto(buf, if len == 0 then 0 else len - 1, format, args);
    if len > 0 {
      ghost var b := buf[..];
      buf[pos] := NUL;
      assert buf[..] == b[pos := NUL];
      Terminated(out, was, len - 1, pos);
    } else {
      assert out[..0] + was[0..] == was;
    }
  }

  lemma Terminated(out: string, was: seq<char>, n: nat, k: nat)
    requires k == Min(|out|, n) && n < |was|
    ensures Stored(out, was, n)[k := NUL] == out[..k] + [NUL] + was[k + 1..]
  {
  }
}
