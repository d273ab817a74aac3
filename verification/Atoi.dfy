/** atoi.c, and that it reads back what printf's %d prints. */
module Atoi {
  import opened Basics
  import opened Text
  import P = Printf
  import W = Words

  // ---------------------------------------------------------------------------
  // What atoi reads
  // ---------------------------------------------------------------------------

  predicate IsBlank(c: char) { c == ' ' || c == '\t' }

  predicate IsDigit(c: char) { '0' <= c <= '9' }

  function AfterBlanks(s: string): string
  {
    if s != "" && IsBlank(s[0]) then AfterBlanks(s[1..]) else s
  }

  /** The longest run of digits at the start. */
  function Run(s: string): (r: string)
    ensures AllDigits(r) && r <= s
  {
    if s != "" && IsDigit(s[0]) then [s[0]] + Run(s[1..]) else ""
  }

  predicate HasSign(s: string) { s != "" && (s[0] == '-' || s[0] == '+') }

  /** Blanks, an optional sign, digits; anything after that is ignored, and so is overflow. */
  function Read(s: string): int
  {
    var t := AfterBlanks(s);
    var n: int := Decimal(Run(if HasSign(t) then t[1..] else t));
    Signed(if t != "" && t[0] == '-' then -n else n, 32)
  }

  lemma RunStep(s: string, i: nat)
    requires i < |s| && IsDigit(s[i])
    ensures Run(s[i..]) == [s[i]] + Run(s[i + 1..])
  {
    assert s[i..][1..] == s[i + 1..];
  }

  /** The digits of a string from position i on, when those before have been dealt with. */
  lemma {:induction false} DecimalAppend(a: string, b: string)
    ensures Decimal(a + b) == Decimal(a) * Power(10, |b|) + Decimal(b)
  {
    if b == "" {
      assert a + b == a;
    } else {
      var n := |b| - 1;
      DecimalAppend(a, b[..n]);
      assert (a + b)[..|a| + n] == a + b[..n];
      PowerStep(10, n);
      Distribute(Decimal(a), Power(10, n), Decimal(b[..n]));
    }
  }

  lemma Distribute(x: int, p: int, y: int)
    ensures (x * p + y) * 10 == x * (10 * p) + y * 10
  {
    assert x * (10 * p) == 10 * (x * p);
  }

  lemma SignedWrap(n: nat, val: nat)
    requires val == n % WORD
    ensures Signed(val, 32) == Signed(n, 32) && Signed(WORD - val, 32) == Signed(0 - n, 32)
  {
    var q := n / WORD;
    assert n == val + WORD * q;
  }

  method SkipBlanks(s: string) returns (i: nat)
    ensures i <= |s| && s[i..] == AfterBlanks(s)
  {
    i := 0;
    assert s[0..] == s;
    while i < |s| && IsBlank(s[i])
      invariant 0 <= i <= |s| && AfterBlanks(s) == AfterBlanks(s[i..])
    {
      assert s[i..][1..] == s[i + 1..];
      i := i + 1;
    }
  }

  /** Arithmetic is modulo 2^32, so the negation of val is 2^32 - val. */
  method Atoi(s: string) returns (r: int)
    ensures r == Read(s)
  {
    hide Run, Decimal, Signed, AfterBlanks;
    var i := SkipBlanks(s);
    ghost var t := s[i..];
    var neg := false;
    if i < |s| && s[i] == '-' {
      neg := true;
      i := i + 1;
    } else if i < |s| && s[i] == '+' {
      i := i + 1;
    }
    assert s[i..] == if HasSign(t) then t[1..] else t;
    var val := ReadDigits(s, i);
    SignedWrap(Decimal(Run(s[i..])), val);
    r := Signed(if neg then WORD - val else val, 32);
  }

  /** The digit loop: val wraps at 2^32. */
  method ReadDigits(s: string, start: nat) returns (val: nat)
    requires start <= |s|
    ensures val == Decimal(Run(s[start..])) % WORD
  {
    hide Run, Decimal;
    val := 0;
    var i := start;
    ghost var done := "";
    NoDigits();
    assert "" + Run(s[i..]) == Run(s[i..]);
    while i < |s| && IsDigit(s[i])
      invariant start <= i <= |s| && val == Decimal(done) % WORD && done + Run(s[i..]) == Run(s[start..])
    {
      RunStep(s, i);
      DecimalSnoc(done, s[i]);
      WrapDigit(Decimal(done), DigitValue(s[i]));
      assert done + ([s[i]] + Run(s[i + 1..])) == (done + [s[i]]) + Run(s[i + 1..]);
      val := (val * 10 + DigitValue(s[i])) % WORD;
      done := done + [s[i]];
      i := i + 1;
    }
    RunEnd(s[i..]);
    assert done + "" == done;
  }

  lemma NoDigits()
    ensures Decimal("") == 0
  {
  }

  lemma RunEnd(s: string)
    requires s == "" || !IsDigit(s[0])
    ensures Run(s) == ""
  {
  }

  lemma WrapDigit(n: nat, d: nat)
    ensures (n % WORD * 10 + d) % WORD == (n * 10 + d) % WORD
  {
    var q := n / WORD;
    assert n * 10 + d == (n % WORD * 10 + d) + WORD * (10 * q);
  }

  // ---------------------------------------------------------------------------
  // Reading back %d
  // ---------------------------------------------------------------------------

  predicate Blanks(s: string) { forall i :: 0 <= i < |s| ==> s[i] == ' ' || s[i] == '\t' }

  lemma {:induction false} SkipText(blanks: string, s: string)
    requires Blanks(blanks) && (s == "" || !IsBlank(s[0]))
    ensures AfterBlanks(blanks + s) == s
  {
    if blanks == "" {
      assert blanks + s == s;
    } else {
      SkipText(blanks[1..], s);
      assert (blanks + s)[1..] == blanks[1..] + s;
    }
  }

  lemma {:induction false} RunOf(ds: string, tail: string)
    requires AllDigits(ds) && (tail == "" || !IsDigit(tail[0]))
    ensures Run(ds + tail) == ds
  {
    if ds == "" {
      assert ds + tail == tail;
    } else {
      RunOf(ds[1..], tail);
      assert (ds + tail)[1..] == ds[1..] + tail;
    }
  }

  /** A text in the four parts atoi looks for, any of which may be missing: blanks, a sign, digits and
      something else. */
  predicate Parts(blanks: string, sign: string, ds: string, tail: string)
  {
    && Blanks(blanks) && (sign == "" || sign == "-" || sign == "+") && AllDigits(ds)
    && (tail == "" || !('0' <= tail[0] <= '9'))
    && (sign == "" && ds == "" && tail != "" ==> tail[0] != ' ' && tail[0] != '\t' && tail[0] != '-' && tail[0] != '+')
  }

  /** It reads as the number the digits spell, negated if the sign is a minus, modulo 2^32. */
  lemma ReadText(blanks: string, sign: string, ds: string, tail: string)
    requires Parts(blanks, sign, ds, tail)
    ensures Read(blanks + sign + ds + tail) == Signed(if sign == "-" then 0 - Decimal(ds) else Decimal(ds), 32)
  {
    var t := sign + ds + tail;
    hide Run, Decimal, Signed, AfterBlanks;
    assert blanks + sign + ds + tail == blanks + t;
    SkipText(blanks, t);
    RunOf(ds, tail);
    assert HasSign(t) == (sign != "");
    assert (if HasSign(t) then t[1..] else t) == ds + tail;
  }

  lemma {:induction false} FirstBlanks(s: string) returns (blanks: string)
    ensures Blanks(blanks) && s == blanks + AfterBlanks(s)
    ensures AfterBlanks(s) == "" || !IsBlank(AfterBlanks(s)[0])
  {
    blanks := "";
    if s != "" && IsBlank(s[0]) {
      blanks := FirstBlanks(s[1..]);
      blanks := [s[0]] + blanks;
    }
  }

  lemma {:induction false} FirstDigits(s: string) returns (ds: string, tail: string)
    ensures s == ds + tail && AllDigits(ds) && (tail == "" || !('0' <= tail[0] <= '9'))
  {
    ds, tail := "", s;
    if s != "" && '0' <= s[0] <= '9' {
      ds, tail := FirstDigits(s[1..]);
      assert s == [s[0]] + s[1..];
      ds := [s[0]] + ds;
    }
  }

  lemma FirstSign(s: string) returns (sign: string, rest: string)
    ensures s == sign + rest && (sign == "" || sign == "-" || sign == "+")
    ensures sign == "" && s != "" ==> s[0] != '-' && s[0] != '+'
  {
    sign, rest := if HasSign(s) then s[..1] else "", if HasSign(s) then s[1..] else s;
  }

  /** Every text has these parts, so ReadText says what atoi makes of any. */
  lemma EveryText(s: string) returns (blanks: string, sign: string, ds: string, tail: string)
    ensures s == blanks + sign + ds + tail && Parts(blanks, sign, ds, tail)
  {
    blanks := FirstBlanks(s);
    var t := AfterBlanks(s);
    hide AfterBlanks, Blanks, AllDigits;
    var u;
    sign, u := FirstSign(t);
    ds, tail := FirstDigits(u);
    assert blanks + (sign + (ds + tail)) == blanks + sign + ds + tail;
    if sign == "" && ds == "" {
      assert t == tail;
    }
  }

  lemma {:induction false} ZerosDecimal(n: nat)
    ensures Decimal(Fill('0', n)) == 0
  {
    if n > 0 {
      ZerosDecimal(n - 1);
      assert Fill('0', n)[..n - 1] == Fill('0', n - 1);
    }
  }

  lemma {:induction false} EvenPower(k: nat)
    requires k > 0
    ensures Power(10, k) % 2 == 0
  {
    PowerStep(10, k - 1);
    assert 10 * Power(10, k - 1) == 2 * (5 * Power(10, k - 1));
  }

  /** An odd factor has no part in divisibility by a power of two. */
  lemma {:induction false} OddFactor(m: int, x: int, n: nat)
    requires m % 2 == 1 && (m * x) % W.Pow2(n) == 0
    ensures x % W.Pow2(n) == 0
    decreases n
  {
    if n > 0 {
      var p := W.Pow2(n - 1);
      var c := (m * x) / W.Pow2(n);
      assert m * x == 2 * (p * c) by {
        assert m * x == W.Pow2(n) * c;
        assert 2 * p * c == 2 * (p * c);
      }
      assert x % 2 == 0 by { OddTimes(m, x, p * c); }
      var y := x / 2;
      assert m * y == p * c by {
        assert m * (2 * y) == 2 * (m * y);
      }
      assert (m * y) % p == 0 by { Multiple(c, p); }
      OddFactor(m, y, n - 1);
      assert x % W.Pow2(n) == 0 by {
        var d := y / p;
        assert y == p * d;
        assert x == (2 * p) * d;
        Multiple(d, 2 * p);
      }
    }
  }

  lemma OddTimes(m: int, x: int, h: int)
    requires m % 2 == 1 && m * x == 2 * h
    ensures x % 2 == 0
  {
    var a := m / 2;
    assert m * x == (2 * a + 1) * x == 2 * (a * x) + x;
    assert x == 2 * (h - a * x);
  }

  lemma Multiple(c: int, p: int)
    requires p > 0
    ensures (p * c) % p == 0
  {
    ModUnique(p * c, p, c, 0);
  }

  /** The number %d prints in a field with these modifiers, when the argument fits an int. */
  lemma IntValue(mods: string, x: int)
    requires -0x8000_0000 <= x < 0x8000_0000
    ensures Value(mods, 'd', [Word(x)]) == x && Prefix(mods, 'd', [Word(x)]) == (if x < 0 then "-" else "")
    ensures Stuff(mods, 'd', [Word(x)]) == Numeral(Abs(x), 10)
  {
    hide Ells, Alternate, Numeral;
  }

  lemma IntAgain(x: int)
    requires -0x8000_0000 <= x < 0x8000_0000
    ensures Signed(x, 32) == x
  {
  }

  function Sign(x: int): string { if x < 0 then "-" else "" }

  lemma PadLeft(x: int, n: nat)
    requires -0x8000_0000 <= x < 0x8000_0000
    ensures Read(Fill(' ', n) + Sign(x) + Numeral(Abs(x), 10)) == x
  {
    hide Read, Decimal, Signed, Numeral;
    var ds := Numeral(Abs(x), 10);
    NumeralDecimal(Abs(x));
    ReadText(Fill(' ', n), Sign(x), ds, "");
    assert Fill(' ', n) + Sign(x) + ds + "" == Fill(' ', n) + Sign(x) + ds;
    IntAgain(x);
  }

  lemma PadRight(x: int, n: nat)
    requires -0x8000_0000 <= x < 0x8000_0000
    ensures Read(Sign(x) + Numeral(Abs(x), 10) + Fill(' ', n)) == x
  {
    hide Read, Decimal, Signed, Numeral;
    var ds := Numeral(Abs(x), 10);
    NumeralDecimal(Abs(x));
    ReadText("", Sign(x), ds, Fill(' ', n));
    assert "" + Sign(x) + ds + Fill(' ', n) == Sign(x) + ds + Fill(' ', n);
    IntAgain(x);
  }

  lemma PadZeros(x: int, n: nat)
    requires -0x8000_0000 <= x < 0x8000_0000
    ensures Read(Sign(x) + Fill('0', n) + Numeral(Abs(x), 10)) == x
  {
    hide Read, Decimal, Signed, Numeral;
    var ds := Fill('0', n) + Numeral(Abs(x), 10);
    NumeralDecimal(Abs(x));
    ZerosDecimal(n);
    DecimalAppend(Fill('0', n), Numeral(Abs(x), 10));
    assert 0 * Power(10, |Numeral(Abs(x), 10)|) == 0;
    ReadText("", Sign(x), ds, "");
    assert "" + Sign(x) + ds + "" == Sign(x) + Fill('0', n) + Numeral(Abs(x), 10);
    IntAgain(x);
  }

  /** Zeros on the right multiply the number by a power of ten. */
  lemma ZerosOnTheRight(x: int, n: nat)
    requires -0x8000_0000 <= x < 0x8000_0000
    ensures Read(Sign(x) + Numeral(Abs(x), 10) + Fill('0', n)) == Signed(x * Power(10, n), 32)
  {
    hide Read, Decimal, Signed, Numeral, Power;
    var ds := Numeral(Abs(x), 10) + Fill('0', n);
    NumeralDecimal(Abs(x));
    ZerosDecimal(n);
    DecimalAppend(Numeral(Abs(x), 10), Fill('0', n));
    ReadText("", Sign(x), ds, "");
    assert "" + Sign(x) + ds + "" == Sign(x) + Numeral(Abs(x), 10) + Fill('0', n);
    assert (0 - Abs(x)) * Power(10, n) == 0 - Abs(x) * Power(10, n);
  }

  lemma SignedCongruent(y: int, x: int)
    requires -0x8000_0000 <= x < 0x8000_0000
    ensures Signed(y, 32) == x <==> (y - x) % WORD == 0
  {
  }

  lemma TwoWord()
    ensures W.Pow2(32) == WORD
  {
    assert W.Pow2(4) == 16;
    assert W.Pow2(8) == 256;
    assert W.Pow2(12) == 4096;
    assert W.Pow2(16) == 65536;
    assert W.Pow2(20) == 0x10_0000;
    assert W.Pow2(24) == 0x100_0000;
    assert W.Pow2(28) == 0x1000_0000;
  }

  /** ... which changes every number but 0, also modulo 2^32. */
  lemma ZerosChangeIt(x: int, n: nat)
    requires -0x8000_0000 <= x < 0x8000_0000 && n > 0
    ensures Signed(x * Power(10, n), 32) == x <==> x == 0
  {
    hide Signed, Power, W.Pow2;
    var p := Power(10, n);
    EvenPower(n);
    SignedCongruent(x * p, x);
    assert x * p - x == (p - 1) * x;
    if ((p - 1) * x) % WORD == 0 {
      TwoWord();
      OddFactor(p - 1, x, 32);
    }
    if x == 0 {
      assert x * p == 0;
    }
  }

  /** Whether atoi reads back what %d printed: always, except that left alignment with a leading 0
      puts zeros after the number when the field is wider than it, which only 0 survives. */
  lemma ReadBack(mods: string, x: int)
    requires -0x8000_0000 <= x < 0x8000_0000
    ensures Read(Field(mods, 'd', [Word(x)])) == x <==>
            !(LeftAligned(mods) && Zero(mods) && Width(mods) > |Sign(x) + Numeral(Abs(x), 10)| && x != 0)
  {
    hide Read, Numeral, Width, Zero, LeftAligned, Prefix, Stuff, Power, Signed;
    IntValue(mods, x);
    var prefix, ds := Sign(x), Numeral(Abs(x), 10);
    var n := Pad(Width(mods), |prefix| + |ds|);
    var fill := Fill(if Zero(mods) then '0' else ' ', n);
    if LeftAligned(mods) {
      if Zero(mods) {
        ZerosOnTheRight(x, n);
        if n > 0 {
          ZerosChangeIt(x, n);
        } else {
          PadRight(x, 0);
          assert Fill('0', 0) == Fill(' ', 0);
        }
      } else {
        PadRight(x, n);
      }
    } else if Zero(mods) {
      PadZeros(x, n);
    } else {
      PadLeft(x, n);
    }
  }

  /** The same for the whole of printf: the format is %, modifiers, d. */
  lemma PrintThenRead(mods: string, x: int)
    requires -0x8000_0000 <= x < 0x8000_0000 && forall i :: 0 <= i < |mods| ==> IsModifier(mods[i])
    ensures Read(Printed(None, "%" + mods + "d", [Word(x)])) == x <==>
            !(LeftAligned(mods) && Zero(mods) && Width(mods) > |Sign(x) + Numeral(Abs(x), 10)| && x != 0)
  {
    hide Read, Printed, Field;
    OneField(mods, 'd', [Word(x)]);
    ReadBack(mods, x);
  }

  lemma FiveWide()
    ensures LeftAligned("-05") && Zero("-05") && Width("-05") == 5
  {
    assert Width("") == 0;
    hide Width, Zero;
    WidthStep("", '-');
    assert "" + ['-'] == "-";
    WidthStep("-", '0');
    assert "-" + ['0'] == "-0";
    WidthStep("-0", '5');
    assert "-0" + ['5'] == "-05";
    assert "-05"[0] == '-';
  }

  /** The exception is real: what %-05d prints for 7 does not read back as 7. */
  lemma SevenIsLost()
    ensures Read(Field("-05", 'd', [Word(7)])) != 7
  {
    hide Read, Field, Width, Zero, LeftAligned;
    FiveWide();
    NumeralStep(7, 10);
    ReadBack("-05", 7);
  }

  // ---------------------------------------------------------------------------
  // Through a buffer
  // ---------------------------------------------------------------------------

  /** The C string at the start of a buffer. */
  function CString(s: seq<char>): string
  {
    if s == [] || s[0] == P.NUL then "" else [s[0]] + CString(s[1..])
  }

  lemma {:induction false} CStringOf(text: string, rest: seq<char>)
    requires P.NUL !in text
    ensures CString(text + [P.NUL] + rest) == text
  {
    var s := text + [P.NUL] + rest;
    if text != "" {
      CStringOf(text[1..], rest);
      assert s[1..] == text[1..] + [P.NUL] + rest;
      assert s[0] == text[0] && text[0] in text;
    }
  }

  lemma NoNul(mods: string, x: int)
    requires -0x8000_0000 <= x < 0x8000_0000
    ensures P.NUL !in Field(mods, 'd', [Word(x)])
  {
    hide Numeral, Width, Zero, LeftAligned, Prefix, Stuff;
    IntValue(mods, x);
    NumeralDecimal(Abs(x));
    hide Decimal;
  }

  /** snprintf of one %d field into a buffer of len characters, and atoi of that buffer. What fits is
      read; a field that fits as a whole is read back as PrintThenRead says. */
  method PrintAndRead(buf: array<char>, len: nat, mods: string, x: int) returns (r: int)
    requires 0 < len <= buf.Length && -0x8000_0000 <= x < 0x8000_0000
    requires forall i :: 0 <= i < |mods| ==> IsModifier(mods[i])
    modifies buf
    ensures r == Read(Field(mods, 'd', [Word(x)])[..Min(len - 1, |Field(mods, 'd', [Word(x)])|)])
    ensures len > |Field(mods, 'd', [Word(x)])| ==>
              (r == x <==>
               !(LeftAligned(mods) && Zero(mods) && Width(mods) > |Sign(x) + Numeral(Abs(x), 10)| && x != 0))
  {
    hide Read, Printed, Field, CString, LeftAligned, Zero, Width, Numeral;
    ghost var text := Field(mods, 'd', [Word(x)]);
    OneField(mods, 'd', [Word(x)]);
    var _ := P.Vsnprintf(buf, len, "%" + mods + "d", [Word(x)]);
    ghost var k := Min(len - 1, |text|);
    NoNul(mods, x);
    assert P.NUL !in text[..k];
    CStringOf(text[..k], old(buf[..])[k + 1..]);
    r := Atoi(CString(buf[..]));
    ReadBack(mods, x);
    assert text[..|text|] == text;
  }
}
