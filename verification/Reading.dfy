/** Reading back what printf prints: a reader of numbers in any base that looks at nothing but the
    characters, and what a format prints, field by field. */
module Reading {
  import opened Basics
  import opened Text
  import P = Printf
  import A = Atoi

  // ---------------------------------------------------------------------------
  // Positional numerals
  // ---------------------------------------------------------------------------

  /** The value of a digit. */
  function DigitOf(c: char): Option<nat>
  {
    if '0' <= c <= '9' then Some(c as nat - '0' as nat)
    else if 'a' <= c <= 'f' then Some(c as nat - 'a' as nat + 10)
    else None
  }

  predicate IsDigitIn(c: char, base: nat) { DigitOf(c).Some? && DigitOf(c).value < base }

  predicate DigitsIn(s: string, base: nat) { forall i :: 0 <= i < |s| ==> IsDigitIn(s[i], base) }

  function Positional(s: string, base: nat): nat
  {
    if s == "" then 0
    else
      var d := DigitOf(s[|s| - 1]);
      Positional(s[..|s| - 1], base) * base + if d.Some? then d.value else 0
  }

  lemma PositionalSnoc(s: string, c: char, base: nat)
    requires DigitOf(c).Some?
    ensures Positional(s + [c], base) == Positional(s, base) * base + DigitOf(c).value
  {
    assert (s + [c])[..|s|] == s;
  }

  lemma DigitReads(d: nat)
    requires d < 16
    ensures DigitOf(DigitChar(d)) == Some(d)
  {
  }

  lemma OneDigit(c: char, d: nat)
    requires d < 16 && DigitOf(c) == Some(d)
    ensures c == DigitChar(d)
  {
    DigitReads(d);
  }

  lemma ZeroDigit(d: nat)
    requires d < 16
    ensures DigitChar(d) == '0' <==> d == 0
  {
    DigitReads(d);
  }

  lemma DivMod(n: nat, base: nat)
    requires base >= 2
    ensures n / base * base + n % base == n && (n >= base ==> 0 < n / base < n)
  {
    assert n / base * base == base * (n / base);
  }

  lemma DigitAppended(s: string, d: nat, base: nat)
    requires DigitsIn(s, base) && d < base <= 16
    ensures DigitsIn(s + [DigitChar(d)], base)
    ensures Positional(s + [DigitChar(d)], base) == Positional(s, base) * base + d
  {
    hide DigitChar, DigitOf, Positional;
    DigitReads(d);
    PositionalSnoc(s, DigitChar(d), base);
  }

  lemma OneDigitReads(n: nat, base: nat)
    requires n < base <= 16
    ensures Positional([DigitChar(n)], base) == n && DigitsIn([DigitChar(n)], base) && n % base == n
  {
    hide DigitChar, DigitOf;
    DigitReads(n);
    SmallMod(n, base);
    assert [DigitChar(n)][..0] == "";
  }

  /** A numeral reads, digit by digit, as the number it is for, and has no leading zero but in "0". */
  lemma {:induction false} NumeralReads(n: nat, base: nat)
    requires 2 <= base <= 16
    ensures Positional(Numeral(n, base), base) == n && DigitsIn(Numeral(n, base), base)
    ensures Numeral(n, base)[0] == '0' <==> n == 0
    ensures n == 0 ==> Numeral(n, base) == "0"
    decreases n
  {
    hide *;
    NumeralStep(n, base);
    if n >= base {
      DivMod(n, base);
      NumeralReads(n / base, base);
      DigitAppended(Numeral(n / base, base), n % base, base);
    } else {
      OneDigitReads(n, base);
      ZeroDigit(n);
    }
  }

  lemma SmallMod(n: nat, base: nat)
    requires n < base
    ensures n % base == n
  {
  }

  lemma {:induction false} PositiveReads(s: string, base: nat)
    requires DigitsIn(s, base) && s != "" && s[0] != '0' && base > 0
    ensures Positional(s, base) > 0
  {
    var n := |s| - 1;
    if n > 0 {
      PositiveReads(s[..n], base);
      assert Positional(s[..n], base) * base >= 1 by { MulLe(1, Positional(s[..n], base), base); }
    } else {
      assert s[..n] == "";
    }
  }

  lemma LastDigit(s: string, base: nat)
    requires 2 <= base <= 16 && s != "" && DigitsIn(s, base)
    ensures var init, n := s[..|s| - 1], Positional(s, base);
            s == init + [DigitChar(n % base)] && n / base == Positional(init, base) && DigitsIn(init, base)
  {
    var init, c := s[..|s| - 1], s[|s| - 1];
    assert IsDigitIn(c, base) && s == init + [c];
    hide DigitChar;
    OneDigit(c, DigitOf(c).value);
    ModUnique(Positional(s, base), base, Positional(init, base), DigitOf(c).value);
  }

  /** It is the only such numeral. */
  lemma {:induction false} NumeralOnly(s: string, base: nat)
    requires 2 <= base <= 16 && s != "" && DigitsIn(s, base) && (s[0] == '0' ==> |s| == 1)
    ensures s == Numeral(Positional(s, base), base)
    decreases |s|
  {
    var init, n := s[..|s| - 1], Positional(s, base);
    LastDigit(s, base);
    NumeralStep(n, base);
    DivMod(n, base);
    if |s| > 1 {
      PositiveReads(init, base);
      NumeralOnly(init, base);
      hide *;
      Quotient(n, base);
    } else {
      assert init == "" && Positional(init, base) == 0;
      hide *;
      Quotient(n, base);
      SmallMod(n, base);
    }
  }

  lemma Quotient(n: nat, base: nat)
    requires base > 0
    ensures n / base == 0 <==> n < base
  {
  }

  // ---------------------------------------------------------------------------
  // The reader
  // ---------------------------------------------------------------------------

  /** The longest run of digits at the start. */
  function Leading(s: string, base: nat): string
  {
    if s != "" && IsDigitIn(s[0], base) then [s[0]] + Leading(s[1..], base) else ""
  }

  function Unsign(s: string): string { if s != "" && s[0] == '-' then s[1..] else s }

  predicate Marked(s: string) { |s| >= 2 && s[0] == '0' && s[1] == 'x' }

  /** Blanks, an optional minus, an optional 0x in base 16, digits. What follows is ignored. */
  function ReadIn(s: string, base: nat): int
  {
    var t := A.AfterBlanks(s);
    var u := Unsign(t);
    var n := Positional(Leading(if base == 16 && Marked(u) then u[2..] else u, base), base);
    if t != "" && t[0] == '-' then 0 - n else n
  }

  lemma {:induction false} LeadingOf(ds: string, tail: string, base: nat)
    requires DigitsIn(ds, base) && (tail == "" || !IsDigitIn(tail[0], base))
    ensures Leading(ds + tail, base) == ds
  {
    if ds == "" {
      assert ds + tail == tail;
    } else {
      LeadingOf(ds[1..], tail, base);
      assert (ds + tail)[1..] == ds[1..] + tail;
    }
  }

  /** A number as printf puts it together: a minus or none, 0x or none, digits. */
  function Number(neg: bool, mark: bool, ds: string): string
  {
    (if neg then "-" else "") + (if mark then "0x" else "") + ds
  }

  lemma NumberSign(neg: bool, mark: bool, ds: string, tail: string, base: nat)
    requires DigitsIn(ds, base) && ds != ""
    ensures var t := Number(neg, mark, ds) + tail;
            && t != "" && !A.IsBlank(t[0]) && (t[0] == '-' <==> neg)
            && Unsign(t) == (if mark then "0x" else "") + ds + tail
  {
    assert IsDigitIn(ds[0], base);
    assert Number(neg, mark, ds) + tail == (if neg then "-" else "") + ((if mark then "0x" else "") + ds + tail);
  }

  lemma NumberMark(mark: bool, ds: string, n: nat, base: nat)
    requires DigitsIn(ds, base) && ds != ""
    ensures var u := (if mark then "0x" else "") + ds + Fill(' ', n);
            (Marked(u) <==> mark) && (if mark then u[2..] else u) == ds + Fill(' ', n)
  {
    var u := (if mark then "0x" else "") + ds + Fill(' ', n);
    if mark {
      assert u[2..] == ds + Fill(' ', n);
    } else {
      assert u == ds + Fill(' ', n);
      assert |ds| >= 2 ==> IsDigitIn(ds[1], base);
    }
  }

  lemma BlankDigit(base: nat)
    ensures !IsDigitIn(' ', base)
  {
  }

  lemma ReadNumber(k: nat, neg: bool, mark: bool, ds: string, n: nat, base: nat)
    requires DigitsIn(ds, base) && ds != "" && (mark ==> base == 16)
    ensures ReadIn(Fill(' ', k) + Number(neg, mark, ds) + Fill(' ', n), base) ==
            if neg then 0 - Positional(ds, base) else Positional(ds, base)
  {
    var t := Number(neg, mark, ds) + Fill(' ', n);
    hide DigitOf;
    NumberSign(neg, mark, ds, Fill(' ', n), base);
    NumberMark(mark, ds, n, base);
    A.SkipText(Fill(' ', k), t);
    assert Fill(' ', k) + Number(neg, mark, ds) + Fill(' ', n) == Fill(' ', k) + t;
    assert n > 0 ==> !IsDigitIn(' ', base) by { BlankDigit(base); }
    LeadingOf(ds, Fill(' ', n), base);
    hide Number, Positional, Leading, A.AfterBlanks;
  }

  lemma {:induction false} PositionalAppend(a: string, b: string, base: nat)
    ensures Positional(a + b, base) == Positional(a, base) * Power(base, |b|) + Positional(b, base)
  {
    if b == "" {
      assert a + b == a;
    } else {
      var n := |b| - 1;
      PositionalAppend(a, b[..n], base);
      assert (a + b)[..|a| + n] == a + b[..n];
      PowerStep(base, n);
      Shifted(Positional(a, base), Power(base, n), Positional(b[..n], base), base);
    }
  }

  lemma Shifted(x: int, p: int, y: int, base: int)
    ensures (x * p + y) * base == x * (base * p) + y * base
  {
    assert (x * p) * base == x * (base * p);
  }

  lemma {:induction false} ZerosRead(n: nat, base: nat)
    requires base > 0
    ensures Positional(Fill('0', n), base) == 0 && DigitsIn(Fill('0', n), base)
  {
    if n > 0 {
      ZerosRead(n - 1, base);
      assert Fill('0', n)[..n - 1] == Fill('0', n - 1);
    }
  }

  /** Zeros before a numeral change nothing. */
  lemma ZerosBefore(n: nat, ds: string, base: nat)
    requires DigitsIn(ds, base) && base > 0
    ensures Positional(Fill('0', n) + ds, base) == Positional(ds, base) && DigitsIn(Fill('0', n) + ds, base)
  {
    hide Positional, Power;
    ZerosRead(n, base);
    PositionalAppend(Fill('0', n), ds, base);
  }

  /** Zeros after it multiply it. */
  lemma ZerosAfter(n: nat, ds: string, base: nat)
    requires DigitsIn(ds, base) && base > 0
    ensures Positional(ds + Fill('0', n), base) == Positional(ds, base) * Power(base, n)
    ensures DigitsIn(ds + Fill('0', n), base)
  {
    hide Positional, Power;
    ZerosRead(n, base);
    PositionalAppend(ds, Fill('0', n), base);
  }

  // ---------------------------------------------------------------------------
  // The arguments
  // ---------------------------------------------------------------------------

  lemma {:induction false} EllsCount(mods: string)
    ensures Ells(mods) == multiset(mods)['l']
  {
    if mods != "" {
      var init, c := mods[..|mods| - 1], mods[|mods| - 1];
      EllsCount(init);
      assert mods == init + [c];
    }
  }

  /** An even number of l's, but not none, makes the argument 64 bits wide; a pointer is 32 bits wide. */
  function Modulus(mods: string, conv: char): nat
  {
    if conv != 'p' && multiset(mods)['l'] > 0 && multiset(mods)['l'] % 2 == 0 then 0x1_0000_0000_0000_0000
    else 0x1_0000_0000
  }

  /** v is the argument w as the conversion sees it: modulo 2^32 or 2^64, signed for %d. */
  predicate StandsFor(v: int, w: int, mods: string, conv: char)
  {
    var m := Modulus(mods, conv);
    (v - w) % m == 0 && if conv == 'd' then 0 - m / 2 <= v < m / 2 else 0 <= v < m
  }

  /** The bases of the numeric conversions. */
  predicate PrintsIn(conv: char, base: nat)
  {
    || (base == 8 && conv == 'o')
    || (base == 10 && (conv == 'd' || conv == 'u'))
    || (base == 16 && (conv == 'x' || conv == 'p'))
  }

  lemma Residue(w: int, m: nat, v: int)
    requires m > 0 && (v == w % m || v == w % m - m)
    ensures (v - w) % m == 0
  {
    var q := w / m;
    assert w == m * q + w % m;
    var k := if v == w % m then -q else -q - 1;
    assert v - w == k * m + 0 by {
      assert m * q == q * m;
      assert (-q - 1) * m == -(q * m) - m;
    }
    ModUnique(v - w, m, k, 0);
  }

  lemma ValueStands(mods: string, conv: char, w: int, base: nat)
    requires PrintsIn(conv, base)
    ensures IsNumeric(conv) && Base(conv) == base && StandsFor(Value(mods, conv, [Word(w)]), w, mods, conv)
  {
    EllsCount(mods);
    hide Ells;
    Residue(w, Modulus(mods, conv), Value(mods, conv, [Word(w)]));
  }

  /** There is only one such number. */
  lemma StandsOnce(v: int, v': int, w: int, mods: string, conv: char)
    requires StandsFor(v, w, mods, conv) && StandsFor(v', w, mods, conv)
    ensures v == v'
  {
  }

  // ---------------------------------------------------------------------------
  // Numeric fields
  // ---------------------------------------------------------------------------

  /** 0x goes before the digits of %p always, and of %#x. */
  predicate HexMark(mods: string, conv: char) { conv == 'p' || (conv == 'x' && '#' in mods) }

  /** %#o puts a 0 before the digits. */
  function OctMark(mods: string, conv: char): nat { if conv == 'o' && '#' in mods then 1 else 0 }

  /** How long the number is that goes into the field. */
  function Natural(mods: string, conv: char, v: int, base: nat): nat
    requires 2 <= base <= 16
  {
    |Number(v < 0, HexMark(mods, conv), Fill('0', OctMark(mods, conv)) + Numeral(Abs(v), base))|
  }

  lemma MarkParts(mods: string, conv: char, w: int, base: nat)
    requires PrintsIn(conv, base)
    ensures var v := Value(mods, conv, [Word(w)]);
            && Prefix(mods, conv, [Word(w)]) == Number(v < 0, HexMark(mods, conv), Fill('0', OctMark(mods, conv)))
            && Stuff(mods, conv, [Word(w)]) == Numeral(Abs(v), base)
  {
    hide Value, Numeral;
    var v := Value(mods, conv, [Word(w)]);
    assert Fill('0', 0) == "" && Fill('0', 1) == "0";
    assert Number(v < 0, false, "") == (if v < 0 then "-" else "") + "";
    assert Number(v < 0, false, "0") == (if v < 0 then "-" else "") + "0";
    assert Number(v < 0, true, "") == (if v < 0 then "-" else "") + "0x";
  }

  lemma NumberAppend(neg: bool, mark: bool, a: string, b: string)
    ensures Number(neg, mark, a) + b == Number(neg, mark, a + b)
  {
  }

  lemma FillAppend(c: char, m: nat, n: nat)
    ensures Fill(c, m) + Fill(c, n) == Fill(c, m + n)
  {
  }

  /** A padded number: p characters of padding, on the left or the right, blanks or zeros, after the
      zeros it has already. */
  function Spread(left: bool, zero: bool, p: nat, neg: bool, hex: bool, oct: nat, ds: string): string
  {
    Fill(' ', if left || zero then 0 else p) +
    Number(neg, hex, Fill('0', oct + if !left && zero then p else 0) + ds + Fill('0', if left && zero then p else 0)) +
    Fill(' ', if left && !zero then p else 0)
  }

  lemma SpreadBlanks(left: bool, p: nat, neg: bool, hex: bool, oct: nat, ds: string)
    ensures var prefix, fill := Number(neg, hex, Fill('0', oct)), Fill(' ', p);
            Spread(left, false, p, neg, hex, oct, ds) == if left then prefix + ds + fill else fill + prefix + ds
  {
    NumberAppend(neg, hex, Fill('0', oct), ds);
    assert Fill('0', oct) + ds + Fill('0', 0) == Fill('0', oct) + ds;
    hide Number;
  }

  lemma SpreadZeros(left: bool, p: nat, neg: bool, hex: bool, oct: nat, ds: string)
    ensures var prefix, fill := Number(neg, hex, Fill('0', oct)), Fill('0', p);
            Spread(left, true, p, neg, hex, oct, ds) == if left then prefix + ds + fill else prefix + fill + ds
  {
    var z := if left then 0 else p;
    FillAppend('0', oct, z);
    NumberAppend(neg, hex, Fill('0', oct), Fill('0', z));
    NumberAppend(neg, hex, Fill('0', oct + z), ds);
    NumberAppend(neg, hex, Fill('0', oct + z) + ds, Fill('0', p - z));
    hide Number;
  }

  /** What a numeric field looks like. */
  lemma FieldShape(mods: string, conv: char, w: int, base: nat)
    requires PrintsIn(conv, base)
    ensures var v := Value(mods, conv, [Word(w)]);
            Field(mods, conv, [Word(w)]) ==
            Spread('-' in mods, Zero(mods), Pad(Width(mods), Natural(mods, conv, v, base)),
                   v < 0, HexMark(mods, conv), OctMark(mods, conv), Numeral(Abs(v), base))
  {
    var v := Value(mods, conv, [Word(w)]);
    MarkParts(mods, conv, w, base);
    NumberAppend(v < 0, HexMark(mods, conv), Fill('0', OctMark(mods, conv)), Numeral(Abs(v), base));
    hide Numeral, Value, Number, Width, Zero, HexMark, OctMark, Prefix, Stuff, Spread;
    var p, hex, oct := Pad(Width(mods), Natural(mods, conv, v, base)), HexMark(mods, conv), OctMark(mods, conv);
    SpreadBlanks('-' in mods, p, v < 0, hex, oct, Numeral(Abs(v), base));
    SpreadZeros('-' in mods, p, v < 0, hex, oct, Numeral(Abs(v), base));
  }

  lemma SpreadReads(left: bool, zero: bool, p: nat, neg: bool, hex: bool, oct: nat, ds: string, base: nat)
    requires DigitsIn(ds, base) && ds != "" && base > 0 && (hex ==> base == 16)
    ensures var n := Positional(ds, base) * if left && zero then Power(base, p) else 1;
            ReadIn(Spread(left, zero, p, neg, hex, oct, ds), base) == if neg then 0 - n else n
  {
    hide Positional, DigitOf, Power, ReadIn, Number;
    var z, y := oct + (if !left && zero then p else 0), if left && zero then p else 0;
    ZerosBefore(z, ds, base);
    ZerosAfter(y, Fill('0', z) + ds, base);
    PowerStep(base, 0);
    ReadNumber(if left || zero then 0 else p, neg, hex, Fill('0', z) + ds + Fill('0', y),
               if left && !zero then p else 0, base);
  }

  lemma {:induction false} PowerMore(base: nat, n: nat)
    requires base >= 2 && n > 0
    ensures Power(base, n) >= 2
  {
    PowerStep(base, n - 1);
    PowerPositive(base, n - 1);
    MulLe(1, Power(base, n - 1), base);
  }

  lemma Grows(v: nat, p: nat)
    requires p >= 2
    ensures v * p == v <==> v == 0
  {
    if v > 0 {
      MulLe(2, p, v);
      assert p * v == v * p;
    }
  }

  /** What stands in a numeric field, after sign, prefix and padding, reads as the argument, taken
      modulo 2^32 or 2^64, except where zeros are asked for on the right and there is room for some. */
  lemma FieldReads(mods: string, conv: char, w: int, base: nat)
    requires PrintsIn(conv, base)
    ensures var v := Value(mods, conv, [Word(w)]);
            && StandsFor(v, w, mods, conv)
            && (StandsFor(ReadIn(Field(mods, conv, [Word(w)]), base), w, mods, conv) <==>
                !('-' in mods && Zero(mods) && Width(mods) > Natural(mods, conv, v, base) && v != 0))
  {
    var v := Value(mods, conv, [Word(w)]);
    var left, zero, p := '-' in mods, Zero(mods), Pad(Width(mods), Natural(mods, conv, v, base));
    ValueStands(mods, conv, w, base);
    FieldShape(mods, conv, w, base);
    NumeralReads(Abs(v), base);
    hide Value, Width, Zero, Natural, Number, Numeral, Positional, DigitOf, Field, Spread, ReadIn, StandsFor, Power;
    SpreadReads(left, zero, p, v < 0, HexMark(mods, conv), OctMark(mods, conv), Numeral(Abs(v), base), base);
    var r := ReadIn(Field(mods, conv, [Word(w)]), base);
    if left && zero && p > 0 {
      PowerMore(base, p);
      Grows(Abs(v), Power(base, p));
    } else if p == 0 {
      PowerStep(base, 0);
    }
    if StandsFor(r, w, mods, conv) {
      StandsOnce(r, v, w, mods, conv);
    }
  }

  // ---------------------------------------------------------------------------
  // Other fields, and whole formats
  // ---------------------------------------------------------------------------

  predicate TakesArgument(conv: char)
  {
    conv == 'd' || conv == 'u' || conv == 'x' || conv == 'o' || conv == 'p' || conv == 's' || conv == 'c'
  }

  /** A text in a field: at its left or at its right end. */
  function Placed(mods: string, t: string): string
  {
    var fill := Fill(if Zero(mods) then '0' else ' ', Pad(Width(mods), |t|));
    if '-' in mods then t + fill else fill + t
  }

  lemma PlacedIs(mods: string, t: string)
    ensures Padded(mods, "", t) == Placed(mods, t)
  {
    hide Width, Zero;
    var fill := Fill(if Zero(mods) then '0' else ' ', Pad(Width(mods), |t|));
    assert "" + t + fill == t + fill && "" + fill + t == fill + t && fill + "" + t == fill + t;
  }

  /** %s prints a string, or (null), %c a character but the null character, and any other conversion
      itself, so that %% prints a percent sign. */
  lemma TextField(mods: string, conv: char, arg: Arg)
    ensures conv == 's' && arg.Str? ==>
              Field(mods, conv, [arg]) == Placed(mods, if arg.s.Some? then arg.s.value else "(null)")
    ensures conv == 'c' && arg.Word? ==>
              Field(mods, conv, [arg]) ==
              Placed(mods, if arg.w % 256 == 0 then "" else [(arg.w % 256) as char])
    ensures !TakesArgument(conv) ==> Field(mods, conv, []) == Placed(mods, [conv])
  {
    hide Padded, Placed, Numeral, Value;
    PlacedIs(mods, Stuff(mods, conv, if TakesArgument(conv) then [arg] else []));
  }

  predicate ModifierText(mods: string) { forall i :: 0 <= i < |mods| ==> mods[i] in "#-l0123456789" }

  lemma ModifierIs(c: char)
    requires c in "#-l0123456789"
    ensures IsModifier(c)
  {
  }

  lemma {:induction false} FieldThen(read: string, mods: string, conv: char, rest: string, args: seq<Arg>)
    requires !IsModifier(conv) && ModifierText(mods)
    ensures Printed(Some(read), mods + [conv] + rest, args) ==
            Field(read + mods, conv, args) + Printed(None, rest, After(conv, args))
    decreases |mods|
  {
    var format := mods + [conv] + rest;
    hide Field, IsModifier, After;
    if mods == "" {
      assert format[1..] == rest && read + mods == read;
    } else {
      ModifierIs(mods[0]);
      assert format[1..] == mods[1..] + [conv] + rest;
      FieldThen(read + [mods[0]], mods[1..], conv, rest, args);
      assert read + [mods[0]] + mods[1..] == read + mods;
    }
  }

  lemma SameField(mods: string, conv: char, a: Arg, args: seq<Arg>)
    ensures Field(mods, conv, [a] + args) == Field(mods, conv, [a])
    ensures !TakesArgument(conv) ==> Field(mods, conv, args) == Field(mods, conv, [])
  {
    hide Padded, Numeral;
  }

  lemma FieldStarts(mods: string, conv: char, rest: string, args: seq<Arg>)
    requires !IsModifier(conv) && ModifierText(mods)
    ensures Printed(None, "%" + mods + [conv] + rest, args) ==
            Field(mods, conv, args) + Printed(None, rest, After(conv, args))
  {
    var format := "%" + mods + [conv] + rest;
    assert format == ['%'] + (mods + [conv] + rest) && "" + mods == mods;
    hide *;
    P.PrintedStep(None, '%', mods + [conv] + rest, args);
    FieldThen("", mods, conv, rest, args);
  }

  lemma Takes(conv: char, a: Arg, args: seq<Arg>)
    ensures TakesArgument(conv) ==> !IsModifier(conv) && After(conv, [a] + args) == args
    ensures !TakesArgument(conv) ==> After(conv, args) == args
  {
    assert ([a] + args)[1..] == args;
  }

  /** A format goes field by field, each numeric, string or character field taking one argument. */
  lemma FieldFirst(mods: string, conv: char, rest: string, a: Arg, args: seq<Arg>)
    requires ModifierText(mods) && TakesArgument(conv)
    ensures Printed(None, "%" + mods + [conv] + rest, [a] + args) ==
            Field(mods, conv, [a]) + Printed(None, rest, args)
  {
    hide *;
    SameField(mods, conv, a, args);
    Takes(conv, a, args);
    FieldStarts(mods, conv, rest, [a] + args);
  }

  /** Other fields take none. */
  lemma OtherFirst(mods: string, conv: char, rest: string, args: seq<Arg>)
    requires ModifierText(mods) && !TakesArgument(conv) && conv !in "#-l0123456789"
    ensures Printed(None, "%" + mods + [conv] + rest, args) == Field(mods, conv, []) + Printed(None, rest, args)
  {
    hide *;
    SameField(mods, conv, Word(0), args);
    NotModifier(conv);
    Takes(conv, Word(0), args);
    FieldStarts(mods, conv, rest, args);
  }

  lemma NotModifier(c: char)
    requires c !in "#-l0123456789"
    ensures !IsModifier(c)
  {
    var m := "#-l0123456789";
    assert m[0] == '#' && m[1] == '-' && m[2] == 'l' && m[3] == '0' && m[4] == '1' && m[5] == '2' && m[6] == '3';
    assert m[7] == '4' && m[8] == '5' && m[9] == '6' && m[10] == '7' && m[11] == '8' && m[12] == '9';
  }

  /** Text between fields prints itself. */
  lemma {:induction false} PlainFirst(text: string, rest: string, args: seq<Arg>)
    requires '%' !in text
    ensures Printed(None, text + rest, args) == text + Printed(None, rest, args)
  {
    if text == "" {
      assert text + rest == rest && text + Printed(None, rest, args) == Printed(None, rest, args);
    } else {
      assert (text + rest)[1..] == text[1..] + rest;
      PlainFirst(text[1..], rest, args);
      assert text[0] in text && text == [text[0]] + text[1..];
      hide Printed;
      assert [text[0]] + (text[1..] + Printed(None, rest, args)) == text + Printed(None, rest, args);
    }
  }

  // ---------------------------------------------------------------------------
  // Through a buffer
  // ---------------------------------------------------------------------------

  lemma SpreadNoNul(left: bool, zero: bool, p: nat, neg: bool, hex: bool, oct: nat, ds: string, base: nat)
    requires DigitsIn(ds, base)
    ensures P.NUL !in Spread(left, zero, p, neg, hex, oct, ds)
  {
    assert forall i :: 0 <= i < |ds| ==> IsDigitIn(ds[i], base) && ds[i] != P.NUL;
  }

  lemma NumberNoNul(mods: string, conv: char, w: int, base: nat)
    requires PrintsIn(conv, base)
    ensures P.NUL !in Field(mods, conv, [Word(w)])
  {
    hide Spread, Numeral, Value, Field, Width, Zero, HexMark, OctMark, Natural, DigitOf;
    var v := Value(mods, conv, [Word(w)]);
    FieldShape(mods, conv, w, base);
    NumeralReads(Abs(v), base);
    SpreadNoNul('-' in mods, Zero(mods), Pad(Width(mods), Natural(mods, conv, v, base)), v < 0,
                HexMark(mods, conv), OctMark(mods, conv), Numeral(Abs(v), base), base);
  }

  /** snprintf of one numeric field into a buffer it fits, and reading the buffer. */
  method PrintAndScan(buf: array<char>, len: nat, mods: string, conv: char, w: int, base: nat) returns (r: int)
    requires PrintsIn(conv, base) && ModifierText(mods)
    requires |Field(mods, conv, [Word(w)])| < len <= buf.Length
    modifies buf
    ensures var v := Value(mods, conv, [Word(w)]);
            && StandsFor(v, w, mods, conv)
            && (StandsFor(r, w, mods, conv) <==>
                !('-' in mods && Zero(mods) && Width(mods) > Natural(mods, conv, v, base) && v != 0))
  {
    hide Printed, Field, ReadIn, A.CString, StandsFor, Natural, Zero, Width, Value;
    ghost var text := Field(mods, conv, [Word(w)]);
    var format := "%" + mods + [conv];
    FieldFirst(mods, conv, "", Word(w), []);
    P.PrintedEnd(None, []);
    assert format + "" == format && [Word(w)] + [] == [Word(w)] && text + "" == text;
    var _ := P.Vsnprintf(buf, len, format, [Word(w)]);
    NumberNoNul(mods, conv, w, base);
    assert text[..|text|] == text;
    A.CStringOf(text, old(buf[..])[|text| + 1..]);
    r := ReadIn(A.CString(buf[..]), base);
    FieldReads(mods, conv, w, base);
  }
}
