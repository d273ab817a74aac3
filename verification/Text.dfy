/** What printed text means: numerals, the fields of a format string, and the text of each field,
    independently of how the printf engine goes about producing it. */
module Text {
  import opened Basics

  // ---------------------------------------------------------------------------
  // Numerals
  // ---------------------------------------------------------------------------

  function DigitChar(d: nat): char
    requires d < 16
  {
    "0123456789abcdef"[d]
  }

  function DigitValue(c: char): nat { if '0' <= c <= '9' then c as nat - '0' as nat else 0 }

  /** The shortest numeral for n. */
  function Numeral(n: nat, base: nat): (s: string)
    requires 2 <= base <= 16
    ensures s != ""
    decreases n
  {
    if n < base then [DigitChar(n)] else Numeral(n / base, base) + [DigitChar(n % base)]
  }

  /** The number a string of decimal digits stands for. */
  function Decimal(s: string): nat
  {
    if s == "" then 0 else Decimal(s[..|s| - 1]) * 10 + DigitValue(s[|s| - 1])
  }

  predicate AllDigits(s: string) { forall i :: 0 <= i < |s| ==> '0' <= s[i] <= '9' }

  lemma DecimalSnoc(s: string, c: char)
    ensures Decimal(s + [c]) == Decimal(s) * 10 + DigitValue(c)
  {
    assert (s + [c])[..|s|] == s;
  }

  lemma DecimalDigit(d: nat)
    requires d < 10
    ensures '0' <= DigitChar(d) <= '9' && DigitValue(DigitChar(d)) == d
  {
  }

  lemma NumeralStep(n: nat, base: nat)
    requires 2 <= base <= 16
    ensures n < base ==> Numeral(n, base) == [DigitChar(n)]
    ensures n >= base ==> Numeral(n, base) == Numeral(n / base, base) + [DigitChar(n % base)]
  {
  }

  lemma {:induction false} NumeralDecimal(n: nat)
    ensures Decimal(Numeral(n, 10)) == n && AllDigits(Numeral(n, 10))
  {
    hide DigitChar, DigitValue, Numeral;
    NumeralStep(n, 10);
    DecimalDigit(n % 10);
    if n >= 10 {
      NumeralDecimal(n / 10);
      hide Decimal;
      DecimalSnoc(Numeral(n / 10, 10), DigitChar(n % 10));
    } else {
      assert [DigitChar(n)][..0] == "";
    }
  }

  function Power(b: nat, k: nat): nat { if k == 0 then 1 else b * Power(b, k - 1) }

  lemma PowerStep(b: nat, k: nat)
    ensures Power(b, 0) == 1 && Power(b, k + 1) == b * Power(b, k)
  {
  }

  /** A number below b^k has at most k digits in base b or any larger one. */
  lemma {:induction false} NumeralLength(n: nat, base: nat, b: nat, k: nat)
    requires 2 <= b <= base <= 16 && 0 < k && n < Power(b, k)
    ensures |Numeral(n, base)| <= k
    decreases k
  {
    hide Power, DigitChar, Numeral;
    PowerStep(b, k - 1);
    NumeralStep(n, base);
    if k > 1 && n >= base {
      DivBelow(n, base, b, Power(b, k - 1));
      NumeralLength(n / base, base, b, k - 1);
    } else if k == 1 {
      PowerStep(b, 0);
    }
  }

  lemma DivBelow(n: nat, base: nat, b: nat, p: nat)
    requires 0 < b <= base && n < b * p
    ensures n / base < p
  {
    assert b * p <= base * p by {
      assert base * p - b * p == (base - b) * p;
    }
    DivBelowSame(n, base, p);
  }

  lemma DivBelowSame(n: nat, b: nat, p: nat)
    requires b > 0 && n < b * p
    ensures n / b < p
  {
  }

  // ---------------------------------------------------------------------------
  // Fields
  // ---------------------------------------------------------------------------

  /** One argument: a machine word, or a string that may be NULL. */
  datatype Arg = Word(w: int) | Str(s: Option<string>)

  function Digs(mods: string): string
  {
    if mods == "" then ""
    else
      var c := mods[|mods| - 1];
      Digs(mods[..|mods| - 1]) + if '0' <= c <= '9' then [c] else ""
  }

  /** What an int holds after an operation with this result. */
  function Int(n: int): int { Signed(n, 32) }

  /** One more modifier, for the width so far: it is kept in an int, and a 0 counts as a digit only
      once the width is positive. */
  function NextWidth(w: int, c: char): int
  {
    if c == '0' then (if w > 0 then Int(w * 10) else w)
    else if '0' < c <= '9' then Int(w * 10 + DigitValue(c))
    else w
  }

  /** The field width the digits after the % ask for (WidthExact). */
  function Width(mods: string): int
  {
    if mods == "" then 0 else NextWidth(Width(mods[..|mods| - 1]), mods[|mods| - 1])
  }

  /** Padding with zeros. */
  predicate Zero(mods: string)
  {
    mods != "" && (Zero(mods[..|mods| - 1]) || (mods[|mods| - 1] == '0' && Width(mods[..|mods| - 1]) <= 0))
  }

  predicate LeftAligned(mods: string) { '-' in mods }

  predicate Alternate(mods: string) { '#' in mods }

  function Ells(mods: string): nat
  {
    if mods == "" then 0 else Ells(mods[..|mods| - 1]) + if mods[|mods| - 1] == 'l' then 1 else 0
  }

  /** Two l's ask for 64 bits; int and long have 32. */
  function Bits(mods: string): nat { if Ells(mods) > 0 && Ells(mods) % 2 == 0 then 64 else 32 }

  function Range(bits: nat): nat { if bits == 64 then 0x1_0000_0000_0000_0000 else 0x1_0000_0000 }

  function Unsigned(w: int, bits: nat): nat { w % Range(bits) }

  function Signed(w: int, bits: nat): int
  {
    var u := Unsigned(w, bits);
    if u < Range(bits) / 2 then u else u - Range(bits)
  }

  function WordAt(args: seq<Arg>): int { if args != [] && args[0].Word? then args[0].w else 0 }

  function StringAt(args: seq<Arg>): string
  {
    if args != [] && args[0].Str? && args[0].s.Some? then args[0].s.value else "(null)"
  }

  predicate IsNumeric(conv: char) { conv == 'd' || conv == 'o' || conv == 'u' || conv == 'p' || conv == 'x' }

  function Base(conv: char): (b: nat)
    ensures b == 8 || b == 10 || b == 16
  {
    if conv == 'o' then 8 else if conv == 'x' || conv == 'p' then 16 else 10
  }

  /** The number to print: its sign and its magnitude. */
  function Value(mods: string, conv: char, args: seq<Arg>): int
  {
    if conv == 'd' then Signed(WordAt(args), Bits(mods))
    else if conv == 'p' then Unsigned(WordAt(args), 32)
    else Unsigned(WordAt(args), Bits(mods))
  }

  function Abs(x: int): nat { if x < 0 then -x else x }

  /** What goes before the digits: the sign, then the base prefix. */
  function Prefix(mods: string, conv: char, args: seq<Arg>): string
  {
    if !IsNumeric(conv) then ""
    else
      (if Value(mods, conv, args) < 0 then "-" else "") +
      (if conv == 'p' || (conv == 'x' && Alternate(mods)) then "0x"
       else if conv == 'o' && Alternate(mods) then "0"
       else "")
  }

  function Stuff(mods: string, conv: char, args: seq<Arg>): string
  {
    if IsNumeric(conv) then Numeral(Abs(Value(mods, conv, args)), Base(conv))
    else if conv == 's' then StringAt(args)
    else if conv == 'c' then
      (if WordAt(args) % 256 == 0 then "" else [(WordAt(args) % 256) as char])
    else [conv]
  }

  function Fill(c: char, n: nat): (s: string)
    ensures |s| == n && forall i :: 0 <= i < n ==> s[i] == c
  {
    seq(n, _ => c)
  }

  function Pad(width: int, len: nat): nat { if width > len then width - len else 0 }

  /** A field: padded on the right, or with zeros after the prefix, or with blanks before it. */
  function Padded(mods: string, prefix: string, stuff: string): (s: string)
    ensures |s| == if Width(mods) > |prefix| + |stuff| then Width(mods) else |prefix| + |stuff|
  {
    var fill := Fill(if Zero(mods) then '0' else ' ', Pad(Width(mods), |prefix| + |stuff|));
    if LeftAligned(mods) then prefix + stuff + fill
    else if Zero(mods) then prefix + fill + stuff
    else fill + prefix + stuff
  }

  function Field(mods: string, conv: char, args: seq<Arg>): string
  {
    Padded(mods, Prefix(mods, conv, args), Stuff(mods, conv, args))
  }

  predicate IsModifier(c: char) { c == '#' || c == '-' || c == 'l' || '0' <= c <= '9' }

  /** The arguments left after a conversion. */
  function After(conv: char, args: seq<Arg>): seq<Arg>
  {
    if args != [] && (IsNumeric(conv) || conv == 's' || conv == 'c') then args[1..] else args
  }

  /** What the rest of a format prints: outside a field, or inside one after these modifiers. A
      format that ends inside a field prints nothing for it. */
  function Printed(field: Option<string>, format: string, args: seq<Arg>): string
    decreases |format|
  {
    if format == "" then ""
    else if field.None? then
      if format[0] == '%' then Printed(Some(""), format[1..], args) else [format[0]] + Printed(None, format[1..], args)
    else if IsModifier(format[0]) then Printed(Some(field.value + [format[0]]), format[1..], args)
    else Field(field.value, format[0], args) + Printed(None, format[1..], After(format[0], args))
  }

  // ---------------------------------------------------------------------------
  // Reading modifiers one at a time
  // ---------------------------------------------------------------------------

  lemma Snoc(mods: string, c: char)
    ensures Digs(mods + [c]) == Digs(mods) + (if '0' <= c <= '9' then [c] else "")
    ensures Ells(mods + [c]) == Ells(mods) + (if c == 'l' then 1 else 0)
    ensures LeftAligned(mods + [c]) == (LeftAligned(mods) || c == '-')
    ensures Alternate(mods + [c]) == (Alternate(mods) || c == '#')
  {
    assert (mods + [c])[..|mods|] == mods;
  }

  /** A numeral that does not start with 0 is not 0. */
  lemma {:induction false} NotZero(s: string)
    requires AllDigits(s) && s != "" && s[0] != '0'
    ensures Decimal(s) > 0
  {
    var n := |s| - 1;
    if n > 0 {
      NotZero(s[..n]);
    } else {
      assert s[..n] == "";
    }
  }

  lemma {:induction false} DigsAreDigits(mods: string)
    ensures AllDigits(Digs(mods))
  {
    if mods != "" {
      DigsAreDigits(mods[..|mods| - 1]);
    }
  }

  lemma WidthStep(mods: string, c: char)
    ensures Width(mods + [c]) == NextWidth(Width(mods), c)
    ensures Zero(mods + [c]) <==> Zero(mods) || (c == '0' && Width(mods) <= 0)
  {
    assert (mods + [c])[..|mods|] == mods;
  }

  lemma IntSmall(n: int)
    ensures -INT_MAX - 1 <= Int(n) <= INT_MAX && (-INT_MAX - 1 <= n <= INT_MAX ==> Int(n) == n)
  {
  }

  lemma NextWidthFits(w: nat, c: char)
    requires '0' <= c <= '9' && w * 10 + DigitValue(c) <= INT_MAX
    ensures NextWidth(w, c) == w * 10 + DigitValue(c)
  {
    hide Int;
    IntSmall(w * 10 + DigitValue(c));
  }

  /** A leading 0 asks for zeros, and only that does. */
  predicate LeadingZero(digits: string) { digits != "" && digits[0] == '0' }

  lemma EmptyWidth()
    ensures Width("") == 0 && !Zero("") && Digs("") == "" && Decimal("") == 0 && !LeadingZero("")
  {
  }

  lemma DigitFits(mods: string, c: char)
    requires '0' <= c <= '9' && Decimal(Digs(mods + [c])) <= INT_MAX
    requires Width(mods) == Decimal(Digs(mods)) && (Zero(mods) <==> LeadingZero(Digs(mods)))
    ensures Width(mods + [c]) == Decimal(Digs(mods + [c])) && (Zero(mods + [c]) <==> LeadingZero(Digs(mods + [c])))
  {
    hide Digs, Decimal, Width, Zero, NextWidth, Ells, LeftAligned, Alternate;
    Snoc(mods, c);
    WidthStep(mods, c);
    DecimalSnoc(Digs(mods), c);
    NextWidthFits(Width(mods), c);
    DigsAreDigits(mods);
    EmptyWidth();
    if Digs(mods) != "" && Digs(mods)[0] != '0' {
      NotZero(Digs(mods));
    }
  }

  lemma ShorterFits(mods: string, c: char)
    requires Decimal(Digs(mods + [c])) <= INT_MAX
    ensures Decimal(Digs(mods)) <= INT_MAX
  {
    hide Digs, Decimal, Ells, LeftAligned, Alternate;
    Snoc(mods, c);
    if '0' <= c <= '9' {
      DecimalSnoc(Digs(mods), c);
    } else {
      assert Digs(mods) + "" == Digs(mods);
    }
  }

  /** As long as the digits spell an int, they are the width, and zeros are asked for by a leading 0. */
  lemma {:induction false} WidthFits(mods: string)
    requires Decimal(Digs(mods)) <= INT_MAX
    ensures Width(mods) == Decimal(Digs(mods)) && (Zero(mods) <==> LeadingZero(Digs(mods)))
  {
    hide *;
    EmptyWidth();
    if mods != "" {
      var init, c := mods[..|mods| - 1], mods[|mods| - 1];
      assert mods == init + [c];
      ShorterFits(init, c);
      WidthFits(init);
      if '0' <= c <= '9' {
        DigitFits(init, c);
      } else {
        Snoc(init, c);
        WidthStep(init, c);
        assert Digs(init) + "" == Digs(init);
        OtherWidth(Width(init), c);
        OtherZero(init, c);
      }
    }
  }

  lemma OtherZero(mods: string, c: char)
    requires !('0' <= c <= '9')
    ensures Zero(mods + [c]) <==> Zero(mods)
  {
    hide Zero;
    WidthStep(mods, c);
  }

  lemma OtherWidth(w: int, c: char)
    requires !('0' <= c <= '9')
    ensures NextWidth(w, c) == w
  {
  }

  lemma {:induction false} WidthIsInt(mods: string)
    ensures -INT_MAX - 1 <= Width(mods) <= INT_MAX
  {
    hide Int, DigitValue;
    if mods != "" {
      var w := Width(mods[..|mods| - 1]);
      WidthIsInt(mods[..|mods| - 1]);
      IntSmall(w * 10);
      IntSmall(w * 10 + DigitValue(mods[|mods| - 1]));
    }
  }

  /** The field is as wide as its digits say exactly if they spell an int. */
  lemma WidthExact(mods: string)
    ensures Width(mods) == Decimal(Digs(mods)) <==> Decimal(Digs(mods)) <= INT_MAX
  {
    hide Width, Zero, Digs, Decimal;
    WidthIsInt(mods);
    if Decimal(Digs(mods)) <= INT_MAX {
      WidthFits(mods);
    }
  }

  lemma Spelled(mods: string, c: char, n: nat)
    requires Decimal(Digs(mods)) == n && '0' <= c <= '9'
    ensures Decimal(Digs(mods + [c])) == n * 10 + DigitValue(c)
  {
    hide Digs, Decimal, Ells;
    Snoc(mods, c);
    DecimalSnoc(Digs(mods), c);
  }

  lemma ThreeSpelled(mods: string, a: char, b: char, c: char, n: nat)
    requires Decimal(Digs(mods)) == n && '0' <= a <= '9' && '0' <= b <= '9' && '0' <= c <= '9'
    ensures Decimal(Digs(mods + [a, b, c])) == n * 1000 + DigitValue(a) * 100 + DigitValue(b) * 10 + DigitValue(c)
  {
    hide Digs, Decimal, DigitValue;
    Spelled(mods, a, n);
    Spelled(mods + [a], b, n * 10 + DigitValue(a));
    Spelled(mods + [a] + [b], c, (n * 10 + DigitValue(a)) * 10 + DigitValue(b));
    assert mods + [a] + [b] + [c] == mods + [a, b, c];
  }

  lemma NineSpelled()
    ensures Decimal(Digs("429496729")) == 429496729
  {
    EmptyWidth();
    hide Digs, Decimal;
    ThreeSpelled("", '4', '2', '9', 0);
    assert "" + ['4', '2', '9'] == "429";
    ThreeSpelled("429", '4', '9', '6', 429);
    assert "429" + ['4', '9', '6'] == "429496";
    ThreeSpelled("429496", '7', '2', '9', 429496);
    assert "429496" + ['7', '2', '9'] == "429496729";
  }

  /** 4294967296 is one that they do not: the field gets no padding at all. */
  lemma WidthLost()
    ensures Decimal(Digs("4294967296")) == 0x1_0000_0000 && Width("4294967296") == 0
  {
    hide Digs, Decimal, Width, Zero;
    NineSpelled();
    WidthFits("429496729");
    Spelled("429496729", '6', 429496729);
    WidthStep("429496729", '6');
    assert "429496729" + ['6'] == "4294967296";
  }

  // ---------------------------------------------------------------------------
  // Sizes
  // ---------------------------------------------------------------------------

  lemma PowerOfEight()
    ensures Power(8, 21) == 0x8000_0000_0000_0000 && Power(8, 22) == 0x4_0000_0000_0000_0000
  {
    assert Power(8, 2) == 64;
    assert Power(8, 4) == 64 * 64;
    assert Power(8, 6) == 0x4_0000;
    assert Power(8, 8) == 0x100_0000;
    assert Power(8, 10) == 0x4000_0000;
    assert Power(8, 12) == 0x10_0000_0000;
    assert Power(8, 14) == 0x400_0000_0000;
    assert Power(8, 16) == 0x1_0000_0000_0000;
    assert Power(8, 18) == 0x40_0000_0000_0000;
    assert Power(8, 20) == 0x1000_0000_0000_0000;
    assert Power(8, 21) == 8 * Power(8, 20);
    assert Power(8, 22) == 8 * Power(8, 21);
  }

  /** The number buffer of __printf.c: 22 digits and a terminator always suffice, and the largest
      64-bit number needs them all in octal. */
  lemma NumbersFit(n: nat, base: nat)
    requires n < Range(64) && 8 <= base <= 16
    ensures |Numeral(n, base)| + 1 <= 64 / 3 + 2 && |Numeral(Range(64) - 1, 8)| + 1 == 64 / 3 + 2
  {
    hide Power, Numeral;
    PowerOfEight();
    NumeralLength(n, base, 8, 22);
    NumeralLength(Range(64) - 1, 8, 8, 22);
    LongNumeral(Range(64) - 1, 8, 21);
  }

  /** A number of at least b^k has more than k digits. */
  lemma {:induction false} LongNumeral(n: nat, b: nat, k: nat)
    requires 2 <= b <= 16 && n >= Power(b, k)
    ensures |Numeral(n, b)| > k
    decreases k
  {
    hide Power, DigitChar, Numeral;
    NumeralStep(n, b);
    if k > 0 {
      PowerStep(b, k - 1);
      PowerPositive(b, k - 1);
      DivAbove(n, b, Power(b, k - 1));
      LongNumeral(n / b, b, k - 1);
    }
  }

  lemma {:induction false} PowerPositive(b: nat, k: nat)
    requires b > 0
    ensures Power(b, k) >= 1
  {
    if k > 0 {
      PowerPositive(b, k - 1);
    }
  }

  lemma DivAbove(n: nat, b: nat, p: nat)
    requires b > 0 && n >= b * p && p >= 1
    ensures n / b >= p && n >= b
  {
    var q, r := n / b, n % b;
    assert n == b * q + r;
    hide *;
    Times(b, 1, p);
    if q < p {
      Times(b, q + 1, p);
    }
  }

  lemma Times(b: nat, x: nat, y: nat)
    requires x <= y
    ensures b * x <= b * y
  {
    assert b * y - b * x == b * (y - x);
  }

  // ---------------------------------------------------------------------------
  // A format that is one field
  // ---------------------------------------------------------------------------

  lemma {:induction false} RestOfField(read: string, mods: string, conv: char, args: seq<Arg>)
    requires !IsModifier(conv) && forall i :: 0 <= i < |mods| ==> IsModifier(mods[i])
    ensures Printed(Some(read), mods + [conv], args) == Field(read + mods, conv, args)
    decreases |mods|
  {
    var format := mods + [conv];
    hide Field;
    if mods == "" {
      assert format[1..] == "" && read + mods == read;
    } else {
      assert format[1..] == mods[1..] + [conv];
      RestOfField(read + [mods[0]], mods[1..], conv, args);
      assert read + [mods[0]] + mods[1..] == read + mods;
    }
  }

  /** %, modifiers and a conversion print that field. */
  lemma OneField(mods: string, conv: char, args: seq<Arg>)
    requires !IsModifier(conv) && forall i :: 0 <= i < |mods| ==> IsModifier(mods[i])
    ensures Printed(None, "%" + mods + [conv], args) == Field(mods, conv, args)
  {
    hide Field;
    RestOfField("", mods, conv, args);
    assert ("%" + mods + [conv])[1..] == mods + [conv] && "" + mods == mods;
  }

  /** Its length: the width, or the natural length when that is larger. */
  lemma FieldLength(mods: string, conv: char, args: seq<Arg>)
    ensures var natural := |Prefix(mods, conv, args)| + |Stuff(mods, conv, args)|;
            |Field(mods, conv, args)| == if Width(mods) > natural then Width(mods) else natural
  {
    hide Width, Zero, LeftAligned, Prefix, Stuff;
  }
}
