/** Printing, then parsing. */
module RoundTrip {
  import opened Digits
  import opened Printer
  import opened Parser

  /** All number formats are blanks, prefix, zeros, digits, blanks. */
  lemma FormattedShape(vars: Vars, prefix: string, value: string) returns (a: nat, b: nat, c: nat)
    ensures Formatted(vars, prefix, value) == Fill(' ', a) + (prefix + (Fill('0', b) + value + Fill(' ', c)))
  {
    var zeros := if vars.precision > |value| + |prefix| then vars.precision - (|value| + |prefix|) else 0;
    var length := |value| + |prefix| + zeros;
    var padding := if vars.width > length then vars.width - length else 0;
    assert Fill(' ', 0) == "";
    if vars.flags.leftJustify {
      a, b, c := 0, zeros, padding;
    } else if vars.flags.padZero {
      a, b, c := 0, padding + zeros, 0;
    } else {
      a, b, c := padding, zeros, 0;
    }
    hide Fill;
    Regroup(Fill(' ', a), prefix, Fill('0', b), value, Fill(' ', c));
  }

  lemma Regroup(blanks: string, prefix: string, zeros: string, value: string, blanksAfter: string)
    ensures blanks + (prefix + (zeros + value + blanksAfter)) == blanks + prefix + zeros + value + blanksAfter
    ensures "" + prefix + zeros + value == prefix + zeros + value
    ensures blanks + prefix + zeros + value + "" == blanks + prefix + zeros + value
  {
    assert "" + prefix == prefix;
  }

  lemma {:induction false} SkipFill(n: nat, s: string)
    ensures SkipSpaces(Fill(' ', n) + s) == SkipSpaces(s)
  {
    if n == 0 {
      assert Fill(' ', 0) + s == s;
    } else {
      assert (Fill(' ', n) + s)[1..] == Fill(' ', n - 1) + s;
      SkipFill(n - 1, s);
    }
  }

  /** Zeros and the numeral of a number, then blanks, read as the number. */
  lemma DigitsReadBack(base: nat, v: nat, upper: bool, b: nat, c: nat)
    requires IsBase(base)
    ensures var s := Fill('0', b) + Numeral(v, base, upper) + Fill(' ', c);
            Value(base, LeadingDigits(base, s)) == v
  {
    NumeralValue(v, base, upper);
    LeadingZeros(base, b, Numeral(v, base, upper));
    hide Numeral, Value, LeadingDigits;
    LeadingDigitsOf(base, Fill('0', b) + Numeral(v, base, upper), Fill(' ', c));
  }

  /** Digits do not begin with a blank or a sign. */
  lemma DigitsFirst(base: nat, v: nat, upper: bool, b: nat, c: nat)
    requires IsBase(base)
    ensures var s := Fill('0', b) + Numeral(v, base, upper) + Fill(' ', c);
            s != [] && IsDigit(base, s[0]) && SkipSpaces(s) == s
  {
    NumeralValue(v, base, upper);
    assert IsDigit(base, Numeral(v, base, upper)[0]);
    hide Numeral, Value;
  }

  /** strtol_deci undoes decimal output: for every width, precision and set of flags it finds the
      number that was printed, or the largest long if that is smaller. */
  lemma DecimalRoundTrip(vars: Vars, value: int)
    requires VarsOk(vars) && IsInt64(value)
    ensures LongValue(DecimalText(vars, value)) ==
              if !vars.flags.uint32 && value < 0 then value else AtMost(Masked(value, vars.mask), LONG_MAX)
  {
    hide Formatted, Numeral, LeadingDigits, Value, SkipSpaces, Masked;
    var v, prefix := Magnitude(vars, value), Sign(vars.flags, value);
    var a, b, c := FormattedShape(vars, prefix, Numeral(v, 10, false));
    var digits := Fill('0', b) + Numeral(v, 10, false) + Fill(' ', c);
    DigitsReadBack(10, v, false, b, c);
    DigitsFirst(10, v, false, b, c);
    SkipFill(a, prefix + digits);
    SignSkipped(prefix, digits);
  }

  lemma SignSkipped(prefix: string, digits: string)
    requires prefix == "" || prefix == " " || prefix == "+" || prefix == "-"
    requires digits != [] && IsDigit(10, digits[0]) && SkipSpaces(digits) == digits
    ensures var t := SkipSpaces(prefix + digits);
            Unsigned(t) == digits && (Negative(t) <==> prefix == "-")
  {
    if prefix == "" {
      assert prefix + digits == digits;
    } else {
      assert (prefix + digits)[1..] == digits;
    }
  }

  /** A 64-bit signed number printed without a length mask comes back unchanged. */
  lemma LongRoundTrip(vars: Vars, value: int)
    requires VarsOk(vars) && IsInt64(value) && vars.mask == ULONG_MAX && !vars.flags.uint32
    ensures LongValue(DecimalText(vars, value)) == value
  {
    DecimalRoundTrip(vars, value);
    hide DecimalText, LongValue, Masked;
    if value >= 0 {
      MaskedFits(value);
    }
  }

  lemma MaskedFits(v: nat)
    requires v <= ULONG_MAX
    ensures Masked(v, ULONG_MAX) == v
  {
  }

  /** strtoul_hex undoes hexadecimal output. */
  lemma HexRoundTrip(vars: Vars, v: nat)
    requires VarsOk(vars) && v < UINT64
    ensures HexValue(Pow2Text(vars, v, 4)) == Masked(v, vars.mask)
  {
    var masked, upper := Masked(v, vars.mask), vars.flags.upper;
    var prefix := Pow2Prefix(vars.flags, masked, 4);
    hide Formatted, LeadingDigits, Value, SkipSpaces, Numeral, Masked;
    var a, b, c := FormattedShape(vars, prefix, Numeral(masked, 16, upper));
    var digits := Fill('0', b) + Numeral(masked, 16, upper) + Fill(' ', c);
    DigitsReadBack(16, masked, upper, b, c);
    DigitsFirst(16, masked, upper, b, c);
    SkipFill(a, prefix + digits);
    PrefixSkipped(prefix, digits, upper);
    NoPrefixInDigits(masked, upper, b, c);
  }

  lemma PrefixSkipped(prefix: string, digits: string, upper: bool)
    requires prefix == "" || prefix == ['0', Table(upper)[16]]
    requires digits != [] && SkipSpaces(digits) == digits
    ensures SkipSpaces(prefix + digits) == prefix + digits
    ensures prefix != "" ==> WithoutPrefix(prefix + digits) == digits
    ensures prefix == "" ==> prefix + digits == digits
  {
    if prefix == "" {
      assert prefix + digits == digits;
    } else {
      assert (prefix + digits)[2..] == digits;
    }
  }

  /** The second character of a numeral is a digit or a blank, not an x. */
  lemma NoPrefixInDigits(v: nat, upper: bool, b: nat, c: nat)
    ensures var s := Fill('0', b) + Numeral(v, 16, upper) + Fill(' ', c); WithoutPrefix(s) == s
  {
    NumeralValue(v, 16, upper);
    var n := Numeral(v, 16, upper);
    hide Numeral, Value;
    var s := Fill('0', b) + n + Fill(' ', c);
    if |s| >= 2 {
      assert s[1] == '0' || s[1] == ' ' || s[1] == n[if b == 0 then 1 else 0];
    }
  }

  predicate Blanks(s: string) {
    forall i :: 0 <= i < |s| ==> s[i] == ' ' || s[i] == '\t'
  }

  lemma {:induction false} SkipBlanks(blanks: string, s: string)
    requires Blanks(blanks)
    ensures SkipSpaces(blanks + s) == SkipSpaces(s)
  {
    if blanks == "" {
      assert "" + s == s;
    } else {
      assert (blanks + s)[1..] == blanks[1..] + s;
      SkipBlanks(blanks[1..], s);
    }
  }

  /** strtol_deci saturates exactly: behind blanks and a sign, digits are read up to the first other
      character, as their value unless that is out of range. */
  lemma LongSaturates(blanks: string, s: string, rest: string)
    requires Blanks(blanks) && s != [] && AllDigits(10, s) && (rest == [] || !IsDigit(10, rest[0]))
    ensures LongValue(blanks + (s + rest)) == AtMost(Value(10, s), LONG_MAX)
    ensures LongValue(blanks + ("+" + (s + rest))) == AtMost(Value(10, s), LONG_MAX)
    ensures LongValue(blanks + ("-" + (s + rest))) == -1 * AtMost(Value(10, s), LONG_MIN)
  {
    var digits := s + rest;
    assert digits[0] == s[0] && IsDigit(10, s[0]) && SkipSpaces(digits) == digits;
    LeadingDigitsOf(10, s, rest);
    hide Value, LeadingDigits, SkipSpaces;
    SkipBlanks(blanks, digits);
    SkipBlanks(blanks, "+" + digits);
    SkipBlanks(blanks, "-" + digits);
    SignSkipped("", digits);
    SignSkipped("+", digits);
    SignSkipped("-", digits);
    assert "" + digits == digits;
  }

  /** So does strtoul_hex, behind blanks and a prefix. */
  lemma HexSaturates(blanks: string, s: string, rest: string)
    requires Blanks(blanks) && s != [] && AllDigits(16, s) && (rest == [] || !IsDigit(16, rest[0]))
    ensures HexValue(blanks + ("0x" + (s + rest))) == AtMost(Value(16, s), ULONG_MAX)
    ensures HexValue(blanks + ("0X" + (s + rest))) == AtMost(Value(16, s), ULONG_MAX)
    ensures !(s == "0" && rest != [] && (rest[0] == 'x' || rest[0] == 'X')) ==>
              HexValue(blanks + (s + rest)) == AtMost(Value(16, s), ULONG_MAX)
  {
    var digits := s + rest;
    DigitsOnly(s, rest);
    LeadingDigitsOf(16, s, rest);
    assert SkipSpaces("0x" + digits) == "0x" + digits && SkipSpaces("0X" + digits) == "0X" + digits;
    assert ("0x" + digits)[2..] == digits && ("0X" + digits)[2..] == digits;
    hide Value, LeadingDigits, SkipSpaces, IsDigit, AllDigits;
    SkipBlanks(blanks, digits);
    SkipBlanks(blanks, "0x" + digits);
    SkipBlanks(blanks, "0X" + digits);
  }

  lemma DigitsOnly(s: string, rest: string)
    requires s != [] && AllDigits(16, s)
    ensures SkipSpaces(s + rest) == s + rest
    ensures !(s == "0" && rest != [] && (rest[0] == 'x' || rest[0] == 'X')) ==> WithoutPrefix(s + rest) == s + rest
  {
    assert IsDigit(16, s[0]) && (s + rest)[0] == s[0];
    if |s| >= 2 {
      assert IsDigit(16, s[1]) && (s + rest)[1] == s[1];
    } else if rest != [] {
      assert (s + rest)[1] == rest[0];
    }
  }
}
