/** The number printer (printf.c): digits are written backwards into a small buffer, then emitted with
    padding, sign and prefix. */
module Printer {
  import opened Digits

  datatype Flags = Flags(upper: bool, alternateForm: bool, padZero: bool, leftJustify: bool, sign: bool, space: bool, uint32: bool)

  /** What a conversion prints with: width, precision, and the mask of its length modifier. */
  datatype Vars = Vars(flags: Flags, width: nat, precision: nat, mask: nat)

  predicate VarsOk(vars: Vars) {
    && vars.width < UINT32 && vars.precision < UINT32
    && (vars.mask == 0xFF || vars.mask == 0xFFFF || vars.mask == ULONG_MAX)
  }

  predicate IsInt64(v: int) {
    0 <= v + LONG_MIN && v <= LONG_MAX
  }

  /** v & mask, for masks of low bits. */
  function Masked(v: int, mask: nat): (r: nat)
    ensures r <= mask
  {
    RestBelow(v, mask + 1);
    v % (mask + 1)
  }

  /** A masked number differs from the number by multiples of what is above the mask. */
  lemma MaskedDiffers(v: int, mask: nat) returns (q: int)
    ensures v == q * (mask + 1) + Masked(v, mask)
  {
    q := v / (mask + 1);
  }

  lemma RestBelow(v: int, m: nat)
    requires m > 0
    ensures 0 <= v % m < m
  {
  }

  // ---- What is printed ----

  /** The number behind the sign. */
  function Magnitude(vars: Vars, value: int): nat {
    if !vars.flags.uint32 && value < 0 then -value else Masked(value, vars.mask)
  }

  function Sign(flags: Flags, value: int): string {
    if !flags.uint32 && value < 0 then "-" else if flags.sign then "+" else if flags.space then " " else ""
  }

  /** The precision is the least length of sign and digits together, the width that of everything. */
  function Formatted(vars: Vars, prefix: string, value: string): string {
    var zeros := if vars.precision > |value| + |prefix| then vars.precision - (|value| + |prefix|) else 0;
    var length := |value| + |prefix| + zeros;
    var padding := if vars.width > length then vars.width - length else 0;
    if vars.flags.leftJustify then prefix + Fill('0', zeros) + value + Fill(' ', padding)
    else if vars.flags.padZero then prefix + Fill('0', padding + zeros) + value
    else Fill(' ', padding) + prefix + Fill('0', zeros) + value
  }

  function DecimalText(vars: Vars, value: int): string {
    Formatted(vars, Sign(vars.flags, value), Numeral(Magnitude(vars, value), 10, false))
  }

  /** 1 << shift */
  function Base(shift: nat): (b: nat)
    requires 1 <= shift <= 4
    ensures IsBase(b)
  {
    match shift
    case 1 => 2
    case 2 => 4
    case 3 => 8
    case _ => 16
  }

  /** The prefix of the alternate form is printed for zero, and for zero only; hexadecimal digits have
      a second character of it. */
  function Pow2Prefix(flags: Flags, masked: nat, shift: nat): string {
    if masked != 0 || !flags.alternateForm then "" else if shift == 4 then ['0', Table(flags.upper)[16]] else "0"
  }

  function Pow2Text(vars: Vars, v: nat, shift: nat): string
    requires 1 <= shift <= 4
  {
    var masked := Masked(v, vars.mask);
    Formatted(vars, Pow2Prefix(vars.flags, masked, shift), Numeral(masked, Base(shift), vars.flags.upper))
  }

  /** Output is as long as the longest of width, precision, and prefix and digits. */
  lemma FormattedLength(vars: Vars, prefix: string, value: string)
    ensures var n := |prefix| + |value|;
            var m := if n < vars.precision then vars.precision else n;
            |Formatted(vars, prefix, value)| == if m < vars.width then vars.width else m
  {
  }

  /** Where everything stands: prefix, zeros and digits in this order; blanks behind them when the output
      is left-justified, and otherwise in front; zeros instead of blanks when padding with zeros. */
  lemma FormattedPlaces(vars: Vars, prefix: string, value: string) returns (start: nat, digits: nat)
    ensures var text := Formatted(vars, prefix, value);
            && start + |prefix| <= digits && digits + |value| <= |text|
            && text[start..start + |prefix|] == prefix && text[digits..digits + |value|] == value
            && (forall i :: start + |prefix| <= i < digits ==> text[i] == '0')
            && (forall i :: 0 <= i < start || digits + |value| <= i < |text| ==> text[i] == ' ')
            && (vars.flags.leftJustify ==> start == 0)
            && (!vars.flags.leftJustify ==> digits + |value| == |text| && (vars.flags.padZero ==> start == 0))
            && (vars.flags.leftJustify || !vars.flags.padZero ==>
                  digits - start + |value| ==
                    if vars.precision > |prefix| + |value| then vars.precision else |prefix| + |value|)
  {
    var text := Formatted(vars, prefix, value);
    var zeros := if vars.precision > |value| + |prefix| then vars.precision - (|value| + |prefix|) else 0;
    start := if vars.flags.leftJustify || vars.flags.padZero then 0 else |text| - (|prefix| + zeros + |value|);
    digits := if vars.flags.leftJustify then |prefix| + zeros else |text| - |value|;
  }

  /** The sign of a decimal number, in front of its zeros and digits. */
  lemma SignPlace(vars: Vars, value: int) returns (start: nat)
    ensures var text := DecimalText(vars, value);
            && start < |text|
            && (!vars.flags.uint32 && value < 0 ==> text[start] == '-')
            && (vars.flags.uint32 || value >= 0 ==>
                  && (vars.flags.sign ==> text[start] == '+')
                  && (!vars.flags.sign && vars.flags.space ==> text[start] == ' ')
                  && (!vars.flags.sign && !vars.flags.space ==> IsDigit(10, text[start])))
            && forall i :: 0 <= i < start ==> text[i] == ' '
  {
    var prefix, numeral := Sign(vars.flags, value), Numeral(Magnitude(vars, value), 10, false);
    NumeralValue(Magnitude(vars, value), 10, false);
    assert IsDigit(10, numeral[0]);
    hide Formatted, Numeral, Magnitude, Value;
    var digits;
    start, digits := FormattedPlaces(vars, prefix, numeral);
    var text := DecimalText(vars, value);
    if prefix == "" {
      assert text[digits] == text[digits..digits + |numeral|][0];
    } else {
      assert text[start] == text[start..start + |prefix|][0];
    }
  }

  /** The prefix of the alternate form, which zero has and no other number. */
  lemma PrefixPlace(vars: Vars, v: nat, shift: nat) returns (start: nat)
    requires 1 <= shift <= 4
    ensures var text := Pow2Text(vars, v, shift);
            && start < |text| && (forall i :: 0 <= i < start ==> text[i] == ' ')
            && IsDigit(Base(shift), text[start])
            && (start + 1 < |text| && text[start + 1] == (if vars.flags.upper then 'X' else 'x') <==>
                  Masked(v, vars.mask) == 0 && vars.flags.alternateForm && shift == 4)
  {
    var masked, base, upper := Masked(v, vars.mask), Base(shift), vars.flags.upper;
    var prefix, numeral := Pow2Prefix(vars.flags, masked, shift), Numeral(masked, base, upper);
    NumeralValue(masked, base, upper);
    assert IsDigit(base, '0') && Table(upper)[16] == if upper then 'X' else 'x';
    hide Formatted, Numeral, Value, Masked, IsDigit, AllDigits, Table, Base;
    var digits;
    start, digits := FormattedPlaces(vars, prefix, numeral);
    var text := Pow2Text(vars, v, shift);
    if prefix == "" {
      DigitOrBlank(base, text, digits, numeral, start, start);
    } else {
      assert text[start] == text[start..start + |prefix|][0];
    }
    if |prefix| == 2 {
      assert text[start + 1] == text[start..start + |prefix|][1];
    } else if start + 1 < |text| {
      DigitOrBlank(base, text, digits, numeral, start + |prefix|, start + 1);
    }
  }

  /** Behind a prefix there are zeros, digits and blanks. */
  lemma DigitOrBlank(base: nat, text: string, digits: nat, numeral: string, from: nat, i: nat)
    requires IsBase(base) && AllDigits(base, numeral) && from <= i < |text| && from <= digits && digits + |numeral| <= |text|
    requires text[digits..digits + |numeral|] == numeral
    requires forall j :: from <= j < digits ==> text[j] == '0'
    requires forall j :: digits + |numeral| <= j < |text| ==> text[j] == ' '
    ensures IsDigit(base, text[i]) || (text[i] == ' ' && i >= digits + |numeral|)
    ensures text[i] != 'x' && text[i] != 'X'
  {
    if digits <= i < digits + |numeral| {
      assert text[i] == text[digits..digits + |numeral|][i - digits];
    }
  }

  // ---- The printer ----

  class PrintParam {
    const vars: Vars
    var prefix: string
    var value: string
    /** The destination, with room for everything. */
    var out: string

    constructor (v: Vars)
      ensures vars == v && prefix == "" && out == ""
    {
      vars := v;
      prefix, value, out := "", "", "";
    }

    method EmitCopy(s: string)
      modifies this`out
      ensures out == old(out) + s
    {
      out := out + s;
    }

    method EmitFill(ch: char, n: nat)
      modifies this`out
      ensures out == old(out) + Fill(ch, n)
    {
      out := out + Fill(ch, n);
    }

    method FormatNumber()
      requires VarsOk(vars) && |value| + |prefix| < UINT32
      modifies this`prefix, this`out
      ensures out == old(out) + Formatted(vars, old(prefix), value)
      ensures prefix == if vars.flags.padZero && !vars.flags.leftJustify then "" else old(prefix)
    {
      hide Fill;
      var p, w: nat := 0, 0;
      var width := |value| + |prefix|;
      if vars.precision > width {
        p := vars.precision - width;
      }
      assert width + p < UINT32;
      if vars.width > width + p {
        w := vars.width - (width + p);
      }
      if !vars.flags.leftJustify {
        var pad := ' ';
        if vars.flags.padZero {
          pad := '0';
          EmitCopy(prefix);
          prefix := "";
        }
        EmitFill(pad, w);
      }
      EmitCopy(prefix);
      EmitFill('0', p);
      EmitCopy(value);
      if vars.flags.leftJustify {
        EmitFill(' ', w);
      }
      PiecesTogether(old(out), old(prefix), value, w, p);
    }

    /** The pieces emitted one after another. */
    lemma PiecesTogether(o: string, prefix: string, value: string, w: nat, p: nat)
      ensures o + prefix + Fill('0', p) + value + Fill(' ', w) == o + (prefix + Fill('0', p) + value + Fill(' ', w))
      ensures o + Fill(' ', w) + prefix + Fill('0', p) + value == o + (Fill(' ', w) + prefix + Fill('0', p) + value)
      ensures o + prefix + Fill('0', w) + "" + Fill('0', p) + value == o + (prefix + Fill('0', w + p) + value)
    {
      assert Fill('0', w) + Fill('0', p) == Fill('0', w + p);
    }

    method PrintDecimal(v: int)
      requires VarsOk(vars) && prefix == "" && IsInt64(v)
      modifies this
      ensures out == old(out) + DecimalText(vars, v) && value == ""
    {
      hide Numeral, Formatted, Masked;
      var qword: nat := Masked(v, vars.mask);
      if !vars.flags.uint32 && v < 0 {
        qword := -v;
        prefix := "-";
      }
      if prefix == "" {
        if vars.flags.sign {
          prefix := "+";
        } else if vars.flags.space {
          prefix := " ";
        }
      }
      DecimalFits(qword);
      value := DecimalDigits(qword);
      FormatNumber();
      value := "";
    }

    /** The digit loops of print_decimal: 64-bit divisions until the number fits 32 bits. */
    method DecimalDigits(v: nat) returns (digits: string)
      requires v < UINT64
      ensures digits == Numeral(v, 10, false)
    {
      hide Numeral, Written, Table;
      var digitbuff := new char[20];
      var pos := 20;
      var qword: nat := v;
      DecimalFits(v);
      assert digitbuff[pos..] == "";
      WrittenStart(v, 10, false);
      while qword / UINT32 != 0
        invariant 0 <= pos <= 20 && qword < UINT64 && (qword > 0 || pos == 20)
        invariant Written(v, 10, false, qword, digitbuff[pos..])
      {
        WrittenStep(v, 10, false, qword, digitbuff[pos..]);
        pos := Put(digitbuff, pos, Table(false)[qword % 10]);
        qword := qword / 10;
      }
      var low: nat := qword % UINT32;
      WrittenStep(v, 10, false, low, digitbuff[pos..]);
      pos := Put(digitbuff, pos, Table(false)[low % 10]);
      low := low / 10;
      while low != 0
        invariant 0 <= pos < 20
        invariant Written(v, 10, false, low, digitbuff[pos..])
      {
        WrittenStep(v, 10, false, low, digitbuff[pos..]);
        pos := Put(digitbuff, pos, Table(false)[low % 10]);
        low := low / 10;
      }
      digits := digitbuff[pos..];
      WrittenDone(v, 10, false, digits);
    }

    /** *--pos = ch */
    method Put(digitbuff: array<char>, pos: nat, ch: char) returns (newPos: nat)
      requires 0 < pos <= digitbuff.Length
      modifies digitbuff
      ensures newPos == pos - 1 && digitbuff[newPos..] == [ch] + old(digitbuff[pos..])
    {
      newPos := pos - 1;
      digitbuff[newPos] := ch;
    }

    /** 20 digits are enough for 64 bits. */
    lemma DecimalFits(v: nat)
      requires v < UINT64
      ensures |Numeral(v, 10, false)| <= 20
    {
      Power10();
      NumeralFits(v, 10, false, 20);
    }

    method PrintPow2(vArg: nat, shift: nat)
      requires VarsOk(vars) && vArg < UINT64 && prefix == ""
      requires 1 <= shift <= 4 && Masked(vArg, vars.mask) < Power(Base(shift), 22)
      modifies this
      ensures out == old(out) + Pow2Text(vars, vArg, shift) && value == ""
    {
      hide Numeral, Formatted, Masked, Power;
      var digits := Table(vars.flags.upper);
      var v := Masked(vArg, vars.mask);
      if v == 0 && vars.flags.alternateForm {
        prefix := "0";
        if shift == 4 {
          prefix := ['0', digits[16]];
        }
      }
      NumeralFits(v, Base(shift), vars.flags.upper, 22);
      value := Pow2Digits(v, digits, shift);
      FormatNumber();
      value := "";
    }

    /** The digit loop of print_pow2. */
    method Pow2Digits(vArg: nat, digits: string, shift: nat) returns (s: string)
      requires digits == Table(vars.flags.upper)
      requires 1 <= shift <= 4 && vArg < Power(Base(shift), 22)
      ensures s == Numeral(vArg, Base(shift), vars.flags.upper)
    {
      hide Numeral, Written, Table, Power, Base, Quotient, Rest;
      var digitbuff := new char[22];
      var pos := 22;
      var v: nat := vArg;
      var base := Base(shift);
      ghost var upper := vars.flags.upper;
      NumeralFits(v, base, upper, 22);
      assert digitbuff[pos..] == "";
      WrittenStart(v, base, upper);
      WrittenStep(vArg, base, upper, v, digitbuff[pos..]);
      pos := Put(digitbuff, pos, digits[Rest(v, base)]);
      DivideRest(v, base);
      v := Quotient(v, base);
      while v != 0
        invariant 0 <= pos < 22
        invariant Written(vArg, base, upper, v, digitbuff[pos..])
        decreases v
      {
        WrittenStep(vArg, base, upper, v, digitbuff[pos..]);
        pos := Put(digitbuff, pos, digits[Rest(v, base)]);
        QuotientLess(v, base);
        v := Quotient(v, base);
      }
      s := digitbuff[pos..];
      WrittenDone(vArg, base, upper, s);
    }
  }

  /** The buffer of print_pow2 has room for every 64-bit number if and only if a digit stands for at
      least three bits, as the digits of octal numbers do. */
  lemma Pow2BufferSuffices(shift: nat, upper: bool)
    requires 1 <= shift <= 4
    ensures (forall v: nat :: v < UINT64 ==> |Numeral(v, Base(shift), upper)| <= 22) <==> shift >= 3
  {
    var base := Base(shift);
    Power22(base);
    hide Numeral, Power;
    forall v: nat | v < UINT64
      ensures |Numeral(v, base, upper)| <= 22 <==> v < Power(base, 22)
    {
      NumeralFits(v, base, upper, 22);
    }
    assert |Numeral(ULONG_MAX, base, upper)| <= 22 <==> ULONG_MAX < Power(base, 22);
  }
}
