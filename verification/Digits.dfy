/** Numbers and their digits: the meaning shared by the printer (printf.c) and the parsers (string.c). */
module Digits {
  const UINT32: nat := 0x1_0000_0000
  const UINT64: nat := 0x1_0000_0000_0000_0000
  const LONG_MAX: nat := 0x7FFF_FFFF_FFFF_FFFF
  const LONG_MIN: nat := 0x8000_0000_0000_0000
  const ULONG_MAX: nat := 0xFFFF_FFFF_FFFF_FFFF

  const LOWER_HEX_DIGITS := "0123456789abcdefx"
  const UPPER_HEX_DIGITS := "0123456789ABCDEFX"

  function Table(upper: bool): (t: string)
    ensures |t| == 17
  {
    if upper then UPPER_HEX_DIGITS else LOWER_HEX_DIGITS
  }

  /** Ten, and 1 << shift for the shifts whose digits the tables have. */
  predicate IsBase(base: nat) {
    base == 2 || base == 4 || base == 8 || base == 10 || base == 16
  }

  function Quotient(v: nat, base: nat): nat
    requires IsBase(base)
  {
    match base
    case 2 => v / 2
    case 4 => v / 4
    case 8 => v / 8
    case 10 => v / 10
    case _ => v / 16
  }

  function Rest(v: nat, base: nat): (r: nat)
    requires IsBase(base)
    ensures r < base
  {
    match base
    case 2 => v % 2
    case 4 => v % 4
    case 8 => v % 8
    case 10 => v % 10
    case _ => v % 16
  }

  /** The shortest numeral of a number. */
  function Numeral(v: nat, base: nat, upper: bool): (s: string)
    requires IsBase(base)
    ensures |s| > 0
  {
    if v < base then [Table(upper)[v]] else Numeral(Quotient(v, base), base, upper) + [Table(upper)[Rest(v, base)]]
  }

  function HexDigitValue(ch: char): (r: int)
    ensures -1 <= r < 16
  {
    if '0' <= ch <= '9' then ch as int - '0' as int
    else if 'a' <= ch <= 'f' then ch as int - 'a' as int + 10
    else if 'A' <= ch <= 'F' then ch as int - 'A' as int + 10
    else -1
  }

  predicate IsDigit(base: nat, ch: char) {
    0 <= HexDigitValue(ch) < base
  }

  predicate AllDigits(base: nat, s: string) {
    forall i :: 0 <= i < |s| ==> IsDigit(base, s[i])
  }

  /** What a numeral means. */
  function Value(base: nat, s: string): nat
    requires AllDigits(base, s)
  {
    if s == [] then 0 else Value(base, s[..|s| - 1]) * base + HexDigitValue(s[|s| - 1])
  }

  function LeadingDigits(base: nat, s: string): (r: string)
    ensures AllDigits(base, r) && |r| <= |s| && r == s[..|r|]
    ensures |r| < |s| ==> !IsDigit(base, s[|r|])
  {
    if s == [] || !IsDigit(base, s[0]) then [] else [s[0]] + LeadingDigits(base, s[1..])
  }

  function Fill(ch: char, n: nat): (s: string)
    ensures |s| == n
  {
    seq(n, _ => ch)
  }

  lemma TableDigit(v: nat, upper: bool)
    requires v < 16
    ensures HexDigitValue(Table(upper)[v]) == v
    ensures v >= 10 ==> if upper then 'A' <= Table(upper)[v] <= 'F' else 'a' <= Table(upper)[v] <= 'f'
  {
  }

  lemma DivideRest(v: nat, base: nat)
    requires IsBase(base)
    ensures v == Quotient(v, base) * base + Rest(v, base)
    ensures v >= base ==> 0 < Quotient(v, base) < v
    ensures v < base ==> Quotient(v, base) == 0 && Rest(v, base) == v
  {
  }

  /** One turn of a digit loop. */
  lemma NumeralStep(v: nat, base: nat, upper: bool)
    requires IsBase(base)
    ensures Numeral(v, base, upper) == (if Quotient(v, base) == 0 then "" else Numeral(Quotient(v, base), base, upper)) + [Table(upper)[Rest(v, base)]]
  {
    DivideRest(v, base);
  }

  /** A digit loop has written the last digits of n and has v left. */
  ghost predicate Written(n: nat, base: nat, upper: bool, v: nat, tail: string)
    requires IsBase(base)
  {
    Numeral(n, base, upper) == if v == 0 && tail != "" then tail else Numeral(v, base, upper) + tail
  }

  lemma WrittenStart(n: nat, base: nat, upper: bool)
    requires IsBase(base)
    ensures Written(n, base, upper, n, "")
  {
  }

  lemma WrittenStep(n: nat, base: nat, upper: bool, v: nat, tail: string)
    requires IsBase(base) && Written(n, base, upper, v, tail) && (v > 0 || tail == "")
    ensures |tail| < |Numeral(n, base, upper)|
    ensures Written(n, base, upper, Quotient(v, base), [Table(upper)[Rest(v, base)]] + tail)
  {
    hide Numeral, Table, Quotient, Rest;
    NumeralStep(v, base, upper);
    ghost var q, d := Quotient(v, base), [Table(upper)[Rest(v, base)]];
    ghost var front := if q == 0 then "" else Numeral(q, base, upper);
    assert Numeral(n, base, upper) == front + d + tail;
    assert front + d + tail == front + (d + tail);
  }

  lemma WrittenDone(n: nat, base: nat, upper: bool, tail: string)
    requires IsBase(base) && Written(n, base, upper, 0, tail) && tail != ""
    ensures tail == Numeral(n, base, upper)
  {
  }

  /** A numeral is one, and means its number. */
  lemma {:induction false} NumeralValue(v: nat, base: nat, upper: bool)
    requires IsBase(base)
    ensures AllDigits(base, Numeral(v, base, upper)) && Value(base, Numeral(v, base, upper)) == v
  {
    DivideRest(v, base);
    if v < base {
      TableDigit(v, upper);
      OneDigit(v, base, upper);
    } else {
      var q, r := Quotient(v, base), Rest(v, base);
      NumeralValue(q, base, upper);
      TableDigit(r, upper);
      AppendDigit(base, Numeral(q, base, upper), Table(upper)[r]);
    }
  }

  lemma OneDigit(v: nat, base: nat, upper: bool)
    requires v < base <= 16 && HexDigitValue(Table(upper)[v]) == v
    ensures AllDigits(base, [Table(upper)[v]]) && Value(base, [Table(upper)[v]]) == v
  {
    var s := [Table(upper)[v]];
    assert s[..0] == [];
    assert Value(base, []) * base == 0;
  }

  lemma AppendDigit(base: nat, s: string, ch: char)
    requires AllDigits(base, s) && IsDigit(base, ch)
    ensures AllDigits(base, s + [ch]) && Value(base, s + [ch]) == Value(base, s) * base + HexDigitValue(ch)
  {
    assert (s + [ch])[..|s|] == s;
  }

  /** Leading zeros mean nothing. */
  lemma {:induction false} LeadingZeros(base: nat, n: nat, s: string)
    requires base >= 2 && AllDigits(base, s)
    ensures AllDigits(base, Fill('0', n) + s) && Value(base, Fill('0', n) + s) == Value(base, s)
  {
    var t := Fill('0', n) + s;
    if s == [] {
      if n > 0 {
        assert t[..|t| - 1] == Fill('0', n - 1) + s;
        LeadingZeros(base, n - 1, s);
      }
    } else {
      assert t[..|t| - 1] == Fill('0', n) + s[..|s| - 1];
      LeadingZeros(base, n, s[..|s| - 1]);
    }
  }

  /** Digits in front of something else are the leading digits. */
  lemma {:induction false} LeadingDigitsOf(base: nat, s: string, rest: string)
    requires AllDigits(base, s) && (rest == [] || !IsDigit(base, rest[0]))
    ensures LeadingDigits(base, s + rest) == s
  {
    if s == [] {
      assert s + rest == rest;
    } else {
      assert (s + rest)[1..] == s[1..] + rest;
      LeadingDigitsOf(base, s[1..], rest);
    }
  }

  /** More digits never mean less. */
  lemma {:induction false} ValueGrows(base: nat, s: string, n: nat)
    requires base >= 1 && AllDigits(base, s) && n <= |s|
    ensures Value(base, s[..n]) <= Value(base, s)
    decreases |s|
  {
    if n < |s| {
      var t := s[..|s| - 1];
      assert t[..n] == s[..n];
      ValueGrows(base, t, n);
      Grows(Value(base, t), base);
    } else {
      assert s[..n] == s;
    }
  }

  lemma Grows(v: nat, base: nat)
    requires base >= 1
    ensures v <= v * base
  {
  }

  // ---- Sizes ----

  function Power(base: nat, n: nat): nat {
    if n == 0 then 1 else base * Power(base, n - 1)
  }

  lemma NumeralLength(v: nat, base: nat, upper: bool)
    requires IsBase(base)
    ensures |Numeral(v, base, upper)| == if v < base then 1 else |Numeral(Quotient(v, base), base, upper)| + 1
  {
  }

  lemma PowerStep(base: nat, n: nat)
    requires n > 0
    ensures Power(base, n) == base * Power(base, n - 1) && (n == 1 ==> Power(base, n) == base)
  {
  }

  /** The numbers with at most n digits are those below the n-th power of the base. */
  lemma {:induction false} NumeralFits(v: nat, base: nat, upper: bool, n: nat)
    requires IsBase(base) && n > 0
    ensures |Numeral(v, base, upper)| <= n <==> v < Power(base, n)
  {
    hide Numeral, Power;
    NumeralLength(v, base, upper);
    PowerStep(base, n);
    PowerPositive(base, n - 1);
    if v >= base {
      DivideBelow(v, base, Power(base, n - 1));
      if n > 1 {
        NumeralFits(Quotient(v, base), base, upper, n - 1);
      }
    } else {
      Grows(base, Power(base, n - 1));
    }
  }

  lemma {:induction false} PowerPositive(base: nat, n: nat)
    requires base > 0
    ensures Power(base, n) > 0
  {
    if n > 0 {
      PowerPositive(base, n - 1);
    }
  }

  lemma DivideBelow(v: nat, base: nat, p: nat)
    requires IsBase(base)
    ensures v < base * p <==> Quotient(v, base) < p
  {
  }

  lemma Power10()
    ensures Power(10, 20) == 100_000_000_000_000_000_000
  {
    assert Power(10, 5) == 100_000 by { PowerFive(10); }
    PowerSum(10, 5, 5);
    PowerSum(10, 10, 10);
  }

  lemma Power22(base: nat)
    requires base == 2 || base == 4 || base == 8 || base == 16
    ensures Power(base, 22) ==
              if base == 2 then 0x40_0000
              else if base == 4 then 0x1000_0000_0000
              else if base == 8 then 0x4_0000_0000_0000_0000
              else 0x100_0000_0000_0000_0000_0000
  {
    PowerFive(base);
    PowerSum(base, 5, 5);
    PowerSum(base, 10, 10);
    PowerSum(base, 20, 2);
    assert Power(base, 2) == base * Power(base, 1);
  }

  lemma QuotientLess(v: nat, base: nat)
    requires IsBase(base) && v > 0
    ensures Quotient(v, base) < v
  {
  }

  lemma PowerFive(base: nat)
    ensures Power(base, 5) == base * (base * (base * (base * base)))
  {
    assert Power(base, 2) == base * Power(base, 1);
    assert Power(base, 4) == base * Power(base, 3);
  }

  lemma {:induction false} PowerSum(base: nat, m: nat, n: nat)
    ensures Power(base, m + n) == Power(base, m) * Power(base, n)
  {
    if m > 0 {
      PowerSum(base, m - 1, n);
      Reassociate(base, Power(base, m - 1), Power(base, n));
    }
  }

  lemma Reassociate(a: nat, b: nat, c: nat)
    ensures a * (b * c) == a * b * c
  {
  }
}
