/** The number parsers (string.c). A C string is a string followed by a NUL. */
module Parser {
  import opened Digits

  /** *(s + i), which may be the terminating NUL and nothing behind it. */
  function At(s: string, i: nat): char
    requires i <= |s|
  {
    if i < |s| then s[i] else '\0'
  }

  predicate IsSpace(c: char) {
    c == ' ' || c == '\t'
  }

  function SkipSpaces(s: string): string {
    if s != [] && IsSpace(s[0]) then SkipSpaces(s[1..]) else s
  }

  function AtMost(v: nat, limit: nat): nat {
    if v > limit then limit else v
  }

  function Unsigned(s: string): string {
    if s != [] && (s[0] == '-' || s[0] == '+') then s[1..] else s
  }

  predicate Negative(s: string) {
    s != [] && s[0] == '-'
  }

  /** Blanks, a sign, digits: their value, or the nearest number of the type. */
  function LongValue(s: string): int {
    var t := SkipSpaces(s);
    var v := Value(10, LeadingDigits(10, Unsigned(t)));
    if Negative(t) then -1 * AtMost(v, LONG_MIN) else AtMost(v, LONG_MAX)
  }

  function WithoutPrefix(s: string): string {
    if |s| >= 2 && s[0] == '0' && (s[1] == 'x' || s[1] == 'X') then s[2..] else s
  }

  function HexValue(s: string): nat {
    AtMost(Value(16, LeadingDigits(16, WithoutPrefix(SkipSpaces(s)))), ULONG_MAX)
  }

  /** A 64-bit word read as a signed number. */
  function ToSigned(w: nat): int {
    if w >= LONG_MIN then w - UINT64 else w
  }

  /** The test made before a digit is added finds exactly the sums above the limit. */
  lemma CutoffExact(base: nat, limit: nat, acc: nat, digit: nat)
    requires IsBase(base) && digit < base && acc <= limit
    ensures acc > Quotient(limit, base) || (acc == Quotient(limit, base) && digit > Rest(limit, base))
       <==> acc * base + digit > limit
  {
    DivideRest(limit, base);
    if acc > Quotient(limit, base) {
      Ordered(Quotient(limit, base) + 1, acc, base);
    } else if acc < Quotient(limit, base) {
      Ordered(acc + 1, Quotient(limit, base), base);
    }
  }

  lemma Ordered(a: nat, b: nat, base: nat)
    requires a <= b
    ensures a * base <= b * base
  {
  }

  lemma LeadingStep(base: nat, s: string, i: nat)
    requires i <= |s|
    ensures LeadingDigits(base, s[i..]) ==
              if i < |s| && IsDigit(base, s[i]) then [s[i]] + LeadingDigits(base, s[i + 1..]) else ""
  {
    if i < |s| {
      assert s[i..][1..] == s[i + 1..];
    }
  }

  /** The digits of s read so far are those from start to i, and acc is their value. */
  ghost predicate Reading(base: nat, s: string, start: nat, i: nat, acc: nat) {
    && start <= i <= |s| && Means(base, s[start..i], acc)
    && LeadingDigits(base, s[start..]) == s[start..i] + LeadingDigits(base, s[i..])
  }

  ghost predicate Means(base: nat, digits: string, v: nat) {
    AllDigits(base, digits) && Value(base, digits) == v
  }

  lemma ReadingStart(base: nat, s: string, start: nat)
    requires start <= |s|
    ensures Reading(base, s, start, start, 0)
  {
    assert s[start..start] == [];
  }

  lemma ReadingStep(base: nat, s: string, start: nat, i: nat, acc: nat)
    requires IsBase(base) && Reading(base, s, start, i, acc) && i < |s| && IsDigit(base, s[i])
    ensures Reading(base, s, start, i + 1, acc * base + HexDigitValue(s[i]))
  {
    MeansMore(base, s[start..i], acc, s[i]);
    LeadingStep(base, s, i);
    hide LeadingDigits, Means, HexDigitValue, AllDigits, IsDigit;
    NextPrefix(s, start, i, LeadingDigits(base, s[i + 1..]));
  }

  lemma NextPrefix(s: string, start: nat, i: nat, rest: string)
    requires start <= i < |s|
    ensures s[start..i + 1] == s[start..i] + [s[i]]
    ensures s[start..i] + ([s[i]] + rest) == s[start..i + 1] + rest
  {
  }

  lemma MeansMore(base: nat, digits: string, v: nat, ch: char)
    requires IsBase(base) && Means(base, digits, v) && IsDigit(base, ch)
    ensures Means(base, digits + [ch], v * base + HexDigitValue(ch))
  {
    hide Value;
    AppendDigit(base, digits, ch);
  }

  lemma ReadingDone(base: nat, s: string, start: nat, i: nat, acc: nat)
    requires IsBase(base) && Reading(base, s, start, i, acc) && !(i < |s| && IsDigit(base, s[i]))
    ensures Value(base, LeadingDigits(base, s[start..])) == acc
  {
    LeadingStep(base, s, i);
    assert s[start..i] + "" == s[start..i];
  }

  /** What has been read is a lower bound of the value. */
  lemma ReadingBelow(base: nat, s: string, start: nat, i: nat, acc: nat)
    requires IsBase(base) && Reading(base, s, start, i, acc)
    ensures acc <= Value(base, LeadingDigits(base, s[start..]))
  {
    var d := LeadingDigits(base, s[start..]);
    assert d[..i - start] == s[start..i];
    ValueGrows(base, d, i - start);
  }

  lemma SkipStep(s: string, i: nat)
    requires i < |s| && IsSpace(s[i])
    ensures SkipSpaces(s[i..]) == SkipSpaces(s[i + 1..])
  {
    assert s[i..][1..] == s[i + 1..];
  }

  method StrtolDeci(nptr: string) returns (r: int)
    ensures r == LongValue(nptr)
  {
    hide SkipSpaces, LeadingDigits, Value, Reading, Quotient, Rest;
    var s := 0;
    var c := At(nptr, s);
    s := s + 1;
    assert nptr[0..] == nptr;
    while IsSpace(c)
      invariant 1 <= s <= |nptr| + 1 && c == At(nptr, s - 1)
      invariant SkipSpaces(nptr) == SkipSpaces(nptr[s - 1..])
      decreases |nptr| - s
    {
      SkipStep(nptr, s - 1);
      c := At(nptr, s);
      s := s + 1;
    }
    NotSpace(nptr, s - 1);
    ghost var t := SkipSpaces(nptr);
    var neg := false;
    if c == '-' {
      neg := true;
      c := At(nptr, s);
      s := s + 1;
    } else if c == '+' {
      c := At(nptr, s);
      s := s + 1;
    }
    assert Unsigned(t) == nptr[s - 1..] && Negative(t) == neg;
    var acc := ReadDecimal(nptr, s - 1, neg);
    if neg {
      acc := (UINT64 - acc) % UINT64;
    }
    r := ToSigned(acc);
  }

  /** The digit loop of strtol_deci: the value of the digits, or the limit when it is passed. */
  method ReadDecimal(nptr: string, start: nat, neg: bool) returns (acc: nat)
    requires start <= |nptr|
    ensures acc == AtMost(Value(10, LeadingDigits(10, nptr[start..])), if neg then LONG_MIN else LONG_MAX)
  {
    hide LeadingDigits, Value, Reading, Quotient, Rest;
    var c, s := At(nptr, start), start + 1;
    var limit: nat := if neg then LONG_MIN else LONG_MAX;
    var cutlim, cutoff := Rest(limit, 10), Quotient(limit, 10);
    var overflow := false;
    acc := 0;
    ReadingStart(10, nptr, start);
    while '0' <= c <= '9'
      invariant start < s <= |nptr| + 1 && c == At(nptr, s - 1)
      invariant acc <= limit && Reading(10, nptr, start, s - 1, acc) && !overflow
      decreases |nptr| - s
    {
      var digit: nat := c as int - '0' as int;
      CutoffExact(10, limit, acc, digit);
      ReadingStep(10, nptr, start, s - 1, acc);
      if acc > cutoff || (acc == cutoff && digit > cutlim) {
        overflow := true;
        ReadingBelow(10, nptr, start, s, acc * 10 + digit);
        break;
      } else {
        acc := acc * 10;
        acc := acc + digit;
      }
      c := At(nptr, s);
      s := s + 1;
    }
    if overflow {
      acc := limit;
    } else {
      ReadingDone(10, nptr, start, s - 1, acc);
    }
  }

  lemma NotSpace(s: string, i: nat)
    requires i <= |s| && !IsSpace(At(s, i))
    ensures SkipSpaces(s[i..]) == s[i..]
  {
  }

  method StrtoulHex(nptr: string) returns (r: nat)
    ensures r == HexValue(nptr)
  {
    hide SkipSpaces, LeadingDigits, Value, Reading, Quotient, Rest;
    var s := 0;
    var c := At(nptr, s);
    s := s + 1;
    assert nptr[0..] == nptr;
    while IsSpace(c)
      invariant 1 <= s <= |nptr| + 1 && c == At(nptr, s - 1)
      invariant SkipSpaces(nptr) == SkipSpaces(nptr[s - 1..])
      decreases |nptr| - s
    {
      SkipStep(nptr, s - 1);
      c := At(nptr, s);
      s := s + 1;
    }
    NotSpace(nptr, s - 1);
    ghost var t := SkipSpaces(nptr);
    if c == '0' && (At(nptr, s) == 'x' || At(nptr, s) == 'X') {
      c := At(nptr, s + 1);
      s := s + 2;
    }
    var start := s - 1;
    assert WithoutPrefix(t) == nptr[start..];
    r := ReadHex(nptr, start);
  }

  /** The digit loop of strtoul_hex: the value of the digits, or the limit when it is passed. */
  method ReadHex(nptr: string, start: nat) returns (acc: nat)
    requires start <= |nptr|
    ensures acc == AtMost(Value(16, LeadingDigits(16, nptr[start..])), ULONG_MAX)
  {
    hide LeadingDigits, Value, Reading, Quotient, Rest;
    var c, s := At(nptr, start), start + 1;
    var cutoff, cutlim := Quotient(ULONG_MAX, 16), Rest(ULONG_MAX, 16);
    var overflow := false;
    acc := 0;
    ReadingStart(16, nptr, start);
    var digit := HexDigitValue(c);
    while digit >= 0
      invariant start < s <= |nptr| + 1 && c == At(nptr, s - 1) && digit == HexDigitValue(c)
      invariant acc <= ULONG_MAX && Reading(16, nptr, start, s - 1, acc) && !overflow
      decreases |nptr| - s
    {
      CutoffExact(16, ULONG_MAX, acc, digit);
      ReadingStep(16, nptr, start, s - 1, acc);
      if acc > cutoff || (acc == cutoff && digit > cutlim) {
        overflow := true;
        ReadingBelow(16, nptr, start, s, acc * 16 + digit);
        break;
      } else {
        acc := acc * 16;
        acc := acc + digit;
      }
      c := At(nptr, s);
      s := s + 1;
      digit := HexDigitValue(c);
    }
    if overflow {
      acc := ULONG_MAX;
    } else {
      ReadingDone(16, nptr, start, s - 1, acc);
    }
  }
}
