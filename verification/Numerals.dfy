/** Decimal printing, and the parsing of numbers by atoi and strtoul. */
module Numerals {

  const TWO_64: nat := 0x1_0000_0000_0000_0000

  /** A digit in some base up to 36, or 36 for any other character. */
  function DigitValue(c: char): nat {
    if '0' <= c <= '9' then c as nat - '0' as nat
    else if 'a' <= c <= 'z' then c as nat - 'a' as nat + 10
    else if 'A' <= c <= 'Z' then c as nat - 'A' as nat + 10
    else 36
  }

  predicate IsSpace(c: char) { c == ' ' || '\t' <= c <= '\r' }

  /** The value of the longest run of digits in front, after those that made up acc. */
  function Digits(s: string, base: nat, acc: nat): nat {
    if s == [] || DigitValue(s[0]) >= base then acc
    else Digits(s[1..], base, acc * base + DigitValue(s[0]))
  }

  function SkipSpace(s: string): string {
    if s != [] && IsSpace(s[0]) then SkipSpace(s[1..]) else s
  }

  predicate Signed(s: string) { s != [] && (s[0] == '-' || s[0] == '+') }

  function Atoi(s: string): int {
    var t := SkipSpace(s);
    if Signed(t) then (if t[0] == '-' then 0 - Digits(t[1..], 10, 0) else Digits(t[1..], 10, 0))
    else Digits(t, 10, 0)
  }

  /** The magnitude with base 0: hexadecimal after 0x, octal after 0, else decimal. */
  function Magnitude(s: string): nat {
    if |s| > 2 && s[0] == '0' && (s[1] == 'x' || s[1] == 'X') && DigitValue(s[2]) < 16 then Digits(s[2..], 16, 0)
    else if s != [] && s[0] == '0' then Digits(s, 8, 0)
    else Digits(s, 10, 0)
  }

  /** 64-bit strtoul with base 0: saturates, and negates modulo 2^64 after a minus. */
  function Strtoul(s: string): (r: nat)
    ensures r < TWO_64
  {
    var t := SkipSpace(s);
    var n := Magnitude(if Signed(t) then t[1..] else t);
    if n >= TWO_64 then TWO_64 - 1
    else if Signed(t) && t[0] == '-' then (TWO_64 - n) % TWO_64
    else n
  }

  function Print(n: nat): (s: string)
    ensures s != []
    decreases n
  {
    if n < 10 then [('0' as nat + n) as char] else Print(n / 10) + [('0' as nat + n % 10) as char]
  }

  predicate AllDecimal(s: string) { forall i | 0 <= i < |s| :: '0' <= s[i] <= '9' }

  lemma {:induction false} PrintDecimal(n: nat)
    ensures AllDecimal(Print(n)) && (n > 0 ==> Print(n)[0] != '0')
    decreases n
  {
    if n >= 10 { PrintDecimal(n / 10); }
  }

  predicate AllBelow(s: string, base: nat) { forall i | 0 <= i < |s| :: DigitValue(s[i]) < base }

  lemma {:induction false} DigitsConcat(s: string, rest: string, base: nat, acc: nat)
    requires AllBelow(s, base)
    ensures Digits(s + rest, base, acc) == Digits(rest, base, Digits(s, base, acc))
    decreases |s|
  {
    if s == [] {
      assert s + rest == rest;
    } else {
      assert (s + rest)[1..] == s[1..] + rest;
      DigitsConcat(s[1..], rest, base, acc * base + DigitValue(s[0]));
    }
  }

  /** The value of a string of digits in positional notation. */
  function Value(s: string, base: nat): nat {
    if s == [] then 0 else Value(s[..|s| - 1], base) * base + DigitValue(s[|s| - 1])
  }

  /** The digits in front are read up to the first character that is none. */
  lemma {:induction false} DigitsValue(s: string, rest: string, base: nat)
    requires AllBelow(s, base) && (rest == [] || DigitValue(rest[0]) >= base)
    ensures Digits(s + rest, base, 0) == Value(s, base)
    decreases |s|
  {
    DigitsConcat(s, rest, base, 0);
    if s != [] {
      var front, last := s[..|s| - 1], s[|s| - 1..];
      assert s == front + last;
      DigitsConcat(front, last, base, 0);
      DigitsValue(front, [], base);
      assert front + [] == front && last[1..] == [];
    }
  }

  /** Parsing a printed number gives it back, whatever follows that is not a digit. */
  lemma {:induction false} DigitsOfPrint(n: nat, rest: string)
    requires rest == [] || DigitValue(rest[0]) >= 10
    ensures Digits(Print(n) + rest, 10, 0) == n
    decreases n
  {
    PrintDecimal(n);
    DigitsConcat(Print(n), rest, 10, 0);
    if n < 10 {
      assert Print(n)[1..] == [];
    } else {
      var d := [('0' as nat + n % 10) as char];
      DigitsOfPrint(n / 10, []);
      assert Print(n / 10) + [] == Print(n / 10);
      PrintDecimal(n / 10);
      DigitsConcat(Print(n / 10), d, 10, 0);
      assert d[1..] == [];
      assert Digits(d, 10, n / 10) == n / 10 * 10 + n % 10;
    }
  }

  lemma AtoiOfPrint(n: nat, rest: string)
    requires rest == [] || DigitValue(rest[0]) >= 10
    ensures Atoi(Print(n) + rest) == n
  {
    PrintDecimal(n);
    assert (Print(n) + rest)[0] == Print(n)[0];
    DigitsOfPrint(n, rest);
  }

  lemma StrtoulOfPrint(n: nat, rest: string)
    requires rest == [] || (DigitValue(rest[0]) >= 16 && rest[0] != 'x' && rest[0] != 'X')
    ensures Strtoul(Print(n) + rest) == if n < TWO_64 then n else TWO_64 - 1
  {
    var s := Print(n) + rest;
    PrintDecimal(n);
    assert s[0] == Print(n)[0];
    DigitsOfPrint(n, rest);
    if n == 0 {
      assert s == ['0'] + rest;
      assert s[1..] == rest;
      assert |s| > 1 ==> s[1] == rest[0];
      assert Digits(rest, 8, 0) == 0;
    }
  }

  // ----- Spaces, signs and bases

  predicate AllSpace(s: string) { forall i | 0 <= i < |s| :: IsSpace(s[i]) }

  lemma {:induction false} SpacesSkipped(spaces: string, t: string)
    requires AllSpace(spaces) && (t == [] || !IsSpace(t[0]))
    ensures SkipSpace(spaces + t) == t
    decreases |spaces|
  {
    if spaces == [] {
      assert spaces + t == t;
    } else {
      assert (spaces + t)[1..] == spaces[1..] + t;
      SpacesSkipped(spaces[1..], t);
    }
  }

  /** atoi passes over leading space, takes one sign, and gives 0 where no digit follows. */
  lemma AtoiSpaced(spaces: string, n: nat, rest: string)
    requires AllSpace(spaces) && (rest == [] || DigitValue(rest[0]) >= 10)
    ensures Atoi(spaces + (Print(n) + rest)) == n
    ensures Atoi(spaces + ("+" + (Print(n) + rest))) == n
    ensures Atoi(spaces + ("-" + (Print(n) + rest))) == 0 - n
    ensures !IsSpaceOrSign(rest) ==> Atoi(spaces + rest) == 0
  {
    var t := Print(n) + rest;
    PrintDecimal(n);
    DigitsOfPrint(n, rest);
    assert t[0] == Print(n)[0];
    assert ("+" + t)[1..] == t && ("-" + t)[1..] == t;
    SpacesSkipped(spaces, t);
    SpacesSkipped(spaces, "+" + t);
    SpacesSkipped(spaces, "-" + t);
    if !IsSpaceOrSign(rest) { SpacesSkipped(spaces, rest); }
  }

  predicate IsSpaceOrSign(s: string) { s != [] && (IsSpace(s[0]) || Signed(s)) }

  function Saturated(n: nat): nat { if n < TWO_64 then n else TWO_64 - 1 }

  lemma StrtoulSigned(t: string)
    requires t != [] && !IsSpaceOrSign(t)
    ensures Strtoul(t) == Strtoul("+" + t) == Saturated(Magnitude(t))
    ensures var n := Magnitude(t);
            Strtoul("-" + t) == if n == 0 then 0 else if n < TWO_64 then TWO_64 - n else TWO_64 - 1
  {
    assert ("+" + t)[1..] == t && ("-" + t)[1..] == t;
  }

  lemma StrtoulSkips(spaces: string, t: string)
    requires AllSpace(spaces) && t != [] && !IsSpace(t[0])
    ensures Strtoul(spaces + t) == Strtoul(t)
  {
    SpacesSkipped(spaces, t);
  }

  /** strtoul passes over leading space and a plus, and negates modulo 2^64 after a minus. */
  lemma StrtoulSpaced(spaces: string, n: nat, rest: string)
    requires AllSpace(spaces) && (rest == [] || (DigitValue(rest[0]) >= 16 && rest[0] != 'x' && rest[0] != 'X'))
    ensures Strtoul(spaces + (Print(n) + rest)) == Saturated(n)
    ensures Strtoul(spaces + ("+" + (Print(n) + rest))) == Saturated(n)
    ensures Strtoul(spaces + ("-" + (Print(n) + rest))) ==
            if n == 0 then 0 else if n < TWO_64 then TWO_64 - n else TWO_64 - 1
  {
    var t := Print(n) + rest;
    PrintDecimal(n);
    MagnitudeOfPrint(n, rest);
    assert t[0] == Print(n)[0];
    StrtoulSigned(t);
    StrtoulSkips(spaces, t);
    StrtoulSkips(spaces, "+" + t);
    StrtoulSkips(spaces, "-" + t);
  }

  lemma MagnitudeOfPrint(n: nat, rest: string)
    requires rest == [] || (DigitValue(rest[0]) >= 16 && rest[0] != 'x' && rest[0] != 'X')
    ensures Magnitude(Print(n) + rest) == n
  {
    var s := Print(n) + rest;
    PrintDecimal(n);
    assert s[0] == Print(n)[0];
    DigitsOfPrint(n, rest);
    if n == 0 {
      assert s == ['0'] + rest && s[1..] == rest;
      assert |s| > 1 ==> s[1] == rest[0];
      assert Digits(rest, 8, 0) == 0;
    }
  }

  /** With base 0 a number after 0x is hexadecimal and one after 0 is octal. */
  lemma StrtoulOfBase(s: string, rest: string)
    requires s != []
    ensures AllBelow(s, 16) && (rest == [] || DigitValue(rest[0]) >= 16) ==>
              Strtoul("0x" + (s + rest)) == Strtoul("0X" + (s + rest)) == Saturated(Value(s, 16))
    ensures AllBelow(s, 8) && (rest == [] || DigitValue(rest[0]) >= 8) ==>
              Strtoul("0" + (s + rest)) == Saturated(Value(s, 8))
  {
    var t := s + rest;
    assert t[0] == s[0];
    if AllBelow(s, 16) && (rest == [] || DigitValue(rest[0]) >= 16) {
      DigitsValue(s, rest, 16);
      assert ("0x" + t)[2..] == t && ("0X" + t)[2..] == t;
      assert ("0x" + t)[2] == s[0] && ("0X" + t)[2] == s[0];
    }
    if AllBelow(s, 8) && (rest == [] || DigitValue(rest[0]) >= 8) {
      DigitsValue(s, rest, 8);
      assert ("0" + t)[1..] == t && ("0" + t)[1] == s[0];
      assert Digits("0" + t, 8, 0) == Digits(t, 8, 0);
    }
  }
}
