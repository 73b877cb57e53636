/**
 Decimal text of 32-bit integers, as the control server prints it into ten bytes
 and reads it back with atoi.
 */
module Decimal {
  type int32 = x: int | -0x8000_0000 <= x < 0x8000_0000

  const PRINT_BUFFER := 10

  function DigitChar(d: nat): (c: char)
    requires d < 10
    ensures IsDigit(c) && DigitValue(c) == d
  {
    '0' + d as char
  }

  predicate IsDigit(c: char) {
    '0' <= c <= '9'
  }

  function DigitValue(c: char): int {
    c as int - '0' as int
  }

  predicate IsSpace(c: char) {
    c == ' ' || ('\t' <= c <= '\r')
  }

  /** The digits of n, most significant first. */
  function Digits(n: nat): (s: string)
    ensures s != "" && forall i :: 0 <= i < |s| ==> IsDigit(s[i])
  {
    if n < 10 then [DigitChar(n)] else Digits(n / 10) + [DigitChar(n % 10)]
  }

  function Magnitude(v: int): nat {
    if v < 0 then -v else v
  }

  function Signed(v: int): string {
    if v < 0 then "-" + Digits(Magnitude(v)) else Digits(v)
  }

  /** What snprintf leaves of "%d" in the print buffer, whose last byte is the terminator. */
  function Printed(v: int): string {
    var s := Signed(v);
    if |s| < PRINT_BUFFER then s else s[..PRINT_BUFFER - 1]
  }

  function SkipSpaces(s: string): (t: string)
    ensures |t| <= |s|
  {
    if s != "" && IsSpace(s[0]) then SkipSpaces(s[1..]) else s
  }

  /** How many digits s starts with. */
  function DigitRun(s: string): (n: nat)
    ensures n <= |s|
  {
    if s != "" && IsDigit(s[0]) then 1 + DigitRun(s[1..]) else 0
  }

  function Value(s: string): int {
    if s == "" then 0 else 10 * Value(s[..|s| - 1]) + DigitValue(s[|s| - 1])
  }

  /** A value past the integer range sticks to its end. */
  function Saturated(v: int): (r: int32)
    ensures -0x8000_0000 <= v < 0x8000_0000 ==> r == v
  {
    if v < -0x8000_0000 then -0x8000_0000 else if v >= 0x8000_0000 then 0x7fff_ffff else v
  }

  function Unsigned(s: string): int {
    Value(s[..DigitRun(s)])
  }

  function AfterSpaces(t: string): int32 {
    if t != "" && t[0] == '-' then Saturated(-Unsigned(t[1..]))
    else if t != "" && t[0] == '+' then Saturated(Unsigned(t[1..]))
    else Saturated(Unsigned(t))
  }

  /** Leading white space, an optional sign, as many digits as there are; 0 when there are none. */
  function Atoi(s: string): int32 {
    AfterSpaces(SkipSpaces(s))
  }

  lemma {:induction false} AllDigits(s: string)
    requires forall i :: 0 <= i < |s| ==> IsDigit(s[i])
    ensures DigitRun(s) == |s| && Unsigned(s) == Value(s)
  {
    if s == "" {
    } else {
      AllDigits(s[1..]);
    }
    assert s[..|s|] == s;
  }

  lemma {:induction false} ValueOfDigits(n: nat)
    ensures Value(Digits(n)) == n
  {
    if n >= 10 {
      ValueOfDigits(n / 10);
      assert Digits(n)[..|Digits(n)| - 1] == Digits(n / 10);
    } else {
      assert Digits(n)[..0] == "";
    }
  }

  function Power10(k: nat): nat {
    if k == 0 then 1 else 10 * Power10(k - 1)
  }

  /** n has at most k digits exactly when it is below ten to the k. */
  lemma {:induction false} DigitCount(n: nat, k: nat)
    requires k > 0
    ensures |Digits(n)| <= k <==> n < Power10(k)
  {
    if k == 1 {
      assert Power10(1) == 10 * Power10(0);
    } else if n >= 10 {
      DigitCount(n / 10, k - 1);
      assert n / 10 < Power10(k - 1) <==> n < 10 * Power10(k - 1);
    } else {
      assert Power10(k) == 100 * Power10(k - 2);
      PowerPositive(k - 2);
    }
  }

  lemma {:induction false} PowerPositive(k: nat)
    ensures Power10(k) >= 1
  {
    if k > 0 {
      PowerPositive(k - 1);
    }
  }

  /** Dropping digits from the end leaves a smaller number. */
  lemma {:induction false} CutDigits(n: nat, k: nat)
    requires 0 < k < |Digits(n)|
    ensures Value(Digits(n)[..k]) < n
  {
    var s := Digits(n);
    assert n >= 10;
    assert s[..|s| - 1] == Digits(n / 10);
    if k == |s| - 1 {
      ValueOfDigits(n / 10);
    } else {
      assert s[..k] == Digits(n / 10)[..k];
      CutDigits(n / 10, k);
    }
  }

  lemma AtoiOfDigits(s: string)
    requires s != "" && forall i :: 0 <= i < |s| ==> IsDigit(s[i])
    ensures Atoi(s) == Saturated(Value(s))
  {
    AllDigits(s);
    assert IsDigit(s[0]);
    NoSpaces(s);
  }

  lemma {:induction false} AtoiOfMinus(s: string, t: string)
    requires t == "-" + s && forall i :: 0 <= i < |s| ==> IsDigit(s[i])
    ensures Atoi(t) == Saturated(-Value(s))
  {
    AllDigits(s);
    NoSpaces(t);
    assert t[0] == '-' && t[1..] == s;
  }

  lemma NoSpaces(s: string)
    requires s != "" && !IsSpace(s[0])
    ensures SkipSpaces(s) == s && Atoi(s) == AfterSpaces(s)
  {
  }

  /** Untruncated text is read back exactly. */
  lemma AtoiOfSigned(v: int32)
    ensures Atoi(Signed(v)) == v
  {
    var n := Magnitude(v);
    ValueOfDigits(n);
    if v < 0 {
      AtoiOfMinus(Digits(n), Signed(v));
    } else {
      AtoiOfDigits(Digits(n));
    }
  }

  predicate Fits(v: int) {
    -99_999_999 <= v <= 999_999_999
  }

  lemma Powers()
    ensures Power10(8) == 100_000_000 && Power10(9) == 1_000_000_000
  {
    assert Power10(3) == 1000;
    assert Power10(6) == 1000 * Power10(3);
  }

  /** The print buffer holds the whole text exactly for the values that fit. */
  lemma PrintedWhole(v: int)
    ensures Printed(v) == Signed(v) <==> Fits(v)
    ensures Fits(v) <==> |Digits(Magnitude(v))| <= if v < 0 then 8 else 9
  {
    Powers();
    DigitCount(Magnitude(v), if v < 0 then 8 else 9);
  }

  lemma MinusCut(s: string)
    requires |s| >= 8
    ensures ("-" + s)[..9] == "-" + s[..8]
  {
  }

  lemma PrintedCut(v: int)
    requires |Signed(v)| >= PRINT_BUFFER
    ensures Printed(v) == if v < 0 then "-" + Digits(Magnitude(v))[..8] else Digits(v)[..9]
  {
    if v < 0 {
      MinusCut(Digits(Magnitude(v)));
    }
  }

  lemma {:induction false} MinusSmaller(digits: string, t: string, n: nat)
    requires t == "-" + digits && forall i :: 0 <= i < |digits| ==> IsDigit(digits[i])
    requires Value(digits) < n <= 0x8000_0000
    ensures Atoi(t) != -(n as int)
  {
    AtoiOfMinus(digits, t);
  }

  lemma CutNegative(v: int32)
    requires v < 0 && !Fits(v)
    ensures Atoi(Printed(v)) != v
  {
    var n := Magnitude(v);
    PrintedWhole(v);
    PrintedCut(v);
    CutDigits(n, 8);
    MinusSmaller(Digits(n)[..8], Printed(v), n);
  }

  lemma CutPositive(v: int32)
    requires v >= 0 && !Fits(v)
    ensures Atoi(Printed(v)) != v
  {
    PrintedWhole(v);
    PrintedCut(v);
    CutDigits(v, 9);
    AtoiOfDigits(Digits(v)[..9]);
  }

  lemma DivIs(n: nat, d: nat, q: nat)
    requires d > 0 && d * q <= n < d * q + d
    ensures n / d == q
  {
    var r := n / d;
    if r < q {
      LessTimes(r, q, d);
    } else if q < r {
      LessTimes(q, r, d);
    }
  }

  lemma LessTimes(a: nat, b: nat, d: nat)
    requires a < b
    ensures d * a + d <= d * b
  {
    assert d * (a + 1) <= d * b;
  }

  lemma DivDiv(n: nat, p: nat)
    requires p > 0
    ensures n / (10 * p) == n / 10 / p
  {
    var q := n / 10 / p;
    assert p * q <= n / 10 < p * q + p;
    assert 10 * p * q == 10 * (p * q);
    DivIs(n, 10 * p, q);
  }

  /** The digit of 10^k in n. */
  function DigitAt(n: nat, k: nat): char {
    PowerPositive(k);
    "0123456789"[n / Power10(k) % 10]
  }

  lemma DigitShifted(n: nat, k: nat)
    ensures DigitAt(n, k + 1) == DigitAt(n / 10, k)
  {
    PowerPositive(k);
    DivDiv(n, Power10(k));
  }

  /** The text spells n in decimal, perhaps after leading zeros: the character k from its end is the digit of 10^k. */
  predicate Spells(text: string, n: nat) {
    n < Power10(|text|) && forall k :: 0 <= k < |text| ==> text[|text| - 1 - k] == DigitAt(n, k)
  }

  lemma LastDigit(n: nat)
    ensures DigitAt(n, 0) == DigitChar(n % 10)
  {
  }

  lemma {:induction false} SpelledBehind(text: string, c: char, n: nat)
    requires Spells(text, n / 10) && c == DigitAt(n, 0)
    ensures Spells(text + [c], n)
  {
    var all := text + [c];
    forall k | 0 <= k < |all|
      ensures all[|all| - 1 - k] == DigitAt(n, k)
    {
      if k > 0 {
        DigitShifted(n, k - 1);
        assert all[|all| - 1 - k] == text[|text| - 1 - (k - 1)];
      }
    }
  }

  lemma {:induction false} SpelledInFront(text: string, n: nat)
    requires text != "" && Spells(text, n)
    ensures Spells(text[..|text| - 1], n / 10) && text[|text| - 1] == DigitAt(n, 0)
  {
    var m := |text| - 1;
    forall k | 0 <= k < m
      ensures text[..m][m - 1 - k] == DigitAt(n / 10, k)
    {
      DigitShifted(n, k);
      assert text[..m][m - 1 - k] == text[|text| - 1 - (k + 1)];
    }
    assert text[|text| - 1 - 0] == DigitAt(n, 0);
  }

  /** The digits of n spell it, and the first of several is not 0. */
  lemma {:induction false} DigitsSpelled(n: nat)
    ensures Spells(Digits(n), n) && (|Digits(n)| > 1 ==> Digits(n)[0] != '0')
  {
    LastDigit(n);
    if n >= 10 {
      DigitsSpelled(n / 10);
      SpelledBehind(Digits(n / 10), DigitChar(n % 10), n);
      assert n / 10 < 10 ==> Digits(n / 10) == [DigitChar(n / 10)];
    } else {
      assert Spells("", n / 10);
      SpelledBehind("", DigitChar(n), n);
      assert "" + [DigitChar(n)] == Digits(n);
    }
  }

  lemma {:induction false} ValueOfSpelled(text: string, n: nat)
    requires Spells(text, n)
    ensures Value(text) == n && forall i :: 0 <= i < |text| ==> IsDigit(text[i])
  {
    if text == "" {
    } else {
      SpelledInFront(text, n);
      ValueOfSpelled(text[..|text| - 1], n / 10);
      LastDigit(n);
      assert forall i :: 0 <= i < |text| - 1 ==> text[..|text| - 1][i] == text[i];
    }
  }

  predicate StartsWithDigit(s: string) {
    s != "" && s[0] in "0123456789"
  }

  lemma {:induction false} OnlyDigits(s: string)
    ensures StartsWithDigit(s) <==> s != "" && IsDigit(s[0])
  {
    if s != "" && IsDigit(s[0]) {
      assert s[0] == "0123456789"[DigitValue(s[0])];
    }
  }

  lemma {:induction false} RunThenRest(digits: string, rest: string)
    requires forall i :: 0 <= i < |digits| ==> IsDigit(digits[i])
    requires !StartsWithDigit(rest)
    ensures DigitRun(digits + rest) == |digits|
  {
    if digits == "" {
      assert digits + rest == rest;
      OnlyDigits(rest);
    } else {
      RunThenRest(digits[1..], rest);
      assert (digits + rest)[1..] == digits[1..] + rest;
    }
  }

  lemma {:induction false} SpacesSkipped(spaces: string, rest: string)
    requires forall i :: 0 <= i < |spaces| ==> spaces[i] as int in {9, 10, 11, 12, 13, 32}
    requires rest == "" || rest[0] as int !in {9, 10, 11, 12, 13, 32}
    ensures SkipSpaces(spaces + rest) == rest
  {
    if spaces == "" {
      assert spaces + rest == rest;
    } else {
      SpacesSkipped(spaces[1..], rest);
      assert (spaces + rest)[1..] == spaces[1..] + rest;
    }
  }

  /** An integer past either end of the 32-bit range counts as that end. */
  function Clamped(v: int): int {
    if v > 2_147_483_647 then 2_147_483_647 else if v < -2_147_483_648 then -2_147_483_648 else v
  }

  lemma {:induction false} UnsignedSpelled(digits: string, rest: string, n: nat)
    requires Spells(digits, n) && !StartsWithDigit(rest)
    ensures Unsigned(digits + rest) == n
  {
    ValueOfSpelled(digits, n);
    RunThenRest(digits, rest);
    assert (digits + rest)[..|digits|] == digits;
  }

  /**
   What atoi makes of any text: white space, an optional sign, digits that spell
   n (none, for 0) and a rest that goes on with no digit. The other requirements
   only say that the text has been cut up where it should be.
   */
  lemma {:induction false} AtoiReads(spaces: string, sign: string, digits: string, rest: string, n: nat)
    requires forall i :: 0 <= i < |spaces| ==> spaces[i] as int in {9, 10, 11, 12, 13, 32}
    requires sign in ["", "-", "+"] && Spells(digits, n) && !StartsWithDigit(rest)
    requires sign == "" && digits == "" && rest != "" ==> rest[0] as int !in {9, 10, 11, 12, 13, 32} && rest[0] !in "+-"
    ensures Atoi(spaces + (sign + (digits + rest))) == Clamped(if sign == "-" then -(n as int) else n)
  {
    var tail := digits + rest;
    UnsignedSpelled(digits, rest, n);
    if sign == "" {
      assert sign + tail == tail;
      FirstOf(digits, rest, n);
    } else {
      assert (sign + tail)[0] == sign[0] && (sign + tail)[1..] == tail;
    }
    SpacesSkipped(spaces, sign + tail);
  }

  lemma {:induction false} FirstOf(digits: string, rest: string, n: nat)
    requires Spells(digits, n)
    ensures digits == "" ==> digits + rest == rest
    ensures digits != "" ==> (digits + rest)[0] == digits[0] && IsDigit(digits[0])
  {
    ValueOfSpelled(digits, n);
  }

  /** Printing and reading back undo each other exactly for the values that fit; any other comes back changed. */
  lemma PrintThenParse(v: int32)
    ensures Atoi(Printed(v)) == v <==> Fits(v)
  {
    PrintedWhole(v);
    AtoiOfSigned(v);
    if !Fits(v) {
      if v < 0 {
        CutNegative(v);
      } else {
        CutPositive(v);
      }
    }
  }

  /** The first values past either end do not come back. */
  lemma FirstValuesCut()
    ensures Atoi(Printed(1_000_000_000)) != 1_000_000_000 && Atoi(Printed(-100_000_000)) != -100_000_000
  {
    PrintThenParse(1_000_000_000);
    PrintThenParse(-100_000_000);
  }
}
