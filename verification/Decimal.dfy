/** Numbers as decimal text: `std::to_string` and `std::stoul`. */
module Decimal {
  import opened Common
  import opened Wire

  const ULONG_END: nat := 0x1_0000_0000_0000_0000
  const ZERO: byte := 48
  const MINUS: byte := 45
  const PLUS: byte := 43

  function ToText(n: nat): (s: Str)
    ensures s != []
  {
    if n < 10 then [ZERO + n] else ToText(n / 10) + [ZERO + n % 10]
  }

  function IntToText(n: int): Str {
    if n < 0 then [MINUS] + ToText(-n) else ToText(n)
  }

  predicate IsDigit(b: byte) {
    ZERO <= b < ZERO + 10
  }

  predicate IsSpace(b: byte) {
    b == 32 || 9 <= b <= 13
  }

  function SkipSpaces(s: Str): Str {
    if s != [] && IsSpace(s[0]) then SkipSpaces(s[1..]) else s
  }

  /** The digits at the front. */
  function Digits(s: Str): (d: Str)
    ensures forall i :: 0 <= i < |d| ==> IsDigit(d[i])
  {
    if s != [] && IsDigit(s[0]) then [s[0]] + Digits(s[1..]) else []
  }

  function Value(d: Str): nat
    requires forall i :: 0 <= i < |d| ==> IsDigit(d[i])
  {
    if d == [] then 0
    else
      assert IsDigit(d[|d| - 1]);
      10 * Value(d[..|d| - 1]) + (d[|d| - 1] - ZERO)
  }

  /** `std::stoul` with 64-bit `unsigned long`: leading space, a sign, digits, then anything. A
      minus sign negates modulo 2^64. `None` stands for the two exceptions. */
  function Stoul(s: Str): Option<nat> {
    Signed(SkipSpaces(s))
  }

  function Signed(t: Str): Option<nat> {
    if t != [] && t[0] == MINUS then Unsigned(Digits(t[1..]), true)
    else if t != [] && t[0] == PLUS then Unsigned(Digits(t[1..]), false)
    else Unsigned(Digits(t), false)
  }

  function Unsigned(d: Str, negate: bool): Option<nat>
    requires forall i :: 0 <= i < |d| ==> IsDigit(d[i])
  {
    if d == [] || Value(d) >= ULONG_END then None
    else if negate && Value(d) > 0 then Some(ULONG_END - Value(d))
    else Some(Value(d))
  }

  lemma {:induction false} TextDigits(n: nat)
    ensures forall i :: 0 <= i < |ToText(n)| ==> IsDigit(ToText(n)[i])
    ensures Value(ToText(n)) == n
  {
    if n < 10 {
      assert ToText(n)[..0] == [];
    } else {
      TextDigits(n / 10);
      var s := ToText(n);
      assert s[..|s| - 1] == ToText(n / 10);
    }
  }

  lemma {:induction false} AllDigits(d: Str, rest: Str)
    requires forall i :: 0 <= i < |d| ==> IsDigit(d[i])
    requires rest == [] || !IsDigit(rest[0])
    ensures Digits(d + rest) == d
  {
    if d == [] {
      assert d + rest == rest;
    } else {
      assert (d + rest)[1..] == d[1..] + rest;
      AllDigits(d[1..], rest);
    }
  }

  lemma {:induction false} SpacesSkipped(spaces: Str, s: Str)
    requires forall i :: 0 <= i < |spaces| ==> IsSpace(spaces[i])
    requires s == [] || !IsSpace(s[0])
    ensures SkipSpaces(spaces + s) == s
  {
    if spaces == [] {
      assert spaces + s == s;
    } else {
      assert (spaces + s)[1..] == spaces[1..] + s;
      SpacesSkipped(spaces[1..], s);
    }
  }

  lemma {:induction false} ZerosAreNothing(zeros: Str)
    requires forall i :: 0 <= i < |zeros| ==> zeros[i] == ZERO
    ensures Value(zeros) == 0
  {
    if zeros == [] {
    } else {
      ZerosAreNothing(zeros[..|zeros| - 1]);
    }
  }

  lemma {:induction false} LeadingZeros(zeros: Str, d: Str)
    requires forall i :: 0 <= i < |zeros| ==> zeros[i] == ZERO
    requires forall i :: 0 <= i < |zeros + d| ==> IsDigit((zeros + d)[i])
    requires forall i :: 0 <= i < |d| ==> IsDigit(d[i])
    ensures Value(zeros + d) == Value(d)
  {
    if d == [] {
      assert zeros + d == zeros;
      ZerosAreNothing(zeros);
    } else {
      var init := d[..|d| - 1];
      assert (zeros + d)[..|zeros + d| - 1] == zeros + init;
      LeadingZeros(zeros, init);
    }
  }

  /** A sign, digits, and something that is no digit. */
  lemma SignedReads(sign: Str, d: Str, rest: Str)
    requires sign == [] || sign == [PLUS] || sign == [MINUS]
    requires d != [] && forall i :: 0 <= i < |d| ==> IsDigit(d[i])
    requires rest == [] || !IsDigit(rest[0])
    ensures Signed(sign + (d + rest)) == Unsigned(d, sign == [MINUS])
  {
    AllDigits(d, rest);
    assert IsDigit(d[0]) && (d + rest)[0] == d[0];
    if sign == [] {
      assert sign + (d + rest) == d + rest;
    } else {
      assert (sign + (d + rest))[1..] == d + rest;
    }
  }

  /** What `stoul` makes of a number: behind any space, with or without a sign and leading zeros, in
      front of anything but a digit. A minus sign takes the number modulo 2^64, and a number of 2^64
      or more is refused. */
  lemma StoulReads(spaces: Str, sign: Str, zeros: Str, n: nat, rest: Str)
    requires forall i :: 0 <= i < |spaces| ==> IsSpace(spaces[i])
    requires sign == [] || sign == [PLUS] || sign == [MINUS]
    requires forall i :: 0 <= i < |zeros| ==> zeros[i] == ZERO
    requires rest == [] || !IsDigit(rest[0])
    ensures Stoul(spaces + (sign + ((zeros + ToText(n)) + rest))) ==
      if n >= ULONG_END then None
      else if sign == [MINUS] && n > 0 then Some(ULONG_END - n)
      else Some(n)
  {
    var text := ToText(n);
    TextDigits(n);
    var d := zeros + text;
    forall i | 0 <= i < |d| ensures IsDigit(d[i]) {
      assert i >= |zeros| ==> d[i] == text[i - |zeros|];
    }
    LeadingZeros(zeros, text);
    SignedReads(sign, d, rest);
    var t := sign + (d + rest);
    assert t[0] == if sign == [] then d[0] else sign[0];
    SpacesSkipped(spaces, t);
  }

  /** Without a digit behind space and sign there is no number. */
  lemma StoulNeedsDigits(spaces: Str, sign: Str, rest: Str)
    requires forall i :: 0 <= i < |spaces| ==> IsSpace(spaces[i])
    requires sign == [] || sign == [PLUS] || sign == [MINUS]
    requires rest == [] || !IsDigit(rest[0])
    requires sign == [] ==> rest == [] || (!IsSpace(rest[0]) && rest[0] != PLUS && rest[0] != MINUS)
    ensures Stoul(spaces + (sign + rest)) == None
  {
    SpacesSkipped(spaces, sign + rest);
    assert sign != [] ==> (sign + rest)[1..] == rest;
  }

  lemma StoulReadsText(n: nat)
    requires n < ULONG_END
    ensures Stoul(ToText(n)) == Some(n)
  {
    StoulReads([], [], [], n, []);
    assert [] + ([] + (([] + ToText(n)) + [])) == ToText(n);
  }

  /** `to_string` of a signed number: a minus sign in front of a negative one and of no other, then the
      number without its sign; two numbers never have the same text. */
  lemma IntTextReads(n: int)
    ensures IntToText(n) != [] && (IntToText(n)[0] == MINUS <==> n < 0)
    ensures n < 0 ==> IntToText(n)[1..] == IntToText(-n)
    ensures 0 <= n < ULONG_END ==> Stoul(IntToText(n)) == Some(n)
  {
    if n < 0 {
    } else {
      TextDigits(n);
      assert IsDigit(ToText(n)[0]);
      if n < ULONG_END {
        StoulReadsText(n);
      }
    }
  }

  lemma IntTextInjective(a: int, b: int)
    ensures IntToText(a) == IntToText(b) <==> a == b
  {
    if IntToText(a) == IntToText(b) {
      IntTextReads(a);
      IntTextReads(b);
      TextDigits(if a < 0 then -a else a);
      TextDigits(if b < 0 then -b else b);
      assert ToText(if a < 0 then -a else a) == ToText(if b < 0 then -b else b) by {
        assert a < 0 ==> IntToText(a)[1..] == ToText(-a);
        assert b < 0 ==> IntToText(b)[1..] == ToText(-b);
      }
    }
  }

  function Power10(k: nat): (p: nat)
    ensures p > 0
  {
    if k == 0 then 1 else 10 * Power10(k - 1)
  }

  lemma DivTwice(n: nat, p: nat)
    requires p > 0
    ensures n / 10 / p == n / (10 * p)
  {
    var q, r := n / 10 / p, n / 10 % p;
    assert n == 10 * (q * p + r) + n % 10;
    assert n == q * (10 * p) + (10 * r + n % 10);
    DivModUnique(n, 10 * p, q, 10 * r + n % 10);
  }

  /** The text is the decimal notation: counted from the end, digit `i` is that of 10^i, and only the
      number 0 begins with a zero. */
  lemma {:induction false} TextIsDecimal(n: nat, i: nat)
    requires i < |ToText(n)|
    ensures ToText(n)[|ToText(n)| - 1 - i] as int == ZERO as int + n / Power10(i) % 10
    ensures ToText(n)[0] == ZERO <==> n == 0
  {
    if n < 10 {
    } else {
      var shorter := ToText(n / 10);
      if i > 0 {
        TextIsDecimal(n / 10, i - 1);
        DivTwice(n, Power10(i - 1));
        assert ToText(n)[|ToText(n)| - 1 - i] == shorter[|shorter| - 1 - (i - 1)];
      } else {
        TextIsDecimal(n / 10, 0);
      }
      assert ToText(n)[0] == shorter[0];
    }
  }

  /** A number below 10^k has at most k digits; no digit is a NUL. */
  lemma {:induction false} TextFits(n: nat, k: nat)
    requires 0 < k && n < Power10(k)
    ensures |ToText(n)| <= k && 0 !in ToText(n)
  {
    TextDigits(n);
    if n < 10 {
    } else {
      assert k > 1 by {
        assert Power10(0) == 1 && Power10(1) == 10;
      }
      TextFits(n / 10, k - 1);
    }
  }

  lemma PidFits(pid: int)
    requires -0x8000_0000 <= pid < 0x8000_0000
    ensures |IntToText(pid)| <= 11 && 0 !in IntToText(pid)
  {
    assert Power10(10) == 10_000_000_000;
    TextFits(if pid < 0 then -pid else pid, 10);
  }

  lemma SizeFits(n: nat)
    requires n < ULONG_END
    ensures |ToText(n)| <= 20 && 0 !in ToText(n)
  {
    assert Power10(4) == 10_000;
    assert Power10(8) == 100_000_000;
    assert Power10(12) == 1_000_000_000_000;
    assert Power10(16) == 10_000_000_000_000_000;
    assert Power10(20) == 100_000_000_000_000_000_000;
    TextFits(n, 20);
  }
}
