/**
 * The parts of C++ integer and character semantics that the building
 * footprint engine relies on, written out explicitly: 32-bit two's-complement
 * wrap-around, `/` and `%` that truncate toward zero, `std::to_string` on
 * `int`, `std::stoi`, and the C-locale `isalnum`, `isspace` and `tolower`.
 */
module CppInt {
  import opened Wrappers

  const INT_MAX: int := 0x7fff_ffff
  const INT_MIN: int := -0x8000_0000
  const TWO_32: int := 0x1_0000_0000

  predicate IsInt32(x: int) {
    INT_MIN <= x <= INT_MAX
  }

  /** std::min and std::max on int. */
  function Min(a: int, b: int): int {
    if b < a then b else a
  }

  function Max(a: int, b: int): int {
    if a < b then b else a
  }

  function Abs(x: int): nat {
    if x < 0 then -x else x
  }

  /** The value a 32-bit two's-complement addition leaves behind. */
  function Wrap32(x: int): (r: int)
    ensures IsInt32(r)
    ensures (x - r) % TWO_32 == 0
    ensures IsInt32(x) ==> r == x
  {
    (x - INT_MIN) % TWO_32 + INT_MIN
  }

  /** C++ integer division: the exact quotient rounded toward zero. */
  function TruncDiv(a: int, b: int): (q: int)
    requires b != 0
    ensures Abs(q) == Abs(a) / Abs(b)
    ensures q < 0 ==> (a < 0) != (b < 0)
    ensures q > 0 ==> (a < 0) == (b < 0)
  {
    var m: int := NatDiv(Abs(a), Abs(b));
    if (a < 0) != (b < 0) then -m else m
  }

  /** Division of naturals, whose quotient is again a natural. */
  function NatDiv(x: nat, y: nat): (m: nat)
    requires y > 0
    ensures m == x / y
  {
    x / y
  }

  /** C++ remainder: `a - b * (a / b)`, which keeps the sign of the dividend. */
  function CRem(a: int, b: int): int
    requires b != 0
  {
    a - b * TruncDiv(a, b)
  }

  /** The C++ remainder modulo 2 is -1, 0 or 1: -1 exactly for negative odd numbers. */
  lemma CRemTwo(a: int)
    ensures CRem(a, 2) == (if a % 2 == 0 then 0 else if a < 0 then -1 else 1)
  {
    var m := Abs(a) / 2;
    if a < 0 {
      assert TruncDiv(a, 2) == -m;
      assert Abs(a) == -a;
    } else {
      assert TruncDiv(a, 2) == m;
    }
  }

  /** Truncating division by 2 only differs from floor division for negative odd numbers. */
  lemma TruncDivTwo(a: int)
    ensures TruncDiv(a, 2) == (if a < 0 && a % 2 != 0 then a / 2 + 1 else a / 2)
  {
  }

  // ---------------------------------------------------------------------
  // Characters (C locale)

  predicate IsDigit(c: char) {
    '0' <= c <= '9'
  }

  predicate IsAlnum(c: char) {
    IsDigit(c) || 'a' <= c <= 'z' || 'A' <= c <= 'Z'
  }

  predicate IsSpace(c: char) {
    c == ' ' || c == '\t' || c == '\n' || c == '\r' || c == '\U{B}' || c == '\U{C}'
  }

  function ToLower(c: char): (r: char)
    ensures 'A' <= c <= 'Z' ==> 'a' <= r <= 'z'
    ensures !('A' <= c <= 'Z') ==> r == c
  {
    if 'A' <= c <= 'Z' then (c as int - 'A' as int + 'a' as int) as char else c
  }

  function DigitChar(d: nat): (c: char)
    requires d < 10
    ensures IsDigit(c)
  {
    ('0' as int + d) as char
  }

  function DigitValue(c: char): (d: nat)
    requires IsDigit(c)
    ensures d < 10
  {
    c as int - '0' as int
  }

  // ---------------------------------------------------------------------
  // std::to_string(int): decimal digits, with a leading '-' for negatives

  function NatToString(n: nat): (s: string)
    ensures |s| > 0
    ensures forall i :: 0 <= i < |s| ==> IsDigit(s[i])
  {
    if n < 10 then [DigitChar(n)] else NatToString(n / 10) + [DigitChar(n % 10)]
  }

  function IntToString(n: int): (s: string)
    ensures |s| > 0
    ensures (s[0] == '-') <==> n < 0
  {
    if n < 0 then "-" + NatToString(-n) else NatToString(n)
  }

  /** Reads back a run of decimal digits. */
  function DigitsValue(s: string): nat
    requires forall i :: 0 <= i < |s| ==> IsDigit(s[i])
  {
    if |s| == 0 then 0 else DigitsValue(s[..|s| - 1]) * 10 + DigitValue(s[|s| - 1])
  }

  lemma {:induction false} NatToStringRoundTrip(n: nat)
    ensures DigitsValue(NatToString(n)) == n
  {
    var s := NatToString(n);
    if n >= 10 {
      NatToStringRoundTrip(n / 10);
      assert s[..|s| - 1] == NatToString(n / 10);
    }
  }

  /** `std::to_string` on `int` is injective: it can be read back. */
  lemma IntToStringRoundTrip(n: int)
    ensures var s := IntToString(n);
      if s[0] == '-' then 0 - DigitsValue(s[1..]) == n else DigitsValue(s) == n
  {
    if n < 0 {
      NatToStringRoundTrip(-n);
      assert IntToString(n)[1..] == NatToString(-n);
    } else {
      NatToStringRoundTrip(n);
    }
  }

  // ---------------------------------------------------------------------
  // std::stoi: leading white space, an optional sign, at least one digit;
  // the rest of the string is ignored. Anything else throws
  // std::invalid_argument, a value outside `int` throws std::out_of_range.

  function SkipSpace(s: string): (r: string)
    ensures |r| <= |s| && r == s[|s| - |r|..]
    ensures |r| > 0 ==> !IsSpace(r[0])
  {
    if |s| > 0 && IsSpace(s[0]) then SkipSpace(s[1..]) else s
  }

  /** The length of the longest prefix of `s` made of digits. */
  function DigitPrefixLength(s: string): (n: nat)
    ensures n <= |s|
    ensures forall i :: 0 <= i < n ==> IsDigit(s[i])
    ensures n < |s| ==> !IsDigit(s[n])
  {
    if |s| > 0 && IsDigit(s[0]) then 1 + DigitPrefixLength(s[1..]) else 0
  }

  function StoI(s: string): (r: Option<int>)
    ensures r.Some? ==> IsInt32(r.value)
  {
    var t := SkipSpace(s);
    var negative := |t| > 0 && t[0] == '-';
    var u := if |t| > 0 && (t[0] == '-' || t[0] == '+') then t[1..] else t;
    var n := DigitPrefixLength(u);
    if n == 0 then None
    else
      var digits := u[..n];
      assert forall i :: 0 <= i < |digits| ==> digits[i] == u[i];
      var v: int := if negative then 0 - DigitsValue(digits) else DigitsValue(digits);
      if IsInt32(v) then Some(v) else None
  }

  /** `stoi` reads back what `to_string` wrote, for every `int`. */
  lemma StoIOfIntToString(n: int)
    requires IsInt32(n)
    ensures StoI(IntToString(n)) == Some(n)
  {
    var s := IntToString(n);
    IntToStringRoundTrip(n);
    assert !IsSpace(s[0]);
    assert SkipSpace(s) == s;
    if n < 0 {
      var u := s[1..];
      assert u == NatToString(-n);
      assert DigitPrefixLength(u) == |u| by { DigitPrefixAll(u); }
      assert u[..|u|] == u;
    } else {
      assert DigitPrefixLength(s) == |s| by { DigitPrefixAll(s); }
      assert s[..|s|] == s;
    }
  }

  lemma {:induction false} DigitPrefixAll(s: string)
    requires forall i :: 0 <= i < |s| ==> IsDigit(s[i])
    ensures DigitPrefixLength(s) == |s|
  {
    if |s| > 0 {
      DigitPrefixAll(s[1..]);
    }
  }
}
