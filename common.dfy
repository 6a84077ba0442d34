/** Value-level building blocks shared by the models: optional values, the
    32-bit integer arithmetic of the JVM, decimal text and one-character
    splitting as Kotlin performs it. */
module Common {

  /** A value that may be absent: a Java/Kotlin reference that may be null. */
  datatype Option<+T> = None | Some(value: T)

  /** Which twin of a Java/Kotlin pair a model instance follows, where the two
      are written differently. */
  datatype Flavor = Java | Kotlin

  /** `TextUtils.isEmpty`: null or the empty string. */
  predicate IsEmpty(s: Option<string>) {
    s.None? || s.value == ""
  }

  const INT32_MIN: int := -0x8000_0000
  const INT32_MAX: int := 0x7fff_ffff
  const TWO_TO_32: int := 0x1_0000_0000

  predicate IsInt32(x: int) {
    INT32_MIN <= x <= INT32_MAX
  }

  /** The value a JVM `int` holds after an arithmetic result `x` is
      truncated to 32 bits (two's complement wrap-around). */
  function Wrap32(x: int): (r: int)
    ensures IsInt32(r)
    ensures IsInt32(x) ==> r == x
    ensures x > INT32_MAX && x <= INT32_MAX + TWO_TO_32 ==> r == x - TWO_TO_32
  {
    (x - INT32_MIN) % TWO_TO_32 + INT32_MIN
  }

  function Abs(x: int): nat {
    if x < 0 then -x else x
  }

  /** JVM integer division `a / b`: the quotient is rounded toward zero. */
  function TruncDiv(a: int, b: int): int
    requires b != 0
  {
    if a >= 0 then
      if b > 0 then a / b else -(a / -b)
    else
      if b > 0 then -((-a) / b) else (-a) / (-b)
  }

  /** JVM integer remainder `a % b`: it takes the sign of `a`. */
  function TruncRem(a: int, b: int): int
    requires b != 0
  {
    a - TruncDiv(a, b) * b
  }

  /** Quotient and remainder of the JVM operators satisfy the division
      identity, the remainder is smaller than the divisor in magnitude and
      never has the opposite sign of the dividend; on a non-negative dividend
      and positive divisor they agree with mathematical division. */
  lemma TruncDivRem(a: int, b: int)
    requires b != 0
    ensures a == TruncDiv(a, b) * b + TruncRem(a, b)
    ensures Abs(TruncRem(a, b)) < Abs(b)
    ensures TruncRem(a, b) != 0 ==> (TruncRem(a, b) < 0 <==> a < 0)
    ensures a >= 0 && b > 0 ==> TruncDiv(a, b) == a / b && TruncRem(a, b) == a % b
  {
    if a >= 0 {
      if b > 0 {
      } else {
        assert TruncDiv(a, b) * b == (a / -b) * -b;
      }
    } else {
      if b > 0 {
        assert TruncDiv(a, b) * b == -(((-a) / b) * b);
      } else {
        assert TruncDiv(a, b) * b == ((-a) / (-b)) * -(-b);
      }
    }
  }

  // ---------------------------------------------------------------------
  // Decimal text

  predicate IsDigit(c: char) {
    '0' <= c <= '9'
  }

  predicate AllDigits(s: string) {
    forall i :: 0 <= i < |s| ==> IsDigit(s[i])
  }

  function DigitChar(d: int): (c: char)
    requires 0 <= d < 10
    ensures IsDigit(c)
  {
    (('0' as int) + d) as char
  }

  function DigitValue(c: char): (d: nat)
    requires IsDigit(c)
    ensures d < 10 && DigitChar(d) == c
  {
    (c as int) - ('0' as int)
  }

  /** The value of a non-empty-or-empty run of decimal digits, most
      significant first (the empty run is 0). */
  function DigitsValue(s: string): nat
    requires AllDigits(s)
  {
    if s == [] then 0 else DigitsValue(s[..|s| - 1]) * 10 + DigitValue(s[|s| - 1])
  }

  /** Decimal rendering of a natural number without leading zeros, as
      `Int.toString()` writes it. */
  function NatToString(n: nat): (s: string)
    ensures 1 <= |s|
    ensures AllDigits(s)
  {
    if n < 10 then [DigitChar(n)] else NatToString(n / 10) + [DigitChar(n % 10)]
  }

  /** Decimal rendering of any integer: a '-' before the magnitude when negative. */
  function IntToString(i: int): (s: string)
    ensures 1 <= |s|
  {
    if i < 0 then "-" + NatToString(-i) else NatToString(i)
  }

  lemma {:induction false} NatToStringValue(n: nat)
    ensures DigitsValue(NatToString(n)) == n
  {
    if n >= 10 {
      var s := NatToString(n);
      assert s[..|s| - 1] == NatToString(n / 10);
      NatToStringValue(n / 10);
    }
  }

  /** `String.toInt()` / `Integer.valueOf`: an optional '+' or '-', then one
      or more ASCII digits whose value fits a JVM `int`; anything else is a
      NumberFormatException, here `None`. */
  function ParseInt(s: string): (r: Option<int>)
    ensures r.Some? ==> IsInt32(r.value)
    ensures r.Some? ==> 1 <= |s|
  {
    if |s| == 0 then None
    else if s[0] == '-' || s[0] == '+' then
      if |s| == 1 || !AllDigits(s[1..]) then None
      else
        var v: int := if s[0] == '-' then -(DigitsValue(s[1..]) as int) else DigitsValue(s[1..]);
        if IsInt32(v) then Some(v) else None
    else if AllDigits(s) then
      var v := DigitsValue(s);
      if IsInt32(v) then Some(v) else None
    else None
  }

  /** Rendering an `int` in decimal and parsing it back gives the same `int`. */
  lemma IntToStringRoundTrip(i: int)
    requires IsInt32(i)
    ensures ParseInt(IntToString(i)) == Some(i)
  {
    if i < 0 {
      NatToStringValue(-i);
      assert IntToString(i)[1..] == NatToString(-i);
    } else {
      NatToStringValue(i);
    }
  }

  // ---------------------------------------------------------------------
  // Splitting and joining on a one-character separator

  /** Kotlin `split` with a regular expression matching one character:
      every occurrence of `sep` separates two pieces, and empty pieces
      (leading, inner and trailing) are kept, so the result is never empty. */
  function Split(s: string, sep: char): (parts: seq<string>)
    ensures 1 <= |parts|
    ensures forall i :: 0 <= i < |parts| ==> sep !in parts[i]
  {
    if s == [] then [""]
    else if s[0] == sep then [""] + Split(s[1..], sep)
    else
      var rest := Split(s[1..], sep);
      [[s[0]] + rest[0]] + rest[1..]
  }

  /** The pieces written one after another with `sep` between neighbours and
      none after the last one. */
  function Join(parts: seq<string>, sep: char): string
    requires 1 <= |parts|
  {
    if |parts| == 1 then parts[0] else parts[0] + [sep] + Join(parts[1..], sep)
  }

  lemma {:induction false} SplitNoSeparator(s: string, sep: char)
    requires sep !in s
    ensures Split(s, sep) == [s]
  {
    if s != [] {
      assert sep !in s[1..];
      SplitNoSeparator(s[1..], sep);
      assert [s[0]] + s[1..] == s;
    }
  }

  lemma {:induction false} SplitAfterPiece(p: string, sep: char, rest: string)
    requires sep !in p
    ensures Split(p + [sep] + rest, sep) == [p] + Split(rest, sep)
  {
    if p == [] {
      assert p + [sep] + rest == [sep] + rest;
      assert ([sep] + rest)[1..] == rest;
    } else {
      var s := p + [sep] + rest;
      assert s[0] == p[0];
      assert s[1..] == p[1..] + [sep] + rest;
      assert sep !in p[1..];
      SplitAfterPiece(p[1..], sep, rest);
      assert [p[0]] + p[1..] == p;
    }
  }

  /** Splitting what `Join` wrote gives back the pieces, provided no piece
      contains the separator. */
  lemma {:induction false} SplitJoin(parts: seq<string>, sep: char)
    requires 1 <= |parts|
    requires forall i :: 0 <= i < |parts| ==> sep !in parts[i]
    ensures Split(Join(parts, sep), sep) == parts
  {
    if |parts| == 1 {
      SplitNoSeparator(parts[0], sep);
    } else {
      SplitJoin(parts[1..], sep);
      SplitAfterPiece(parts[0], sep, Join(parts[1..], sep));
      assert [parts[0]] + parts[1..] == parts;
    }
  }

  /** Joining the pieces of a split gives back the original text. */
  lemma {:induction false} JoinSplit(s: string, sep: char)
    ensures Join(Split(s, sep), sep) == s
  {
    if s != [] {
      JoinSplit(s[1..], sep);
      var rest := Split(s[1..], sep);
      if s[0] == sep {
        assert Split(s, sep)[1..] == rest;
      } else {
        var parts := Split(s, sep);
        assert parts[0] == [s[0]] + rest[0];
        if |rest| == 1 {
          assert [s[0]] + s[1..] == s;
        } else {
          assert parts[1..] == rest[1..];
          assert Join(rest, sep) == rest[0] + [sep] + Join(rest[1..], sep);
          assert [s[0]] + s[1..] == s;
        }
      }
    }
  }
  /** A character other than the separator that occurs in no piece does not
      occur in the joined text either. */
  lemma {:induction false} JoinAvoids(parts: seq<string>, sep: char, c: char)
    requires 1 <= |parts| && c != sep
    requires forall i :: 0 <= i < |parts| ==> c !in parts[i]
    ensures c !in Join(parts, sep)
  {
    if |parts| > 1 {
      JoinAvoids(parts[1..], sep, c);
    }
  }

  lemma DigitsAvoid(s: string, c: char)
    requires AllDigits(s) && !IsDigit(c)
    ensures c !in s
  {
  }

  /** Decimal text holds only digits and a leading '-'. */
  lemma IntToStringAvoids(i: int, c: char)
    requires c != '-' && !IsDigit(c)
    ensures c !in IntToString(i)
  {
    if i < 0 {
      DigitsAvoid(NatToString(-i), c);
      assert IntToString(i) == ['-'] + NatToString(-i);
    } else {
      DigitsAvoid(NatToString(i), c);
    }
  }

  lemma {:induction false} MulGrows(q: nat, d: nat)
    requires d >= 1
    ensures q <= q * d
  {
    if d > 1 {
      MulGrows(q, d - 1);
      assert q * d == q * (d - 1) + q;
    }
  }

  lemma DivShrinks(m: nat, d: nat)
    requires d >= 1
    ensures m / d <= m
  {
    var q := m / d;
    assert m == d * q + m % d;
    MulGrows(q, d);
  }

  /** Dividing toward zero never grows the magnitude. */
  lemma TruncDivShrinks(a: int, b: int)
    requires b != 0
    ensures Abs(TruncDiv(a, b)) <= Abs(a)
  {
    DivShrinks(Abs(a), Abs(b));
  }
}
