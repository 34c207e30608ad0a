/**
 * Numeric tokens: the integer part of JavaScript's `Number(token)` that the
 * dashboard uses on payload fields, and Rust's decimal `{}` formatting of
 * unsigned integers that the demo publisher writes into them.
 */
module Numbers {
  import opened Wrappers

  /** The characters `Number()` strips from both ends (WhiteSpace and LineTerminator). */
  predicate IsJsSpace(c: char)
  {
    var n := c as int;
    n == 0x09 || n == 0x0A || n == 0x0B || n == 0x0C || n == 0x0D || n == 0x20
    || n == 0xA0 || n == 0x1680 || (0x2000 <= n <= 0x200A)
    || n == 0x2028 || n == 0x2029 || n == 0x202F || n == 0x205F || n == 0x3000 || n == 0xFEFF
  }

  function TrimStart(s: string): (r: string)
    ensures |r| <= |s|
  {
    if |s| > 0 && IsJsSpace(s[0]) then TrimStart(s[1..]) else s
  }

  function TrimEnd(s: string): (r: string)
    ensures |r| <= |s|
  {
    if |s| > 0 && IsJsSpace(s[|s| - 1]) then TrimEnd(s[..|s| - 1]) else s
  }

  function Trim(s: string): (r: string)
    ensures |r| <= |s|
  {
    TrimEnd(TrimStart(s))
  }

  predicate AllSpace(w: string)
  {
    forall i :: 0 <= i < |w| ==> IsJsSpace(w[i])
  }

  /** `TrimStart` drops exactly the leading run of whitespace. */
  lemma {:induction false} TrimStartDrops(s: string)
    ensures var k := |s| - |TrimStart(s)|;
      TrimStart(s) == s[k..] && AllSpace(s[..k]) && (k < |s| ==> !IsJsSpace(s[k]))
    decreases |s|
  {
    if |s| > 0 && IsJsSpace(s[0]) {
      TrimStartDrops(s[1..]);
      var k := |s| - |TrimStart(s)|;
      assert s[1..][k - 1..] == s[k..];
      assert forall i :: 1 <= i < k ==> s[i] == s[1..][..k - 1][i - 1];
    }
  }

  /** `TrimEnd` drops exactly the trailing run of whitespace. */
  lemma {:induction false} TrimEndDrops(s: string)
    ensures var m := |TrimEnd(s)|;
      TrimEnd(s) == s[..m] && AllSpace(s[m..]) && (m > 0 ==> !IsJsSpace(s[m - 1]))
    decreases |s|
  {
    if |s| > 0 && IsJsSpace(s[|s| - 1]) {
      var p := s[..|s| - 1];
      TrimEndDrops(p);
      var m := |TrimEnd(s)|;
      assert p[..m] == s[..m];
      assert forall i :: m <= i < |s| - 1 ==> s[i] == p[m..][i - m];
    }
  }

  /**
   * `Number()` sees the token with its surrounding whitespace removed: the
   * token is whitespace, then `Trim(s)`, then whitespace, and `Trim(s)`
   * neither starts nor ends with whitespace.
   */
  lemma TrimStrips(s: string) returns (w1: string, w2: string)
    ensures s == w1 + Trim(s) + w2 && AllSpace(w1) && AllSpace(w2)
    ensures |Trim(s)| > 0 ==> !IsJsSpace(Trim(s)[0]) && !IsJsSpace(Trim(s)[|Trim(s)| - 1])
  {
    var t := TrimStart(s);
    TrimStartDrops(s);
    TrimEndDrops(t);
    var k, m := |s| - |t|, |Trim(s)|;
    w1, w2 := s[..k], t[m..];
    assert t == t[..m] + t[m..];
    assert s == s[..k] + s[k..];
  }

  /** Whitespace around the digits is ignored: `Number(" 12 ")` is 12. */
  lemma ParsePadded()
    ensures ParseNumber(" 12 ") == Some(12)
  {
    assert TrimStart(" 12 ") == TrimStart("12 ") == "12 ";
    assert TrimEnd("12 ") == TrimEnd("12") == "12";
    assert DigitsValue("12") == 12 by {
      assert "12"[..1] == "1";
    }
  }

  predicate IsDigit(c: char)
  {
    '0' <= c <= '9'
  }

  /** A non-empty run of decimal digits. */
  predicate IsDigits(s: string)
  {
    |s| > 0 && forall i :: 0 <= i < |s| ==> IsDigit(s[i])
  }

  function DigitOf(c: char): nat
    requires IsDigit(c)
  {
    c as int - '0' as int
  }

  /** The value of a run of decimal digits, read most significant first. */
  function DigitsValue(s: string): nat
    requires forall i :: 0 <= i < |s| ==> IsDigit(s[i])
  {
    if |s| == 0 then 0
    else DigitsValue(s[..|s| - 1]) * 10 + DigitOf(s[|s| - 1])
  }

  /**
   * `Number(token)` restricted to integers: surrounding white space is
   * ignored, an empty token is 0 (as in JavaScript), and an optionally signed
   * run of decimal digits is its value. Anything else, which JavaScript would
   * turn into NaN or into a non-integer, is absent.
   */
  function ParseNumber(token: string): Option<int>
  {
    var t := Trim(token);
    if |t| == 0 then Some(0)
    else if (t[0] == '-' || t[0] == '+') && IsDigits(t[1..]) then
      Some(if t[0] == '-' then -(DigitsValue(t[1..]) as int) else DigitsValue(t[1..]))
    else if IsDigits(t) then Some(DigitsValue(t))
    else None
  }

  function DigitChar(d: nat): (c: char)
    requires d < 10
    ensures IsDigit(c) && DigitOf(c) == d
  {
    ('0' as int + d) as char
  }

  /** Rust's `format!("{}", n)` for an unsigned integer: its decimal digits, no leading zeros. */
  function Decimal(n: nat): (s: string)
    ensures IsDigits(s)
    ensures s[0] == '0' ==> n == 0
  {
    if n < 10 then [DigitChar(n)] else Decimal(n / 10) + [DigitChar(n % 10)]
  }

  /** Reading back the formatted digits gives the number. */
  lemma {:induction false} DecimalValue(n: nat)
    ensures DigitsValue(Decimal(n)) == n
  {
    var s := Decimal(n);
    if n >= 10 {
      DecimalValue(n / 10);
      assert s[..|s| - 1] == Decimal(n / 10);
    } else {
      assert s[..0] == [];
    }
  }

  /** A run of digits has no white space to trim. */
  lemma TrimDigits(s: string)
    requires IsDigits(s)
    ensures Trim(s) == s
  {
    assert !IsJsSpace(s[0]);
    assert TrimStart(s) == s;
    assert !IsJsSpace(s[|s| - 1]);
  }

  /** `Number(String(n)) == n` for every unsigned integer. */
  lemma ParseDecimal(n: nat)
    ensures ParseNumber(Decimal(n)) == Some(n)
  {
    var s := Decimal(n);
    TrimDigits(s);
    DecimalValue(n);
    assert IsDigit(s[0]);
  }

  /** A minus sign in front negates the value. */
  lemma ParseNegativeDecimal(n: nat)
    ensures ParseNumber("-" + Decimal(n)) == Some(-(n as int))
  {
    var d := Decimal(n);
    var s := "-" + d;
    assert !IsJsSpace(s[0]) && TrimStart(s) == s;
    assert s[|s| - 1] == d[|d| - 1];
    assert !IsJsSpace(s[|s| - 1]) && Trim(s) == s;
    assert s[1..] == d;
    DecimalValue(n);
  }

  /** `Math.max` on integers. */
  function Max(a: int, b: int): int
  {
    if a < b then b else a
  }

  /** `Math.min` on integers. */
  function Min(a: int, b: int): int
  {
    if a < b then a else b
  }
}
