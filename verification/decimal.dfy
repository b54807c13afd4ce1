/** Decimal text of integers: Python's `str(int)` and `int(str)` in base 10. */
module Decimal {
  import opened Wrappers
  import opened Text

  /** CPython (3.11 and later) refuses to convert a decimal string of more
      than this many digits to an int and raises ValueError instead. */
  const MaxStrDigits: nat := 4300

  predicate IsDigit(c: char) {
    '0' <= c <= '9'
  }

  predicate AllDigits(s: string) {
    forall i :: 0 <= i < |s| ==> IsDigit(s[i])
  }

  function DigitValue(c: char): (d: nat)
    requires IsDigit(c)
    ensures d < 10
  {
    c as int - '0' as int
  }

  function DigitChar(d: nat): (c: char)
    requires d < 10
    ensures IsDigit(c) && DigitValue(c) == d
  {
    ('0' as int + d) as char
  }

  /** The number a string of decimal digits denotes (most significant first). */
  function Value(s: string): nat
    requires AllDigits(s)
    decreases |s|
  {
    if s == [] then 0 else Value(s[..|s| - 1]) * 10 + DigitValue(s[|s| - 1])
  }

  /** The shortest decimal spelling of `n`: `str(n)` for a non-negative int.
      It reads back as `n` and has no leading zero. */
  function NatToDecimal(n: nat): (s: string)
    ensures |s| > 0 && AllDigits(s)
    ensures s[0] == '0' ==> n == 0
    ensures Value(s) == n
    decreases n
  {
    if n < 10 then [DigitChar(n)]
    else
      var p := NatToDecimal(n / 10);
      var s := p + [DigitChar(n % 10)];
      assert s[..|s| - 1] == p;
      s
  }

  /** Years up to 9999 take at most four characters, and exactly four from
      1000 on. */
  lemma {:induction false} FourDigits(n: nat)
    ensures n <= 9999 ==> |NatToDecimal(n)| <= 4
    ensures 1000 <= n <= 9999 ==> |NatToDecimal(n)| == 4
  {
    if 10 <= n <= 9999 {
      var a, b, c := n / 10, n / 10 / 10, n / 10 / 10 / 10;
      assert c <= 9 && |NatToDecimal(c)| == 1;
      assert b <= 99 && |NatToDecimal(b)| <= 2 && (10 <= b ==> |NatToDecimal(b)| == 2);
      assert a <= 999 && |NatToDecimal(a)| <= 3 && (100 <= a ==> |NatToDecimal(a)| == 3);
    }
  }

  /** `str(i)` for any int: a minus sign before the magnitude when negative. */
  function IntToString(i: int): string {
    if i < 0 then "-" + NatToDecimal(-i) else NatToDecimal(i)
  }

  /** `str(i)` contains no whitespace and is never empty. */
  lemma IntToStringIsWord(i: int)
    ensures IsWord(IntToString(i))
  {
  }

  /** The digit part accepted by `int()`: digits, with single underscores
      allowed only between two digits. */
  predicate DigitGroups(b: string) {
    && |b| > 0
    && IsDigit(b[0])
    && IsDigit(b[|b| - 1])
    && (forall i :: 0 <= i < |b| ==> IsDigit(b[i]) || b[i] == '_')
    && (forall i :: 0 <= i < |b| - 1 ==> b[i] == '_' ==> b[i + 1] != '_')
  }

  /** The digits of `b` with every underscore dropped. */
  function RemoveUnderscores(b: string): (ds: string)
    requires forall i :: 0 <= i < |b| ==> IsDigit(b[i]) || b[i] == '_'
    ensures AllDigits(ds) && |ds| <= |b|
    ensures AllDigits(b) ==> ds == b
  {
    if b == [] then []
    else if b[0] == '_' then RemoveUnderscores(b[1..])
    else [b[0]] + RemoveUnderscores(b[1..])
  }

  /** Character `i` of `s` is one that `int()` can accept there: a digit, an
      underscore, or a sign in front. */
  predicate IntChar(s: string, i: int)
    requires 0 <= i < |s|
  {
    IsDigit(s[i]) || s[i] == '_' || (i == 0 && (s[0] == '-' || s[0] == '+'))
  }

  /** `int(token)` for base 10 on a token without surrounding whitespace: an
      optional sign, then digit groups of at most `MaxStrDigits` digits.
      `None` stands for the ValueError that `int()` raises. */
  function ParseInt(s: string): (r: Option<int>)
    ensures r.Some? ==> |s| > 0 && IsDigit(s[|s| - 1])
    ensures r.Some? ==> forall i :: 0 <= i < |s| ==> IntChar(s, i)
    ensures r.Some? && r.value < 0 ==> s[0] == '-'
    ensures AllDigits(s) && 0 < |s| <= MaxStrDigits ==> r == Some(Value(s))
  {
    var negative := |s| > 0 && s[0] == '-';
    var body := if |s| > 0 && (s[0] == '-' || s[0] == '+') then s[1..] else s;
    if !DigitGroups(body) then None
    else
      var ds := RemoveUnderscores(body);
      if |ds| > MaxStrDigits then None
      else
        var magnitude: int := Value(ds);
        Some(if negative then -magnitude else magnitude)
  }

  /** `int(str(i)) == i` for every int whose spelling fits the digit limit. */
  lemma ParseIntToString(i: int)
    requires |NatToDecimal(if i < 0 then -i else i)| <= MaxStrDigits
    ensures ParseInt(IntToString(i)) == Some(i)
  {
    var s := IntToString(i);
    var ds := NatToDecimal(if i < 0 then -i else i);
    assert DigitGroups(ds) && RemoveUnderscores(ds) == ds;
    if i < 0 {
      assert s[0] == '-' && s[1..] == ds;
    } else {
      assert s == ds && IsDigit(s[0]);
    }
  }
}
