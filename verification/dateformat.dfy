/** `date.strftime("%d.%m.%Y")`: the date text that keys each day's rates and
    goes into the upstream query. */
module DateFormat {
  import opened Wrappers
  import opened Decimal
  import opened Calendar

  /** `%d` / `%m`: two digits, zero-padded. */
  function Pad2(n: nat): (s: string)
    requires n < 100
    ensures |s| == 2 && AllDigits(s)
  {
    [DigitChar(n / 10), DigitChar(n % 10)]
  }

  /** `%Y` is the decimal year; for years below 1000 the C library pads no
      zeros, so the year is written without padding. */
  function Format(d: Date): (s: string)
    requires Valid(d)
    ensures 7 <= |s| <= 10 && s[2] == '.' && s[5] == '.'
    ensures AllDigits(s[..2]) && AllDigits(s[3..5]) && AllDigits(s[6..])
    ensures 1000 <= d.year ==> |s| == 10
  {
    FourDigits(d.year);
    Pad2(d.day) + "." + Pad2(d.month) + "." + NatToDecimal(d.year)
  }

  /** Reads `dd.mm.yyyy` text back into a date; `None` for any text that is
      not the formatting of a valid date's fields. */
  function Parse(s: string): (r: Option<Date>)
    ensures r.Some? ==> Valid(r.value)
  {
    if |s| < 7 || s[2] != '.' || s[5] != '.' then None
    else if !AllDigits(s[..2]) || !AllDigits(s[3..5]) || !AllDigits(s[6..]) then None
    else
      var d := Date(Value(s[6..]), Value(s[3..5]), Value(s[..2]));
      if Valid(d) then Some(d) else None
  }

  lemma Pad2Value(n: nat)
    requires n < 100
    ensures Value(Pad2(n)) == n
  {
    var s := Pad2(n);
    assert s[..1][..0] == [];
    assert s[..1] == [DigitChar(n / 10)];
    assert Value(s[..1]) == n / 10;
    assert Value(s) == Value(s[..1]) * 10 + n % 10;
  }

  /** Parsing undoes formatting. */
  lemma ParseFormat(d: Date)
    requires Valid(d)
    ensures Parse(Format(d)) == Some(d)
  {
    var s := Format(d);
    var y := NatToDecimal(d.year);
    assert s == Pad2(d.day) + "." + Pad2(d.month) + "." + y;
    assert s[..2] == Pad2(d.day);
    assert s[3..5] == Pad2(d.month);
    assert s[6..] == y;
    Pad2Value(d.day);
    Pad2Value(d.month);
  }

  /** Different valid dates format differently, so the date text identifies
      the day. */
  lemma FormatInjective(a: Date, b: Date)
    requires Valid(a) && Valid(b) && Format(a) == Format(b)
    ensures a == b
  {
    ParseFormat(a);
    ParseFormat(b);
  }
}
