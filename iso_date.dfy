/** The release-date normalisation of the local detail scraper:
    `datetime.strptime(s, '%Y-%m-%d').strftime('%d/%m/%Y')`, keeping the raw
    text when parsing fails. */
module IsoDate {
  import opened Wrappers
  import opened Text

  datatype Date = Date(year: nat, month: nat, day: nat)

  predicate IsLeapYear(y: nat) {
    y % 4 == 0 && (y % 100 != 0 || y % 400 == 0)
  }

  function DaysInMonth(y: nat, m: nat): nat
    requires 1 <= m <= 12
  {
    if m == 2 then (if IsLeapYear(y) then 29 else 28)
    else if m == 4 || m == 6 || m == 9 || m == 11 then 30
    else 31
  }

  /** What `datetime(year, month, day)` accepts. */
  predicate IsValidDate(d: Date) {
    1 <= d.year <= 9999 && 1 <= d.month <= 12 && 1 <= d.day <= DaysInMonth(d.year, d.month)
  }

  /** The text `%m` consumes when a `-` follows: `1[0-2]|0[1-9]|[1-9]`. */
  predicate IsMonthField(m: string) {
    || (|m| == 1 && '1' <= m[0] <= '9')
    || (|m| == 2 && m[0] == '1' && '0' <= m[1] <= '2')
    || (|m| == 2 && m[0] == '0' && '1' <= m[1] <= '9')
  }

  /** A whole remainder that `%d` consumes with nothing left over:
      `3[01]|[12]\d|0[1-9]|[1-9]| [1-9]`, tried in that order. */
  predicate IsDayField(d: string) {
    || (|d| == 1 && '1' <= d[0] <= '9')
    || (|d| == 2 && d[0] == '3' && (d[1] == '0' || d[1] == '1'))
    || (|d| == 2 && (d[0] == '1' || d[0] == '2') && IsDigit(d[1]))
    || (|d| == 2 && d[0] == '0' && '1' <= d[1] <= '9')
    || (|d| == 2 && d[0] == ' ' && '1' <= d[1] <= '9')
  }

  function FieldValue(f: string): nat
    requires IsMonthField(f) || IsDayField(f)
  {
    if f[0] == ' ' then DigitsValue(f[1..]) else DigitsValue(f)
  }

  /** `datetime.strptime(s, '%Y-%m-%d')`: four digits of year, a dash, the
      month field, a dash, the day field, nothing after, and a date that
      exists; None where Python raises `ValueError`. */
  function ParseIso(s: string): (r: Option<Date>)
    ensures r.Some? ==> IsValidDate(r.value)
  {
    if |s| < 8 || !AllDigits(s[..4]) || s[4] != '-' then None
    else
      var monthEnd := if s[6] == '-' then 6 else 7;
      if s[monthEnd] != '-' then None
      else
        var month, day := s[5..monthEnd], s[monthEnd + 1..];
        if !IsMonthField(month) || !IsDayField(day) then None
        else
          var d := Date(DigitsValue(s[..4]), FieldValue(month), FieldValue(day));
          if IsValidDate(d) then Some(d) else None
  }

  /** A number below 100 as two digits, zero-padded (`%d`, `%m`). */
  function Pad2(n: nat): (r: string)
    requires n < 100
    ensures |r| == 2 && AllDigits(r)
  {
    [DigitChar(n / 10), DigitChar(n % 10)]
  }

  /** A year as four digits, zero-padded (`%Y`). */
  function Pad4(n: nat): (r: string)
    requires n < 10000
    ensures |r| == 4 && AllDigits(r)
  {
    [DigitChar(n / 10 / 10 / 10), DigitChar(n / 10 / 10 % 10), DigitChar(n / 10 % 10), DigitChar(n % 10)]
  }

  lemma Pad2Value(n: nat)
    requires n < 100
    ensures DigitsValue(Pad2(n)) == n
  {
    var s := Pad2(n);
    DigitsValueAppend([], s[0]);
    assert [] + [s[0]] == s[..1];
  }

  lemma Pad4Value(n: nat)
    requires n < 10000
    ensures DigitsValue(Pad4(n)) == n
  {
    var s := Pad4(n);
    DigitsValueAppend([], s[0]);
    assert [] + [s[0]] == s[..1];
    DigitsValueAppend(s[..1], s[1]);
    assert s[..1] + [s[1]] == s[..2];
    DigitsValueAppend(s[..2], s[2]);
    assert s[..2] + [s[2]] == s[..3];
    DigitsValueAppend(s[..3], s[3]);
    assert s[..3] + [s[3]] == s;
  }

  /** `date.strftime('%d/%m/%Y')` */
  function FormatDmy(d: Date): (r: string)
    requires IsValidDate(d)
    ensures |r| == 10 && r[2] == '/' && r[5] == '/'
  {
    Pad2(d.day) + "/" + Pad2(d.month) + "/" + Pad4(d.year)
  }

  /** The canonical ISO text of a date, `YYYY-MM-DD`. */
  function IsoText(d: Date): (r: string)
    requires IsValidDate(d)
    ensures |r| == 10
  {
    Pad4(d.year) + "-" + Pad2(d.month) + "-" + Pad2(d.day)
  }

  /** The release date as stored: reformatted when it parses, else the raw
      text unchanged. */
  function NormalizeReleaseDate(raw: string): (r: string)
    ensures ParseIso(raw).None? ==> r == raw
    ensures ParseIso(raw).Some? ==> |r| == 10 && r[2] == '/' && r[5] == '/'
  {
    match ParseIso(raw)
    case Some(d) => FormatDmy(d)
    case None => raw
  }

  /** Reading the canonical ISO text of a valid date gives the date back. */
  lemma ParseIsoRoundTrip(d: Date)
    requires IsValidDate(d)
    ensures ParseIso(IsoText(d)) == Some(d)
  {
    var s := IsoText(d);
    var m, dd := Pad2(d.month), Pad2(d.day);
    Pad4Value(d.year);
    Pad2Value(d.month);
    Pad2Value(d.day);
    assert s[..4] == Pad4(d.year);
    assert s[5..7] == m && s[8..] == dd;
    assert s[6] != '-';
  }

  /** The reformatted text carries the same day, month and year. */
  lemma FormatDmyFields(d: Date)
    requires IsValidDate(d)
    ensures var r := FormatDmy(d);
      && AllDigits(r[..2]) && DigitsValue(r[..2]) == d.day
      && AllDigits(r[3..5]) && DigitsValue(r[3..5]) == d.month
      && AllDigits(r[6..]) && DigitsValue(r[6..]) == d.year
  {
    var r := FormatDmy(d);
    Pad2Value(d.day);
    Pad2Value(d.month);
    Pad4Value(d.year);
    assert r[..2] == Pad2(d.day) && r[3..5] == Pad2(d.month) && r[6..] == Pad4(d.year);
  }

  /** A valid ISO date is turned into `DD/MM/YYYY` with the same fields. */
  lemma NormalizeIsoDate(d: Date)
    requires IsValidDate(d)
    ensures NormalizeReleaseDate(IsoText(d)) == FormatDmy(d)
  {
    ParseIsoRoundTrip(d);
  }

  /** The example of the detail fixture. */
  lemma NormalizeFixtureExample()
    ensures NormalizeReleaseDate("2025-11-17") == "17/11/2025"
  {
    NormalizeIsoDate(Date(2025, 11, 17));
    assert IsoText(Date(2025, 11, 17)) == "2025-11-17";
    assert FormatDmy(Date(2025, 11, 17)) == "17/11/2025";
  }

  /** A day that does not exist in its month makes `strptime` raise, so the
      raw text is kept. */
  lemma NormalizeKeepsImpossibleDay()
    ensures NormalizeReleaseDate("2025-02-29") == "2025-02-29"
  {
    var bad := "2025-02-29";
    Pad4Value(2025);
    Pad2Value(2);
    Pad2Value(29);
    assert bad[..4] == Pad4(2025);
    assert bad[5..7] == Pad2(2) && bad[8..] == Pad2(29);
    assert ParseIso(bad).None?;
  }
}
