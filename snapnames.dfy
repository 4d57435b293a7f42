/** Snapshot names: a timestamp written with the format
    `%Y-%m-%d_%H-%M-%S` and read back with `datetime.strptime`
    (packages/bcachefs-snap/bcachefs-snap.py). */
module SnapNames {
  import opened Wrappers
  import opened Text
  import opened Calendar

  /** `strftime("%Y-%m-%d_%H-%M-%S")`: every field zero-padded, the year to
      four digits and the others to two. */
  function FormatName(t: DateTime): string
    requires Valid(t)
  {
    ZeroPad(t.year, 4) + "-" + ZeroPad(t.month, 2) + "-" + ZeroPad(t.day, 2) + "_"
      + ZeroPad(t.hour, 2) + "-" + ZeroPad(t.minute, 2) + "-" + ZeroPad(t.second, 2)
  }

  /** The number of leading ASCII digits of `s`. */
  function DigitRun(s: string): (n: nat)
    ensures n <= |s| && AllDigits(s[..n])
    ensures n == |s| || !IsDigit(s[n])
  {
    if s == [] || !IsDigit(s[0]) then 0
    else
      var n := 1 + DigitRun(s[1..]);
      assert s[..n] == [s[0]] + s[1..][..n - 1];
      n
  }

  /** One numeric field of one or two digits followed by `sep`: its value and
      the text after `sep`. (Each of `%m`, `%d`, `%H`, `%M`, `%S` matches at
      most two digits.) */
  function Field(s: string, sep: char): (r: Option<(nat, string)>)
    ensures r.Some? ==> r.value.0 < 100 && |r.value.1| < |s|
  {
    var n := DigitRun(s);
    if 1 <= n <= 2 && n < |s| && s[n] == sep then
      assert DigitsValue(s[..n]) < 100 by { DigitsValueBelow(s[..n]); }
      Some((DigitsValue(s[..n]), s[n + 1..]))
    else None
  }

  /** The day field: like `Field`, but `%d` also accepts a space followed by
      one non-zero digit. */
  function DayField(s: string): (r: Option<(nat, string)>)
    ensures r.Some? ==> r.value.0 < 100 && |r.value.1| < |s|
  {
    if |s| >= 3 && s[0] == ' ' && '1' <= s[1] <= '9' && s[2] == '_' then
      Some((DigitValue(s[1]), s[3..]))
    else Field(s, '_')
  }

  /** `datetime.strptime(name, "%Y-%m-%d_%H-%M-%S")`, `None` standing for the
      `ValueError` it raises: `%Y` is exactly four digits, the other fields
      one or two (the day also " d"), the whole name must be consumed, and
      the fields must form a valid date and time. */
  function ParseName(s: string): (r: Option<DateTime>)
    ensures r.Some? ==> Valid(r.value)
  {
    if |s| < 5 || !AllDigits(s[..4]) || s[4] != '-' then None
    else
      assert DigitsValue(s[..4]) <= 9999 by { DigitsValueBelow(s[..4]); }
      AfterYear(DigitsValue(s[..4]), s[5..])
  }

  /** The fields after `%Y-`. */
  function AfterYear(year: int, s0: string): (r: Option<DateTime>)
    requires year <= 9999
    ensures r.Some? ==> Valid(r.value)
  {
    var (month, s1) :- Field(s0, '-');
    var (day, s2) :- DayField(s1);
    var (hour, s3) :- Field(s2, '-');
    var (minute, s4) :- Field(s3, '-');
    if !(1 <= |s4| <= 2 && AllDigits(s4)) then None
    else Checked(DateTime(year, month, day, hour, minute, DigitsValue(s4)))
  }

  /** The range checks of `strptime` and of the `datetime` constructor. */
  function Checked(t: DateTime): (r: Option<DateTime>)
    requires t.year <= 9999 && t.month >= 0 && t.day >= 0 && t.hour >= 0 && t.minute >= 0 && t.second >= 0
    ensures r.Some? <==> Valid(t)
    ensures r.Some? ==> r.value == t
  {
    if Valid(t) then Some(t) else None
  }

  lemma FieldOf(d: string, sep: char, rest: string)
    requires AllDigits(d) && 1 <= |d| <= 2 && !IsDigit(sep)
    ensures Field(d + [sep] + rest, sep) == Some((DigitsValue(d), rest))
  {
    var s := d + [sep] + rest;
    assert s == d + ([sep] + rest);
    DigitRunOf(d, [sep] + rest);
    assert DigitRun(s) == |d|;
    assert s[..|d|] == d && s[|d|] == sep && s[|d| + 1..] == rest;
  }

  lemma {:induction false} DigitRunOf(d: string, rest: string)
    requires AllDigits(d) && (rest == [] || !IsDigit(rest[0]))
    ensures DigitRun(d + rest) == |d|
  {
    if d != [] {
      assert (d + rest)[1..] == d[1..] + rest;
      DigitRunOf(d[1..], rest);
    }
  }

  /** Writing a timestamp as a snapshot name and parsing the name gives the
      timestamp back (for four-digit years, where `%Y` needs no padding). */
  lemma ParseFormatName(t: DateTime)
    requires Valid(t) && t.year >= 1000
    ensures ParseName(FormatName(t)) == Some(t)
  {
    ZeroPadLength(t.year, 4);
    ZeroPadLength(t.month, 2);
    ZeroPadLength(t.day, 2);
    ZeroPadLength(t.hour, 2);
    ZeroPadLength(t.minute, 2);
    ZeroPadLength(t.second, 2);
    ParseFields(ZeroPad(t.year, 4), ZeroPad(t.month, 2), ZeroPad(t.day, 2),
                ZeroPad(t.hour, 2), ZeroPad(t.minute, 2), ZeroPad(t.second, 2));
  }

  /** Parsing six digit fields laid out as the format lays them out. */
  lemma ParseFields(y: string, mo: string, d: string, h: string, mi: string, se: string)
    requires |y| == 4 && |mo| == 2 && |d| == 2 && |h| == 2 && |mi| == 2 && |se| == 2
    requires AllDigits(y) && AllDigits(mo) && AllDigits(d) && AllDigits(h) && AllDigits(mi) && AllDigits(se)
    requires Valid(DateTime(DigitsValue(y), DigitsValue(mo), DigitsValue(d),
                            DigitsValue(h), DigitsValue(mi), DigitsValue(se)))
    ensures ParseName(y + "-" + mo + "-" + d + "_" + h + "-" + mi + "-" + se)
         == Some(DateTime(DigitsValue(y), DigitsValue(mo), DigitsValue(d),
                          DigitsValue(h), DigitsValue(mi), DigitsValue(se)))
  {
    YearStep(y, mo + "-" + d + "_" + h + "-" + mi + "-" + se);
    AfterYearFields(DigitsValue(y), mo, d, h, mi, se);
    Reassociate(y, mo, d, h, mi, se);
  }

  lemma Reassociate(y: string, mo: string, d: string, h: string, mi: string, se: string)
    ensures y + "-" + mo + "-" + d + "_" + h + "-" + mi + "-" + se
         == y + "-" + (mo + "-" + d + "_" + h + "-" + mi + "-" + se)
  {
  }

  lemma YearStep(y: string, s0: string)
    requires |y| == 4 && AllDigits(y)
    ensures DigitsValue(y) <= 9999
    ensures ParseName(y + "-" + s0) == AfterYear(DigitsValue(y), s0)
  {
    DigitsValueBelow(y);
    var s := y + "-" + s0;
    assert s[..4] == y && s[4] == '-' && s[5..] == s0;
  }

  lemma AfterYearFields(year: int, mo: string, d: string, h: string, mi: string, se: string)
    requires |mo| == 2 && |d| == 2 && |h| == 2 && |mi| == 2 && |se| == 2
    requires AllDigits(mo) && AllDigits(d) && AllDigits(h) && AllDigits(mi) && AllDigits(se)
    requires Valid(DateTime(year, DigitsValue(mo), DigitsValue(d),
                            DigitsValue(h), DigitsValue(mi), DigitsValue(se)))
    ensures AfterYear(year, mo + "-" + d + "_" + h + "-" + mi + "-" + se)
         == Some(DateTime(year, DigitsValue(mo), DigitsValue(d),
                          DigitsValue(h), DigitsValue(mi), DigitsValue(se)))
  {
    var s3 := mi + "-" + se;
    var s2 := h + "-" + s3;
    var s1 := d + "_" + s2;
    var s0 := mo + "-" + s1;
    assert s0 == mo + "-" + d + "_" + h + "-" + mi + "-" + se;
    FieldOf(mo, '-', s1);
    FieldOf(d, '_', s2);
    assert DayField(s1) == Field(s1, '_');
    FieldOf(h, '-', s3);
    FieldOf(mi, '-', se);
    AfterYearSteps(year, s0, s1, s2, s3, se,
                   DigitsValue(mo), DigitsValue(d), DigitsValue(h), DigitsValue(mi));
  }

  lemma AfterYearSteps(year: int, s0: string, s1: string, s2: string, s3: string, s4: string,
                       month: nat, day: nat, hour: nat, minute: nat)
    requires year <= 9999
    requires Field(s0, '-') == Some((month, s1))
    requires DayField(s1) == Some((day, s2))
    requires Field(s2, '-') == Some((hour, s3))
    requires Field(s3, '-') == Some((minute, s4))
    requires 1 <= |s4| <= 2 && AllDigits(s4)
    ensures AfterYear(year, s0) == Checked(DateTime(year, month, day, hour, minute, DigitsValue(s4)))
  {
  }
}
