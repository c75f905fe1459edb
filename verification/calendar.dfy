/** Proleptic Gregorian calendar dates, the step to the next day, a day
    number that turns date differences into integers, and the ISO
    `YYYY-MM-DD` form the planner uses as day identifiers. */
module Calendar {
  import opened Seqs

  datatype Date = Date(year: nat, month: int, day: int)

  predicate IsLeap(y: nat) {
    y % 4 == 0 && (y % 100 != 0 || y % 400 == 0)
  }

  function YearLength(y: nat): int {
    if IsLeap(y) then 366 else 365
  }

  function DaysInMonth(y: nat, m: int): (r: int)
    requires 1 <= m <= 12
    ensures 28 <= r <= 31
  {
    if m == 2 then (if IsLeap(y) then 29 else 28)
    else if m == 4 || m == 6 || m == 9 || m == 11 then 30
    else 31
  }

  predicate Valid(d: Date) {
    1 <= d.month <= 12 && 1 <= d.day <= DaysInMonth(d.year, d.month)
  }

  /** `setDate(getDate() + 1)`: the following calendar day. */
  function NextDay(d: Date): (r: Date)
    requires Valid(d)
    ensures Valid(r)
  {
    if d.day < DaysInMonth(d.year, d.month) then Date(d.year, d.month, d.day + 1)
    else if d.month < 12 then Date(d.year, d.month + 1, 1)
    else Date(d.year + 1, 1, 1)
  }

  /** Days in the years before `y`, counted from year 0. */
  function DaysBeforeYear(y: nat): nat {
    if y == 0 then 0 else DaysBeforeYear(y - 1) + YearLength(y - 1)
  }

  /** Days in the months of year `y` before month `m`. */
  function DaysBeforeMonth(y: nat, m: int): nat
    requires 1 <= m <= 13
  {
    if m == 1 then 0 else DaysBeforeMonth(y, m - 1) + DaysInMonth(y, m - 1)
  }

  /** The number of days from 0000-01-01 to `d`: the difference of two day
      numbers is the whole number of days between the dates. */
  function DayNumber(d: Date): int
    requires Valid(d)
  {
    DaysBeforeYear(d.year) + DaysBeforeMonth(d.year, d.month) + d.day - 1
  }

  /** The twelve months fill the year. */
  lemma MonthsFillYear(y: nat)
    ensures DaysBeforeMonth(y, 13) == YearLength(y)
  {
    var feb := DaysInMonth(y, 2);
    assert DaysBeforeMonth(y, 2) == 31;
    assert DaysBeforeMonth(y, 3) == 31 + feb;
    assert DaysBeforeMonth(y, 4) == 62 + feb;
    assert DaysBeforeMonth(y, 5) == 92 + feb;
    assert DaysBeforeMonth(y, 6) == 123 + feb;
    assert DaysBeforeMonth(y, 7) == 153 + feb;
    assert DaysBeforeMonth(y, 8) == 184 + feb;
    assert DaysBeforeMonth(y, 9) == 215 + feb;
    assert DaysBeforeMonth(y, 10) == 245 + feb;
    assert DaysBeforeMonth(y, 11) == 276 + feb;
    assert DaysBeforeMonth(y, 12) == 306 + feb;
  }

  /** The months before `m` leave room for month `m` within the year. */
  lemma {:induction false} MonthsBeforeBound(y: nat, m: int)
    requires 1 <= m <= 12
    ensures DaysBeforeMonth(y, m) + DaysInMonth(y, m) <= DaysBeforeMonth(y, 13)
    decreases 12 - m
  {
    if m < 12 {
      MonthsBeforeBound(y, m + 1);
    }
  }

  /** The next day has the next day number. */
  lemma NextDayNumber(d: Date)
    requires Valid(d)
    ensures DayNumber(NextDay(d)) == DayNumber(d) + 1
  {
    if d.day == DaysInMonth(d.year, d.month) && d.month == 12 {
      MonthsFillYear(d.year);
    }
  }

  /** A date's day number lies within its year. */
  lemma YearBounds(d: Date)
    requires Valid(d)
    ensures DaysBeforeYear(d.year) <= DayNumber(d) < DaysBeforeYear(d.year + 1)
  {
    MonthsBeforeBound(d.year, d.month);
    MonthsFillYear(d.year);
  }

  lemma {:induction false} YearsIncrease(a: nat, b: nat)
    requires a < b
    ensures DaysBeforeYear(a + 1) <= DaysBeforeYear(b)
    decreases b - a
  {
    if a + 1 < b {
      YearsIncrease(a, b - 1);
    }
  }

  /** A date no later than `b` lies in `b`'s year or before it. */
  lemma YearOfEarlier(a: Date, b: Date)
    requires Valid(a) && Valid(b)
    requires DayNumber(a) <= DayNumber(b)
    ensures a.year <= b.year
  {
    YearBounds(a);
    YearBounds(b);
    if a.year > b.year {
      YearsIncrease(b.year, a.year);
    }
  }

  // ---------------------------------------------------------------------
  // ISO dates
  // ---------------------------------------------------------------------

  function DigitChar(n: int): char
    requires 0 <= n <= 9
  {
    ('0' as int + n) as char
  }

  predicate IsDigit(c: char) {
    '0' <= c <= '9'
  }

  function DigitValue(c: char): int
    requires IsDigit(c)
  {
    c as int - '0' as int
  }

  /** `n` written with exactly `width` decimal digits, zero-padded. */
  function Pad(n: nat, width: nat): (r: string)
    requires n < Pow10(width)
    ensures |r| == width
    ensures forall i :: 0 <= i < |r| ==> IsDigit(r[i])
  {
    if width == 0 then ""
    else Pad(n / 10, width - 1) + [DigitChar(n % 10)]
  }

  function Pow10(k: nat): (r: nat)
    ensures r >= 1
  {
    if k == 0 then 1 else 10 * Pow10(k - 1)
  }

  /** The value of a string of decimal digits. */
  function DigitsValue(s: string): (r: nat)
    requires forall i :: 0 <= i < |s| ==> IsDigit(s[i])
    ensures r < Pow10(|s|)
  {
    if s == [] then 0
    else DigitsValue(s[..|s| - 1]) * 10 + DigitValue(s[|s| - 1])
  }

  /** Reading back a zero-padded number gives the number. */
  lemma {:induction false} PadValue(n: nat, width: nat)
    requires n < Pow10(width)
    ensures DigitsValue(Pad(n, width)) == n
    decreases width
  {
    if width > 0 {
      var r := Pad(n, width);
      assert r[..|r| - 1] == Pad(n / 10, width - 1);
      PadValue(n / 10, width - 1);
    }
  }

  /** Writing back the value of a digit string gives the string. */
  lemma {:induction false} ValuePad(s: string)
    requires forall i :: 0 <= i < |s| ==> IsDigit(s[i])
    ensures Pad(DigitsValue(s), |s|) == s
    decreases |s|
  {
    if s != [] {
      var init := s[..|s| - 1];
      ValuePad(init);
      var v := DigitsValue(s);
      assert v / 10 == DigitsValue(init);
      assert DigitChar(v % 10) == s[|s| - 1];
    }
  }

  /** The ISO form `YYYY-MM-DD` of a date with a four-digit year, as
      `toISOString().split("T")[0]` and `format(d, "yyyy-MM-dd")` give it. */
  function FormatIso(d: Date): (r: string)
    requires Valid(d) && d.year <= 9999
    ensures |r| == 10 && r[4] == '-' && r[7] == '-'
  {
    Pad(d.year, 4) + "-" + Pad(d.month, 2) + "-" + Pad(d.day, 2)
  }

  /** The characters of an ISO date outside the two hyphens are digits. */
  predicate IsoShaped(s: string) {
    && |s| == 10 && s[4] == '-' && s[7] == '-'
    && (forall i :: 0 <= i < 4 ==> IsDigit(s[i]))
    && (forall i :: 5 <= i < 7 ==> IsDigit(s[i]))
    && (forall i :: 8 <= i < 10 ==> IsDigit(s[i]))
  }

  /** Reading a `YYYY-MM-DD` string: `None` when it is not shaped like one or
      names no calendar day. */
  function ParseIso(s: string): (r: Option<Date>)
    ensures r.Some? ==> Valid(r.value) && r.value.year <= 9999
  {
    if !IsoShaped(s) then None
    else
      var d := Date(DigitsValue(s[..4]), DigitsValue(s[5..7]), DigitsValue(s[8..]));
      if Valid(d) then Some(d) else None
  }

  lemma FormatIsShaped(d: Date)
    requires Valid(d) && d.year <= 9999
    ensures IsoShaped(FormatIso(d))
    ensures FormatIso(d)[..4] == Pad(d.year, 4)
    ensures FormatIso(d)[5..7] == Pad(d.month, 2)
    ensures FormatIso(d)[8..] == Pad(d.day, 2)
  {
    var y, m, dd := Pad(d.year, 4), Pad(d.month, 2), Pad(d.day, 2);
    var r := FormatIso(d);
    assert r == y + "-" + m + "-" + dd;
    assert r[..4] == y;
    assert r[5..7] == m;
    assert r[8..] == dd;
  }

  /** Formatting then parsing gives the date back. */
  lemma ParseFormat(d: Date)
    requires Valid(d) && d.year <= 9999
    ensures ParseIso(FormatIso(d)) == Some(d)
  {
    FormatIsShaped(d);
    PadValue(d.year, 4);
    PadValue(d.month, 2);
    PadValue(d.day, 2);
  }

  /** Parsing then formatting gives the string back. */
  lemma FormatParse(s: string)
    requires ParseIso(s).Some?
    ensures FormatIso(ParseIso(s).value) == s
  {
    var d := ParseIso(s).value;
    ValuePad(s[..4]);
    ValuePad(s[5..7]);
    ValuePad(s[8..]);
    var r := FormatIso(d);
    FormatIsShaped(d);
    IsoPieces(s);
    IsoPieces(r);
  }

  /** A ten-character string with hyphens at 4 and 7 is its three fields
      joined by hyphens. */
  lemma IsoPieces(s: string)
    requires |s| == 10 && s[4] == '-' && s[7] == '-'
    ensures s == s[..4] + "-" + s[5..7] + "-" + s[8..]
  {
  }

  /** Distinct dates have distinct ISO forms. */
  lemma FormatInjective(a: Date, b: Date)
    requires Valid(a) && a.year <= 9999 && Valid(b) && b.year <= 9999
    requires a != b
    ensures FormatIso(a) != FormatIso(b)
  {
    ParseFormat(a);
    ParseFormat(b);
  }
}
