// RFC 3339 timestamps in UTC, as Go's time.RFC3339 writes them for the years 0000 to 9999, and
// the property in section 5.1 of RFC 3339 that sorting them as strings sorts them by time.
module Timestamps {
  import opened Ordering

  datatype DateTime = DateTime(year: int, month: int, day: int, hour: int, minute: int, second: int)

  predicate Leap(y: int) {
    y % 4 == 0 && (y % 100 != 0 || y % 400 == 0)
  }

  function DaysInYear(y: int): int {
    if Leap(y) then 366 else 365
  }

  function DaysInMonth(y: int, m: int): int {
    if m == 2 then (if Leap(y) then 29 else 28)
    else if m == 4 || m == 6 || m == 9 || m == 11 then 30
    else 31
  }

  predicate Valid(t: DateTime) {
    && 0 <= t.year <= 9999 && 1 <= t.month <= 12 && 1 <= t.day <= DaysInMonth(t.year, t.month)
    && 0 <= t.hour <= 23 && 0 <= t.minute <= 59 && 0 <= t.second <= 59
  }

  // ----- Chronology: seconds since the start of the year 0000 -------------------------------

  function DaysBeforeYear(y: nat): nat {
    if y == 0 then 0 else DaysBeforeYear(y - 1) + DaysInYear(y - 1)
  }

  function DaysBeforeMonth(y: int, m: nat): nat {
    if m <= 1 then 0 else DaysBeforeMonth(y, m - 1) + DaysInMonth(y, m - 1)
  }

  function DayNumber(t: DateTime): nat
    requires Valid(t)
  {
    DaysBeforeYear(t.year) + DaysBeforeMonth(t.year, t.month) + t.day - 1
  }

  function Seconds(t: DateTime): nat
    requires Valid(t)
  {
    DayNumber(t) * 86400 + t.hour * 3600 + t.minute * 60 + t.second
  }

  lemma {:induction false} LeapDays(z: nat)
    ensures (z + 4) / 4 == (z + 3) / 4 + if z % 4 == 0 then 1 else 0
    ensures (z + 100) / 100 == (z + 99) / 100 + if z % 100 == 0 then 1 else 0
    ensures (z + 400) / 400 == (z + 399) / 400 + if z % 400 == 0 then 1 else 0
  {
    assert z == z / 4 * 4 + z % 4 && z == z / 100 * 100 + z % 100 && z == z / 400 * 400 + z % 400;
  }

  lemma {:induction false} DivisibleDown(z: nat)
    ensures z % 400 == 0 ==> z % 100 == 0
    ensures z % 100 == 0 ==> z % 4 == 0
  {
    if z % 400 == 0 {
      assert z == 100 * (4 * (z / 400));
    }
    if z % 100 == 0 {
      assert z == 4 * (25 * (z / 100));
    }
  }

  // The Gregorian rule: the years before y that are divisible by 4, but not by 100 unless by 400,
  // have a day more than 365.
  lemma {:induction false} DaysBeforeYearClosedForm(y: nat)
    ensures DaysBeforeYear(y) == 365 * y + (y + 3) / 4 - (y + 99) / 100 + (y + 399) / 400
  {
    if y > 0 {
      var z: nat := y - 1;
      DaysBeforeYearClosedForm(z);
      LeapDays(z);
      DivisibleDown(z);
      assert DaysBeforeYear(y) == DaysBeforeYear(z) + 365 + if Leap(z) then 1 else 0;
    }
  }

  // ----- From a number of seconds back to the calendar ------------------------------------------

  function YearOf(days: nat, y: nat): (r: (nat, nat))
    ensures r.0 >= y && r.1 < DaysInYear(r.0)
    ensures DaysBeforeYear(r.0) + r.1 == DaysBeforeYear(y) + days
    decreases days
  {
    if days < DaysInYear(y) then (y, days) else YearOf(days - DaysInYear(y), y + 1)
  }

  function MonthOf(y: int, days: nat, m: nat): (r: (nat, nat))
    requires 1 <= m <= 12
    requires DaysBeforeMonth(y, m) + days < DaysInYear(y)
    ensures m <= r.0 <= 12 && r.1 < DaysInMonth(y, r.0)
    ensures DaysBeforeMonth(y, r.0) + r.1 == DaysBeforeMonth(y, m) + days
    decreases 12 - m
  {
    YearEnds(y);
    if days < DaysInMonth(y, m) then (m, days) else MonthOf(y, days - DaysInMonth(y, m), m + 1)
  }

  function FromSeconds(n: nat): DateTime {
    var (year, dayOfYear) := YearOf(n / 86400, 0);
    assert DaysBeforeMonth(year, 1) == 0;
    var (month, dayOfMonth) := MonthOf(year, dayOfYear, 1);
    var rest := n % 86400;
    DateTime(year, month, dayOfMonth + 1, rest / 3600, rest % 3600 / 60, rest % 3600 % 60)
  }

  // Instants whose calendar year has four digits.
  predicate FourDigitYear(n: nat) {
    FromSeconds(n).year <= 9999
  }

  lemma {:induction false} CalendarRoundTrip(n: nat)
    requires FourDigitYear(n)
    ensures Valid(FromSeconds(n)) && Seconds(FromSeconds(n)) == n
  {
    var day := n / 86400;
    ClockParts(n % 86400);
    var (year, dayOfYear) := YearOf(day, 0);
    var (month, dayOfMonth) := MonthOf(year, dayOfYear, 1);
    assert DaysBeforeYear(year) + DaysBeforeMonth(year, month) + dayOfMonth == day;
  }

  lemma {:induction false} ClockParts(rest: nat)
    requires rest < 86400
    ensures rest / 3600 <= 23 && rest % 3600 / 60 <= 59 && rest % 3600 % 60 <= 59
    ensures rest == rest / 3600 * 3600 + rest % 3600 / 60 * 60 + rest % 3600 % 60
  {
    var r := rest % 3600;
    assert r == r / 60 * 60 + r % 60;
  }

  lemma {:induction false} YearEnds(y: int)
    ensures DaysBeforeMonth(y, 12) + DaysInMonth(y, 12) == DaysInYear(y)
  {
    FirstHalf(y);
    assert DaysBeforeMonth(y, 7) == DaysBeforeMonth(y, 6) + 30;
    assert DaysBeforeMonth(y, 8) == DaysBeforeMonth(y, 7) + 31;
    assert DaysBeforeMonth(y, 9) == DaysBeforeMonth(y, 8) + 31;
    assert DaysBeforeMonth(y, 10) == DaysBeforeMonth(y, 9) + 30;
    assert DaysBeforeMonth(y, 11) == DaysBeforeMonth(y, 10) + 31;
    assert DaysBeforeMonth(y, 12) == DaysBeforeMonth(y, 11) + 30;
  }

  lemma {:induction false} FirstHalf(y: int)
    ensures DaysBeforeMonth(y, 6) == (if Leap(y) then 152 else 151)
  {
    assert DaysBeforeMonth(y, 2) == 31;
    assert DaysBeforeMonth(y, 3) == 31 + DaysInMonth(y, 2);
    assert DaysBeforeMonth(y, 4) == DaysBeforeMonth(y, 3) + 31;
    assert DaysBeforeMonth(y, 5) == DaysBeforeMonth(y, 4) + 30;
    assert DaysBeforeMonth(y, 6) == DaysBeforeMonth(y, 5) + 31;
  }

  // ----- Field-by-field order is chronological order ----------------------------------------------

  predicate Earlier(a: DateTime, b: DateTime) {
    if a.year != b.year then a.year < b.year
    else if a.month != b.month then a.month < b.month
    else if a.day != b.day then a.day < b.day
    else if a.hour != b.hour then a.hour < b.hour
    else if a.minute != b.minute then a.minute < b.minute
    else a.second < b.second
  }

  lemma {:induction false} MonthsFit(y: int, m: nat, n: nat)
    requires 1 <= m < n <= 13
    ensures DaysBeforeMonth(y, m) + DaysInMonth(y, m) <= DaysBeforeMonth(y, n)
    decreases n
  {
    if m + 1 < n {
      MonthsFit(y, m, n - 1);
    }
  }

  lemma {:induction false} YearsFit(y: nat, z: nat)
    requires y < z
    ensures DaysBeforeYear(y) + DaysInYear(y) <= DaysBeforeYear(z)
    decreases z
  {
    if y + 1 < z {
      YearsFit(y, z - 1);
    }
  }

  lemma {:induction false} EarlierDays(a: DateTime, b: DateTime)
    requires Valid(a) && Valid(b)
    ensures DayNumber(a) < DaysBeforeYear(a.year) + DaysInYear(a.year)
    ensures a.year < b.year ==> DayNumber(a) < DayNumber(b)
    ensures a.year == b.year && a.month < b.month ==> DayNumber(a) < DayNumber(b)
  {
    YearEnds(a.year);
    if a.month < 12 {
      MonthsFit(a.year, a.month, 12);
    }
    if a.year < b.year {
      YearsFit(a.year, b.year);
    } else if a.year == b.year && a.month < b.month {
      MonthsFit(a.year, a.month, b.month);
    }
  }

  lemma {:induction false} EarlierIffFewerSeconds(a: DateTime, b: DateTime)
    requires Valid(a) && Valid(b)
    ensures Earlier(a, b) <==> Seconds(a) < Seconds(b)
  {
    EarlierDays(a, b);
    EarlierDays(b, a);
  }

  // ----- The written form ------------------------------------------------------------------------

  function Digit(d: int): char
    requires 0 <= d <= 9
  {
    ('0' as int + d) as char
  }

  function TwoDigits(n: int): string
    requires 0 <= n <= 99
  {
    [Digit(n / 10), Digit(n % 10)]
  }

  function FourDigits(n: int): string
    requires 0 <= n <= 9999
  {
    TwoDigits(n / 100) + TwoDigits(n % 100)
  }

  function Format(t: DateTime): string
    requires Valid(t)
  {
    FourDigits(t.year) + ("-" + (TwoDigits(t.month) + ("-" + (TwoDigits(t.day) + ("T" + (TwoDigits(t.hour)
      + (":" + (TwoDigits(t.minute) + (":" + (TwoDigits(t.second) + "Z"))))))))))
  }

  // Strings with equally long heads compare by the heads first.
  lemma {:induction false} StrLtConcat(p: string, r: string, q: string, s: string)
    requires |p| == |q|
    ensures StrLt(p + r, q + s) <==> StrLt(p, q) || (p == q && StrLt(r, s))
  {
    if p == [] {
      assert p + r == r && q + s == s;
    } else {
      assert (p + r)[1..] == p[1..] + r && (q + s)[1..] == q[1..] + s;
      if p[0] == q[0] {
        StrLtConcat(p[1..], r, q[1..], s);
        assert p == [p[0]] + p[1..] && q == [q[0]] + q[1..];
      }
    }
  }

  lemma {:induction false} SameMark(mark: string, r: string, s: string)
    ensures StrLt(mark + r, mark + s) <==> StrLt(r, s)
  {
    StrLtConcat(mark, r, mark, s);
    StrLtTotal(mark, mark);
  }

  lemma {:induction false} TwoDigitsOrder(m: int, n: int)
    requires 0 <= m <= 99 && 0 <= n <= 99
    ensures StrLt(TwoDigits(m), TwoDigits(n)) <==> m < n
    ensures TwoDigits(m) == TwoDigits(n) <==> m == n
  {
    var a, b := TwoDigits(m), TwoDigits(n);
    assert a[0] == Digit(m / 10) && a[1] == Digit(m % 10) && b[0] == Digit(n / 10) && b[1] == Digit(n % 10);
    assert a[1..] == [a[1]] && b[1..] == [b[1]];
    assert StrLt(a[1..], b[1..]) <==> a[1] < b[1] by { assert [a[1]][1..] == [] && [b[1]][1..] == []; }
  }

  lemma {:induction false} FourDigitsOrder(m: int, n: int)
    requires 0 <= m <= 9999 && 0 <= n <= 9999
    ensures StrLt(FourDigits(m), FourDigits(n)) <==> m < n
    ensures FourDigits(m) == FourDigits(n) <==> m == n
  {
    TwoDigitsOrder(m / 100, n / 100);
    TwoDigitsOrder(m % 100, n % 100);
    StrLtConcat(TwoDigits(m / 100), TwoDigits(m % 100), TwoDigits(n / 100), TwoDigits(n % 100));
    if FourDigits(m) == FourDigits(n) {
      assert FourDigits(m)[..2] == TwoDigits(m / 100) && FourDigits(m)[2..] == TwoDigits(m % 100);
      assert FourDigits(n)[..2] == TwoDigits(n / 100) && FourDigits(n)[2..] == TwoDigits(n % 100);
    }
  }

  // One two-digit field, the mark before it, and what follows.
  lemma {:induction false} FieldOrder(mark: string, m: int, r: string, n: int, s: string)
    requires 0 <= m <= 99 && 0 <= n <= 99
    ensures StrLt(mark + (TwoDigits(m) + r), mark + (TwoDigits(n) + s)) <==> m < n || (m == n && StrLt(r, s))
  {
    SameMark(mark, TwoDigits(m) + r, TwoDigits(n) + s);
    TwoDigitsOrder(m, n);
    StrLtConcat(TwoDigits(m), r, TwoDigits(n), s);
  }

  function Clock(t: DateTime): string
    requires Valid(t)
  {
    "T" + (TwoDigits(t.hour) + (":" + (TwoDigits(t.minute) + (":" + (TwoDigits(t.second) + "Z")))))
  }

  lemma {:induction false} ClockOrder(a: DateTime, b: DateTime)
    requires Valid(a) && Valid(b)
    ensures StrLt(Clock(a), Clock(b)) <==>
            if a.hour != b.hour then a.hour < b.hour
            else if a.minute != b.minute then a.minute < b.minute
            else a.second < b.second
  {
    StrLtTotal("Z", "Z");
    FieldOrder(":", a.second, "Z", b.second, "Z");
    FieldOrder(":", a.minute, ":" + (TwoDigits(a.second) + "Z"), b.minute, ":" + (TwoDigits(b.second) + "Z"));
    FieldOrder("T", a.hour, ":" + (TwoDigits(a.minute) + (":" + (TwoDigits(a.second) + "Z"))),
               b.hour, ":" + (TwoDigits(b.minute) + (":" + (TwoDigits(b.second) + "Z"))));
  }

  lemma {:induction false} FormatOrder(a: DateTime, b: DateTime)
    requires Valid(a) && Valid(b)
    ensures StrLt(Format(a), Format(b)) <==> Earlier(a, b)
  {
    ClockOrder(a, b);
    FieldOrder("-", a.day, Clock(a), b.day, Clock(b));
    var da, db := "-" + (TwoDigits(a.day) + Clock(a)), "-" + (TwoDigits(b.day) + Clock(b));
    FieldOrder("-", a.month, da, b.month, db);
    FourDigitsOrder(a.year, b.year);
    StrLtConcat(FourDigits(a.year), "-" + (TwoDigits(a.month) + da),
                FourDigits(b.year), "-" + (TwoDigits(b.month) + db));
  }

  function DigitAt(s: string, i: nat): int
    requires i < |s|
  {
    s[i] as int - '0' as int
  }

  function TwoDigitsAt(s: string, i: nat): int
    requires i + 1 < |s|
  {
    DigitAt(s, i) * 10 + DigitAt(s, i + 1)
  }

  // The fields at their places in the written form.
  function ReadFields(s: string): DateTime
    requires |s| == 20
  {
    DateTime(TwoDigitsAt(s, 0) * 100 + TwoDigitsAt(s, 2), TwoDigitsAt(s, 5), TwoDigitsAt(s, 8),
             TwoDigitsAt(s, 11), TwoDigitsAt(s, 14), TwoDigitsAt(s, 17))
  }

  // A written timestamp has the layout of section 5.6 of RFC 3339, and reading its fields gives the
  // date and time back.
  lemma {:induction false} FormatReadsBack(t: DateTime)
    requires Valid(t)
    ensures var s := Format(t);
            && |s| == 20 && s[4] == '-' && s[7] == '-' && s[10] == 'T' && s[13] == ':' && s[16] == ':' && s[19] == 'Z'
            && ReadFields(s) == t
  {
  }

  // ----- Main result ----------------------------------------------------------------------------------

  // What the prober writes for an instant.
  function Rfc3339(n: nat): string
    requires FourDigitYear(n)
  {
    CalendarRoundTrip(n);
    Format(FromSeconds(n))
  }

  // Byte-wise string order on written timestamps is chronological order.
  lemma {:induction false} StringOrderIsChronological(m: nat, n: nat)
    requires FourDigitYear(m) && FourDigitYear(n)
    ensures StrLt(Rfc3339(m), Rfc3339(n)) <==> m < n
    ensures Rfc3339(m) == Rfc3339(n) <==> m == n
  {
    CalendarRoundTrip(m);
    CalendarRoundTrip(n);
    FormatOrder(FromSeconds(m), FromSeconds(n));
    FormatOrder(FromSeconds(n), FromSeconds(m));
    EarlierIffFewerSeconds(FromSeconds(m), FromSeconds(n));
    EarlierIffFewerSeconds(FromSeconds(n), FromSeconds(m));
    StrLtTotal(Rfc3339(m), Rfc3339(n));
  }
}
