/** Day numbers to Gregorian dates, and the time stamps printed from them. */
module Calendar {
  import opened Basics

  predicate IsLeapYear(y: nat) { y % 4 == 0 && (y % 100 != 0 || y % 400 == 0) }

  function YearDays(y: nat): nat { if IsLeapYear(y) then 366 else 365 }

  function MonthDays(y: nat, month: nat): nat {
    if month == 2 then if IsLeapYear(y) then 29 else 28
    else if month == 4 || month == 6 || month == 9 || month == 11 then 30 else 31
  }

  datatype Date = Date(year: nat, month: nat, day: nat)

  predicate IsDate(d: Date) {
    d.year >= 1970 && 1 <= d.month <= 12 && 1 <= d.day <= MonthDays(d.year, d.month)
  }

  // ---------------------------------------------------------------- counting days, independently

  /** Days from 1970-01-01 to the first of January. */
  function DaysBeforeYear(y: nat): nat {
    if y <= 1970 then 0 else DaysBeforeYear(y - 1) + YearDays(y - 1)
  }

  function DaysBeforeMonth(y: nat, month: nat): nat {
    if month <= 1 then 0 else DaysBeforeMonth(y, month - 1) + MonthDays(y, month - 1)
  }

  function DayNumber(d: Date): nat
    requires IsDate(d)
  {
    DaysBeforeYear(d.year) + DaysBeforeMonth(d.year, d.month) + d.day - 1
  }

  /** Section 5.6 and appendix C of RFC 3339: leap years every four years, but not every hundred, but every four
      hundred. */
  lemma {:induction false} LeapYearsCounted(y: nat)
    requires y >= 1970
    ensures DaysBeforeYear(y) == 365 * (y - 1970) + (y - 1969) / 4 - (y - 1901) / 100 + (y - 1601) / 400
  {
    if y > 1970 {
      LeapYearsCounted(y - 1);
      YearByRule(y - 1);
      FoursCounted(y);
      CenturiesCounted(y);
      FourCenturiesCounted(y);
    }
  }

  lemma YearByRule(y: nat)
    ensures YearDays(y) == 365 + (if y % 4 == 0 then 1 else 0) - (if y % 100 == 0 then 1 else 0)
                           + if y % 400 == 0 then 1 else 0
  {
    if y % 100 == 0 { CenturyIsFours(y); }
    if y % 400 == 0 { FourCenturiesAreCenturies(y); }
  }

  lemma CenturyIsFours(y: nat)
    requires y % 100 == 0
    ensures y % 4 == 0
  {
    FourTimes(25 * (y / 100));
  }

  lemma FourTimes(k: nat)
    ensures 4 * k % 4 == 0
  {
  }

  lemma FourCenturiesAreCenturies(y: nat)
    requires y % 400 == 0
    ensures y % 100 == 0
  {
    assert y == 100 * (4 * (y / 400));
  }

  lemma FoursCounted(y: nat)
    requires y > 1970
    ensures (y - 1969) / 4 == (y - 1970) / 4 + if (y - 1) % 4 == 0 then 1 else 0
  {
  }

  lemma CenturiesCounted(y: nat)
    requires y > 1970
    ensures (y - 1901) / 100 == (y - 1902) / 100 + if (y - 1) % 100 == 0 then 1 else 0
  {
  }

  lemma FourCenturiesCounted(y: nat)
    requires y > 1970
    ensures (y - 1601) / 400 == (y - 1602) / 400 + if (y - 1) % 400 == 0 then 1 else 0
  {
  }

  lemma YearIsItsMonths(y: nat)
    ensures DaysBeforeMonth(y, 13) == YearDays(y)
  {
    var february := MonthDays(y, 2);
    assert DaysBeforeMonth(y, 2) == 31;
    assert DaysBeforeMonth(y, 3) == 31 + february;
    assert DaysBeforeMonth(y, 4) == 62 + february;
    assert DaysBeforeMonth(y, 5) == 92 + february;
    assert DaysBeforeMonth(y, 6) == 123 + february;
    assert DaysBeforeMonth(y, 7) == 153 + february;
    assert DaysBeforeMonth(y, 8) == 184 + february;
    assert DaysBeforeMonth(y, 9) == 215 + february;
    assert DaysBeforeMonth(y, 10) == 245 + february;
    assert DaysBeforeMonth(y, 11) == 276 + february;
    assert DaysBeforeMonth(y, 12) == 306 + february;
  }

  /** Days before a month in closed form. */
  lemma MonthsCounted(y: nat, month: nat)
    requires 1 <= month <= 12
    ensures DaysBeforeMonth(y, month) ==
            (367 * month - 362) / 12 - (if month <= 2 then 0 else if IsLeapYear(y) then 1 else 2)
  {
    if month > 1 { MonthsCounted(y, month - 1); }
  }

  predicate Before(a: Date, b: Date) {
    a.year < b.year || (a.year == b.year && (a.month < b.month || (a.month == b.month && a.day < b.day)))
  }

  lemma {:induction false} YearsGrow(y: nat, z: nat)
    requires 1970 <= y < z
    ensures DaysBeforeYear(y) + YearDays(y) <= DaysBeforeYear(z)
  {
    if y < z - 1 { YearsGrow(y, z - 1); }
  }

  lemma {:induction false} MonthsGrow(y: nat, m: nat, n: nat)
    requires 1 <= m < n
    ensures DaysBeforeMonth(y, m) + MonthDays(y, m) <= DaysBeforeMonth(y, n)
  {
    if m < n - 1 { MonthsGrow(y, m, n - 1); }
  }

  lemma InsideYear(d: Date)
    requires IsDate(d)
    ensures DaysBeforeMonth(d.year, d.month) + d.day <= YearDays(d.year)
  {
    MonthsGrow(d.year, d.month, 13);
    YearIsItsMonths(d.year);
  }

  /** The calendar order of dates is the order of their day numbers. */
  lemma DayNumbersOrderDates(a: Date, b: Date)
    requires IsDate(a) && IsDate(b)
    ensures Before(a, b) <==> DayNumber(a) < DayNumber(b)
    ensures a == b <==> DayNumber(a) == DayNumber(b)
  {
    BeforeIsLess(a, b);
    BeforeIsLess(b, a);
  }

  lemma BeforeIsLess(a: Date, b: Date)
    requires IsDate(a) && IsDate(b)
    ensures Before(a, b) ==> DayNumber(a) < DayNumber(b)
  {
    if a.year < b.year {
      InsideYear(a);
      YearsGrow(a.year, b.year);
    } else if a.year == b.year && a.month < b.month {
      MonthsGrow(a.year, a.month, b.month);
    }
  }

  // ---------------------------------------------------------------- days_to_ymd

  /** The two loops: whole years off the front, then whole months. The result is the one date with that day number. */
  method DaysToYmd(number: nat) returns (date: Date)
    ensures IsDate(date) && DayNumber(date) == number
  {
    var days: nat, y: nat := number, 1970;
    while days >= YearDays(y)
      invariant y >= 1970 && DaysBeforeYear(y) + days == number
      decreases days
    {
      days := days - YearDays(y);
      y := y + 1;
    }
    var leap := IsLeapYear(y);
    var months := if leap then [31, 29, 31, 30, 31, 30, 31, 31, 30, 31, 30, 31]
                  else [31, 28, 31, 30, 31, 30, 31, 31, 30, 31, 30, 31];
    var mo := 1;
    YearIsItsMonths(y);
    while mo <= 12 && days >= months[mo - 1]
      invariant 1 <= mo <= 13 && DaysBeforeMonth(y, mo) + days < YearDays(y)
      invariant DaysBeforeYear(y) + DaysBeforeMonth(y, mo) + days == number
      invariant forall m :: 1 <= m <= 12 ==> months[m - 1] == MonthDays(y, m)
    {
      days := days - months[mo - 1];
      mo := mo + 1;
    }
    date := Date(y, mo, days + 1);
  }

  lemma DateExists(number: nat)
    ensures exists d :: IsDate(d) && DayNumber(d) == number
  {
    var y := YearOf(number, 1970);
    var rest := number - DaysBeforeYear(y);
    YearIsItsMonths(y);
    var m := MonthOf(y, rest, 1);
    assert IsDate(Date(y, m, rest - DaysBeforeMonth(y, m) + 1));
  }

  function YearOf(number: nat, y: nat): (r: nat)
    requires y >= 1970 && DaysBeforeYear(y) <= number
    ensures r >= 1970 && DaysBeforeYear(r) <= number < DaysBeforeYear(r) + YearDays(r)
    decreases number - DaysBeforeYear(y)
  {
    if number < DaysBeforeYear(y) + YearDays(y) then y else YearOf(number, y + 1)
  }

  function MonthOf(y: nat, rest: nat, m: nat): (r: nat)
    requires 1 <= m <= 12 && DaysBeforeMonth(y, m) <= rest < DaysBeforeMonth(y, 13)
    ensures 1 <= r <= 12 && DaysBeforeMonth(y, r) <= rest < DaysBeforeMonth(y, r) + MonthDays(y, r)
    decreases 12 - m
  {
    if rest < DaysBeforeMonth(y, m) + MonthDays(y, m) then m else MonthOf(y, rest, m + 1)
  }

  lemma DateIsUnique(number: nat)
    ensures forall a, b :: (IsDate(a) && IsDate(b) && DayNumber(a) == number && DayNumber(b) == number) ==> a == b
  {
    forall a, b | IsDate(a) && IsDate(b) && DayNumber(a) == number && DayNumber(b) == number ensures a == b {
      DayNumbersOrderDates(a, b);
    }
  }

  /** The date of a day number. */
  function Ymd(number: nat): (date: Date)
    ensures IsDate(date) && DayNumber(date) == number
  {
    DateExists(number);
    DateIsUnique(number);
    var d :| IsDate(d) && DayNumber(d) == number;
    d
  }

  // ---------------------------------------------------------------- time stamps

  datatype Time = Time(date: Date, hour: nat, minute: nat, second: nat, millis: nat)

  function TimeOf(secs: nat, millis: nat): Time {
    Time(Ymd(secs / 86400), secs / 3600 % 24, secs / 60 % 60, secs % 60, millis)
  }

  /** The fields recombine to the seconds they were split from. */
  lemma FieldsRecombine(secs: nat, millis: nat)
    ensures var t := TimeOf(secs, millis);
            && t.hour < 24 && t.minute < 60 && t.second < 60
            && ((DayNumber(t.date) * 24 + t.hour) * 60 + t.minute) * 60 + t.second == secs
  {
    assert secs / 3600 == secs / 60 / 60 && secs / 86400 == secs / 3600 / 24;
  }

  /** One printed number: its value, its width and what follows it. */
  datatype Field = Field(value: nat, width: nat, after: string)

  function Pow10(n: nat): nat { if n == 0 then 1 else 10 * Pow10(n - 1) }

  function Digits(n: nat, width: nat): (text: string)
    ensures |text| == width
  {
    if width == 0 then "" else Digits(n / 10, width - 1) + [DigitChar(n % 10)]
  }

  /** `{n:0width}`. */
  function Padded(n: nat, width: nat): string {
    if n < Pow10(width) then Digits(n, width) else Dec(n)
  }

  function PrintFields(fields: seq<Field>): string {
    if fields == [] then ""
    else Padded(fields[0].value, fields[0].width) + fields[0].after + PrintFields(fields[1..])
  }

  function FieldsOf(t: Time): seq<Field> {
    [Field(t.date.year, 4, "-"), Field(t.date.month, 2, "-"), Field(t.date.day, 2, "T"), Field(t.hour, 2, ":"),
     Field(t.minute, 2, ":"), Field(t.second, 2, "."), Field(t.millis, 3, "Z")]
  }

  /** `iso8601_now` for a given clock reading. */
  function Stamp(secs: nat, millis: nat): string { PrintFields(FieldsOf(TimeOf(secs, millis))) }

  lemma {:induction false} SamePrefix(p: string, a: string, b: string)
    ensures StrLess(p + a, p + b) <==> StrLess(a, b)
  {
    if p == "" {
      assert p + a == a && p + b == b;
    } else {
      assert (p + a)[1..] == p[1..] + a && (p + b)[1..] == p[1..] + b;
      SamePrefix(p[1..], a, b);
    }
  }

  /** Digit strings of one width compare as the numbers, whatever follows. */
  lemma {:induction false} DigitsOrder(m: nat, n: nat, width: nat, x: string, y: string)
    requires m < n < Pow10(width)
    ensures StrLess(Digits(m, width) + x, Digits(n, width) + y)
  {
    var p, q := Digits(m / 10, width - 1), Digits(n / 10, width - 1);
    var c, d := DigitChar(m % 10), DigitChar(n % 10);
    assert Digits(m, width) + x == p + ([c] + x) && Digits(n, width) + y == q + ([d] + y);
    if m / 10 < n / 10 {
      DigitsOrder(m / 10, n / 10, width - 1, [c] + x, [d] + y);
    } else {
      SamePrefix(p, [c] + x, [d] + y);
    }
  }

  predicate Comparable(a: seq<Field>, b: seq<Field>) {
    |a| == |b| && forall i :: 0 <= i < |a| ==>
      a[i].width == b[i].width && a[i].after == b[i].after &&
      a[i].value < Pow10(a[i].width) && b[i].value < Pow10(b[i].width)
  }

  predicate FieldsLess(a: seq<Field>, b: seq<Field>)
    requires |a| == |b|
  {
    a != [] && (a[0].value < b[0].value || (a[0].value == b[0].value && FieldsLess(a[1..], b[1..])))
  }

  lemma PrintFront(a: seq<Field>)
    requires a != [] && a[0].value < Pow10(a[0].width)
    ensures PrintFields(a) == Digits(a[0].value, a[0].width) + (a[0].after + PrintFields(a[1..]))
  {
  }

  lemma {:induction false} PrintedFieldsSort(a: seq<Field>, b: seq<Field>)
    requires Comparable(a, b) && FieldsLess(a, b)
    ensures StrLess(PrintFields(a), PrintFields(b))
  {
    var x, y := a[0].after + PrintFields(a[1..]), b[0].after + PrintFields(b[1..]);
    var w := a[0].width;
    PrintFront(a);
    PrintFront(b);
    if a[0].value < b[0].value {
      DigitsOrder(a[0].value, b[0].value, w, x, y);
    } else {
      PrintedFieldsSort(a[1..], b[1..]);
      SamePrefix(a[0].after, PrintFields(a[1..]), PrintFields(b[1..]));
      SamePrefix(Digits(a[0].value, w), x, y);
    }
  }

  predicate Earlier(secs: nat, millis: nat, secs': nat, millis': nat) {
    secs < secs' || (secs == secs' && millis < millis')
  }

  lemma EarlierFields(secs: nat, millis: nat, secs': nat, millis': nat)
    requires Earlier(secs, millis, secs', millis')
    ensures FieldsLess(FieldsOf(TimeOf(secs, millis)), FieldsOf(TimeOf(secs', millis')))
  {
    var t, u := TimeOf(secs, millis), TimeOf(secs', millis');
    FieldsRecombine(secs, millis);
    FieldsRecombine(secs', millis');
    DayNumbersOrderDates(t.date, u.date);
    var a, b := FieldsOf(t), FieldsOf(u);
    if t.date != u.date {
      FirstDifference(a, b, if t.date.year != u.date.year then 0 else if t.date.month != u.date.month then 1 else 2);
    } else if t.hour != u.hour {
      FirstDifference(a, b, 3);
    } else if t.minute != u.minute {
      FirstDifference(a, b, 4);
    } else {
      FirstDifference(a, b, if t.second != u.second then 5 else 6);
    }
  }

  lemma {:induction false} FirstDifference(a: seq<Field>, b: seq<Field>, k: nat)
    requires |a| == |b| && k < |a| && a[k].value < b[k].value && forall j :: 0 <= j < k ==> a[j].value == b[j].value
    ensures FieldsLess(a, b)
  {
    if k > 0 {
      assert forall j :: 0 <= j < k - 1 ==> a[1..][j] == a[j + 1] && b[1..][j] == b[j + 1];
      FirstDifference(a[1..], b[1..], k - 1);
    }
  }

  /** Printed stamps sort in time order, through year 9999. */
  lemma StampsSortByTime(secs: nat, millis: nat, secs': nat, millis': nat)
    requires millis < 1000 && millis' < 1000 && Ymd(secs / 86400).year <= 9999 && Ymd(secs' / 86400).year <= 9999
    ensures StrLess(Stamp(secs, millis), Stamp(secs', millis')) <==> Earlier(secs, millis, secs', millis')
  {
    Powers();
    FieldsRecombine(secs, millis);
    FieldsRecombine(secs', millis');
    var a, b := FieldsOf(TimeOf(secs, millis)), FieldsOf(TimeOf(secs', millis'));
    assert Comparable(a, b);
    if Earlier(secs, millis, secs', millis') {
      EarlierFields(secs, millis, secs', millis');
      PrintedFieldsSort(a, b);
    } else if secs == secs' && millis == millis' {
      StrLessIrreflexive(Stamp(secs, millis));
    } else {
      EarlierFields(secs', millis', secs, millis);
      PrintedFieldsSort(b, a);
      if StrLess(Stamp(secs, millis), Stamp(secs', millis')) {
        StrLessTransitive(Stamp(secs, millis), Stamp(secs', millis'), Stamp(secs, millis));
        StrLessIrreflexive(Stamp(secs, millis));
      }
    }
  }

  lemma Powers()
    ensures Pow10(2) == 100 && Pow10(3) == 1000 && Pow10(4) == 10000
  {
    assert Pow10(1) == 10;
  }

  // ---------------------------------------------------------------- reading a stamp

  /** The number a text of digits spells. */
  function NumberIn(text: string): int {
    if text == "" then 0 else 10 * NumberIn(text[..|text| - 1]) + (text[|text| - 1] as int - '0' as int)
  }

  lemma {:induction false} DigitsRead(n: nat, width: nat)
    requires n < Pow10(width)
    ensures NumberIn(Digits(n, width)) == n
  {
    if width > 0 {
      DigitsRead(n / 10, width - 1);
      assert Digits(n, width)[..width - 1] == Digits(n / 10, width - 1);
    }
  }

  /** The text is these numbers, each in its width and followed by its separator. */
  predicate ReadsAs(text: string, fields: seq<Field>) {
    if fields == [] then text == ""
    else
      var w, after := fields[0].width, fields[0].after;
      && |text| >= w + |after| && NumberIn(text[..w]) == fields[0].value && text[w..w + |after|] == after
      && ReadsAs(text[w + |after|..], fields[1..])
  }

  lemma {:induction false} PrintedReadsBack(fields: seq<Field>)
    requires forall i :: 0 <= i < |fields| ==> fields[i].value < Pow10(fields[i].width)
    ensures ReadsAs(PrintFields(fields), fields)
  {
    if fields != [] {
      var w, after, rest := fields[0].width, fields[0].after, PrintFields(fields[1..]);
      PrintFront(fields);
      DigitsRead(fields[0].value, w);
      PrintedReadsBack(fields[1..]);
      var text := PrintFields(fields);
      assert text[..w] == Digits(fields[0].value, w) && text[w..w + |after|] == after;
      assert text[w + |after|..] == rest;
    }
  }

  /** A stamp reads back, in the format of RFC 3339, as the date and time of its clock reading, through year 9999. */
  lemma StampReadsBack(secs: nat, millis: nat)
    requires millis < 1000 && Ymd(secs / 86400).year <= 9999
    ensures exists d: Date, h: nat, m: nat, s: nat ::
              && IsDate(d) && h < 24 && m < 60 && s < 60
              && ((DayNumber(d) * 24 + h) * 60 + m) * 60 + s == secs
              && ReadsAs(Stamp(secs, millis),
                         [Field(d.year, 4, "-"), Field(d.month, 2, "-"), Field(d.day, 2, "T"), Field(h, 2, ":"),
                          Field(m, 2, ":"), Field(s, 2, "."), Field(millis, 3, "Z")])
  {
    Powers();
    FieldsRecombine(secs, millis);
    var t := TimeOf(secs, millis);
    PrintedReadsBack(FieldsOf(t));
    assert ReadsAs(Stamp(secs, millis),
                   [Field(t.date.year, 4, "-"), Field(t.date.month, 2, "-"), Field(t.date.day, 2, "T"),
                    Field(t.hour, 2, ":"), Field(t.minute, 2, ":"), Field(t.second, 2, "."), Field(millis, 3, "Z")]);
  }
}
