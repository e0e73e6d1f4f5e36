/**
 The timestamps the database stores: UTC, whole seconds, in the fixed-width text form of
 section 5.1 of RFC 3339, compared as text by every SQL time filter.
*/
module Timestamps {

  datatype Stamp = Stamp(year: int, month: int, day: int, hour: int, minute: int, second: int)

  predicate Leap(year: int) {
    year % 4 == 0 && (year % 100 != 0 || year % 400 == 0)
  }

  function DaysIn(year: int, month: int): int {
    if month == 2 then (if Leap(year) then 29 else 28)
    else if month == 4 || month == 6 || month == 9 || month == 11 then 30
    else 31
  }

  /** What a datetime can be: the years its four digits can hold. */
  predicate Valid(t: Stamp) {
    && 1 <= t.year <= 9999
    && 1 <= t.month <= 12
    && 1 <= t.day <= DaysIn(t.year, t.month)
    && 0 <= t.hour < 24 && 0 <= t.minute < 60 && 0 <= t.second < 60
  }

  // ---------- time ----------

  function DaysBeforeYear(year: int): int {
    365 * (year - 1) + (year - 1) / 4 - (year - 1) / 100 + (year - 1) / 400
  }

  function DaysBeforeMonth(year: int, month: int): int
    requires 1 <= month <= 12
  {
    if month == 1 then 0 else DaysBeforeMonth(year, month - 1) + DaysIn(year, month - 1)
  }

  /** Days since the day before 0001-01-01. */
  function Ordinal(t: Stamp): int
    requires Valid(t)
  {
    DaysBeforeYear(t.year) + DaysBeforeMonth(t.year, t.month) + t.day
  }

  const DAY := 86400

  function SecondOfDay(t: Stamp): int {
    3600 * t.hour + 60 * t.minute + t.second
  }

  function Seconds(t: Stamp): int
    requires Valid(t)
  {
    DAY * Ordinal(t) + SecondOfDay(t)
  }

  // ---------- text ----------

  function Digit(n: int): char
    requires 0 <= n < 10
  {
    ('0' as int + n) as char
  }

  function TwoDigits(n: int): string
    requires 0 <= n < 100
  {
    [Digit(n / 10), Digit(n % 10)]
  }

  function DateText(t: Stamp): string
    requires Valid(t)
  {
    TwoDigits(t.year / 100) + TwoDigits(t.year % 100) + ("-" + TwoDigits(t.month) + ("-" + TwoDigits(t.day)))
  }

  function TimeText(t: Stamp): string
    requires Valid(t)
  {
    "T" + TwoDigits(t.hour) + (":" + TwoDigits(t.minute) + (":" + TwoDigits(t.second)))
  }

  /** datetime.isoformat(timespec="seconds") of a UTC time. */
  function Text(t: Stamp): string
    requires Valid(t)
  {
    DateText(t) + (TimeText(t) + "+00:00")
  }

  /** SQL's comparison of text values. */
  predicate TextLess(a: string, b: string) {
    if b == [] then false
    else if a == [] then true
    else a[0] < b[0] || (a[0] == b[0] && TextLess(a[1..], b[1..]))
  }

  // ---------- both orders are the order of the fields ----------

  predicate DateLess(a: Stamp, b: Stamp) {
    a.year < b.year || (a.year == b.year && (a.month < b.month || (a.month == b.month && a.day < b.day)))
  }

  predicate SameDate(a: Stamp, b: Stamp) {
    a.year == b.year && a.month == b.month && a.day == b.day
  }

  lemma YearLength(year: int)
    ensures DaysBeforeYear(year + 1) == DaysBeforeYear(year) + DaysBeforeMonth(year, 12) + 31
  {
    MonthTable(year);
    LeapQuotients(year);
  }

  /** year / n is one more than (year - 1) / n exactly when n divides year. */
  lemma LeapQuotients(year: int)
    ensures year / 4 == (year - 1) / 4 + if year % 4 == 0 then 1 else 0
    ensures year / 100 == (year - 1) / 100 + if year % 100 == 0 then 1 else 0
    ensures year / 400 == (year - 1) / 400 + if year % 400 == 0 then 1 else 0
    ensures year % 400 == 0 ==> year % 100 == 0
    ensures year % 100 == 0 ==> year % 4 == 0
  {
  }

  lemma MonthTable(year: int)
    ensures DaysBeforeMonth(year, 12) == if Leap(year) then 335 else 334
  {
    assert DaysBeforeMonth(year, 2) == 31;
    assert DaysBeforeMonth(year, 3) == 31 + DaysIn(year, 2);
    assert DaysBeforeMonth(year, 4) == DaysBeforeMonth(year, 3) + 31;
    assert DaysBeforeMonth(year, 5) == DaysBeforeMonth(year, 4) + 30;
    assert DaysBeforeMonth(year, 6) == DaysBeforeMonth(year, 5) + 31;
    assert DaysBeforeMonth(year, 7) == DaysBeforeMonth(year, 6) + 30;
    assert DaysBeforeMonth(year, 8) == DaysBeforeMonth(year, 7) + 31;
    assert DaysBeforeMonth(year, 9) == DaysBeforeMonth(year, 8) + 31;
    assert DaysBeforeMonth(year, 10) == DaysBeforeMonth(year, 9) + 30;
    assert DaysBeforeMonth(year, 11) == DaysBeforeMonth(year, 10) + 31;
    assert DaysBeforeMonth(year, 12) == DaysBeforeMonth(year, 11) + 30;
  }

  lemma {:induction false} MonthsAscend(year: int, m: int, n: int)
    requires 1 <= m < n <= 12
    ensures DaysBeforeMonth(year, m) + DaysIn(year, m) <= DaysBeforeMonth(year, n)
    decreases n - m
  {
    if m < n - 1 {
      MonthsAscend(year, m, n - 1);
    }
  }

  lemma {:induction false} YearsAscend(y: int, z: int)
    requires y < z
    ensures DaysBeforeYear(y) + DaysBeforeMonth(y, 12) + 31 <= DaysBeforeYear(z)
    decreases z - y
  {
    if y == z - 1 {
      YearLength(y);
    } else {
      YearsAscend(y, z - 1);
      YearLength(z - 1);
      MonthTable(z - 1);
    }
  }

  lemma DateOrder(a: Stamp, b: Stamp)
    requires Valid(a) && Valid(b) && DateLess(a, b)
    ensures Ordinal(a) < Ordinal(b)
  {
    if a.year < b.year {
      if a.month < 12 {
        MonthsAscend(a.year, a.month, 12);
      }
      YearsAscend(a.year, b.year);
      FirstOfMonth(b.year, b.month);
    } else if a.month < b.month {
      MonthsAscend(a.year, a.month, b.month);
    }
  }

  lemma FirstOfMonth(year: int, month: int)
    requires 1 <= month <= 12
    ensures DaysBeforeMonth(year, month) >= 0
  {
  }

  /** One second later, on the clock and in the calendar. */
  function Tick(t: Stamp): Stamp {
    if t.second < 59 then t.(second := t.second + 1)
    else if t.minute < 59 then t.(minute := t.minute + 1, second := 0)
    else if t.hour < 23 then t.(hour := t.hour + 1, minute := 0, second := 0)
    else if t.day < DaysIn(t.year, t.month) then t.(day := t.day + 1, hour := 0, minute := 0, second := 0)
    else if t.month < 12 then Stamp(t.year, t.month + 1, 1, 0, 0, 0)
    else Stamp(t.year + 1, 1, 1, 0, 0, 0)
  }

  lemma OrdinalTick(t: Stamp)
    requires Valid(t) && Valid(Tick(t)) && t.hour == 23 && t.minute == 59 && t.second == 59
    ensures Ordinal(Tick(t)) == Ordinal(t) + 1 && SecondOfDay(Tick(t)) == 0
  {
    if t.day == DaysIn(t.year, t.month) && t.month == 12 {
      YearLength(t.year);
    }
  }

  /** The seconds of a timestamp count the ticks: across minutes, hours, days, months and years, leap or not. */
  lemma SecondsTick(t: Stamp)
    requires Valid(t) && Valid(Tick(t))
    ensures Seconds(Tick(t)) == Seconds(t) + 1
  {
    hide DaysBeforeYear, DaysBeforeMonth;
    if t.hour == 23 && t.minute == 59 && t.second == 59 {
      OrdinalTick(t);
    }
  }

  /** Time order is: earlier date, or same date and earlier in the day. */
  lemma SecondsOrder(a: Stamp, b: Stamp)
    requires Valid(a) && Valid(b)
    ensures Seconds(a) < Seconds(b) <==> DateLess(a, b) || (SameDate(a, b) && SecondOfDay(a) < SecondOfDay(b))
  {
    if DateLess(a, b) {
      DateOrder(a, b);
    } else if DateLess(b, a) {
      DateOrder(b, a);
    }
  }

  lemma {:induction false} LessConcat(a: string, b: string, c: string, d: string)
    requires |a| == |c|
    ensures TextLess(a + b, c + d) <==> TextLess(a, c) || (a == c && TextLess(b, d))
  {
    if a == [] {
      assert a + b == b && c + d == d;
    } else {
      assert (a + b)[1..] == a[1..] + b && (c + d)[1..] == c[1..] + d;
      LessConcat(a[1..], b, c[1..], d);
      assert a == [a[0]] + a[1..] && c == [c[0]] + c[1..];
    }
  }

  lemma TwoDigitsOrder(m: int, n: int)
    requires 0 <= m < 100 && 0 <= n < 100
    ensures TextLess(TwoDigits(m), TwoDigits(n)) <==> m < n
    ensures TwoDigits(m) == TwoDigits(n) <==> m == n
  {
    var a, b := TwoDigits(m), TwoDigits(n);
    assert a[1..] == [Digit(m % 10)] && b[1..] == [Digit(n % 10)];
    assert a[1..][1..] == [] && b[1..][1..] == [];
    assert TextLess(a[1..], b[1..]) <==> m % 10 < n % 10;
    assert a[0] == Digit(m / 10) && b[0] == Digit(n / 10);
    assert a == b ==> a[0] == b[0] && a[1] == b[1];
  }

  /** A separator and a two-digit field in front of the rest. */
  lemma FieldOrder(sep: string, m: int, n: int, b: string, d: string)
    requires 0 <= m < 100 && 0 <= n < 100
    ensures TextLess(sep + TwoDigits(m) + b, sep + TwoDigits(n) + d) <==> m < n || (m == n && TextLess(b, d))
    ensures |b| == |d| ==> (sep + TwoDigits(m) + b == sep + TwoDigits(n) + d <==> m == n && b == d)
  {
    var x, y := sep + TwoDigits(m), sep + TwoDigits(n);
    LessConcat(x, b, y, d);
    LessConcat(sep, TwoDigits(m), sep, TwoDigits(n));
    NotLess(sep);
    TwoDigitsOrder(m, n);
    assert x[|sep|..] == TwoDigits(m) && y[|sep|..] == TwoDigits(n);
    if |b| == |d| && x + b == y + d {
      assert (x + b)[..|x|] == x && (y + d)[..|y|] == y;
      assert (x + b)[|x|..] == b && (y + d)[|y|..] == d;
    }
  }

  lemma {:induction false} NotLess(a: string)
    ensures !TextLess(a, a)
  {
    if a != [] {
      NotLess(a[1..]);
    }
  }

  lemma DateTextOrder(a: Stamp, b: Stamp)
    requires Valid(a) && Valid(b)
    ensures TextLess(DateText(a), DateText(b)) <==> DateLess(a, b)
    ensures DateText(a) == DateText(b) <==> SameDate(a, b)
  {
    var dayA, dayB := "-" + TwoDigits(a.day), "-" + TwoDigits(b.day);
    var restA, restB := "-" + TwoDigits(a.month) + dayA, "-" + TwoDigits(b.month) + dayB;
    assert dayA == dayA + "" && dayB == dayB + "";
    FieldOrder("-", a.day, b.day, "", "");
    FieldOrder("-", a.month, b.month, dayA, dayB);
    FieldOrder(TwoDigits(a.year / 100), a.year % 100, b.year % 100, restA, restB);
    FieldOrder("", a.year / 100, b.year / 100, TwoDigits(a.year % 100) + restA, TwoDigits(b.year % 100) + restB);
    assert DateText(a) == "" + TwoDigits(a.year / 100) + (TwoDigits(a.year % 100) + restA);
    assert DateText(b) == "" + TwoDigits(b.year / 100) + (TwoDigits(b.year % 100) + restB);
    FieldOrder("", a.year % 100, b.year % 100, restA, restB);
    assert "" + TwoDigits(a.year % 100) == TwoDigits(a.year % 100)
        && "" + TwoDigits(b.year % 100) == TwoDigits(b.year % 100);
  }

  lemma TimeTextOrder(a: Stamp, b: Stamp)
    requires Valid(a) && Valid(b)
    ensures TextLess(TimeText(a), TimeText(b)) <==> SecondOfDay(a) < SecondOfDay(b)
  {
    var secA, secB := ":" + TwoDigits(a.second), ":" + TwoDigits(b.second);
    assert secA == secA + "" && secB == secB + "";
    FieldOrder(":", a.second, b.second, "", "");
    FieldOrder(":", a.minute, b.minute, secA, secB);
    FieldOrder("T", a.hour, b.hour, ":" + TwoDigits(a.minute) + secA, ":" + TwoDigits(b.minute) + secB);
  }

  /** Text order of stored timestamps is time order. */
  lemma TextOrderIsTimeOrder(a: Stamp, b: Stamp)
    requires Valid(a) && Valid(b)
    ensures TextLess(Text(a), Text(b)) <==> Seconds(a) < Seconds(b)
  {
    LessConcat(DateText(a), TimeText(a) + "+00:00", DateText(b), TimeText(b) + "+00:00");
    LessConcat(TimeText(a), "+00:00", TimeText(b), "+00:00");
    NotLess("+00:00");
    DateTextOrder(a, b);
    TimeTextOrder(a, b);
    SecondsOrder(a, b);
  }

  // ---------- the SQL filters ----------

  /** The rows a window filter `ts >= lo AND ts < hi` selects, comparing text. */
  function SelectWindow(rows: seq<Stamp>, lo: Stamp, hi: Stamp): set<int>
    requires Valid(lo) && Valid(hi) && forall r | r in rows :: Valid(r)
  {
    set i | 0 <= i < |rows| && !TextLess(Text(rows[i]), Text(lo)) && TextLess(Text(rows[i]), Text(hi))
  }

  /** The rows the expiry filter `ts <= now` selects. */
  function SelectUntil(rows: seq<Stamp>, now: Stamp): set<int>
    requires Valid(now) && forall r | r in rows :: Valid(r)
  {
    set i | 0 <= i < |rows| && !TextLess(Text(now), Text(rows[i]))
  }

  /** The rows the reject guard `ts >= since` selects. */
  function SelectSince(rows: seq<Stamp>, since: Stamp): set<int>
    requires Valid(since) && forall r | r in rows :: Valid(r)
  {
    set i | 0 <= i < |rows| && !TextLess(Text(rows[i]), Text(since))
  }

  /** Each filter selects exactly the rows arithmetic on times would. */
  lemma FiltersAreArithmetic(rows: seq<Stamp>, lo: Stamp, hi: Stamp)
    requires Valid(lo) && Valid(hi) && forall r | r in rows :: Valid(r)
    ensures SelectWindow(rows, lo, hi) == set i | 0 <= i < |rows| && Seconds(lo) <= Seconds(rows[i]) < Seconds(hi)
    ensures SelectUntil(rows, hi) == set i | 0 <= i < |rows| && Seconds(rows[i]) <= Seconds(hi)
    ensures SelectSince(rows, lo) == set i | 0 <= i < |rows| && Seconds(lo) <= Seconds(rows[i])
  {
    forall i | 0 <= i < |rows|
      ensures TextLess(Text(rows[i]), Text(lo)) <==> Seconds(rows[i]) < Seconds(lo)
      ensures TextLess(Text(rows[i]), Text(hi)) <==> Seconds(rows[i]) < Seconds(hi)
      ensures TextLess(Text(hi), Text(rows[i])) <==> Seconds(hi) < Seconds(rows[i])
    {
      TextOrderIsTimeOrder(rows[i], lo);
      TextOrderIsTimeOrder(rows[i], hi);
      TextOrderIsTimeOrder(hi, rows[i]);
    }
  }
}
