/**
 * Timestamps as the reservation table stores them: text, compared byte by byte.
 */
module Timestamps {
  import opened Wrappers

  // ---- Text order ---------------------------------------------------------------------------

  /** SQLite's default order on ASCII text. */
  predicate TextLess(s: string, t: string) {
    if t == "" then false
    else if s == "" then true
    else if s[0] != t[0] then s[0] < t[0]
    else TextLess(s[1..], t[1..])
  }

  predicate TextAtMost(s: string, t: string) { !TextLess(t, s) }

  lemma {:induction false} TextOrderIsStrict(s: string, t: string)
    ensures !(TextLess(s, t) && TextLess(t, s))
    ensures !TextLess(s, t) && !TextLess(t, s) ==> s == t
    decreases |s|
  {
    if s != "" && t != "" && s[0] == t[0] {
      TextOrderIsStrict(s[1..], t[1..]);
      assert s == [s[0]] + s[1..] && t == [t[0]] + t[1..];
    }
  }

  lemma {:induction false} TextAtMostTransitive(a: string, b: string, c: string)
    requires TextAtMost(a, b) && TextAtMost(b, c)
    ensures TextAtMost(a, c)
    decreases |a|
  {
    if a != "" && b != "" && c != "" && a[0] == b[0] == c[0] { TextAtMostTransitive(a[1..], b[1..], c[1..]); }
  }

  /** Equally long first parts decide, second parts break ties. */
  lemma {:induction false} TextLessSplits(a: string, b: string, c: string, d: string)
    requires |a| == |c|
    ensures TextLess(a + b, c + d) <==> TextLess(a, c) || (a == c && TextLess(b, d))
    decreases |a|
  {
    if a == "" {
      assert a + b == b && c + d == d;
    } else {
      assert (a + b)[1..] == a[1..] + b && (c + d)[1..] == c[1..] + d;
      TextLessSplits(a[1..], b, c[1..], d);
      assert a == [a[0]] + a[1..] && c == [c[0]] + c[1..];
    }
  }

  /** The first differing character decides. */
  lemma {:induction false} FirstDifference(s: string, t: string, k: nat)
    requires k < |s| && k < |t| && s[k] < t[k]
    requires forall i :: 0 <= i < k ==> s[i] == t[i]
    ensures TextLess(s, t)
  {
    if k > 0 { FirstDifference(s[1..], t[1..], k - 1); }
  }

  // ---- Digits ---------------------------------------------------------------------------------

  predicate IsDigit(c: char) { '0' <= c <= '9' }

  predicate AllDigits(s: string) { forall i :: 0 <= i < |s| ==> IsDigit(s[i]) }

  function Num(s: string): nat
    requires AllDigits(s)
  {
    if s == "" then 0 else Num(s[..|s| - 1]) * 10 + (s[|s| - 1] as int - '0' as int)
  }

  lemma {:induction false} DigitsOrder(a: string, b: string)
    requires AllDigits(a) && AllDigits(b) && |a| == |b|
    ensures TextLess(a, b) <==> Num(a) < Num(b)
    ensures a == b <==> Num(a) == Num(b)
  {
    if a != "" {
      var n := |a| - 1;
      DigitsOrder(a[..n], b[..n]);
      TextLessSplits(a[..n], [a[n]], b[..n], [b[n]]);
      assert a == a[..n] + [a[n]] && b == b[..n] + [b[n]];
      assert TextLess([a[n]], [b[n]]) <==> a[n] < b[n];
    }
  }

  // ---- Calendar -------------------------------------------------------------------------------

  datatype Time = Time(year: nat, month: nat, day: nat, hour: nat, minute: nat, second: nat)

  predicate Leap(year: nat) { year % 4 == 0 && (year % 100 != 0 || year % 400 == 0) }

  function DaysInMonth(year: nat, month: nat): nat {
    if month == 2 then (if Leap(year) then 29 else 28)
    else if month == 4 || month == 6 || month == 9 || month == 11 then 30
    else 31
  }

  predicate ValidTime(t: Time) {
    1 <= t.month <= 12 && 1 <= t.day <= DaysInMonth(t.year, t.month) && t.hour < 24 && t.minute < 60 && t.second < 60
  }

  function DaysBeforeYear(year: nat): nat {
    if year == 0 then 0 else DaysBeforeYear(year - 1) + (if Leap(year - 1) then 366 else 365)
  }

  function DaysBeforeMonth(year: nat, month: nat): nat {
    if month <= 1 then 0 else DaysBeforeMonth(year, month - 1) + DaysInMonth(year, month - 1)
  }

  /** Seconds since the beginning of year 0 in the Gregorian calendar. */
  function Seconds(t: Time): int {
    (DaysBeforeYear(t.year) + DaysBeforeMonth(t.year, t.month) + t.day) * 86400 + t.hour * 3600 + t.minute * 60 + t.second
  }

  predicate DateLess(a: Time, b: Time) {
    a.year < b.year || (a.year == b.year && (a.month < b.month || (a.month == b.month && a.day < b.day)))
  }

  predicate ClockLess(a: Time, b: Time) {
    a.hour < b.hour || (a.hour == b.hour && (a.minute < b.minute || (a.minute == b.minute && a.second < b.second)))
  }

  predicate FieldsLess(a: Time, b: Time) {
    DateLess(a, b)
    || (a.year == b.year && a.month == b.month && a.day == b.day && ClockLess(a, b))
  }

  lemma {:induction false} YearsGrow(y: nat, z: nat)
    requires y < z
    ensures DaysBeforeYear(y) + (if Leap(y) then 366 else 365) <= DaysBeforeYear(z)
  {
    if y + 1 < z { YearsGrow(y, z - 1); }
  }

  lemma {:induction false} MonthsGrow(year: nat, m: nat, n: nat)
    requires 1 <= m < n
    ensures DaysBeforeMonth(year, m) + DaysInMonth(year, m) <= DaysBeforeMonth(year, n)
  {
    if m + 1 < n { MonthsGrow(year, m, n - 1); }
  }

  lemma YearLength(year: nat)
    ensures DaysBeforeMonth(year, 12) + 31 == if Leap(year) then 366 else 365
  {
    assert DaysBeforeMonth(year, 2) == 31;
    assert DaysBeforeMonth(year, 3) == 31 + DaysInMonth(year, 2);
    assert DaysBeforeMonth(year, 4) == DaysBeforeMonth(year, 3) + 31;
    assert DaysBeforeMonth(year, 6) == DaysBeforeMonth(year, 4) + 61;
    assert DaysBeforeMonth(year, 8) == DaysBeforeMonth(year, 6) + 61;
    assert DaysBeforeMonth(year, 10) == DaysBeforeMonth(year, 8) + 61;
  }

  function DayNumber(t: Time): nat { DaysBeforeYear(t.year) + DaysBeforeMonth(t.year, t.month) + t.day }

  lemma DayOfYearBounded(t: Time)
    requires ValidTime(t)
    ensures DaysBeforeMonth(t.year, t.month) + t.day <= if Leap(t.year) then 366 else 365
  {
    YearLength(t.year);
    if t.month < 12 { MonthsGrow(t.year, t.month, 12); }
  }

  lemma DateOrder(a: Time, b: Time)
    requires ValidTime(a) && ValidTime(b) && DateLess(a, b)
    ensures DayNumber(a) < DayNumber(b)
  {
    if a.year < b.year {
      DayOfYearBounded(a);
      YearsGrow(a.year, b.year);
    } else if a.month < b.month {
      MonthsGrow(a.year, a.month, b.month);
    }
  }

  /** Comparing fields one after the other is comparing instants. */
  lemma FieldOrderIsChronological(a: Time, b: Time)
    requires ValidTime(a) && ValidTime(b)
    ensures FieldsLess(a, b) <==> Seconds(a) < Seconds(b)
  {
    if DateLess(a, b) { DateOrder(a, b); }
    if DateLess(b, a) { DateOrder(b, a); }
  }

  // ---- Canonical text ---------------------------------------------------------------------------

  /** Zero-padded `YYYY-MM-DDTHH:MM:SS`. */
  predicate Shaped(s: string) {
    |s| == 19 && AllDigits(s[0..4]) && s[4] == '-' && AllDigits(s[5..7]) && s[7] == '-' && AllDigits(s[8..10])
    && s[10] == 'T' && AllDigits(s[11..13]) && s[13] == ':' && AllDigits(s[14..16]) && s[16] == ':' && AllDigits(s[17..19])
  }

  function FieldsOf(s: string): Time
    requires Shaped(s)
  {
    Time(Num(s[0..4]), Num(s[5..7]), Num(s[8..10]), Num(s[11..13]), Num(s[14..16]), Num(s[17..19]))
  }

  predicate Canonical(s: string) { Shaped(s) && ValidTime(FieldsOf(s)) }

  /** A separator shared by both texts does not influence the order. */
  lemma FieldThenRest(s: string, t: string, from: nat, to: nat)
    requires from < to < |s| && |s| == |t| && s[to] == t[to]
    requires AllDigits(s[from..to]) && AllDigits(t[from..to])
    ensures TextLess(s[from..], t[from..]) <==>
      Num(s[from..to]) < Num(t[from..to]) || (Num(s[from..to]) == Num(t[from..to]) && TextLess(s[to + 1..], t[to + 1..]))
  {
    assert s[from..] == s[from..to] + s[to..] && t[from..] == t[from..to] + t[to..];
    TextLessSplits(s[from..to], s[to..], t[from..to], t[to..]);
    DigitsOrder(s[from..to], t[from..to]);
    assert s[to..][1..] == s[to + 1..] && t[to..][1..] == t[to + 1..];
  }

  lemma ClockOrder(s: string, t: string)
    requires Shaped(s) && Shaped(t)
    ensures TextLess(s[11..], t[11..]) <==> ClockLess(FieldsOf(s), FieldsOf(t))
  {
    FieldThenRest(s, t, 11, 13);
    FieldThenRest(s, t, 14, 16);
    assert s[17..] == s[17..19] && t[17..] == t[17..19];
    DigitsOrder(s[17..19], t[17..19]);
  }

  lemma ShapedOrder(s: string, t: string)
    requires Shaped(s) && Shaped(t)
    ensures TextLess(s, t) <==> FieldsLess(FieldsOf(s), FieldsOf(t))
  {
    assert s[0..] == s && t[0..] == t;
    DayOrder(s, t);
    FieldThenRest(s, t, 0, 4);
    FieldThenRest(s, t, 5, 7);
  }

  lemma DayOrder(s: string, t: string)
    requires Shaped(s) && Shaped(t)
    ensures var a, b := FieldsOf(s), FieldsOf(t);
      TextLess(s[8..], t[8..]) <==> a.day < b.day || (a.day == b.day && ClockLess(a, b))
  {
    ClockOrder(s, t);
    FieldThenRest(s, t, 8, 10);
  }

  /** For canonical timestamps the text order is the chronological order. */
  lemma TextOrderIsChronological(s: string, t: string)
    requires Canonical(s) && Canonical(t)
    ensures TextLess(s, t) <==> Seconds(FieldsOf(s)) < Seconds(FieldsOf(t))
  {
    ShapedOrder(s, t);
    FieldOrderIsChronological(FieldsOf(s), FieldsOf(t));
  }

  /** The SQL test `row.start < end AND row.end > start`. */
  predicate TextOverlap(rowStart: string, rowEnd: string, start: string, end: string) {
    TextLess(rowStart, end) && TextLess(start, rowEnd)
  }

  ghost predicate Covers(start: string, end: string, instant: int)
    requires Canonical(start) && Canonical(end)
  {
    Seconds(FieldsOf(start)) <= instant < Seconds(FieldsOf(end))
  }

  /** For canonical non-empty half-open intervals the SQL test holds exactly when they share an instant. */
  lemma OverlapTestIsExact(s1: string, e1: string, s2: string, e2: string)
    requires Canonical(s1) && Canonical(e1) && Canonical(s2) && Canonical(e2)
    requires TextLess(s1, e1) && TextLess(s2, e2)
    ensures TextOverlap(s1, e1, s2, e2) <==> exists x :: Covers(s1, e1, x) && Covers(s2, e2, x)
  {
    TextOrderIsChronological(s1, e2);
    TextOrderIsChronological(s2, e1);
    TextOrderIsChronological(s1, e1);
    TextOrderIsChronological(s2, e2);
    if TextOverlap(s1, e1, s2, e2) {
      var a, b := Seconds(FieldsOf(s1)), Seconds(FieldsOf(s2));
      var x := if a < b then b else a;
      assert Covers(s1, e1, x) && Covers(s2, e2, x);
    }
  }

  /** Without zero padding the order breaks, in every year: October sorts before September. */
  lemma UnpaddedMonthsMisorder(year: string)
    requires |year| == 4 && AllDigits(year)
    ensures TextLess(year + "-10-01T00:00:00", year + "-9-01T00:00:00")
    ensures Seconds(Time(Num(year), 9, 1, 0, 0, 0)) < Seconds(Time(Num(year), 10, 1, 0, 0, 0))
    ensures !Shaped(year + "-9-01T00:00:00")
  {
    FirstDifference(year + "-10-01T00:00:00", year + "-9-01T00:00:00", 5);
    FieldOrderIsChronological(Time(Num(year), 9, 1, 0, 0, 0), Time(Num(year), 10, 1, 0, 0, 0));
  }

  // ---- Half-hour boundaries ---------------------------------------------------------------------

  predicate HalfHour(t: Time) { (t.minute == 0 || t.minute == 30) && t.second == 0 }

  /** Half hours since the beginning of year 0. */
  function HalfHours(t: Time): int { DayNumber(t) * 48 + t.hour * 2 + t.minute / 30 }

  lemma HalfHoursAreExact(t: Time)
    requires HalfHour(t)
    ensures Seconds(t) == 1800 * HalfHours(t)
  {
  }

  /** Between half-hour boundaries, later means at least half an hour later: the minimum-duration
      check of a reservation request never fires. */
  lemma MinimumDurationIsImplied(a: Time, b: Time)
    requires HalfHour(a) && HalfHour(b) && Seconds(a) < Seconds(b)
    ensures Seconds(b) - Seconds(a) >= 1800
  {
    HalfHoursAreExact(a);
    HalfHoursAreExact(b);
    GapOfMultiples(Seconds(a), HalfHours(a), Seconds(b), HalfHours(b));
  }

  lemma GapOfMultiples(x: int, p: int, y: int, q: int)
    requires x == 1800 * p && y == 1800 * q && x < y
    ensures y - x >= 1800
  {
  }
}
