/**
  Calendar dates as `toISO` and `addDays` in app/app/index.tsx see them.

  A date string is read the way ECMAScript's `Date` constructor reads the
  date-only form of its date-time string format, in UTC: `YYYY-MM-DD`, or an
  expanded year `+YYYYYY-MM-DD` / `-YYYYYY-MM-DD`; the month is 01..12 and the
  day 01..31. The standard gives no rule for a day past the end of its month
  (engines differ); this model lets it roll into the next month. A date
  outside the time-value range (100,000,000 days either side of
  1970-01-01) is an invalid date. `toISOString().split("T")[0]` writes a date
  back in the same forms; for years 0 to 9999 that is the complete extended
  calendar-date representation of section 5.2.1.1 of ISO 8601:2004.
 */
module IsoDate {
  import opened Wrappers
  import opened Decimal

  /** A proleptic Gregorian calendar date; years are astronomical (year 0 exists). */
  datatype Date = Date(year: int, month: int, day: int)

  /** The reason `toISOString` throws: the Date holds no valid time value. */
  datatype DateError = InvalidTimeValue

  predicate IsLeapYear(y: int) {
    y % 4 == 0 && (y % 100 != 0 || y % 400 == 0)
  }

  function DaysInMonth(y: int, m: int): (n: int)
    requires 1 <= m <= 12
    ensures 28 <= n <= 31
  {
    if m == 2 then (if IsLeapYear(y) then 29 else 28)
    else if m == 4 || m == 6 || m == 9 || m == 11 then 30
    else 31
  }

  /** The month exists and the day exists in that month. */
  predicate Valid(d: Date) {
    1 <= d.month <= 12 && 1 <= d.day <= DaysInMonth(d.year, d.month)
  }

  /** Strict chronological order of dates. */
  predicate Before(a: Date, b: Date) {
    a.year < b.year
    || (a.year == b.year && a.month < b.month)
    || (a.year == b.year && a.month == b.month && a.day < b.day)
  }

  /** The first and last days a JavaScript `Date` can hold (time value -8.64e15 and 8.64e15 ms). */
  const MinDate := Date(-271821, 4, 20)
  const MaxDate := Date(275760, 9, 13)

  predicate InRange(d: Date) {
    !Before(d, MinDate) && !Before(MaxDate, d)
  }

  /** The following calendar day. */
  function Next(d: Date): (r: Date)
    requires Valid(d)
    ensures Valid(r) && Before(d, r)
    ensures forall x :: Valid(x) && Before(d, x) ==> !Before(x, r)
  {
    if d.day < DaysInMonth(d.year, d.month) then Date(d.year, d.month, d.day + 1)
    else if d.month < 12 then Date(d.year, d.month + 1, 1)
    else Date(d.year + 1, 1, 1)
  }

  /** The preceding calendar day. */
  function Prev(d: Date): (r: Date)
    requires Valid(d)
    ensures Valid(r) && Before(r, d)
    ensures forall x :: Valid(x) && Before(x, d) ==> !Before(r, x)
  {
    if d.day > 1 then Date(d.year, d.month, d.day - 1)
    else if d.month > 1 then Date(d.year, d.month - 1, DaysInMonth(d.year, d.month - 1))
    else Date(d.year - 1, 12, 31)
  }

  /** Stepping forward and back one day are inverse to each other. */
  lemma PrevNext(d: Date)
    requires Valid(d)
    ensures Prev(Next(d)) == d
    ensures Next(Prev(d)) == d
  {
  }

  /** The date `k` days after `d` (before it when `k` is negative): `setDate(getDate() + k)`. */
  function Shift(d: Date, k: int): (r: Date)
    requires Valid(d)
    ensures Valid(r)
    decreases if k >= 0 then k else -k
  {
    if k == 0 then d
    else if k > 0 then Shift(Next(d), k - 1)
    else Shift(Prev(d), k + 1)
  }

  lemma ShiftFromNext(d: Date, k: int)
    requires Valid(d)
    ensures Shift(Next(d), k) == Shift(d, k + 1)
  {
    PrevNext(d);
  }

  lemma ShiftFromPrev(d: Date, k: int)
    requires Valid(d)
    ensures Shift(Prev(d), k) == Shift(d, k - 1)
  {
    PrevNext(d);
  }

  /** Moving `a` days and then `b` days is moving `a + b` days. */
  lemma {:induction false} ShiftShift(d: Date, a: int, b: int)
    requires Valid(d)
    ensures Shift(Shift(d, a), b) == Shift(d, a + b)
    decreases if a >= 0 then a else -a
  {
    if a > 0 {
      ShiftShift(Next(d), a - 1, b);
      ShiftFromNext(d, a - 1 + b);
    } else if a < 0 {
      ShiftShift(Prev(d), a + 1, b);
      ShiftFromPrev(d, a + 1 + b);
    }
  }

  /** Within a month, moving `k` days adds `k` to the day of the month. */
  lemma {:induction false} ShiftWithinMonth(y: int, m: int, j: int, k: nat)
    requires 1 <= m <= 12 && 1 <= j && j + k <= DaysInMonth(y, m)
    ensures Shift(Date(y, m, j), k) == Date(y, m, j + k)
    decreases k
  {
    if k > 0 {
      ShiftWithinMonth(y, m, j + 1, k - 1);
    }
  }

  /** The year field of `toISOString`: four digits, or a sign and six digits. */
  function YearText(y: int): (s: string)
    requires -999999 <= y <= 999999
  {
    if 0 <= y <= 9999 then Padded(y, 4)
    else if y < 0 then "-" + Padded(-y, 6)
    else "+" + Padded(y, 6)
  }

  /** `toISO`: the date part of `toISOString()` for a date a `Date` can hold. */
  function ToIso(d: Date): (s: string)
    requires Valid(d) && InRange(d)
    ensures |s| == (if 0 <= d.year <= 9999 then 10 else 13)
    ensures s[|s| - 6] == '-' && s[|s| - 3] == '-'
    ensures AllDigits(s[|s| - 5..|s| - 3]) && AllDigits(s[|s| - 2..])
    ensures !(0 <= d.year <= 9999) ==> s[0] == (if d.year < 0 then '-' else '+')
  {
    YearText(d.year) + "-" + Padded(d.month, 2) + "-" + Padded(d.day, 2)
  }

  /** `new Date(y-m-dd)`: day `dd` of the month counted from its first day, then the range check. */
  function MakeDate(y: int, m: int, dd: int): (r: Option<Date>)
    ensures r.Some? ==> Valid(r.value) && InRange(r.value)
  {
    if 1 <= m <= 12 && 1 <= dd <= 31 then
      var d := Shift(Date(y, m, 1), dd - 1);
      if InRange(d) then Some(d) else None
    else None
  }

  /** `new Date(iso)` for the date-only forms; `None` stands for an invalid date. */
  function Parse(s: string): (r: Option<Date>)
    ensures r.Some? ==> Valid(r.value) && InRange(r.value)
  {
    if |s| == 10 && AllDigits(s[0..4]) && s[4] == '-' && AllDigits(s[5..7])
       && s[7] == '-' && AllDigits(s[8..10]) then
      MakeDate(Value(s[0..4]), Value(s[5..7]), Value(s[8..10]))
    else if |s| == 13 && (s[0] == '+' || s[0] == '-') && AllDigits(s[1..7])
            && s[7] == '-' && AllDigits(s[8..10]) && s[10] == '-' && AllDigits(s[11..13])
            && !(s[0] == '-' && Value(s[1..7]) == 0) then
      var y: int := if s[0] == '-' then -(Value(s[1..7]) as int) else Value(s[1..7]);
      MakeDate(y, Value(s[8..10]), Value(s[11..13]))
    else None
  }

  /** A string that `toISO` could have written. */
  predicate IsIsoDate(s: string) {
    Parse(s).Some? && ToIso(Parse(s).value) == s
  }

  /** Reading back what `toISO` wrote gives the same date. */
  lemma ParseToIso(d: Date)
    requires Valid(d) && InRange(d)
    ensures Parse(ToIso(d)) == Some(d)
  {
    ShiftWithinMonth(d.year, d.month, 1, d.day - 1);
    assert MakeDate(d.year, d.month, d.day) == Some(d);
    if 0 <= d.year <= 9999 {
      ParseFourDigitYear(d);
    } else {
      ParseExpandedYear(d);
    }
  }

  lemma ParseFourDigitYear(d: Date)
    requires Valid(d) && InRange(d) && 0 <= d.year <= 9999
    ensures Parse(ToIso(d)) == MakeDate(d.year, d.month, d.day)
  {
    var s := ToIso(d);
    ValueOfPadded(d.year, 4);
    ValueOfPadded(d.month, 2);
    ValueOfPadded(d.day, 2);
    assert s == Padded(d.year, 4) + "-" + Padded(d.month, 2) + "-" + Padded(d.day, 2);
    assert s[0..4] == Padded(d.year, 4);
    assert s[5..7] == Padded(d.month, 2);
    assert s[8..10] == Padded(d.day, 2);
  }

  lemma ParseExpandedYear(d: Date)
    requires Valid(d) && InRange(d) && !(0 <= d.year <= 9999)
    ensures Parse(ToIso(d)) == MakeDate(d.year, d.month, d.day)
  {
    var s := ToIso(d);
    var a := if d.year < 0 then -d.year else d.year;
    var sign := if d.year < 0 then '-' else '+';
    ValueOfPadded(a, 6);
    ValueOfPadded(d.month, 2);
    ValueOfPadded(d.day, 2);
    assert s == [sign] + Padded(a, 6) + "-" + Padded(d.month, 2) + "-" + Padded(d.day, 2);
    assert s[1..7] == Padded(a, 6);
    assert s[8..10] == Padded(d.month, 2);
    assert s[11..13] == Padded(d.day, 2);
  }

  /** Every date `toISO` writes passes `IsIsoDate`. */
  lemma ToIsoIsIsoDate(d: Date)
    requires Valid(d) && InRange(d)
    ensures IsIsoDate(ToIso(d))
  {
    ParseToIso(d);
  }

  /** For years 0 to 9999 `toISO` writes `YYYY-MM-DD`, each field the date's own number. */
  lemma ToIsoShape(d: Date)
    requires Valid(d) && InRange(d) && 0 <= d.year <= 9999
    ensures var s := ToIso(d);
      |s| == 10 && s[4] == '-' && s[7] == '-'
      && AllDigits(s[0..4]) && AllDigits(s[5..7]) && AllDigits(s[8..10])
      && Value(s[0..4]) == d.year && Value(s[5..7]) == d.month && Value(s[8..10]) == d.day
  {
    var s := ToIso(d);
    ValueOfPadded(d.year, 4);
    ValueOfPadded(d.month, 2);
    ValueOfPadded(d.day, 2);
    assert s[0..4] == Padded(d.year, 4);
    assert s[5..7] == Padded(d.month, 2);
    assert s[8..10] == Padded(d.day, 2);
  }

  /**
    `addDays(iso, delta)`: read the date, move `delta` days, write it back.
    `Failure` is the RangeError that `toISOString` throws on an invalid date.
   */
  function AddDays(iso: string, delta: int): (r: Result<string, DateError>)
    ensures r.Success? <==> Parse(iso).Some? && InRange(Shift(Parse(iso).value, delta))
    ensures r.Success? ==> IsIsoDate(r.value) && Parse(r.value) == Some(Shift(Parse(iso).value, delta))
  {
    match Parse(iso)
    case None => Failure(InvalidTimeValue)
    case Some(d) =>
      var moved := Shift(d, delta);
      if InRange(moved) then
        ParseToIso(moved);
        Success(ToIso(moved))
      else Failure(InvalidTimeValue)
  }

  /** After a successful move, a second move is one move by the sum (and fails exactly when that does). */
  lemma AddDaysAddDays(iso: string, a: int, b: int)
    requires AddDays(iso, a).Success?
    ensures AddDays(AddDays(iso, a).value, b) == AddDays(iso, a + b)
  {
    ShiftShift(Parse(iso).value, a, b);
  }

  /** Moving zero days gives back any date `toISO` wrote. */
  lemma AddDaysZero(iso: string)
    requires IsIsoDate(iso)
    ensures AddDays(iso, 0) == Success(iso)
  {
  }

  /** The day before any date except the first is a valid date. */
  lemma PrevInRange(d: Date)
    requires Valid(d) && InRange(d)
    ensures InRange(Prev(d)) <==> d != MinDate
  {
  }

  /** The day after any date except the last is a valid date. */
  lemma NextInRange(d: Date)
    requires Valid(d) && InRange(d)
    ensures InRange(Next(d)) <==> d != MaxDate
  {
  }

  /** `addDays(addDays(d, -1), 1) == d` for every date but the first a `Date` can hold. */
  lemma BackThenForward(iso: string)
    requires IsIsoDate(iso)
    ensures AddDays(iso, -1).Success? <==> Parse(iso).value != MinDate
    ensures AddDays(iso, -1).Success? ==> AddDays(AddDays(iso, -1).value, 1) == Success(iso)
  {
    var d := Parse(iso).value;
    PrevInRange(d);
    if AddDays(iso, -1).Success? {
      var p := AddDays(iso, -1).value;
      PrevNext(d);
      assert Parse(p) == Some(Prev(d));
    }
  }

  /** `addDays(addDays(d, 1), -1) == d` for every date but the last a `Date` can hold. */
  lemma ForwardThenBack(iso: string)
    requires IsIsoDate(iso)
    ensures AddDays(iso, 1).Success? <==> Parse(iso).value != MaxDate
    ensures AddDays(iso, 1).Success? ==> AddDays(AddDays(iso, 1).value, -1) == Success(iso)
  {
    var d := Parse(iso).value;
    NextInRange(d);
    if AddDays(iso, 1).Success? {
      var n := AddDays(iso, 1).value;
      PrevNext(d);
      assert Parse(n) == Some(Next(d));
    }
  }
}
