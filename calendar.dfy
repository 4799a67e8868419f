/** The wizard's calendar: days per month and weekdays of the proleptic
    Gregorian calendar, the Monday-first 42-cell month grid, the
    `YYYY-MM-DD` strings the grid hands out and reads back, the end-of-day
    due date and its ISO text, and month navigation. */
module Calendar {
  import opened Options
  import opened Digits

  /** A calendar day; `month` is 1..12 (JavaScript's `getMonth() + 1`). */
  datatype CalendarDate = CalendarDate(year: int, month: nat, day: nat)

  datatype YearMonth = YearMonth(year: int, month: nat)

  /** The years whose date strings both the date text and the ISO text write
      as four plain digits and that `new Date(y, m, d)` takes literally. */
  const MinYear: int := 1000
  const MaxYear: int := 9999

  predicate IsLeapYear(y: int) {
    y % 4 == 0 && (y % 100 != 0 || y % 400 == 0)
  }

  function DaysInMonth(y: int, m: nat): (n: nat)
    requires 1 <= m <= 12
    ensures 28 <= n <= 31
    ensures n == 29 <==> m == 2 && IsLeapYear(y)
    ensures n == 30 <==> m == 4 || m == 6 || m == 9 || m == 11
    ensures n == 28 <==> m == 2 && !IsLeapYear(y)
  {
    if m == 2 then (if IsLeapYear(y) then 29 else 28)
    else if m == 4 || m == 6 || m == 9 || m == 11 then 30
    else 31
  }

  /** A real day of a month in the modelled years. */
  predicate ValidDate(d: CalendarDate) {
    MinYear <= d.year <= MaxYear && 1 <= d.month <= 12 && 1 <= d.day <= DaysInMonth(d.year, d.month)
  }

  function PrevMonthOf(y: int, m: nat): (r: YearMonth)
    requires 1 <= m <= 12
    ensures 1 <= r.month <= 12
    ensures r.year * 12 + r.month == y * 12 + m - 1
  {
    if m == 1 then YearMonth(y - 1, 12) else YearMonth(y, m - 1)
  }

  function NextMonthOf(y: int, m: nat): (r: YearMonth)
    requires 1 <= m <= 12
    ensures 1 <= r.month <= 12
    ensures r.year * 12 + r.month == y * 12 + m + 1
  {
    if m == 12 then YearMonth(y + 1, 1) else YearMonth(y, m + 1)
  }

  lemma PrevUndoesNext(y: int, m: nat)
    requires 1 <= m <= 12
    ensures var n := NextMonthOf(y, m); PrevMonthOf(n.year, n.month) == YearMonth(y, m)
  {
  }

  lemma NextUndoesPrev(y: int, m: nat)
    requires 1 <= m <= 12
    ensures var p := PrevMonthOf(y, m); NextMonthOf(p.year, p.month) == YearMonth(y, m)
  {
  }

  /** `getDay()`: 0 is Sunday, 1 Monday, ..., 6 Saturday. */
  function Weekday(y: int, m: nat, d: nat): (w: nat)
    requires 1 <= m <= 12
    ensures w < 7
  {
    (MonthBase(y, m) + d) % 7
  }

  /** The part of the weekday formula that does not depend on the day. */
  function MonthBase(y: int, m: nat): int
    requires 1 <= m <= 12
  {
    var offsets := [0, 3, 2, 5, 0, 3, 5, 1, 4, 6, 2, 4];
    YearBase(if m < 3 then y - 1 else y) + offsets[m - 1]
  }

  /** The year's share of the weekday formula: one day per year and one per leap day before it. */
  function YearBase(yy: int): int {
    yy + yy / 4 - yy / 100 + yy / 400
  }

  /** Inside one month the weekday advances by one per day. */
  lemma WeekdayAdvances(y: int, m: nat, d: nat)
    requires 1 <= m <= 12 && 1 <= d
    ensures Weekday(y, m, d) == (Weekday(y, m, 1) + d - 1) % 7
  {
    var b := MonthBase(y, m);
    ModSevenShift(b + 1, d - 1);
  }

  /** The 1st of the next month falls as many weekdays after the 1st of
      this month as this month has days. */
  lemma WeekdayNextMonth(y: int, m: nat)
    requires 1 <= m <= 12
    ensures var n := NextMonthOf(y, m);
      Weekday(n.year, n.month, 1) == (Weekday(y, m, 1) + DaysInMonth(y, m)) % 7
  {
    var n := NextMonthOf(y, m);
    MonthBaseGap(y, m);
    WholeWeeksApart(MonthBase(y, m), MonthBase(n.year, n.month), DaysInMonth(y, m));
  }

  /** Two day numbers four or five weeks closer than `days` apart fall on weekdays `days` apart. */
  lemma WholeWeeksApart(a: int, b: int, days: int)
    requires b - a - days == -28 || b - a - days == -35
    ensures (b + 1) % 7 == ((a + 1) % 7 + days) % 7
  {
    ModSevenMultiple(if b - a - days == -28 then -4 else -5, a + 1 + days);
    ModSevenShift(a + 1, days);
  }

  /** From one month to the next the weekday formula's base moves by the
      month's length less four or five whole weeks. */
  lemma MonthBaseGap(y: int, m: nat)
    requires 1 <= m <= 12
    ensures var n := NextMonthOf(y, m);
      var gap := MonthBase(n.year, n.month) - MonthBase(y, m) - DaysInMonth(y, m);
      gap == -28 || gap == -35
  {
    if m == 2 {
      YearBaseStep(y);
    } else if m == 12 {
      assert MonthBase(y + 1, 1) == YearBase(y);
      assert MonthBase(y, 12) == YearBase(y) + 4;
    } else {
      var yy := if m < 3 then y - 1 else y;
      assert MonthBase(y, m) - YearBase(yy) == [0, 3, 2, 5, 0, 3, 5, 1, 4, 6, 2, 4][m - 1];
      assert MonthBase(y, m + 1) - YearBase(yy) == [0, 3, 2, 5, 0, 3, 5, 1, 4, 6, 2, 4][m];
    }
  }

  /** A year adds one day to the base, and a second one when it is a leap year. */
  lemma YearBaseStep(y: int)
    ensures YearBase(y) - YearBase(y - 1) == if IsLeapYear(y) then 2 else 1
  {
    LeapTerms(y);
    LeapPeriodsNest(y);
  }

  /** A multiple of 400 is a multiple of 100, and a multiple of 100 one of 4. */
  lemma LeapPeriodsNest(y: int)
    ensures y % 400 == 0 ==> y % 100 == 0
    ensures y % 100 == 0 ==> y % 4 == 0
  {
    if y % 400 == 0 {
      var q := y / 400;
      assert y == 100 * (4 * q);
      assert y / 100 == 4 * q;
    }
    if y % 100 == 0 {
      var q := y / 100;
      assert y == 4 * (25 * q);
      assert y / 4 == 25 * q;
    }
  }

  /** Stepping the year back by one changes each leap-year count by one
      exactly when the year is divisible by that count's period. */
  lemma LeapTerms(y: int)
    ensures y / 4 - (y - 1) / 4 == if y % 4 == 0 then 1 else 0
    ensures y / 100 - (y - 1) / 100 == if y % 100 == 0 then 1 else 0
    ensures y / 400 - (y - 1) / 400 == if y % 400 == 0 then 1 else 0
  {
  }

  /** Two fixed points of the calendar: 1 January 1970 was a Thursday and
      1 January 2000 a Saturday. */
  lemma WeekdayAnchors()
    ensures Weekday(1970, 1, 1) == 4 && Weekday(2000, 1, 1) == 6
  {
  }

  /** Adding to a number shifts its remainder modulo 7 alike. */
  lemma ModSevenShift(a: int, k: int)
    ensures (a + k) % 7 == (a % 7 + k) % 7
  {
    var q := a / 7;
    assert a == 7 * q + a % 7;
    ModSevenMultiple(q, a % 7 + k);
  }

  lemma ModSevenMultiple(q: int, x: int)
    ensures (7 * q + x) % 7 == x % 7
  {
  }

  /** The column of a weekday in the Monday-first header 月 火 水 木 金 土 日. */
  function MondayColumn(w: nat): (c: nat)
    requires w < 7
    ensures c < 7 && (c + 1) % 7 == w
  {
    (w + 6) % 7
  }

  /** `firstDay.getDay() || 7`: the weekday of the 1st, Sunday counted as 7. */
  function FirstDayOfWeek(y: int, m: nat): (f: nat)
    requires 1 <= m <= 12
    ensures 1 <= f <= 7 && f % 7 == Weekday(y, m, 1)
  {
    var w := Weekday(y, m, 1);
    if w == 0 then 7 else w
  }

  /** One grid cell. */
  datatype Cell = Cell(date: CalendarDate, isCurrentMonth: bool)

  /** A 42-cell grid for month `m` of year `y` opened by `lead` cells of
      the previous month: the last `lead` days of that month, then days 1..n
      of this month (the only cells flagged current), then days 1, 2, ... of
      the next month. */
  predicate GridShape(days: seq<Cell>, y: int, m: nat, lead: nat)
    requires 1 <= m <= 12
  {
    var n := DaysInMonth(y, m);
    var prev := PrevMonthOf(y, m);
    var next := NextMonthOf(y, m);
    var prevDays := DaysInMonth(prev.year, prev.month);
    && |days| == 42 && lead + n <= 42 && lead <= prevDays
    && (forall k :: 0 <= k < 42 ==> (days[k].isCurrentMonth <==> lead <= k < lead + n))
    && (forall k :: 0 <= k < lead ==> days[k].date == CalendarDate(prev.year, prev.month, prevDays - lead + 1 + k))
    && (forall k :: lead <= k < lead + n ==> days[k].date == CalendarDate(y, m, k - lead + 1))
    && (forall k :: lead + n <= k < 42 ==> days[k].date == CalendarDate(next.year, next.month, k - lead - n + 1))
  }

  /** `getDaysInMonth` as the source writes it: the first loop runs from
      `firstDayOfWeek - 1` down to 0 inclusive and so pushes
      `firstDayOfWeek` (1..7) cells of the previous month. */
  method GetDaysInMonthAsWritten(year: int, month: nat) returns (days: seq<Cell>)
    requires 1 <= month <= 12
    ensures GridShape(days, year, month, FirstDayOfWeek(year, month))
  {
    var firstDayOfWeek := FirstDayOfWeek(year, month);
    days := FillGrid(year, month, firstDayOfWeek);
  }

  /** `getDaysInMonth` with the leading loop stopping one cell earlier, so that
      `firstDayOfWeek - 1` cells precede the 1st. */
  method GetDaysInMonth(year: int, month: nat) returns (days: seq<Cell>)
    requires 1 <= month <= 12
    ensures GridShape(days, year, month, FirstDayOfWeek(year, month) - 1)
    ensures forall k :: 0 <= k < 42 && days[k].isCurrentMonth ==>
      k % 7 == MondayColumn(Weekday(days[k].date.year, days[k].date.month, days[k].date.day))
  {
    var firstDayOfWeek := FirstDayOfWeek(year, month);
    days := FillGrid(year, month, firstDayOfWeek - 1);
    forall k | 0 <= k < 42 && days[k].isCurrentMonth
      ensures k % 7 == MondayColumn(Weekday(days[k].date.year, days[k].date.month, days[k].date.day))
    {
      GridColumn(year, month, k - (firstDayOfWeek - 1) + 1);
    }
  }

  /** Day `d` of the month, placed at `MondayColumn(weekday of the 1st) + d - 1`,
      sits in the column of its own weekday. */
  lemma GridColumn(y: int, m: nat, d: nat)
    requires 1 <= m <= 12 && 1 <= d
    ensures (FirstDayOfWeek(y, m) - 1 + d - 1) % 7 == MondayColumn(Weekday(y, m, d))
  {
    WeekdayAdvances(y, m, d);
    var w := Weekday(y, m, 1);
    assert FirstDayOfWeek(y, m) - 1 == MondayColumn(w);
    MondayColumnShift(w, d - 1);
  }

  /** Moving `k` days on moves the Monday-first column by `k`, modulo 7. */
  lemma MondayColumnShift(w: nat, k: nat)
    requires w < 7
    ensures (MondayColumn(w) + k) % 7 == MondayColumn((w + k) % 7)
  {
    assert (MondayColumn(w) + k) % 7 == (w + 6 + k) % 7 by {
      assert w + 6 == (w + 6) / 7 * 7 + MondayColumn(w);
    }
    assert ((w + k) % 7 + 6) % 7 == (w + k + 6) % 7 by {
      assert w + k == (w + k) / 7 * 7 + (w + k) % 7;
    }
  }

  /** In the grid as written the 1st lands one column to the right of its
      weekday, in every month. */
  lemma AsWrittenGridShiftsFirst(days: seq<Cell>, y: int, m: nat)
    requires 1 <= m <= 12
    requires GridShape(days, y, m, FirstDayOfWeek(y, m))
    ensures var lead := FirstDayOfWeek(y, m);
      days[lead].date == CalendarDate(y, m, 1)
      && lead % 7 == (MondayColumn(Weekday(y, m, 1)) + 1) % 7
      && lead % 7 != MondayColumn(Weekday(y, m, 1))
  {
  }

  /** September 2025 begins on a Monday, yet the grid as written puts the
      1st in the Tuesday column, behind one cell of August. */
  lemma AsWrittenSeptember2025(days: seq<Cell>)
    requires GridShape(days, 2025, 9, FirstDayOfWeek(2025, 9))
    ensures Weekday(2025, 9, 1) == 1 && MondayColumn(1) == 0
    ensures days[0].date == CalendarDate(2025, 8, 31) && days[1].date == CalendarDate(2025, 9, 1)
  {
  }

  /** The three push loops of `getDaysInMonth`, given how many previous-month
      cells the first loop produces. */
  method FillGrid(year: int, month: nat, lead: nat) returns (days: seq<Cell>)
    requires 1 <= month <= 12 && lead <= 7
    ensures GridShape(days, year, month, lead)
  {
    var prev := PrevMonthOf(year, month);
    var next := NextMonthOf(year, month);
    var prevDays := DaysInMonth(prev.year, prev.month);
    var n := DaysInMonth(year, month);
    days := [];
    // previous month: new Date(year, month, -i) is the (prevDays - i)-th day
    for i := lead downto 0
      invariant |days| == lead - i
      invariant forall k :: 0 <= k < |days| ==>
        days[k] == Cell(CalendarDate(prev.year, prev.month, prevDays - lead + 1 + k), false)
    {
      days := days + [Cell(CalendarDate(prev.year, prev.month, prevDays - i), false)];
    }
    // this month
    for i := 1 to n + 1
      invariant |days| == lead + i - 1
      invariant forall k :: 0 <= k < lead ==>
        days[k] == Cell(CalendarDate(prev.year, prev.month, prevDays - lead + 1 + k), false)
      invariant forall k :: lead <= k < |days| ==> days[k] == Cell(CalendarDate(year, month, k - lead + 1), true)
    {
      days := days + [Cell(CalendarDate(year, month, i), true)];
    }
    // next month, up to 42 cells
    var remainingDays := 42 - |days|;
    for i := 1 to remainingDays + 1
      invariant |days| == lead + n + i - 1
      invariant forall k :: 0 <= k < lead ==>
        days[k] == Cell(CalendarDate(prev.year, prev.month, prevDays - lead + 1 + k), false)
      invariant forall k :: lead <= k < lead + n ==> days[k] == Cell(CalendarDate(year, month, k - lead + 1), true)
      invariant forall k :: lead + n <= k < |days| ==>
        days[k] == Cell(CalendarDate(next.year, next.month, k - lead - n + 1), false)
    {
      days := days + [Cell(CalendarDate(next.year, next.month, i), false)];
    }
  }

  // ---------------------------------------------------------------------
  // Date strings

  /** `${date.getFullYear()}`: negative years carry a minus sign. */
  function YearText(y: int): string {
    if y >= 0 then NatToString(y) else "-" + NatToString(-y)
  }

  /** The `YYYY-MM-DD` string a grid cell stores as the selected date: for
      a real day, ten characters with dashes at positions 4 and 7. */
  function FormatDateString(d: CalendarDate): (r: string)
    ensures ValidDate(d) ==> |r| == 10 && r[4] == '-' && r[7] == '-'
  {
    DatePartWidths(d);
    YearText(d.year) + "-" + Padded(d.month, 2) + "-" + Padded(d.day, 2)
  }

  lemma DatePartWidths(d: CalendarDate)
    ensures ValidDate(d) ==> |YearText(d.year)| == 4 && |Padded(d.month, 2)| == 2 && |Padded(d.day, 2)| == 2
  {
    if ValidDate(d) {
      assert Pow10(2) == 100 && Pow10(3) == 1000 && Pow10(4) == 10000;
      NatToStringAtLeast(d.year, 4);
      NatToStringAtMost(d.year, 4);
      PaddedReadsBack(d.month, 2);
      PaddedReadsBack(d.day, 2);
    }
  }

  /** `Number` fed one more character of its part: a digit extends the
      value, anything else makes the part `NaN` (`None`). */
  function Feed(cur: Option<nat>, c: char): Option<nat> {
    if IsDigit(c) && cur.Some? then Some(cur.value * 10 + DigitValue(c)) else None
  }

  /** `s.split('-').map(Number)`, read one character at a time from the
      left: a dash closes the current part and opens an empty one, which
      `Number` reads as 0; any other character is fed to the current part. */
  function SplitNumbers(s: string): (r: seq<Option<nat>>)
    ensures |r| >= 1
    decreases |s|
  {
    if s == [] then [Some(0)]
    else
      var init := SplitNumbers(s[..|s| - 1]);
      var c := s[|s| - 1];
      if c == '-' then init + [Some(0)]
      else init[..|init| - 1] + [Feed(init[|init| - 1], c)]
  }

  /** A dash closes the parts so far and opens a new one. */
  lemma SplitNumbersDash(p: string)
    ensures SplitNumbers(p + ['-']) == SplitNumbers(p) + [Some(0)]
  {
    assert (p + ['-'])[..|p|] == p;
  }

  /** Appending a dash-free part `t` to text whose current part is still
      empty makes that part `Number(t)`. */
  lemma {:induction false} SplitNumbersPart(p: string, t: string)
    requires '-' !in t
    requires var r := SplitNumbers(p); r[|r| - 1] == Some(0)
    ensures var r := SplitNumbers(p); SplitNumbers(p + t) == r[..|r| - 1] + [JsNumber(t)]
    decreases |t|
  {
    if t == [] {
      var r := SplitNumbers(p);
      assert p + t == p;
      assert r == r[..|r| - 1] + [r[|r| - 1]];
    } else {
      var init := t[..|t| - 1];
      var c := t[|t| - 1];
      assert t == init + [c];
      assert '-' !in init by {
        forall i | 0 <= i < |init| ensures init[i] == t[i] { }
      }
      SplitNumbersPart(p, init);
      SplitNumbersPartStep(p, init, c);
      assert p + init + [c] == p + t;
    }
  }

  /** The inductive step of `SplitNumbersPart`: one more character of the part. */
  lemma SplitNumbersPartStep(p: string, init: string, c: char)
    requires c != '-'
    requires var r := SplitNumbers(p); SplitNumbers(p + init) == r[..|r| - 1] + [JsNumber(init)]
    ensures var r := SplitNumbers(p); SplitNumbers(p + init + [c]) == r[..|r| - 1] + [JsNumber(init + [c])]
  {
    var r := SplitNumbers(p);
    var q := SplitNumbers(p + init);
    assert q[..|q| - 1] == r[..|r| - 1] && q[|q| - 1] == JsNumber(init);
    SplitNumbersFeed(p + init, c);
    FeedNumber(init, c);
  }

  /** One more character that is not a dash is fed to the current part. */
  lemma SplitNumbersFeed(p: string, c: char)
    requires c != '-'
    ensures var q := SplitNumbers(p);
      SplitNumbers(p + [c]) == q[..|q| - 1] + [Feed(q[|q| - 1], c)]
  {
    assert (p + [c])[..|p|] == p;
  }

  /** Feeding a character to `Number(t)` gives `Number` of the longer text. */
  lemma FeedNumber(t: string, c: char)
    ensures Feed(JsNumber(t), c) == JsNumber(t + [c])
  {
    var u := t + [c];
    assert u[..|u| - 1] == t && u[|u| - 1] == c;
    if AllDigits(u) {
      assert AllDigits(t) by {
        forall i | 0 <= i < |t| ensures IsDigit(t[i]) { assert t[i] == u[i]; }
      }
    } else if AllDigits(t) {
      assert !IsDigit(c) by {
        forall i | 0 <= i < |u| ensures i < |t| ==> u[i] == t[i] { }
      }
    }
  }

  /** The scanner agrees with `split('-')` followed by `map(Number)`: text
      without a dash is one part, and a dash followed by a dash-free part
      adds that part's number. */
  lemma SplitNumbersIsSplitMap(p: string, t: string)
    requires '-' !in t
    ensures SplitNumbers(t) == [JsNumber(t)]
    ensures SplitNumbers(p + ['-'] + t) == SplitNumbers(p) + [JsNumber(t)]
  {
    assert SplitNumbers([]) == [Some(0)];
    SplitNumbersPart([], t);
    assert [] + t == t;
    SplitNumbersDash(p);
    var r := SplitNumbers(p + ['-']);
    assert r[..|r| - 1] == SplitNumbers(p);
    SplitNumbersPart(p + ['-'], t);
  }

  /** `const [year, month, day] = s.split('-').map(Number)`; `None` when a
      part is missing or not a number, where the source goes on to build an
      invalid date. */
  function ParseDateString(s: string): (r: Option<CalendarDate>)
    ensures var parts := SplitNumbers(s);
      r.Some? <==> |parts| >= 3 && parts[0].Some? && parts[1].Some? && parts[2].Some?
    ensures var parts := SplitNumbers(s);
      r.Some? ==> r.value == CalendarDate(parts[0].value, parts[1].value, parts[2].value)
  {
    var nums := SplitNumbers(s);
    if |nums| < 3 then None
    else match (nums[0], nums[1], nums[2])
      case (Some(y), Some(m), Some(d)) => Some(CalendarDate(y, m, d))
      case _ => None
  }

  lemma DigitsHaveNoDash(s: string)
    requires AllDigits(s)
    ensures '-' !in s
  {
    forall i | 0 <= i < |s| ensures s[i] != '-' {
      assert IsDigit(s[i]);
    }
  }

  /** Three digit strings joined by dashes parse as the numbers they spell. */
  lemma ParseOfDigits(a: string, b: string, c: string)
    requires AllDigits(a) && AllDigits(b) && AllDigits(c)
    ensures ParseDateString(a + "-" + b + "-" + c)
         == Some(CalendarDate(DigitsValue(a), DigitsValue(b), DigitsValue(c)))
  {
    DigitsHaveNoDash(a);
    DigitsHaveNoDash(b);
    DigitsHaveNoDash(c);
    SplitNumbersIsSplitMap([], a);
    SplitNumbersIsSplitMap(a, b);
    SplitNumbersIsSplitMap(a + "-" + b, c);
    assert a + "-" + b == a + ['-'] + b;
    assert a + "-" + b + "-" + c == (a + ['-'] + b) + ['-'] + c;
  }

  /** Reading back a grid cell's date string gives the cell's date. */
  lemma DateStringRoundTrip(d: CalendarDate)
    requires ValidDate(d)
    ensures ParseDateString(FormatDateString(d)) == Some(d)
  {
    assert Pow10(2) == 100;
    PaddedReadsBack(d.month, 2);
    PaddedReadsBack(d.day, 2);
    NatToStringRoundTrip(d.year);
    ParseOfDigits(NatToString(d.year), Padded(d.month, 2), Padded(d.day, 2));
  }

  // ---------------------------------------------------------------------
  // Due dates

  /** A local date and time of day. */
  datatype Timestamp = Timestamp(date: CalendarDate, hour: nat, minute: nat, second: nat, millis: nat)

  /** `new Date(y, m - 1, d)` followed by `setHours(23, 59, 59, 999)` */
  function EndOfDay(d: CalendarDate): (t: Timestamp)
    ensures t.date == d && t.hour == 23 && t.minute == 59 && t.second == 59 && t.millis == 999
  {
    Timestamp(d, 23, 59, 59, 999)
  }

  /** One field of an ISO timestamp: the text before it, its value and the
      width it is padded to with zeros. */
  datatype IsoField = IsoField(prefix: string, value: nat, width: nat)

  /** The fields of `toISOString()` in order: the year (four digits for
      0..9999, otherwise six digits after a sign), then month, day, hours,
      minutes, seconds and milliseconds. */
  function IsoFields(t: Timestamp): (fields: seq<IsoField>)
    ensures |fields| == 7
  {
    var y := t.date.year;
    var year := if 0 <= y <= 9999 then IsoField("", y, 4)
                else if y > 9999 then IsoField("+", y, 6)
                else IsoField("-", -y, 6);
    [year, IsoField("-", t.date.month, 2), IsoField("-", t.date.day, 2), IsoField("T", t.hour, 2),
     IsoField(":", t.minute, 2), IsoField(":", t.second, 2), IsoField(".", t.millis, 3)]
  }

  /** A field as written: its prefix, then its zero-padded value. */
  function FieldText(f: IsoField): string {
    f.prefix + Padded(f.value, f.width)
  }

  /** The fields written one after the other. */
  function JoinFields(fields: seq<IsoField>): string
    decreases |fields|
  {
    if fields == [] then "" else FieldText(fields[0]) + JoinFields(fields[1..])
  }

  /** Every field of a timestamp fits the width `toISOString()` gives it. */
  predicate FieldsFit(t: Timestamp) {
    0 <= t.date.year <= 9999 && t.date.month < 100 && t.date.day < 100
    && t.hour < 100 && t.minute < 100 && t.second < 100 && t.millis < 1000
  }

  /** `toISOString()` of a timestamp taken at UTC offset zero: it ends in
      `Z`, and is 24 characters long when every field fits its width. */
  function IsoString(t: Timestamp): (r: string)
    ensures |r| >= 1 && r[|r| - 1] == 'Z'
    ensures FieldsFit(t) ==> |r| == 24
  {
    IsoFieldsWidth(t);
    JoinFields(IsoFields(t)) + "Z"
  }

  lemma IsoFieldsWidth(t: Timestamp)
    ensures FieldsFit(t) ==> |JoinFields(IsoFields(t))| == 23
  {
    if FieldsFit(t) {
      var f := IsoFields(t);
      assert Pow10(2) == 100 && Pow10(3) == 1000 && Pow10(4) == 10000;
      assert f[0..] == f && f[7..] == [];
      JoinFieldsAt(f, 0);
      JoinFieldsAt(f, 1);
      JoinFieldsAt(f, 2);
      JoinFieldsAt(f, 3);
      JoinFieldsAt(f, 4);
      JoinFieldsAt(f, 5);
      JoinFieldsAt(f, 6);
      PaddedReadsBack(t.date.year, 4);
      PaddedReadsBack(t.date.month, 2);
      PaddedReadsBack(t.date.day, 2);
      PaddedReadsBack(t.hour, 2);
      PaddedReadsBack(t.minute, 2);
      PaddedReadsBack(t.second, 2);
      PaddedReadsBack(t.millis, 3);
    }
  }

  lemma JoinFieldsAt(fields: seq<IsoField>, i: nat)
    requires i < |fields|
    ensures JoinFields(fields[i..]) == FieldText(fields[i]) + JoinFields(fields[i + 1..])
  {
    assert fields[i..][1..] == fields[i + 1..];
  }

  /** Moving one field from the text still to come onto the text written so far. */
  lemma MoveField(done: string, sep: string, value: string, rest: string)
    ensures done + ((sep + value) + rest) == ((done + sep) + value) + rest
  {
    assert (sep + value) + rest == sep + (value + rest);
    assert done + (sep + (value + rest)) == (done + sep) + (value + rest);
    assert (done + sep) + (value + rest) == ((done + sep) + value) + rest;
  }

  /** The due date of a selected day reads as the day's own date string at
      23:59:59.999. */
  lemma DueDateText(d: CalendarDate)
    requires ValidDate(d)
    ensures IsoString(EndOfDay(d)) == FormatDateString(d) + "T23:59:59.999Z"
  {
    assert Pow10(3) == 1000;
    PaddedIsPlain(d.year, 4);
    PaddedLiterals();
    var date := YearText(d.year) + "-" + Padded(d.month, 2) + "-" + Padded(d.day, 2);
    IsoStringOfPlainYear(EndOfDay(d));
    EndOfDaySuffix(date);
  }

  lemma EndOfDaySuffix(date: string)
    ensures date + "T" + "23" + ":" + "59" + ":" + "59" + "." + "999" + "Z" == date + "T23:59:59.999Z"
  {
  }

  /** For years 0..9999 the ISO text is the four-digit year followed by the
      other fields with their separators. */
  lemma IsoStringOfPlainYear(t: Timestamp)
    requires 0 <= t.date.year <= 9999
    ensures IsoString(t) == Padded(t.date.year, 4) + "-" + Padded(t.date.month, 2) + "-" + Padded(t.date.day, 2)
      + "T" + Padded(t.hour, 2) + ":" + Padded(t.minute, 2) + ":" + Padded(t.second, 2)
      + "." + Padded(t.millis, 3) + "Z"
  {
    var f := IsoFields(t);
    var r1, r2, r3 := JoinFields(f[1..]), JoinFields(f[2..]), JoinFields(f[3..]);
    var r4, r5, r6, r7 := JoinFields(f[4..]), JoinFields(f[5..]), JoinFields(f[6..]), JoinFields(f[7..]);
    assert f[0..] == f && f[7..] == [] && r7 == [];
    JoinFieldsAt(f, 0);
    JoinFieldsAt(f, 1);
    JoinFieldsAt(f, 2);
    JoinFieldsAt(f, 3);
    JoinFieldsAt(f, 4);
    JoinFieldsAt(f, 5);
    JoinFieldsAt(f, 6);
    var a0 := Padded(t.date.year, 4);
    assert FieldText(f[0]) == a0;
    MoveField(a0, "-", Padded(t.date.month, 2), r2);
    var a1 := a0 + "-" + Padded(t.date.month, 2);
    MoveField(a1, "-", Padded(t.date.day, 2), r3);
    var a2 := a1 + "-" + Padded(t.date.day, 2);
    MoveField(a2, "T", Padded(t.hour, 2), r4);
    var a3 := a2 + "T" + Padded(t.hour, 2);
    MoveField(a3, ":", Padded(t.minute, 2), r5);
    var a4 := a3 + ":" + Padded(t.minute, 2);
    MoveField(a4, ":", Padded(t.second, 2), r6);
    var a5 := a4 + ":" + Padded(t.second, 2);
    MoveField(a5, ".", Padded(t.millis, 3), r7);
    var a6 := a5 + "." + Padded(t.millis, 3);
    assert a6 + r7 == a6;
    assert JoinFields(f) == a6;
  }

  lemma PaddedLiterals()
    ensures Padded(23, 2) == "23" && Padded(59, 2) == "59" && Padded(999, 3) == "999"
  {
    assert NatToString(2) == "2" && NatToString(5) == "5" && NatToString(9) == "9";
    assert NatToString(23) == "23" && NatToString(59) == "59";
    assert NatToString(99) == "99";
    assert NatToString(999) == "999";
  }

  // ---------------------------------------------------------------------
  // Month navigation

  /** `date.setMonth(...)` towards `target` as JavaScript does it: the day of
      month is kept, and a day the target month lacks runs over into the
      month after it. */
  function SetMonthKeepingDay(d: CalendarDate, target: YearMonth): (r: CalendarDate)
    requires 1 <= target.month <= 12 && d.day <= 31
    ensures r.day <= 31 && 1 <= r.month <= 12
    ensures d.day <= DaysInMonth(target.year, target.month) ==>
      r == CalendarDate(target.year, target.month, d.day)
    ensures d.day > DaysInMonth(target.year, target.month) ==>
      YearMonth(r.year, r.month) == NextMonthOf(target.year, target.month)
      && DaysInMonth(target.year, target.month) + r.day == d.day && 1 <= r.day <= 3
  {
    var n := DaysInMonth(target.year, target.month);
    if d.day <= n then CalendarDate(target.year, target.month, d.day)
    else
      var after := NextMonthOf(target.year, target.month);
      CalendarDate(after.year, after.month, d.day - n)
  }

  /** The "previous month" button as written: `setMonth(getMonth() - 1)`.
      It shows the month before exactly when that month has the current day;
      otherwise it stays on the current month. */
  function PreviousMonthAsWritten(d: CalendarDate): (r: CalendarDate)
    requires 1 <= d.month <= 12 && d.day <= 31
    ensures var prev := PrevMonthOf(d.year, d.month);
      (d.day <= DaysInMonth(prev.year, prev.month) ==> r == CalendarDate(prev.year, prev.month, d.day))
      && (d.day > DaysInMonth(prev.year, prev.month) ==> r.year == d.year && r.month == d.month && r.day < d.day)
  {
    var prev := PrevMonthOf(d.year, d.month);
    NextUndoesPrev(d.year, d.month);
    SetMonthKeepingDay(d, prev)
  }

  /** The "next month" button as written: `setMonth(getMonth() + 1)`.
      It shows the month after exactly when that month has the current day;
      otherwise it skips to the month after that. */
  function NextMonthAsWritten(d: CalendarDate): (r: CalendarDate)
    requires 1 <= d.month <= 12 && d.day <= 31
    ensures var next := NextMonthOf(d.year, d.month);
      (d.day <= DaysInMonth(next.year, next.month) ==> r == CalendarDate(next.year, next.month, d.day))
      && (d.day > DaysInMonth(next.year, next.month) ==>
            r.year * 12 + r.month == d.year * 12 + d.month + 2 && r.day < d.day)
  {
    SetMonthKeepingDay(d, NextMonthOf(d.year, d.month))
  }

  /** From 31 March "previous" shows March again; from 31 January "next"
      skips February. */
  lemma MonthButtonsAsWrittenMisstep()
    ensures PreviousMonthAsWritten(CalendarDate(2025, 3, 31)) == CalendarDate(2025, 3, 3)
    ensures NextMonthAsWritten(CalendarDate(2025, 1, 31)) == CalendarDate(2025, 3, 3)
  {
  }

  /** Moving to `target` with the day clamped to the target month's length. */
  function ShowMonth(d: CalendarDate, target: YearMonth): (r: CalendarDate)
    requires 1 <= target.month <= 12 && 1 <= d.day
    ensures r.year == target.year && r.month == target.month
    ensures 1 <= r.day <= DaysInMonth(r.year, r.month)
    ensures r.day == d.day || r.day == DaysInMonth(r.year, r.month) < d.day
  {
    var n := DaysInMonth(target.year, target.month);
    CalendarDate(target.year, target.month, if d.day <= n then d.day else n)
  }

  /** The "previous month" button, corrected: always the month before. */
  function PreviousMonth(d: CalendarDate): (r: CalendarDate)
    requires 1 <= d.month <= 12 && 1 <= d.day
    ensures YearMonth(r.year, r.month) == PrevMonthOf(d.year, d.month)
    ensures 1 <= r.day <= DaysInMonth(r.year, r.month)
  {
    ShowMonth(d, PrevMonthOf(d.year, d.month))
  }

  /** The "next month" button, corrected: always the month after. */
  function NextMonth(d: CalendarDate): (r: CalendarDate)
    requires 1 <= d.month <= 12 && 1 <= d.day
    ensures YearMonth(r.year, r.month) == NextMonthOf(d.year, d.month)
    ensures 1 <= r.day <= DaysInMonth(r.year, r.month)
  {
    ShowMonth(d, NextMonthOf(d.year, d.month))
  }
}
