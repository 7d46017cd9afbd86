/** Stored times: fixed-width text whose order is the order of the instants, read back exactly. */
module Timestamps {
  import opened Core

  // ---------------------------------------------------------------------------
  // Fixed-width fields
  // ---------------------------------------------------------------------------

  /** Byte-wise string order. */
  predicate LexLess(a: string, b: string) {
    b != "" && (a == "" || a[0] < b[0] || (a[0] == b[0] && LexLess(a[1..], b[1..])))
  }

  function Pow10(n: nat): nat
    ensures Pow10(n) > 0
  {
    if n == 0 then 1 else 10 * Pow10(n - 1)
  }

  function Digit(d: nat): char
    requires d < 10
  {
    '0' + d as char
  }

  /** `v` in decimal with exactly `width` digits. */
  function Digits(v: nat, width: nat): (s: string)
    requires v < Pow10(width)
    ensures |s| == width
  {
    if width == 0 then "" else Digits(v / 10, width - 1) + [Digit(v % 10)]
  }

  /** The number of a string of digits; none if another character is among them. */
  function Value(s: string): Option<nat> {
    if s == "" then Some(0)
    else
      var (init, c) := (Value(s[..|s| - 1]), s[|s| - 1]);
      if init.None? || !('0' <= c <= '9') then None else Some(init.value * 10 + (c - '0') as nat)
  }

  /** A field of the layout: its width and the character after it. */
  datatype Slot = Slot(width: nat, after: char)

  predicate Fits(slots: seq<Slot>, values: seq<nat>) {
    |values| == |slots| && forall i :: 0 <= i < |slots| ==> values[i] < Pow10(slots[i].width)
  }

  function Print(slots: seq<Slot>, values: seq<nat>): string
    requires Fits(slots, values)
  {
    if slots == [] then ""
    else Digits(values[0], slots[0].width) + [slots[0].after] + Print(slots[1..], values[1..])
  }

  function Scan(slots: seq<Slot>, s: string): Option<seq<nat>> {
    if slots == [] then (if s == "" then Some([]) else None)
    else
      var w := slots[0].width;
      if |s| <= w || s[w] != slots[0].after || Value(s[..w]).None? then None
      else
        var rest := Scan(slots[1..], s[w + 1..]);
        if rest.None? then None else Some([Value(s[..w]).value] + rest.value)
  }

  predicate TupleLess(a: seq<nat>, b: seq<nat>)
    requires |a| == |b|
  {
    a != [] && (a[0] < b[0] || (a[0] == b[0] && TupleLess(a[1..], b[1..])))
  }

  lemma {:induction false} LexJoin(a: string, b: string, c: string, d: string)
    requires |a| == |c|
    ensures LexLess(a + b, c + d) <==> LexLess(a, c) || (a == c && LexLess(b, d))
  {
    if a == "" {
      assert a + b == b && c + d == d;
    } else {
      LexJoin(a[1..], b, c[1..], d);
      assert (a + b)[1..] == a[1..] + b && (c + d)[1..] == c[1..] + d;
      assert a == c <==> a[0] == c[0] && a[1..] == c[1..] by {
        assert a == [a[0]] + a[1..] && c == [c[0]] + c[1..];
      }
    }
  }

  lemma {:induction false} DigitsOrder(m: nat, n: nat, width: nat)
    requires m < Pow10(width) && n < Pow10(width)
    ensures LexLess(Digits(m, width), Digits(n, width)) <==> m < n
    ensures Digits(m, width) == Digits(n, width) <==> m == n
  {
    if width > 0 {
      DigitsOrder(m / 10, n / 10, width - 1);
      var (a, b, c, d) := (Digits(m / 10, width - 1), [Digit(m % 10)], Digits(n / 10, width - 1), [Digit(n % 10)]);
      LexJoin(a, b, c, d);
      assert LexLess(b, d) <==> m % 10 < n % 10;
      JoinEqual(a, b, c, d);
    }
  }

  lemma JoinEqual(a: string, b: string, c: string, d: string)
    requires |a| == |c|
    ensures a + b == c + d <==> a == c && b == d
  {
    if a + b == c + d {
      assert a == (a + b)[..|a|] && c == (c + d)[..|a|];
      assert b == (a + b)[|a|..] && d == (c + d)[|a|..];
    }
  }

  /** Printed with one layout, texts are ordered as their values. */
  lemma {:induction false} PrintOrder(slots: seq<Slot>, a: seq<nat>, b: seq<nat>)
    requires Fits(slots, a) && Fits(slots, b)
    ensures LexLess(Print(slots, a), Print(slots, b)) <==> TupleLess(a, b)
  {
    if slots != [] {
      var w := slots[0].width;
      var (ra, rb) := (Print(slots[1..], a[1..]), Print(slots[1..], b[1..]));
      PrintOrder(slots[1..], a[1..], b[1..]);
      DigitsOrder(a[0], b[0], w);
      var (ha, hb) := (Digits(a[0], w) + [slots[0].after], Digits(b[0], w) + [slots[0].after]);
      LexJoin(ha, ra, hb, rb);
      LexJoin(Digits(a[0], w), [slots[0].after], Digits(b[0], w), [slots[0].after]);
      JoinEqual(Digits(a[0], w), [slots[0].after], Digits(b[0], w), [slots[0].after]);
      assert !LexLess([slots[0].after], [slots[0].after]);
      hide Digits, LexLess;
    }
  }

  lemma {:induction false} DigitsValue(v: nat, width: nat)
    requires v < Pow10(width)
    ensures Value(Digits(v, width)) == Some(v)
  {
    if width > 0 {
      DigitsValue(v / 10, width - 1);
      var s := Digits(v, width);
      assert s[..|s| - 1] == Digits(v / 10, width - 1);
      assert (Digit(v % 10) - '0') as nat == v % 10;
    }
  }

  /** What was printed is read back. */
  lemma {:induction false} ScanPrint(slots: seq<Slot>, values: seq<nat>)
    requires Fits(slots, values)
    ensures Scan(slots, Print(slots, values)) == Some(values)
  {
    if slots != [] {
      var w := slots[0].width;
      ScanPrint(slots[1..], values[1..]);
      DigitsValue(values[0], w);
      var (head, rest) := (Digits(values[0], w), Print(slots[1..], values[1..]));
      var s := Print(slots, values);
      hide Digits, Value, Print, Scan;
      assert s == head + [slots[0].after] + rest by { PrintStep(slots, values); }
      assert s[..w] == head && s[w] == slots[0].after && s[w + 1..] == rest;
      ScanStep(slots, s);
      assert [values[0]] + values[1..] == values;
    }
  }

  lemma PrintStep(slots: seq<Slot>, values: seq<nat>)
    requires Fits(slots, values) && slots != []
    ensures Print(slots, values) == Digits(values[0], slots[0].width) + [slots[0].after] + Print(slots[1..], values[1..])
  {
  }

  lemma ScanStep(slots: seq<Slot>, s: string)
    requires slots != []
    ensures var w := slots[0].width;
      |s| > w && s[w] == slots[0].after && Value(s[..w]).Some? && Scan(slots[1..], s[w + 1..]).Some? ==>
        Scan(slots, s) == Some([Value(s[..w]).value] + Scan(slots[1..], s[w + 1..]).value)
  {
  }

  // ---------------------------------------------------------------------------
  // The calendar
  // ---------------------------------------------------------------------------

  datatype Civil = Civil(year: nat, month: nat, day: nat, hour: nat, minute: nat, second: nat, nano: nat)

  predicate Leap(year: nat) {
    year % 4 == 0 && (year % 100 != 0 || year % 400 == 0)
  }

  function MonthDays(year: nat, month: nat): nat {
    if month in {4, 6, 9, 11} then 30 else if month == 2 then (if Leap(year) then 29 else 28) else 31
  }

  predicate Valid(c: Civil) {
    && c.year <= 9999 && 1 <= c.month <= 12 && 1 <= c.day <= MonthDays(c.year, c.month)
    && c.hour < 24 && c.minute < 60 && c.second < 60 && c.nano < 1_000_000_000
  }

  /** Days from the first of year zero to the first of a year, and within a year to the first of a month. */
  function YearStart(year: nat): nat {
    if year == 0 then 0 else YearStart(year - 1) + (if Leap(year - 1) then 366 else 365)
  }

  function MonthStart(year: nat, month: nat): nat {
    if month <= 1 then 0 else MonthStart(year, month - 1) + MonthDays(year, month - 1)
  }

  function DayNumber(year: nat, month: nat, day: nat): int {
    YearStart(year) + MonthStart(year, month) + day - 1
  }

  function SecondOfDay(c: Civil): nat {
    (c.hour * 60 + c.minute) * 60 + c.second
  }

  /** Nanoseconds since the start of year zero. */
  function Instant(c: Civil): int {
    (DayNumber(c.year, c.month, c.day) * 86_400 + SecondOfDay(c)) * 1_000_000_000 + c.nano
  }

  const LAYOUT := [Slot(4, '-'), Slot(2, '-'), Slot(2, 'T'), Slot(2, ':'), Slot(2, ':'), Slot(2, '.'), Slot(9, 'Z')]

  function Fields(c: Civil): seq<nat> {
    [c.year, c.month, c.day, c.hour, c.minute, c.second, c.nano]
  }

  lemma FieldsFit(c: Civil)
    requires Valid(c)
    ensures Fits(LAYOUT, Fields(c))
  {
    assert Pow10(2) == 100;
    assert Pow10(4) == 100 * Pow10(2);
    assert Pow10(5) == 10 * Pow10(4);
    assert Pow10(9) == 10_000 * Pow10(5);
  }

  function FormatTime(c: Civil): string
    requires Valid(c)
  {
    FieldsFit(c);
    Print(LAYOUT, Fields(c))
  }

  /** Reading with the layout times are stored in; a text that holds no valid date and time is refused. */
  function ParseTime(s: string): Option<Civil> {
    var v := Scan(LAYOUT, s);
    if v.None? || |v.value| != 7 then None
    else
      var c := Civil(v.value[0], v.value[1], v.value[2], v.value[3], v.value[4], v.value[5], v.value[6]);
      if Valid(c) then Some(c) else None
  }

  /** A stored time is read back to the nanosecond. */
  lemma StoredTimeIsReadBack(c: Civil)
    requires Valid(c)
    ensures ParseTime(FormatTime(c)) == Some(c)
  {
    FieldsFit(c);
    ScanPrint(LAYOUT, Fields(c));
    hide Scan, Print, Valid;
  }

  // ---------------------------------------------------------------------------
  // The order of instants
  // ---------------------------------------------------------------------------

  lemma {:induction false} YearsGrow(a: nat, b: nat)
    requires a < b
    ensures YearStart(a) + (if Leap(a) then 366 else 365) <= YearStart(b)
  {
    if a < b - 1 {
      YearsGrow(a, b - 1);
    }
  }

  lemma {:induction false} MonthsGrow(year: nat, a: nat, b: nat)
    requires 1 <= a < b
    ensures MonthStart(year, a) + MonthDays(year, a) <= MonthStart(year, b)
  {
    if a < b - 1 {
      MonthsGrow(year, a, b - 1);
    }
  }

  lemma YearLength(year: nat)
    ensures MonthStart(year, 13) == if Leap(year) then 366 else 365
  {
    assert MonthStart(year, 2) == 31;
    assert MonthStart(year, 3) == 31 + MonthDays(year, 2);
    assert MonthStart(year, 5) == MonthStart(year, 3) + 61;
    assert MonthStart(year, 7) == MonthStart(year, 5) + 61;
    assert MonthStart(year, 9) == MonthStart(year, 7) + 62;
    assert MonthStart(year, 11) == MonthStart(year, 9) + 61;
    assert MonthStart(year, 13) == MonthStart(year, 11) + 61;
  }

  lemma DayInYear(c: Civil)
    requires Valid(c)
    ensures YearStart(c.year) <= DayNumber(c.year, c.month, c.day) < YearStart(c.year) + (if Leap(c.year) then 366 else 365)
  {
    MonthsGrow(c.year, c.month, 13);
    YearLength(c.year);
    hide MonthStart, YearStart, MonthDays, Leap;
  }

  lemma DayOrder(a: Civil, b: Civil)
    requires Valid(a) && Valid(b)
    requires a.year < b.year || (a.year == b.year && (a.month < b.month || (a.month == b.month && a.day < b.day)))
    ensures DayNumber(a.year, a.month, a.day) < DayNumber(b.year, b.month, b.day)
  {
    if a.year < b.year {
      DayInYear(a);
      DayInYear(b);
      YearsGrow(a.year, b.year);
      hide MonthStart, YearStart, MonthDays, Leap;
    } else if a.month < b.month {
      MonthsGrow(a.year, a.month, b.month);
      hide MonthStart, YearStart, Leap;
    }
  }

  lemma InstantOrder(a: Civil, b: Civil)
    requires Valid(a) && Valid(b) && TupleLess(Fields(a), Fields(b))
    ensures Instant(a) < Instant(b)
  {
    var (da, db) := (DayNumber(a.year, a.month, a.day), DayNumber(b.year, b.month, b.day));
    LessFields(a, b);
    if (a.year, a.month, a.day) != (b.year, b.month, b.day) {
      DayOrder(a, b);
    }
    hide DayNumber, TupleLess;
    assert SecondOfDay(a) < 86_400 && SecondOfDay(b) < 86_400;
  }

  lemma LessFields(a: Civil, b: Civil)
    requires TupleLess(Fields(a), Fields(b))
    ensures || a.year < b.year
            || (a.year == b.year && a.month < b.month)
            || (a.year == b.year && a.month == b.month && a.day < b.day)
            || ((a.year, a.month, a.day) == (b.year, b.month, b.day)
                && (SecondOfDayLess(a, b) || ((a.hour, a.minute, a.second) == (b.hour, b.minute, b.second) && a.nano < b.nano)))
  {
    var (x, y) := (Fields(a), Fields(b));
    TupleDrop(x, y, 3);
    if (a.year, a.month, a.day) == (b.year, b.month, b.day) {
      TupleDrop(x[3..], y[3..], 3);
      assert x[3..] == [a.hour, a.minute, a.second, a.nano] && y[3..] == [b.hour, b.minute, b.second, b.nano];
      assert x[3..][3..] == [a.nano] && y[3..][3..] == [b.nano];
    }
  }

  predicate SecondOfDayLess(a: Civil, b: Civil) {
    a.hour < b.hour || (a.hour == b.hour && (a.minute < b.minute || (a.minute == b.minute && a.second < b.second)))
  }

  lemma TupleDrop(x: seq<nat>, y: seq<nat>, n: nat)
    requires |x| == |y| && n == 3 <= |x| && TupleLess(x, y)
    ensures || x[0] < y[0]
            || (x[0] == y[0] && x[1] < y[1])
            || (x[0] == y[0] && x[1] == y[1] && x[2] < y[2])
            || (x[0] == y[0] && x[1] == y[1] && x[2] == y[2] && TupleLess(x[3..], y[3..]))
  {
    assert x[1..][1..] == x[2..] && y[1..][1..] == y[2..] && x[2..][1..] == x[3..] && y[2..][1..] == y[3..];
    assert x[0] == y[0] ==> TupleLess(x[1..], y[1..]) && x[1..][0] == x[1] && y[1..][0] == y[1];
    assert x[0] == y[0] && x[1] == y[1] ==> TupleLess(x[2..], y[2..]) && x[2..][0] == x[2] && y[2..][0] == y[2];
  }

  lemma {:induction false} TupleTotal(a: seq<nat>, b: seq<nat>)
    requires |a| == |b|
    ensures a == b || TupleLess(a, b) || TupleLess(b, a)
  {
    if a != [] {
      TupleTotal(a[1..], b[1..]);
      assert a == [a[0]] + a[1..] && b == [b[0]] + b[1..];
    }
  }

  /** Among years 0000 to 9999 stored times are ordered as strings exactly as the instants are in time, and equal only when those are. */
  lemma StoredTimesSortAsInstants(a: Civil, b: Civil)
    requires Valid(a) && Valid(b)
    ensures LexLess(FormatTime(a), FormatTime(b)) <==> Instant(a) < Instant(b)
    ensures FormatTime(a) == FormatTime(b) <==> Instant(a) == Instant(b)
    ensures Instant(a) == Instant(b) <==> a == b
  {
    FieldsFit(a);
    FieldsFit(b);
    PrintOrder(LAYOUT, Fields(a), Fields(b));
    TupleTotal(Fields(a), Fields(b));
    StoredTimeIsReadBack(a);
    StoredTimeIsReadBack(b);
    if TupleLess(Fields(a), Fields(b)) {
      InstantOrder(a, b);
    } else if TupleLess(Fields(b), Fields(a)) {
      InstantOrder(b, a);
    } else {
      assert Fields(a) == Fields(b);
      assert a == b by {
        assert Fields(a)[0] == Fields(b)[0] && Fields(a)[1] == Fields(b)[1] && Fields(a)[2] == Fields(b)[2];
        assert Fields(a)[3] == Fields(b)[3] && Fields(a)[4] == Fields(b)[4] && Fields(a)[5] == Fields(b)[5];
        assert Fields(a)[6] == Fields(b)[6];
      }
    }
    hide *;
  }

  // ---------------------------------------------------------------------------
  // Every instant has its date
  // ---------------------------------------------------------------------------

  lemma {:induction false} YearOf(day: nat, from: nat) returns (year: nat)
    requires YearStart(from) <= day
    ensures YearStart(year) <= day < YearStart(year + 1)
    decreases day - YearStart(from)
  {
    if day < YearStart(from + 1) {
      year := from;
    } else {
      year := YearOf(day, from + 1);
    }
  }

  lemma {:induction false} MonthOf(year: nat, day: nat, from: nat) returns (month: nat)
    requires 1 <= from <= 12 && MonthStart(year, from) <= day < MonthStart(year, 13)
    ensures 1 <= month <= 12 && MonthStart(year, month) <= day < MonthStart(year, month) + MonthDays(year, month)
    decreases 13 - from
  {
    if day < MonthStart(year, from + 1) {
      month := from;
    } else {
      month := MonthOf(year, day, from + 1);
    }
  }

  /** Each instant of the years 0000 to 9999 is that of exactly one stored text. */
  lemma EveryInstantIsStored(t: nat)
    requires t < YearStart(10_000) * 86_400 * 1_000_000_000
    ensures exists c :: Valid(c) && Instant(c) == t
    ensures forall c, d :: Valid(c) && Valid(d) && Instant(c) == t && Instant(d) == t ==> FormatTime(c) == FormatTime(d)
  {
    var (seconds, nano) := (t / 1_000_000_000, t % 1_000_000_000);
    var (day, second) := (seconds / 86_400, seconds % 86_400);
    assert day < YearStart(10_000) by { hide YearStart; }
    var year := YearOf(day, 0);
    assert year <= 9999 by {
      if year > 9999 {
        if year > 10_000 { YearsGrow(10_000, year); }
      }
    }
    YearLength(year);
    var month := MonthOf(year, day - YearStart(year), 1);
    var c := Civil(year, month, day - YearStart(year) - MonthStart(year, month) + 1,
                   second / 3600, second / 60 % 60, second % 60, nano);
    hide YearStart, MonthStart, MonthDays, FormatTime;
    assert SecondOfDay(c) == second;
    assert Valid(c) && Instant(c) == t;
    forall c, d | Valid(c) && Valid(d) && Instant(c) == t && Instant(d) == t
      ensures FormatTime(c) == FormatTime(d)
    {
      StoredTimesSortAsInstants(c, d);
    }
  }
}
