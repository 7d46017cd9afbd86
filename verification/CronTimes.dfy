/** The panel's list of next occurrences, in a zone of constant offset. Times are milliseconds. */
module CronTimes {
  import opened Core
  import opened CronFields

  const DAY_MS := 86_400_000
  const SEARCH_DAYS: nat := 1500

  /** Month, day of the month and weekday of a day counted from the epoch. */
  datatype Date = Date(month: int, day: int, weekday: int)
  type Calendar = int -> Date

  datatype CronParts = CronParts(
    minutes: seq<int>,
    hours: seq<int>,
    daysOfMonth: seq<int>,
    months: seq<int>,
    daysOfWeek: seq<int>,
    domRestricted: bool,
    dowRestricted: bool)

  /** What parsing the five fields gives. */
  predicate Parsed(parts: CronParts) {
    && Ascending(parts.minutes) && (forall i :: 0 <= i < |parts.minutes| ==> 0 <= parts.minutes[i] <= 59)
    && Ascending(parts.hours) && (forall i :: 0 <= i < |parts.hours| ==> 0 <= parts.hours[i] <= 23)
  }

  predicate DayMatches(parts: CronParts, date: Date) {
    && date.month in parts.months
    && (if parts.domRestricted && parts.dowRestricted then date.day in parts.daysOfMonth || date.weekday in parts.daysOfWeek
        else if parts.domRestricted then date.day in parts.daysOfMonth
        else if parts.dowRestricted then date.weekday in parts.daysOfWeek
        else true)
  }

  /** The moment of a local day and time of day in a zone `offset` ahead of UTC. */
  function Moment(day: int, hour: int, minute: int, offset: int): int {
    day * DAY_MS + hour * 3_600_000 + minute * 60_000 - offset
  }

  /** A moment the schedule names: a whole minute of a matching local day. */
  ghost predicate Named(parts: CronParts, calendar: Calendar, offset: int, t: int) {
    exists day, hour, minute :: t == Moment(day, hour, minute, offset) && IsTime(parts, calendar, day, hour, minute)
  }

  predicate IsTime(parts: CronParts, calendar: Calendar, day: int, hour: int, minute: int) {
    DayMatches(parts, calendar(day)) && hour in parts.hours && minute in parts.minutes
  }

  /** The first `count` of a list. */
  function Take(s: seq<int>, count: int): seq<int> {
    if count <= 0 then [] else s[..Min(|s|, count)]
  }

  // ---------------------------------------------------------------------------
  // Everything the loops can reach, in their order
  // ---------------------------------------------------------------------------

  function Later(s: seq<int>, t: int, from: int): seq<int> {
    if t <= from then s else s + [t]
  }

  function OfHour(parts: CronParts, day: int, hour: int, offset: int, from: int, n: nat): seq<int>
    requires n <= |parts.minutes|
  {
    if n == 0 then []
    else Later(OfHour(parts, day, hour, offset, from, n - 1), Moment(day, hour, parts.minutes[n - 1], offset), from)
  }

  function OfDay(parts: CronParts, day: int, offset: int, from: int, n: nat): seq<int>
    requires n <= |parts.hours|
  {
    if n == 0 then []
    else OfDay(parts, day, offset, from, n - 1) + OfHour(parts, day, parts.hours[n - 1], offset, from, |parts.minutes|)
  }

  function OfDays(parts: CronParts, calendar: Calendar, first: int, offset: int, from: int, n: nat): seq<int> {
    if n == 0 then []
    else
      OfDays(parts, calendar, first, offset, from, n - 1) + OfDate(parts, calendar, first + n - 1, offset, from)
  }

  function OfDate(parts: CronParts, calendar: Calendar, day: int, offset: int, from: int): seq<int> {
    if DayMatches(parts, calendar(day)) then OfDay(parts, day, offset, from, |parts.hours|) else []
  }

  method NextOccurrences(parts: CronParts, calendar: Calendar, offset: int, from: int, count: int) returns (out: seq<int>)
    ensures out == Take(OfDays(parts, calendar, (from + offset) / DAY_MS, offset, from, SEARCH_DAYS), count)
  {
    hide OfDays;
    out := SearchDays(parts, calendar, (from + offset) / DAY_MS, offset, from, SEARCH_DAYS, count);
  }

  method SearchDays(parts: CronParts, calendar: Calendar, first: int, offset: int, from: int, days: nat, count: int)
    returns (out: seq<int>)
    ensures out == Take(OfDays(parts, calendar, first, offset, from, days), count)
  {
    hide OfDays, OfDay, DayMatches, Take;
    out := [];
    var d := 0;
    NothingYet(parts, calendar, first, offset, from, count);
    while d < days && |out| < count
      invariant 0 <= d <= days
      invariant out == Take(OfDays(parts, calendar, first, offset, from, d), count)
      decreases days - d
    {
      NotFull(OfDays(parts, calendar, first, offset, from, d), count);
      NextDay(parts, calendar, first, offset, from, d);
      if DayMatches(parts, calendar(first + d)) {
        out := AddDay(parts, first + d, offset, from, count, out);
      }
      d := d + 1;
    }
    DaysGrow(parts, calendar, first, offset, from, d, days);
    Full(OfDays(parts, calendar, first, offset, from, d), OfDays(parts, calendar, first, offset, from, days), count);
  }

  lemma NothingYet(parts: CronParts, calendar: Calendar, first: int, offset: int, from: int, count: int)
    ensures Take(OfDays(parts, calendar, first, offset, from, 0), count) == []
  {
  }

  lemma NotFull(s: seq<int>, count: int)
    ensures |Take(s, count)| < count ==> Take(s, count) == s
  {
  }

  /** A full list stays when more could follow. */
  lemma Full(s: seq<int>, longer: seq<int>, count: int)
    requires s <= longer
    ensures |Take(s, count)| >= count ==> Take(s, count) == Take(longer, count)
  {
  }

  lemma NextDay(parts: CronParts, calendar: Calendar, first: int, offset: int, from: int, d: nat)
    ensures OfDays(parts, calendar, first, offset, from, d + 1)
         == if DayMatches(parts, calendar(first + d))
            then OfDays(parts, calendar, first, offset, from, d) + OfDay(parts, first + d, offset, from, |parts.hours|)
            else OfDays(parts, calendar, first, offset, from, d)
  {
    hide DayMatches, OfDay;
    assert first + (d + 1) - 1 == first + d;
  }

  /** The loop over one hour's minutes, with the list so far; it stops when the list is full. */
  method AddHour(parts: CronParts, day: int, hour: int, offset: int, from: int, count: int, before: seq<int>)
    returns (out: seq<int>, full: bool)
    requires |before| < count
    ensures !full ==> out == before + OfHour(parts, day, hour, offset, from, |parts.minutes|) && |out| < count
    ensures full ==> out <= before + OfHour(parts, day, hour, offset, from, |parts.minutes|) && |out| == count
  {
    hide OfHour;
    out, full := before, false;
    NoMinuteYet(parts, day, hour, offset, from);
    for j := 0 to |parts.minutes|
      invariant out == before + OfHour(parts, day, hour, offset, from, j) && |out| < count
    {
      NextMinute(parts, day, hour, offset, from, j);
      var when := Moment(day, hour, parts.minutes[j], offset);
      if when <= from {
        continue;
      }
      out := out + [when];
      if |out| >= count {
        HourGrows(parts, day, hour, offset, from, j + 1, |parts.minutes|);
        return out, true;
      }
    }
  }

  /** The loops over one matching day, with the list so far given in full. */
  method AddDay(parts: CronParts, day: int, offset: int, from: int, count: int, seen: seq<int>) returns (out: seq<int>)
    requires |seen| < count
    ensures out == Take(seen + OfDay(parts, day, offset, from, |parts.hours|), count)
  {
    out := seen;
    var full;
    assert seen + [] == seen;
    hide OfHour, Take;
    for i := 0 to |parts.hours|
      invariant out == seen + OfDay(parts, day, offset, from, i) && |out| < count
    {
      ghost var before := out;
      out, full := AddHour(parts, day, parts.hours[i], offset, from, count, out);
      assert before + OfHour(parts, day, parts.hours[i], offset, from, |parts.minutes|)
          == seen + OfDay(parts, day, offset, from, i + 1);
      if full {
        DayGrows(parts, day, offset, from, i + 1, |parts.hours|);
        Full(out, seen + OfDay(parts, day, offset, from, |parts.hours|), count);
        FullIsTaken(out, count);
        return;
      }
    }
    FullIsTaken(out, count);
  }

  lemma FullIsTaken(s: seq<int>, count: int)
    ensures |s| <= count ==> Take(s, count) == s
  {
  }

  lemma NoMinuteYet(parts: CronParts, day: int, hour: int, offset: int, from: int)
    ensures OfHour(parts, day, hour, offset, from, 0) == []
  {
  }

  lemma NextMinute(parts: CronParts, day: int, hour: int, offset: int, from: int, j: nat)
    requires j < |parts.minutes|
    ensures OfHour(parts, day, hour, offset, from, j + 1)
         == Later(OfHour(parts, day, hour, offset, from, j), Moment(day, hour, parts.minutes[j], offset), from)
  {
  }

  lemma {:induction false} HourGrows(parts: CronParts, day: int, hour: int, offset: int, from: int, m: nat, n: nat)
    requires m <= n <= |parts.minutes|
    ensures OfHour(parts, day, hour, offset, from, m) <= OfHour(parts, day, hour, offset, from, n)
  {
    if m < n {
      HourGrows(parts, day, hour, offset, from, m, n - 1);
    }
  }

  lemma {:induction false} DayGrows(parts: CronParts, day: int, offset: int, from: int, m: nat, n: nat)
    requires m <= n <= |parts.hours|
    ensures OfDay(parts, day, offset, from, m) <= OfDay(parts, day, offset, from, n)
  {
    if m < n {
      DayGrows(parts, day, offset, from, m, n - 1);
    }
  }

  lemma PrefixThrough(a: seq<int>, b: seq<int>, c: seq<int>)
    requires a <= b <= c
    ensures a <= c
  {
  }

  lemma LastDayAppends(parts: CronParts, calendar: Calendar, first: int, offset: int, from: int, n: nat)
    requires n > 0
    ensures OfDays(parts, calendar, first, offset, from, n - 1) <= OfDays(parts, calendar, first, offset, from, n)
  {
    hide OfDate;
  }

  lemma {:induction false} DaysGrow(parts: CronParts, calendar: Calendar, first: int, offset: int, from: int, m: nat, n: nat)
    requires m <= n
    ensures OfDays(parts, calendar, first, offset, from, m) <= OfDays(parts, calendar, first, offset, from, n)
  {
    hide *;
    if m < n {
      DaysGrow(parts, calendar, first, offset, from, m, n - 1);
      LastDayAppends(parts, calendar, first, offset, from, n);
      PrefixThrough(OfDays(parts, calendar, first, offset, from, m), OfDays(parts, calendar, first, offset, from, n - 1),
                    OfDays(parts, calendar, first, offset, from, n));
    }
  }

  // ---------------------------------------------------------------------------
  // The list is complete and ascending
  // ---------------------------------------------------------------------------

  ghost predicate InMinutes(parts: CronParts, day: int, hour: int, offset: int, n: nat, t: int)
    requires n <= |parts.minutes|
  {
    exists j :: 0 <= j < n && t == Moment(day, hour, parts.minutes[j], offset)
  }

  lemma {:induction false} HourIsComplete(parts: CronParts, day: int, hour: int, offset: int, from: int, n: nat)
    requires Parsed(parts) && n <= |parts.minutes|
    ensures var s := OfHour(parts, day, hour, offset, from, n);
      && Ascending(s)
      && (forall t :: t in s <==> t > from && InMinutes(parts, day, hour, offset, n, t))
      && (forall t :: t in s ==> n > 0 && t < Moment(day, hour, parts.minutes[n - 1] + 1, offset))
  {
    if n > 0 {
      HourIsComplete(parts, day, hour, offset, from, n - 1);
      var (rest, t) := (OfHour(parts, day, hour, offset, from, n - 1), Moment(day, hour, parts.minutes[n - 1], offset));
      forall u
        ensures InMinutes(parts, day, hour, offset, n, u) <==> InMinutes(parts, day, hour, offset, n - 1, u) || u == t
      {
        if InMinutes(parts, day, hour, offset, n - 1, u) {
          var j :| 0 <= j < n - 1 && u == Moment(day, hour, parts.minutes[j], offset);
          assert j < n;
        }
      }
      if n > 1 {
        assert parts.minutes[n - 2] + 1 <= parts.minutes[n - 1];
      }
      hide InMinutes;
      JoinAscending(rest, [t], t);
    }
  }

  lemma HourBounds(parts: CronParts, day: int, hour: int, offset: int, from: int, t: int)
    requires Parsed(parts) && t in OfHour(parts, day, hour, offset, from, |parts.minutes|)
    ensures Moment(day, hour, 0, offset) <= t < Moment(day, hour + 1, 0, offset) && t > from
  {
    HourIsComplete(parts, day, hour, offset, from, |parts.minutes|);
    var j :| 0 <= j < |parts.minutes| && t == Moment(day, hour, parts.minutes[j], offset);
  }

  /** Joining two ascending lists of which the second lies above the first. */
  lemma JoinAscending(a: seq<int>, b: seq<int>, bound: int)
    requires Ascending(a) && Ascending(b)
    requires (forall t :: t in a ==> t < bound) && (forall t :: t in b ==> bound <= t)
    ensures Ascending(a + b) && forall t :: t in a + b <==> t in a || t in b
  {
    assert (forall i :: 0 <= i < |a| ==> a[i] in a) && (forall i :: 0 <= i < |b| ==> b[i] in b);
  }

  ghost predicate InHours(parts: CronParts, day: int, offset: int, from: int, n: nat, t: int)
    requires n <= |parts.hours|
  {
    exists i :: 0 <= i < n && t in OfHour(parts, day, parts.hours[i], offset, from, |parts.minutes|)
  }

  lemma {:induction false} DayIsComplete(parts: CronParts, day: int, offset: int, from: int, n: nat)
    requires Parsed(parts) && n <= |parts.hours|
    ensures var s := OfDay(parts, day, offset, from, n);
      && Ascending(s)
      && (forall t :: t in s <==> InHours(parts, day, offset, from, n, t))
      && (forall t :: t in s ==> n > 0 && Moment(day, 0, 0, offset) <= t < Moment(day, parts.hours[n - 1] + 1, 0, offset))
  {
    if n > 0 {
      DayIsComplete(parts, day, offset, from, n - 1);
      var (rest, hour) := (OfDay(parts, day, offset, from, n - 1), parts.hours[n - 1]);
      var more := OfHour(parts, day, hour, offset, from, |parts.minutes|);
      HourIsComplete(parts, day, hour, offset, from, |parts.minutes|);
      hide OfHour;
      forall t | t in more
        ensures Moment(day, hour, 0, offset) <= t < Moment(day, hour + 1, 0, offset)
      {
        HourBounds(parts, day, hour, offset, from, t);
      }
      if n > 1 {
        assert parts.hours[n - 2] + 1 <= hour;
      }
      JoinAscending(rest, more, Moment(day, hour, 0, offset));
      forall t
        ensures InHours(parts, day, offset, from, n, t) <==> InHours(parts, day, offset, from, n - 1, t) || t in more
      {
        if InHours(parts, day, offset, from, n - 1, t) {
          var i :| 0 <= i < n - 1 && t in OfHour(parts, day, parts.hours[i], offset, from, |parts.minutes|);
          assert i < n;
        }
      }
    }
  }

  ghost predicate InDays(parts: CronParts, calendar: Calendar, first: int, offset: int, from: int, n: nat, t: int) {
    exists day :: first <= day < first + n && InDay(parts, calendar, day, offset, from, t)
  }

  ghost predicate InDay(parts: CronParts, calendar: Calendar, day: int, offset: int, from: int, t: int) {
    DayMatches(parts, calendar(day)) && InHours(parts, day, offset, from, |parts.hours|, t)
  }

  /** The list is ascending, ends before day `end` and holds exactly the moments of these days. */
  ghost predicate Complete(
    s: seq<int>, parts: CronParts, calendar: Calendar, first: int, offset: int, from: int, n: nat, end: int)
  {
    && Ascending(s)
    && (forall t :: t in s <==> InDays(parts, calendar, first, offset, from, n, t))
    && (forall t :: t in s ==> t < Moment(end, 0, 0, offset))
  }

  lemma {:induction false} DaysAreComplete(parts: CronParts, calendar: Calendar, first: int, offset: int, from: int, n: nat)
    requires Parsed(parts)
    ensures Complete(OfDays(parts, calendar, first, offset, from, n), parts, calendar, first, offset, from, n, first + n)
  {
    if n > 0 {
      DaysAreComplete(parts, calendar, first, offset, from, n - 1);
      var (rest, day) := (OfDays(parts, calendar, first, offset, from, n - 1), first + n - 1);
      var more := OfDate(parts, calendar, day, offset, from);
      assert OfDays(parts, calendar, first, offset, from, n) == rest + more;
      assert first + (n - 1) == day && day + 1 == first + n;
      hide OfDays, OfDate, InDay, InDays, Complete;
      DateIsComplete(parts, calendar, day, offset, from);
      CompleteMore(rest, more, parts, calendar, first, offset, from, n, day);
    }
  }

  lemma CompleteMore(
    rest: seq<int>, more: seq<int>, parts: CronParts, calendar: Calendar, first: int, offset: int, from: int, n: nat, day: int)
    requires n > 0 && day == first + n - 1 && Complete(rest, parts, calendar, first, offset, from, n - 1, day)
    requires Ascending(more) && forall t :: t in more <==> InDay(parts, calendar, day, offset, from, t)
    requires forall t :: t in more ==> Moment(day, 0, 0, offset) <= t < Moment(day + 1, 0, 0, offset)
    ensures Complete(rest + more, parts, calendar, first, offset, from, n, day + 1)
  {
    hide InDay, InDays, Ascending, DayMatches, Moment;
    MomentsGrow(day, offset);
    JoinAscending(rest, more, Moment(day, 0, 0, offset));
    forall t
      ensures t in rest + more <==> InDays(parts, calendar, first, offset, from, n, t)
    {
      OneDayMore(parts, calendar, first, offset, from, n, t);
    }
  }

  lemma MomentsGrow(day: int, offset: int)
    ensures Moment(day, 0, 0, offset) < Moment(day + 1, 0, 0, offset)
  {
  }

  lemma OneDayMore(parts: CronParts, calendar: Calendar, first: int, offset: int, from: int, n: nat, t: int)
    requires n > 0
    ensures InDays(parts, calendar, first, offset, from, n, t)
       <==> InDays(parts, calendar, first, offset, from, n - 1, t) || InDay(parts, calendar, first + n - 1, offset, from, t)
  {
    hide InDay;
  }

  lemma DateIsComplete(parts: CronParts, calendar: Calendar, day: int, offset: int, from: int)
    requires Parsed(parts)
    ensures var s := OfDate(parts, calendar, day, offset, from);
      && Ascending(s)
      && (forall t :: t in s <==> InDay(parts, calendar, day, offset, from, t))
      && (forall t :: t in s ==> Moment(day, 0, 0, offset) <= t < Moment(day + 1, 0, 0, offset))
  {
    DayIsComplete(parts, day, offset, from, |parts.hours|);
    assert parts.hours != [] ==> parts.hours[|parts.hours| - 1] <= 23;
    hide OfDay, InHours, DayMatches;
  }

  lemma InDayIsNamed(parts: CronParts, calendar: Calendar, day: int, offset: int, from: int, t: int)
    requires Parsed(parts) && InDay(parts, calendar, day, offset, from, t)
    ensures Named(parts, calendar, offset, t) && from < t
  {
    hide DayMatches, OfHour;
    var i :| 0 <= i < |parts.hours| && t in OfHour(parts, day, parts.hours[i], offset, from, |parts.minutes|);
    HourIsComplete(parts, day, parts.hours[i], offset, from, |parts.minutes|);
    var j :| 0 <= j < |parts.minutes| && t == Moment(day, parts.hours[i], parts.minutes[j], offset);
    assert IsTime(parts, calendar, day, parts.hours[i], parts.minutes[j]);
  }

  lemma NamedIsInDay(parts: CronParts, calendar: Calendar, offset: int, from: int, t: int) returns (day: int)
    requires Parsed(parts) && Named(parts, calendar, offset, t) && from < t
    ensures InDay(parts, calendar, day, offset, from, t) && Moment(day, 0, 0, offset) <= t < Moment(day + 1, 0, 0, offset)
  {
    hide DayMatches, OfHour;
    var hour, minute;
    day, hour, minute :| t == Moment(day, hour, minute, offset) && IsTime(parts, calendar, day, hour, minute);
    var i :| 0 <= i < |parts.hours| && parts.hours[i] == hour;
    var j :| 0 <= j < |parts.minutes| && parts.minutes[j] == minute;
    HourIsComplete(parts, day, hour, offset, from, |parts.minutes|);
    assert InMinutes(parts, day, hour, offset, |parts.minutes|, t);
    assert t in OfHour(parts, day, parts.hours[i], offset, from, |parts.minutes|);
  }

  /** A named moment after `from` lies in the list of days from `from`'s own on. */
  lemma NamedIsListed(parts: CronParts, calendar: Calendar, offset: int, from: int, n: nat, t: int)
    requires Parsed(parts)
    ensures var first := (from + offset) / DAY_MS;
      InDays(parts, calendar, first, offset, from, n, t)
      <==> Named(parts, calendar, offset, t) && from < t < Moment(first + n, 0, 0, offset)
  {
    hide InDay, Named, OfDays;
    var first := (from + offset) / DAY_MS;
    if InDays(parts, calendar, first, offset, from, n, t) {
      DaysAreComplete(parts, calendar, first, offset, from, n);
      var day :| first <= day < first + n && InDay(parts, calendar, day, offset, from, t);
      InDayIsNamed(parts, calendar, day, offset, from, t);
    }
    if Named(parts, calendar, offset, t) && from < t < Moment(first + n, 0, 0, offset) {
      var day := NamedIsInDay(parts, calendar, offset, from, t);
      assert first <= day < first + n;
    }
  }

  /**
   * The list is ascending, holds only named moments after `from` and at most
   * `count` of them, and leaves one of the 1500 days out only when it is full
   * of earlier ones.
   */
  lemma OccurrencesAreTheFirst(parts: CronParts, calendar: Calendar, offset: int, from: int, count: nat)
    requires Parsed(parts)
    ensures var first := (from + offset) / DAY_MS;
      var out := Take(OfDays(parts, calendar, first, offset, from, SEARCH_DAYS), count);
      && Ascending(out) && |out| <= count
      && (forall t :: t in out ==> t > from && Named(parts, calendar, offset, t))
      && (forall t :: Named(parts, calendar, offset, t) && from < t < Moment(first + SEARCH_DAYS, 0, 0, offset) && t !in out
            ==> |out| == count && (count > 0 ==> out[count - 1] < t))
  {
    var first := (from + offset) / DAY_MS;
    var all := OfDays(parts, calendar, first, offset, from, SEARCH_DAYS);
    var out := Take(all, count);
    DaysAreComplete(parts, calendar, first, offset, from, SEARCH_DAYS);
    hide OfDays, InDays, Named;
    forall t
      ensures t in all <==> Named(parts, calendar, offset, t) && from < t < Moment(first + SEARCH_DAYS, 0, 0, offset)
    {
      NamedIsListed(parts, calendar, offset, from, SEARCH_DAYS, t);
    }
    TakenAreFirst(all, count);
    hide Take, Ascending;
  }

  lemma TakenAreFirst(all: seq<int>, count: nat)
    requires Ascending(all)
    ensures var out := Take(all, count);
      && Ascending(out) && |out| <= count && out <= all && (forall t :: t in out ==> t in all)
      && (forall t :: t in all && t !in out ==> |out| == count && (count > 0 ==> out[count - 1] < t))
  {
    var out := Take(all, count);
    forall t | t in all && t !in out
      ensures |out| == count && (count > 0 ==> out[count - 1] < t)
    {
      var i :| 0 <= i < |all| && all[i] == t;
      assert |out| <= i;
    }
  }
}
