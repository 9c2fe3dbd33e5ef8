/** The alarm matcher: the pure part of the cron tick in app.ts.
    Time is an input here: `nowHour` and `nowMinute` are what `Date.getHours()`
    and `Date.getMinutes()` return, and `jsDay` is what `Date.getDay()` returns
    (0 = Sunday ... 6 = Saturday). */
module AlarmMatcher {

  /** One alarm document as the remote store delivers it. `hour` is a
      12-hour clock value qualified by `isPm`; `repeatingDays` is the list of
      weekday numbers on which the alarm repeats (empty: every day). */
  datatype Alarm = Alarm(hour: int, min: int, isEnable: bool, repeatingDays: seq<int>, isPm: bool)

  /** The 24-hour reading of a 12-hour clock value. For a proper 12-hour value
      (1..12) the result is the unique hour of the day with the same position on
      the dial and on the right half of the day; any other value is shifted by
      twelve when PM and otherwise passed through, never wrapped. */
  function HourIn24Format(hour: int, isPm: bool): (r: int)
    ensures 1 <= hour <= 12 ==> 0 <= r < 24 && (isPm <==> r >= 12) && r % 12 == hour % 12
    ensures !(1 <= hour <= 12) ==> r == hour + (if isPm then 12 else 0)
  {
    if hour == 12 then
      (if isPm then 12 else 0)
    else
      (if isPm then hour + 12 else hour)
  }

  /** The 12-hour reading of an hour of the day: the reference definition that
      HourIn24Format inverts. */
  function To12Hour(h: int): (c: (int, bool))
    requires 0 <= h < 24
    ensures 1 <= c.0 <= 12
    ensures c.1 <==> h >= 12
    ensures HourIn24Format(c.0, c.1) == h
  {
    if h == 0 then (12, false)
    else if h < 12 then (h, false)
    else if h == 12 then (12, true)
    else (h - 12, true)
  }

  /** HourIn24Format is one-to-one on proper 12-hour values: reading its result
      back on a 12-hour dial gives the alarm's own hour and half of the day. */
  lemma HourIn24FormatRoundTrip(hour: int, isPm: bool)
    requires 1 <= hour <= 12
    ensures To12Hour(HourIn24Format(hour, isPm)) == (hour, isPm)
  {
  }

  /** The weekday number the tick compares against `repeatingDays`, AS WRITTEN:
      `%` binds tighter than `+`, so the source adds `6 % 7`, that is 6, to
      `getDay()` and does not rotate the week. */
  function DayOfWeek(jsDay: int): (r: int)
    ensures r - jsDay == 6
    ensures 0 <= jsDay <= 6 ==> 6 <= r <= 12
    ensures 0 <= jsDay <= 6 ==> (r <= 6 <==> jsDay == 0)
  {
    jsDay + 6 % 7
  }

  /** The `isNow` test: exact hour and minute equality, no tolerance window. */
  predicate IsNow(a: Alarm, nowHour: int, nowMinute: int)
    ensures 1 <= a.hour <= 12 && 0 <= nowHour < 24 ==>
              (IsNow(a, nowHour, nowMinute) <==> To12Hour(nowHour) == (a.hour, a.isPm) && a.min == nowMinute)
  {
    HourIn24Format(a.hour, a.isPm) == nowHour && a.min == nowMinute
  }

  /** The `isToday` test: an empty day list means every day. Against the
      weekday numbers the tick computes (6 and above), a day list drawn from
      0..6 can only ever match on 6. */
  predicate IsToday(a: Alarm, weekday: int)
    ensures a.repeatingDays == [] ==> IsToday(a, weekday)
    ensures DaysInWeek(a.repeatingDays) && 6 <= weekday ==>
              (IsToday(a, weekday) <==> a.repeatingDays == [] || (weekday == 6 && 6 in a.repeatingDays))
  {
    |a.repeatingDays| == 0 || weekday in a.repeatingDays
  }

  /** Every day number of the list is a `getDay()` value. */
  predicate DaysInWeek(days: seq<int>)
  {
    forall k | 0 <= k < |days| :: 0 <= days[k] <= 6
  }

  /** The day test as the tick evaluates it: with a day list drawn from 0..6 it
      passes on every day when the list is empty, and otherwise only on Sunday
      and only when the list contains 6 (Saturday), whatever else it holds. */
  lemma IsTodayAsWritten(a: Alarm, jsDay: int)
    requires DaysInWeek(a.repeatingDays)
    requires 0 <= jsDay <= 6
    ensures a.repeatingDays == [] ==> IsToday(a, DayOfWeek(jsDay))
    ensures a.repeatingDays != [] ==>
              (IsToday(a, DayOfWeek(jsDay)) <==> jsDay == 0 && 6 in a.repeatingDays)
  {
    if a.repeatingDays != [] && DayOfWeek(jsDay) in a.repeatingDays {
      var k :| 0 <= k < |a.repeatingDays| && a.repeatingDays[k] == DayOfWeek(jsDay);
      assert a.repeatingDays[k] <= 6;
    }
  }

  /** A concrete instance: an alarm set for every weekday, Sunday to Saturday,
      does not pass the day test on a Monday. */
  lemma EveryWeekdayListMissesMonday()
    ensures !IsToday(Alarm(7, 0, true, [0, 1, 2, 3, 4, 5, 6], false), DayOfWeek(1))
  {
    var a := Alarm(7, 0, true, [0, 1, 2, 3, 4, 5, 6], false);
    IsTodayAsWritten(a, 1);
  }

  /** The per-alarm firing decision of the tick: `isEnable && isNow && isToday`.
      A disabled alarm never fires, at any time on any day. */
  predicate Fires(a: Alarm, nowHour: int, nowMinute: int, jsDay: int)
    ensures !a.isEnable ==> !Fires(a, nowHour, nowMinute, jsDay)
  {
    a.isEnable && IsNow(a, nowHour, nowMinute) && IsToday(a, DayOfWeek(jsDay))
  }

  /** What the firing decision means for a proper alarm (hour 1..12, days drawn
      from 0..6) and a real clock reading: the alarm fires exactly when it is
      enabled, the 12-hour reading of the current hour is the alarm's hour and
      half of the day, the minute is the alarm's minute, and the day list is
      empty or it is Sunday and the list holds 6. */
  lemma FiresExactly(a: Alarm, nowHour: int, nowMinute: int, jsDay: int)
    requires 1 <= a.hour <= 12 && 0 <= nowHour < 24
    requires DaysInWeek(a.repeatingDays) && 0 <= jsDay <= 6
    ensures Fires(a, nowHour, nowMinute, jsDay) <==>
              a.isEnable && To12Hour(nowHour) == (a.hour, a.isPm) && a.min == nowMinute &&
              (a.repeatingDays == [] || (jsDay == 0 && 6 in a.repeatingDays))
  {
    HourIn24FormatRoundTrip(a.hour, a.isPm);
    IsTodayAsWritten(a, jsDay);
  }

  /** The alarms of the list that fire at the given time, in list order: one
      entry per call the tick makes to start the ring. */
  function Matching(alarms: seq<Alarm>, nowHour: int, nowMinute: int, jsDay: int): (r: seq<Alarm>)
    ensures |r| <= |alarms|
    ensures forall x | x in r :: x in alarms && Fires(x, nowHour, nowMinute, jsDay)
    ensures forall x | x in alarms && Fires(x, nowHour, nowMinute, jsDay) :: x in r
    ensures forall x :: multiset(r)[x] == (if Fires(x, nowHour, nowMinute, jsDay) then multiset(alarms)[x] else 0)
  {
    if alarms == [] then []
    else
      var init := alarms[..|alarms| - 1];
      var last := alarms[|alarms| - 1];
      assert alarms == init + [last];
      Matching(init, nowHour, nowMinute, jsDay)
        + (if Fires(last, nowHour, nowMinute, jsDay) then [last] else [])
  }

  /** A list of disabled alarms never matches, at any time on any day. */
  lemma {:induction false} DisabledAlarmsNeverMatch(alarms: seq<Alarm>, nowHour: int, nowMinute: int, jsDay: int)
    requires forall k | 0 <= k < |alarms| :: !alarms[k].isEnable
    ensures Matching(alarms, nowHour, nowMinute, jsDay) == []
  {
    if alarms != [] {
      DisabledAlarmsNeverMatch(alarms[..|alarms| - 1], nowHour, nowMinute, jsDay);
    }
  }

  /** The 07:30 every-day alarm matches on the 07:30 tick of any day, once. */
  lemma SevenThirtyMatchesOnce(jsDay: int)
    ensures Matching([Alarm(7, 30, true, [], false)], 7, 30, jsDay) == [Alarm(7, 30, true, [], false)]
  {
    var a := Alarm(7, 30, true, [], false);
    assert [a][..0] == [];
  }
}
