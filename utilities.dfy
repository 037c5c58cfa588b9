/** Date arithmetic and the crew colour palette of `Utilities` and
    `Color.getColor`. A calendar date is a day number (day 0 is Thursday,
    1 January 1970); a timestamp is a whole number of seconds. */
module Utilities {
  import opened Base

  const SecondsPerDay: int := 86400

  const Sunday: int := 0
  const Saturday: int := 6

  /** The day of the week of day number `day`: 0 is Sunday, 6 is Saturday. */
  function DayOfWeek(day: int): (w: int)
    ensures 0 <= w < 7
  {
    (day + 4) % 7
  }

  predicate IsWeekday(day: int) {
    DayOfWeek(day) != Saturday && DayOfWeek(day) != Sunday
  }

  /** One iteration of the loop of `addDaysExcludingWeekends`: one day on,
      then two more if that is a Saturday, one more if it is a Sunday. */
  function Step(day: int): (r: int)
    ensures day + 1 <= r <= day + 3 && IsWeekday(r)
  {
    var next := day + 1;
    if DayOfWeek(next) == Saturday then next + 2
    else if DayOfWeek(next) == Sunday then next + 1
    else next
  }

  /** `days` iterations of the loop from `date`. */
  function AddWeekdays(date: int, days: int): (r: int)
    ensures days <= 0 ==> r == date
    ensures days >= 1 ==> IsWeekday(r) && date + days <= r <= date + 3 * days
    decreases days
  {
    if days <= 0 then date else Step(AddWeekdays(date, days - 1))
  }

  /** The number of weekdays in the days `a + 1 ..= b`. */
  function CountWeekdays(a: int, b: int): (n: nat)
    ensures b <= a ==> n == 0
    ensures a <= b ==> n <= b - a
    ensures a < b && IsWeekday(b) ==> n >= 1
    decreases b - a
  {
    if b <= a then 0 else CountWeekdays(a, b - 1) + (if IsWeekday(b) then 1 else 0)
  }

  /** `addDaysExcludingWeekends`: the loop that counts `days` down, stepping
      over weekends. For `days >= 1` the result is the `days`-th weekday
      strictly after `date`. */
  method AddDaysExcludingWeekends(date: int, days: int) returns (result: int)
    ensures result == AddWeekdays(date, days)
    ensures days <= 0 ==> result == date
    ensures days >= 1 ==> IsWeekday(result) && result > date && CountWeekdays(date, result) == days
    ensures days >= 1 ==> date + days <= result <= date + 3 * days
  {
    var daysToAdd := days;
    result := date;
    while daysToAdd > 0
      invariant (days <= 0 && daysToAdd == days && result == date)
                || (0 <= daysToAdd <= days && result == AddWeekdays(date, days - daysToAdd))
      decreases daysToAdd
    {
      ghost var previous := result;
      result := result + 1;
      if DayOfWeek(result) == Saturday {
        result := result + 2;
      } else if DayOfWeek(result) == Sunday {
        result := result + 1;
      }
      assert result == Step(previous);
      daysToAdd := daysToAdd - 1;
    }
    AddWeekdaysMeaning(date, days);
  }

  // ---------------------------------------------------------------------
  // Properties of the weekday arithmetic

  /** The day of the week repeats every seven days. */
  lemma DayOfWeekPeriodic(day: int)
    ensures DayOfWeek(day + 7) == DayOfWeek(day)
  {
  }

  /** A step lands on the next weekday: every day skipped on the way is a
      weekend day. */
  lemma StepNextWeekday(day: int)
    ensures CountWeekdays(day, Step(day)) == 1
  {
    var next := day + 1;
    assert CountWeekdays(day, day) == 0;
    if DayOfWeek(next) == Saturday {
      assert DayOfWeek(next + 1) == Sunday;
      assert CountWeekdays(day, next + 1) == 0;
    } else if DayOfWeek(next) == Sunday {
      assert CountWeekdays(day, next) == 0;
    }
  }

  lemma {:induction false} CountWeekdaysSplit(a: int, b: int, c: int)
    requires a <= b <= c
    ensures CountWeekdays(a, c) == CountWeekdays(a, b) + CountWeekdays(b, c)
    decreases c - b
  {
    if b < c {
      CountWeekdaysSplit(a, b, c - 1);
    }
  }

  /** The loop's result is the `days`-th weekday strictly after `date`. */
  lemma {:induction false} AddWeekdaysMeaning(date: int, days: int)
    ensures days <= 0 ==> AddWeekdays(date, days) == date
    ensures days >= 1 ==> var r := AddWeekdays(date, days);
                          IsWeekday(r) && r > date && CountWeekdays(date, r) == days
                          && date + days <= r <= date + 3 * days
    decreases days
  {
    if days >= 1 {
      var p := AddWeekdays(date, days - 1);
      AddWeekdaysMeaning(date, days - 1);
      StepNextWeekday(p);
      assert p >= date;
      CountWeekdaysSplit(date, p, Step(p));
    }
  }

  /** Only one day is the `days`-th weekday after `date`. */
  lemma {:induction false} WeekdayCountUnique(date: int, r: int, s: int)
    requires IsWeekday(r) && IsWeekday(s) && r >= date && s >= date
    requires CountWeekdays(date, r) == CountWeekdays(date, s)
    ensures r == s
  {
    if r < s {
      CountWeekdaysSplit(date, r, s);
      CountWeekdaysSplit(r, s - 1, s);
      CountAtLeastOne(r, s);
    } else if s < r {
      CountWeekdaysSplit(date, s, r);
      CountAtLeastOne(s, r);
    }
  }

  lemma CountAtLeastOne(a: int, b: int)
    requires a < b && IsWeekday(b)
    ensures CountWeekdays(a, b) >= 1
  {
  }

  /** Any weekday with `days` weekdays between `date` and it is the loop's result. */
  lemma AddWeekdaysIsOnly(date: int, days: int, r: int)
    requires days >= 1 && IsWeekday(r) && r >= date && CountWeekdays(date, r) == days
    ensures AddWeekdays(date, days) == r
  {
    AddWeekdaysMeaning(date, days);
    WeekdayCountUnique(date, AddWeekdays(date, days), r);
  }

  /** From a Friday, one weekday on is the following Monday; from a
      Saturday too. */
  lemma FridayToMonday()
    ensures DayOfWeek(1) == 5 && AddWeekdays(1, 1) == 4 && DayOfWeek(4) == 1
    ensures DayOfWeek(2) == Saturday && AddWeekdays(2, 1) == 4
  {
  }

  // ---------------------------------------------------------------------
  // daysFromToday

  /** `daysFromToday`: the seconds from the start of today to `date`,
      divided by a day's length with truncation toward zero. */
  function DaysFromToday(date: int, todayStart: int): (d: int)
    ensures date >= todayStart ==> d == (date - todayStart) / SecondsPerDay
    ensures date < todayStart ==> d == -((todayStart - date) / SecondsPerDay)
  {
    Quot(date - todayStart, SecondsPerDay)
  }

  /** A moment `k` whole days and `s` seconds from the start of today: `k`
      for today and the days after, and for an earlier day `k` at its
      midnight but `k + 1` after it, because the quotient is truncated. */
  lemma DaysFromTodayOf(todayStart: int, k: int, s: int)
    requires 0 <= s < SecondsPerDay
    ensures k >= 0 || s == 0 ==> DaysFromToday(todayStart + k * SecondsPerDay + s, todayStart) == k
    ensures k < 0 && s > 0 ==> DaysFromToday(todayStart + k * SecondsPerDay + s, todayStart) == k + 1
  {
    var date := todayStart + k * SecondsPerDay + s;
    if k >= 0 {
      DivExact(k, s);
    } else if s == 0 {
      DivExact(-k, 0);
    } else {
      DivExact(-k - 1, SecondsPerDay - s);
    }
  }

  lemma DivExact(q: int, r: int)
    requires 0 <= r < SecondsPerDay
    ensures (q * SecondsPerDay + r) / SecondsPerDay == q
  {
  }

  /** 1 January relative to 5 January is -4, and the last second of
      yesterday still counts as today. */
  lemma DaysFromTodayExamples(todayStart: int)
    ensures DaysFromToday(todayStart - 4 * SecondsPerDay, todayStart) == -4
    ensures DaysFromToday(todayStart - 1, todayStart) == 0
  {
    DaysFromTodayOf(todayStart, -4, 0);
    DaysFromTodayOf(todayStart, -1, SecondsPerDay - 1);
  }

  // ---------------------------------------------------------------------
  // Color.getColor

  /** A colour of the palette as its red, green and blue numerators over 255. */
  datatype Rgb = Rgb(red: int, green: int, blue: int)

  /** `Color.Colors`, the six crew colours. */
  const Colors: seq<Rgb> := [
    Rgb(4, 116, 186), Rgb(255, 166, 48), Rgb(92, 92, 92),
    Rgb(107, 189, 96), Rgb(0, 167, 225), Rgb(255, 166, 0)
  ]

  /** `Color.getColor(withIndex:)`: `Colors[index % 6]` with Swift's
      remainder, which is negative for a negative index that is not a
      multiple of 6; the array access then traps, modelled as `None`. */
  function GetColor(index: int): (c: Option<Rgb>)
    ensures c.Some? <==> (index >= 0 || Rem(index, |Colors|) == 0)
    ensures index >= 0 ==> c == Some(Colors[index % |Colors|])
  {
    var i := Rem(index, |Colors|);
    RemOfNonNegativeIndex(index);
    if 0 <= i < |Colors| then Some(Colors[i]) else None
  }

  lemma RemOfNonNegativeIndex(index: int)
    ensures index >= 0 ==> Rem(index, |Colors|) == index % |Colors|
  {
    if index >= 0 {
      RemOfNonNegative(index, |Colors|);
    }
  }

  /** The colour repeats every six indices. */
  lemma GetColorPeriodic(index: int)
    requires index >= 0
    ensures GetColor(index + 6) == GetColor(index)
  {
  }

  /** Index -1 is out of the palette, -6 is its first colour. */
  lemma GetColorNegative()
    ensures GetColor(-1) == None
    ensures GetColor(-6) == Some(Colors[0])
  {
  }
}
