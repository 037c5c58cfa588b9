/** `SurveyManager`: the stored list of survey submission times, today's
    count, the one-hour spacing between surveys and the survey-day test.
    Times are whole seconds; days are day numbers as in `Utilities`. */
module SurveyManager {
  import opened Utilities

  /** Spacing between two surveys, in seconds. */
  const MinTime: int := 3600
  /** Slack allowed on the spacing, in seconds. */
  const Grace: int := 60

  /** A timestamp strictly inside today: after midnight and before the next one. */
  predicate InToday(t: int, todayMidnight: int) {
    todayMidnight < t < todayMidnight + SecondsPerDay
  }

  /** The number of stored timestamps inside today: at most the list's
      length, and all of it for a list of times inside today. */
  function CountToday(stamps: seq<int>, todayMidnight: int): (n: nat)
    ensures n <= |stamps|
    ensures (forall i :: 0 <= i < |stamps| ==> InToday(stamps[i], todayMidnight)) ==> n == |stamps|
  {
    assert forall i :: 0 <= i < |stamps| - 1 ==> stamps[..|stamps| - 1][i] == stamps[i];
    if stamps == [] then 0
    else CountToday(stamps[..|stamps| - 1], todayMidnight) + (if InToday(stamps[|stamps| - 1], todayMidnight) then 1 else 0)
  }

  /** `surveysSubmittedToday` over the stored list `stamps`. */
  method SurveysSubmittedToday(stamps: seq<int>, todayMidnight: int) returns (count: int)
    ensures count == CountToday(stamps, todayMidnight)
    ensures 0 <= count <= |stamps|
  {
    count := 0;
    var endTime := todayMidnight + SecondsPerDay;
    var i := 0;
    while i < |stamps|
      invariant 0 <= i <= |stamps|
      invariant count == CountToday(stamps[..i], todayMidnight)
    {
      assert stamps[..i + 1][..i] == stamps[..i];
      if stamps[i] > todayMidnight && stamps[i] < endTime {
        count := count + 1;
      }
      i := i + 1;
    }
    assert stamps[..|stamps|] == stamps;
  }

  /** The boolean of `sufficientTimePassed`: true with nothing stored, and
      otherwise true exactly when the last stored time plus an hour, less a
      minute of grace, is before `now`. */
  function SufficientTimePassed(stamps: seq<int>, now: int): (ok: bool)
    ensures stamps == [] ==> ok
    ensures stamps != [] ==> (ok <==> stamps[|stamps| - 1] + MinTime - Grace < now)
  {
    if stamps == [] then true
    else stamps[|stamps| - 1] + MinTime - Grace < now
  }

  /** The persisted `submittedSurveyTimestamps`. */
  class SurveyStore {
    var submittedSurveyTimestamps: seq<int>

    constructor ()
      ensures submittedSurveyTimestamps == []
    {
      submittedSurveyTimestamps := [];
    }

    /** `addSurveyTimestamp`: appends at the end. */
    method AddSurveyTimestamp(timestamp: int)
      modifies this
      ensures submittedSurveyTimestamps == old(submittedSurveyTimestamps) + [timestamp]
    {
      submittedSurveyTimestamps := submittedSurveyTimestamps + [timestamp];
    }
  }

  /** `doSurveyToday`: today is the start day or the first weekday after it. */
  method DoSurveyToday(startDay: int, today: int) returns (b: bool)
    ensures b <==> today == startDay || today == AddWeekdays(startDay, 1)
    ensures b <==> today == startDay
                   || (IsWeekday(today) && today > startDay && CountWeekdays(startDay, today) == 1)
  {
    var next := AddDaysExcludingWeekends(startDay, 1);
    b := today == startDay || today == next;
    if IsWeekday(today) && today > startDay && CountWeekdays(startDay, today) == 1 {
      AddWeekdaysIsOnly(startDay, 1, today);
    }
  }

  // ---------------------------------------------------------------------
  // Properties

  /** Appending a timestamp adds one to the count exactly when it lies in today. */
  lemma CountTodayAppend(stamps: seq<int>, t: int, todayMidnight: int)
    ensures CountToday(stamps + [t], todayMidnight) == CountToday(stamps, todayMidnight) + (if InToday(t, todayMidnight) then 1 else 0)
  {
    assert (stamps + [t])[..|stamps|] == stamps;
  }

  /** The count is zero exactly when no stored time is inside today, and the
      length of the list exactly when every one is. */
  lemma {:induction false} CountTodayExtremes(stamps: seq<int>, todayMidnight: int)
    ensures CountToday(stamps, todayMidnight) == 0 <==> forall i :: 0 <= i < |stamps| ==> !InToday(stamps[i], todayMidnight)
    ensures CountToday(stamps, todayMidnight) == |stamps| <==> forall i :: 0 <= i < |stamps| ==> InToday(stamps[i], todayMidnight)
  {
    if stamps != [] {
      var p := stamps[..|stamps| - 1];
      CountTodayExtremes(p, todayMidnight);
      assert forall i :: 0 <= i < |p| ==> p[i] == stamps[i];
    }
  }

  /** Both ends of today are excluded: a survey at midnight, or at the next
      midnight, does not count. */
  lemma BoundariesExcluded(todayMidnight: int)
    ensures CountToday([todayMidnight, todayMidnight + SecondsPerDay], todayMidnight) == 0
    ensures CountToday([todayMidnight + 1, todayMidnight + SecondsPerDay - 1], todayMidnight) == 2
  {
    var a := [todayMidnight, todayMidnight + SecondsPerDay];
    var b := [todayMidnight + 1, todayMidnight + SecondsPerDay - 1];
    assert a[..1] == [todayMidnight] && a[..1][..0] == [];
    assert CountToday(a[..1], todayMidnight) == 0;
    assert b[..1] == [todayMidnight + 1] && b[..1][..0] == [];
  }

  /** Right after a survey at `t` the gate stays closed until `now` is more
      than 59 minutes past `t`, whatever was stored before. */
  lemma GateAfterAdd(stamps: seq<int>, t: int, now: int)
    ensures SufficientTimePassed(stamps + [t], now) <==> now > t + MinTime - Grace
  {
  }

  /** The gate reads the last stored time, not the latest: with a later time
      stored before an earlier one, the gate opens by the earlier. */
  lemma GateReadsLast()
    ensures SufficientTimePassed([10000, 0], 5000)
    ensures 10000 + MinTime - Grace >= 5000
  {
  }

  /** The method agrees with the store: adding a survey inside today raises
      the count by one, and closes the gate at the time it was added. */
  method SubmitToday(store: SurveyStore, now: int, todayMidnight: int) returns (before: int, after: int)
    requires InToday(now, todayMidnight)
    modifies store
    ensures after == before + 1
    ensures !SufficientTimePassed(store.submittedSurveyTimestamps, now)
  {
    before := SurveysSubmittedToday(store.submittedSurveyTimestamps, todayMidnight);
    CountTodayAppend(store.submittedSurveyTimestamps, now, todayMidnight);
    store.AddSurveyTimestamp(now);
    after := SurveysSubmittedToday(store.submittedSurveyTimestamps, todayMidnight);
  }
}
