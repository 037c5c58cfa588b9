/** `DPMApp.resetFatigueLevel`, run whenever the app becomes active: the
    persisted fatigue level is cleared once per day, where a day is known
    only by its day of the month. */
module DPMApp {
  import opened AppModel

  /** A calendar date; `day` is its day of the month (1..31). */
  datatype Date = Date(year: int, month: int, day: int)

  /** The persisted pair (`fatigueLevel`, `lastResetDay`). */
  datatype DailyState = DailyState(fatigueLevel: int, lastResetDay: int)

  /** The reset: the level goes to 0 and the reset day to today's day of
      the month when no reset was recorded (0) or the recorded day differs. */
  function Reset(s: DailyState, today: Date): (t: DailyState)
    ensures t.lastResetDay == today.day
    ensures (s.lastResetDay == 0 || s.lastResetDay != today.day) ==> t.fatigueLevel == 0
    ensures !(s.lastResetDay == 0 || s.lastResetDay != today.day) ==> t == s
  {
    if s.lastResetDay == 0 || today.day != s.lastResetDay then DailyState(0, today.day) else s
  }

  /** `resetFatigueLevel` on the model object. */
  method ResetFatigueLevel(modelData: ModelData, now: Date)
    modifies modelData
    ensures DailyState(modelData.fatigueLevel, modelData.lastResetDay)
            == Reset(DailyState(old(modelData.fatigueLevel), old(modelData.lastResetDay)), now)
    ensures modelData.crew == old(modelData.crew)
  {
    var today := now.day;
    if modelData.lastResetDay == 0 || today != modelData.lastResetDay {
      modelData.fatigueLevel := 0;
      modelData.lastResetDay := today;
    }
  }

  // ---------------------------------------------------------------------
  // Properties

  /** A second reset on the same day changes nothing. */
  lemma ResetIdempotent(s: DailyState, today: Date)
    ensures Reset(Reset(s, today), today) == Reset(s, today)
  {
  }

  /** The level survives a reset exactly when a reset was already recorded
      for today's day of the month. */
  lemma ResetKeepsLevel(s: DailyState, today: Date)
    ensures Reset(s, today).fatigueLevel == s.fatigueLevel <==>
              (s.lastResetDay != 0 && s.lastResetDay == today.day) || s.fatigueLevel == 0
  {
  }

  /** Only the day of the month is compared: after a reset on the 5th of one
      month, the 5th of any later month does not reset a level set since. */
  lemma SameDayLaterMonth(s: DailyState, first: Date, later: Date, level: int)
    requires first.day == later.day && first.day != 0 && first.month != later.month
    ensures var afterFirst := Reset(s, first);
            Reset(DailyState(level, afterFirst.lastResetDay), later) == DailyState(level, first.day)
  {
  }
}
