/** The decision logic of the settings screen: validating and saving the
    weights (with the metabolic rate derived from the current weight),
    choosing an eating-window bound, and the list of times the picker offers. */
module SettingsScreen {
  import opened JsValues
  import opened TimeOfDay
  import opened CalorieContext

  /** Calories of basal metabolic rate per unit of current weight. */
  const BmrPerWeightUnit: real := 12.0

  /** `handleSave`'s decision: the settings payload to send, or None when the
      save is refused. The weight fields are text; `parse` stands for
      JavaScript's `Number(text)`. */
  function SavePatch(targetText: string, currentText: string, start: string, end: string,
                     parse: string -> Num): Option<SettingsPatch>
  {
    if targetText == "" || currentText == "" then None
    else
      var target := parse(targetText);
      var current := parse(currentText);
      if AtMostZero(target) || AtMostZero(current) then None
      else Some(SettingsPatch(Some(target), Some(current), Some(start), Some(end),
                              Some(Times(current, BmrPerWeightUnit)), None))
  }

  /** A save is refused exactly when a weight field is empty or reads as a
      number `<= 0`; an accepted save carries all five settings, weights that
      are positive or NaN (NaN passes the check), and a rate of twelve times
      the current weight. */
  lemma SaveValidation(targetText: string, currentText: string, start: string, end: string,
                       parse: string -> Num)
    ensures var r := SavePatch(targetText, currentText, start, end, parse);
      && (r.None? <==> targetText == "" || currentText == ""
                       || AtMostZero(parse(targetText)) || AtMostZero(parse(currentText)))
      && (r.Some? ==>
            && r.value.targetWeight == Some(parse(targetText))
            && r.value.currentWeight == Some(parse(currentText))
            && r.value.eatingWindowStart == Some(start)
            && r.value.eatingWindowEnd == Some(end)
            && r.value.isWithinEatingWindow.None?
            && (parse(targetText).NaN? || parse(targetText).value > 0.0)
            && (parse(currentText).NaN? || parse(currentText).value > 0.0)
            && (parse(currentText).Real? ==>
                  r.value.bmr == Some(Real(parse(currentText).value * 12.0)))
            && (parse(currentText).NaN? ==> r.value.bmr == Some(NaN)))
  {
  }

  /** Applying an accepted save: the five settings take the form's values,
      the goal becomes target x 3600 (a NaN target, being falsy, keeps the old
      goal), and the budget, the log, the stamp and the flag are untouched. */
  lemma SaveThenReduce(s: CalorieState, targetText: string, currentText: string,
                       start: string, end: string, parse: string -> Num, now: Millis)
    requires SavePatch(targetText, currentText, start, end, parse).Some?
    ensures var r := Reduce(s, CalorieAction.UpdateSettings(SavePatch(targetText, currentText, start, end, parse).value), now);
      && r.settings.targetWeight == parse(targetText)
      && r.settings.currentWeight == parse(currentText)
      && r.settings.eatingWindowStart == start
      && r.settings.eatingWindowEnd == end
      && r.settings.bmr == Times(parse(currentText), 12.0)
      && r.settings.mergedWindowFlag == s.settings.mergedWindowFlag
      && (parse(targetText).Real? ==> r.dailyGoal == parse(targetText).value * 3600.0)
      && (parse(targetText).NaN? ==> r.dailyGoal == s.dailyGoal)
      && r.currentCalories == s.currentCalories && r.foodEntries == s.foodEntries
      && r.lastUpdated == s.lastUpdated && r.isWithinEatingWindow == s.isWithinEatingWindow
  {
  }

  /** `handleSave` against the store: it sends the payload when the save is
      accepted and leaves the store alone otherwise. */
  method HandleSave(store: CalorieStore, targetText: string, currentText: string,
                    start: string, end: string, parse: string -> Num, now: Millis)
    returns (saved: bool)
    modifies store
    ensures saved <==> SavePatch(targetText, currentText, start, end, parse).Some?
    ensures saved ==>
      store.state == Reduce(old(store.state), CalorieAction.UpdateSettings(SavePatch(targetText, currentText, start, end, parse).value), now)
    ensures !saved ==> store.state == old(store.state)
  {
    var patch := SavePatch(targetText, currentText, start, end, parse);
    saved := patch.Some?;
    if saved {
      store.UpdateSettings(patch.value, now);
    }
  }

  /** Which bound the time picker is editing. */
  datatype Bound = Start | End

  /** The screen's draft of the eating window and the picker it may show. */
  datatype WindowDraft = WindowDraft(start: string, end: string, picker: Option<Bound>)

  /** `handleTimeSelect`. */
  function SelectTime(d: WindowDraft, time: string, which: Bound): WindowDraft {
    if which == Start then d.(start := time, picker := None)
    else d.(end := time, picker := None)
  }

  /** Choosing a time sets the chosen bound, keeps the other one and closes
      the picker. */
  lemma SelectTimeSetsOneBound(d: WindowDraft, time: string, which: Bound)
    ensures var r := SelectTime(d, time, which);
      && r.picker.None?
      && (which == Start ==> r.start == time && r.end == d.end)
      && (which == End ==> r.end == time && r.start == d.start)
  {
  }

  /** The i-th entry of the picker's list: hour i/2, minute 0 or 30. */
  function TimeOption(i: nat): string
    requires i < 48
  {
    FormatTime(i / 2, i % 2 * 30)
  }

  /** `generateTimeOptions`: every half hour of the day, as "HH:MM". */
  method GenerateTimeOptions() returns (times: seq<string>)
    ensures |times| == 48
    ensures forall i :: 0 <= i < 48 ==> times[i] == FormatTime(i / 2, i % 2 * 30)
  {
    times := [];
    var hour := 0;
    while hour < 24
      invariant 0 <= hour <= 24
      invariant |times| == 2 * hour
      invariant forall i :: 0 <= i < |times| ==> times[i] == FormatTime(i / 2, i % 2 * 30)
    {
      var minute := 0;
      while minute < 60
        invariant minute == 0 || minute == 30 || minute == 60
        invariant |times| == 2 * hour + minute / 30
        invariant forall i :: 0 <= i < |times| ==> times[i] == FormatTime(i / 2, i % 2 * 30)
      {
        ghost var k := |times|;
        assert k / 2 == hour && k % 2 * 30 == minute;
        times := times + [FormatTime(hour, minute)];
        minute := minute + 30;
      }
      hour := hour + 1;
    }
  }

  /** Every option is a clock string with minutes "00" or "30", denoting
      the i-th half hour of the day. */
  lemma TimeOptionShape(i: nat)
    requires i < 48
    ensures IsClock(TimeOption(i))
    ensures MinutesOf(TimeOption(i)) == 30 * i
    ensures TimeOption(i)[3] in "03" && TimeOption(i)[4] == '0'
  {
    var hour, minute := i / 2, i % 2 * 30;
    FormatTimeIsClock(hour, minute);
    FormatTimeDigits(hour, minute);
    assert DigitChar(0) == '0' && DigitChar(3) == '3';
    assert minute / 10 == 0 || minute / 10 == 3;
  }

  lemma TimeOptionsEnds()
    ensures TimeOption(0) == "00:00"
    ensures TimeOption(47) == "23:30"
  {
    assert Pad2(0) == "00" by { PadTwoDigits(0); }
    assert Pad2(23) == "23" by { PadTwoDigits(23); }
    assert Pad2(30) == "30" by { PadTwoDigits(30); }
    assert TimeOption(47) == FormatTime(23, 30);
  }

  /** The options are strictly increasing both as strings and as times, so
      the string comparison the gate uses agrees with the clock on them. */
  lemma TimeOptionsIncreasing(i: nat, j: nat)
    requires i < j < 48
    ensures IsClock(TimeOption(i)) && IsClock(TimeOption(j))
    ensures StrLt(TimeOption(i), TimeOption(j))
    ensures MinutesOf(TimeOption(i)) < MinutesOf(TimeOption(j))
  {
    TimeOptionShape(i);
    TimeOptionShape(j);
    ClockOrderStrict(TimeOption(i), TimeOption(j));
  }

  /** A window whose bounds both come from the picker is open at a clock
      time exactly when that time lies between the bounds. */
  lemma PickedWindowIsIntended(i: nat, j: nat, currentTime: string, settings: UserSettings)
    requires i < 48 && j < 48 && IsClock(currentTime)
    requires settings.eatingWindowStart == TimeOption(i) && settings.eatingWindowEnd == TimeOption(j)
    ensures WindowOpen(currentTime, settings) <==> 30 * i <= MinutesOf(currentTime) <= 30 * j
  {
    TimeOptionShape(i);
    TimeOptionShape(j);
    WindowOpenIsIntended(currentTime, settings);
  }
}
