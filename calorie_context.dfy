/** The calorie state engine: the state record, its transition function
    (`calorieReducer`), the zone query, the two timer bodies (metabolic decay
    and the eating-window gate) and the single-writer store that the screens
    call into. Clock readings are parameters: `now` is a millisecond
    timestamp, `currentTime` an "HH:MM" string. */
module CalorieContext {
  import opened JsValues
  import opened TimeOfDay

  /** Milliseconds since the epoch, as `Date#getTime` returns them. */
  type Millis = nat

  const MillisPerHour: real := 3600000.0
  /** Calories of daily goal per unit of target weight. */
  const GoalPerWeightUnit: real := 3600.0
  /** Fraction of the daily goal up to which the zone is green. */
  const GreenFraction: real := 0.8

  /** One logging event; created once and never changed. */
  datatype FoodEntry = FoodEntry(id: string, calories: real, timestamp: Millis, reason: string)

  /** The settings object. Weights and `bmr` are JavaScript numbers and may be
      NaN, since the settings screen only rejects values `<= 0`.
      `mergedWindowFlag` is the `isWithinEatingWindow` key that the window
      gate's payload leaves in this object: absent until the gate first fires. */
  datatype UserSettings = UserSettings(
    targetWeight: Num,
    currentWeight: Num,
    eatingWindowStart: string,
    eatingWindowEnd: string,
    bmr: Num,
    mergedWindowFlag: Option<bool>)

  /** The payload of UPDATE_SETTINGS: any subset of the settings keys, plus the
      `isWithinEatingWindow` key that the window gate sends. */
  datatype SettingsPatch = SettingsPatch(
    targetWeight: Option<Num>,
    currentWeight: Option<Num>,
    eatingWindowStart: Option<string>,
    eatingWindowEnd: Option<string>,
    bmr: Option<Num>,
    isWithinEatingWindow: Option<bool>)

  const EmptyPatch: SettingsPatch := SettingsPatch(None, None, None, None, None, None)

  /** The root aggregate held by the store. */
  datatype CalorieState = CalorieState(
    currentCalories: real,
    dailyGoal: real,
    foodEntries: seq<FoodEntry>,
    settings: UserSettings,
    isWithinEatingWindow: bool,
    lastUpdated: Millis)

  /** The five actions of the reducer, and any other value handed to `dispatch`. */
  datatype CalorieAction =
    | AddFood(entry: FoodEntry)
    | UpdateCalories(calories: real)
    | UpdateSettings(patch: SettingsPatch)
    | ResetDay
    | LoadState(snapshot: CalorieState)
    | Unrecognised(tag: string)

  /** The state the store starts from, before any saved snapshot is loaded. */
  function InitialState(now: Millis): (r: CalorieState)
    ensures r.currentCalories == r.dailyGoal && r.foodEntries == [] && r.lastUpdated == now
    ensures r.isWithinEatingWindow && r.settings.mergedWindowFlag.None?
    ensures IsClock(r.settings.eatingWindowStart) && IsClock(r.settings.eatingWindowEnd)
    ensures MinutesOf(r.settings.eatingWindowStart) < MinutesOf(r.settings.eatingWindowEnd)
  {
    CalorieState(
      2200.0, 2200.0, [],
      UserSettings(Real(150.0), Real(180.0), "08:00", "18:00", Real(1920.0), None),
      true, now)
  }

  /** `{ ...settings, ...patch }`: every key present in the patch overrides. */
  function MergeSettings(s: UserSettings, p: SettingsPatch): (r: UserSettings)
    ensures p == EmptyPatch ==> r == s
    ensures p == EmptyPatch.(isWithinEatingWindow := p.isWithinEatingWindow) ==>
      r == s.(mergedWindowFlag := r.mergedWindowFlag)
  {
    UserSettings(
      if p.targetWeight.Some? then p.targetWeight.value else s.targetWeight,
      if p.currentWeight.Some? then p.currentWeight.value else s.currentWeight,
      if p.eatingWindowStart.Some? then p.eatingWindowStart.value else s.eatingWindowStart,
      if p.eatingWindowEnd.Some? then p.eatingWindowEnd.value else s.eatingWindowEnd,
      if p.bmr.Some? then p.bmr.value else s.bmr,
      if p.isWithinEatingWindow.Some? then p.isWithinEatingWindow else s.mergedWindowFlag)
  }

  /** Whether the patch carries a truthy `targetWeight`. */
  predicate SetsTarget(p: SettingsPatch) {
    p.targetWeight.Some? && Truthy(p.targetWeight.value)
  }

  /** `calorieReducer`; `now` is what `new Date()` reads inside it. */
  function Reduce(s: CalorieState, action: CalorieAction, now: Millis): (r: CalorieState)
    ensures action.LoadState? ==> r == action.snapshot
    ensures action.Unrecognised? ==> r == s
    ensures !action.LoadState? ==> r.isWithinEatingWindow == s.isWithinEatingWindow
    ensures !action.LoadState? ==> r.lastUpdated == s.lastUpdated || r.lastUpdated == now
    ensures !action.LoadState? && !action.UpdateSettings? ==>
      r.settings == s.settings && r.dailyGoal == s.dailyGoal
    ensures action.UpdateSettings? ==>
      r.currentCalories == s.currentCalories && r.foodEntries == s.foodEntries
  {
    match action
    case AddFood(entry) =>
      s.(currentCalories := s.currentCalories + entry.calories,
         foodEntries := s.foodEntries + [entry])
    case UpdateCalories(calories) =>
      s.(currentCalories := calories, lastUpdated := now)
    case UpdateSettings(patch) =>
      s.(settings := MergeSettings(s.settings, patch),
         dailyGoal := if SetsTarget(patch) then patch.targetWeight.value.value * GoalPerWeightUnit
                      else s.dailyGoal)
    case ResetDay =>
      s.(currentCalories := s.dailyGoal, foodEntries := [], lastUpdated := now)
    case LoadState(snapshot) =>
      snapshot
    case Unrecognised(_) =>
      s
  }

  // ---------------------------------------------------------------------
  // Reducer properties

  lemma AddFoodAppends(s: CalorieState, e: FoodEntry, now: Millis)
    ensures var r := Reduce(s, AddFood(e), now);
      && |r.foodEntries| == |s.foodEntries| + 1
      && r.foodEntries[..|s.foodEntries|] == s.foodEntries
      && r.foodEntries[|s.foodEntries|] == e
      && r.currentCalories == s.currentCalories + e.calories
      && r.dailyGoal == s.dailyGoal && r.settings == s.settings
      && r.isWithinEatingWindow == s.isWithinEatingWindow && r.lastUpdated == s.lastUpdated
  {
    var r := Reduce(s, AddFood(e), now);
    assert r.foodEntries[..|s.foodEntries|] == s.foodEntries;
  }

  lemma UpdateCaloriesSets(s: CalorieState, value: real, now: Millis)
    ensures var r := Reduce(s, UpdateCalories(value), now);
      && r.currentCalories == value && r.lastUpdated == now
      && r == s.(currentCalories := value, lastUpdated := now)
  {
  }

  /** UPDATE_SETTINGS overrides exactly the keys the patch carries, recomputes
      the goal from a truthy target weight and touches nothing else. */
  lemma UpdateSettingsMerges(s: CalorieState, p: SettingsPatch, now: Millis)
    ensures var r := Reduce(s, UpdateSettings(p), now);
      && r.currentCalories == s.currentCalories && r.foodEntries == s.foodEntries
      && r.isWithinEatingWindow == s.isWithinEatingWindow && r.lastUpdated == s.lastUpdated
      && (p.targetWeight.None? ==> r.settings.targetWeight == s.settings.targetWeight)
      && (p.currentWeight.None? ==> r.settings.currentWeight == s.settings.currentWeight)
      && (p.eatingWindowStart.None? ==> r.settings.eatingWindowStart == s.settings.eatingWindowStart)
      && (p.eatingWindowEnd.None? ==> r.settings.eatingWindowEnd == s.settings.eatingWindowEnd)
      && (p.bmr.None? ==> r.settings.bmr == s.settings.bmr)
      && (p.isWithinEatingWindow.None? ==> r.settings.mergedWindowFlag == s.settings.mergedWindowFlag)
      && (p.targetWeight.Some? ==> r.settings.targetWeight == p.targetWeight.value)
      && (p.currentWeight.Some? ==> r.settings.currentWeight == p.currentWeight.value)
      && (p.eatingWindowStart.Some? ==> r.settings.eatingWindowStart == p.eatingWindowStart.value)
      && (p.eatingWindowEnd.Some? ==> r.settings.eatingWindowEnd == p.eatingWindowEnd.value)
      && (p.bmr.Some? ==> r.settings.bmr == p.bmr.value)
      && (p.isWithinEatingWindow.Some? ==> r.settings.mergedWindowFlag == p.isWithinEatingWindow)
      && (p.targetWeight.Some? && p.targetWeight.value.Real? && p.targetWeight.value.value != 0.0
          ==> r.dailyGoal == p.targetWeight.value.value * 3600.0)
      && (p.targetWeight.None? || p.targetWeight.value == NaN || p.targetWeight.value == Real(0.0)
          ==> r.dailyGoal == s.dailyGoal)
  {
  }

  /** A target weight of 150 gives a goal of 540000; a patch without one keeps the goal. */
  lemma UpdateSettingsGoalExamples(s: CalorieState, now: Millis)
    ensures Reduce(s, UpdateSettings(EmptyPatch.(targetWeight := Some(Real(150.0)))), now).dailyGoal == 540000.0
    ensures Reduce(s, UpdateSettings(EmptyPatch.(currentWeight := Some(Real(170.0)))), now).dailyGoal == s.dailyGoal
  {
  }

  /** Sending the same settings patch twice has the effect of sending it once. */
  lemma UpdateSettingsIdempotent(s: CalorieState, p: SettingsPatch, t1: Millis, t2: Millis)
    ensures Reduce(Reduce(s, UpdateSettings(p), t1), UpdateSettings(p), t2) == Reduce(s, UpdateSettings(p), t1)
  {
  }

  /** RESET_DAY restores the budget to the goal and empties the log; a second
      reset changes nothing but the `lastUpdated` stamp. */
  lemma ResetDayIdempotent(s: CalorieState, t1: Millis, t2: Millis)
    ensures var r := Reduce(s, ResetDay, t1);
      && r.currentCalories == s.dailyGoal && r.foodEntries == [] && r.lastUpdated == t1
      && r.dailyGoal == s.dailyGoal && r.settings == s.settings
      && r.isWithinEatingWindow == s.isWithinEatingWindow
    ensures Reduce(Reduce(s, ResetDay, t1), ResetDay, t2) == Reduce(s, ResetDay, t2)
  {
  }

  lemma LoadStateReplaces(s: CalorieState, snapshot: CalorieState, tag: string, now: Millis)
    ensures Reduce(s, LoadState(snapshot), now) == snapshot
    ensures Reduce(s, Unrecognised(tag), now) == s
  {
  }

  /** A dispatched action together with the instant the reducer ran. */
  datatype Step = Step(action: CalorieAction, at: Millis)

  /** The state after the store has applied the steps in order. */
  function Replay(s: CalorieState, steps: seq<Step>): CalorieState
    decreases |steps|
  {
    if steps == [] then s else Replay(Reduce(s, steps[0].action, steps[0].at), steps[1..])
  }

  /** Calories of a run of entries. */
  function TotalCalories(entries: seq<FoodEntry>): real
    decreases |entries|
  {
    if entries == [] then 0.0 else entries[0].calories + TotalCalories(entries[1..])
  }

  /** Logging entries one after another appends exactly those entries, in
      order, and raises the budget by their total; nothing else changes. */
  lemma {:induction false} LogFoodRun(s: CalorieState, entries: seq<FoodEntry>, times: seq<Millis>)
    requires |times| == |entries|
    ensures Replay(s, seq(|entries|, i requires 0 <= i < |entries| => Step(AddFood(entries[i]), times[i])))
         == s.(currentCalories := s.currentCalories + TotalCalories(entries),
               foodEntries := s.foodEntries + entries)
    decreases |entries|
  {
    var steps := seq(|entries|, i requires 0 <= i < |entries| => Step(AddFood(entries[i]), times[i]));
    if entries != [] {
      var s1 := Reduce(s, AddFood(entries[0]), times[0]);
      LogFoodRun(s1, entries[1..], times[1..]);
      assert steps[1..] == seq(|entries[1..]|, i requires 0 <= i < |entries[1..]| => Step(AddFood(entries[1..][i]), times[1..][i]));
      assert s1.foodEntries + entries[1..] == s.foodEntries + entries by {
        assert entries == [entries[0]] + entries[1..];
      }
    } else {
      assert s.foodEntries + entries == s.foodEntries;
    }
  }

  /** Only LOAD_STATE ever changes the top-level `isWithinEatingWindow`. */
  lemma {:induction false} FlagChangesOnlyByLoad(s: CalorieState, steps: seq<Step>)
    requires forall i :: 0 <= i < |steps| ==> !steps[i].action.LoadState?
    ensures Replay(s, steps).isWithinEatingWindow == s.isWithinEatingWindow
    decreases |steps|
  {
    if steps != [] {
      FlagChangesOnlyByLoad(Reduce(s, steps[0].action, steps[0].at), steps[1..]);
    }
  }

  // ---------------------------------------------------------------------
  // Zone

  datatype Zone = Green | Yellow | Red

  /** `getCalorieZone`. */
  function CalorieZone(current: real, goal: real): Zone {
    if current <= goal * GreenFraction then Green
    else if current <= goal then Yellow
    else Red
  }

  /** The three bands, each as a condition on the budget. */
  lemma ZoneBands(current: real, goal: real)
    ensures CalorieZone(current, goal) == Green <==> current <= 0.8 * goal
    ensures CalorieZone(current, goal) == Yellow <==> 0.8 * goal < current <= goal
    ensures CalorieZone(current, goal) == Red <==> 0.8 * goal < current && goal < current
  {
  }

  function ZoneRank(z: Zone): nat {
    match z
    case Green => 0
    case Yellow => 1
    case Red => 2
  }

  /** More calories never give a greener zone. */
  lemma ZoneMonotone(c1: real, c2: real, goal: real)
    requires c1 <= c2
    ensures ZoneRank(CalorieZone(c1, goal)) <= ZoneRank(CalorieZone(c2, goal))
  {
  }

  lemma ZoneExamples()
    ensures CalorieZone(1760.0, 2200.0) == Green
    ensures CalorieZone(1761.0, 2200.0) == Yellow
    ensures CalorieZone(2200.0, 2200.0) == Yellow
    ensures CalorieZone(2201.0, 2200.0) == Red
  {
  }

  // ---------------------------------------------------------------------
  // Decay tick

  /** `Math.max(0, x)`. */
  function MaxZero(x: real): (r: real)
    ensures r >= 0.0 && r >= x && (r == x || r == 0.0)
  {
    if x > 0.0 then x else 0.0
  }

  lemma MaxZeroMonotone(x: real, y: real)
    requires x <= y
    ensures MaxZero(x) <= MaxZero(y)
  {
  }

  lemma ScaleMonotone(x: real, y: real, k: real)
    requires x <= y && k >= 0.0
    ensures x * k <= y * k
  {
    assert (y - x) * k >= 0.0;
  }

  /** Hours elapsed since `lastUpdated`; negative when the clock is behind it. */
  function HoursSince(s: CalorieState, now: Millis): (h: real)
    ensures h > 0.0 <==> now > s.lastUpdated
    ensures h < 0.0 <==> now < s.lastUpdated
  {
    (now - s.lastUpdated) as real / MillisPerHour
  }

  lemma HoursSinceMonotone(s: CalorieState, t: Millis, t': Millis)
    requires t <= t'
    ensures HoursSince(s, t) <= HoursSince(s, t')
  {
    var d, d' := (t - s.lastUpdated) as real, (t' - s.lastUpdated) as real;
    assert d <= d';
    assert HoursSince(s, t') - HoursSince(s, t) == (d' - d) / MillisPerHour;
  }

  /** `hoursSinceLastUpdate * (bmr / 24)`: NaN when `bmr` is NaN. */
  function Burned(s: CalorieState, now: Millis): (b: Num)
    ensures b.NaN? <==> s.settings.bmr.NaN?
    ensures now == s.lastUpdated && b.Real? ==> b.value == 0.0
  {
    match s.settings.bmr
    case NaN => NaN
    case Real(b) => Real(HoursSince(s, now) * (b / 24.0))
  }

  /** With a non-negative rate, the burn grows with the time of the tick. */
  lemma BurnMonotone(s: CalorieState, t: Millis, t': Millis)
    requires t <= t' && s.settings.bmr.Real? && s.settings.bmr.value >= 0.0
    ensures Burned(s, t).value <= Burned(s, t').value
  {
    HoursSinceMonotone(s, t, t');
    ScaleMonotone(HoursSince(s, t), HoursSince(s, t'), s.settings.bmr.value / 24.0);
  }

  /** The body of the decay timer: when the burn is positive it dispatches
      UPDATE_CALORIES with the budget less the burn, floored at zero. */
  function Tick(s: CalorieState, now: Millis): CalorieState {
    if Positive(Burned(s, now))
    then Reduce(s, UpdateCalories(MaxZero(s.currentCalories - Burned(s, now).value)), now)
    else s
  }

  lemma ProductPositive(x: real, y: real)
    ensures x * y > 0.0 <==> (x > 0.0 && y > 0.0) || (x < 0.0 && y < 0.0)
  {
    if x > 0.0 && y < 0.0 {
      assert x * y < 0.0;
    }
    if x < 0.0 && y > 0.0 {
      assert x * y < 0.0;
    }
  }

  /** The tick dispatches exactly when time has moved forward and the
      metabolic rate is positive, or (with a corrupt negative rate loaded from
      storage) when the clock is behind `lastUpdated`. Otherwise nothing at
      all changes, `lastUpdated` included. */
  lemma TickDispatchCondition(s: CalorieState, now: Millis)
    ensures Positive(Burned(s, now)) <==>
      (now > s.lastUpdated && Positive(s.settings.bmr)) ||
      (now < s.lastUpdated && s.settings.bmr.Real? && s.settings.bmr.value < 0.0)
    ensures !Positive(Burned(s, now)) ==> Tick(s, now) == s
  {
    if s.settings.bmr.Real? {
      ProductPositive(HoursSince(s, now), s.settings.bmr.value / 24.0);
    }
  }

  /** A dispatching tick stamps `now`, leaves everything but the budget and
      the stamp alone, never leaves a negative budget, never raises a
      non-negative one, and strictly lowers a positive one. */
  lemma TickBounds(s: CalorieState, now: Millis)
    requires Positive(Burned(s, now))
    ensures var r := Tick(s, now);
      && r.lastUpdated == now
      && r == s.(currentCalories := r.currentCalories, lastUpdated := now)
      && 0.0 <= r.currentCalories
      && (s.currentCalories >= 0.0 ==> r.currentCalories <= s.currentCalories)
      && (s.currentCalories > 0.0 ==> r.currentCalories < s.currentCalories)
  {
  }

  /** Because each tick measures from `lastUpdated` and resets it in the same
      transition, two ticks at t1 and then t2 leave the same state as one tick
      at t2: in this model, where the tick and the reducer read the same
      instant, no time is counted twice or lost. The one exception is a
      negative rate with the clock behind the stamp, where the first tick
      fires and moves the stamp backward. */
  lemma TicksCompose(s: CalorieState, t1: Millis, t2: Millis)
    requires t1 <= t2
    requires !(s.settings.bmr.Real? && s.settings.bmr.value < 0.0 && t1 < s.lastUpdated)
    ensures Tick(Tick(s, t1), t2) == Tick(s, t2)
  {
    TickDispatchCondition(s, t1);
    TickDispatchCondition(s, t2);
    var s1 := Tick(s, t1);
    TickDispatchCondition(s1, t2);
    if Positive(Burned(s, t1)) && t1 < t2 {
      var rate := s.settings.bmr.value / 24.0;
      var h1 := HoursSince(s, t1);
      var h2 := HoursSince(s1, t2);
      assert HoursSince(s, t2) == h1 + h2;
      assert (h1 + h2) * rate == h1 * rate + h2 * rate;
      assert Burned(s, t2).value == Burned(s, t1).value + Burned(s1, t2).value;
    }
  }

  /** With a positive rate and a clock not behind `lastUpdated`, a later
      tick leaves no more of a non-negative budget than an earlier one. */
  lemma LaterTickBurnsMore(s: CalorieState, t: Millis, t': Millis)
    requires s.lastUpdated <= t <= t'
    requires Positive(s.settings.bmr) && s.currentCalories >= 0.0
    ensures Tick(s, t').currentCalories <= Tick(s, t).currentCalories
  {
    TickDispatchCondition(s, t);
    TickDispatchCondition(s, t');
    if t == s.lastUpdated {
      assert Tick(s, t) == s;
      if t < t' {
        TickBounds(s, t');
      }
    } else {
      BurnMonotone(s, t, t');
      var c, c' := s.currentCalories - Burned(s, t).value, s.currentCalories - Burned(s, t').value;
      assert Tick(s, t).currentCalories == MaxZero(c);
      assert Tick(s, t').currentCalories == MaxZero(c');
      MaxZeroMonotone(c', c);
    }
  }

  // ---------------------------------------------------------------------
  // Eating-window gate

  /** The gate's test: `currentTime >= start && currentTime <= end` on strings. */
  predicate WindowOpen(currentTime: string, settings: UserSettings) {
    StrLe(settings.eatingWindowStart, currentTime) && StrLe(currentTime, settings.eatingWindowEnd)
  }

  /** The window as meant: start and end inclusive, compared as times of day. */
  predicate IntendedOpen(currentTime: string, start: string, end: string)
    requires IsClock(currentTime) && IsClock(start) && IsClock(end)
  {
    MinutesOf(start) <= MinutesOf(currentTime) <= MinutesOf(end)
  }

  /** On well-formed clock strings the string test is the time-of-day test. */
  lemma WindowOpenIsIntended(currentTime: string, settings: UserSettings)
    requires IsClock(currentTime) && IsClock(settings.eatingWindowStart) && IsClock(settings.eatingWindowEnd)
    ensures WindowOpen(currentTime, settings) <==>
      IntendedOpen(currentTime, settings.eatingWindowStart, settings.eatingWindowEnd)
  {
    ClockOrder(settings.eatingWindowStart, currentTime);
    ClockOrder(currentTime, settings.eatingWindowEnd);
  }

  /** Both bounds are inside the window whenever the window is not inverted. */
  lemma WindowInclusive(settings: UserSettings)
    requires StrLe(settings.eatingWindowStart, settings.eatingWindowEnd)
    ensures WindowOpen(settings.eatingWindowStart, settings)
    ensures WindowOpen(settings.eatingWindowEnd, settings)
  {
    StrLeReflexive(settings.eatingWindowStart);
    StrLeReflexive(settings.eatingWindowEnd);
  }

  /** A window whose start sorts after its end (an overnight window such as
      22:00-06:00) is never open. */
  lemma InvertedWindowNeverOpen(currentTime: string, settings: UserSettings)
    requires StrLt(settings.eatingWindowEnd, settings.eatingWindowStart)
    ensures !WindowOpen(currentTime, settings)
  {
    StrLtIsNotReverseLe(settings.eatingWindowEnd, settings.eatingWindowStart);
    if WindowOpen(currentTime, settings) {
      StrLeTransitive(settings.eatingWindowStart, currentTime, settings.eatingWindowEnd);
    }
  }

  lemma WindowExamples()
    ensures var w := InitialState(0).settings;
      && WindowOpen("08:00", w) && WindowOpen("18:00", w) && WindowOpen("12:30", w)
      && !WindowOpen("07:59", w) && !WindowOpen("18:01", w)
  {
    var w := InitialState(0).settings;
    assert IsClock("08:00") && IsClock("18:00") && IsClock("12:30") && IsClock("07:59") && IsClock("18:01");
    WindowOpenIsIntended("08:00", w);
    WindowOpenIsIntended("18:00", w);
    WindowOpenIsIntended("12:30", w);
    WindowOpenIsIntended("07:59", w);
    WindowOpenIsIntended("18:01", w);
  }

  /** The gate's payload: `{ isWithinEatingWindow: isWithin }`. */
  function GatePatch(isWithin: bool): SettingsPatch {
    EmptyPatch.(isWithinEatingWindow := Some(isWithin))
  }

  /** Whether the gate dispatches: the computed value differs from the
      cached top-level flag. */
  predicate GateFires(s: CalorieState, currentTime: string) {
    WindowOpen(currentTime, s.settings) != s.isWithinEatingWindow
  }

  /** The body of the window-gate timer, as written. */
  function GateStep(s: CalorieState, currentTime: string, now: Millis): CalorieState {
    if GateFires(s, currentTime)
    then Reduce(s, UpdateSettings(GatePatch(WindowOpen(currentTime, s.settings))), now)
    else s
  }

  /** As written, a firing gate records its result only inside `settings`:
      the top-level flag keeps its old value, nothing else moves, and the gate
      fires again on the next check at the same time of day. */
  lemma GateNeverSettles(s: CalorieState, currentTime: string, now: Millis)
    requires GateFires(s, currentTime)
    ensures var r := GateStep(s, currentTime, now);
      && r.isWithinEatingWindow == s.isWithinEatingWindow
      && r.settings.mergedWindowFlag == Some(WindowOpen(currentTime, s.settings))
      && r == s.(settings := r.settings)
      && GateFires(r, currentTime)
  {
    var r := GateStep(s, currentTime, now);
    assert r.settings.eatingWindowStart == s.settings.eatingWindowStart;
    assert r.settings.eatingWindowEnd == s.settings.eatingWindowEnd;
  }

  /** The start-up state at 07:00 with the default 08:00-18:00 window: the
      gate fires, yet the flag the home screen reads still says "open". */
  lemma GateStaleAtSeven(now: Millis)
    ensures GateFires(InitialState(now), "07:00")
    ensures GateStep(InitialState(now), "07:00", now).isWithinEatingWindow
  {
    var w := InitialState(now).settings;
    assert IsClock("07:00");
    WindowOpenIsIntended("07:00", w);
  }

  /** The gate step as evidently intended: the cached top-level flag takes
      the computed value. */
  function IntendedGateStep(s: CalorieState, currentTime: string): CalorieState {
    if GateFires(s, currentTime)
    then s.(isWithinEatingWindow := WindowOpen(currentTime, s.settings))
    else s
  }

  /** The intended step leaves the flag equal to the window test, changes
      nothing else, and a repeated check at the same time does not fire. */
  lemma IntendedGateSettles(s: CalorieState, currentTime: string)
    ensures var r := IntendedGateStep(s, currentTime);
      && r.isWithinEatingWindow == WindowOpen(currentTime, s.settings)
      && r == s.(isWithinEatingWindow := r.isWithinEatingWindow)
      && !GateFires(r, currentTime)
      && IntendedGateStep(r, currentTime) == r
  {
  }

  // ---------------------------------------------------------------------
  // The store

  /** The provider: the one owner of the state. Every change goes through
      `Dispatch`, one action at a time. */
  class CalorieStore {
    var state: CalorieState

    constructor (now: Millis)
      ensures state == InitialState(now)
    {
      state := InitialState(now);
    }

    /** `dispatch(action)`, reduced at instant `now`. */
    method Dispatch(action: CalorieAction, now: Millis)
      modifies this
      ensures state == Reduce(old(state), action, now)
    {
      state := Reduce(state, action, now);
    }

    /** Loading on mount: a saved snapshot, if there is one, replaces the state. */
    method Hydrate(saved: Option<CalorieState>, now: Millis)
      modifies this
      ensures saved.Some? ==> state == saved.value
      ensures saved.None? ==> state == old(state)
    {
      if saved.Some? {
        Dispatch(LoadState(saved.value), now);
      }
    }

    /** `addFoodEntry`: a new entry whose id is the clock's millisecond count
        in decimal and whose timestamp is the same instant. */
    method AddFoodEntry(calories: real, reason: string, now: Millis)
      modifies this
      ensures state == Reduce(old(state), AddFood(FoodEntry(NumberToString(now), calories, now, reason)), now)
      ensures state.foodEntries == old(state.foodEntries) + [FoodEntry(NumberToString(now), calories, now, reason)]
      ensures state.currentCalories == old(state.currentCalories) + calories
    {
      var entry := FoodEntry(NumberToString(now), calories, now, reason);
      Dispatch(AddFood(entry), now);
    }

    /** `updateSettings`. */
    method UpdateSettings(patch: SettingsPatch, now: Millis)
      modifies this
      ensures state == Reduce(old(state), CalorieAction.UpdateSettings(patch), now)
    {
      Dispatch(CalorieAction.UpdateSettings(patch), now);
    }

    /** `resetDay`. */
    method ResetDay(now: Millis)
      modifies this
      ensures state == Reduce(old(state), CalorieAction.ResetDay, now)
      ensures state.currentCalories == state.dailyGoal && state.foodEntries == []
    {
      Dispatch(CalorieAction.ResetDay, now);
    }

    /** One run of the decay timer's callback at instant `now`. */
    method DecayTick(now: Millis) returns (dispatched: bool)
      modifies this
      ensures dispatched == Positive(Burned(old(state), now))
      ensures state == Tick(old(state), now)
      ensures dispatched ==> state.lastUpdated == now && 0.0 <= state.currentCalories
      ensures !dispatched ==> state == old(state)
    {
      var burned := Burned(state, now);
      dispatched := Positive(burned);
      if dispatched {
        Dispatch(UpdateCalories(MaxZero(state.currentCalories - burned.value)), now);
      }
    }

    /** One run of the eating-window check with the clock reading `currentTime`. */
    method CheckEatingWindow(currentTime: string, now: Millis) returns (dispatched: bool)
      modifies this
      ensures dispatched == GateFires(old(state), currentTime)
      ensures state == GateStep(old(state), currentTime, now)
      ensures state.isWithinEatingWindow == old(state).isWithinEatingWindow
    {
      var isWithin := WindowOpen(currentTime, state.settings);
      dispatched := isWithin != state.isWithinEatingWindow;
      if dispatched {
        Dispatch(CalorieAction.UpdateSettings(GatePatch(isWithin)), now);
      }
    }

    /** `getCalorieZone` on the current state. */
    function GetCalorieZone(): (z: Zone)
      reads this
      ensures z == Green <==> state.currentCalories <= 0.8 * state.dailyGoal
      ensures z == Red <==> state.currentCalories > state.dailyGoal && state.currentCalories > 0.8 * state.dailyGoal
    {
      CalorieZone(state.currentCalories, state.dailyGoal)
    }
  }
}
