# Calorie state engine: a Dafny model

This project models the core of a single-user calorie-budget tracker. The app
keeps a remaining-calorie budget that runs down over time at the user's basal
metabolic rate (BMR). An eating window controls when logging is allowed, and
every food-logging action is also a prompt for mindful eating.

The model covers these parts:

- **The state and its reducer** (`CalorieContext.Reduce`). This is
  `calorieReducer`, a total function over six kinds of action: ADD_FOOD,
  UPDATE_CALORIES, UPDATE_SETTINGS, RESET_DAY, LOAD_STATE, and any other
  value handed to `dispatch`, which leaves the state unchanged.
- **The store** (`CalorieContext.CalorieStore`). This is a class with one
  `state` field. `Dispatch` is its only writer. It has one method each for
  `addFoodEntry`, `updateSettings`, `resetDay` and the load on mount. It also
  has the bodies of the two interval callbacks: `DecayTick(now)` and
  `CheckEatingWindow(currentTime, now)`.
- **The derived queries.** These are the green/yellow/red zone, the decay
  burn `(now - lastUpdated) / 3600000 x bmr / 24`, and the window test
  `start <= currentTime <= end` on "HH:MM" strings.
- **The settings screen's decisions.** `handleSave` validates the weights and
  derives `bmr = currentWeight x 12`. `handleTimeSelect` sets one bound of the
  window. `generateTimeOptions` builds the list of 48 half-hour times, using
  nested loops.
- **The food-log screen's decisions.** The calorie-field check decides
  whether the reason step opens. The reason routing sends "bored",
  "stressed" and "habit" to a mindful pause and logs any other reason once,
  under its catalog label.

Modules:

- `JsValues` holds the JavaScript values the core relies on: absent keys
  (`Option`), numbers that may be NaN (`Num`), truthiness, string ordering,
  `toString` and `padStart`.
- `TimeOfDay` holds the "HH:MM" format and the proof that string order
  equals time order on well-formed clock strings.
- `CalorieContext`, `SettingsScreen` and `FoodLogScreen` follow the three
  source files.

How the model represents the source:

- Times are millisecond `nat`s. Times of day are strings.
- Calories, weights and rates are `real`.
- Weights and `bmr` are `Num`, because the settings screen rejects only
  values `<= 0`, so NaN gets through.
- Every clock reading is a parameter, and so are `Number(text)` and
  `Math.random()`.

Points where the code does less than one might expect, each modelled as
written:

- UPDATE_CALORIES stores its payload without clamping. The floor at zero is
  applied by the decay tick before it dispatches.
- RESET_DAY also refreshes `lastUpdated`. Two resets in a row therefore equal
  one reset everywhere except the stamp.
- The food log accepts zero and negative calories. A negative entry can
  push the budget below zero, and the next dispatching decay tick then
  raises it back to 0 through its `Math.max(0, ...)`.
- The settings screen accepts a weight that parses to NaN.
- The window gate's result never reaches the top-level
  `isWithinEatingWindow` flag (see Findings).
- The initial state is not consistent with its own settings: goal 2200 and
  bmr 1920, against 150 x 3600 and 180 x 12. The model keeps these defaults
  as written.

## Model

| member | source | states |
|---|---|---|
| `JsValues.StrLe` | src/context/CalorieContext.tsx:135-136 | JavaScript `a <= b` on strings: character by character, a proper prefix first |
| `JsValues.StrLt` | src/context/CalorieContext.tsx:135 | JavaScript `a < b` on strings: `<=` and not equal |
| `JsValues.PadStart` | src/screens/SettingsScreen.tsx:74 | `padStart(width, fill)` with a one-character fill: prefixes fill characters up to the width |
| `JsValues.PadStartShape` | src/screens/SettingsScreen.tsx:74 | the padded string is `width` long (or the original, if longer), ends with the original, and is fill before it |
| `JsValues.Times` | src/screens/SettingsScreen.tsx:40 | multiplying a number by a constant gives NaN exactly when the number is NaN |
| `JsValues.StrLeReflexive` | src/context/CalorieContext.tsx:135-136 | every string is `<=` itself, so the window's bounds are inside it |
| `JsValues.StrLeTransitive` | src/context/CalorieContext.tsx:135-136 | JavaScript string `<=` is transitive |
| `JsValues.StrLeAntisymmetric` | src/context/CalorieContext.tsx:135-136 | two strings that are each `<=` the other are equal |
| `JsValues.StrLeTotal` | src/context/CalorieContext.tsx:135-136 | any two strings are comparable |
| `JsValues.StrLtIsNotReverseLe` | src/context/CalorieContext.tsx:135 | `a < b` is exactly `!(b <= a)`, so `t >= start` is read as `start <= t` |
| `JsValues.NumberToString` | src/context/CalorieContext.tsx:179 | a non-negative integer's decimal text is non-empty, and one character long exactly below 10 |
| `JsValues.PadTwoDigits` | src/screens/SettingsScreen.tsx:74 | `n.toString().padStart(2, '0')` for n < 100 is its tens digit then its units digit |
| `TimeOfDay.Pad2` | src/screens/SettingsScreen.tsx:74 | `n.toString().padStart(2, '0')` for n < 100 |
| `TimeOfDay.FormatTime` | src/screens/SettingsScreen.tsx:74 | the template literal: padded hour, ":", padded minute |
| `TimeOfDay.FormatTimeDigits` | src/screens/SettingsScreen.tsx:74 | a formatted time is two hour digits, ':', two minute digits |
| `TimeOfDay.FormatTimeIsClock` | src/screens/SettingsScreen.tsx:74 | formatting hour < 24 and minute < 60 gives a clock string denoting hour x 60 + minute |
| `TimeOfDay.ClockOrder` | src/context/CalorieContext.tsx:135-136 | on zero-padded "HH:MM" strings, string `<=` holds iff the first time is not later |
| `TimeOfDay.ClockOrderStrict` | src/context/CalorieContext.tsx:135-136 | on clock strings, string `<` holds iff the first time is earlier |
| `CalorieContext.InitialState` | src/context/CalorieContext.tsx:38-51 | the start-up state: budget equal to the goal, empty log, flag open, stamp now, and a well-formed window with start before end |
| `CalorieContext.MergeSettings` | src/context/CalorieContext.tsx:71 | `{ ...settings, ...patch }`: an empty patch changes nothing, and a patch carrying only the gate key changes only the merged flag |
| `CalorieContext.SetsTarget` | src/context/CalorieContext.tsx:72 | whether the patch carries a truthy `targetWeight` (present, not 0, not NaN) |
| `CalorieContext.Reduce` | src/context/CalorieContext.tsx:54-86 | `calorieReducer`: LOAD_STATE yields the snapshot, an unrecognised action the state itself; every other action keeps the top-level flag and either keeps `lastUpdated` or sets it to now; only UPDATE_SETTINGS touches settings and goal, and it leaves budget and log alone |
| `CalorieContext.AddFoodAppends` | src/context/CalorieContext.tsx:56-61 | ADD_FOOD appends the entry at the end, keeps earlier entries, raises the budget by exactly its calories, and changes nothing else |
| `CalorieContext.UpdateCaloriesSets` | src/context/CalorieContext.tsx:62-67 | UPDATE_CALORIES sets the budget to the payload unclamped, stamps `lastUpdated` with now, and changes nothing else |
| `CalorieContext.UpdateSettingsMerges` | src/context/CalorieContext.tsx:68-73 | UPDATE_SETTINGS overrides exactly the keys present; the goal becomes target x 3600 for a truthy target and is otherwise kept; the budget, log, stamp and flag are untouched |
| `CalorieContext.UpdateSettingsGoalExamples` | src/context/CalorieContext.tsx:72 | target 150 gives goal 540000; a patch without a target keeps the goal |
| `CalorieContext.UpdateSettingsIdempotent` | src/context/CalorieContext.tsx:68-73 | sending the same settings patch twice equals sending it once |
| `CalorieContext.ResetDayIdempotent` | src/context/CalorieContext.tsx:74-80 | RESET_DAY sets the budget to the goal and empties the log; two resets equal the later one alone |
| `CalorieContext.LoadStateReplaces` | src/context/CalorieContext.tsx:81-84 | LOAD_STATE returns the snapshot wholesale; an unrecognised action returns the state unchanged |
| `CalorieContext.LogFoodRun` | src/context/CalorieContext.tsx:56-61 | any run of ADD_FOOD steps appends exactly those entries in order and raises the budget by their total |
| `CalorieContext.FlagChangesOnlyByLoad` | src/context/CalorieContext.tsx:54-86 | over any run of actions without LOAD_STATE, the top-level `isWithinEatingWindow` never changes |
| `CalorieContext.CalorieZone` | src/context/CalorieContext.tsx:195-200 | `getCalorieZone` on a budget and a goal: green up to 0.8 x goal, yellow up to the goal, red above |
| `CalorieContext.ZoneBands` | src/context/CalorieContext.tsx:195-200 | green iff budget <= 0.8 x goal; yellow iff 0.8 x goal < budget <= goal; red iff above both |
| `CalorieContext.ZoneMonotone` | src/context/CalorieContext.tsx:195-200 | a larger budget never gives a greener zone |
| `CalorieContext.ZoneExamples` | src/context/CalorieContext.tsx:197-199 | with goal 2200: 1760 green, 1761 and 2200 yellow, 2201 red |
| `CalorieContext.MaxZero` | src/context/CalorieContext.tsx:122 | `Math.max(0, x)`: non-negative, at least x, and equal to x or 0 |
| `CalorieContext.HoursSince` | src/context/CalorieContext.tsx:116 | hours since `lastUpdated`: positive iff the clock is past the stamp, negative iff behind it |
| `CalorieContext.Burned` | src/context/CalorieContext.tsx:117 | hours x bmr / 24: NaN exactly when bmr is NaN, and zero when no time has passed |
| `CalorieContext.Tick` | src/context/CalorieContext.tsx:115-124 | the decay timer body: UPDATE_CALORIES with max(0, budget - burn) when the burn is positive, no change otherwise |
| `CalorieContext.TickDispatchCondition` | src/context/CalorieContext.tsx:115-124 | the tick dispatches iff the burn is positive, i.e. time moved forward with positive bmr (or backward with a negative one); otherwise the state, `lastUpdated` included, is unchanged |
| `CalorieContext.TickBounds` | src/context/CalorieContext.tsx:115-124 | a dispatching tick stamps now, changes only budget and stamp, leaves a budget >= 0, never raises a non-negative budget, and strictly lowers a positive one |
| `CalorieContext.TicksCompose` | src/context/CalorieContext.tsx:115-124 | in the model, where the tick and the reducer read the same instant, ticks at t1 then t2 >= t1 leave the same state as one tick at t2 (no elapsed time counted twice or lost); excluded is only a negative bmr with t1 behind the stamp |
| `CalorieContext.BurnMonotone` | src/context/CalorieContext.tsx:116-117 | with a non-negative rate, the burn computed at a later time is never smaller |
| `CalorieContext.LaterTickBurnsMore` | src/context/CalorieContext.tsx:116-122 | with positive bmr, a later tick leaves no more of a non-negative budget than an earlier one |
| `CalorieContext.WindowOpen` | src/context/CalorieContext.tsx:133-136 | the gate's test `currentTime >= start && currentTime <= end` on strings |
| `CalorieContext.WindowOpenIsIntended` | src/context/CalorieContext.tsx:134-136 | on clock strings, the string window test equals start <= time <= end in minutes of the day |
| `CalorieContext.WindowInclusive` | src/context/CalorieContext.tsx:135-136 | both bounds of a non-inverted window are open times |
| `CalorieContext.InvertedWindowNeverOpen` | src/context/CalorieContext.tsx:135-136 | a window whose start sorts after its end (an overnight window) is never open |
| `CalorieContext.WindowExamples` | src/context/CalorieContext.tsx:135-136 | with 08:00-18:00: "08:00", "12:30", "18:00" open; "07:59", "18:01" closed |
| `CalorieContext.GatePatch` | src/context/CalorieContext.tsx:139-142 | the gate's payload `{ isWithinEatingWindow }` as a settings patch |
| `CalorieContext.GateFires` | src/context/CalorieContext.tsx:138 | whether the window test differs from the cached top-level flag |
| `CalorieContext.GateStep` | src/context/CalorieContext.tsx:138-143 | the gate timer body as written: UPDATE_SETTINGS with the payload when it fires, no change otherwise |
| `CalorieContext.GateNeverSettles` | src/context/CalorieContext.tsx:138-142 | a firing gate writes its result only into `settings`, leaves the top-level flag as it was, and fires again on the next check |
| `CalorieContext.GateStaleAtSeven` | src/context/CalorieContext.tsx:138-142 | from the initial state at "07:00" the gate fires, but the flag the home screen reads stays "open" |
| `CalorieContext.IntendedGateStep` | src/context/CalorieContext.tsx:138-142 | the corrected gate step: the top-level flag takes the window test when it fires |
| `CalorieContext.IntendedGateSettles` | src/context/CalorieContext.tsx:138-142 | the corrected gate sets the flag to the window test, changes nothing else, and does not fire again at the same time |
| `CalorieContext.CalorieStore.GetCalorieZone` | src/context/CalorieContext.tsx:195-200 | the zone of the current state: green iff budget <= 0.8 x goal, red iff the budget exceeds both the goal and 0.8 x goal |
| `CalorieContext.CalorieStore.constructor` | src/context/CalorieContext.tsx:38-51 | the store starts from the initial state |
| `CalorieContext.CalorieStore.Dispatch` | src/context/CalorieContext.tsx:100 | each dispatch replaces the state by the reducer's result |
| `CalorieContext.CalorieStore.Hydrate` | src/context/CalorieContext.tsx:151-163 | a saved snapshot, if present, replaces the state; otherwise nothing changes |
| `CalorieContext.CalorieStore.AddFoodEntry` | src/context/CalorieContext.tsx:177-185 | appends one entry with id = decimal of now, timestamp now, the given calories and reason, and raises the budget by those calories |
| `CalorieContext.CalorieStore.UpdateSettings` | src/context/CalorieContext.tsx:187-189 | dispatches UPDATE_SETTINGS with the patch |
| `CalorieContext.CalorieStore.ResetDay` | src/context/CalorieContext.tsx:191-193 | dispatches RESET_DAY; afterwards the budget equals the goal and the log is empty |
| `CalorieContext.CalorieStore.DecayTick` | src/context/CalorieContext.tsx:114-125 | dispatches iff the burn is positive; the new state is the decay tick's; when it dispatches the budget is >= 0 and the stamp is now; otherwise nothing changes |
| `CalorieContext.CalorieStore.CheckEatingWindow` | src/context/CalorieContext.tsx:132-143 | dispatches iff the window test differs from the cached flag; the cached flag itself is unchanged |
| `SettingsScreen.SavePatch` | src/screens/SettingsScreen.tsx:25-48 | `handleSave`'s decision: None on refusal, else the five-key payload with bmr = 12 x current weight |
| `SettingsScreen.SaveValidation` | src/screens/SettingsScreen.tsx:25-48 | save is refused iff a weight field is empty or parses to a number <= 0; an accepted payload carries all five settings, weights positive or NaN, and bmr = 12 x current weight |
| `SettingsScreen.SaveThenReduce` | src/screens/SettingsScreen.tsx:40-48 | an accepted save sets the five settings, sets goal = target x 3600 (a NaN target keeps the goal), and leaves budget, log, stamp and flag alone |
| `SettingsScreen.HandleSave` | src/screens/SettingsScreen.tsx:25-48 | the store gets the payload iff the save is accepted and is untouched otherwise |
| `SettingsScreen.SelectTime` | src/screens/SettingsScreen.tsx:61-68 | `handleTimeSelect` on the window draft |
| `SettingsScreen.SelectTimeSetsOneBound` | src/screens/SettingsScreen.tsx:61-68 | choosing a time sets only the chosen bound and closes the picker |
| `SettingsScreen.TimeOption` | src/screens/SettingsScreen.tsx:72-75 | the i-th picker entry: hour i / 2, minute 0 or 30, formatted |
| `SettingsScreen.GenerateTimeOptions` | src/screens/SettingsScreen.tsx:70-79 | returns 48 strings, the i-th being hour i/2 and minute 0 or 30 formatted as "HH:MM" |
| `SettingsScreen.TimeOptionShape` | src/screens/SettingsScreen.tsx:72-75 | every option is a clock string with minutes "00" or "30" and denotes 30 x i minutes |
| `SettingsScreen.TimeOptionsEnds` | src/screens/SettingsScreen.tsx:72-76 | the first option is "00:00" and the last "23:30" |
| `SettingsScreen.TimeOptionsIncreasing` | src/screens/SettingsScreen.tsx:72-76 | the options are strictly increasing both as strings and as times |
| `SettingsScreen.PickedWindowIsIntended` | src/screens/SettingsScreen.tsx:70-79 | a window with both bounds taken from the picker is open exactly between those half hours |
| `FoodLogScreen.CaloriesAccepted` | src/screens/FoodLogScreen.tsx:46 | the submit guard negated: the text is non-empty and `Number(text)` is not NaN |
| `FoodLogScreen.SubmitCalories` | src/screens/FoodLogScreen.tsx:45-53 | the reason step opens for an accepted calorie text; a rejected one (empty or NaN) changes nothing |
| `FoodLogScreen.SubmitExamples` | src/screens/FoodLogScreen.tsx:46 | "" and non-numeric text are refused; "0" and "-50" are accepted |
| `FoodLogScreen.FindLabel` | src/screens/FoodLogScreen.tsx:81 | `eatingReasons.find(r => r.id === id)?.label` |
| `FoodLogScreen.LabelFor` | src/screens/FoodLogScreen.tsx:81 | the found label, or the id itself when nothing (or an empty label) is found |
| `FoodLogScreen.FindLabelFirst` | src/screens/FoodLogScreen.tsx:81 | the catalog lookup finds a label iff some entry has the id, and then it is the first such entry's label |
| `FoodLogScreen.LabelForCatalog` | src/screens/FoodLogScreen.tsx:24-30 | each catalog reason is logged with its own label |
| `FoodLogScreen.LabelForUnknown` | src/screens/FoodLogScreen.tsx:81 | an id outside the catalog is logged as the id itself |
| `FoodLogScreen.RedirectIndex` | src/screens/FoodLogScreen.tsx:63 | `Math.floor(random * 10)` |
| `FoodLogScreen.RedirectIndexInRange` | src/screens/FoodLogScreen.tsx:63 | floor(r x 10) lies in [0, 10) for r in [0, 1) |
| `FoodLogScreen.ReasonOutcomeOf` | src/screens/FoodLogScreen.tsx:59-82 | `handleReasonSelect`'s decision: a pause with a suggestion index for bored, stressed or habit, else a log of the calories under the label |
| `FoodLogScreen.ReasonRouting` | src/screens/FoodLogScreen.tsx:59-82 | bored, stressed and habit pause with a valid suggestion index; every other reason logs the given calories under its label |
| `FoodLogScreen.CatalogRouting` | src/screens/FoodLogScreen.tsx:59-82 | "hungry" and "enjoying" log their catalog labels; the other three pause |
| `FoodLogScreen.HandleReasonSelect` | src/screens/FoodLogScreen.tsx:55-86 | a pause leaves the store untouched; any other reason appends exactly one entry with the parsed calories and the label |
| `FoodLogScreen.CancelReasonStep` | src/screens/FoodLogScreen.tsx:167-170 | the cancel button: clears the calorie text and closes the reason step |
| `FoodLogScreen.AcknowledgePause` | src/screens/FoodLogScreen.tsx:70-75 | "I understand": closes the step and clears the text and the chosen reason |
| `FoodLogScreen.ClosedStepNeedsNewInput` | src/screens/FoodLogScreen.tsx:165-170 | cancelling (or acknowledging a pause) clears the calorie text and closes the reason step, and a new submit is refused until calories are typed again |

## Findings

| source | as written | input that shows it | evidently intended | confidence | as-written member | corrected member |
|---|---|---|---|---|---|---|
| src/context/CalorieContext.tsx:138-142 | The window gate dispatches UPDATE_SETTINGS with `{ isWithinEatingWindow }`. The reducer merges that key into `settings` (line 71), so the top-level flag (line 25) never changes after start-up. | Initial state (flag true, window 08:00-18:00) with the clock at "07:00". The gate fires but the flag stays true. The home screen still enables logging, and the gate fires again every minute. | The cached top-level flag takes the computed value, so the gate stops firing until the value changes. | high; not executed | `CalorieContext.GateStaleAtSeven` | `CalorieContext.IntendedGateSettles` |

The store's `CheckEatingWindow` keeps the as-written behaviour, because the
model describes the code. `CalorieContext.IntendedGateStep` is the corrected
step.

## Left out

- Persistence. `saveState`, the storage medium, JSON encoding and the
  re-parsing of dates are I/O. `Hydrate` takes the loaded value as
  "absent or a snapshot" and feeds it to LOAD_STATE. A failed load is the
  absent case.
- Timer plumbing. `setInterval`, `clearInterval` and the re-subscription of
  the effects are not modelled. Each callback is a method call with the clock
  reading as an argument, and it reads the store's current state. The source
  callbacks close over the state of their last subscription, and the gate's
  effect re-subscribes only when the window bounds change. So after a
  LOAD_STATE the gate compares against an older flag, and the model does not
  capture that.
- Clock readings. Each operation takes one `now`. The decay tick's
  `new Date()` and the reducer's own `new Date()` are taken as the same
  instant. So are `Date.now()` (the id) and `new Date()` (the timestamp) in
  `addFoodEntry`. In the app the reducer reads a slightly later time than
  the tick. The gap between the two readings is then never burned, so
  decay runs slightly below bmr / 24 per hour and `TicksCompose` holds only
  in the model.
- `CalorieContext.CalorieStore.constructor` takes its own `now`. In the app,
  `initialState.lastUpdated` is read once when the module is loaded, not at
  each mount of the provider.
- `CalorieContext.CalorieStore.AddFoodEntry`: id uniqueness is not claimed.
  Two entries logged in the same millisecond get the same id.
- Number parsing. `Number(text)` is a parameter (`parse`). Infinity is not
  modelled, so `Num` is a finite real or NaN. Calories are `real` because the
  reason step opens only after NaN is rejected.
- String order. `StrLe` orders characters by Unicode code point.
  JavaScript compares UTF-16 code units, which differs only for characters
  above U+FFFF. Clock strings contain none.
- `JsValues.NumberToString` models `toString` only for integers below
  10^21, which covers every millisecond timestamp. JavaScript's exponent
  form above that is not modelled.
- Floating point. Reals are exact. IEEE rounding (for example in
  `dailyGoal * 0.8` or in the burn) is not modelled.
- Patch keys present with the value `undefined` are not modelled. A key is
  either present with a value or absent.
- `FoodLogScreen.HandleReasonSelect`: requires an accepted calorie text. The
  reason step is shown only after `handleCalorieSubmit` accepted the text.
- User interface. Rendering, styles, alerts, haptics, navigation, animation,
  emojis, the redirect messages' text, and the `useCalorie` hook's error
  outside a provider are not modelled.
- `src/screens/HomeScreen.tsx` is not part of this model. It is presentation:
  it repeats the zone thresholds and disables a button on the cached flag.
- `App.tsx` is not part of this model. It only wires up navigation.
