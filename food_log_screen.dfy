/** The decision logic of the food-logging screen: the check on the calorie
    field before the reason step opens, and the routing of the chosen reason
    either to a mindful pause (nothing is logged) or to exactly one
    `addFoodEntry` with the catalog's label for that reason. */
module FoodLogScreen {
  import opened JsValues
  import opened CalorieContext

  /** One entry of the reason catalog (the emoji is presentation only). */
  datatype Reason = Reason(id: string, text: string)

  const EatingReasons: seq<Reason> := [
    Reason("hungry", "I'm hungry and need energy"),
    Reason("enjoying", "I'm within my range and enjoying something"),
    Reason("bored", "I'm bored"),
    Reason("stressed", "I'm stressed/emotional"),
    Reason("habit", "It's just habit")
  ]

  /** Reasons that lead to a mindful pause instead of a log entry. */
  const NonHungerReasons: seq<string> := ["bored", "stressed", "habit"]

  /** Number of redirect suggestions the pause picks from. */
  const RedirectCount: nat := 10

  /** The screen's form state: the calorie text, whether the reason step is
      shown, and the reason last chosen. */
  datatype Form = Form(calories: string, showReasonModal: bool, selectedReason: string)

  /** The test in `handleCalorieSubmit`: the text is non-empty and
      `Number(text)` is not NaN; `parse` stands for `Number`. */
  predicate CaloriesAccepted(text: string, parse: string -> Num) {
    text != "" && !parse(text).NaN?
  }

  /** `handleCalorieSubmit` on the form: the reason step opens only for an
      accepted calorie text; a rejected one changes nothing. */
  function SubmitCalories(f: Form, parse: string -> Num): (r: Form)
    ensures r.calories == f.calories && r.selectedReason == f.selectedReason
    ensures CaloriesAccepted(f.calories, parse) ==> r.showReasonModal
    ensures !CaloriesAccepted(f.calories, parse) ==> r == f
  {
    if f.calories == "" || parse(f.calories).NaN? then f
    else f.(showReasonModal := true)
  }

  /** Empty and non-numeric input is refused; zero and negative numbers are
      not. */
  lemma SubmitExamples(f: Form, parse: string -> Num)
    requires parse("abc") == NaN && parse("0") == Real(0.0) && parse("-50") == Real(-50.0)
    ensures !SubmitCalories(f.(calories := ""), parse).showReasonModal <==> !f.showReasonModal
    ensures SubmitCalories(f.(calories := "abc"), parse) == f.(calories := "abc")
    ensures SubmitCalories(f.(calories := "0"), parse).showReasonModal
    ensures SubmitCalories(f.(calories := "-50"), parse).showReasonModal
  {
  }

  /** `eatingReasons.find(r => r.id === id)?.label`. */
  function FindLabel(catalog: seq<Reason>, id: string): Option<string>
    decreases |catalog|
  {
    if catalog == [] then None
    else if catalog[0].id == id then Some(catalog[0].text)
    else FindLabel(catalog[1..], id)
  }

  /** The lookup finds a label exactly when some entry has the id, and then
      it is the label of the first such entry. */
  lemma {:induction false} FindLabelFirst(catalog: seq<Reason>, id: string)
    ensures FindLabel(catalog, id).None? <==> forall k :: 0 <= k < |catalog| ==> catalog[k].id != id
    ensures FindLabel(catalog, id).Some? ==>
      exists k :: 0 <= k < |catalog| && catalog[k].id == id && catalog[k].text == FindLabel(catalog, id).value
        && forall j :: 0 <= j < k ==> catalog[j].id != id
    decreases |catalog|
  {
    if catalog != [] && catalog[0].id != id {
      FindLabelFirst(catalog[1..], id);
      var tail := catalog[1..];
      if FindLabel(tail, id).Some? {
        var k :| 0 <= k < |tail| && tail[k].id == id && tail[k].text == FindLabel(tail, id).value
          && forall j :: 0 <= j < k ==> tail[j].id != id;
        assert catalog[k + 1] == tail[k];
        assert forall j :: 0 <= j < k + 1 ==> catalog[j].id != id by {
          forall j | 0 <= j < k + 1 ensures catalog[j].id != id {
            if j > 0 { assert catalog[j] == tail[j - 1]; }
          }
        }
      } else {
        assert forall k :: 0 <= k < |catalog| ==> catalog[k].id != id by {
          forall k | 0 <= k < |catalog| ensures catalog[k].id != id {
            if k > 0 { assert catalog[k] == tail[k - 1]; }
          }
        }
      }
    } else if catalog != [] {
      assert catalog[0].id == id;
    }
  }

  /** The text logged for a reason id: the catalog label, or the id itself
      when the lookup finds nothing (or an empty, falsy label). */
  function LabelFor(id: string): string {
    match FindLabel(EatingReasons, id)
    case Some(text) => if text != "" then text else id
    case None => id
  }

  /** Every catalog id is logged with its own label. */
  lemma LabelForCatalog(k: nat)
    requires k < |EatingReasons|
    ensures LabelFor(EatingReasons[k].id) == EatingReasons[k].text
  {
    FindLabelFirst(EatingReasons, EatingReasons[k].id);
  }

  /** An id outside the catalog is logged as the id itself. */
  lemma LabelForUnknown(id: string)
    requires forall k :: 0 <= k < |EatingReasons| ==> EatingReasons[k].id != id
    ensures LabelFor(id) == id
  {
    FindLabelFirst(EatingReasons, id);
  }

  /** `Math.floor(random * mentalRedirects.length)`. */
  function RedirectIndex(random: real): int {
    (random * RedirectCount as real).Floor
  }

  /** A random value in [0, 1) picks one of the ten suggestions. */
  lemma RedirectIndexInRange(random: real)
    requires 0.0 <= random < 1.0
    ensures 0 <= RedirectIndex(random) < RedirectCount
  {
  }

  /** What choosing a reason leads to. */
  datatype ReasonOutcome =
    | MindfulPause(redirect: nat)
    | LogFood(calories: real, text: string)

  /** `handleReasonSelect`'s decision, for the calories already read from the
      form and the random value the pause would draw. */
  function ReasonOutcomeOf(reason: string, calories: real, random: real): ReasonOutcome
    requires 0.0 <= random < 1.0
  {
    if reason in NonHungerReasons then MindfulPause(RedirectIndex(random) as nat)
    else LogFood(calories, LabelFor(reason))
  }

  /** Non-hunger reasons pause with a valid suggestion; every other reason
      logs the given calories under that reason's label. */
  lemma ReasonRouting(reason: string, calories: real, random: real)
    requires 0.0 <= random < 1.0
    ensures var o := ReasonOutcomeOf(reason, calories, random);
      && (o.MindfulPause? <==> reason == "bored" || reason == "stressed" || reason == "habit")
      && (o.MindfulPause? ==> o.redirect < RedirectCount)
      && (o.LogFood? ==> o.calories == calories && o.text == LabelFor(reason))
  {
    RedirectIndexInRange(random);
  }

  /** On the catalog: "hungry" and "enjoying" log their labels; the other
      three pause. */
  lemma CatalogRouting(calories: real, random: real)
    requires 0.0 <= random < 1.0
    ensures ReasonOutcomeOf("hungry", calories, random) == LogFood(calories, "I'm hungry and need energy")
    ensures ReasonOutcomeOf("enjoying", calories, random) == LogFood(calories, "I'm within my range and enjoying something")
    ensures ReasonOutcomeOf("bored", calories, random).MindfulPause?
    ensures ReasonOutcomeOf("stressed", calories, random).MindfulPause?
    ensures ReasonOutcomeOf("habit", calories, random).MindfulPause?
  {
    LabelForCatalog(0);
    LabelForCatalog(1);
  }

  /** `handleReasonSelect` against the store. It is reached only from the
      reason step, which opens only for an accepted calorie text. A pause
      leaves the store untouched; a log adds exactly one entry. */
  method HandleReasonSelect(store: CalorieStore, f: Form, reason: string, parse: string -> Num,
                            random: real, now: Millis)
    returns (outcome: ReasonOutcome, form: Form)
    requires CaloriesAccepted(f.calories, parse)
    requires 0.0 <= random < 1.0
    modifies store
    ensures outcome == ReasonOutcomeOf(reason, parse(f.calories).value, random)
    ensures form == f.(selectedReason := reason)
    ensures outcome.MindfulPause? ==> store.state == old(store.state)
    ensures outcome.LogFood? ==>
      store.state == Reduce(old(store.state),
        AddFood(FoodEntry(NumberToString(now), parse(f.calories).value, now, LabelFor(reason))), now)
  {
    form := f.(selectedReason := reason);
    outcome := ReasonOutcomeOf(reason, parse(f.calories).value, random);
    if outcome.LogFood? {
      store.AddFoodEntry(outcome.calories, outcome.text, now);
    }
  }

  /** Acknowledging the pause clears the form and closes the reason step. */
  function AcknowledgePause(f: Form): Form {
    Form("", false, "")
  }

  /** Cancelling the reason step clears the calorie text and closes it. */
  function CancelReasonStep(f: Form): Form {
    f.(calories := "", showReasonModal := false)
  }

  /** After a cancel or an acknowledged pause the reason step is closed and
      cannot reopen until new calories are typed: submitting again is refused. */
  lemma ClosedStepNeedsNewInput(f: Form, parse: string -> Num)
    ensures !SubmitCalories(CancelReasonStep(f), parse).showReasonModal
    ensures CancelReasonStep(f).selectedReason == f.selectedReason
    ensures !SubmitCalories(AcknowledgePause(f), parse).showReasonModal
    ensures AcknowledgePause(f).selectedReason == ""
  {
  }
}
