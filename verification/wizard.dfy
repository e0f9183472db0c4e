/** The quote wizard's state machine: four steps (project type, features,
    budget and timing, contact and review), the Previous / Next buttons and the
    guards on them, the feature toggle, and the field edits the step forms make.

    `nextStep` itself only checks the upper bound; the project-type guard is in
    the Next button's `disabled` expression. A user can only reach `nextStep`
    through that button, so the model's `ClickNext` combines both. */
module Wizard {
  import opened QuoteData
  import opened Pricing

  const TotalSteps: int := 4

  datatype WizardState = WizardState(step: int, form: FormData)

  const Initial: WizardState := WizardState(1, InitialForm)

  /** `nextStep`: move forward unless already on the last step. */
  function NextStep(s: WizardState): (r: WizardState)
    ensures r.form == s.form
    ensures r == s <==> s.step >= TotalSteps
    ensures r != s ==> r.step == s.step + 1
  {
    if s.step < TotalSteps then s.(step := s.step + 1) else s
  }

  /** `prevStep`: move back unless already on the first step. */
  function PrevStep(s: WizardState): (r: WizardState)
    ensures r.form == s.form
    ensures r == s <==> s.step <= 1
    ensures r != s ==> r.step + 1 == s.step
  {
    if s.step > 1 then s.(step := s.step - 1) else s
  }

  /** The Previous button's `disabled` expression. */
  predicate PrevDisabled(s: WizardState) {
    s.step == 1
  }

  /** The Next button's `disabled` expression, as written, with its clause for step 4. */
  predicate NextDisabled(s: WizardState) {
    (s.step == 1 && s.form.projectType == "")
    || (s.step == 4 && (s.form.contact.name == "" || s.form.contact.email == ""))
  }

  /** The export buttons' (PDF and Send) `disabled` expression. */
  predicate ExportDisabled(s: WizardState) {
    s.form.contact.name == "" || s.form.contact.email == ""
  }

  /** What the navigation bar shows on the forward side: the Next button while
      `currentStep < totalSteps`, the PDF and Send buttons otherwise. */
  datatype ForwardControl = NextButton(enabled: bool) | ExportButtons(enabled: bool)

  /** The forward control and whether it is enabled. The Next button's clause for
      step 4 never takes effect, since the Next button is not shown on step 4; the
      contact guard lives on the export buttons. */
  function ForwardControlOf(s: WizardState): (c: ForwardControl)
    ensures c.NextButton? <==> s.step < TotalSteps
    ensures c.NextButton? ==> (c.enabled <==> !(s.step == 1 && s.form.projectType == ""))
    ensures c.ExportButtons? ==> (c.enabled <==> s.form.contact.name != "" && s.form.contact.email != "")
  {
    if s.step < TotalSteps then NextButton(!NextDisabled(s)) else ExportButtons(!ExportDisabled(s))
  }

  /** A click on Next: it reaches `nextStep` only when the button is shown and enabled. */
  function ClickNext(s: WizardState): (r: WizardState)
    ensures r.form == s.form
    ensures r.step == s.step || r.step == s.step + 1
    ensures r.step == s.step + 1 <==> s.step < TotalSteps && !(s.step == 1 && s.form.projectType == "")
  {
    if ForwardControlOf(s) == NextButton(true) then NextStep(s) else s
  }

  /** A click on Previous: it reaches `prevStep` only when the button is enabled. */
  function ClickPrev(s: WizardState): (r: WizardState)
    ensures r.form == s.form
    ensures r.step == s.step || r.step == s.step - 1
    ensures r.step == s.step - 1 <==> s.step > 1
  {
    if PrevDisabled(s) then s else PrevStep(s)
  }

  /** Whether a list of ids repeats none. */
  predicate NoDup(ids: seq<string>) {
    forall i, j :: 0 <= i < j < |ids| ==> ids[i] != ids[j]
  }

  /** `ids.filter(x => x !== id)`. */
  function Without(ids: seq<string>, id: string): (r: seq<string>)
    ensures id !in r
    ensures forall x :: x != id ==> (x in r <==> x in ids)
    ensures |r| <= |ids|
  {
    if ids == [] then []
    else if ids[0] == id then Without(ids[1..], id)
    else [ids[0]] + Without(ids[1..], id)
  }

  /** The features update of `handleFeatureToggle`: an absent id is appended, a
      present one is removed together with every repetition of it. */
  function Toggle(ids: seq<string>, id: string): (r: seq<string>)
    ensures id in r <==> id !in ids
    ensures forall x :: x != id ==> (x in r <==> x in ids)
    ensures id !in ids ==> r == ids + [id]
    ensures id in ids ==> |r| < |ids|
  {
    if id in ids then WithoutShrinks(ids, id); Without(ids, id) else ids + [id]
  }

  lemma {:induction false} WithoutShrinks(ids: seq<string>, id: string)
    requires id in ids
    ensures |Without(ids, id)| < |ids|
  {
    if ids[0] != id {
      WithoutShrinks(ids[1..], id);
    }
  }

  /** `handleFeatureToggle`: only the feature list changes. */
  function HandleFeatureToggle(s: WizardState, id: string): (r: WizardState)
    ensures r.step == s.step
    ensures r.form.(features := s.form.features) == s.form
    ensures id in r.form.features <==> id !in s.form.features
  {
    s.(form := s.form.(features := Toggle(s.form.features, id)))
  }

  /** Removing an id never introduces a repetition. */
  lemma {:induction false} WithoutKeepsNoDup(ids: seq<string>, id: string)
    requires NoDup(ids)
    ensures NoDup(Without(ids, id))
  {
    if ids != [] {
      assert NoDup(ids[1..]) by {
        forall i, j | 0 <= i < j < |ids[1..]| ensures ids[1..][i] != ids[1..][j] {
          assert ids[1..][i] == ids[i + 1] && ids[1..][j] == ids[j + 1];
        }
      }
      WithoutKeepsNoDup(ids[1..], id);
      if ids[0] != id {
        assert ids[0] !in ids[1..] by {
          forall k | 0 <= k < |ids[1..]| ensures ids[1..][k] != ids[0] {
            assert ids[1..][k] == ids[k + 1];
          }
        }
        var w := Without(ids[1..], id);
        assert ids[0] !in w;
        forall i, j | 0 <= i < j < |[ids[0]] + w| ensures ([ids[0]] + w)[i] != ([ids[0]] + w)[j] {
          if i == 0 {
            assert ([ids[0]] + w)[j] == w[j - 1];
          } else {
            assert ([ids[0]] + w)[i] == w[i - 1] && ([ids[0]] + w)[j] == w[j - 1];
          }
        }
      }
    }
  }

  /** Toggling never creates a repeated feature id. */
  lemma ToggleKeepsNoDup(ids: seq<string>, id: string)
    requires NoDup(ids)
    ensures NoDup(Toggle(ids, id))
  {
    if id in ids {
      WithoutKeepsNoDup(ids, id);
    } else {
      var r := ids + [id];
      forall i, j | 0 <= i < j < |r| ensures r[i] != r[j] {
        if j == |ids| {
          assert r[i] == ids[i];
        } else {
          assert r[i] == ids[i] && r[j] == ids[j];
        }
      }
    }
  }

  /** Filtering out an id that does not occur changes nothing. */
  lemma {:induction false} WithoutAbsent(ids: seq<string>, id: string)
    requires id !in ids
    ensures Without(ids, id) == ids
  {
    if ids != [] {
      WithoutAbsent(ids[1..], id);
    }
  }

  /** Filtering distributes over concatenation. */
  lemma {:induction false} WithoutAppend(a: seq<string>, b: seq<string>, id: string)
    ensures Without(a + b, id) == Without(a, id) + Without(b, id)
  {
    if a == [] {
      assert a + b == b;
    } else {
      var ab := a + b;
      assert ab[0] == a[0];
      assert ab[1..] == a[1..] + b;
      WithoutAppend(a[1..], b, id);
      var rest, tail := Without(a[1..], id), Without(b, id);
      if a[0] != id {
        assert Without(ab, id) == [a[0]] + (rest + tail);
        assert Without(a, id) == [a[0]] + rest;
        assert [a[0]] + (rest + tail) == ([a[0]] + rest) + tail;
      } else {
        assert Without(ab, id) == Without(a[1..] + b, id);
      }
    }
  }

  /** Toggling an absent id twice gives back exactly the same list. */
  lemma ToggleTwiceAbsent(ids: seq<string>, id: string)
    requires id !in ids
    ensures Toggle(Toggle(ids, id), id) == ids
  {
    WithoutAppend(ids, [id], id);
    WithoutAbsent(ids, id);
  }

  /** Toggling a present id twice gives back the same ids, with that one moved to the end. */
  lemma ToggleTwicePresent(ids: seq<string>, id: string)
    requires id in ids
    ensures Toggle(Toggle(ids, id), id) == Without(ids, id) + [id]
  {
  }

  /** In a list without repetitions, an id that occurs splits it into the part
      before and the part after, neither of which holds it. */
  lemma SplitAt(ids: seq<string>, id: string) returns (a: seq<string>, b: seq<string>)
    requires NoDup(ids) && id in ids
    ensures ids == a + [id] + b && id !in a && id !in b
  {
    var i :| 0 <= i < |ids| && ids[i] == id;
    a, b := ids[..i], ids[i + 1..];
    assert ids == a + [id] + b;
    forall k | 0 <= k < |a| ensures a[k] != id {
      assert a[k] == ids[k];
    }
    forall k | 0 <= k < |b| ensures b[k] != id {
      assert b[k] == ids[i + 1 + k];
    }
  }

  /** Toggling the same id twice keeps the features amount, for any list without
      repetitions. */
  lemma ToggleTwiceKeepsFeaturesPrice(ids: seq<string>, id: string)
    requires NoDup(ids)
    ensures FeaturesPrice(Toggle(Toggle(ids, id), id)) == FeaturesPrice(ids)
  {
    if id !in ids {
      ToggleTwiceAbsent(ids, id);
    } else {
      var a, b := SplitAt(ids, id);
      WithoutAppend(a + [id], b, id);
      WithoutAppend(a, [id], id);
      WithoutAbsent(a, id);
      WithoutAbsent(b, id);
      assert Toggle(Toggle(ids, id), id) == a + b + [id];
      FeaturesPriceAppend(a + b, [id]);
      FeaturesPriceAppend(a, b);
      FeaturesPriceAppend(a + [id], b);
      FeaturesPriceAppend(a, [id]);
    }
  }

  /** Toggling the same feature twice restores the price breakdown, for any
      list without repetitions (every list the wizard can build). */
  lemma ToggleTwiceRestoresPrice(s: WizardState, id: string)
    requires NoDup(s.form.features)
    ensures CalculatePriceWithTax(HandleFeatureToggle(HandleFeatureToggle(s, id), id).form)
         == CalculatePriceWithTax(s.form)
  {
    var twice := HandleFeatureToggle(HandleFeatureToggle(s, id), id).form;
    ToggleTwiceKeepsFeaturesPrice(s.form.features, id);
    assert twice == s.form.(features := Toggle(Toggle(s.form.features, id), id));
    assert Subtotal(twice) == Subtotal(s.form);
    assert CalculatePrice(twice) == CalculatePrice(s.form);
  }

  /** A user action on the wizard: a navigation click or an edit made by a step's form. */
  datatype Event =
    | ClickNextButton
    | ClickPrevButton
    | ToggleFeature(featureId: string)
    | ChooseProjectType(projectId: string)
    | ChooseUrgency(key: string)
    | EditBudget(budget: string)
    | EditTimeline(timeline: string)
    | EditName(name: string)
    | EditCompany(company: string)
    | EditEmail(email: string)
    | EditMessage(message: string)

  /** The values the step forms can produce: radio items and checkboxes offer only
      catalog ids and urgency keys; text inputs accept anything. */
  predicate WellFormedEvent(e: Event) {
    match e
    case ToggleFeature(id) => IsFeatureId(id)
    case ChooseProjectType(id) => IsProjectTypeId(id)
    case ChooseUrgency(key) => FindUrgency(key).Some?
    case _ => true
  }

  /** The state after one event. */
  function Apply(s: WizardState, e: Event): (r: WizardState)
    ensures e.ClickNextButton? || e.ClickPrevButton? ==> r.form == s.form
    ensures !(e.ClickNextButton? || e.ClickPrevButton?) ==> r.step == s.step
  {
    match e
    case ClickNextButton => ClickNext(s)
    case ClickPrevButton => ClickPrev(s)
    case ToggleFeature(id) => HandleFeatureToggle(s, id)
    case ChooseProjectType(id) => s.(form := s.form.(projectType := id))
    case ChooseUrgency(key) => s.(form := s.form.(urgency := key))
    case EditBudget(v) => s.(form := s.form.(budget := v))
    case EditTimeline(v) => s.(form := s.form.(timeline := v))
    case EditName(v) => s.(form := s.form.(contact := s.form.contact.(name := v)))
    case EditCompany(v) => s.(form := s.form.(contact := s.form.contact.(company := v)))
    case EditEmail(v) => s.(form := s.form.(contact := s.form.contact.(email := v)))
    case EditMessage(v) => s.(form := s.form.(contact := s.form.contact.(message := v)))
  }

  /** The state after a sequence of events, in order. */
  function Run(s: WizardState, es: seq<Event>): WizardState
    decreases |es|
  {
    if es == [] then s else Run(Apply(s, es[0]), es[1..])
  }

  /** What holds of every state the wizard can reach. */
  predicate Invariant(s: WizardState) {
    && 1 <= s.step <= TotalSteps
    && NoDup(s.form.features)
    && (forall k :: 0 <= k < |s.form.features| ==> IsFeatureId(s.form.features[k]))
    && (s.form.projectType == "" || IsProjectTypeId(s.form.projectType))
    && (s.step > 1 ==> IsProjectTypeId(s.form.projectType))
    && FindUrgency(s.form.urgency).Some?
  }

  lemma InitialInvariant()
    ensures Invariant(Initial)
  {
  }

  /** Every well-formed event keeps the invariant. */
  lemma ApplyKeepsInvariant(s: WizardState, e: Event)
    requires Invariant(s) && WellFormedEvent(e)
    ensures Invariant(Apply(s, e))
  {
    match e
    case ToggleFeature(id) =>
      var ids := s.form.features;
      var r := Toggle(ids, id);
      ToggleKeepsNoDup(ids, id);
      forall k | 0 <= k < |r| ensures IsFeatureId(r[k]) {
        assert r[k] in r;
        if r[k] != id {
          var j :| 0 <= j < |ids| && ids[j] == r[k];
        }
      }
    case _ =>
  }

  /** Any run of well-formed events keeps the invariant: the step stays within
      1..4, the features never repeat, and the steps after the first are only
      reached with a project type chosen. */
  lemma {:induction false} RunKeepsInvariant(s: WizardState, es: seq<Event>)
    requires Invariant(s)
    requires forall k :: 0 <= k < |es| ==> WellFormedEvent(es[k])
    ensures Invariant(Run(s, es))
    decreases |es|
  {
    if es != [] {
      ApplyKeepsInvariant(s, es[0]);
      RunKeepsInvariant(Apply(s, es[0]), es[1..]);
    }
  }

  /** Any run of events, well-formed or not, keeps `currentStep` within 1..4:
      only the two buttons move it, and each stops at its end. */
  lemma {:induction false} RunKeepsStepInRange(s: WizardState, es: seq<Event>)
    requires 1 <= s.step <= TotalSteps
    ensures 1 <= Run(s, es).step <= TotalSteps
    decreases |es|
  {
    if es != [] {
      RunKeepsStepInRange(Apply(s, es[0]), es[1..]);
    }
  }

  /** From the initial state, every run of events keeps `currentStep` in 1..4. */
  lemma StepStaysInRange(es: seq<Event>)
    ensures 1 <= Run(Initial, es).step <= TotalSteps
  {
    RunKeepsStepInRange(Initial, es);
  }

  /** Next on step 1 without a project type does nothing; with one it moves to step 2. */
  lemma NextOnFirstStep(s: WizardState)
    requires s.step == 1
    ensures s.form.projectType == "" ==> ClickNext(s) == s
    ensures s.form.projectType != "" ==> ClickNext(s) == s.(step := 2)
  {
  }

  /** Going back and then forward from any reachable step after the first returns
      to exactly the same state. */
  lemma PrevThenNextRestores(s: WizardState)
    requires Invariant(s) && s.step > 1
    ensures ClickNext(ClickPrev(s)) == s
  {
    EmptyIdIsNoProject();
  }

  /** Going forward and then back from any step before the last returns to the
      same state whenever the forward move happened. */
  lemma NextThenPrevRestores(s: WizardState)
    requires 1 <= s.step < TotalSteps && !(s.step == 1 && s.form.projectType == "")
    ensures ClickPrev(ClickNext(s)) == s
  {
  }
}
