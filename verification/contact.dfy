/** The contact section's form: four text fields edited by name, a submit button
    guarded on the required fields, and a submit that marks the form busy, then
    clears it.

    The submit's one-second pause is not modelled: a submit is a `BeginSubmit`
    followed, later, by an `EndSubmit`, with any edits arriving in between. */
module ContactForm {
  import opened Wrappers

  /** The form's `formData`. The named inputs only ever carry the four field
      names; an event with any other name adds a key of that name to the state
      object, kept here in `others`. */
  datatype ContactFormData = ContactFormData(
    name: string,
    email: string,
    subject: string,
    message: string,
    others: map<string, string>)

  datatype ContactState = ContactState(form: ContactFormData, submitting: bool)

  const EmptyForm: ContactFormData := ContactFormData("", "", "", "", map[])

  const InitialState: ContactState := ContactState(EmptyForm, false)

  /** The names the form's inputs carry. */
  predicate IsFieldName(field: string) {
    field == "name" || field == "email" || field == "subject" || field == "message"
  }

  /** The current value under a key of the state object; a key never set reads
      as absent. */
  function Value(f: ContactFormData, field: string): (r: Option<string>)
    ensures IsFieldName(field) ==> r.Some?
    ensures !IsFieldName(field) ==> (r.Some? <==> field in f.others)
  {
    if field == "name" then Some(f.name)
    else if field == "email" then Some(f.email)
    else if field == "subject" then Some(f.subject)
    else if field == "message" then Some(f.message)
    else if field in f.others then Some(f.others[field])
    else None
  }

  /** `handleChange`: `{ ...prev, [name]: value }`. The key named by the event now
      holds the value, and every other key keeps its value. */
  function HandleChange(s: ContactState, field: string, value: string): (r: ContactState)
    ensures r.submitting == s.submitting
    ensures Value(r.form, field) == Some(value)
    ensures forall other :: other != field ==> Value(r.form, other) == Value(s.form, other)
  {
    var f := s.form;
    var g :=
      if field == "name" then f.(name := value)
      else if field == "email" then f.(email := value)
      else if field == "subject" then f.(subject := value)
      else if field == "message" then f.(message := value)
      else f.(others := f.others[field := value]);
    s.(form := g)
  }

  /** The submit button's `disabled`: while a submit is in progress, or while the
      name, the email or the message is empty. The subject is optional. */
  predicate SubmitDisabled(s: ContactState) {
    s.submitting || s.form.name == "" || s.form.email == "" || s.form.message == ""
  }

  /** The first step of `handleSubmit`: the form becomes busy, its fields untouched. */
  function BeginSubmit(s: ContactState): (r: ContactState)
    ensures r.submitting && r.form == s.form
    ensures SubmitDisabled(r)
  {
    s.(submitting := true)
  }

  /** The last step of `handleSubmit`: every field is cleared and the form is idle
      again, whatever was typed meanwhile. */
  function EndSubmit(s: ContactState): (r: ContactState)
    ensures !r.submitting
    ensures forall field :: IsFieldName(field) ==> Value(r.form, field) == Some("")
    ensures forall field :: !IsFieldName(field) ==> Value(r.form, field).None?
  {
    InitialState
  }

  /** What can happen to the form: an input's change event, a press of the
      submit button (or Enter in a field), and the end of a started submit. */
  datatype ContactEvent = Change(field: string, value: string) | Submit | Complete

  /** One event. A disabled submit button starts nothing (the browser does not
      submit a form through a disabled submit button), and a completion only
      exists for a submit that was started. */
  function Step(s: ContactState, e: ContactEvent): (r: ContactState)
    ensures e.Change? ==> r.submitting == s.submitting && Value(r.form, e.field) == Some(e.value)
    ensures e.Submit? ==> (r == s <==> SubmitDisabled(s))
    ensures e.Submit? && !SubmitDisabled(s) ==> r.submitting && r.form == s.form
    ensures e.Complete? && s.submitting ==> r == InitialState
    ensures e.Complete? && !s.submitting ==> r == s
  {
    match e
    case Change(field, value) => HandleChange(s, field, value)
    case Submit => if SubmitDisabled(s) then s else BeginSubmit(s)
    case Complete => if s.submitting then EndSubmit(s) else s
  }

  /** The events in order, from the first. */
  function Run(s: ContactState, es: seq<ContactEvent>): (r: ContactState)
    ensures es == [] ==> r == s
    ensures |es| == 1 ==> r == Step(s, es[0])
    decreases |es|
  {
    if es == [] then s else Run(Step(s, es[0]), es[1..])
  }

  /** Running two batches of events is running the first, then the second. */
  lemma {:induction false} RunAppend(s: ContactState, a: seq<ContactEvent>, b: seq<ContactEvent>)
    ensures Run(s, a + b) == Run(Run(s, a), b)
    decreases |a|
  {
    if a == [] {
      assert a + b == b;
    } else {
      assert (a + b)[1..] == a[1..] + b;
      RunAppend(Step(s, a[0]), a[1..], b);
    }
  }

  /** The state after one more event. */
  lemma RunSnoc(s: ContactState, es: seq<ContactEvent>, e: ContactEvent)
    ensures Run(s, es + [e]) == Step(Run(s, es), e)
  {
    RunAppend(s, es, [e]);
  }

  /** The form starts idle with the submit button disabled. */
  lemma InitialSubmitDisabled()
    ensures !InitialState.submitting && SubmitDisabled(InitialState)
  {
  }

  /** Filling in the three required fields enables the button; the subject plays no part. */
  lemma RequiredFieldsEnableSubmit(s: ContactState, name: string, email: string, message: string)
    requires !s.submitting && name != "" && email != "" && message != ""
    ensures !SubmitDisabled(
      HandleChange(HandleChange(HandleChange(s, "name", name), "email", email), "message", message))
  {
    var s1 := HandleChange(s, "name", name);
    var s2 := HandleChange(s1, "email", email);
    var s3 := HandleChange(s2, "message", message);
    assert Value(s3.form, "name") == Value(s2.form, "name") == Value(s1.form, "name") == Some(name);
    assert Value(s3.form, "email") == Value(s2.form, "email") == Some(email);
  }

  /** Emptying one required field disables the button again. */
  lemma ClearingRequiredFieldDisablesSubmit(s: ContactState, field: string)
    requires field == "name" || field == "email" || field == "message"
    ensures SubmitDisabled(HandleChange(s, field, ""))
  {
  }

  /** Writing back a field's previous value restores the form exactly. */
  lemma ChangeBackRestores(s: ContactState, field: string, value: string)
    requires IsFieldName(field) || field in s.form.others
    ensures HandleChange(HandleChange(s, field, value), field, Value(s.form, field).value) == s
  {
  }

  /** Changes to different keys commute. */
  lemma ChangesCommute(s: ContactState, a: string, va: string, b: string, vb: string)
    requires a != b
    ensures HandleChange(HandleChange(s, a, va), b, vb) == HandleChange(HandleChange(s, b, vb), a, va)
  {
    var l := HandleChange(HandleChange(s, a, va), b, vb).form;
    var r := HandleChange(HandleChange(s, b, vb), a, va).form;
    if !IsFieldName(a) && !IsFieldName(b) {
      assert l.others == r.others;
    }
  }

  /** A submit started from an enabled button ends in the initial state, idle
      with every field empty, whatever was typed or pressed during the pause. */
  lemma SubmitCycleResets(s: ContactState, during: seq<ContactEvent>)
    requires !SubmitDisabled(s)
    requires forall k :: 0 <= k < |during| ==> !during[k].Complete?
    ensures Run(s, [Submit] + during + [Complete]) == InitialState
  {
    assert [Submit] + during + [Complete] == [Submit] + (during + [Complete]);
    RunAppend(s, [Submit], during + [Complete]);
    CompleteLastResets(BeginSubmit(s), during);
  }

  /** From a submit in progress, a run whose only completion is its last event
      ends in the initial state: presses of the disabled button do nothing and
      edits keep the form busy until the completion clears it. */
  lemma {:induction false} CompleteLastResets(s: ContactState, es: seq<ContactEvent>)
    requires s.submitting
    requires forall k :: 0 <= k < |es| ==> !es[k].Complete?
    ensures Run(s, es + [Complete]) == InitialState
    decreases |es|
  {
    if es == [] {
      assert es + [Complete] == [Complete];
    } else {
      assert (es + [Complete])[1..] == es[1..] + [Complete];
      assert !es[0].Complete?;
      CompleteLastResets(Step(s, es[0]), es[1..]);
    }
  }

  /** A form that starts idle is only ever busy because some press of the submit
      button found name, email and message filled in and no submit running. */
  lemma {:induction false} SubmittingHasCause(s: ContactState, es: seq<ContactEvent>)
    requires !s.submitting
    ensures Run(s, es).submitting ==>
      exists k :: 0 <= k < |es| && es[k].Submit? && !SubmitDisabled(Run(s, es[..k]))
    decreases |es|
  {
    if es != [] {
      var p := es[..|es| - 1];
      var e := es[|es| - 1];
      assert es == p + [e];
      RunSnoc(s, p, e);
      if Run(s, es).submitting {
        if Run(s, p).submitting {
          SubmittingHasCause(s, p);
          var k :| 0 <= k < |p| && p[k].Submit? && !SubmitDisabled(Run(s, p[..k]));
          assert es[..k] == p[..k] && es[k] == p[k];
        } else {
          assert e.Submit? && !SubmitDisabled(Run(s, p));
          assert es[..|es| - 1] == p;
        }
      }
    }
  }

  /** A disabled button never starts a submit: the fresh form stays idle. */
  lemma DisabledSubmitDoesNothing(s: ContactState)
    requires SubmitDisabled(s)
    ensures Run(s, [Submit]) == s
  {
  }

  /** A completion with no submit running changes nothing. */
  lemma IdleCompleteDoesNothing(s: ContactState)
    requires !s.submitting
    ensures Run(s, [Complete]) == s
  {
  }

  /** Edits made while a submit is in progress leave it in progress. */
  lemma {:induction false} EditsKeepSubmitting(s: ContactState, es: seq<ContactEvent>)
    requires s.submitting
    requires forall k :: 0 <= k < |es| ==> es[k].Change?
    ensures Run(s, es).submitting
    decreases |es|
  {
    if es != [] {
      EditsKeepSubmitting(Step(s, es[0]), es[1..]);
    }
  }
}
