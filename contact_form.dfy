/** The contact-form controller: its five pieces of component state, the handlers that update
    them (`handleChange`, `handleSubmit` with its try/catch/finally, the `setTimeout` reset),
    and what holds of every state the rendered form can reach.

    The EmailJS call is not modelled; it is an `Outcome` handed to the model: the promise
    resolved with some HTTP status, or it threw. The five-second timer is an explicit event;
    `pendingResets` counts the reset callbacks that have been scheduled and have not yet run.
    As in the component, a reset does not check which submission scheduled it. */
module ContactForm {
  import opened Wrappers
  import opened Text
  import opened EmailRegex
  import opened Validation

  /** `submitStatus`: 'idle' | 'success' | 'error'. */
  datatype Status = Idle | Success | Error

  /** How `emailjs.send` settled: it resolved with `response.status`, or it threw. */
  datatype Outcome = Responded(status: int) | Threw

  const FixErrorsMessage := "Please fix the errors above"
  const SuccessMessage := "Message sent successfully! I'll get back to you soon. \U{2728}"
  const FailureMessage := "Oops! Something went wrong. Please try again or email me directly."

  /** The component's state, plus the number of reset timers still to fire. */
  datatype State = State(
    formData: Fields,
    errors: Fields,
    isSubmitting: bool,
    submitStatus: Status,
    statusMessage: string,
    pendingResets: nat)

  /** The state on first render: empty fields, no errors, idle, no timer. */
  const Initial := State(Blank, Blank, false, Idle, "", 0)

  /** `handleChange` for the input named `f` now holding `v`: only that field's value changes,
      only that field's error is cleared, and the submission status is untouched. */
  function Change(s: State, f: Field, v: string): (r: State)
    ensures r.formData.Get(f) == v
    ensures forall g :: g != f ==> r.formData.Get(g) == s.formData.Get(g)
    ensures r.errors.Get(f) == ""
    ensures forall g :: g != f ==> r.errors.Get(g) == s.errors.Get(g)
    ensures r.isSubmitting == s.isSubmitting && r.submitStatus == s.submitStatus
    ensures r.statusMessage == s.statusMessage && r.pendingResets == s.pendingResets
  {
    var errors := if s.errors.Get(f) != "" then s.errors.Set(f, "") else s.errors;
    s.(formData := s.formData.Set(f, v), errors := errors)
  }

  /** What `handleSubmit` passes to `emailjs.send`: the current fields when they validate,
      and nothing at all otherwise. */
  function Request(s: State): (r: Option<Fields>)
    ensures r.Some? <==> ValidateForm(s.formData).isValid
    ensures r.Some? ==> r.value == s.formData && ValidateForm(r.value).errors == Blank
  {
    if ValidateForm(s.formData).isValid then Some(s.formData) else None
  }

  /** `handleSubmit` up to the `await`: validation replaces `errors` wholesale; an invalid form
      shows the "fix the errors" banner and stops; a valid one enters the submitting state. */
  function Begin(s: State): (r: State)
    ensures r.errors == ValidateForm(s.formData).errors
    ensures r.formData == s.formData && r.pendingResets == s.pendingResets
    ensures Request(s).None? ==>
      r.submitStatus == Error && r.statusMessage == FixErrorsMessage && r.isSubmitting == s.isSubmitting
    ensures Request(s).Some? ==>
      r.isSubmitting && r.submitStatus == Idle && r.statusMessage == "" && r.errors == Blank
  {
    var verdict := ValidateForm(s.formData);
    if !verdict.isValid then
      s.(errors := verdict.errors, submitStatus := Error, statusMessage := FixErrorsMessage)
    else
      s.(errors := verdict.errors, isSubmitting := true, submitStatus := Idle, statusMessage := "")
  }

  /** `handleSubmit` after the `await`: status 200 shows the success banner and clears the form;
      a throw shows the failure banner; any other status changes neither; and in every case the
      `finally` ends the submission and schedules one reset. */
  function Settle(s: State, outcome: Outcome): (r: State)
    ensures !r.isSubmitting && r.pendingResets == s.pendingResets + 1 && r.errors == s.errors
    ensures outcome == Responded(200) ==>
      r.submitStatus == Success && r.statusMessage == SuccessMessage && r.formData == Blank
    ensures outcome != Responded(200) ==> r.formData == s.formData
    ensures outcome == Threw ==> r.submitStatus == Error && r.statusMessage == FailureMessage
    ensures outcome.Responded? && outcome.status != 200 ==>
      r.submitStatus == s.submitStatus && r.statusMessage == s.statusMessage
  {
    var tried :=
      match outcome
      case Responded(code) =>
        if code == 200 then s.(submitStatus := Success, statusMessage := SuccessMessage, formData := Blank)
        else s
      case Threw => s.(submitStatus := Error, statusMessage := FailureMessage);
    tried.(isSubmitting := false, pendingResets := s.pendingResets + 1)
  }

  /** One whole run of `handleSubmit` with nothing else happening while the send is in flight. */
  function Submit(s: State, outcome: Outcome): (r: State)
    ensures r.errors == ValidateForm(s.formData).errors
    ensures !ValidateForm(s.formData).isValid ==>
      r.submitStatus == Error && r.statusMessage == FixErrorsMessage && r.formData == s.formData
      && r.isSubmitting == s.isSubmitting && r.pendingResets == s.pendingResets
    ensures ValidateForm(s.formData).isValid ==>
      !r.isSubmitting && r.pendingResets == s.pendingResets + 1 && r.errors == Blank
    ensures ValidateForm(s.formData).isValid && outcome == Responded(200) ==>
      r.submitStatus == Success && r.statusMessage == SuccessMessage && r.formData == Blank
    ensures ValidateForm(s.formData).isValid && outcome == Threw ==>
      r.submitStatus == Error && r.statusMessage == FailureMessage && r.formData == s.formData
    ensures ValidateForm(s.formData).isValid && outcome.Responded? && outcome.status != 200 ==>
      r.submitStatus == Idle && r.statusMessage == "" && r.formData == s.formData
  {
    if Request(s).Some? then Settle(Begin(s), outcome) else Begin(s)
  }

  /** The `setTimeout` callback: back to idle with no banner; nothing else changes. */
  function Reset(s: State): (r: State)
    requires s.pendingResets > 0
    ensures r.submitStatus == Idle && r.statusMessage == ""
    ensures r.formData == s.formData && r.errors == s.errors && r.isSubmitting == s.isSubmitting
    ensures r.pendingResets == s.pendingResets - 1
  {
    s.(submitStatus := Idle, statusMessage := "", pendingResets := s.pendingResets - 1)
  }

  /** Something the rendered form reacts to. */
  datatype Event =
    | Edit(field: Field, value: string)   // typing into an input
    | Click                               // pressing "Send Message"
    | SendSettles(outcome: Outcome)       // the awaited `emailjs.send` settles
    | TimerFires                          // a scheduled reset runs

  /** The form's reaction to one event. The inputs and the button are `disabled` while
      submitting, so edits and clicks are then ignored; a send settles only while one is in
      flight; a timer fires only when one is scheduled. */
  function Step(s: State, e: Event): (r: State)
    ensures s.isSubmitting && (e.Edit? || e.Click?) ==> r == s
    ensures !s.isSubmitting && e.SendSettles? ==> r == s
    ensures s.pendingResets == 0 && e.TimerFires? ==> r == s
    ensures !s.isSubmitting && e.Click? ==> r.errors == ValidateForm(s.formData).errors
    ensures r.isSubmitting ==> ValidateForm(r.formData).isValid || s.isSubmitting
  {
    match e
    case Edit(f, v) => if s.isSubmitting then s else Change(s, f, v)
    case Click => if s.isSubmitting then s else Begin(s)
    case SendSettles(o) => if s.isSubmitting then Settle(s, o) else s
    case TimerFires => if s.pendingResets > 0 then Reset(s) else s
  }

  /** The state after a sequence of events. */
  function Run(s: State, events: seq<Event>): State
    decreases |events|
  {
    if events == [] then s else Run(Step(s, events[0]), events[1..])
  }

  /** What holds of every reachable state: the banner text agrees with the status; while a send
      is in flight the status is idle, no error is shown and the fields being sent are valid;
      and an error shown under a field is the message its rule gives for the field's current value. */
  predicate Coherent(s: State) {
    (s.submitStatus == Idle <==> s.statusMessage == "")
    && (s.submitStatus == Success ==> s.statusMessage == SuccessMessage)
    && (s.submitStatus == Error ==> s.statusMessage == FixErrorsMessage || s.statusMessage == FailureMessage)
    && (s.isSubmitting ==> s.submitStatus == Idle && s.errors == Blank && ValidateForm(s.formData).isValid)
    && forall f :: s.errors.Get(f) == "" || s.errors.Get(f) == FieldError(f, s.formData.Get(f))
  }

  lemma InitialCoherent()
    ensures Coherent(Initial)
  {
  }

  /** An edit clears only the edited field's error, so every error still shown describes its
      field's current value. */
  lemma ChangeKeepsCoherent(s: State, f: Field, v: string)
    requires Coherent(s) && !s.isSubmitting
    ensures Coherent(Change(s, f, v))
  {
    var r := Change(s, f, v);
    forall g
      ensures r.errors.Get(g) == "" || r.errors.Get(g) == FieldError(g, r.formData.Get(g))
    {
      if g != f {
        assert r.errors.Get(g) == s.errors.Get(g) && r.formData.Get(g) == s.formData.Get(g);
      }
    }
  }

  /** A click either shows the "fix the errors" banner with the fresh errors, or starts a send
      of valid fields with no error shown. */
  lemma BeginKeepsCoherent(s: State)
    requires Coherent(s) && !s.isSubmitting
    ensures Coherent(Begin(s))
  {
    ValidateFormErrors(s.formData);
  }

  /** Settling a send leaves a banner that agrees with the status; a cleared form has no errors. */
  lemma SettleKeepsCoherent(s: State, o: Outcome)
    requires Coherent(s) && s.isSubmitting
    ensures Coherent(Settle(s, o))
  {
    var r := Settle(s, o);
    assert r.errors == Blank;
  }

  /** Every event keeps the form coherent. */
  lemma StepKeepsCoherent(s: State, e: Event)
    requires Coherent(s)
    ensures Coherent(Step(s, e))
  {
    match e
    case Edit(f, v) =>
      if !s.isSubmitting {
        ChangeKeepsCoherent(s, f, v);
      }
    case Click =>
      if !s.isSubmitting {
        BeginKeepsCoherent(s);
      }
    case SendSettles(o) =>
      if s.isSubmitting {
        SettleKeepsCoherent(s, o);
      }
    case TimerFires =>
  }

  /** Every state reachable from a coherent one is coherent. */
  lemma {:induction false} RunKeepsCoherent(s: State, events: seq<Event>)
    requires Coherent(s)
    ensures Coherent(Run(s, events))
    decreases |events|
  {
    if events != [] {
      StepKeepsCoherent(s, events[0]);
      RunKeepsCoherent(Step(s, events[0]), events[1..]);
    }
  }

  /** Every state the form can reach from its first render is coherent. */
  lemma ReachableCoherent(events: seq<Event>)
    ensures Coherent(Run(Initial, events))
  {
    InitialCoherent();
    RunKeepsCoherent(Initial, events);
  }

  /** Running `e` and then `rest` is stepping with `e` and then running `rest`. */
  lemma RunCons(s: State, e: Event, rest: seq<Event>)
    ensures Run(s, [e] + rest) == Run(Step(s, e), rest)
  {
    assert ([e] + rest)[1..] == rest;
  }

  /** A click on an invalid form schedules no reset, and neither editing nor a timer firing
      removes the "fix the errors" banner once no reset is pending: it stays until the next click. */
  lemma {:induction false} FixErrorsBannerStays(s: State, events: seq<Event>)
    requires s.submitStatus == Error && s.statusMessage == FixErrorsMessage
    requires !s.isSubmitting && s.pendingResets == 0
    requires forall i :: 0 <= i < |events| ==> events[i].Edit? || events[i].TimerFires?
    ensures Run(s, events).submitStatus == Error && Run(s, events).statusMessage == FixErrorsMessage
    decreases |events|
  {
    if events != [] {
      var t := Step(s, events[0]);
      assert t.submitStatus == Error && t.statusMessage == FixErrorsMessage;
      assert !t.isSubmitting && t.pendingResets == 0;
      FixErrorsBannerStays(t, events[1..]);
    }
  }

  /** An error shown under field `f` stays until `f` is edited or the form is clicked again:
      only the next full validation can bring back an error that an edit cleared. */
  lemma {:induction false} ErrorStays(s: State, f: Field, events: seq<Event>)
    requires forall i :: 0 <= i < |events| ==> !events[i].Click? && !(events[i].Edit? && events[i].field == f)
    ensures Run(s, events).errors.Get(f) == s.errors.Get(f)
    decreases |events|
  {
    if events != [] {
      var t := Step(s, events[0]);
      assert t.errors.Get(f) == s.errors.Get(f);
      ErrorStays(t, f, events[1..]);
    }
  }

  /** Running `a` and then `b` is running `a + b`. */
  lemma {:induction false} RunAppend(s: State, a: seq<Event>, b: seq<Event>)
    ensures Run(s, a + b) == Run(Run(s, a), b)
    decreases |a|
  {
    if a != [] {
      assert (a + b)[0] == a[0] && (a + b)[1..] == a[1..] + b;
      assert Run(s, a + b) == Run(Step(s, a[0]), a[1..] + b);
      RunAppend(Step(s, a[0]), a[1..], b);
    } else {
      assert a + b == b;
    }
  }

  /** A send that throws keeps the fields; clicking again resends them, and a 200 then clears
      the form, with two resets now pending. */
  lemma FailThenResend(data: Fields)
    requires ValidateForm(data).isValid
    ensures Run(Initial.(formData := data), [Click, SendSettles(Threw), Click, SendSettles(Responded(200))])
            == State(Blank, Blank, false, Success, SuccessMessage, 2)
  {
    var s0 := Initial.(formData := data);
    var s1 := State(data, Blank, true, Idle, "", 0);
    var s2 := State(data, Blank, false, Error, FailureMessage, 1);
    var s3 := State(data, Blank, true, Idle, "", 1);
    var s4 := State(Blank, Blank, false, Success, SuccessMessage, 2);
    assert Step(s0, Click) == s1 by { assert Request(s0).Some?; }
    assert Step(s1, SendSettles(Threw)) == s2;
    assert Step(s2, Click) == s3 by { assert Request(s2).Some?; }
    assert Step(s3, SendSettles(Responded(200))) == s4;
    RunCons(s3, SendSettles(Responded(200)), []);
    RunCons(s2, Click, [SendSettles(Responded(200))]);
    RunCons(s1, SendSettles(Threw), [Click, SendSettles(Responded(200))]);
    RunCons(s0, Click, [SendSettles(Threw), Click, SendSettles(Responded(200))]);
  }

  /** The reset scheduled by an earlier, failed submission clears the banner of a later,
      successful one: after a failed send and a successful resend, one timer firing brings the
      form back to idle while the later submission's own reset is still pending. */
  lemma StaleResetClearsNewerBanner(data: Fields)
    requires ValidateForm(data).isValid
    ensures Run(Initial.(formData := data),
                [Click, SendSettles(Threw), Click, SendSettles(Responded(200)), TimerFires])
            == State(Blank, Blank, false, Idle, "", 1)
  {
    var s0 := Initial.(formData := data);
    var sent := [Click, SendSettles(Threw), Click, SendSettles(Responded(200))];
    FailThenResend(data);
    RunAppend(s0, sent, [TimerFires]);
    assert sent + [TimerFires] == [Click, SendSettles(Threw), Click, SendSettles(Responded(200)), TimerFires];
    TimerAfterResend();
  }

  lemma TimerAfterResend()
    ensures Run(State(Blank, Blank, false, Success, SuccessMessage, 2), [TimerFires])
            == State(Blank, Blank, false, Idle, "", 1)
  {
    RunCons(State(Blank, Blank, false, Success, SuccessMessage, 2), TimerFires, []);
  }

  /** The component, with the state it keeps through `useState`. */
  class Controller {
    var formData: Fields
    var errors: Fields
    var isSubmitting: bool
    var submitStatus: Status
    var statusMessage: string
    var pendingResets: nat

    /** The current state as a value. */
    function Snapshot(): State
      reads this
    {
      State(formData, errors, isSubmitting, submitStatus, statusMessage, pendingResets)
    }

    constructor ()
      ensures Snapshot() == Initial
    {
      formData := Blank;
      errors := Blank;
      isSubmitting := false;
      submitStatus := Idle;
      statusMessage := "";
      pendingResets := 0;
    }

    /** `handleChange`. */
    method HandleChange(f: Field, value: string)
      modifies this
      ensures Snapshot() == Change(old(Snapshot()), f, value)
    {
      formData := formData.Set(f, value);
      if errors.Get(f) != "" {
        errors := errors.Set(f, "");
      }
    }

    /** `handleSubmit` up to the `await`; returns what is handed to `emailjs.send`, if anything. */
    method BeginSubmit() returns (request: Option<Fields>)
      modifies this
      ensures request == Request(old(Snapshot()))
      ensures Snapshot() == Begin(old(Snapshot()))
    {
      var verdict := ValidateForm(formData);
      errors := verdict.errors;
      if !verdict.isValid {
        submitStatus := Error;
        statusMessage := FixErrorsMessage;
        return None;
      }
      isSubmitting := true;
      submitStatus := Idle;
      statusMessage := "";
      request := Some(formData);
    }

    /** `handleSubmit` from the moment the send settles: the `try` body's status check, the
        `catch`, and the `finally`. */
    method FinishSubmit(outcome: Outcome)
      modifies this
      ensures Snapshot() == Settle(old(Snapshot()), outcome)
    {
      match outcome {
        case Responded(code) =>
          if code == 200 {
            submitStatus := Success;
            statusMessage := SuccessMessage;
            formData := Blank;
          }
        case Threw =>
          submitStatus := Error;
          statusMessage := FailureMessage;
      }
      isSubmitting := false;
      pendingResets := pendingResets + 1;
    }

    /** `handleSubmit` as a whole, with the send settling as `outcome`. */
    method HandleSubmit(outcome: Outcome) returns (request: Option<Fields>)
      modifies this
      ensures request == Request(old(Snapshot()))
      ensures Snapshot() == Submit(old(Snapshot()), outcome)
    {
      request := BeginSubmit();
      if request.Some? {
        FinishSubmit(outcome);
      }
    }

    /** The reset callback given to `setTimeout`, run once a scheduled timer expires. */
    method HandleTimeout()
      requires pendingResets > 0
      modifies this
      ensures Snapshot() == Reset(old(Snapshot()))
    {
      submitStatus := Idle;
      statusMessage := "";
      pendingResets := pendingResets - 1;
    }
  }
}
