/**
 * The commitment modal: an intent question (with the price shown), an email
 * and problem form posted to the leads route, and a confirmation that closes
 * itself. The parent's `open` flag is a field here; `onClose` clears it.
 * The two timers are explicit events: the 300 ms reset scheduled by every
 * close, and the 5000 ms auto-close scheduled on reaching the confirmation.
 */
module OptimizeModalFlow {
  import opened Opt
  import opened JsStrings
  import opened Http
  import opened Tracking
  import LeadsRoute
  import LeadStore

  datatype Step = Intent | Form | Confirmation

  /** The three fields whose first focus is logged. */
  datatype Field = EmailField | CheckboxField | TextareaField

  function FieldName(f: Field): string {
    match f
    case EmailField => "email"
    case CheckboxField => "checkbox"
    case TextareaField => "textarea"
  }

  function FocusEvent(f: Field): string {
    "field_focus_" + FieldName(f)
  }

  /** Distinct fields log distinct focus events, and no other event is a focus event. */
  lemma FocusEventInjective(f: Field, g: Field)
    ensures FocusEvent(f) == FocusEvent(g) <==> f == g
  {
    if f != g {
      assert FocusEvent(f)[12] != FocusEvent(g)[12];
    }
  }

  const PROFILE_OPTIMIZATION_PRICE := 29
  const MIN_PROBLEM_LENGTH := 10
  const SUBMIT_ERROR := "Something went wrong. Please try again."

  /**
   * `isFormValid`. The `email.trim() !== ''` test is implied by the shape
   * test, which admits no whitespace and no empty string: validity is the
   * shape, the ticked box and at least ten UTF-16 code units of trimmed
   * problem (`.length`).
   */
  function IsFormValid(email: string, willingToPay: bool, mainProblem: string): (ok: bool)
    ensures ok <==> LeadsRoute.IsValidEmail(email) && willingToPay && Length(Trim(mainProblem)) >= MIN_PROBLEM_LENGTH
  {
    ValidEmailNotBlank(email);
    Trim(email) != [] && LeadsRoute.IsValidEmail(email) && willingToPay && Length(Trim(mainProblem)) >= MIN_PROBLEM_LENGTH
  }

  /** An email of the valid shape is not blank after trimming. */
  lemma ValidEmailNotBlank(email: string)
    ensures LeadsRoute.IsValidEmail(email) ==> Trim(email) != []
  {
    if LeadsRoute.IsValidEmail(email) {
      LeadsRoute.ValidEmailHasNoSpace(email);
    }
  }

  /** The "at least 10 characters" hint: on the raw `.length`, not the trimmed one. */
  predicate ShowsLengthHint(mainProblem: string) {
    0 < Length(mainProblem) < MIN_PROBLEM_LENGTH
  }

  /** Whenever the hint shows, the problem is too short for a valid form. */
  lemma HintMeansInvalid(email: string, willingToPay: bool, mainProblem: string)
    requires ShowsLengthHint(mainProblem)
    ensures !IsFormValid(email, willingToPay, mainProblem)
  {
    TrimFewerUnits(mainProblem);
  }

  /**
   * The converse fails: ten or more blanks show no hint, yet the form stays
   * invalid, since validity trims and the hint does not.
   */
  lemma BlankProblemShowsNoHint(email: string, willingToPay: bool, mainProblem: string)
    requires |mainProblem| >= MIN_PROBLEM_LENGTH
    requires forall k :: 0 <= k < |mainProblem| ==> IsSpace(mainProblem[k])
    ensures !ShowsLengthHint(mainProblem)
    ensures !IsFormValid(email, willingToPay, mainProblem)
  {
    TrimAllSpace(mainProblem);
    LengthAtLeastSize(mainProblem);
  }

  /** Five characters outside the Basic Multilingual Plane, such as five emoji. */
  const FIVE_EMOJI: string := "\U{1F600}\U{1F600}\U{1F600}\U{1F600}\U{1F600}"

  /**
   * Lengths are code units: five emoji are ten of them, so they show no hint
   * and are long enough for the form.
   */
  lemma FiveEmojiAreLongEnough(email: string)
    ensures |FIVE_EMOJI| == 5 && Length(FIVE_EMOJI) == 10
    ensures !ShowsLengthHint(FIVE_EMOJI)
    ensures IsFormValid(email, true, FIVE_EMOJI) <==> LeadsRoute.IsValidEmail(email)
  {
    TrimNoSpace(FIVE_EMOJI);
    assert Length(FIVE_EMOJI[4..]) == 2;
    assert Length(FIVE_EMOJI[3..]) == 4;
    assert Length(FIVE_EMOJI[2..]) == 6;
    assert Length(FIVE_EMOJI[1..]) == 8;
  }

  /** The values `handleSubmit`'s closure captured, which it posts and later reports. */
  datatype Submission = Submission(email: string, willingToPay: bool, mainProblem: string)

  /** The JSON body the form posts, as the leads route reads it; `source` is the `utm_source` query parameter. */
  function Payload(s: Submission, source: Option<string>): LeadsRoute.LeadRequest {
    LeadsRoute.ObjectBody(LeadsRoute.LeadBody(
      JStr(s.email),
      JBool(s.willingToPay),
      JNum(PROFILE_OPTIMIZATION_PRICE),
      JStr(s.mainProblem),
      if source.Some? then JStr(source.value) else JNull))
  }

  /**
   * Every body the enabled form can post passes the route's guards: it is
   * stored with the email lowercased, `willing_to_pay` true, the price 29, the
   * problem trimmed (ten code units at least) and the query's source.
   */
  lemma ValidFormIsStored(s: Submission, source: Option<string>)
    requires IsFormValid(s.email, s.willingToPay, s.mainProblem)
    ensures LeadsRoute.Route(Payload(s, source)) ==
              LeadsRoute.Store(LeadStore.Lead(ToLower(s.email), true, PROFILE_OPTIMIZATION_PRICE, Trim(s.mainProblem), source))
    ensures Length(LeadsRoute.Route(Payload(s, source)).lead.mainProblem) >= MIN_PROBLEM_LENGTH
  {
    var b := Payload(s, source).body;
    assert LeadsRoute.FirstFailingGuard(b) == 0;
    LeadsRoute.StoredLeadNormalised(b);
  }

  /** How the `fetch` ended: with a response of some status, or by throwing. */
  datatype FetchOutcome = Responded(status: int) | NetworkError

  /** `response.ok`: a status in the 200 range. */
  predicate ResponseOk(outcome: FetchOutcome) {
    outcome.Responded? && 200 <= outcome.status <= 299
  }

  /** The number of `field_focus_<f>` entries in a log. */
  function FocusCount(log: seq<Tracked>, f: Field): nat
    decreases |log|
  {
    if log == [] then 0
    else (if log[0].event == FocusEvent(f) then 1 else 0) + FocusCount(log[1..], f)
  }

  lemma {:induction false} FocusCountAppend(a: seq<Tracked>, b: seq<Tracked>, f: Field)
    ensures FocusCount(a + b, f) == FocusCount(a, f) + FocusCount(b, f)
    decreases |a|
  {
    if a != [] {
      assert (a + b)[0] == a[0];
      assert (a + b)[1..] == a[1..] + b;
      FocusCountAppend(a[1..], b, f);
    } else {
      assert a + b == b;
    }
  }

  /** The focus events a run of focuses logs, starting from the flags already set. */
  function FocusRun(focused: set<Field>, fs: seq<Field>): seq<Field>
    decreases |fs|
  {
    if fs == [] then []
    else if fs[0] in focused then FocusRun(focused, fs[1..])
    else [fs[0]] + FocusRun(focused + {fs[0]}, fs[1..])
  }

  /**
   * Over any run of focuses, each field is logged at most once, only if it was
   * not focused before, and every newly focused field is logged.
   */
  lemma {:induction false} FocusRunLogsOnce(focused: set<Field>, fs: seq<Field>)
    ensures forall i, j :: 0 <= i < j < |FocusRun(focused, fs)| ==> FocusRun(focused, fs)[i] != FocusRun(focused, fs)[j]
    ensures forall f :: f in FocusRun(focused, fs) <==> f in fs && f !in focused
    decreases |fs|
  {
    if fs != [] {
      FocusRunLogsOnce(focused, fs[1..]);
      FocusRunLogsOnce(focused + {fs[0]}, fs[1..]);
    }
  }

  /** The log entries of a run of logged focuses. */
  function FocusEntries(fs: seq<Field>): (entries: seq<Tracked>)
    ensures |entries| == |fs|
    ensures forall k :: 0 <= k < |fs| ==> entries[k] == Tracked(FocusEvent(fs[k]), NoProps)
  {
    seq(|fs|, k requires 0 <= k < |fs| => Tracked(FocusEvent(fs[k]), NoProps))
  }

  /**
   * Focusing one more field extends the run by what that single focus logs,
   * starting from every flag set so far: so a sequence of single focuses, as
   * `Modal.FocusField` performs them, logs exactly `FocusRun` of the whole.
   */
  lemma {:induction false} FocusRunExtend(focused: set<Field>, fs: seq<Field>, g: Field)
    ensures FocusRun(focused, fs + [g]) == FocusRun(focused, fs) + FocusRun(focused + (set x | x in fs), [g])
    decreases |fs|
  {
    if fs == [] {
      assert fs + [g] == [g];
      assert (set x | x in fs) == {};
      assert focused + (set x | x in fs) == focused;
    } else {
      var h := fs[0];
      var t := fs[1..];
      assert (fs + [g])[0] == h;
      assert (fs + [g])[1..] == t + [g];
      assert (set x | x in fs) == {h} + (set x | x in t);
      if h in focused {
        FocusRunExtend(focused, t, g);
        assert focused + (set x | x in fs) == focused + (set x | x in t);
      } else {
        FocusRunExtend(focused + {h}, t, g);
        assert focused + (set x | x in fs) == focused + {h} + (set x | x in t);
      }
    }
  }

  class Modal {
    /** The parent's `isModalOpen`, passed in as `open`. */
    var open: bool
    var step: Step
    var email: string
    var willingToPay: bool
    var mainProblem: string
    var isSubmitting: bool
    var error: Option<string>
    var focused: set<Field>
    /** Reset timers scheduled by closes and not yet fired. */
    var pendingResets: nat
    /** The confirmation's auto-close timer is scheduled and not yet fired or cleared. */
    var autoClosePending: bool
    /** The submission whose request is awaited. */
    var inFlight: Option<Submission>
    /** Everything passed to `track`, oldest first. */
    var log: seq<Tracked>
    /** Where the log stood at the last reset. */
    ghost var resetMark: nat

    /**
     * A request is awaited exactly while submitting, and never on the
     * confirmation; the auto-close timer runs only on the confirmation; and
     * since the last reset each field's focus is logged once if its flag is
     * set and not at all otherwise.
     */
    ghost predicate Valid()
      reads this
    {
      (isSubmitting <==> inFlight.Some?) &&
      (inFlight.Some? ==> step != Confirmation) &&
      (autoClosePending ==> step == Confirmation) &&
      resetMark <= |log| &&
      forall f :: FocusCount(log[resetMark..], f) == if f in focused then 1 else 0
    }

    /** The initial state: intent step, empty form, nothing focused, nothing logged. */
    constructor (open: bool)
      ensures Valid()
      ensures this.open == open && step == Intent && email == [] && !willingToPay && mainProblem == []
      ensures !isSubmitting && error == None && focused == {} && pendingResets == 0
      ensures !autoClosePending && inFlight == None && log == []
      ensures resetMark == 0
    {
      this.open := open;
      step := Intent;
      email := [];
      willingToPay := false;
      mainProblem := [];
      isSubmitting := false;
      error := None;
      focused := {};
      pendingResets := 0;
      autoClosePending := false;
      inFlight := None;
      log := [];
      resetMark := 0;
    }

    /** The enabled state of the submit button: `!isFormValid || isSubmitting` disables it. */
    predicate SubmitEnabled()
      reads this
    {
      IsFormValid(email, willingToPay, mainProblem) && !isSubmitting
    }

    /** Appending an entry that is not a focus event keeps the focus counts. */
    lemma AppendKeepsFocusCounts(e: Tracked)
      requires resetMark <= |log|
      requires forall f :: e.event != FocusEvent(f)
      ensures forall f :: FocusCount((log + [e])[resetMark..], f) == FocusCount(log[resetMark..], f)
    {
      forall f
        ensures FocusCount((log + [e])[resetMark..], f) == FocusCount(log[resetMark..], f)
      {
        assert (log + [e])[resetMark..] == log[resetMark..] + [e];
        FocusCountAppend(log[resetMark..], [e], f);
        assert [e][1..] == [];
      }
    }

    /** The parent opens the modal. */
    method Open()
      requires Valid()
      modifies this
      ensures Valid()
      ensures open
      ensures step == old(step) && email == old(email) && willingToPay == old(willingToPay)
      ensures mainProblem == old(mainProblem) && isSubmitting == old(isSubmitting) && error == old(error)
      ensures focused == old(focused) && pendingResets == old(pendingResets)
      ensures autoClosePending == old(autoClosePending) && inFlight == old(inFlight) && log == old(log)
      ensures resetMark == old(resetMark)
    {
      open := true;
    }

    /** `handleClose`: the parent closes the modal and a reset is scheduled; nothing else changes yet. */
    method Close()
      requires Valid()
      modifies this
      ensures Valid()
      ensures !open && pendingResets == old(pendingResets) + 1
      ensures step == old(step) && email == old(email) && willingToPay == old(willingToPay)
      ensures mainProblem == old(mainProblem) && isSubmitting == old(isSubmitting) && error == old(error)
      ensures focused == old(focused) && autoClosePending == old(autoClosePending)
      ensures inFlight == old(inFlight) && log == old(log) && resetMark == old(resetMark)
    {
      open := false;
      pendingResets := pendingResets + 1;
    }

    /**
     * The 300 ms reset firing: back to the intent step with an empty form, no
     * error and no focus flags; the step change clears the auto-close timer.
     * `isSubmitting` is not reset.
     */
    method FireResetTimer()
      requires Valid() && pendingResets > 0
      modifies this
      ensures Valid()
      ensures step == Intent && email == [] && !willingToPay && mainProblem == []
      ensures error == None && focused == {} && !autoClosePending
      ensures pendingResets == old(pendingResets) - 1
      ensures open == old(open) && isSubmitting == old(isSubmitting) && inFlight == old(inFlight)
      ensures log == old(log)
      ensures resetMark == |log|
    {
      step := Intent;
      email := [];
      willingToPay := false;
      mainProblem := [];
      error := None;
      focused := {};
      autoClosePending := false;
      pendingResets := pendingResets - 1;
      resetMark := |log|;
      forall f
        ensures FocusCount(log[resetMark..], f) == 0
      {
        assert log[resetMark..] == [];
      }
    }

    /** `handleFieldFocus`: the first focus of a field since the last reset sets its flag and is logged. */
    method FocusField(f: Field)
      requires Valid()
      modifies this
      ensures Valid()
      ensures focused == old(focused) + {f}
      ensures log == old(log) + FocusEntries(FocusRun(old(focused), [f]))
      ensures f !in old(focused) ==> log == old(log) + [Tracked(FocusEvent(f), NoProps)]
      ensures f in old(focused) ==> log == old(log)
      ensures open == old(open) && step == old(step) && email == old(email) && willingToPay == old(willingToPay)
      ensures mainProblem == old(mainProblem) && isSubmitting == old(isSubmitting) && error == old(error)
      ensures pendingResets == old(pendingResets) && autoClosePending == old(autoClosePending)
      ensures inFlight == old(inFlight)
      ensures resetMark == old(resetMark)
    {
      if f !in focused {
        var e := Tracked(FocusEvent(f), NoProps);
        forall g
          ensures FocusCount((log + [e])[resetMark..], g) == if g in focused + {f} then 1 else 0
        {
          assert (log + [e])[resetMark..] == log[resetMark..] + [e];
          FocusCountAppend(log[resetMark..], [e], g);
          assert [e][1..] == [];
          FocusEventInjective(f, g);
        }
        focused := focused + {f};
        log := log + [e];
      }
      assert [f][1..] == [];
    }

    /** The email field's blur: logs `field_blur_email` with the current email, every time. */
    method BlurEmail()
      requires Valid()
      modifies this
      ensures Valid()
      ensures log == old(log) + [Tracked("field_blur_email", EmailProps(old(email)))]
      ensures open == old(open) && step == old(step) && email == old(email) && willingToPay == old(willingToPay)
      ensures mainProblem == old(mainProblem) && isSubmitting == old(isSubmitting) && error == old(error)
      ensures focused == old(focused) && pendingResets == old(pendingResets)
      ensures autoClosePending == old(autoClosePending) && inFlight == old(inFlight)
      ensures resetMark == old(resetMark)
    {
      var e := Tracked("field_blur_email", EmailProps(email));
      AppendKeepsFocusCounts(e);
      log := log + [e];
    }

    /** The three `onChange` handlers: each sets its field and nothing else. */
    method EditEmail(v: string)
      requires Valid()
      modifies this
      ensures Valid()
      ensures email == v
      ensures open == old(open) && step == old(step) && willingToPay == old(willingToPay)
      ensures mainProblem == old(mainProblem) && isSubmitting == old(isSubmitting) && error == old(error)
      ensures focused == old(focused) && pendingResets == old(pendingResets)
      ensures autoClosePending == old(autoClosePending) && inFlight == old(inFlight) && log == old(log)
      ensures resetMark == old(resetMark)
    {
      email := v;
    }

    method SetWillingToPay(checked: bool)
      requires Valid()
      modifies this
      ensures Valid()
      ensures willingToPay == checked
      ensures open == old(open) && step == old(step) && email == old(email)
      ensures mainProblem == old(mainProblem) && isSubmitting == old(isSubmitting) && error == old(error)
      ensures focused == old(focused) && pendingResets == old(pendingResets)
      ensures autoClosePending == old(autoClosePending) && inFlight == old(inFlight) && log == old(log)
      ensures resetMark == old(resetMark)
    {
      willingToPay := checked;
    }

    method EditProblem(v: string)
      requires Valid()
      modifies this
      ensures Valid()
      ensures mainProblem == v
      ensures open == old(open) && step == old(step) && email == old(email) && willingToPay == old(willingToPay)
      ensures isSubmitting == old(isSubmitting) && error == old(error)
      ensures focused == old(focused) && pendingResets == old(pendingResets)
      ensures autoClosePending == old(autoClosePending) && inFlight == old(inFlight) && log == old(log)
      ensures resetMark == old(resetMark)
    {
      mainProblem := v;
    }

    /** `handleIntentYes`: logs `intent_yes` with the price and moves to the form; no request is made. */
    method IntentYes()
      requires Valid() && step == Intent
      modifies this
      ensures Valid()
      ensures step == Form
      ensures log == old(log) + [Tracked("intent_yes", PriceProps(PROFILE_OPTIMIZATION_PRICE))]
      ensures open == old(open) && email == old(email) && willingToPay == old(willingToPay)
      ensures mainProblem == old(mainProblem) && isSubmitting == old(isSubmitting) && error == old(error)
      ensures focused == old(focused) && pendingResets == old(pendingResets)
      ensures autoClosePending == old(autoClosePending) && inFlight == old(inFlight)
      ensures resetMark == old(resetMark)
    {
      var e := Tracked("intent_yes", PriceProps(PROFILE_OPTIMIZATION_PRICE));
      AppendKeepsFocusCounts(e);
      log := log + [e];
      step := Form;
    }

    /** `handleIntentNo`: logs `intent_no` with the price, then closes as `handleClose` does. */
    method IntentNo()
      requires Valid() && step == Intent
      modifies this
      ensures Valid()
      ensures !open && pendingResets == old(pendingResets) + 1
      ensures log == old(log) + [Tracked("intent_no", PriceProps(PROFILE_OPTIMIZATION_PRICE))]
      ensures step == old(step) && email == old(email) && willingToPay == old(willingToPay)
      ensures mainProblem == old(mainProblem) && isSubmitting == old(isSubmitting) && error == old(error)
      ensures focused == old(focused) && autoClosePending == old(autoClosePending) && inFlight == old(inFlight)
      ensures resetMark == old(resetMark)
    {
      var e := Tracked("intent_no", PriceProps(PROFILE_OPTIMIZATION_PRICE));
      AppendKeepsFocusCounts(e);
      log := log + [e];
      open := false;
      pendingResets := pendingResets + 1;
    }

    /**
     * The synchronous half of `handleSubmit`, reachable only through the
     * enabled submit button: the error is cleared, the request goes out with
     * the current values, and they are captured for the report.
     */
    method BeginSubmit(source: Option<string>) returns (request: LeadsRoute.LeadRequest)
      requires Valid() && step == Form && SubmitEnabled()
      modifies this
      ensures Valid()
      ensures isSubmitting && error == None
      ensures inFlight == Some(Submission(email, willingToPay, mainProblem))
      ensures request == Payload(inFlight.value, source)
      ensures LeadsRoute.Route(request).Store?
      ensures open == old(open) && step == old(step) && email == old(email) && willingToPay == old(willingToPay)
      ensures mainProblem == old(mainProblem) && focused == old(focused) && pendingResets == old(pendingResets)
      ensures autoClosePending == old(autoClosePending) && log == old(log)
      ensures resetMark == old(resetMark)
    {
      error := None;
      isSubmitting := true;
      var submission := Submission(email, willingToPay, mainProblem);
      inFlight := Some(submission);
      request := Payload(submission, source);
      ValidFormIsStored(submission, source);
    }

    /**
     * The rest of `handleSubmit` once the request settles. An ok response logs
     * `form_submit` with the captured values and the price and moves to the
     * confirmation, scheduling the auto-close; anything else logs
     * `form_error` and shows the error, leaving step and fields as they are.
     * Either way the submission ends.
     */
    method FinishSubmit(outcome: FetchOutcome)
      requires Valid() && inFlight.Some?
      modifies this
      ensures Valid()
      ensures !isSubmitting && inFlight == None
      ensures ResponseOk(outcome) ==>
                log == old(log) + [Tracked("form_submit", SubmitProps(old(inFlight).value.email,
                  old(inFlight).value.willingToPay, old(inFlight).value.mainProblem, PROFILE_OPTIMIZATION_PRICE))] &&
                step == Confirmation && autoClosePending && error == old(error)
      ensures !ResponseOk(outcome) ==>
                log == old(log) + [Tracked("form_error", NoProps)] &&
                step == old(step) && autoClosePending == old(autoClosePending) && error == Some(SUBMIT_ERROR)
      ensures open == old(open) && email == old(email) && willingToPay == old(willingToPay)
      ensures mainProblem == old(mainProblem) && focused == old(focused) && pendingResets == old(pendingResets)
      ensures resetMark == old(resetMark)
    {
      var s := inFlight.value;
      var e: Tracked;
      if ResponseOk(outcome) {
        e := Tracked("form_submit", SubmitProps(s.email, s.willingToPay, s.mainProblem, PROFILE_OPTIMIZATION_PRICE));
        step := Confirmation;
        autoClosePending := true;
      } else {
        e := Tracked("form_error", NoProps);
        error := Some(SUBMIT_ERROR);
      }
      AppendKeepsFocusCounts(e);
      log := log + [e];
      isSubmitting := false;
      inFlight := None;
    }

    /**
     * The 5000 ms timer on the confirmation: it calls `onClose` directly, not
     * `handleClose`, so the modal closes and no reset is scheduled.
     */
    method FireAutoClose()
      requires Valid() && autoClosePending
      modifies this
      ensures Valid()
      ensures !open && !autoClosePending
      ensures step == Confirmation && pendingResets == old(pendingResets)
      ensures email == old(email) && willingToPay == old(willingToPay) && mainProblem == old(mainProblem)
      ensures isSubmitting == old(isSubmitting) && error == old(error) && focused == old(focused)
      ensures inFlight == old(inFlight) && log == old(log)
      ensures resetMark == old(resetMark)
    {
      open := false;
      autoClosePending := false;
    }
  }
}
