/**
 * The RSVP modal opened from the hero button: its validator, its edit, submit
 * and reset handlers, and the three views it switches between.
 *
 * Every handler is a pure step from one state to the next, and a step may
 * issue one request to the data service. An awaited call's answer arrives as
 * a later `LookupReturned` or `InsertReturned` event, and the suspended
 * handler's captured form travels in `pending`. The modal ignores events
 * whose element is not on screen, or whose button is disabled.
 */
module HeroRsvp {
  import opened Wrappers
  import opened JsText
  import opened Form
  import opened Submission

  const PinRequired := "El código PIN es requerido"
  const PinWrongLength := "El código debe tener 4 dígitos"
  const PinNotNumeric := "El código solo puede contener números"
  const NameRequired := "Tu nombre es requerido"
  const NameTooShort := "El nombre debe tener al menos 2 caracteres"
  const AttendanceRequired := "Por favor selecciona si podrás asistir"
  const PinRejected := "Código PIN inválido. Verifica tu invitación."
  const SubmitFailed := "Hubo un error al procesar tu confirmación. Por favor intenta nuevamente."

  /** The PINs accepted without asking the data service. */
  const AllowedPins: set<JsString> := {
    [0x32, 0x32, 0x31, 0x30],  // "2210"
    [0x35, 0x36, 0x37, 0x38],  // "5678"
    [0x39, 0x38, 0x37, 0x36],  // "9876"
    [0x34, 0x33, 0x32, 0x31]   // "4321"
  }

  /** The PIN rules in order; the first one that fails gives the message. */
  function PinError(pin: JsString): (r: Option<string>)
    ensures r.None? <==> FourDigitPin(pin)
    ensures r == Some(PinRequired) <==> pin == []
    ensures r == Some(PinWrongLength) <==> pin != [] && |pin| != PinLength
    ensures r == Some(PinNotNumeric) <==> |pin| == PinLength && !AllDigits(pin)
  {
    if pin == [] then Some(PinRequired)
    else if |pin| != PinLength then Some(PinWrongLength)
    else if !FourDigitPin(pin) then Some(PinNotNumeric)
    else None
  }

  /** The name rules on the trimmed name. */
  function NameError(name: JsString): (r: Option<string>)
    ensures r.None? <==> |Trim(name)| >= 2
    ensures r == Some(NameRequired) <==> AllTrimSpace(name)
    ensures r == Some(NameTooShort) <==> |Trim(name)| == 1
  {
    var t := Trim(name);
    if t == [] then Some(NameRequired)
    else if |t| < 2 then Some(NameTooShort)
    else None
  }

  /** `validateForm`: the fresh error map; the form may be submitted exactly when it is empty. */
  function Validate(f: FormData): (r: ErrorMap)
    ensures Pin in r <==> !FourDigitPin(f.pin)
    ensures Name in r <==> |Trim(f.name)| < 2
    ensures Attending in r <==> f.attending == []
    ensures Message !in r
    ensures Pin in r ==> PinError(f.pin) == Some(r[Pin])
    ensures Name in r ==> NameError(f.name) == Some(r[Name])
    ensures Attending in r ==> r[Attending] == AttendanceRequired
    ensures forall g :: g in r ==> r[g] != ""
    ensures r == map[] <==> Acceptable(f)
  {
    var pinErrors: ErrorMap := if PinError(f.pin).Some? then map[Pin := PinError(f.pin).value] else map[];
    var nameErrors := if NameError(f.name).Some? then pinErrors[Name := NameError(f.name).value] else pinErrors;
    var r := if f.attending == [] then nameErrors[Attending := AttendanceRequired] else nameErrors;
    assert Acceptable(f) ==> r.Keys == {};
    r
  }

  /** What is on screen. */
  datatype View = InvitationButton | FormModal | SuccessModal

  datatype State = State(
    showForm: bool,
    form: FormData,
    errors: ErrorMap,
    submitted: bool,
    isSubmitting: bool,
    error: string,
    pending: Pending)

  /** The component as first rendered. */
  const Init := State(false, Blank, map[], false, false, "", Idle)

  /** `!showForm ? button : !submitted ? form : success`. */
  function ViewOf(s: State): (v: View)
    ensures v == FormModal <==> s.showForm && !s.submitted
    ensures v == SuccessModal <==> s.showForm && s.submitted
  {
    if !s.showForm then InvitationButton
    else if !s.submitted then FormModal
    else SuccessModal
  }

  /** The submit button is on screen and not disabled, and the browser lets the `submit` event through. */
  predicate CanSubmit(s: State) {
    ViewOf(s) == FormModal && !s.isSubmitting && RequiredFilled(s.form)
  }

  /** The busy flag is set exactly while a handler is suspended, and what it waits on passed the checks before it. */
  predicate Inv(s: State) {
    && (s.isSubmitting <==> !s.pending.Idle?)
    && (s.pending.AwaitingLookup? ==> Acceptable(s.pending.snapshot) && s.pending.snapshot.pin !in AllowedPins)
    && (s.pending.AwaitingInsert? ==> WellFormedRow(s.pending.row))
  }

  datatype Outcome = Outcome(state: State, request: Option<Request>)

  /** The invitation button: opens the modal. */
  function Open(s: State): (o: Outcome)
    ensures o.request.None?
    ensures s.showForm ==> o.state == s
    ensures !s.showForm ==> ViewOf(o.state) != InvitationButton && o.state.(showForm := false) == s
  {
    if s.showForm then Outcome(s, None) else Outcome(s.(showForm := true), None)
  }

  /** `handleInputChange`: stores the value verbatim and blanks that field's shown message; nothing else changes. */
  function Change(s: State, f: Field, v: JsString): (o: Outcome)
    ensures o.request.None?
    ensures ViewOf(s) != FormModal ==> o.state == s
    ensures ViewOf(s) == FormModal ==>
      && o.state.form.Get(f) == v
      && (forall g :: g != f ==> o.state.form.Get(g) == s.form.Get(g))
      && o.state.errors.Keys == s.errors.Keys
      && (f in o.state.errors ==> o.state.errors[f] == "")
      && (forall g :: g in s.errors && g != f ==> o.state.errors[g] == s.errors[g])
      && o.state.(form := s.form, errors := s.errors) == s
  {
    if ViewOf(s) != FormModal then Outcome(s, None)
    else Outcome(s.(form := s.form.Set(f, v), errors := BlankError(s.errors, f)), None)
  }

  /** `handleAttendanceClick`: stores the chosen value and blanks the attendance message. */
  function ChooseAttendance(s: State, v: JsString): (o: Outcome)
    ensures o.request.None?
    ensures ViewOf(s) != FormModal ==> o.state == s
    ensures ViewOf(s) == FormModal ==>
      && o.state.form == s.form.(attending := v)
      && o.state.errors.Keys == s.errors.Keys
      && (Attending in o.state.errors ==> o.state.errors[Attending] == "")
      && (forall g :: g in s.errors && g != Attending ==> o.state.errors[g] == s.errors[g])
      && o.state.(form := s.form, errors := s.errors) == s
  {
    if ViewOf(s) != FormModal then Outcome(s, None)
    else Outcome(s.(form := s.form.(attending := v), errors := BlankError(s.errors, Attending)), None)
  }

  /**
   * `handleSubmit` up to its first `await`: validation failures stop before
   * any request; an allow-listed PIN goes straight to the insert; for any
   * other PIN the whole `valid_pins` table is fetched, with no PIN in the
   * query, and searched on the client (its answer is `PinFound` when a row
   * holds the PIN).
   */
  function Submit(s: State): (o: Outcome)
    ensures !CanSubmit(s) ==> o == Outcome(s, None)
    ensures CanSubmit(s) && !Acceptable(s.form) ==> o == Outcome(s.(errors := Validate(s.form)), None)
    ensures CanSubmit(s) && Acceptable(s.form) ==>
      && o.state == s.(errors := map[], isSubmitting := true, error := "", pending := o.state.pending)
      && (s.form.pin in AllowedPins ==>
            o.request == Some(Insert(ToRow(s.form))) && o.state.pending == AwaitingInsert(ToRow(s.form)))
      && (s.form.pin !in AllowedPins ==>
            o.request == Some(PinListFetch) && o.state.pending == AwaitingLookup(s.form))
  {
    if !CanSubmit(s) then Outcome(s, None)
    else
      var errors := Validate(s.form);
      if errors != map[] then Outcome(s.(errors := errors), None)
      else
        var started := s.(errors := errors, isSubmitting := true, error := "");
        if s.form.pin in AllowedPins then
          var row := ToRow(s.form);
          Outcome(started.(pending := AwaitingInsert(row)), Some(Insert(row)))
        else
          Outcome(started.(pending := AwaitingLookup(s.form)), Some(PinListFetch))
  }

  /**
   * The lookup's answer: a match goes on to the insert; no match, an error
   * value or a throw all reject the PIN, replace the field messages by the
   * PIN message alone and release the busy flag.
   */
  function OnLookup(s: State, answer: LookupOutcome): (o: Outcome)
    ensures !s.pending.AwaitingLookup? ==> o == Outcome(s, None)
    ensures s.pending.AwaitingLookup? && answer == PinFound ==>
      var row := ToRow(s.pending.snapshot);
      o == Outcome(s.(pending := AwaitingInsert(row)), Some(Insert(row)))
    ensures s.pending.AwaitingLookup? && answer != PinFound ==>
      && o.request.None?
      && o.state == s.(errors := map[Pin := PinRejected], isSubmitting := false, pending := Idle)
  {
    match s.pending
    case AwaitingLookup(snapshot) =>
      if answer == PinFound then
        var row := ToRow(snapshot);
        Outcome(s.(pending := AwaitingInsert(row)), Some(Insert(row)))
      else
        Outcome(s.(errors := map[Pin := PinRejected], isSubmitting := false, pending := Idle), None)
    case _ => Outcome(s, None)
  }

  /** The insert's answer: success shows the success view, failure the generic message; the busy flag drops either way. */
  function OnInsert(s: State, answer: InsertOutcome): (o: Outcome)
    ensures !s.pending.AwaitingInsert? ==> o == Outcome(s, None)
    ensures s.pending.AwaitingInsert? ==>
      && o.request.None?
      && !o.state.isSubmitting && o.state.pending.Idle?
      && o.state.form == s.form && o.state.errors == s.errors && o.state.showForm == s.showForm
      && (answer.Inserted? ==> o.state.submitted && o.state.error == s.error)
      && (answer.InsertFailed? ==> o.state.error == SubmitFailed && o.state.submitted == s.submitted)
  {
    if !s.pending.AwaitingInsert? then Outcome(s, None)
    else
      var settled := s.(isSubmitting := false, pending := Idle);
      match answer
      case Inserted => Outcome(settled.(submitted := true), None)
      case InsertFailed(_) => Outcome(settled.(error := SubmitFailed), None)
  }

  /**
   * `handleReset` (the close button, the backdrop, the success button):
   * empties the form and every message and returns to the invitation button.
   * A suspended submission is not cancelled.
   */
  function Reset(s: State): (o: Outcome)
    ensures o.request.None?
    ensures !s.showForm ==> o.state == s
    ensures s.showForm ==>
      && ViewOf(o.state) == InvitationButton
      && o.state.form == Blank && o.state.errors == map[] && o.state.error == ""
      && !o.state.submitted
      && o.state.isSubmitting == s.isSubmitting && o.state.pending == s.pending
  {
    if !s.showForm then Outcome(s, None)
    else Outcome(State(false, Blank, map[], false, s.isSubmitting, "", s.pending), None)
  }

  datatype Event =
    | OpenClicked
    | Changed(field: Field, value: JsString)
    | AttendanceClicked(choice: JsString)
    | Submitted
    | LookupReturned(lookup: LookupOutcome)
    | InsertReturned(insert: InsertOutcome)
    | ResetClicked

  /** One event. */
  function Step(s: State, e: Event): Outcome {
    match e
    case OpenClicked => Open(s)
    case Changed(f, v) => Change(s, f, v)
    case AttendanceClicked(v) => ChooseAttendance(s, v)
    case Submitted => Submit(s)
    case LookupReturned(answer) => OnLookup(s, answer)
    case InsertReturned(answer) => OnInsert(s, answer)
    case ResetClicked => Reset(s)
  }

  /** An insert request carries a well-formed row whose PIN was accepted. */
  predicate InsertJustified(s: State, o: Outcome, e: Event) {
    o.request.Some? && o.request.value.Insert? ==>
      var row := o.request.value.row;
      && WellFormedRow(row)
      && ((e == Submitted && row == ToRow(s.form) && row.pinUsed in AllowedPins)
          || (e == LookupReturned(PinFound) && s.pending.AwaitingLookup? && row == ToRow(s.pending.snapshot)))
  }

  /** Submit keeps the invariant; the case asserts name the pending state each branch leaves behind. */
  lemma SubmitKeepsInv(s: State)
    requires Inv(s)
    ensures Inv(Submit(s).state) && InsertJustified(s, Submit(s), Submitted)
  {
    if CanSubmit(s) && Acceptable(s.form) {
      var row := ToRow(s.form);
      AcceptableFormGivesWellFormedRow(s.form);
      if s.form.pin in AllowedPins {
        assert Submit(s).state.pending == AwaitingInsert(row);
      } else {
        assert Submit(s).state.pending == AwaitingLookup(s.form);
      }
    }
  }

  lemma OnLookupKeepsInv(s: State, answer: LookupOutcome)
    requires Inv(s)
    ensures Inv(OnLookup(s, answer).state) && InsertJustified(s, OnLookup(s, answer), LookupReturned(answer))
  {
    if s.pending.AwaitingLookup? {
      AcceptableFormGivesWellFormedRow(s.pending.snapshot);
    }
  }

  /** Every event preserves the invariant, and an insert is only requested for a well-formed row whose PIN was accepted. */
  lemma StepKeepsInv(s: State, e: Event)
    requires Inv(s)
    ensures Inv(Step(s, e).state) && InsertJustified(s, Step(s, e), e)
  {
    match e
    case Submitted => SubmitKeepsInv(s);
    case LookupReturned(answer) => OnLookupKeepsInv(s, answer);
    case _ =>
  }

  /** The state after a sequence of events. */
  function Run(s: State, events: seq<Event>): State
    decreases |events|
  {
    if events == [] then s else Run(Step(s, events[0]).state, events[1..])
  }

  /** Every event sequence keeps the invariant. */
  lemma {:induction false} RunKeepsInv(s: State, events: seq<Event>)
    requires Inv(s)
    ensures Inv(Run(s, events))
    decreases |events|
  {
    if events != [] {
      StepKeepsInv(s, events[0]);
      RunKeepsInv(Step(s, events[0]).state, events[1..]);
    }
  }

  /** Every state the component can reach from its first render satisfies the invariant. */
  lemma ReachableKeepsInv(events: seq<Event>)
    ensures Inv(Init)
    ensures Inv(Run(Init, events))
  {
    RunKeepsInv(Init, events);
  }

  /** A submission followed to its end, with the requests it issued in order. */
  datatype Flow = Flow(state: State, requests: seq<Request>)

  /** Feeds a request's answer back to the suspended handler. */
  function Answer(s: State, request: Request, lookup: LookupOutcome, insert: InsertOutcome): Outcome {
    match request
    // The modal issues only `PinListFetch`; both lookup kinds resume the same handler.
    case PinLookup(_) | PinListFetch => OnLookup(s, lookup)
    case Insert(_) => OnInsert(s, insert)
  }

  /** Whether this PIN gets past the membership check, given what the lookup would answer. */
  predicate PinAccepted(pin: JsString, lookup: LookupOutcome) {
    pin in AllowedPins || lookup == PinFound
  }

  /**
   * A click on submit run to completion with the data service answering
   * `lookup` and `insert`. Whatever happens, the busy flag ends cleared and
   * the typed form is kept.
   */
  function SubmitFlow(s: State, lookup: LookupOutcome, insert: InsertOutcome): (r: Flow)
    ensures !CanSubmit(s) ==> r == Flow(s, [])
    ensures CanSubmit(s) && !Acceptable(s.form) ==> r == Flow(s.(errors := Validate(s.form)), [])
    ensures CanSubmit(s) ==> !r.state.isSubmitting && r.state.form == s.form && r.state.showForm
  {
    var first := Submit(s);
    if first.request.None? then Flow(first.state, [])
    else
      var second := Answer(first.state, first.request.value, lookup, insert);
      if second.request.None? then Flow(second.state, [first.request.value])
      else
        var third := Answer(second.state, second.request.value, lookup, insert);
        Flow(third.state, [first.request.value, second.request.value])
  }

  /** A valid form with an allow-listed PIN is inserted without any lookup, whatever the lookup would have said. */
  lemma AllowListedPinSkipsLookup(s: State, lookup: LookupOutcome, insert: InsertOutcome)
    requires CanSubmit(s) && Acceptable(s.form) && s.form.pin in AllowedPins
    ensures SubmitFlow(s, lookup, insert).requests == [Insert(ToRow(s.form))]
  {
  }

  /** Any other valid form is looked up first, and inserted only when the lookup finds the PIN. */
  lemma OtherPinIsLookedUp(s: State, lookup: LookupOutcome, insert: InsertOutcome)
    requires CanSubmit(s) && Acceptable(s.form) && s.form.pin !in AllowedPins
    ensures lookup == PinFound ==>
      SubmitFlow(s, lookup, insert).requests == [PinListFetch, Insert(ToRow(s.form))]
    ensures lookup != PinFound ==> SubmitFlow(s, lookup, insert).requests == [PinListFetch]
  {
  }

  /** A rejected PIN (no match, an error value or a throw) shows only the PIN message and inserts nothing. */
  lemma RejectedPinInsertsNothing(s: State, lookup: LookupOutcome, insert: InsertOutcome)
    requires CanSubmit(s) && Acceptable(s.form) && !PinAccepted(s.form.pin, lookup)
    ensures var r := SubmitFlow(s, lookup, insert);
      && r.requests == [PinListFetch]
      && r.state.errors == map[Pin := PinRejected]
      && !r.state.submitted && r.state.error == ""
  {
  }

  /** With the PIN accepted, a successful insert shows the success view and a failed one the generic message, keeping the form for a retry. */
  lemma AcceptedPinReachesInsert(s: State, lookup: LookupOutcome, insert: InsertOutcome)
    requires CanSubmit(s) && Acceptable(s.form) && PinAccepted(s.form.pin, lookup)
    ensures var r := SubmitFlow(s, lookup, insert);
      && Insert(ToRow(s.form)) in r.requests
      && r.state.errors == map[]
      && r.state.pending.Idle?
      && (insert.Inserted? ==> ViewOf(r.state) == SuccessModal && r.state.error == "")
      && (insert.InsertFailed? ==> ViewOf(r.state) == FormModal && r.state.error == SubmitFailed)
  {
  }

  /** Started from a consistent state, a submission always settles with nothing left suspended. */
  lemma SubmitFlowSettles(s: State, lookup: LookupOutcome, insert: InsertOutcome)
    requires Inv(s) && CanSubmit(s)
    ensures SubmitFlow(s, lookup, insert).state.pending.Idle?
  {
    if Acceptable(s.form) {
      if PinAccepted(s.form.pin, lookup) {
        AcceptedPinReachesInsert(s, lookup, insert);
      } else {
        RejectedPinInsertsNothing(s, lookup, insert);
        assert Submit(s).state.pending == AwaitingLookup(s.form);
      }
    }
  }

  /** Once the response is recorded and the success view is up, submitting does nothing until the modal is reset. */
  lemma NoResubmitAfterSuccess(s: State)
    requires s.submitted
    ensures Step(s, Submitted) == Outcome(s, None)
  {
  }

  /**
   * The browser's `required` check runs before `handleSubmit`: an empty PIN
   * or name never reaches the validator, so a submit never shows "PIN
   * required", and shows "name required" only for a name of whitespace alone.
   */
  lemma RequiredCheckPrecedesValidator(s: State)
    ensures s.form.pin == [] || s.form.name == [] ==> Step(s, Submitted) == Outcome(s, None)
    ensures CanSubmit(s) ==>
      var e := Step(s, Submitted).state.errors;
      && (Pin in e ==> e[Pin] != PinRequired)
      && (Name in e && e[Name] == NameRequired ==> s.form.name != [] && AllTrimSpace(s.form.name))
  {
  }

  /**
   * After reset and reopening, the form is on screen, empty and free of
   * messages; the browser holds back a submit of the empty form, and once a
   * PIN and a name are typed it can be submitted again, provided no earlier
   * submission is still in flight.
   */
  lemma ResetAllowsNewSubmission(s: State, pin: JsString, name: JsString)
    requires s.showForm && !s.isSubmitting
    ensures var t := Step(Step(s, ResetClicked).state, OpenClicked).state;
      && ViewOf(t) == FormModal && !t.isSubmitting
      && t.form == Blank && t.errors == map[] && t.error == ""
      && Step(t, Submitted) == Outcome(t, None)
    ensures var t := Step(Step(s, ResetClicked).state, OpenClicked).state;
      var u := Step(Step(t, Changed(Pin, pin)).state, Changed(Name, name)).state;
      && u.form == FormData(pin, name, [], []) && u.errors == map[]
      && (CanSubmit(u) <==> pin != [] && name != [])
  {
  }

  /** Clicking an attendance button is the change handler applied to the attendance field. */
  lemma AttendanceIsChange(s: State, v: JsString)
    ensures ChooseAttendance(s, v) == Change(s, Attending, v)
  {
  }

  /** PIN "2210", name "Ana", "yes", no message: one insert of the expected row, then the success view. */
  lemma AllowListedExample(s: State)
    requires CanSubmit(s) && s.form == FormData(Lit("2210"), Lit("Ana"), Yes, [])
    ensures var r := SubmitFlow(s, PinNotFound, Inserted);
      && r.requests == [Insert(RsvpRow(Lit("2210"), Lit("Ana"), true, None))]
      && ViewOf(r.state) == SuccessModal
  {
    var pin := Lit("2210");
    assert pin == [0x32, 0x32, 0x31, 0x30];
    assert FourDigitPin(pin);
    assert pin in AllowedPins;
    TrimUntouched(Lit("Ana"));
    AllowListedPinSkipsLookup(s, PinNotFound, Inserted);
    AcceptedPinReachesInsert(s, PinNotFound, Inserted);
  }

  /** PIN "0000" with otherwise valid fields: the lookup finds nothing, so nothing is inserted and the PIN field is flagged. */
  lemma UnknownPinExample(s: State)
    requires CanSubmit(s) && s.form == FormData(Lit("0000"), Lit("Ana"), Yes, [])
    ensures var r := SubmitFlow(s, PinNotFound, Inserted);
      && r.requests == [PinListFetch]
      && r.state.errors == map[Pin := PinRejected]
      && !r.state.submitted
  {
    var pin := Lit("0000");
    assert pin == [0x30, 0x30, 0x30, 0x30];
    assert FourDigitPin(pin);
    assert pin !in AllowedPins;
    TrimUntouched(Lit("Ana"));
    RejectedPinInsertsNothing(s, PinNotFound, Inserted);
  }
}
