/**
 * The standalone RSVP form: the PIN field filters its input to at most four
 * digits, every PIN is checked against the data service, and a successful
 * insert empties the form. Events follow the same scheme as the modal: pure
 * steps, at most one request per step, answers as later events.
 */
module RsvpForm {
  import opened Wrappers
  import opened JsText
  import opened PinInput
  import opened Form
  import opened Submission

  const PinPrompt := "Ingresa el código de 4 dígitos que recibiste"
  const NamePrompt := "Por favor, ingresa tu nombre"
  const AttendancePrompt := "Por favor, selecciona una opción"
  const InvalidInvitation := "Código de invitación incorrecto. Verifica el código de 4 dígitos que recibiste."

  /** `validateForm`: one fixed message per failing field; the form may be submitted exactly when the map is empty. */
  function Validate(f: FormData): (r: ErrorMap)
    ensures Pin in r <==> !FourDigitPin(f.pin)
    ensures Name in r <==> |Trim(f.name)| < 2
    ensures Attending in r <==> f.attending == []
    ensures Message !in r
    ensures Pin in r ==> r[Pin] == PinPrompt
    ensures Name in r ==> r[Name] == NamePrompt
    ensures Attending in r ==> r[Attending] == AttendancePrompt
    ensures r == map[] <==> Acceptable(f)
  {
    var pinErrors: ErrorMap :=
      if f.pin == [] || |f.pin| != PinLength || !FourDigitPin(f.pin) then map[Pin := PinPrompt] else map[];
    var nameErrors := if f.name == [] || |Trim(f.name)| < 2 then pinErrors[Name := NamePrompt] else pinErrors;
    var r := if f.attending == [] then nameErrors[Attending := AttendancePrompt] else nameErrors;
    assert Acceptable(f) ==> r.Keys == {};
    r
  }

  /** A PIN that went through the input filter is valid exactly when four digits have been typed. */
  lemma FilteredPinRule(v: JsString)
    ensures FourDigitPin(Sanitize(v)) <==> |Sanitize(v)| == PinLength
  {
  }

  datatype State = State(
    form: FormData,
    errors: ErrorMap,
    submitted: bool,
    isSubmitting: bool,
    error: string,
    pending: Pending)

  /** The component as first rendered. */
  const Init := State(Blank, map[], false, false, "", Idle)

  /**
   * The busy flag is set exactly while a handler is suspended, what it waits
   * on passed validation, and the stored PIN is always a filtered one.
   */
  predicate Inv(s: State) {
    && (s.isSubmitting <==> !s.pending.Idle?)
    && AllDigits(s.form.pin) && |s.form.pin| <= PinLength
    && (s.pending.AwaitingLookup? ==> Acceptable(s.pending.snapshot))
    && (s.pending.AwaitingInsert? ==> WellFormedRow(s.pending.row))
  }

  datatype Outcome = Outcome(state: State, request: Option<Request>)

  /**
   * `handleInputChange`: the PIN is stored filtered, any other field
   * verbatim; that field's shown message is blanked; nothing else changes.
   */
  function Change(s: State, f: Field, v: JsString): (o: Outcome)
    ensures o.request.None?
    ensures o.state.form.Get(f) == if f == Pin then Sanitize(v) else v
    ensures forall g :: g != f ==> o.state.form.Get(g) == s.form.Get(g)
    ensures o.state.errors.Keys == s.errors.Keys
    ensures f in o.state.errors ==> o.state.errors[f] == ""
    ensures forall g :: g in s.errors && g != f ==> o.state.errors[g] == s.errors[g]
    ensures o.state.(form := s.form, errors := s.errors) == s
  {
    var stored := if f == Pin then Sanitize(v) else v;
    Outcome(s.(form := s.form.Set(f, stored), errors := BlankError(s.errors, f)), None)
  }

  /** `handleAttendanceClick`: stores the choice and blanks the attendance message. */
  function ChooseAttendance(s: State, v: JsString): (o: Outcome)
    ensures o.request.None?
    ensures o.state.form == s.form.(attending := v)
    ensures o.state.errors.Keys == s.errors.Keys
    ensures Attending in o.state.errors ==> o.state.errors[Attending] == ""
    ensures forall g :: g in s.errors && g != Attending ==> o.state.errors[g] == s.errors[g]
    ensures o.state.(form := s.form, errors := s.errors) == s
  {
    Outcome(s.(form := s.form.(attending := v), errors := BlankError(s.errors, Attending)), None)
  }

  /** The submit button is not disabled, and the browser lets the `submit` event through. */
  predicate CanSubmit(s: State) {
    !s.isSubmitting && RequiredFilled(s.form)
  }

  /**
   * `handleSubmit` up to its first `await`: both messages are cleared, the
   * form is validated, and only a valid form starts the PIN lookup.
   */
  function Submit(s: State): (o: Outcome)
    ensures !CanSubmit(s) ==> o == Outcome(s, None)
    ensures CanSubmit(s) && !Acceptable(s.form) ==>
      o == Outcome(s.(error := "", errors := Validate(s.form)), None)
    ensures CanSubmit(s) && Acceptable(s.form) ==>
      && o.request == Some(PinLookup(s.form.pin))
      && o.state == s.(error := "", errors := map[], isSubmitting := true, pending := AwaitingLookup(s.form))
  {
    if !CanSubmit(s) then Outcome(s, None)
    else
      var checked := s.(error := "", errors := Validate(s.form));
      if checked.errors != map[] then Outcome(checked, None)
      else Outcome(checked.(isSubmitting := true, pending := AwaitingLookup(s.form)), Some(PinLookup(s.form.pin)))
  }

  /**
   * The lookup's answer: a found PIN goes on to the insert; a missing row or
   * an error value shows the invalid-invitation message, a throw its own
   * message; those end the submission.
   */
  function OnLookup(s: State, answer: LookupOutcome): (o: Outcome)
    ensures !s.pending.AwaitingLookup? ==> o == Outcome(s, None)
    ensures s.pending.AwaitingLookup? && answer == PinFound ==>
      var row := ToRow(s.pending.snapshot);
      o == Outcome(s.(pending := AwaitingInsert(row)), Some(Insert(row)))
    ensures s.pending.AwaitingLookup? && answer != PinFound ==>
      && o.request.None?
      && o.state.error == (if answer.LookupThrew? then answer.message else InvalidInvitation)
      && o.state == s.(error := o.state.error, isSubmitting := false, pending := Idle)
  {
    match s.pending
    case AwaitingLookup(snapshot) =>
      if answer == PinFound then
        var row := ToRow(snapshot);
        Outcome(s.(pending := AwaitingInsert(row)), Some(Insert(row)))
      else
        var message := match answer
          case LookupThrew(m) => m
          case _ => InvalidInvitation;
        Outcome(s.(error := message, isSubmitting := false, pending := Idle), None)
    case _ => Outcome(s, None)
  }

  /** The insert's answer: success marks the response sent and empties the form; failure shows the service's message and keeps it. */
  function OnInsert(s: State, answer: InsertOutcome): (o: Outcome)
    ensures !s.pending.AwaitingInsert? ==> o == Outcome(s, None)
    ensures s.pending.AwaitingInsert? ==>
      && o.request.None?
      && !o.state.isSubmitting && o.state.pending.Idle?
      && o.state.errors == s.errors
      && (answer.Inserted? ==> o.state.submitted && o.state.form == Blank && o.state.error == s.error)
      && (answer.InsertFailed? ==>
            o.state.error == answer.message && o.state.form == s.form && o.state.submitted == s.submitted)
  {
    if !s.pending.AwaitingInsert? then Outcome(s, None)
    else
      var settled := s.(isSubmitting := false, pending := Idle);
      match answer
      case Inserted => Outcome(settled.(submitted := true, form := Blank), None)
      case InsertFailed(m) => Outcome(settled.(error := m), None)
  }

  datatype Event =
    | Changed(field: Field, value: JsString)
    | AttendanceClicked(choice: JsString)
    | Submitted
    | LookupReturned(lookup: LookupOutcome)
    | InsertReturned(insert: InsertOutcome)

  /** One event. */
  function Step(s: State, e: Event): Outcome {
    match e
    case Changed(f, v) => Change(s, f, v)
    case AttendanceClicked(v) => ChooseAttendance(s, v)
    case Submitted => Submit(s)
    case LookupReturned(answer) => OnLookup(s, answer)
    case InsertReturned(answer) => OnInsert(s, answer)
  }

  /** An insert request carries a well-formed row, and only after the lookup found the PIN. */
  predicate InsertJustified(s: State, o: Outcome, e: Event) {
    o.request.Some? && o.request.value.Insert? ==>
      && WellFormedRow(o.request.value.row)
      && e == LookupReturned(PinFound)
      && s.pending.AwaitingLookup? && o.request.value.row == ToRow(s.pending.snapshot)
  }

  lemma OnLookupKeepsInv(s: State, answer: LookupOutcome)
    requires Inv(s)
    ensures Inv(OnLookup(s, answer).state) && InsertJustified(s, OnLookup(s, answer), LookupReturned(answer))
  {
    if s.pending.AwaitingLookup? {
      AcceptableFormGivesWellFormedRow(s.pending.snapshot);
    }
  }

  /** Every event preserves the invariant; inserts only follow a successful lookup. */
  lemma StepKeepsInv(s: State, e: Event)
    requires Inv(s)
    ensures Inv(Step(s, e).state) && InsertJustified(s, Step(s, e), e)
  {
    match e
    case LookupReturned(answer) => OnLookupKeepsInv(s, answer);
    case _ =>
  }

  /** The state after a sequence of events. */
  function Run(s: State, events: seq<Event>): State
    decreases |events|
  {
    if events == [] then s else Run(Step(s, events[0]).state, events[1..])
  }

  /** Every event sequence keeps the invariant; in particular the PIN stays filtered. */
  lemma {:induction false} RunKeepsInv(s: State, events: seq<Event>)
    requires Inv(s)
    ensures Inv(Run(s, events))
    ensures AllDigits(Run(s, events).form.pin) && |Run(s, events).form.pin| <= PinLength
    decreases |events|
  {
    if events != [] {
      StepKeepsInv(s, events[0]);
      RunKeepsInv(Step(s, events[0]).state, events[1..]);
    }
  }

  /** Every state the form can reach from its first render satisfies the invariant, so its PIN is always filtered. */
  lemma ReachableKeepsInv(events: seq<Event>)
    ensures Inv(Init)
    ensures Inv(Run(Init, events))
    ensures AllDigits(Run(Init, events).form.pin) && |Run(Init, events).form.pin| <= PinLength
  {
    RunKeepsInv(Init, events);
  }

  /** In a reachable state the PIN check reduces to the length check: the filter already guarantees digits. */
  lemma ReachablePinRule(s: State)
    requires Inv(s)
    ensures Pin in Validate(s.form) <==> |s.form.pin| != PinLength
  {
  }

  /** A submission followed to its end, with the requests it issued in order. */
  datatype Flow = Flow(state: State, requests: seq<Request>)

  /** Feeds a request's answer back to the suspended handler. */
  function Answer(s: State, request: Request, lookup: LookupOutcome, insert: InsertOutcome): Outcome {
    match request
    // The form issues only `PinLookup`; both lookup kinds resume the same handler.
    case PinLookup(_) | PinListFetch => OnLookup(s, lookup)
    case Insert(_) => OnInsert(s, insert)
  }

  /** A click on submit run to completion with the data service answering `lookup` and `insert`; the busy flag always ends cleared. */
  function SubmitFlow(s: State, lookup: LookupOutcome, insert: InsertOutcome): (r: Flow)
    ensures !CanSubmit(s) ==> r == Flow(s, [])
    ensures CanSubmit(s) && !Acceptable(s.form) ==> r == Flow(s.(error := "", errors := Validate(s.form)), [])
    ensures !s.isSubmitting ==> !r.state.isSubmitting
  {
    var first := Submit(s);
    if first.request.None? then Flow(first.state, [])
    else
      assert first.state.pending == AwaitingLookup(s.form);
      var second := Answer(first.state, first.request.value, lookup, insert);
      if second.request.None? then Flow(second.state, [first.request.value])
      else
        assert second.state.pending.AwaitingInsert?;
        var third := Answer(second.state, second.request.value, lookup, insert);
        Flow(third.state, [first.request.value, second.request.value])
  }

  /** A lookup that does not find the PIN ends the submission with an error message and no insert; the form is kept. */
  lemma RejectedPinInsertsNothing(s: State, lookup: LookupOutcome, insert: InsertOutcome)
    requires !s.isSubmitting && Acceptable(s.form) && lookup != PinFound
    ensures var r := SubmitFlow(s, lookup, insert);
      && r.requests == [PinLookup(s.form.pin)]
      && r.state.error == (if lookup.LookupThrew? then lookup.message else InvalidInvitation)
      && r.state.form == s.form && r.state.submitted == s.submitted
      && r.state.pending.Idle?
  {
  }

  /** With the PIN found, the row built from the form is inserted; success empties the form, failure keeps it and shows the service's message. */
  lemma FoundPinIsInserted(s: State, insert: InsertOutcome)
    requires !s.isSubmitting && Acceptable(s.form)
    ensures var r := SubmitFlow(s, PinFound, insert);
      && r.requests == [PinLookup(s.form.pin), Insert(ToRow(s.form))]
      && r.state.pending.Idle?
      && (insert.Inserted? ==> r.state.submitted && r.state.form == Blank && r.state.error == "")
      && (insert.InsertFailed? ==>
            r.state.error == insert.message && r.state.form == s.form && r.state.submitted == s.submitted)
  {
  }
}
