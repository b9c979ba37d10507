/**
 * What a submission sends to the data service and what comes back. The two
 * network calls (the `valid_pins` lookup and the `rsvps` insert) are not
 * performed: a component issues a `Request`, and the service's answer arrives
 * later as an outcome value.
 */
module Submission {
  import opened Wrappers
  import opened JsText
  import opened Form

  /** The row inserted into `rsvps` (its `submitted_at` timestamp is not modelled). */
  datatype RsvpRow = RsvpRow(pinUsed: JsString, name: JsString, attending: bool, message: Option<JsString>)

  /** What the PIN check reported. */
  datatype LookupOutcome =
    | PinFound                       // a matching row came back
    | PinNotFound                    // no row, or no matching row
    | LookupError                    // the query returned an error value
    | LookupThrew(message: string)   // the awaited call threw

  /** What the insert reported; a returned error and a thrown one are handled alike by both components. */
  datatype InsertOutcome = Inserted | InsertFailed(message: string)

  /**
   * A call to the data service. `PinLookup` asks for the active row with this
   * PIN; `PinListFetch` reads the whole PIN table, which the caller then
   * searches for the PIN itself.
   */
  datatype Request = PinLookup(pin: JsString) | PinListFetch | Insert(row: RsvpRow)

  /** Where a suspended `handleSubmit` is waiting, with the form it captured when it started. */
  datatype Pending = Idle | AwaitingLookup(snapshot: FormData) | AwaitingInsert(row: RsvpRow)

  /**
   * The inserted row: `pin_used: pin`, `name: name.trim()`,
   * `attending: attending === 'yes'`, `message: message.trim() || null`.
   */
  function ToRow(f: FormData): (r: RsvpRow)
    ensures r.pinUsed == f.pin
    ensures r.name == Trim(f.name)
    ensures r.attending <==> f.attending == Yes
    ensures r.message.None? <==> AllTrimSpace(f.message)
    ensures r.message.Some? ==> r.message.value == Trim(f.message) && r.message.value != []
  {
    var m := Trim(f.message);
    RsvpRow(f.pin, Trim(f.name), f.attending == Yes, if m == [] then None else Some(m))
  }

  /** What a row built from a validated form looks like: four-digit PIN, trimmed name of two or more, trimmed non-empty message if any. */
  predicate WellFormedRow(r: RsvpRow) {
    && FourDigitPin(r.pinUsed)
    && |r.name| >= 2 && Trim(r.name) == r.name
    && (r.message.Some? ==> r.message.value != [] && Trim(r.message.value) == r.message.value)
  }

  /** Only well-formed rows are built from a form that passed validation. */
  lemma AcceptableFormGivesWellFormedRow(f: FormData)
    requires Acceptable(f)
    ensures WellFormedRow(ToRow(f))
  {
    TrimIdempotent(f.name);
    TrimIdempotent(f.message);
  }
}
