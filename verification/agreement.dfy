/** How the two RSVP components relate to each other. */
module Agreement {
  import opened Wrappers
  import opened JsText
  import opened PinInput
  import opened Form
  import HeroRsvp
  import RsvpForm

  /** The two validators flag the same fields on every form; only their messages differ. */
  lemma ValidatorsFlagSameFields(f: FormData)
    ensures HeroRsvp.Validate(f).Keys == RsvpForm.Validate(f).Keys
    ensures HeroRsvp.Validate(f) == map[] <==> RsvpForm.Validate(f) == map[]
  {
  }

  /** A PIN that went through the form's input filter never draws the modal's "only numbers" message. */
  lemma FilteredPinIsNeverNonNumeric(v: JsString)
    ensures HeroRsvp.PinError(Sanitize(v)) != Some(HeroRsvp.PinNotNumeric)
  {
  }
}
