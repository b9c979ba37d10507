/**
 * The form state both RSVP components keep: four text fields and a map from
 * field name to the message shown under it.
 */
module Form {
  import opened JsText

  datatype Field = Pin | Name | Attending | Message

  datatype FormData = FormData(pin: JsString, name: JsString, attending: JsString, message: JsString)
  {
    /** `formData[field]`. */
    function Get(f: Field): JsString {
      match f
      case Pin => pin
      case Name => name
      case Attending => attending
      case Message => message
    }

    /** `{ ...prev, [field]: value }`: only the named field changes. */
    function Set(f: Field, v: JsString): (r: FormData)
      ensures r.Get(f) == v
      ensures forall g :: g != f ==> r.Get(g) == Get(g)
    {
      match f
      case Pin => this.(pin := v)
      case Name => this.(name := v)
      case Attending => this.(attending := v)
      case Message => this.(message := v)
    }
  }

  /** `{ pin: '', name: '', attending: '', message: '' }`. */
  const Blank := FormData([], [], [], [])

  /** The value the "yes" attendance button stores; the other button stores "no". */
  const Yes: JsString := Lit("yes")

  /** `errors`: a missing key and a key mapped to "" both show nothing. */
  type ErrorMap = map<Field, string>

  /**
   * `if (errors[field]) setErrors(prev => ({ ...prev, [field]: '' }))`: a
   * shown message for the edited field is blanked in place; the key stays.
   */
  function BlankError(errors: ErrorMap, f: Field): (r: ErrorMap)
    ensures r.Keys == errors.Keys
    ensures f in r ==> r[f] == ""
    ensures forall g :: g in r && g != f ==> r[g] == errors[g]
  {
    if f in errors && errors[f] != "" then errors[f := ""] else errors
  }

  /** Number of code units a PIN has. */
  const PinLength: nat := 4

  /** `/^\d{4}$/.test(pin)`: exactly four code units, each `0`–`9` (`$` without `m` matches only at the end). */
  predicate FourDigitPin(pin: JsString) {
    |pin| == PinLength && AllDigits(pin)
  }

  /** The condition both validators accept: a four-digit PIN, a name of two or more after trimming, a chosen attendance. */
  predicate Acceptable(f: FormData) {
    FourDigitPin(f.pin) && |Trim(f.name)| >= 2 && f.attending != []
  }

  /**
   * The browser's constraint validation: the PIN and name inputs carry
   * `required` and the forms do not set `noValidate`, so the `submit` event
   * fires only when neither value is the empty string.
   */
  predicate RequiredFilled(f: FormData) {
    f.pin != [] && f.name != []
  }

  /** Every form the validators accept gets past the browser's check, so that check never hides an acceptable form. */
  lemma AcceptableIsFilled(f: FormData)
    requires Acceptable(f)
    ensures RequiredFilled(f)
  {
  }
}
