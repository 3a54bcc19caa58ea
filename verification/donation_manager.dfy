/** The restaurant's donation form: the expiry suggestion offered when the
    food type changes, applying it, and the reset after a successful post. */
module DonationManager {
  import opened Wrappers

  const HourMs: int := 3600000
  const MinuteMs: int := 60000

  /** Hours a food type keeps: 4 for cooked, 24 for non-veg, 48 for anything else. */
  function ShelfLifeHours(foodType: string): (h: nat)
    ensures foodType == "cooked" ==> h == 4
    ensures foodType == "non-veg" ==> h == 24
    ensures foodType != "cooked" && foodType != "non-veg" ==> h == 48
  {
    if foodType == "cooked" then 4 else if foodType == "non-veg" then 24 else 48
  }

  datatype Urgency = High | Medium

  /** A form value: text typed by the user, or the suggested expiry, which the
      form holds as the ISO timestamp cut to the minute. */
  datatype FormValue = Text(s: string) | Stamp(minute: int)

  datatype Suggestion = Suggestion(hours: nat, urgency: Urgency, expiry: FormValue)

  /** The suggestion for a food type chosen at `now`. */
  function Suggest(foodType: string, now: int): (s: Suggestion)
    ensures s.hours == ShelfLifeHours(foodType)
    ensures s.urgency == High <==> s.hours < 6
    ensures s.expiry.Stamp?
    ensures s.expiry.minute % MinuteMs == 0
    ensures now + s.hours * HourMs - MinuteMs < s.expiry.minute <= now + s.hours * HourMs
  {
    var hours := ShelfLifeHours(foodType);
    var at := now + hours * HourMs;
    Suggestion(hours, if hours < 6 then High else Medium, Stamp(at - at % MinuteMs))
  }

  /** Only cooked food is suggested as high urgency. */
  lemma HighOnlyForCooked(foodType: string, now: int)
    ensures Suggest(foodType, now).urgency == High <==> foodType == "cooked"
  {
  }

  /** The form, field name to value. */
  type Form = map<string, FormValue>

  const EmptyForm: Form := map[
    "title" := Text(""), "foodType" := Text("veg"), "quantity" := Text(""),
    "expiryDate" := Text(""), "description" := Text("")]

  /** One input change: the field takes the typed value; the suggestion is
      recomputed when the field is `foodType` and kept otherwise. */
  function OnInput(form: Form, suggestion: Option<Suggestion>, name: string, value: string, now: int)
    : (r: (Form, Option<Suggestion>))
    ensures r.0 == form[name := Text(value)]
    ensures name == "foodType" ==> r.1 == Some(Suggest(value, now))
    ensures name != "foodType" ==> r.1 == suggestion
  {
    (form[name := Text(value)], if name == "foodType" then Some(Suggest(value, now)) else suggestion)
  }

  /** Copies the suggested expiry into the form and clears the suggestion; no
      suggestion, no change. */
  function ApplySuggestion(form: Form, suggestion: Option<Suggestion>): (r: (Form, Option<Suggestion>))
    ensures suggestion.None? ==> r == (form, suggestion)
    ensures suggestion.Some? ==> r.0 == form["expiryDate" := suggestion.value.expiry] && r.1.None?
  {
    match suggestion
    case None => (form, None)
    case Some(s) => (form["expiryDate" := s.expiry], None)
  }

  /** Applying twice is applying once. */
  lemma ApplyOnce(form: Form, suggestion: Option<Suggestion>)
    ensures var once := ApplySuggestion(form, suggestion);
      ApplySuggestion(once.0, once.1) == once
  {
  }

  /** After a successful post the form is reset; a failed post keeps it. */
  function AfterSubmit(form: Form, posted: bool): (r: Form)
    ensures posted ==> r == EmptyForm && r["foodType"] == Text("veg")
    ensures !posted ==> r == form
  {
    if posted then EmptyForm else form
  }
}
