/** The state of the login page and its three events as values: the form
    fields, the error map, the status message and whether the deferred reset
    has been scheduled, with a pure step function that the class in
    LoginComponent is proved against. */
module LoginModel {
  import opened JsString

  datatype Option<T> = None | Some(value: T)

  /** The two inputs of the form. */
  datatype Field = EmailOrUsername | Password

  /** The `name` attribute of a field's input, which is also its key in the
      error map. */
  function Key(f: Field): string {
    match f
    case EmailOrUsername => "emailOrUsername"
    case Password => "password"
  }

  /** The fixed text recorded for a field whose trimmed value is empty. */
  function RequiredMessage(f: Field): string {
    match f
    case EmailOrUsername => "Email or username is required"
    case Password => "Password is required"
  }

  const WelcomePrefix: string := "Welcome back! Successfully logged in as "

  /** The raw values of the two inputs. */
  datatype FormData = FormData(emailOrUsername: string, password: string)

  const EmptyForm: FormData := FormData("", "")

  function Value(fd: FormData, f: Field): string {
    match f
    case EmailOrUsername => fd.emailOrUsername
    case Password => fd.password
  }

  /** The spread update `{...prev, [name]: value}` on the form data. */
  function WithField(fd: FormData, f: Field, v: string): (r: FormData)
    ensures Value(r, f) == v
    ensures forall g :: g != f ==> Value(r, g) == Value(fd, g)
  {
    match f
    case EmailOrUsername => fd.(emailOrUsername := v)
    case Password => fd.(password := v)
  }

  /** Field name to error text. */
  type ErrorMap = map<string, string>

  /** `errors[name]` is truthy: the entry exists and is not "". */
  predicate ErrorShown(errors: ErrorMap, f: Field) {
    Key(f) in errors && errors[Key(f)] != ""
  }

  /** The error map after the user edits field `f`: its entry is blanked only
      if it was shown, so no key is added and every other entry is kept. */
  function ClearedOnEdit(errors: ErrorMap, f: Field): (r: ErrorMap)
    ensures r.Keys == errors.Keys
    ensures !ErrorShown(r, f)
    ensures Key(f) in r ==> r[Key(f)] == ""
    ensures forall k :: k in errors && k != Key(f) ==> r[k] == errors[k]
  {
    if ErrorShown(errors, f) then errors[Key(f) := ""] else errors
  }

  /** `!s.trim()`: the value counts as missing. */
  predicate Missing(s: string) {
    Trim(s) == ""
  }

  /** The only keys the error map ever holds. */
  const FieldKeys: set<string> := {Key(EmailOrUsername), Key(Password)}

  /** The validator's verdict on one field: an entry with the field's fixed
      text exactly when the field is missing. */
  predicate ErrorsFor(fd: FormData, errors: ErrorMap, f: Field) {
    && (Key(f) in errors <==> Missing(Value(fd, f)))
    && (Key(f) in errors ==> errors[Key(f)] == RequiredMessage(f))
  }

  /** The map the validator builds from scratch: a field has an entry, with
      its fixed text, exactly when it is missing, and there are no other
      keys; so the map has no keys exactly when both fields are present. */
  function NewErrors(fd: FormData): (r: ErrorMap)
    ensures ErrorsFor(fd, r, EmailOrUsername) && ErrorsFor(fd, r, Password)
    ensures r.Keys <= FieldKeys
    ensures r == map[] <==> !Missing(fd.emailOrUsername) && !Missing(fd.password)
  {
    var withEmail: ErrorMap :=
      if Missing(fd.emailOrUsername) then map[Key(EmailOrUsername) := RequiredMessage(EmailOrUsername)]
      else map[];
    var r := if Missing(fd.password) then withEmail[Key(Password) := RequiredMessage(Password)]
             else withEmail;
    assert Key(EmailOrUsername) in r ==> r != map[];
    assert Key(Password) in r ==> r != map[];
    r
  }

  datatype MessageType = Success | Error

  /** The status banner above the form. */
  datatype Message = Message(kind: MessageType, text: string)

  /** The component's state; `resetPending` records that the deferred reset
      has been scheduled and has not yet run. */
  datatype PageState = PageState(
    formData: FormData,
    errors: ErrorMap,
    message: Option<Message>,
    resetPending: bool)

  const Init: PageState := PageState(EmptyForm, map[], None, false)

  datatype Event =
    | Change(field: Field, value: string)  // a change event on an input
    | Submit                               // the form is submitted
    | TimerFire                            // the deferred reset runs

  /** Inputs and button are disabled while a message is shown; the reset can
      only run once it has been scheduled. */
  predicate Enabled(s: PageState, e: Event) {
    match e
    case Change(_, _) => s.message.None?
    case Submit => s.message.None?
    case TimerFire => s.resetPending
  }

  /** handleSubmit: the errors are replaced by the validator's map; when it is
      empty the success message is shown, built from the raw identifier, and
      the reset is scheduled. */
  function Submitted(s: PageState): (r: PageState)
    ensures r.formData == s.formData
    ensures r.errors == NewErrors(s.formData)
    ensures r.errors == map[] <==> !Missing(s.formData.emailOrUsername) && !Missing(s.formData.password)
    ensures r.errors == map[] ==>
              r.message == Some(Message(Success, WelcomePrefix + s.formData.emailOrUsername)) && r.resetPending
    ensures r.errors != map[] ==> r.message == s.message && r.resetPending == s.resetPending
  {
    var newErrors := NewErrors(s.formData);
    if newErrors == map[] then  // Object.keys(newErrors).length === 0
      s.(errors := newErrors,
         message := Some(Message(Success, WelcomePrefix + s.formData.emailOrUsername)),
         resetPending := true)
    else
      s.(errors := newErrors)
  }

  /** One event on the page; None when the event cannot occur. */
  function Step(s: PageState, e: Event): (r: Option<PageState>)
    ensures r.Some? <==> Enabled(s, e)
  {
    if !Enabled(s, e) then None
    else
      match e
      case Change(f, v) =>
        Some(s.(formData := WithField(s.formData, f, v), errors := ClearedOnEdit(s.errors, f)))
      case Submit => Some(Submitted(s))
      case TimerFire => Some(s.(formData := EmptyForm, message := None, resetPending := false))
  }

  /** A sequence of events from `s`; None as soon as one cannot occur. */
  function Run(s: PageState, events: seq<Event>): Option<PageState>
    decreases |events|
  {
    if events == [] then Some(s)
    else
      match Step(s, events[0])
      case None => None
      case Some(t) => Run(t, events[1..])
  }

  ghost predicate Reachable(s: PageState) {
    exists events :: Run(Init, events) == Some(s)
  }

  /** A shown error for `f` is the field's fixed text and still true of the
      field's current value. */
  predicate ShownErrorAccurate(s: PageState, f: Field) {
    ErrorShown(s.errors, f) ==> s.errors[Key(f)] == RequiredMessage(f) && Missing(Value(s.formData, f))
  }

  /** What holds of every state the page can reach: a shown message is always
      the success message for the current identifier, with both fields
      present, no errors and the reset scheduled; the error map only holds the
      two field keys, and every error that is shown is accurate. */
  ghost predicate Inv(s: PageState) {
    && (s.message.Some? <==> s.resetPending)
    && (s.message.Some? ==>
          && s.message.value == Message(Success, WelcomePrefix + s.formData.emailOrUsername)
          && s.errors == map[]
          && !Missing(s.formData.emailOrUsername) && !Missing(s.formData.password))
    && s.errors.Keys <= FieldKeys
    && ShownErrorAccurate(s, EmailOrUsername)
    && ShownErrorAccurate(s, Password)
  }
}
