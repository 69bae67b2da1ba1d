# Login page state machine

A model of the client-side login page of `app/page.tsx`. The page keeps three pieces of state:

- the form data: the two raw input values `emailOrUsername` and `password`;
- the error map: field name to error text;
- the status message: either none or a `{type, text}` banner.

Three events change that state:

- **Change.** Typing into an input stores the raw value. It blanks that field's error, but only if the error is currently shown.
- **Submit.** Submitting runs the validator. The validator rebuilds the error map from scratch: a field gets its fixed text exactly when its trimmed value is empty. When the map has no keys, the page shows the success message "Welcome back! Successfully logged in as " followed by the untrimmed identifier, and schedules a reset.
- **Reset.** The deferred reset empties both fields and hides the message. It leaves the errors alone.

While a message is shown, the inputs and the button are disabled. The model treats that as a guard: Change and Submit cannot occur in that state.

The project has four modules:

- `JsString` (`js_string.dfy`): JavaScript's `trim`, over the white-space set that ECMAScript defines. It proves that `trim` removes exactly the blank margins of a string, and that `!s.trim()` holds exactly when `s` is white space only.
- `LoginModel` (`login_model.dfy`):
  - the state as values (`FormData`, `ErrorMap`, `Message`, `PageState`);
  - the spread updaters `WithField` and `ClearedOnEdit`;
  - the validator's map `NewErrors`;
  - a pure `Step(state, event)`, which returns `None` when the event is disabled; `Run` applies a sequence of events;
  - the invariant `Inv` of the reachable states.
- `LoginComponent` (`login_page.dfy`): the component as a class `LoginPage`. It has the three state fields and a `resetPending` flag that stands for the scheduled `setTimeout` callback. Each handler updates the fields in place and is proved to perform `Step` and to keep `Inv`.
- `LoginProperties` (`login_properties.dfy`): lemmas about `Step` and `Run`:
  - the effect of each event;
  - the invariant holds in every reachable state;
  - the message is only ever a success message;
  - the reset returns the page to its initial state;
  - the form is frozen while a message is shown;
  - white-space input is stored verbatim but rejected;
  - concrete runs: an empty submit, a submit without the identifier, and "alice" / "x" logging in.

The source names the identifier field `emailOrUsername`. The model uses that name, and uses the input `name` attributes as the error-map keys. The model keeps the source's two ways of saying "no error": a key set to `""` after an edit, and a key that is absent after validation. It does not normalise them into one.

## Model

| member | source | states |
|---|---|---|
| JsString.TrimStartDropsBlankPrefix | app/page.tsx:36 | trimming the start keeps a suffix, drops only white space, and what is kept does not start with white space |
| JsString.TrimEndDropsBlankSuffix | app/page.tsx:39 | trimming the end keeps a prefix, drops only white space, and what is kept does not end with white space |
| JsString.TrimIsSlice | app/page.tsx:36 | `trim` returns the slice between two blank margins, with no white space at either end |
| JsString.TrimmedEmptyIffBlank | app/page.tsx:39 | `!s.trim()` holds exactly when every character of `s` is white space |
| LoginModel.WithField | app/page.tsx:20-23 | the spread update writes the value into the named field and leaves the other field unchanged |
| LoginModel.ClearedOnEdit | app/page.tsx:25-30 | after an edit no error is shown for the field; the map has the same keys, the field's entry is `""` if present, and every other entry is kept |
| LoginModel.NewErrors | app/page.tsx:33-44 | a field has an entry, with its fixed text, exactly when its trimmed value is empty; there are no other keys; the map is empty exactly when both fields are present |
| LoginModel.Submitted | app/page.tsx:47-66 | a submit keeps the form data and replaces the errors with the validator's map; that map is empty exactly when neither trimmed field is empty, and then the welcome message for the raw identifier is set and the reset scheduled; otherwise the message and the pending reset are unchanged |
| LoginModel.Step | app/page.tsx:18-134 | the page's three events (the change handler at lines 18-31, `handleSubmit` at 47-66 through `Submitted`, the reset callback at 58-64); an event occurs exactly when it is enabled, which for Change and Submit means the `disabled={message !== null}` guard at lines 106, 124 and 134 lets it through, and for the reset means it has been scheduled |
| LoginComponent.LoginPage.constructor | app/page.tsx:10-16 | the initial state: empty fields, no errors, no message, no reset pending |
| LoginComponent.LoginPage.HandleChange | app/page.tsx:18-31 | performs the Change step: the field takes the raw value, its error is blanked if shown, the message is unchanged, and the invariant is kept |
| LoginComponent.LoginPage.ValidateForm | app/page.tsx:33-45 | stores the validator's map in place, and returns true exactly when neither trimmed field is empty |
| LoginComponent.LoginPage.HandleSubmit | app/page.tsx:47-66 | performs the Submit step: form data unchanged, errors replaced; on success the welcome message for the raw identifier is set and the reset scheduled; otherwise the message is unchanged |
| LoginComponent.LoginPage.FireReset | app/page.tsx:58-64 | performs the reset: empty fields, no message, errors untouched, so the page is back in its initial state |
| LoginProperties.NewErrorsBlank | app/page.tsx:36-44 | the validator reports a field exactly when its raw value is white space only, and its map is empty exactly when neither field is |
| LoginProperties.OnlyIdentifierMissing | app/page.tsx:36-41 | with a blank identifier and a filled password, the map holds exactly the identifier's entry |
| LoginProperties.ChangeEffect | app/page.tsx:18-31 | a change writes the raw value into its field only; it blanks that field's error, adds no key, and keeps the other entries, the message and the pending reset |
| LoginProperties.SubmitEffect | app/page.tsx:47-56 | a submit keeps the form data and replaces the errors wholesale; it succeeds exactly when neither field is blank, and then sets the success message for the untrimmed identifier |
| LoginProperties.SubmitAccepted | app/page.tsx:50-55 | a submit with both fields filled in clears the errors, sets the success message and schedules the reset |
| LoginProperties.SubmitRejected | app/page.tsx:50-65 | a submit with a blank field changes only the errors |
| LoginProperties.TimerFireEffect | app/page.tsx:58-63 | the reset empties both fields and hides the message, and does not touch the errors |
| LoginProperties.StepPreservesInv | app/page.tsx:18-66 | every enabled event keeps the invariant |
| LoginProperties.RunPreservesInv | app/page.tsx:18-66 | every run of events keeps the invariant |
| LoginProperties.ReachableInv | app/page.tsx:10-66 | every state reachable from the initial page satisfies the invariant |
| LoginProperties.MessageIsOnlySuccess | app/page.tsx:16-64 | on a reachable page a shown message always has type success and the welcome text for the current raw identifier, and the reset is pending |
| LoginProperties.ShownErrorsAreAccurate | app/page.tsx:25-41 | on a reachable page a shown error is the field's fixed text, and the field's current value is still white space only |
| LoginProperties.ResetRestoresInit | app/page.tsx:58-64 | on a reachable page the reset can fire only while a message is shown, and it restores the initial state |
| LoginProperties.FrozenUntilReset | app/page.tsx:106-134 | on a reachable page that shows a message, the only event that can occur is the reset, so the form data cannot change until it fires; the reset then restores the initial page |
| LoginProperties.BlankInputStoredButRejected | app/page.tsx:19-41 | white-space-only input is stored verbatim, and the next submit fails with the field's fixed error |
| LoginProperties.SubmitEmptyForm | app/page.tsx:33-45 | submitting the untouched form records both fixed errors and shows no message |
| LoginProperties.MissingIdentifierRun | app/page.tsx:33-45 | typing a non-blank password and submitting records only the identifier's error |
| LoginProperties.SubmitWithoutIdentifier | app/page.tsx:33-45 | the same run with the password "x" |
| LoginProperties.LoginRun | app/page.tsx:47-64 | filling in both fields and submitting gives no errors, the welcome message for the identifier as typed and a pending reset; the reset then returns to the initial page |
| LoginProperties.AliceLogsIn | app/page.tsx:52-55 | "alice" / "x" logs in with the text "Welcome back! Successfully logged in as alice" |

## Left out

- Rendering (app/page.tsx:68-146): the JSX markup, the CSS class choices and the header and footer text are presentation. The model keeps only the `disabled={message !== null}` guard.
- The `Button` and `Input` primitives from `@/components/ui`: their source is not part of this model, so they are treated as ordinary controls that raise change and submit events.
- React hook semantics: the model does not capture `useState` batching, re-render timing, the stale closure reads of `errors` and `formData`, or `e.preventDefault()`. Each handler is one atomic step on the state.
- Change events: these are modelled for the two inputs of the form only. The model does not capture writes through other `name` values.
- The 3000 ms delay of `setTimeout`: this is modelled as an explicit reset event, enabled by the `resetPending` flag. The model does not capture wall-clock time, or the orphaned timer that fires after the component unmounts.
- JsString.IsWhiteSpace: it follows ECMAScript's WhiteSpace and LineTerminator sets as of current Unicode. The set of space separators depends on the Unicode version of the JavaScript engine.
- Strings are modelled as sequences of Unicode scalar values, while JavaScript strings, including input values, are sequences of UTF-16 code units. A raw value holding a lone surrogate has no counterpart in the model. Whether the trimmed value is empty does not depend on this, because every ECMAScript white-space character lies in the Basic Multilingual Plane and is not a surrogate.
