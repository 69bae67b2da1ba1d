/** Properties of the login page's state machine: what each event does, the
    invariant every reachable state keeps, and concrete runs. */
module LoginProperties {
  import opened JsString
  import opened LoginModel

  /** The validator in terms of content: a field is reported exactly when its
      raw value is white space only, and submission can succeed exactly when
      neither field is. */
  lemma NewErrorsBlank(fd: FormData)
    ensures Key(EmailOrUsername) in NewErrors(fd) <==> IsBlank(fd.emailOrUsername)
    ensures Key(Password) in NewErrors(fd) <==> IsBlank(fd.password)
    ensures NewErrors(fd) == map[] <==> !IsBlank(fd.emailOrUsername) && !IsBlank(fd.password)
  {
    TrimmedEmptyIffBlank(fd.emailOrUsername);
    TrimmedEmptyIffBlank(fd.password);
  }

  /** A change stores the raw value in its field only, blanks that field's
      error if shown, and leaves the other field, the other errors and the
      message alone. */
  lemma ChangeEffect(s: PageState, f: Field, v: string)
    requires s.message.None?
    ensures Step(s, Change(f, v)).Some?
    ensures var t := Step(s, Change(f, v)).value;
      && Value(t.formData, f) == v
      && (forall g :: g != f ==> Value(t.formData, g) == Value(s.formData, g))
      && t.errors.Keys == s.errors.Keys
      && !ErrorShown(t.errors, f)
      && (forall k :: k in s.errors && k != Key(f) ==> t.errors[k] == s.errors[k])
      && t.message == s.message && t.resetPending == s.resetPending
  {
  }

  /** A submit keeps the form data and replaces the errors wholesale; it
      succeeds exactly when neither field is blank, and then shows the
      success message for the untrimmed identifier; otherwise the message is
      left as it was. */
  lemma SubmitEffect(s: PageState)
    requires s.message.None?
    ensures Step(s, Submit).Some?
    ensures var t := Step(s, Submit).value;
      && t.formData == s.formData
      && t.errors == NewErrors(s.formData)
      && (t.message.Some? <==> !IsBlank(s.formData.emailOrUsername) && !IsBlank(s.formData.password))
      && (t.message.Some? ==>
            t.message.value == Message(Success, WelcomePrefix + s.formData.emailOrUsername) && t.resetPending)
      && (t.message.None? ==> t.resetPending == s.resetPending)
  {
    NewErrorsBlank(s.formData);
  }

  /** A submit with both fields filled in clears the errors, shows the
      success message for the raw identifier and schedules the reset. */
  lemma SubmitAccepted(s: PageState)
    requires s.message.None?
    requires !IsBlank(s.formData.emailOrUsername) && !IsBlank(s.formData.password)
    ensures Step(s, Submit) == Some(s.(errors := map[],
      message := Some(Message(Success, WelcomePrefix + s.formData.emailOrUsername)), resetPending := true))
  {
    NewErrorsBlank(s.formData);
  }

  /** A submit with a blank field only replaces the errors. */
  lemma SubmitRejected(s: PageState)
    requires s.message.None?
    requires IsBlank(s.formData.emailOrUsername) || IsBlank(s.formData.password)
    ensures Step(s, Submit) == Some(s.(errors := NewErrors(s.formData)))
  {
    NewErrorsBlank(s.formData);
  }

  /** The reset empties both fields and hides the message, and does not touch
      the errors. */
  lemma TimerFireEffect(s: PageState)
    requires s.resetPending
    ensures Step(s, TimerFire) == Some(s.(formData := EmptyForm, message := None, resetPending := false))
    ensures Step(s, TimerFire).value.errors == s.errors
  {
  }

  lemma StepPreservesInv(s: PageState, e: Event)
    requires Inv(s)
    requires Step(s, e).Some?
    ensures Inv(Step(s, e).value)
  {
  }

  lemma {:induction false} RunPreservesInv(s: PageState, events: seq<Event>)
    requires Inv(s)
    requires Run(s, events).Some?
    ensures Inv(Run(s, events).value)
    decreases |events|
  {
    if events != [] {
      StepPreservesInv(s, events[0]);
      RunPreservesInv(Step(s, events[0]).value, events[1..]);
    }
  }

  lemma ReachableInv(s: PageState)
    requires Reachable(s)
    ensures Inv(s)
  {
    var events :| Run(Init, events) == Some(s);
    RunPreservesInv(Init, events);
  }

  /** The message type Error is never produced: whenever a message is shown
      it is the success message for the current raw identifier, and the reset
      is pending. */
  lemma MessageIsOnlySuccess(s: PageState)
    requires Reachable(s)
    requires s.message.Some?
    ensures s.message.value.kind == Success
    ensures s.message.value.text == WelcomePrefix + s.formData.emailOrUsername
    ensures s.resetPending
  {
    ReachableInv(s);
  }

  /** A shown error on a reachable page is the field's fixed text, and the
      field's current value is still white space only. */
  lemma ShownErrorsAreAccurate(s: PageState, f: Field)
    requires Reachable(s)
    requires ErrorShown(s.errors, f)
    ensures s.errors[Key(f)] == RequiredMessage(f)
    ensures IsBlank(Value(s.formData, f))
  {
    ReachableInv(s);
    TrimmedEmptyIffBlank(Value(s.formData, f));
  }

  /** The reset is only possible after a successful submit; since the errors
      were then empty, it returns the page to its initial state. */
  lemma ResetRestoresInit(s: PageState)
    requires Reachable(s)
    requires Step(s, TimerFire).Some?
    ensures s.message.Some?
    ensures Step(s, TimerFire) == Some(Init)
  {
    ReachableInv(s);
  }

  /** While a message is shown only the reset can occur, so the form data is
      frozen until it fires, and the first event of any run is the reset that
      brings the page back to its initial state. */
  lemma FrozenUntilReset(s: PageState, events: seq<Event>)
    requires Reachable(s)
    requires s.message.Some?
    requires Run(s, events).Some?
    ensures events == [] || events[0] == TimerFire
    ensures events != [] ==> Step(s, events[0]) == Some(Init)
  {
    if events != [] {
      ResetRestoresInit(s);
    }
  }

  /** Input made of white space only is stored verbatim, yet a submit right
      after it fails with the field's fixed message. */
  lemma BlankInputStoredButRejected(s: PageState, f: Field, v: string)
    requires s.message.None?
    requires IsBlank(v)
    ensures Step(s, Change(f, v)).Some?
    ensures var t := Step(s, Change(f, v)).value;
      && Value(t.formData, f) == v
      && Step(t, Submit).Some?
      && var u := Step(t, Submit).value;
         && u.message.None?
         && Key(f) in u.errors && u.errors[Key(f)] == RequiredMessage(f)
  {
    TrimmedEmptyIffBlank(v);
  }

  /** Runs one event at the head of a sequence. */
  lemma RunThrough(s: PageState, e: Event, rest: seq<Event>, t: PageState)
    requires Step(s, e) == Some(t)
    ensures Run(s, [e] + rest) == Run(t, rest)
  {
    assert ([e] + rest)[1..] == rest;
  }

  /** Submitting the untouched form records both required-field errors and
      shows no message. */
  lemma SubmitEmptyForm()
    ensures Run(Init, [Submit]) == Some(Init.(errors := map[
      "emailOrUsername" := "Email or username is required",
      "password" := "Password is required"]))
  {
    var r := NewErrors(EmptyForm);
    assert Key(EmailOrUsername) in r && Key(Password) in r;
    assert r == map["emailOrUsername" := "Email or username is required", "password" := "Password is required"];
  }

  lemma OnlyIdentifierMissing(fd: FormData)
    requires IsBlank(fd.emailOrUsername) && !IsBlank(fd.password)
    ensures NewErrors(fd) == map[Key(EmailOrUsername) := RequiredMessage(EmailOrUsername)]
  {
    NewErrorsBlank(fd);
    var r := NewErrors(fd);
    assert r.Keys == {Key(EmailOrUsername)};
  }

  /** Filling in only the password and submitting records exactly the
      identifier's error and shows no message. */
  lemma MissingIdentifierRun(pw: string)
    requires !IsBlank(pw)
    ensures Run(Init, [Change(Password, pw), Submit]) ==
      Some(Init.(formData := FormData("", pw),
                 errors := map[Key(EmailOrUsername) := RequiredMessage(EmailOrUsername)]))
  {
    var s1 := Init.(formData := FormData("", pw));
    assert Step(Init, Change(Password, pw)) == Some(s1);
    var r := map[Key(EmailOrUsername) := RequiredMessage(EmailOrUsername)];
    OnlyIdentifierMissing(s1.formData);
    var s2 := s1.(errors := r);
    assert Step(s1, Submit) == Some(s2);
    RunThrough(s1, Submit, [], s2);
    RunThrough(Init, Change(Password, pw), [Submit], s1);
  }

  /** Filling in both fields and submitting logs in: no errors, the welcome
      message for the identifier exactly as typed, the reset pending; the
      reset then restores the initial page. */
  lemma LoginRun(id: string, pw: string)
    requires !IsBlank(id) && !IsBlank(pw)
    ensures Run(Init, [Change(EmailOrUsername, id), Change(Password, pw), Submit]) ==
      Some(PageState(FormData(id, pw), map[], Some(Message(Success, WelcomePrefix + id)), true))
    ensures Run(Init, [Change(EmailOrUsername, id), Change(Password, pw), Submit, TimerFire]) == Some(Init)
  {
    var s1 := Init.(formData := FormData(id, ""));
    var s2 := Init.(formData := FormData(id, pw));
    var s3 := PageState(FormData(id, pw), map[], Some(Message(Success, WelcomePrefix + id)), true);
    assert Step(Init, Change(EmailOrUsername, id)) == Some(s1);
    assert Step(s1, Change(Password, pw)) == Some(s2);
    SubmitAccepted(s2);
    assert Step(s3, TimerFire) == Some(Init);
    RunThrough(s3, TimerFire, [], Init);
    RunThrough(s2, Submit, [], s3);
    RunThrough(s2, Submit, [TimerFire], s3);
    RunThrough(s1, Change(Password, pw), [Submit], s2);
    RunThrough(s1, Change(Password, pw), [Submit, TimerFire], s2);
    RunThrough(Init, Change(EmailOrUsername, id), [Change(Password, pw), Submit], s1);
    RunThrough(Init, Change(EmailOrUsername, id), [Change(Password, pw), Submit, TimerFire], s1);
  }

  /** With only the password "x" the identifier's error alone is recorded. */
  lemma SubmitWithoutIdentifier()
    ensures Run(Init, [Change(Password, "x"), Submit]) ==
      Some(Init.(formData := FormData("", "x"), errors := map["emailOrUsername" := "Email or username is required"]))
  {
    assert !IsWhiteSpace("x"[0]);
    MissingIdentifierRun("x");
  }

  /** "alice" / "x" logs in with the literal welcome text. */
  lemma AliceLogsIn()
    ensures Run(Init, [Change(EmailOrUsername, "alice"), Change(Password, "x"), Submit]) ==
      Some(PageState(FormData("alice", "x"), map[],
                     Some(Message(Success, "Welcome back! Successfully logged in as alice")), true))
  {
    assert !IsWhiteSpace("alice"[0]) && !IsWhiteSpace("x"[0]);
    LoginRun("alice", "x");
    assert WelcomePrefix + "alice" == "Welcome back! Successfully logged in as alice";
  }
}
