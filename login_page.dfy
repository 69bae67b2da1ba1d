/** The login page component: the three pieces of React state as fields,
    overwritten in place by the event handlers, plus a flag for the deferred
    reset callback that a successful submit schedules. Each handler is one
    atomic step and is proved to perform LoginModel.Step. */
module LoginComponent {
  import opened JsString
  import opened LoginModel
  import LoginProperties

  class LoginPage {
    var formData: FormData
    var errors: ErrorMap
    var message: Option<Message>
    var resetPending: bool

    function State(): PageState
      reads this
    {
      PageState(formData, errors, message, resetPending)
    }

    ghost predicate Valid()
      reads this
    {
      Inv(State())
    }

    /** The initial `useState` values. */
    constructor ()
      ensures Valid()
      ensures State() == Init
    {
      formData := EmptyForm;
      errors := map[];
      message := None;
      resetPending := false;
    }

    /** handleChange: store the raw value and blank the field's error if it is
        shown. Edits are impossible while a message is shown (disabled input). */
    method HandleChange(f: Field, value: string)
      requires Valid()
      requires message.None?
      modifies this
      ensures Valid()
      ensures Some(State()) == Step(old(State()), Change(f, value))
      ensures formData == WithField(old(formData), f, value)
      ensures errors == ClearedOnEdit(old(errors), f)
      ensures message == old(message) && resetPending == old(resetPending)
    {
      formData := WithField(formData, f, value);
      if ErrorShown(errors, f) {
        errors := errors[Key(f) := ""];
      }
    }

    /** validateForm: build the error map from scratch, store it, and report
        whether it has no keys. */
    method ValidateForm() returns (valid: bool)
      modifies this`errors
      ensures errors == NewErrors(formData)
      ensures valid <==> !Missing(formData.emailOrUsername) && !Missing(formData.password)
    {
      var newErrors: ErrorMap := map[];
      if Trim(formData.emailOrUsername) == "" {
        newErrors := newErrors[Key(EmailOrUsername) := RequiredMessage(EmailOrUsername)];
      }
      if Trim(formData.password) == "" {
        newErrors := newErrors[Key(Password) := RequiredMessage(Password)];
      }
      errors := newErrors;
      valid := newErrors == map[];  // Object.keys(newErrors).length === 0
    }

    /** handleSubmit: validate; on success show the welcome message for the
        raw identifier and schedule the reset. Impossible while a message is
        shown (disabled button). */
    method HandleSubmit()
      requires Valid()
      requires message.None?
      modifies this
      ensures Valid()
      ensures Some(State()) == Step(old(State()), Submit)
      ensures formData == old(formData)
      ensures errors == NewErrors(old(formData))
      ensures errors == map[] ==>
                message == Some(Message(Success, WelcomePrefix + old(formData).emailOrUsername))
                && resetPending
      ensures errors != map[] ==> message == old(message) && resetPending == old(resetPending)
    {
      ghost var before := State();
      var valid := ValidateForm();
      if valid {
        message := Some(Message(Success, WelcomePrefix + formData.emailOrUsername));
        resetPending := true;
      }
      assert State() == Submitted(before);
      LoginProperties.StepPreservesInv(before, Submit);
    }

    /** The callback passed to setTimeout: empty both fields and hide the
        message, leaving the errors alone. */
    method FireReset()
      requires Valid()
      requires resetPending
      modifies this
      ensures Valid()
      ensures Some(State()) == Step(old(State()), TimerFire)
      ensures formData == EmptyForm && message.None? && !resetPending
      ensures errors == old(errors)
      ensures State() == Init
    {
      formData := EmptyForm;
      message := None;
      resetPending := false;
    }
  }
}
