/**
 The client-side checks of the sign-up form
 (frontend/src/pages/SignUpPage.jsx). `validateForm` returns `true` or, at
 the first failing check, the value of `toast.error(...)`; `handleSubmit`
 calls `signup` only when the result is exactly `true`.
 */
module SignUpPage {
  import opened ChatTypes
  import opened JsString

  datatype SignUpForm = SignUpForm(fullName: string, email: string, password: string)

  datatype FormError = FullNameRequired | EmailRequired | InvalidEmailFormat | PasswordRequired

  /** The toast text of each error. */
  function ErrorText(e: FormError): string
  {
    match e
    case FullNameRequired => "Full Name is required"
    case EmailRequired => "Email is required"
    case InvalidEmailFormat => "Invalid email format"
    case PasswordRequired => "Password is required"
  }

  /** `true`, or the first error reported. */
  datatype Verdict = Valid | Invalid(error: FormError)

  /** `validateForm()`: the four checks in order, stopping at the first
      failure. The name and the email are trimmed before the emptiness test;
      the email pattern is tested on the untrimmed email; the password is
      not trimmed. */
  function ValidateForm(form: SignUpForm): (r: Verdict)
    ensures r == Valid <==>
              !IsBlank(form.fullName) && !IsBlank(form.email)
              && EmailPatternTest(form.email) && form.password != ""
    ensures r == Invalid(FullNameRequired) <==> IsBlank(form.fullName)
    ensures r == Invalid(EmailRequired) <==> !IsBlank(form.fullName) && IsBlank(form.email)
    ensures r == Invalid(InvalidEmailFormat) <==>
              !IsBlank(form.fullName) && !IsBlank(form.email) && !EmailPatternTest(form.email)
    ensures r == Invalid(PasswordRequired) <==>
              !IsBlank(form.fullName) && !IsBlank(form.email)
              && EmailPatternTest(form.email) && form.password == ""
  {
    TrimEmptyIffBlank(form.fullName);
    TrimEmptyIffBlank(form.email);
    if Trim(form.fullName) == "" then Invalid(FullNameRequired)
    else if Trim(form.email) == "" then Invalid(EmailRequired)
    else if !EmailPatternTest(form.email) then Invalid(InvalidEmailFormat)
    else if form.password == "" then Invalid(PasswordRequired)
    else Valid
  }

  /** `handleSubmit`: the form handed to `signup`, if it is called at all. */
  function HandleSubmit(form: SignUpForm): (signup: Option<SignUpForm>)
    ensures signup.Some? <==>
              !IsBlank(form.fullName) && EmailPatternTest(form.email) && form.password != ""
    ensures signup.Some? ==> signup.value == form
  {
    EmailPatternNotBlank(form.email);
    if ValidateForm(form) == Valid then Some(form) else None
  }

  /** The error toast a submit shows: `validateForm` returns the value of
      `toast.error(text)` at the first failing check, so a submit either
      calls `signup` or shows exactly one of the four texts. */
  function SubmitToast(form: SignUpForm): (toast: Option<string>)
    ensures toast.None? <==> HandleSubmit(form).Some?
    ensures toast == Some("Full Name is required") <==> IsBlank(form.fullName)
    ensures toast == Some("Email is required") <==> !IsBlank(form.fullName) && IsBlank(form.email)
    ensures toast == Some("Invalid email format") <==>
              !IsBlank(form.fullName) && !IsBlank(form.email) && !EmailPatternTest(form.email)
    ensures toast == Some("Password is required") <==>
              !IsBlank(form.fullName) && !IsBlank(form.email)
              && EmailPatternTest(form.email) && form.password == ""
  {
    match ValidateForm(form)
    case Valid => None
    case Invalid(e) => Some(ErrorText(e))
  }

  /** A blank name and a blank email are reported as missing, never as a
      format error, and a password of spaces is accepted. */
  lemma {:induction false} WhitespaceCases()
    ensures ValidateForm(SignUpForm("Ann", " \t ", "pw")) == Invalid(EmailRequired)
    ensures ValidateForm(SignUpForm("   ", "no-at-sign", "")) == Invalid(FullNameRequired)
    ensures ValidateForm(SignUpForm("Ann", "ann@mail.io", "   ")) == Valid
  {
    assert IsBlank(" \t ");
    assert IsBlank("   ");
    assert !IsBlank("Ann") by { assert !IsSpace("Ann"[0]); }
    assert EmailPatternTest("ann@mail.io") by {
      EmailWitness("ann@mail.io", 3, 8);
    }
  }

  /** The pattern is unanchored: an address inside other text passes. */
  lemma {:induction false} EmbeddedAddressAccepted()
    ensures ValidateForm(SignUpForm("Ann", "mail me: a@b.c thanks", "pw")) == Valid
  {
    assert !IsBlank("Ann") by { assert !IsSpace("Ann"[0]); }
    assert !IsBlank("mail me: a@b.c thanks") by { assert !IsSpace("mail me: a@b.c thanks"[0]); }
    EmailWitness("mail me: a@b.c thanks", 10, 12);
  }

  /** A second `@` does not make an address invalid. */
  lemma {:induction false} DoubleAtAccepted()
    ensures ValidateForm(SignUpForm("Ann", "a@@b.c", "pw")) == Valid
  {
    assert !IsBlank("Ann") by { assert !IsSpace("Ann"[0]); }
    assert !IsBlank("a@@b.c") by { assert !IsSpace("a@@b.c"[0]); }
    EmailWitness("a@@b.c", 1, 4);
  }

  /** An address with nothing after the dot is a format error. */
  lemma {:induction false} MissingTopLevelRejected()
    ensures ValidateForm(SignUpForm("Ann", "a@b.", "pw")) == Invalid(InvalidEmailFormat)
  {
    assert !IsBlank("Ann") by { assert !IsSpace("Ann"[0]); }
    assert !IsBlank("a@b.") by { assert !IsSpace("a@b."[0]); }
  }
}
