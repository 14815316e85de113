/**
 The client-side checks of the login form
 (frontend/src/pages/LoginPage.jsx): the sign-up checks without the name.
 */
module LoginPage {
  import opened ChatTypes
  import opened JsString

  datatype LoginForm = LoginForm(email: string, password: string)

  datatype FormError = EmailRequired | InvalidEmailFormat | PasswordRequired

  /** The toast text of each error. */
  function ErrorText(e: FormError): string
  {
    match e
    case EmailRequired => "Email is required"
    case InvalidEmailFormat => "Invalid email format"
    case PasswordRequired => "Password is required"
  }

  /** `true`, or the first error reported. */
  datatype Verdict = Valid | Invalid(error: FormError)

  /** `validateForm()`: blank email, then email format, then empty
      password, stopping at the first failure. */
  function ValidateForm(form: LoginForm): (r: Verdict)
    ensures r == Valid <==>
              !IsBlank(form.email) && EmailPatternTest(form.email) && form.password != ""
    ensures r == Invalid(EmailRequired) <==> IsBlank(form.email)
    ensures r == Invalid(InvalidEmailFormat) <==> !IsBlank(form.email) && !EmailPatternTest(form.email)
    ensures r == Invalid(PasswordRequired) <==>
              !IsBlank(form.email) && EmailPatternTest(form.email) && form.password == ""
  {
    TrimEmptyIffBlank(form.email);
    if Trim(form.email) == "" then Invalid(EmailRequired)
    else if !EmailPatternTest(form.email) then Invalid(InvalidEmailFormat)
    else if form.password == "" then Invalid(PasswordRequired)
    else Valid
  }

  /** `handleSubmit`: the form handed to `login`, if it is called at all. */
  function HandleSubmit(form: LoginForm): (login: Option<LoginForm>)
    ensures login.Some? <==> EmailPatternTest(form.email) && form.password != ""
    ensures login.Some? ==> login.value == form
  {
    ValidIffPatternAndPassword(form);
    if ValidateForm(form) == Valid then Some(form) else None
  }

  /** The error toast a submit shows: `validateForm` returns the value of
      `toast.error(text)` at the first failing check, so a submit either
      calls `login` or shows exactly one of the three texts. */
  function SubmitToast(form: LoginForm): (toast: Option<string>)
    ensures toast.None? <==> HandleSubmit(form).Some?
    ensures toast == Some("Email is required") <==> IsBlank(form.email)
    ensures toast == Some("Invalid email format") <==> !IsBlank(form.email) && !EmailPatternTest(form.email)
    ensures toast == Some("Password is required") <==>
              !IsBlank(form.email) && EmailPatternTest(form.email) && form.password == ""
  {
    match ValidateForm(form)
    case Valid => None
    case Invalid(e) => Some(ErrorText(e))
  }

  /** Because a matching email is never blank, validation accepts exactly
      the forms whose email matches and whose password is non-empty. */
  lemma {:induction false} ValidIffPatternAndPassword(form: LoginForm)
    ensures ValidateForm(form) == Valid <==> EmailPatternTest(form.email) && form.password != ""
  {
    if EmailPatternTest(form.email) {
      EmailPatternNotBlank(form.email);
    }
  }

  /** A blank email is reported as missing, not as a format error; a
      password of spaces is accepted. */
  lemma {:induction false} WhitespaceCases()
    ensures ValidateForm(LoginForm("  ", "pw")) == Invalid(EmailRequired)
    ensures ValidateForm(LoginForm("ann@mail.io", " ")) == Valid
  {
    assert IsBlank("  ");
    assert EmailPatternTest("ann@mail.io") by {
      EmailWitness("ann@mail.io", 3, 8);
    }
  }
}
