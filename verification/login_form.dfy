/** The login form: an email and a password field, validated independently;
    a valid submission alerts and moves to the dashboard. */
module LoginForm {
  import opened Wrappers
  import opened Forms

  datatype Field = Email | Password

  /** The form's values; `None` stands for a value that is not there at all. */
  datatype Values = Values(email: Option<string>, password: Option<string>)

  const EmailMessage := "Please enter a valid email address."
  const PasswordMessage := "Password must be at least 6 characters long."
  const MinPasswordLength: nat := 6
  const DashboardPath := "/dashboard"

  /** The schema, field by field. */
  function RuleOf(f: Field): Rule
  {
    match f
    case Email => Rule(Required(DefaultRequiredMessage), [EmailFormat(EmailMessage)])
    case Password => Rule(Required(DefaultRequiredMessage), [MinLength(MinPasswordLength, PasswordMessage)])
  }

  function ValueOf(v: Values, f: Field): Option<string>
  {
    match f
    case Email => v.email
    case Password => v.password
  }

  /** The values the form starts with. */
  const Defaults := Values(Some(""), Some(""))

  /** The errors shown for `v`: exactly the failing fields, each with its own
      message; an email fails only on the format test, a password only on its
      length, whatever its characters. */
  function Validate(v: Values, isEmail: string -> bool): (errors: map<Field, string>)
    ensures Email in errors <==> v.email.None? || !isEmail(v.email.value)
    ensures Password in errors <==> v.password.None? || |v.password.value| < MinPasswordLength
    ensures Email in errors ==> errors[Email] == if v.email.None? then DefaultRequiredMessage else EmailMessage
    ensures Password in errors ==> errors[Password] == if v.password.None? then DefaultRequiredMessage else PasswordMessage
  {
    map f | f in {Email, Password} && FieldError(RuleOf(f), ValueOf(v, f), isEmail).Some?
          :: FieldError(RuleOf(f), ValueOf(v, f), isEmail).value
  }

  /** `onSubmit` behind `handleSubmit`: it runs only when no field fails, and
      then alerts with the email and navigates to the dashboard. */
  function Submit(v: Values, isEmail: string -> bool): (r: Outcome<Field>)
    ensures r.Rejected? <==> Validate(v, isEmail) != map[]
    ensures r.Rejected? ==> r.errors == Validate(v, isEmail)
    ensures r.Submitted? ==> v.email.Some? && isEmail(v.email.value)
                             && v.password.Some? && |v.password.value| >= MinPasswordLength
    ensures r.Submitted? ==> r.effects == [Alert("Mock Login Success! Email: " + v.email.value), Navigate(DashboardPath)]
  {
    var errors := Validate(v, isEmail);
    if errors != map[] then Rejected(errors)
    else
      assert Email !in errors && Password !in errors;
      Submitted([Alert("Mock Login Success! Email: " + v.email.value), Navigate(DashboardPath)])
  }

  /** The untouched form always fails the password check. */
  lemma DefaultsRejected(isEmail: string -> bool)
    ensures Password in Validate(Defaults, isEmail) && Validate(Defaults, isEmail)[Password] == PasswordMessage
    ensures Submit(Defaults, isEmail).Rejected?
  {
  }

  /** A malformed email with a five-character password fails on both fields
      and does not reach the handler. */
  lemma BadEmailShortPassword(isEmail: string -> bool)
    requires !isEmail("bad")
    ensures Validate(Values(Some("bad"), Some("12345")), isEmail) == map[Email := EmailMessage, Password := PasswordMessage]
    ensures Submit(Values(Some("bad"), Some("12345")), isEmail).Rejected?
  {
  }

  /** A well-formed email with a six-character password reaches the handler
      once: one alert, one navigation to the dashboard. */
  lemma GoodCredentials(isEmail: string -> bool)
    requires isEmail("a@b.com")
    ensures Submit(Values(Some("a@b.com"), Some("123456")), isEmail)
            == Submitted([Alert("Mock Login Success! Email: a@b.com"), Navigate(DashboardPath)])
  {
    var errors := Validate(Values(Some("a@b.com"), Some("123456")), isEmail);
    assert errors.Keys == {};
    assert errors == map[];
    assert "Mock Login Success! Email: " + "a@b.com" == "Mock Login Success! Email: a@b.com";
  }
}
