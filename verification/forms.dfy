/** The schema validation shared by the two forms: each field has a presence
    rule and a chain of string checks, as a zod object schema declares them,
    and a submission either reports field errors or yields the handler's
    effects. */
module Forms {
  import opened Wrappers

  /** One check of a string field, with the message reported when it fails. */
  datatype Check = MinLength(min: nat, message: string) | EmailFormat(message: string)

  /** Whether a missing (`undefined`) value is accepted, and the message
      reported when it is not. */
  datatype Presence = Optional | Required(message: string)

  datatype Rule = Rule(presence: Presence, checks: seq<Check>)

  /** The message zod reports for a missing required string when the schema
      gives none. */
  const DefaultRequiredMessage := "Required"

  /** Whether `s` passes one check; the email format test is supplied by the
      caller. */
  predicate Passes(c: Check, s: string, isEmail: string -> bool)
  {
    match c
    case MinLength(n, _) => |s| >= n
    case EmailFormat(_) => isEmail(s)
  }

  /** The message of the first failing check, if any fails. */
  function FirstFailure(checks: seq<Check>, s: string, isEmail: string -> bool): (r: Option<string>)
    ensures r.None? <==> forall i :: 0 <= i < |checks| ==> Passes(checks[i], s, isEmail)
    ensures r.Some? ==> exists i :: 0 <= i < |checks| && !Passes(checks[i], s, isEmail)
                                    && r.value == checks[i].message
                                    && forall j :: 0 <= j < i ==> Passes(checks[j], s, isEmail)
  {
    if checks == [] then None
    else if !Passes(checks[0], s, isEmail) then Some(checks[0].message)
    else
      var r := FirstFailure(checks[1..], s, isEmail);
      if r.Some? then
        var i :| 0 <= i < |checks[1..]| && !Passes(checks[1..][i], s, isEmail)
                 && r.value == checks[1..][i].message
                 && forall j :: 0 <= j < i ==> Passes(checks[1..][j], s, isEmail);
        assert checks[i + 1] == checks[1..][i];
        assert forall j :: 0 <= j < i + 1 ==> Passes(checks[j], s, isEmail) by {
          forall j | 0 <= j < i + 1 ensures Passes(checks[j], s, isEmail) {
            if j > 0 {
              assert checks[j] == checks[1..][j - 1];
            }
          }
        }
        r
      else
        assert forall i :: 1 <= i < |checks| ==> checks[i] == checks[1..][i - 1];
        r
  }

  /** The error one field reports: the presence message for a missing required
      value, nothing for a missing optional one, otherwise the first failing
      check. */
  function FieldError(rule: Rule, value: Option<string>, isEmail: string -> bool): (r: Option<string>)
    ensures value.None? ==> (r.None? <==> rule.presence.Optional?)
    ensures value.Some? ==> (r.None? <==> forall i :: 0 <= i < |rule.checks| ==> Passes(rule.checks[i], value.value, isEmail))
  {
    match value
    case None => if rule.presence.Optional? then None else Some(rule.presence.message)
    case Some(s) => FirstFailure(rule.checks, s, isEmail)
  }

  /** A side effect a submit or cancel handler performs. */
  datatype Effect = Alert(text: string) | Navigate(path: string) | SuccessToast(text: string, description: string)

  /** The result of pressing submit: field errors, or the handler's effects. */
  datatype Outcome<F> = Rejected(errors: map<F, string>) | Submitted(effects: seq<Effect>)
}
