/** The per-field rules that the login and registration components apply in
    their `validateForm`, with their exact messages. Each rule reports either
    nothing or one message; a form's error map holds an entry for exactly the
    fields whose rule reports a message. */
module FormRules {
  import opened Wrappers
  import opened JsText
  import opened EmailFormat

  /** The `errors` state object: field name to message. */
  type ErrorMap = map<string, string>

  const EmailRequired := "Email is required"
  const EmailInvalid := "Please enter a valid email address"
  const PasswordRequired := "Password is required"
  const PasswordTooShort := "Password must be at least 6 characters"
  const NameRequired := "Name is required"
  const NameTooShort := "Name must be at least 2 characters"
  const ConfirmRequired := "Please confirm your password"
  const PasswordsDiffer := "Passwords do not match"

  /** Every message a rule can report. */
  const Messages: set<string> := {
    EmailRequired, EmailInvalid, PasswordRequired, PasswordTooShort,
    NameRequired, NameTooShort, ConfirmRequired, PasswordsDiffer
  }

  /** The email rule: blank after trimming is "required"; otherwise the
      untrimmed value must match the e-mail regular expression. So the rule
      passes exactly when the regular expression accepts the value, and a
      value with surrounding spaces is reported invalid, not missing. */
  function EmailError(email: string): (r: Option<string>)
    ensures r.None? <==> IsEmailAddress(email)
    ensures r.Some? ==> r.value == if IsBlank(email) then EmailRequired else EmailInvalid
  {
    AcceptedLength(email);
    if Trim(email) == "" then Some(EmailRequired)
    else if !IsEmailAddress(email) then Some(EmailInvalid)
    else None
  }

  /** The password rule: empty is "required", shorter than six characters is
      "too short". Nothing is trimmed, so six spaces pass. */
  function PasswordError(password: string): (r: Option<string>)
    ensures r.None? <==> |password| >= 6
    ensures r.Some? ==> r.value == if |password| == 0 then PasswordRequired else PasswordTooShort
  {
    if password == "" then Some(PasswordRequired)
    else if |password| < 6 then Some(PasswordTooShort)
    else None
  }

  /** The name rule: blank after trimming is "required", a trimmed length
      below two is "too short". A name passes exactly when it holds two
      non-whitespace characters. */
  function NameError(name: string): (r: Option<string>)
    ensures r.None? <==>
            exists i, j | 0 <= i < j < |name| :: !IsWhitespace(name[i]) && !IsWhitespace(name[j])
    ensures r.Some? ==> r.value == if IsBlank(name) then NameRequired else NameTooShort
  {
    TrimmedAtLeastTwo(name);
    var trimmed := Trim(name);
    if trimmed == "" then Some(NameRequired)
    else if |trimmed| < 2 then Some(NameTooShort)
    else None
  }

  /** The confirmation rule: empty is "please confirm", anything other than
      the password is "do not match". The confirmation passes exactly when it
      repeats a non-empty password, so a non-empty confirmation of an empty
      password is a mismatch. */
  function ConfirmError(password: string, confirm: string): (r: Option<string>)
    ensures r.None? <==> confirm == password && password != ""
    ensures r.Some? ==> r.value == if confirm == "" then ConfirmRequired else PasswordsDiffer
  {
    if confirm == "" then Some(ConfirmRequired)
    else if password != confirm then Some(PasswordsDiffer)
    else None
  }

  /** The four field names are pairwise distinct keys. */
  lemma FieldNamesDiffer()
    ensures "name" != "email" && "name" != "password" && "name" != "confirmPassword"
    ensures "email" != "password" && "email" != "confirmPassword"
    ensures "password" != "confirmPassword"
  {
    assert |"name"| == 4 && |"email"| == 5 && |"password"| == 8 && |"confirmPassword"| == 15;
  }

  /** What the error map says about `field`: its message, or nothing. */
  function Entry(errors: ErrorMap, field: string): Option<string>
  {
    if field in errors then Some(errors[field]) else None
  }

  /** `newErrors.field = message` when the rule reported a message. */
  function Record(errors: ErrorMap, field: string, report: Option<string>): ErrorMap
  {
    match report
    case Some(message) => errors[field := message]
    case None => errors
  }
}
