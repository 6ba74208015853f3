/** The registration page of src/components/Registration.js: the pure
    `validateForm` over name, email, password and confirmation, and the
    component state that `handleChange` and `handleSubmit` update. */
module Registration {
  import opened Wrappers
  import opened JsText
  import opened EmailFormat
  import opened FormRules
  import Login

  /** The values of the four inputs. */
  datatype RegistrationData =
    RegistrationData(name: string, email: string, password: string, confirmPassword: string)

  const RegistrationFields: set<string> := {"name", "email", "password", "confirmPassword"}

  const RegistrationSuccess := "Registration successful! Redirecting to login..."

  /** `validateForm`: the entry of each field is what that field's rule
      reports, and there are no other entries. */
  function ValidateForm(data: RegistrationData): (errors: ErrorMap)
    ensures errors.Keys <= RegistrationFields
    ensures Entry(errors, "name") == NameError(data.name)
    ensures Entry(errors, "email") == EmailError(data.email)
    ensures Entry(errors, "password") == PasswordError(data.password)
    ensures Entry(errors, "confirmPassword") == ConfirmError(data.password, data.confirmPassword)
  {
    FieldNamesDiffer();
    var errors := Record(map[], "name", NameError(data.name));
    var errors := Record(errors, "email", EmailError(data.email));
    var errors := Record(errors, "password", PasswordError(data.password));
    Record(errors, "confirmPassword", ConfirmError(data.password, data.confirmPassword))
  }

  /** What the registration form reports, field by field: a name passes when
      it holds two non-whitespace characters, the email and password as on
      the login page, and the confirmation when it repeats a non-empty
      password. */
  lemma {:induction false} ValidateFormMessages(data: RegistrationData)
    ensures var errors := ValidateForm(data);
            && ("name" in errors <==>
                  !exists i, j | 0 <= i < j < |data.name| ::
                     !IsWhitespace(data.name[i]) && !IsWhitespace(data.name[j]))
            && ("name" in errors ==>
                  errors["name"] == if IsBlank(data.name) then NameRequired else NameTooShort)
            && ("email" in errors <==> !IsEmailAddress(data.email))
            && ("email" in errors ==>
                  errors["email"] == if IsBlank(data.email) then EmailRequired else EmailInvalid)
            && ("password" in errors <==> |data.password| < 6)
            && ("password" in errors ==>
                  errors["password"] == if data.password == "" then PasswordRequired else PasswordTooShort)
            && ("confirmPassword" in errors <==>
                  data.confirmPassword != data.password || data.password == "")
            && ("confirmPassword" in errors ==>
                  errors["confirmPassword"] ==
                    if data.confirmPassword == "" then ConfirmRequired else PasswordsDiffer)
  {
    var errors := ValidateForm(data);
    assert Entry(errors, "name") == NameError(data.name);
    assert Entry(errors, "email") == EmailError(data.email);
    assert Entry(errors, "password") == PasswordError(data.password);
    assert Entry(errors, "confirmPassword") == ConfirmError(data.password, data.confirmPassword);
  }

  /** The form is valid (no key at all) exactly when all four rules pass. */
  lemma {:induction false} ValidIffAllRulesPass(data: RegistrationData)
    ensures |ValidateForm(data)| == 0 <==>
            && NameError(data.name).None?
            && IsEmailAddress(data.email)
            && |data.password| >= 6
            && data.confirmPassword == data.password
  {
    var errors := ValidateForm(data);
    assert Entry(errors, "name") == NameError(data.name);
    assert Entry(errors, "email") == EmailError(data.email);
    assert Entry(errors, "password") == PasswordError(data.password);
    assert Entry(errors, "confirmPassword") == ConfirmError(data.password, data.confirmPassword);
    if errors != map[] {
      var f :| f in errors;
      assert f in RegistrationFields;
    }
  }

  /** The email and password entries are exactly those the login page gives
      for the same two values. */
  lemma {:induction false} SharedRulesMatchLogin(data: RegistrationData)
    ensures var login := Login.ValidateForm(Login.LoginData(data.email, data.password));
            && Entry(ValidateForm(data), "email") == Entry(login, "email")
            && Entry(ValidateForm(data), "password") == Entry(login, "password")
  {
  }

  /** What each rule reports for a one-letter name, a valid address, a
      six-character password and a confirmation that differs from it. */
  lemma {:induction false} ExampleRuleReports()
    ensures NameError("A") == Some(NameTooShort)
    ensures EmailError("x@y.com") == None
    ensures PasswordError("abcdef") == None
    ensures ConfirmError("abcdef", "abcdeg") == Some(PasswordsDiffer)
  {
    assert !IsWhitespace("A"[0]);
    assert SplitsAt("x@y.com", 1, 3);
  }

  /** A one-letter name and a mistyped confirmation: exactly those two
      fields are reported. */
  lemma {:induction false} NameAndMismatchExample()
    ensures ValidateForm(RegistrationData("A", "x@y.com", "abcdef", "abcdeg")) ==
            map["name" := NameTooShort, "confirmPassword" := PasswordsDiffer]
  {
    ExampleRuleReports();
    var errors := ValidateForm(RegistrationData("A", "x@y.com", "abcdef", "abcdeg"));
    assert errors.Keys == {"name", "confirmPassword"};
  }

  /** Trimming counts: " A " is too short, "AB" is long enough, and a blank
      name is missing. */
  lemma {:induction false} NameExamples()
    ensures NameError(" A ") == Some(NameTooShort)
    ensures NameError("AB") == None
    ensures NameError("  ") == Some(NameRequired)
  {
    assert !IsWhitespace("AB"[0]) && !IsWhitespace("AB"[1]);
    assert !IsWhitespace(" A "[1]);
  }

  /** The registration component's state. */
  class RegistrationPage {
    var formData: map<string, string>
    var errors: ErrorMap
    var successMessage: string

    /** All four inputs have a value; errors are only ever about the four
        fields and are either a rule's message or blanked by an edit; a
        success message is the fixed one and is never shown beside errors. */
    ghost predicate Valid()
      reads this
    {
      && RegistrationFields <= formData.Keys
      && errors.Keys <= RegistrationFields
      && (forall f | f in errors :: errors[f] == "" || errors[f] in Messages)
      && (successMessage == "" || successMessage == RegistrationSuccess)
      && (successMessage != "" ==> errors == map[])
    }

    /** The form as `validateForm` reads it. */
    function Data(): RegistrationData
      reads this
      requires Valid()
    {
      RegistrationData(formData["name"], formData["email"], formData["password"], formData["confirmPassword"])
    }

    /** The initial `useState` values. */
    constructor ()
      ensures Valid()
      ensures formData == map["name" := "", "email" := "", "password" := "", "confirmPassword" := ""]
      ensures errors == map[] && successMessage == ""
    {
      formData := map["name" := "", "email" := "", "password" := "", "confirmPassword" := ""];
      errors := map[];
      successMessage := "";
    }

    /** `handleChange`: store the input's value under its name; if that field
        shows an error, blank it (the key stays). Nothing else changes. */
    method HandleChange(name: string, value: string)
      requires Valid()
      modifies this
      ensures Valid()
      ensures formData == old(formData)[name := value]
      ensures errors == if name in old(errors) && old(errors)[name] != ""
                        then old(errors)[name := ""] else old(errors)
      ensures successMessage == old(successMessage)
    {
      formData := formData[name := value];
      if name in errors && errors[name] != "" {
        errors := errors[name := ""];
      }
    }

    /** `handleSubmit`: validate; on success show the fixed message and clear
        the errors, otherwise store the errors and clear the message. The
        form values are left as they were. */
    method HandleSubmit()
      requires Valid()
      modifies this
      ensures Valid()
      ensures formData == old(formData)
      ensures successMessage == RegistrationSuccess <==>
              && NameError(old(Data()).name).None?
              && IsEmailAddress(old(Data()).email)
              && |old(Data()).password| >= 6
              && old(Data()).confirmPassword == old(Data()).password
      ensures successMessage == RegistrationSuccess ==> errors == map[]
      ensures successMessage != RegistrationSuccess ==>
              successMessage == "" && errors == ValidateForm(old(Data()))
    {
      var data := Data();
      var validationErrors := ValidateForm(data);
      ValidIffAllRulesPass(data);
      if |validationErrors| == 0 {
        successMessage := RegistrationSuccess;
        errors := map[];
      } else {
        errors := validationErrors;
        successMessage := "";
      }
    }
  }
}
