/** The login page of src/components/Login.js: the pure `validateForm` over
    the email and password, and the component state (`formData`, `errors`,
    `successMessage`) that `handleChange` and `handleSubmit` update. */
module Login {
  import opened Wrappers
  import opened JsText
  import opened EmailFormat
  import opened FormRules

  /** The values of the two inputs. */
  datatype LoginData = LoginData(email: string, password: string)

  const LoginFields: set<string> := {"email", "password"}

  const LoginSuccess := "Login successful! Redirecting..."

  /** `validateForm`: one entry per failing field, none for a passing one.
      Each entry depends on its own field only, and the map is empty exactly
      when the email matches the regular expression and the password has at
      least six characters. */
  function ValidateForm(data: LoginData): (errors: ErrorMap)
    ensures errors.Keys <= LoginFields
    ensures Entry(errors, "email") == EmailError(data.email)
    ensures Entry(errors, "password") == PasswordError(data.password)
    ensures "email" in errors <==> !IsEmailAddress(data.email)
    ensures "email" in errors ==>
              errors["email"] == if IsBlank(data.email) then EmailRequired else EmailInvalid
    ensures "password" in errors <==> |data.password| < 6
    ensures "password" in errors ==>
              errors["password"] == if data.password == "" then PasswordRequired else PasswordTooShort
    ensures |errors| == 0 <==> IsEmailAddress(data.email) && |data.password| >= 6
  {
    FieldNamesDiffer();
    var errors := Record(map[], "email", EmailError(data.email));
    var errors := Record(errors, "password", PasswordError(data.password));
    assert |errors| == 0 <==> errors == map[];
    errors
  }

  /** Both fields empty: both are required. */
  lemma {:induction false} EmptyFormExample()
    ensures ValidateForm(LoginData("", "")) ==
            map["email" := EmailRequired, "password" := PasswordRequired]
  {
    RejectedExamples();
    var errors := ValidateForm(LoginData("", ""));
    assert errors.Keys == LoginFields;
  }

  /** A valid address with a five-character password: only the password is
      reported; with six characters, spaces included, the form is valid. */
  lemma {:induction false} PasswordLengthExamples()
    ensures ValidateForm(LoginData("a@b.com", "12345")) == map["password" := PasswordTooShort]
    ensures ValidateForm(LoginData("a@b.com", "123456")) == map[]
    ensures ValidateForm(LoginData("a@b.com", "      ")) == map[]
  {
    assert EmailError("a@b.com") == None by {
      assert SplitsAt("a@b.com", 1, 3);
    }
    var short := ValidateForm(LoginData("a@b.com", "12345"));
    assert Entry(short, "email") == None && Entry(short, "password") == Some(PasswordTooShort);
    assert short.Keys == {"password"};
  }

  /** The regular expression sees the untrimmed value, so a leading space
      makes the address invalid rather than missing. */
  lemma {:induction false} LeadingSpaceExample()
    ensures ValidateForm(LoginData(" a@b.com", "123456")) == map["email" := EmailInvalid]
  {
    var s := " a@b.com";
    WhitespaceRejected(s, 0);
    assert !IsWhitespace(s[1]);
    assert ValidateForm(LoginData(s, "123456")).Keys == {"email"};
  }

  /** The login component's state. */
  class LoginPage {
    var formData: map<string, string>
    var errors: ErrorMap
    var successMessage: string

    /** Both inputs have a value; errors are only ever about the two fields
        and are either a rule's message or blanked by an edit; a success
        message is the fixed one and is never shown beside errors. */
    ghost predicate Valid()
      reads this
    {
      && LoginFields <= formData.Keys
      && errors.Keys <= LoginFields
      && (forall f | f in errors :: errors[f] == "" || errors[f] in Messages)
      && (successMessage == "" || successMessage == LoginSuccess)
      && (successMessage != "" ==> errors == map[])
    }

    /** The form as `validateForm` reads it. */
    function Data(): LoginData
      reads this
      requires Valid()
    {
      LoginData(formData["email"], formData["password"])
    }

    /** The initial `useState` values. */
    constructor ()
      ensures Valid()
      ensures formData == map["email" := "", "password" := ""]
      ensures errors == map[] && successMessage == ""
    {
      formData := map["email" := "", "password" := ""];
      errors := map[];
      successMessage := "";
    }

    /** `handleChange`: store the input's value under its name; if that field
        shows an error, blank it (the key stays). Nothing else changes. */
    method HandleChange(name: string, value: string)
      requires Valid()
      modifies this
      ensures Valid()
      ensures formData == old(formData)[name := value]
      ensures errors == if name in old(errors) && old(errors)[name] != ""
                        then old(errors)[name := ""] else old(errors)
      ensures successMessage == old(successMessage)
    {
      formData := formData[name := value];
      if name in errors && errors[name] != "" {
        errors := errors[name := ""];
      }
    }

    /** `handleSubmit`: validate; on success show the fixed message and clear
        the errors, otherwise store the errors and clear the message. The
        form values are left as they were. */
    method HandleSubmit()
      requires Valid()
      modifies this
      ensures Valid()
      ensures formData == old(formData)
      ensures successMessage == LoginSuccess <==>
              IsEmailAddress(old(Data()).email) && |old(Data()).password| >= 6
      ensures successMessage == LoginSuccess ==> errors == map[]
      ensures successMessage != LoginSuccess ==>
              successMessage == "" && errors == ValidateForm(old(Data()))
    {
      var validationErrors := ValidateForm(Data());
      if |validationErrors| == 0 {
        successMessage := LoginSuccess;
        errors := map[];
      } else {
        errors := validationErrors;
        successMessage := "";
      }
    }

    /** The body of the delayed callback that a successful submit schedules:
        empty both inputs and hide the success message. */
    method ResetAfterSuccess()
      requires Valid()
      modifies this
      ensures Valid()
      ensures formData == map["email" := "", "password" := ""]
      ensures successMessage == "" && errors == old(errors)
    {
      formData := map["email" := "", "password" := ""];
      successMessage := "";
    }
  }
}
