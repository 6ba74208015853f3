# Login and registration form validation, in Dafny

This project models the logic of a two-page client-side banking demo: a login
page and a registration page that validate their fields locally, show a
message next to each failing input, and on success show a fixed confirmation
message. It also models the one piece of logic of the accompanying Java
service, the construction of a greeting message.

Modules, leaf first:

- `Wrappers` — `Option`, used for Java's nullable `String` and for a field
  rule that reports a message or nothing.
- `JsText` — the JavaScript whitespace class `\s` and `String.prototype.trim`.
  ECMAScript defines both over the same characters (WhiteSpace and
  LineTerminator), so one predicate `IsWhitespace` serves for both.
- `EmailFormat` — the regular expression `^[^\s@]+@[^\s@]+\.[^\s@]+$` of
  `src/utils/validation.js`, which `Login.js` and `Registration.js` each repeat
  verbatim. `IsEmailAddress` states it declaratively (some `@` and some `.`
  split the string into three non-empty runs free of whitespace and `@`);
  `EmailShapeIff` characterises it structurally (no whitespace, exactly one
  `@`, not first, and a `.` at least two places after it and before the last
  character); `ValidateEmail` is a one-pass scanner proved to agree with it.
- `FormRules` — the per-field rules and their exact messages (email,
  password, name, confirmation), and the error map type.
- `Login` — `validateForm` of `Login.js` as `ValidateForm`, and the component
  state as class `LoginPage` with the fields `formData`, `errors` and
  `successMessage` and the handlers `HandleChange`, `HandleSubmit` and
  `ResetAfterSuccess` (the body of the delayed callback).
- `Registration` — the same for `Registration.js`, with four fields.
- `Greeting` — `GreetingService.createGreeting`'s message.

Modelling choices:

- `formData` is a `map<string, string>`, because `handleChange` writes
  `[name]: value` for whatever name the input event carries; the class
  invariant only asks that the form's own keys be present.
- For the names the inputs carry (`Login.js:133,152`, `Registration.js:151,
  170,189,208`), `errors[name]` is truthy when the key is present with a
  non-empty message; `handleChange` then writes `''` under that key instead
  of deleting it.
- Each handler is one sequential update of the state; React's batching and
  re-rendering are not modelled.
- `IsEmailAddress` is a compiled predicate (its quantifiers are bounded), so
  the pure `ValidateForm` functions use it directly, as the components call
  `validateEmail`.

## Model

| member | source | states |
|---|---|---|
| `EmailFormat.IsEmailAddress` | src/utils/validation.js:11-12 | `emailRegex.test(s)`: some `@` and some later `.` split the string into three non-empty runs of `[^\s@]` |
| `JsText.IsWhitespace` | src/utils/validation.js:11 | the characters of `\s` and of `trim`: ECMAScript WhiteSpace plus LineTerminator |
| `EmailFormat.EmailShapeIff` | src/utils/validation.js:11 | the regular expression accepts a string iff it has no whitespace, exactly one `@`, not at index 0, and a `.` at least two places after the `@` and before the last character |
| `EmailFormat.SplitHasShape` | src/utils/validation.js:11 | a match with its `@` at `a` and its `.` at `d` forces that shape, with `a` the only `@` |
| `EmailFormat.ShapeSplits` | src/utils/validation.js:11 | conversely that shape is a match at the same two indices |
| `EmailFormat.ComposedIsEmail` | src/utils/validation.js:11 | `local + "@" + d1 + "." + d2` is accepted whenever the three runs are non-empty and free of whitespace and `@` |
| `EmailFormat.EmailDecomposes` | src/utils/validation.js:11 | every accepted string is `local + "@" + d1 + "." + d2` for three such runs |
| `EmailFormat.WhitespaceRejected` | src/utils/validation.js:11 | a whitespace character at any index, first and last included, makes the string invalid |
| `EmailFormat.NoAtSignRejected` | src/utils/validation.js:11 | a string without `@` is invalid |
| `EmailFormat.TwoAtSignsRejected` | src/utils/validation.js:11 | a string with two `@` at different indices is invalid |
| `EmailFormat.AcceptedLength` | src/utils/validation.js:11 | an accepted string has at least five characters and is not blank, so the empty string is rejected |
| `EmailFormat.AcceptedExamples` | src/utils/validation.js:11 | `a@b.c`, `a@b.c.d` and `a@b..c` are accepted |
| `EmailFormat.RejectedExamples` | src/utils/validation.js:11 | the empty string, `a@.com` and `a@b.` are rejected |
| `EmailFormat.ValidateEmail` | src/utils/validation.js:10-13 | a single left-to-right scan returns true exactly when the regular expression matches, for every string |
| `JsText.LeadingWhitespace` | src/components/Registration.js:44 | the counted prefix is all whitespace and is followed by a non-whitespace character or the end |
| `JsText.TrailingWhitespace` | src/components/Registration.js:44 | the counted suffix is all whitespace and is preceded by a non-whitespace character or the start |
| `JsText.Trim` | src/components/Registration.js:44-46 | `trim()` gives the slice from the first to the last non-whitespace character; it is empty exactly when the input is blank |
| `JsText.TrimmedAtLeastTwo` | src/components/Registration.js:46 | the trimmed length is at least two iff the string holds two non-whitespace characters |
| `FormRules.EmailError` | src/components/Login.js:42-46 | the email rule passes iff the untrimmed value matches the regular expression; a blank value gets "Email is required", any other failure "Please enter a valid email address" |
| `FormRules.PasswordError` | src/components/Login.js:49-53 | the password rule passes iff the length is at least six; empty gets "Password is required", shorter gets "Password must be at least 6 characters" |
| `FormRules.NameError` | src/components/Registration.js:44-48 | the name rule passes iff the name holds two non-whitespace characters; blank gets "Name is required", otherwise "Name must be at least 2 characters" |
| `FormRules.ConfirmError` | src/components/Registration.js:65-69 | the confirmation passes iff it equals a non-empty password; empty gets "Please confirm your password", otherwise "Passwords do not match" |
| `Login.ValidateForm` | src/components/Login.js:38-56 | keys are among email and password; each key is present iff its own field fails, with the message of its rule; the map is empty iff the email matches and the password has six or more characters |
| `Login.EmptyFormExample` | src/components/Login.js:42-53 | an empty form yields exactly the two "required" messages |
| `Login.PasswordLengthExamples` | src/components/Login.js:49-53 | `a@b.com` with `12345` yields only the password length message; with `123456` or six spaces the form is valid |
| `Login.LeadingSpaceExample` | src/components/Login.js:42-46 | ` a@b.com` is reported invalid, not missing, because the regular expression sees the untrimmed value |
| `Login.LoginPage.constructor` | src/components/Login.js:13-22 | both inputs start empty, with no errors and no success message |
| `Login.LoginPage.HandleChange` | src/components/Login.js:62-76 | only the named input changes; a non-empty error of that field becomes `''` and keeps its key; other errors and the success message are unchanged; the page invariant is kept |
| `Login.LoginPage.HandleSubmit` | src/components/Login.js:82-106 | the form values are unchanged; the success message is shown iff the form is valid, with no errors; otherwise errors equal the validation result and the message is `''` |
| `Login.LoginPage.ResetAfterSuccess` | src/components/Login.js:97-100 | the delayed callback empties both inputs and the success message and leaves errors alone |
| `Registration.ValidateForm` | src/components/Registration.js:40-72 | keys are among the four fields and each field's entry is exactly what its own rule reports |
| `Registration.ValidateFormMessages` | src/components/Registration.js:43-69 | field by field: which inputs are reported and with which message, in terms of the inputs alone |
| `Registration.ValidIffAllRulesPass` | src/components/Registration.js:102-104 | the result has no keys iff the name holds two non-whitespace characters, the email matches, the password has six or more characters and the confirmation equals it |
| `Registration.SharedRulesMatchLogin` | src/components/Registration.js:51-62 | the registration form's email and password entries are exactly the login form's for the same two values |
| `Registration.ExampleRuleReports` | src/components/Registration.js:44-69 | for `A`, `x@y.com`, `abcdef`, `abcdeg` the name rule reports the length message, the email and password rules pass, the confirmation reports a mismatch |
| `Registration.NameAndMismatchExample` | src/components/Registration.js:44-69 | `{A, x@y.com, abcdef, abcdeg}` yields exactly the name length and mismatch messages |
| `Registration.NameExamples` | src/components/Registration.js:44-48 | ` A ` is too short, `AB` passes, a blank name is required |
| `Registration.RegistrationPage.constructor` | src/components/Registration.js:13-24 | all four inputs start empty, with no errors and no success message |
| `Registration.RegistrationPage.HandleChange` | src/components/Registration.js:78-92 | only the named input changes; a non-empty error of that field becomes `''` and keeps its key; nothing else changes; the page invariant is kept |
| `Registration.RegistrationPage.HandleSubmit` | src/components/Registration.js:98-124 | the form values are unchanged; the success message is shown iff the name holds two non-whitespace characters, the email matches, the password has six or more characters and the confirmation equals it, and then there are no errors; otherwise errors equal the validation result and the message is `''` |
| `Greeting.CreateGreeting` | src/main/java/com/contoso/demo/service/GreetingService.java:9-14 | every message starts with `Hello, ` and ends with `!`; a null or empty name gives `Hello, World!`; any other name, blank ones included, stands between the two |
| `Greeting.GreetedName` | src/main/java/com/contoso/demo/service/GreetingService.java:11 | the text between the salutation and the final `!`; with `CreateGreeting`'s own contract, which already fixes that text, it serves as the inverse of the round trip |
| `Greeting.GreetingRoundTrip` | src/main/java/com/contoso/demo/service/GreetingService.java:10-11 | a non-empty name is read back from its message (a corollary of `CreateGreeting`'s contract) |
| `Greeting.GreetingInjective` | src/main/java/com/contoso/demo/service/GreetingService.java:10-11 | distinct non-empty names give distinct messages (a corollary of the round trip) |
| `Greeting.GreetingExamples` | src/main/java/com/contoso/demo/service/GreetingService.java:10-12 | null, `""` and `World` give the same message; `" "` gives `Hello,  !` |

## Left out

- Rendering (JSX markup, CSS classes, labels, links): presentation only.
- `console.log` of the submitted values: output only.
- The timer: `setTimeout` and its two-second delay are not modelled; the login
  callback's effect is the method `ResetAfterSuccess`, callable at any time.
  The registration callback only calls `navigate('/login')`, which leaves the
  page and is not modelled.
- Routing (`src/App.js`) and the Spring controller (`GreetingController.java`):
  wiring with no logic of their own.
- The `Greeting` object's timestamp, a clock read; `CreateGreeting` returns the
  message only.
- FormRules.PasswordError: counts characters, not UTF-16 code units, so a
  password of characters outside the Basic Multilingual Plane is shorter here
  than JavaScript's `length` says.
- FormRules.NameError: the same character-versus-code-unit difference for
  the trimmed length.
- Login.LoginPage.HandleChange, Registration.RegistrationPage.HandleChange:
  names inherited from `Object.prototype` (`constructor`, `toString`,
  `__proto__`, ...) are not modelled; for such a name `errors[name]` is an
  inherited function and so truthy, and the source would add a `name: ''`
  key that the model does not add. Only the inputs' own names reach the
  handlers.
- Whitespace follows the ECMAScript character list; no Unicode database
  lookups beyond that list are modelled.
