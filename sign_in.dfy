/**
 * The sign-in form: its zod schema over email and password, and the form
 * controller that holds the field values, the displayed errors, the
 * submitting flag and the route it navigated to.
 */
module SignIn {
  import opened Text
  import opened Forms

  /** The schema's fields, in declared order. */
  const FieldNames: seq<string> := ["email", "password"]

  const EmailRequired := "Email is required"
  const EmailInvalid := "Please enter a valid email address"
  const EmailTooLong := "Email is too long"
  const PasswordRequired := "Password is required"
  const PasswordTooLong := "Password is too long"
  const LoginFailed := "Login failed. Please try again."

  /** Where a successful sign-in navigates. */
  const Dashboard := "/dashboard"

  // ---------------------------------------------------------------------------
  // What each field must satisfy

  /** An email address: non-empty and email-shaped once trimmed, and at most
      255 code units. */
  predicate ValidEmail(isEmail: string -> bool, raw: string) {
    var t := Trim(raw);
    1 <= Utf16Length(t) <= 255 && isEmail(t)
  }

  /** A password, untrimmed: 1 to 128 code units of anything. */
  predicate ValidPassword(p: string) {
    1 <= Utf16Length(p) <= 128
  }

  predicate FieldValid(isEmail: string -> bool, name: string, value: string) {
    if name == "email" then ValidEmail(isEmail, value)
    else if name == "password" then ValidPassword(value)
    else true
  }

  // ---------------------------------------------------------------------------
  // The checks of each field, run in declared order; every failing one issues its message

  /** `z.string().trim().min(1).email().max(255)`. A blank value fails both
      the first and the second check, so as long as the email shape rejects
      the empty text, the required message is never the one shown. */
  function EmailIssues(isEmail: string -> bool, raw: string): (ms: seq<string>)
    ensures ms == [] <==> ValidEmail(isEmail, raw)
  {
    var t := Trim(raw);
    (if Utf16Length(t) < 1 then [EmailRequired] else [])
    + (if isEmail(t) then [] else [EmailInvalid])
    + (if Utf16Length(t) > 255 then [EmailTooLong] else [])
  }

  /** A blank email fails the required check and then the shape check, so
      as long as the shape rejects the empty text, the required message is
      never the last one. */
  lemma EmailLastIssue(isEmail: string -> bool, raw: string)
    requires !isEmail("")
    ensures AllWhitespace(raw) ==> EmailIssues(isEmail, raw) == [EmailRequired, EmailInvalid]
    ensures EmailIssues(isEmail, raw) != [] ==> Last(EmailIssues(isEmail, raw)) != EmailRequired
  {
    var t := Trim(raw);
    assert t == [] <==> AllWhitespace(raw);
  }

  /** `z.string().min(1).max(128)`, on the value as typed: a password made
      only of spaces passes. */
  function PasswordIssues(p: string): (ms: seq<string>)
    ensures ms == [] <==> ValidPassword(p)
    ensures p == [] ==> ms == [PasswordRequired]
    ensures p != [] && AllWhitespace(p) && |p| <= 128 ==> ms == []
  {
    assert AllWhitespace(p) ==> Utf16Length(p) == |p| by {
      if AllWhitespace(p) {
        Utf16LengthOfBmp(p);
      }
    }
    (if Utf16Length(p) < 1 then [PasswordRequired] else [])
    + (if Utf16Length(p) > 128 then [PasswordTooLong] else [])
  }

  /** The messages of the failing checks of one field of the schema. */
  function Rule(isEmail: string -> bool, name: string, value: string): (ms: seq<string>)
    ensures ms == [] <==> FieldValid(isEmail, name, value)
  {
    if name == "email" then EmailIssues(isEmail, value)
    else if name == "password" then PasswordIssues(value)
    else []
  }

  function Rules(isEmail: string -> bool): (string, string) -> seq<string> {
    (name, value) => Rule(isEmail, name, value)
  }

  /** What a parsed field becomes: the email is trimmed, the password is not. */
  function Normalize(name: string, value: string): string {
    if name == "password" then value else Trim(value)
  }

  function Normalizer(): (string, string) -> string {
    (name, value) => Normalize(name, value)
  }

  /** A declared field is absent or does not satisfy its rule. */
  predicate FieldFails(isEmail: string -> bool, values: map<string, string>, name: string) {
    name !in values || !FieldValid(isEmail, name, values[name])
  }

  /** `signInSchema.safeParse(formData)`. */
  function Parse(isEmail: string -> bool, values: map<string, string>): ParseResult {
    SafeParse(FieldNames, values, Rules(isEmail), Normalizer())
  }

  /** A field fails the schema exactly when it fails its rule. */
  lemma RulesFail(isEmail: string -> bool, values: map<string, string>, name: string)
    ensures Fails(values, Rules(isEmail), name) <==> FieldFails(isEmail, values, name)
  {
    if name in values {
      assert Rules(isEmail)(name, values[name]) == Rule(isEmail, name, values[name]);
    }
  }

  /** Every declared field has a value. */
  predicate HasFields(values: map<string, string>) {
    "email" in values && "password" in values
  }

  /** Validation succeeds exactly when both fields are present and satisfy their rules. */
  lemma ParseSucceeds(isEmail: string -> bool, values: map<string, string>)
    ensures Parse(isEmail, values).Success?
        <==> forall name :: name in FieldNames ==> !FieldFails(isEmail, values, name)
  {
    SafeParseSuccess(FieldNames, values, Rules(isEmail), Normalizer());
    forall name {
      RulesFail(isEmail, values, name);
    }
  }

  /** A successful validation yields the declared fields and no other key,
      each field normalized. */
  lemma ParsedValues(isEmail: string -> bool, values: map<string, string>, name: string)
    requires Parse(isEmail, values).Success?
    ensures name in Parse(isEmail, values).data <==> name in FieldNames
    ensures name in FieldNames ==> name in values && Parse(isEmail, values).data[name] == Normalize(name, values[name])
  {
    SafeParseSuccess(FieldNames, values, Rules(isEmail), Normalizer());
    if name in FieldNames {
      assert !Fails(values, Rules(isEmail), name);
      assert Parse(isEmail, values).data[name] == Normalizer()(name, values[name]);
    }
  }

  /** A successful validation yields the trimmed email and the password as
      typed, and no other key. */
  lemma ParsedData(isEmail: string -> bool, values: map<string, string>)
    requires Parse(isEmail, values).Success?
    ensures HasFields(values)
    ensures forall name :: name in Parse(isEmail, values).data <==> name in FieldNames
    ensures Parse(isEmail, values).data["email"] == Trim(values["email"])
    ensures Parse(isEmail, values).data["password"] == values["password"]
  {
    forall name ensures name in Parse(isEmail, values).data <==> name in FieldNames {
      ParsedValues(isEmail, values, name);
    }
    ParsedValues(isEmail, values, "email");
    ParsedValues(isEmail, values, "password");
  }

  /** A failed validation leaves an error entry for exactly the failing
      fields, each holding the message of that field's last failing check. */
  lemma ParseErrors(isEmail: string -> bool, values: map<string, string>)
    requires Parse(isEmail, values).Failure?
    ensures Parse(isEmail, values).issues != []
    ensures forall name :: (name in ErrorsOf(Parse(isEmail, values).issues)
      <==> name in FieldNames && FieldFails(isEmail, values, name))
    ensures forall name :: (name in ErrorsOf(Parse(isEmail, values).issues)
      ==> Fails(values, Rules(isEmail), name)
          && ErrorsOf(Parse(isEmail, values).issues)[name] == Shown(values, Rules(isEmail), name))
  {
    SafeParseErrors(FieldNames, values, Rules(isEmail), Normalizer());
    forall name {
      RulesFail(isEmail, values, name);
    }
  }

  /** A field that is present but fails its rule makes validation fail, and
      the error shown under it is the message of its last failing check. */
  lemma ShownMessage(isEmail: string -> bool, values: map<string, string>, name: string)
    requires name in FieldNames && name in values && !FieldValid(isEmail, name, values[name])
    ensures Parse(isEmail, values).Failure?
    ensures name in ErrorsOf(Parse(isEmail, values).issues)
    ensures ErrorsOf(Parse(isEmail, values).issues)[name] == Last(Rule(isEmail, name, values[name]))
  {
    ParseSucceeds(isEmail, values);
    ParseErrors(isEmail, values);
    assert Rules(isEmail)(name, values[name]) == Rule(isEmail, name, values[name]);
  }

  /** The message shown under a failing email field. "Email is required" is
      never it: a blank email also fails the shape check, whose issue comes
      later and wins. */
  lemma EmailMessage(isEmail: string -> bool, values: map<string, string>)
    requires !isEmail("")
    requires "email" in values && !ValidEmail(isEmail, values["email"])
    ensures Parse(isEmail, values).Failure?
    ensures "email" in ErrorsOf(Parse(isEmail, values).issues)
    ensures ErrorsOf(Parse(isEmail, values).issues)["email"] != EmailRequired
    ensures AllWhitespace(values["email"]) ==> ErrorsOf(Parse(isEmail, values).issues)["email"] == EmailInvalid
  {
    ShownMessage(isEmail, values, "email");
    EmailLastIssue(isEmail, values["email"]);
  }

  /** The error shown under a failing password: an empty one is required,
      any other is too long. */
  lemma PasswordMessage(isEmail: string -> bool, values: map<string, string>)
    requires "password" in values && !ValidPassword(values["password"])
    ensures Parse(isEmail, values).Failure?
    ensures "password" in ErrorsOf(Parse(isEmail, values).issues)
    ensures ErrorsOf(Parse(isEmail, values).issues)["password"]
      == if values["password"] == [] then PasswordRequired else PasswordTooLong
  {
    ShownMessage(isEmail, values, "password");
  }

  // ---------------------------------------------------------------------------
  // The form controller

  /** A response status that counts as a successful login. */
  predicate LoginSucceeded(status: int) {
    status == 200 || status == 201
  }

  class SignInForm {
    /** zod's email-address shape check, whose pattern is not part of this model. */
    const isEmail: string -> bool
    /** `formData` */
    var fields: map<string, string>
    /** `errors` */
    var errors: ErrorMap
    var isSubmitting: bool
    /** The routes pushed to the router, oldest first. */
    var navigatedTo: seq<string>
    /** The bodies handed to the sign-in endpoint, oldest first. */
    var posted: seq<map<string, string>>

    ghost predicate Valid()
      reads this
    {
      HasFields(fields)
    }

    /** The form as mounted: both fields empty, no error, not submitting. */
    constructor (isEmail: string -> bool)
      ensures Valid()
      ensures this.isEmail == isEmail
      ensures fields == map["email" := "", "password" := ""]
      ensures errors == map[] && !isSubmitting && navigatedTo == [] && posted == []
    {
      this.isEmail := isEmail;
      fields := map["email" := "", "password" := ""];
      errors := map[];
      isSubmitting := false;
      navigatedTo := [];
      posted := [];
    }

    /** `handleChange`: the named field takes the typed value, and its error,
        if it has one, is blanked. The inputs are disabled while submitting. */
    method HandleChange(name: string, value: string)
      requires Valid() && !isSubmitting
      modifies this
      ensures Valid()
      ensures fields == old(fields)[name := value]
      ensures errors.Keys == old(errors).Keys
      ensures name in errors ==> errors[name] == ""
      ensures forall k :: k in errors && k != name ==> errors[k] == old(errors)[k]
      ensures name !in old(errors) || old(errors)[name] == "" ==> errors == old(errors)
      ensures !isSubmitting && navigatedTo == old(navigatedTo) && posted == old(posted)
    {
      fields := fields[name := value];
      errors := ClearOnEdit(errors, name);
    }

    /** The synchronous part of `handleSubmit`, up to the awaited post: the
        flag is raised; a failed validation replaces the whole error map by
        the one built from its issues, lowers the flag and sends nothing;
        otherwise the parsed data is sent, the flag stays raised and the
        errors stay as they were. */
    method BeginSubmit() returns (b: Begin)
      requires Valid() && !isSubmitting
      modifies this
      ensures Valid()
      ensures fields == old(fields) && navigatedTo == old(navigatedTo)
      ensures match Parse(isEmail, old(fields))
        case Failure(issues) =>
          b == ValidationFailed && errors == ErrorsOf(issues) && !isSubmitting && posted == old(posted)
        case Success(data) =>
          b == Sent(data) && errors == old(errors) && isSubmitting && posted == old(posted) + [data]
    {
      isSubmitting := true;
      var result := Parse(isEmail, fields);
      match result
      case Failure(issues) =>
        ShowIssues(issues);
        b := ValidationFailed;
      case Success(data) =>
        Post(data);
        b := Sent(data);
    }

    /** The validation-failure path: the error map is rebuilt from the issues
        and the flag lowered. */
    method ShowIssues(issues: seq<Issue>)
      modifies this
      ensures errors == ErrorsOf(issues) && !isSubmitting
      ensures fields == old(fields) && navigatedTo == old(navigatedTo) && posted == old(posted)
    {
      var newErrors := BuildErrorMap(issues);
      errors := newErrors;
      isSubmitting := false;
    }

    /** The validated data is handed to the transport. */
    method Post(data: map<string, string>)
      modifies this
      ensures posted == old(posted) + [data]
      ensures fields == old(fields) && errors == old(errors)
      ensures isSubmitting == old(isSubmitting) && navigatedTo == old(navigatedTo)
    {
      posted := posted + [data];
    }

    /** The rest of `handleSubmit`, once the post settles: status 200 or 201
        navigates to the dashboard and leaves the errors alone; any other
        status replaces the errors by the generic login error; a thrown error
        is only logged. Either way the flag is lowered. */
    method FinishSubmit(outcome: Outcome)
      requires Valid() && isSubmitting
      modifies this
      ensures Valid()
      ensures !isSubmitting && fields == old(fields) && posted == old(posted)
      ensures outcome.Resolved? && LoginSucceeded(outcome.status) ==>
        navigatedTo == old(navigatedTo) + [Dashboard] && errors == old(errors)
      ensures outcome.Resolved? && !LoginSucceeded(outcome.status) ==>
        navigatedTo == old(navigatedTo) && errors == map[SubmitField := LoginFailed]
      ensures outcome.Threw? ==> navigatedTo == old(navigatedTo) && errors == old(errors)
    {
      isSubmitting := false;
      match outcome
      case Resolved(status) =>
        if LoginSucceeded(status) {
          navigatedTo := navigatedTo + [Dashboard];
        } else {
          errors := map[SubmitField := LoginFailed];
        }
      case Threw =>
    }
  }

  // ---------------------------------------------------------------------------
  // Whole attempts, from a freshly mounted form

  /** A fresh form filled with the given email and password and submitted. */
  method FillAndSubmit(isEmail: string -> bool, email: string, password: string)
    returns (form: SignInForm, b: Begin)
    ensures fresh(form)
    ensures form.Valid() && form.isEmail == isEmail
    ensures form.fields == map["email" := email, "password" := password]
    ensures form.navigatedTo == []
    ensures match Parse(isEmail, form.fields)
      case Failure(issues) =>
        b == ValidationFailed && form.errors == ErrorsOf(issues) && !form.isSubmitting && form.posted == []
      case Success(data) =>
        b == Sent(data) && form.errors == map[] && form.isSubmitting && form.posted == [data]
  {
    form := new SignInForm(isEmail);
    form.HandleChange("email", email);
    form.HandleChange("password", password);
    assert form.fields == map["email" := email, "password" := password];
    b := form.BeginSubmit();
  }

  /** Credentials that pass validation, answered with status 200 or 201:
      sent once with the email trimmed, and the form navigates to the
      dashboard with no error. */
  method SuccessfulLogin(isEmail: string -> bool, email: string, password: string, status: int)
    returns (form: SignInForm)
    requires ValidEmail(isEmail, email) && ValidPassword(password)
    requires LoginSucceeded(status)
    ensures form.posted == [map["email" := Trim(email), "password" := password]]
    ensures form.navigatedTo == [Dashboard]
    ensures form.errors == map[] && !form.isSubmitting
  {
    var b;
    form, b := FillAndSubmit(isEmail, email, password);
    CredentialsSent(isEmail, email, password);
    form.FinishSubmit(Resolved(status));
  }

  /** The same credentials answered with any other status: sent once, and the
      form stays put showing only the generic login error. */
  method RejectedLogin(isEmail: string -> bool, email: string, password: string, status: int)
    returns (form: SignInForm)
    requires ValidEmail(isEmail, email) && ValidPassword(password)
    requires !LoginSucceeded(status)
    ensures form.posted == [map["email" := Trim(email), "password" := password]]
    ensures form.navigatedTo == []
    ensures form.errors == map[SubmitField := LoginFailed] && !form.isSubmitting
  {
    var b;
    form, b := FillAndSubmit(isEmail, email, password);
    CredentialsSent(isEmail, email, password);
    form.FinishSubmit(Resolved(status));
  }

  /** The example login: "a@b.com" and "secret", answered with 200, are sent
      exactly as typed and lead to the dashboard. */
  method ExampleLogin(isEmail: string -> bool) returns (form: SignInForm)
    requires isEmail("a@b.com")
    ensures form.posted == [map["email" := "a@b.com", "password" := "secret"]]
    ensures form.navigatedTo == [Dashboard] && form.errors == map[]
  {
    ExampleCredentials(isEmail, "a@b.com", "secret");
    form := SuccessfulLogin(isEmail, "a@b.com", "secret", 200);
  }

  /** A blank email is stopped before anything is sent, and what the form
      shows under it is the shape message. */
  method BlankEmail(isEmail: string -> bool, email: string, password: string) returns (form: SignInForm)
    requires !isEmail("") && AllWhitespace(email)
    ensures form.posted == [] && form.navigatedTo == [] && !form.isSubmitting
    ensures "email" in form.errors && form.errors["email"] == EmailInvalid
  {
    var b;
    form, b := FillAndSubmit(isEmail, email, password);
    EmailMessage(isEmail, form.fields);
  }

  /** Values with exactly the declared keys, a valid email and a valid
      password pass validation and are sent with only the email trimmed. */
  lemma AcceptedTrimmed(isEmail: string -> bool, values: map<string, string>)
    requires HasFields(values) && forall k :: k in values ==> k in FieldNames
    requires ValidEmail(isEmail, values["email"]) && ValidPassword(values["password"])
    ensures Parse(isEmail, values) == Success(values["email" := Trim(values["email"])])
  {
    CredentialsPass(isEmail, values);
    var data := Parse(isEmail, values).data;
    var sent := values["email" := Trim(values["email"])];
    forall k
      ensures k in data <==> k in sent
      ensures k in data ==> data[k] == sent[k]
    {
      KeptEntry(isEmail, values, k);
      if k == "email" {
        assert sent[k] == Trim(values[k]);
      }
    }
    SameEntries(data, sent);
  }

  /** The form's two typed values, when valid, are sent with the email trimmed. */
  lemma CredentialsSent(isEmail: string -> bool, email: string, password: string)
    requires ValidEmail(isEmail, email) && ValidPassword(password)
    ensures Parse(isEmail, map["email" := email, "password" := password])
      == Success(map["email" := Trim(email), "password" := password])
  {
    var values := map["email" := email, "password" := password];
    assert HasFields(values) && values["email"] == email && values["password"] == password;
    AcceptedTrimmed(isEmail, values);
    var sent := map["email" := Trim(email), "password" := password];
    forall k
      ensures k in values["email" := Trim(email)] <==> k in sent
      ensures k in sent ==> values["email" := Trim(email)][k] == sent[k]
    {
    }
    SameEntries(values["email" := Trim(email)], sent);
  }

  lemma CredentialsPass(isEmail: string -> bool, values: map<string, string>)
    requires HasFields(values)
    requires ValidEmail(isEmail, values["email"]) && ValidPassword(values["password"])
    ensures Parse(isEmail, values).Success?
  {
    assert !FieldFails(isEmail, values, "email") && !FieldFails(isEmail, values, "password");
    ParseSucceeds(isEmail, values);
  }

  lemma KeptEntry(isEmail: string -> bool, values: map<string, string>, k: string)
    requires Parse(isEmail, values).Success?
    requires forall k :: k in values ==> k in FieldNames
    ensures k in Parse(isEmail, values).data <==> k in values
    ensures k in values ==> Parse(isEmail, values).data[k] == if k == "email" then Trim(values[k]) else values[k]
  {
    ParsedValues(isEmail, values, k);
    assert k in FieldNames <==> k == "email" || k == "password";
  }

  /** The credentials of the example logins, "a@b.com" and "secret", pass
      validation untrimmed. */
  lemma ExampleCredentials(isEmail: string -> bool, email: string, password: string)
    requires isEmail("a@b.com") && email == "a@b.com" && password == "secret"
    ensures ValidEmail(isEmail, email) && Trim(email) == email && ValidPassword(password)
  {
    ExampleEmailUntrimmed(email);
    Utf16LengthOfBmp(email);
    Utf16LengthOfBmp(password);
  }

  lemma ExampleEmailUntrimmed(e: string)
    requires e == "a@b.com"
    ensures Trim(e) == e
  {
    assert !IsWhitespace(e[0]) && !IsWhitespace(e[|e| - 1]);
  }
}
