/**
 * The sign-up form: its zod schema over first name, last name, username,
 * email and password, and the form controller that holds the field values,
 * the displayed errors and the submitting flag.
 */
module SignUp {
  import opened Text
  import opened Forms

  /** The schema's fields, in declared order. */
  const FieldNames: seq<string> := ["first_name", "last_name", "user_name", "email", "password"]

  const FirstNameRequired := "First name is required"
  const FirstNameTooLong := "First name is too long"
  const LastNameRequired := "Last name is required"
  const LastNameTooLong := "Last name is too long"
  const UserNameTooShort := "Username must be at least 3 characters"
  const UserNameTooLong := "Username is too long"
  const UserNameCharset := "Username can only contain letters, numbers, and underscores"
  const EmailInvalid := "Please enter a valid email address"
  const EmailTooLong := "Email is too long"
  const PasswordTooShort := "Password must be at least 6 characters"
  const PasswordTooLong := "Password is too long"
  const PasswordWeak := "Password must contain at least one uppercase letter, one lowercase letter, and one number"
  const SubmitFailed := "Failed to create account. Please try again."

  // ---------------------------------------------------------------------------
  // What each field must satisfy

  /** A first or last name: 1 to 50 code units once trimmed. */
  predicate ValidName(raw: string) {
    1 <= Utf16Length(Trim(raw)) <= 50
  }

  /** A username: 3 to 30 characters once trimmed, all of them ASCII letters,
      digits or underscores. */
  predicate ValidUserName(raw: string) {
    var t := Trim(raw);
    3 <= |t| <= 30 && forall i :: 0 <= i < |t| ==> IsWordChar(t[i])
  }

  /** An email address: email-shaped once trimmed, and at most 255 code units. */
  predicate ValidEmail(isEmail: string -> bool, raw: string) {
    var t := Trim(raw);
    isEmail(t) && Utf16Length(t) <= 255
  }

  /** A password, untrimmed: 6 to 128 code units, and its first line holds a
      lower-case letter, an upper-case letter and a digit, in any order. */
  predicate ValidPassword(p: string) {
    var line := FirstLine(p);
    6 <= Utf16Length(p) <= 128
    && Contains(line, IsAsciiLower) && Contains(line, IsAsciiUpper) && Contains(line, IsAsciiDigit)
  }

  predicate FieldValid(isEmail: string -> bool, name: string, value: string) {
    if name == "first_name" || name == "last_name" then ValidName(value)
    else if name == "user_name" then ValidUserName(value)
    else if name == "email" then ValidEmail(isEmail, value)
    else if name == "password" then ValidPassword(value)
    else true
  }

  // ---------------------------------------------------------------------------
  // The checks of each field, run in declared order; every failing one issues its message

  /** `z.string().trim().min(1, required).max(50, tooLong)`. */
  function NameIssues(raw: string, required: string, tooLong: string): (ms: seq<string>)
    ensures ms == [] <==> ValidName(raw)
    ensures AllWhitespace(raw) ==> ms == [required]
    ensures !AllWhitespace(raw) && !ValidName(raw) ==> ms == [tooLong]
  {
    var t := Trim(raw);
    (if Utf16Length(t) < 1 then [required] else [])
    + (if Utf16Length(t) > 50 then [tooLong] else [])
  }

  /** `^[a-zA-Z0-9_]+$`. */
  predicate MatchesUserNamePattern(t: string) {
    |t| >= 1 && forall i :: 0 <= i < |t| ==> IsWordChar(t[i])
  }

  /** `z.string().trim().min(3).max(30).regex(/^[a-zA-Z0-9_]+$/)`. */
  function UserNameIssues(raw: string): (ms: seq<string>)
    ensures ms == [] <==> ValidUserName(raw)
  {
    TrimmedUserNameIssues(Trim(raw))
  }

  /** The three username checks, on the value already trimmed. */
  function TrimmedUserNameIssues(t: string): (ms: seq<string>)
    ensures ms == [] <==> 3 <= |t| <= 30 && forall i :: 0 <= i < |t| ==> IsWordChar(t[i])
  {
    var pattern := MatchesUserNamePattern(t);
    assert pattern ==> Utf16Length(t) == |t| by {
      if pattern {
        PatternLength(t);
      }
    }
    (if Utf16Length(t) < 3 then [UserNameTooShort] else [])
    + (if Utf16Length(t) > 30 then [UserNameTooLong] else [])
    + (if pattern then [] else [UserNameCharset])
  }

  /** Which username message comes last: whenever the pattern fails its
      message does, otherwise the one length bound that is broken. */
  lemma UserNameLastIssue(t: string)
    ensures !MatchesUserNamePattern(t) ==> TrimmedUserNameIssues(t) != [] && Last(TrimmedUserNameIssues(t)) == UserNameCharset
    ensures MatchesUserNamePattern(t) && |t| < 3 ==> TrimmedUserNameIssues(t) == [UserNameTooShort]
    ensures MatchesUserNamePattern(t) && |t| > 30 ==> TrimmedUserNameIssues(t) == [UserNameTooLong]
  {
    if MatchesUserNamePattern(t) {
      PatternLength(t);
    }
  }

  /** A name the pattern accepts is ASCII, so its length is its number of characters. */
  lemma PatternLength(t: string)
    requires MatchesUserNamePattern(t)
    ensures Utf16Length(t) == |t|
  {
    forall i | 0 <= i < |t|
      ensures t[i] as int <= 0xFFFF
    {
      assert IsWordChar(t[i]);
    }
    Utf16LengthOfBmp(t);
  }

  /** `z.string().trim().email().max(255)`. */
  function EmailIssues(isEmail: string -> bool, raw: string): (ms: seq<string>)
    ensures ms == [] <==> ValidEmail(isEmail, raw)
    ensures !isEmail(Trim(raw)) ==> ms != [] && ms[0] == EmailInvalid
    ensures Utf16Length(Trim(raw)) > 255 ==> ms != [] && Last(ms) == EmailTooLong
  {
    var t := Trim(raw);
    (if isEmail(t) then [] else [EmailInvalid])
    + (if Utf16Length(t) > 255 then [EmailTooLong] else [])
  }

  /** `/^(?=.*[a-z])(?=.*[A-Z])(?=.*\d)/`. */
  predicate MatchesPasswordPattern(p: string) {
    LookaheadFinds(p, IsAsciiLower) && LookaheadFinds(p, IsAsciiUpper) && LookaheadFinds(p, IsAsciiDigit)
  }

  /** `z.string().min(6).max(128).regex(...)`, on the value as typed (no trim).
      Whenever the composition requirement fails, its message is shown. */
  function PasswordIssues(p: string): (ms: seq<string>)
    ensures ms == [] <==> ValidPassword(p)
    ensures !MatchesPasswordPattern(p) ==> ms != [] && Last(ms) == PasswordWeak
    ensures MatchesPasswordPattern(p) && Utf16Length(p) < 6 ==> ms == [PasswordTooShort]
  {
    LookaheadFindsInFirstLine(p, IsAsciiLower);
    LookaheadFindsInFirstLine(p, IsAsciiUpper);
    LookaheadFindsInFirstLine(p, IsAsciiDigit);
    (if Utf16Length(p) < 6 then [PasswordTooShort] else [])
    + (if Utf16Length(p) > 128 then [PasswordTooLong] else [])
    + (if MatchesPasswordPattern(p) then [] else [PasswordWeak])
  }

  /** The messages of the failing checks of one field of the schema. */
  function Rule(isEmail: string -> bool, name: string, value: string): (ms: seq<string>)
    ensures ms == [] <==> FieldValid(isEmail, name, value)
  {
    if name == "first_name" then NameIssues(value, FirstNameRequired, FirstNameTooLong)
    else if name == "last_name" then NameIssues(value, LastNameRequired, LastNameTooLong)
    else if name == "user_name" then UserNameIssues(value)
    else if name == "email" then EmailIssues(isEmail, value)
    else if name == "password" then PasswordIssues(value)
    else []
  }

  function Rules(isEmail: string -> bool): (string, string) -> seq<string> {
    (name, value) => Rule(isEmail, name, value)
  }

  /** What a parsed field becomes: every field but the password is trimmed. */
  function Normalize(name: string, value: string): string {
    if name == "password" then value else Trim(value)
  }

  function Normalizer(): (string, string) -> string {
    (name, value) => Normalize(name, value)
  }

  /** Some declared field is absent or does not satisfy its rule. */
  predicate FieldFails(isEmail: string -> bool, values: map<string, string>, name: string) {
    name !in values || !FieldValid(isEmail, name, values[name])
  }

  /** `signUpSchema.safeParse(formData)`. */
  function Parse(isEmail: string -> bool, values: map<string, string>): ParseResult {
    SafeParse(FieldNames, values, Rules(isEmail), Normalizer())
  }

  /** A field fails the schema exactly when it fails its rule. */
  lemma RulesFail(isEmail: string -> bool, values: map<string, string>, name: string)
    ensures Fails(values, Rules(isEmail), name) <==> FieldFails(isEmail, values, name)
  {
    if name in values {
      assert Rules(isEmail)(name, values[name]) == Rule(isEmail, name, values[name]);
    }
  }

  /** Every declared field has a value. */
  predicate HasFields(values: map<string, string>) {
    "first_name" in values && "last_name" in values && "user_name" in values
    && "email" in values && "password" in values
  }

  /** Validation succeeds exactly when every field is present and satisfies its rule. */
  lemma ParseSucceeds(isEmail: string -> bool, values: map<string, string>)
    ensures Parse(isEmail, values).Success?
        <==> forall name :: name in FieldNames ==> !FieldFails(isEmail, values, name)
  {
    SafeParseSuccess(FieldNames, values, Rules(isEmail), Normalizer());
    forall name {
      RulesFail(isEmail, values, name);
    }
  }

  /** A successful validation yields the declared fields and no other key,
      each field normalized. */
  lemma ParsedValues(isEmail: string -> bool, values: map<string, string>, name: string)
    requires Parse(isEmail, values).Success?
    ensures name in Parse(isEmail, values).data <==> name in FieldNames
    ensures name in FieldNames ==> name in values && Parse(isEmail, values).data[name] == Normalize(name, values[name])
  {
    SafeParseSuccess(FieldNames, values, Rules(isEmail), Normalizer());
    if name in FieldNames {
      assert !Fails(values, Rules(isEmail), name);
      assert Parse(isEmail, values).data[name] == Normalizer()(name, values[name]);
    }
  }

  /** A successful validation yields the trimmed names, username and email
      and the password as typed, and no key but the declared fields. */
  lemma ParsedData(isEmail: string -> bool, values: map<string, string>)
    requires Parse(isEmail, values).Success?
    ensures HasFields(values)
    ensures forall name :: name in Parse(isEmail, values).data <==> name in FieldNames
    ensures Parse(isEmail, values).data["first_name"] == Trim(values["first_name"])
    ensures Parse(isEmail, values).data["last_name"] == Trim(values["last_name"])
    ensures Parse(isEmail, values).data["user_name"] == Trim(values["user_name"])
    ensures Parse(isEmail, values).data["email"] == Trim(values["email"])
    ensures Parse(isEmail, values).data["password"] == values["password"]
  {
    forall name ensures name in Parse(isEmail, values).data <==> name in FieldNames {
      ParsedValues(isEmail, values, name);
    }
    ParsedValues(isEmail, values, "first_name");
    ParsedValues(isEmail, values, "last_name");
    ParsedValues(isEmail, values, "user_name");
    ParsedValues(isEmail, values, "email");
    ParsedValues(isEmail, values, "password");
  }

  /** A failed validation leaves an error entry for exactly the failing
      fields, each holding the message of that field's last failing check. */
  lemma ParseErrors(isEmail: string -> bool, values: map<string, string>)
    requires Parse(isEmail, values).Failure?
    ensures Parse(isEmail, values).issues != []
    ensures forall name :: (name in ErrorsOf(Parse(isEmail, values).issues)
      <==> name in FieldNames && FieldFails(isEmail, values, name))
    ensures forall name :: (name in ErrorsOf(Parse(isEmail, values).issues)
      ==> Fails(values, Rules(isEmail), name)
          && ErrorsOf(Parse(isEmail, values).issues)[name] == Shown(values, Rules(isEmail), name))
  {
    SafeParseErrors(FieldNames, values, Rules(isEmail), Normalizer());
    forall name {
      RulesFail(isEmail, values, name);
    }
  }

  /** A field that is present but fails its rule makes validation fail, and
      the error shown under it is the message of its last failing check. */
  lemma ShownMessage(isEmail: string -> bool, values: map<string, string>, name: string)
    requires name in FieldNames && name in values && !FieldValid(isEmail, name, values[name])
    ensures Parse(isEmail, values).Failure?
    ensures name in ErrorsOf(Parse(isEmail, values).issues)
    ensures ErrorsOf(Parse(isEmail, values).issues)[name] == Last(Rule(isEmail, name, values[name]))
  {
    ParseSucceeds(isEmail, values);
    ParseErrors(isEmail, values);
    assert Rules(isEmail)(name, values[name]) == Rule(isEmail, name, values[name]);
  }

  /** The error shown under a failing first name: a blank one is required,
      any other is too long. */
  lemma FirstNameMessage(isEmail: string -> bool, values: map<string, string>)
    requires "first_name" in values && !ValidName(values["first_name"])
    ensures Parse(isEmail, values).Failure?
    ensures "first_name" in ErrorsOf(Parse(isEmail, values).issues)
    ensures ErrorsOf(Parse(isEmail, values).issues)["first_name"]
      == if AllWhitespace(values["first_name"]) then FirstNameRequired else FirstNameTooLong
  {
    ShownMessage(isEmail, values, "first_name");
  }

  /** The error shown under a failing username: a character outside the
      allowed set wins over any length message. */
  lemma UserNameMessage(isEmail: string -> bool, values: map<string, string>)
    requires "user_name" in values && !ValidUserName(values["user_name"])
    ensures Parse(isEmail, values).Failure?
    ensures "user_name" in ErrorsOf(Parse(isEmail, values).issues)
    ensures ErrorsOf(Parse(isEmail, values).issues)["user_name"]
      == if !MatchesUserNamePattern(Trim(values["user_name"])) then UserNameCharset
         else if |Trim(values["user_name"])| < 3 then UserNameTooShort
         else UserNameTooLong
  {
    ShownMessage(isEmail, values, "user_name");
    UserNameLastIssue(Trim(values["user_name"]));
  }

  /** The error shown under a failing email: too long wins over the shape. */
  lemma EmailMessage(isEmail: string -> bool, values: map<string, string>)
    requires "email" in values && !ValidEmail(isEmail, values["email"])
    ensures Parse(isEmail, values).Failure?
    ensures "email" in ErrorsOf(Parse(isEmail, values).issues)
    ensures ErrorsOf(Parse(isEmail, values).issues)["email"]
      == if Utf16Length(Trim(values["email"])) > 255 then EmailTooLong else EmailInvalid
  {
    ShownMessage(isEmail, values, "email");
  }

  /** The error shown under a failing password: a missing letter or digit
      wins over any length message. */
  lemma PasswordMessage(isEmail: string -> bool, values: map<string, string>)
    requires "password" in values && !ValidPassword(values["password"])
    ensures Parse(isEmail, values).Failure?
    ensures "password" in ErrorsOf(Parse(isEmail, values).issues)
    ensures ErrorsOf(Parse(isEmail, values).issues)["password"]
      == if !MatchesPasswordPattern(values["password"]) then PasswordWeak
         else if Utf16Length(values["password"]) < 6 then PasswordTooShort
         else PasswordTooLong
  {
    ShownMessage(isEmail, values, "password");
  }

  /** A two-letter username is reported as too short. */
  lemma ShortUserNameExample(isEmail: string -> bool, values: map<string, string>)
    requires "user_name" in values && values["user_name"] == "ab"
    ensures Parse(isEmail, values).Failure?
    ensures "user_name" in ErrorsOf(Parse(isEmail, values).issues)
    ensures ErrorsOf(Parse(isEmail, values).issues)["user_name"] == UserNameTooShort
  {
    var u := values["user_name"];
    assert Trim(u) == u by {
      assert !IsWhitespace(u[0]) && !IsWhitespace(u[1]);
    }
    assert MatchesUserNamePattern(u) by {
      assert IsWordChar(u[0]) && IsWordChar(u[1]);
    }
    UserNameMessage(isEmail, values);
  }

  /** A short username with a symbol in it is reported for the symbol. */
  lemma UserNameSymbolExample(isEmail: string -> bool, values: map<string, string>)
    requires "user_name" in values && values["user_name"] == "ab$"
    ensures Parse(isEmail, values).Failure?
    ensures "user_name" in ErrorsOf(Parse(isEmail, values).issues)
    ensures ErrorsOf(Parse(isEmail, values).issues)["user_name"] == UserNameCharset
  {
    var u := values["user_name"];
    assert Trim(u) == u by {
      assert !IsWhitespace(u[0]) && !IsWhitespace(u[2]);
    }
    assert !MatchesUserNamePattern(Trim(u)) by {
      assert !IsWordChar(u[2]);
    }
    UserNameMessage(isEmail, values);
  }

  /** A password with no upper-case letter is reported as too weak. */
  lemma WeakPasswordExample(isEmail: string -> bool, values: map<string, string>)
    requires "password" in values && values["password"] == "alllower1"
    ensures Parse(isEmail, values).Failure?
    ensures "password" in ErrorsOf(Parse(isEmail, values).issues)
    ensures ErrorsOf(Parse(isEmail, values).issues)["password"] == PasswordWeak
  {
    var p := values["password"];
    assert !LookaheadFinds(p, IsAsciiUpper) by {
      forall i | 0 <= i < |p| ensures !IsAsciiUpper(p[i]) {
      }
    }
    PasswordMessage(isEmail, values);
  }

  // ---------------------------------------------------------------------------
  // The form controller

  class SignUpForm {
    /** zod's email-address shape check, whose pattern is not part of this model. */
    const isEmail: string -> bool
    /** `formData` */
    var fields: map<string, string>
    /** `errors` */
    var errors: ErrorMap
    var isSubmitting: bool
    /** The bodies handed to the sign-up endpoint, oldest first. */
    var posted: seq<map<string, string>>

    /** Every declared field has a value; while a submission is in flight the
        error map stays as the submission left it, empty. */
    ghost predicate Valid()
      reads this
    {
      HasFields(fields) && (isSubmitting ==> errors == map[])
    }

    /** The form as mounted: every field empty, no error, not submitting. */
    constructor (isEmail: string -> bool)
      ensures Valid()
      ensures this.isEmail == isEmail
      ensures fields == map["first_name" := "", "last_name" := "", "user_name" := "", "email" := "", "password" := ""]
      ensures errors == map[] && !isSubmitting && posted == []
    {
      this.isEmail := isEmail;
      fields := map["first_name" := "", "last_name" := "", "user_name" := "", "email" := "", "password" := ""];
      errors := map[];
      isSubmitting := false;
      posted := [];
    }

    /** `handleChange`: the named field takes the typed value, and its error,
        if it has one, is blanked. The inputs stay enabled while submitting. */
    method HandleChange(name: string, value: string)
      requires Valid()
      modifies this
      ensures Valid()
      ensures fields == old(fields)[name := value]
      ensures errors.Keys == old(errors).Keys
      ensures name in errors ==> errors[name] == ""
      ensures forall k :: k in errors && k != name ==> errors[k] == old(errors)[k]
      ensures name !in old(errors) || old(errors)[name] == "" ==> errors == old(errors)
      ensures isSubmitting == old(isSubmitting) && posted == old(posted)
    {
      fields := fields[name := value];
      errors := ClearOnEdit(errors, name);
    }

    /** The synchronous part of `handleSubmit`, up to the awaited post: the
        flag is raised and the errors cleared; a failed validation leaves an
        error for exactly the failing fields, lowers the flag and sends nothing;
        otherwise the parsed data is sent and the flag stays raised. */
    method BeginSubmit() returns (b: Begin)
      requires Valid() && !isSubmitting
      modifies this
      ensures Valid()
      ensures fields == old(fields)
      ensures match Parse(isEmail, old(fields))
        case Failure(issues) =>
          b == ValidationFailed && errors == ErrorsOf(issues) && !isSubmitting && posted == old(posted)
        case Success(data) =>
          b == Sent(data) && errors == map[] && isSubmitting && posted == old(posted) + [data]
    {
      isSubmitting := true;
      errors := map[];
      var result := Parse(isEmail, fields);
      match result
      case Failure(issues) =>
        ShowIssues(issues);
        b := ValidationFailed;
      case Success(data) =>
        Post(data);
        b := Sent(data);
    }

    /** The validation-failure path: the error map is rebuilt from the issues
        and the flag lowered. */
    method ShowIssues(issues: seq<Issue>)
      modifies this
      ensures errors == ErrorsOf(issues) && !isSubmitting
      ensures fields == old(fields) && posted == old(posted)
    {
      var newErrors := BuildErrorMap(issues);
      errors := newErrors;
      isSubmitting := false;
    }

    /** The validated data is handed to the transport. */
    method Post(data: map<string, string>)
      modifies this
      ensures posted == old(posted) + [data]
      ensures fields == old(fields) && errors == old(errors) && isSubmitting == old(isSubmitting)
    {
      posted := posted + [data];
    }

    /** The rest of `handleSubmit`, once the post settles: a thrown error
        leaves only the generic submission error; any response, whatever its
        status, leaves no error. Either way the flag is lowered. */
    method FinishSubmit(outcome: Outcome)
      requires Valid() && isSubmitting
      modifies this
      ensures Valid()
      ensures !isSubmitting && fields == old(fields) && posted == old(posted)
      ensures errors == if outcome.Threw? then map[SubmitField := SubmitFailed] else map[]
    {
      if outcome.Threw? {
        errors := map[SubmitField := SubmitFailed];
      }
      isSubmitting := false;
    }
  }
}
