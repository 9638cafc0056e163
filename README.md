# Credential forms: validation, error map and submission

This project models the two authentication forms of the web client: the
sign-up form (`SignUpForm`) and the sign-in form (`SignInForm`). It models
three parts of each form and proves properties about each:

- **The field validator.** Each form has a zod object schema. Every field is
  a chain of string checks: `trim`, `min` or `max` length, a regular
  expression, or the email-shape check. zod runs the checks of a field in
  declared order. Since these checks do not abort, every failing check adds
  one issue. A `trim` changes the value that the later checks see. A key
  missing from the form data adds the issue `"Required"`. Keys the schema
  does not declare are dropped from the parsed data. `.length` counts UTF-16
  code units. `trim` removes ECMAScript white space and line terminators.
  The password lookahead `^(?=.*[a-z])…` looks only before the first line
  terminator, because the regex `.` does not match one. The model follows
  all of these rules exactly.
- **The error map.** The submit handler folds the issue list into a
  dictionary inside a `forEach`, one write per issue. A later issue for the
  same field overwrites an earlier one, so the message shown under a field
  is the one from its last failing check.
- **The submission state machine.** It works over `formData`, `errors` and
  `isSubmitting`.
  - An input event stores one field. It also blanks that field's error, if
    the error was non-empty.
  - A submit is split at its single `await`. `BeginSubmit` raises the flag,
    validates, and either shows the issues or hands the data to the
    transport. `FinishSubmit` takes the transport's outcome: a thrown error,
    or a resolved status.
  - A `posted` field records what the form sent. On sign-in, a
    `navigatedTo` field records the router pushes.

`Text` (text.dfy) defines JavaScript's whitespace, `trim`, the UTF-16
length, and the character classes of the two regular expressions.

`Forms` (forms.dfy) defines what both forms share:
- the last-wins fold as a function, `ErrorsOf`, and as the loop that
  computes it, `BuildErrorMap`;
- a generic model of `safeParse` over a list of field names and a rule per
  field, with its success and failure characterisations;
- the error blanking done by `handleChange`.

`SignUp` (sign_up.dfy) and `SignIn` (sign_in.dfy) each hold:
- a form's checks, with their exact messages;
- a reference predicate per field saying when the field passes;
- the lemmas that give the message shown for each failing field;
- the form's controller, as a class.

The email-shape check of zod is a parameter `isEmail: string -> bool`, kept
as a `const` of each form.

Some behaviour that follows from the code is worth stating:
- **Which message a field shows.** zod runs every check of a field, and
  the `forEach` fold overwrites earlier entries, so the message shown under
  a field is its last failing check's, not its first.
- **Sign-in email.** A blank email fails both `min(1)` and `.email()`. The
  shape issue comes later and wins, so "Email is required" is never shown
  while the shape check rejects the empty text (`SignIn.EmailMessage`).
- **Sign-in errors are not cleared before validating.** A successful
  validation keeps the previous errors, including an old `submit` message.
  They stay after a 200 or 201 response and after a thrown error; only a
  resolved status other than 200 or 201 replaces them.
- **Sign-in transport errors.** A thrown error is only logged: the errors
  stay as they were and no route is pushed.
- **Sign-up outcomes.** Any response, whatever its status, leaves the
  errors empty. Only a thrown error sets, as the only entry, the generic
  `submit` message. Sign-up never navigates.
- **Sign-up inputs stay enabled while submitting** (only the button is
  disabled), so `HandleChange` may run while a submission is in flight.
  Sign-in disables its inputs, so its `HandleChange` requires that no
  submission is in flight.

## Model

| member | source | states |
|---|---|---|
| Text.Trim | components/Sign-up/SignUpForm.tsx:48 | the trimmed value neither starts nor ends with whitespace; it is empty exactly when the input is all whitespace; a value with no whitespace at either end is unchanged; with Text.TrimIsInfix and Text.TrimUnique, it is the one infix of the input between a whitespace prefix and a whitespace suffix that neither starts nor ends with whitespace; by Text.TrimIdempotent, trimming again changes nothing |
| Text.TrimIsInfix | components/Sign-up/SignUpForm.tsx:48 | the trimmed value is some infix of the input, preceded and followed in it only by whitespace |
| Text.TrimUnique | components/Sign-up/SignUpForm.tsx:48 | any infix between a whitespace prefix and a whitespace suffix that neither starts nor ends with whitespace is exactly the trimmed value |
| Text.TrimIdempotent | components/Sign-up/SignUpForm.tsx:48 | trimming an already trimmed value changes nothing |
| Text.IsWhitespace | components/Sign-up/SignUpForm.tsx:48 | the characters JavaScript's `trim` removes: tab, line feed, vertical tab, form feed, carriage return, space, no-break space, the Unicode space separators, the line and paragraph separators and the byte-order mark (a predicate; no contract) |
| Text.LookaheadFinds | components/Sign-up/SignUpForm.tsx:74-77 | the anchored lookahead `(?=.*[cls])`: some character of the class occurs before the first line terminator (a predicate; no contract) |
| Text.Utf16Length | components/Sign-up/SignUpForm.tsx:49-50 | the length that `min`/`max` compare lies between the number of characters and twice that, and is zero only for empty text |
| Text.LookaheadFindsInFirstLine | components/Sign-up/SignUpForm.tsx:75 | for a class with no line terminator, the anchored lookahead `(?=.*[cls])` succeeds iff the first line contains a character of the class |
| Forms.BuildErrorMap | components/Sign-up/SignUpForm.tsx:88-93 | the `forEach` loop that writes each issue's message under its field leaves exactly the last-wins fold of the issue list |
| Forms.ErrorsOfKeys | components/Sign-up/SignUpForm.tsx:90-93 | the error map has an entry for exactly the fields named by some issue |
| Forms.ErrorsOfLastWins | components/Sign-up/SignUpForm.tsx:90-93 | a field's entry is the message of the last issue for that field; earlier messages are overwritten |
| Forms.ErrorsOfAppend | components/Sign-up/SignUpForm.tsx:90-93 | folding two issue lists one after the other gives the first map overridden by the second |
| Forms.ErrorsOf | components/Sign-up/SignUpForm.tsx:88-93 | the `newErrors` object the `forEach` leaves: each issue's message written under its field, later issues overwriting earlier ones (a function; its properties are Forms.ErrorsOfKeys, Forms.ErrorsOfLastWins and Forms.ErrorsOfAppend, and Forms.BuildErrorMap is proved to compute it) |
| Forms.SchemaIssuesEmpty | components/Sign-up/SignUpForm.tsx:85 | the schema produces no issue iff every declared field is present and passes all its checks |
| Forms.SchemaErrors | components/Sign-up/SignUpForm.tsx:85-93 | with distinct field names, the fold of the schema's issues maps exactly the failing fields, each to "Required" if missing or else to its last failing check's message |
| Forms.SafeParse | components/Sign-up/SignUpForm.tsx:85 | a failed parse always carries at least one issue |
| Forms.SchemaIssues | components/Sign-up/SignUpForm.tsx:45-85 | zod's issue list for `safeParse`: field by field in declared order, every failing check of each field in its declared order, "Required" for a missing field (a function; its properties are Forms.SchemaIssuesEmpty and Forms.SchemaErrors) |
| Forms.FieldIssues | components/Sign-up/SignUpForm.tsx:45-77 | one field's issues: "Required" if the key is missing, otherwise one issue per failing check on the normalized value, in order; none iff the field passes |
| Forms.Normalized | components/Sign-up/SignUpForm.tsx:85 | `result.data`, the body later posted: exactly the declared keys that are present (unknown keys stripped), each value transformed as its schema says (trimmed or kept) |
| Forms.SafeParseSuccess | components/Sign-up/SignUpForm.tsx:85 | parsing succeeds iff every declared field passes; the data then has exactly the declared keys (unknown keys are stripped), each value normalized |
| Forms.SafeParseErrors | components/Sign-up/SignUpForm.tsx:85-93 | on failure, the error map built from the issues is the failing fields mapped to their shown message |
| Forms.ClearOnEdit | components/Sign-up/SignUpForm.tsx:39-42 | the edited field's error, if present, becomes "" (the key is kept); no key is added or removed; every other entry is unchanged; an already blank or absent error leaves the map as it was |
| SignUp.NameIssues | components/Sign-up/SignUpForm.tsx:46-55 | a first or last name has no issue iff its trimmed length is 1 to 50; a blank one gives only the required message, any other failing one only the too-long message |
| SignUp.UserNameIssues | components/Sign-up/SignUpForm.tsx:56-64 | a username has no issue iff, trimmed, it has 3 to 30 characters, all ASCII letters, digits or underscores |
| SignUp.TrimmedUserNameIssues | components/Sign-up/SignUpForm.tsx:59-64 | the three username checks on the trimmed value (min 3, max 30, pattern) pass iff the length is 3 to 30 and every character is in the class |
| SignUp.UserNameLastIssue | components/Sign-up/SignUpForm.tsx:59-64 | a pattern failure's message is always the last username issue; with the pattern matched, only the broken length bound is reported |
| SignUp.EmailIssues | components/Sign-up/SignUpForm.tsx:65-69 | an email has no issue iff, trimmed, it is email-shaped and at most 255 code units; a bad shape is reported first, too long last |
| SignUp.PasswordIssues | components/Sign-up/SignUpForm.tsx:70-77 | an untrimmed password has no issue iff it is 6 to 128 code units and its first line holds a lower-case letter, an upper-case letter and a digit; a composition failure's message is always last; a well-composed short password gives only the too-short message |
| SignUp.Rule | components/Sign-up/SignUpForm.tsx:45-78 | a field's checks produce no message iff the field satisfies its reference predicate |
| SignUp.Normalize | components/Sign-up/SignUpForm.tsx:45-77 | every field but `password` is trimmed before its checks; `password` is checked as typed (a function; no contract) |
| SignUp.MatchesUserNamePattern | components/Sign-up/SignUpForm.tsx:61-64 | `/^[a-zA-Z0-9_]+$/`: one or more characters, each an ASCII letter, digit or underscore (a predicate; no contract) |
| SignUp.MatchesPasswordPattern | components/Sign-up/SignUpForm.tsx:74-77 | `/^(?=.*[a-z])(?=.*[A-Z])(?=.*\d)/`: each of the three lookaheads finds its class (a predicate; no contract) |
| SignUp.Parse | components/Sign-up/SignUpForm.tsx:85 | `signUpSchema.safeParse`: the sign-up schema applied to the form's values (a function; its properties are SignUp.ParseSucceeds, SignUp.ParsedValues and SignUp.ParseErrors) |
| SignUp.ParseSucceeds | components/Sign-up/SignUpForm.tsx:45-78 | sign-up validation succeeds iff all five fields are present and valid |
| SignUp.ParsedData | components/Sign-up/SignUpForm.tsx:45-77 | a successful validation yields exactly the five declared keys: first name, last name, username and email trimmed, the password as typed |
| SignUp.ParseErrors | components/Sign-up/SignUpForm.tsx:85-97 | a failed validation has an issue, and its error map has an entry for exactly the failing fields, each the message of that field's last failing check |
| SignUp.ShownMessage | components/Sign-up/SignUpForm.tsx:87-93 | a present but invalid field makes validation fail and shows the last message of its own checks |
| SignUp.FirstNameMessage | components/Sign-up/SignUpForm.tsx:46-50 | a failing first name shows "First name is required" if blank and "First name is too long" otherwise |
| SignUp.UserNameMessage | components/Sign-up/SignUpForm.tsx:56-64 | a failing username shows the character-set message if the pattern fails, else the too-short or too-long message |
| SignUp.EmailMessage | components/Sign-up/SignUpForm.tsx:65-69 | a failing email shows "Email is too long" if over 255 code units, else the shape message |
| SignUp.PasswordMessage | components/Sign-up/SignUpForm.tsx:70-77 | a failing password shows the composition message if a letter or digit is missing, else the too-short or too-long message |
| SignUp.ShortUserNameExample | components/Sign-up/SignUpForm.tsx:59 | the username "ab" shows "Username must be at least 3 characters" |
| SignUp.UserNameSymbolExample | components/Sign-up/SignUpForm.tsx:61-64 | the username "ab$" shows the character-set message, not the length message |
| SignUp.WeakPasswordExample | components/Sign-up/SignUpForm.tsx:74-77 | the password "alllower1" shows the composition message |
| SignUp.SignUpForm.constructor | components/Sign-up/SignUpForm.tsx:23-33 | the form mounts with all five fields empty, no error, not submitting and nothing sent |
| SignUp.SignUpForm.HandleChange | components/Sign-up/SignUpForm.tsx:35-43 | only the named field takes the new value; its error is blanked if present, no other error changes; the flag and what was sent are untouched |
| SignUp.SignUpForm.BeginSubmit | components/Sign-up/SignUpForm.tsx:80-104 | errors are cleared first; on a failed validation the errors become the fold of the issues, nothing is sent and the flag is down; otherwise the parsed data is sent once, errors stay empty and the flag stays up |
| SignUp.SignUpForm.ShowIssues | components/Sign-up/SignUpForm.tsx:88-96 | the error map is replaced by the fold of the issues and the flag lowered; fields and sends unchanged |
| SignUp.SignUpForm.Post | components/Sign-up/SignUpForm.tsx:101-104 | the data is appended to what was sent; nothing else changes |
| SignUp.SignUpForm.FinishSubmit | components/Sign-up/SignUpForm.tsx:105-111 | a thrown error leaves exactly `{submit: "Failed to create account. Please try again."}`; any response leaves no error; the flag is down on every path |
| SignIn.EmailIssues | components/Sign-in/SignInForm.tsx:30-35 | an email has no issue iff, trimmed, it is non-empty, email-shaped and at most 255 code units |
| SignIn.EmailLastIssue | components/Sign-in/SignInForm.tsx:32-34 | when the shape check rejects empty text, a blank email gives the required and then the shape message, and the required message is never the last one |
| SignIn.PasswordIssues | components/Sign-in/SignInForm.tsx:36-39 | an untrimmed password has no issue iff it is 1 to 128 code units; an empty one gives only the required message; an all-whitespace one of at most 128 characters passes |
| SignIn.Rule | components/Sign-in/SignInForm.tsx:29-40 | a field's checks produce no message iff the field satisfies its reference predicate |
| SignIn.Normalize | components/Sign-in/SignInForm.tsx:29-39 | `email` is trimmed before its checks; `password` is checked as typed (a function; no contract) |
| SignIn.Parse | components/Sign-in/SignInForm.tsx:56 | `signInSchema.safeParse`: the sign-in schema applied to the form's values (a function; its properties are SignIn.ParseSucceeds, SignIn.ParsedValues and SignIn.ParseErrors) |
| SignIn.ParseSucceeds | components/Sign-in/SignInForm.tsx:29-40 | sign-in validation succeeds iff both fields are present and valid |
| SignIn.ParsedData | components/Sign-in/SignInForm.tsx:29-40 | a successful validation yields exactly the keys email (trimmed) and password (as typed) |
| SignIn.ParseErrors | components/Sign-in/SignInForm.tsx:56-66 | a failed validation has an issue, and its error map has an entry for exactly the failing fields, each the message of that field's last failing check |
| SignIn.ShownMessage | components/Sign-in/SignInForm.tsx:58-64 | a present but invalid field makes validation fail and shows the last message of its own checks |
| SignIn.EmailMessage | components/Sign-in/SignInForm.tsx:30-35 | when the shape check rejects empty text, a failing email never shows "Email is required", and a blank one shows "Please enter a valid email address" |
| SignIn.PasswordMessage | components/Sign-in/SignInForm.tsx:36-39 | a failing password shows "Password is required" if empty and "Password is too long" otherwise |
| SignIn.AcceptedTrimmed | components/Sign-in/SignInForm.tsx:29-40 | values with exactly the form's two keys, a valid email and a valid password pass validation and are sent with only the email trimmed |
| SignIn.CredentialsSent | components/Sign-in/SignInForm.tsx:56-75 | the form's typed email and password, when valid, are sent as the trimmed email and the password as typed |
| SignIn.ExampleCredentials | components/Sign-in/SignInForm.tsx:29-40 | "a@b.com" (accepted by the shape check) and "secret" pass validation and "a@b.com" has nothing to trim |
| SignIn.SignInForm.constructor | components/Sign-in/SignInForm.tsx:23-27 | the form mounts with both fields empty, no error, not submitting, nothing sent and no navigation |
| SignIn.SignInForm.HandleChange | components/Sign-in/SignInForm.tsx:42-50 | only the named field takes the new value; its error is blanked if present, no other error changes; no send and no navigation |
| SignIn.SignInForm.BeginSubmit | components/Sign-in/SignInForm.tsx:52-75 | errors are not cleared; on a failed validation they are replaced wholesale by the fold of the issues, nothing is sent and the flag is down; otherwise the parsed data is sent once, errors are kept and the flag stays up; no navigation either way |
| SignIn.SignInForm.ShowIssues | components/Sign-in/SignInForm.tsx:59-68 | the error map is replaced by the fold of the issues and the flag lowered; fields, sends and navigation unchanged |
| SignIn.SignInForm.Post | components/Sign-in/SignInForm.tsx:72-75 | the data is appended to what was sent; nothing else changes |
| SignIn.SignInForm.FinishSubmit | components/Sign-in/SignInForm.tsx:76-88 | status 200 or 201 pushes "/dashboard" and keeps the errors; another status sets exactly `{submit: "Login failed. Please try again."}` and does not navigate; a thrown error changes neither; the flag is down on every path |
| SignIn.LoginSucceeded | components/Sign-in/SignInForm.tsx:78 | the response status is 200 or 201 (a predicate; no contract; SignIn.SignInForm.FinishSubmit uses it to choose between navigating and the login error) |
| SignIn.FillAndSubmit | components/Sign-in/SignInForm.tsx:52-75 | a fresh form filled with two values and submitted holds those values, and has either the fold of the issues shown and nothing sent, or the parsed data sent once with the flag up |
| SignIn.SuccessfulLogin | components/Sign-in/SignInForm.tsx:72-80 | valid credentials answered with 200 or 201 are sent once, with the email trimmed, and the form navigates to "/dashboard" with no error and the flag down |
| SignIn.RejectedLogin | components/Sign-in/SignInForm.tsx:72-83 | valid credentials answered with another status are sent once, with the email trimmed, and the form shows only the generic login error and does not navigate |
| SignIn.ExampleLogin | components/Sign-in/SignInForm.tsx:72-80 | logging in as "a@b.com" with "secret", answered with 200, sends exactly those two values and navigates to "/dashboard" with no error |
| SignIn.BlankEmail | components/Sign-in/SignInForm.tsx:30-35 | a blank email sends nothing, does not navigate, lowers the flag and shows the shape message under the email field |

## Left out

- The network call (`axios.post`, `process.env.NEXT_PUBLIC_BASE_URL`, the
  endpoint paths) is replaced by the `posted` record and by the `Outcome`
  value passed to `FinishSubmit`. That value is either a thrown error or a
  resolved status. Which statuses axios turns into a throw is not modelled:
  any status may resolve.
- `useRouter().push` is recorded as an append to `navigatedTo`.
- `console.log` and `console.error` are diagnostics only, so they are not
  modelled.
- `e.preventDefault()`, the JSX markup, CSS classes, labels and links are
  not modelled. The `disabled={isSubmitting}` attributes are modelled as
  preconditions:
  - `BeginSubmit` requires that no submission is in flight, on both forms;
  - the sign-in `HandleChange` requires the same.
- React state updates are treated as atomic events. `setFormData({...formData, ...})`
  reads the value of the current render, and updates batched within one
  render are not modelled.
- The regular expression behind zod's `.email()` is the parameter
  `isEmail`, whose definition is not part of this model. The properties
  about a blank email assume only that it rejects the empty text.
- The zod library itself is not part of this model. Three of its
  behaviours are modelled as assumptions:
  - string checks run in declared order and do not abort;
  - a missing key adds the issue "Required";
  - unknown keys are stripped.
  zod's type check is not modelled, because every form value is a string.
- components/Navbar/Navbar.tsx (theme toggle) and app/page.tsx (static
  markup) are not part of this model.
- The sign-up response body and status are not modelled, because the code
  does nothing with them but log them.
