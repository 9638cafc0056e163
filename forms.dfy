/**
 * What the sign-in and sign-up forms have in common: the issue list a zod
 * object schema produces, the error map each form folds that list into, the
 * way an input event blanks a field's error, and the two halves of a
 * submission (the validation that ends it early or hands a body to the
 * transport, and the transport's outcome).
 */
module Forms {
  import opened Text

  /** One validation issue: the field of the object it is about (zod's
      `issue.path[0]`) and its message. */
  datatype Issue = Issue(field: string, message: string)

  /** A `Record<string, string>` from field name (or the pseudo-field
      `submit`) to the message displayed under it. */
  type ErrorMap = map<string, string>

  /** What `safeParse` returns: the parsed object, or the issues found. */
  datatype ParseResult = Success(data: map<string, string>) | Failure(issues: seq<Issue>)

  /** How the awaited `axios.post` settles: it throws, or it resolves with a
      response of some HTTP status. */
  datatype Outcome = Threw | Resolved(status: int)

  /** How the synchronous first half of a submission ends: validation failed
      and nothing was sent, or this body was handed to the transport. */
  datatype Begin = ValidationFailed | Sent(body: map<string, string>)

  /** zod's message for a field that is absent from the parsed object. */
  const RequiredMessage := "Required"

  /** The reserved pseudo-field that carries a submission error. */
  const SubmitField := "submit"

  function Last<T>(s: seq<T>): T
    requires s != []
  {
    s[|s| - 1]
  }

  predicate NoDuplicates(names: seq<string>) {
    forall i, j :: 0 <= i < j < |names| ==> names[i] != names[j]
  }

  /** The messages of one field's failing checks, as issues on that field. */
  function IssuesFor(field: string, messages: seq<string>): (r: seq<Issue>)
    ensures |r| == |messages|
    ensures forall i :: 0 <= i < |r| ==> r[i] == Issue(field, messages[i])
  {
    seq(|messages|, i requires 0 <= i < |messages| => Issue(field, messages[i]))
  }

  // ---------------------------------------------------------------------------
  // The error map built from an issue list

  /** The map built by writing every issue's message under its field, in
      issue order: the specification of `BuildErrorMap`. */
  function ErrorsOf(issues: seq<Issue>): ErrorMap
  {
    if issues == [] then map[]
    else ErrorsOf(issues[..|issues| - 1])[Last(issues).field := Last(issues).message]
  }

  /** The `forEach` loop of both forms' `handleSubmit`, which fills a fresh
      `newErrors` record from the issue list, one assignment per issue. */
  method BuildErrorMap(issues: seq<Issue>) returns (newErrors: ErrorMap)
    ensures newErrors == ErrorsOf(issues)
  {
    newErrors := map[];
    var i := 0;
    while i < |issues|
      invariant 0 <= i <= |issues|
      invariant newErrors == ErrorsOf(issues[..i])
    {
      assert issues[..i + 1][..i] == issues[..i];
      newErrors := newErrors[issues[i].field := issues[i].message];
      i := i + 1;
    }
    assert issues[..i] == issues;
  }

  /** A field has an entry exactly when some issue is about it. */
  lemma {:induction false} ErrorsOfKeys(issues: seq<Issue>)
    ensures ErrorsOf(issues).Keys == set i | 0 <= i < |issues| :: issues[i].field
  {
    if issues != [] {
      var init := issues[..|issues| - 1];
      ErrorsOfKeys(init);
      assert (set i | 0 <= i < |issues| :: issues[i].field)
          == (set i | 0 <= i < |init| :: init[i].field) + {Last(issues).field};
    }
  }

  /** Last wins: the entry of a field is the message of the last issue about it. */
  lemma {:induction false} ErrorsOfLastWins(issues: seq<Issue>, i: nat)
    requires i < |issues|
    requires forall j :: i < j < |issues| ==> issues[j].field != issues[i].field
    ensures issues[i].field in ErrorsOf(issues)
    ensures ErrorsOf(issues)[issues[i].field] == issues[i].message
  {
    if i < |issues| - 1 {
      var init := issues[..|issues| - 1];
      assert init[i] == issues[i];
      ErrorsOfLastWins(init, i);
    }
  }

  /** Folding two issue lists one after the other is the right-biased union
      of their maps. */
  lemma {:induction false} ErrorsOfAppend(a: seq<Issue>, b: seq<Issue>)
    ensures ErrorsOf(a + b) == ErrorsOf(a) + ErrorsOf(b)
  {
    if b == [] {
      assert a + b == a;
    } else {
      var b' := b[..|b| - 1];
      assert (a + b)[..|a + b| - 1] == a + b';
      assert Last(a + b) == Last(b);
      ErrorsOfAppend(a, b');
    }
  }

  /** The issues of one field leave at most one entry: the last message. */
  lemma {:induction false} ErrorsOfIssuesFor(field: string, messages: seq<string>)
    ensures ErrorsOf(IssuesFor(field, messages))
      == if messages == [] then map[] else map[field := Last(messages)]
  {
    if messages != [] {
      var r := IssuesFor(field, messages);
      var init := messages[..|messages| - 1];
      assert r[..|r| - 1] == IssuesFor(field, init);
      ErrorsOfIssuesFor(field, init);
    }
  }

  // ---------------------------------------------------------------------------
  // An object schema of string fields, with zod's non-aborting checks

  /** A field fails when it is absent or one of its checks fails. */
  predicate Fails(values: map<string, string>, rules: (string, string) -> seq<string>, name: string) {
    name !in values || rules(name, values[name]) != []
  }

  /** The message displayed for a failing field: that of its last issue. */
  function Shown(values: map<string, string>, rules: (string, string) -> seq<string>, name: string): string
    requires Fails(values, rules, name)
  {
    if name !in values then RequiredMessage else Last(rules(name, values[name]))
  }

  /** The issues `safeParse` reports for an object schema whose fields are
      `names` in declared order, where `rules(name, value)` lists the messages
      of every check of that field that `value` fails, in the order the checks
      are declared. */
  function SchemaIssues(names: seq<string>, values: map<string, string>,
                        rules: (string, string) -> seq<string>): seq<Issue>
  {
    if names == [] then []
    else
      FieldIssues(names[0], values, rules) + SchemaIssues(names[1..], values, rules)
  }

  /** The reference error map: an entry for each failing declared field,
      holding the message shown for it. */
  function ExpectedErrors(names: seq<string>, values: map<string, string>,
                          rules: (string, string) -> seq<string>): ErrorMap
  {
    map name | name in names && Fails(values, rules, name) :: Shown(values, rules, name)
  }

  /** The issues of the first declared field alone. */
  function FieldIssues(name: string, values: map<string, string>,
                       rules: (string, string) -> seq<string>): (r: seq<Issue>)
    ensures r == [] <==> !Fails(values, rules, name)
  {
    if name !in values then [Issue(name, RequiredMessage)]
    else IssuesFor(name, rules(name, values[name]))
  }

  lemma FieldErrors(name: string, values: map<string, string>,
                    rules: (string, string) -> seq<string>)
    ensures ErrorsOf(FieldIssues(name, values, rules))
      == if Fails(values, rules, name) then map[name := Shown(values, rules, name)] else map[]
  {
    if name !in values {
      assert ErrorsOf([Issue(name, RequiredMessage)]) == ErrorsOf([])[name := RequiredMessage];
    } else {
      ErrorsOfIssuesFor(name, rules(name, values[name]));
    }
  }

  lemma {:induction false} SchemaIssuesEmpty(names: seq<string>, values: map<string, string>,
                                             rules: (string, string) -> seq<string>)
    ensures SchemaIssues(names, values, rules) == []
        <==> forall name :: name in names ==> !Fails(values, rules, name)
  {
    if names != [] {
      var n, rest := names[0], names[1..];
      assert SchemaIssues(names, values, rules)
          == FieldIssues(n, values, rules) + SchemaIssues(rest, values, rules);
      SchemaIssuesEmpty(rest, values, rules);
      assert forall name :: name in names <==> name == n || name in rest;
    }
  }

  /** Splitting the reference map at the first declared field. */
  lemma ExpectedErrorsCons(names: seq<string>, values: map<string, string>,
                           rules: (string, string) -> seq<string>)
    requires names != [] && names[0] !in names[1..]
    ensures ExpectedErrors(names, values, rules)
      == (if Fails(values, rules, names[0]) then map[names[0] := Shown(values, rules, names[0])] else map[])
         + ExpectedErrors(names[1..], values, rules)
  {
    assert forall name :: name in names <==> name == names[0] || name in names[1..];
  }

  lemma NoDuplicatesTail(names: seq<string>)
    requires names != [] && NoDuplicates(names)
    ensures NoDuplicates(names[1..]) && names[0] !in names[1..]
  {
    var rest := names[1..];
    forall i, j | 0 <= i < j < |rest| ensures rest[i] != rest[j] {
      assert rest[i] == names[i + 1] && rest[j] == names[j + 1];
    }
  }

  /** Folding the schema's issues gives the reference error map. */
  lemma {:induction false} SchemaErrors(names: seq<string>, values: map<string, string>,
                                        rules: (string, string) -> seq<string>)
    requires NoDuplicates(names)
    ensures ErrorsOf(SchemaIssues(names, values, rules)) == ExpectedErrors(names, values, rules)
  {
    if names != [] {
      var n, rest := names[0], names[1..];
      NoDuplicatesTail(names);
      SchemaErrors(rest, values, rules);
      assert SchemaIssues(names, values, rules)
          == FieldIssues(n, values, rules) + SchemaIssues(rest, values, rules);
      ErrorsOfAppend(FieldIssues(n, values, rules), SchemaIssues(rest, values, rules));
      FieldErrors(n, values, rules);
      ExpectedErrorsCons(names, values, rules);
    }
  }

  /** The data a successful `safeParse` returns: the declared fields only
      (zod strips unknown keys), each passed through its transformations. */
  function Normalized(names: seq<string>, values: map<string, string>,
                      normalize: (string, string) -> string): (data: map<string, string>)
    ensures forall name :: name in data <==> name in names && name in values
    ensures forall name :: name in data ==> data[name] == normalize(name, values[name])
  {
    if names == [] then map[]
    else
      var rest := Normalized(names[1..], values, normalize);
      if names[0] in values then rest[names[0] := normalize(names[0], values[names[0]])] else rest
  }

  /** zod's `safeParse` on an object schema of string fields: the
      normalized data when no field has an issue, the issues otherwise. */
  function SafeParse(names: seq<string>, values: map<string, string>,
                     rules: (string, string) -> seq<string>,
                     normalize: (string, string) -> string): (r: ParseResult)
    ensures r.Failure? ==> r.issues != []
  {
    var issues := SchemaIssues(names, values, rules);
    if issues == [] then Success(Normalized(names, values, normalize)) else Failure(issues)
  }

  /** `safeParse` succeeds exactly when every declared field is present and
      passes all its checks, and then returns every declared field normalized
      and nothing else. */
  lemma SafeParseSuccess(names: seq<string>, values: map<string, string>,
                         rules: (string, string) -> seq<string>,
                         normalize: (string, string) -> string)
    ensures SafeParse(names, values, rules, normalize).Success?
        <==> forall name :: name in names ==> !Fails(values, rules, name)
    ensures SafeParse(names, values, rules, normalize).Success? ==>
      forall name :: name in SafeParse(names, values, rules, normalize).data <==> name in names
    ensures SafeParse(names, values, rules, normalize).Success? ==>
      forall name :: name in SafeParse(names, values, rules, normalize).data
        ==> SafeParse(names, values, rules, normalize).data[name] == normalize(name, values[name])
  {
    SchemaIssuesEmpty(names, values, rules);
  }

  /** When `safeParse` fails, the error map built from its issues has an
      entry for exactly the failing fields, holding the message shown for each. */
  lemma SafeParseErrors(names: seq<string>, values: map<string, string>,
                        rules: (string, string) -> seq<string>,
                        normalize: (string, string) -> string)
    requires NoDuplicates(names)
    requires SafeParse(names, values, rules, normalize).Failure?
    ensures ErrorsOf(SafeParse(names, values, rules, normalize).issues) == ExpectedErrors(names, values, rules)
  {
    SchemaErrors(names, values, rules);
  }

  // ---------------------------------------------------------------------------
  // Input events

  /** An input event's effect on the error map (`if (errors[name])` then
      `{...prev, [name]: ""}`): the field's entry, when there is one, is
      blanked, not deleted. Blanking an entry that is already empty changes
      nothing, so the result is the same whether or not the guard held: every
      key stays, every other entry keeps its message. */
  function ClearOnEdit(errors: ErrorMap, name: string): (r: ErrorMap)
    ensures r.Keys == errors.Keys
    ensures name in r ==> r[name] == ""
    ensures forall k :: k in r && k != name ==> r[k] == errors[k]
    ensures name !in errors || errors[name] == "" ==> r == errors
  {
    if name in errors && errors[name] != "" then errors[name := ""] else errors
  }

  /** Two maps with the same keys and the same entry under each are equal. */
  lemma SameEntries(a: map<string, string>, b: map<string, string>)
    requires forall k :: k in a <==> k in b
    requires forall k :: k in a ==> a[k] == b[k]
    ensures a == b
  {
  }
}
