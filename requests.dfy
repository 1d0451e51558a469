/**
 * Form requests (app/Http/Requests). Each request is an authorize() decision
 * and a declarative rule table; validation interprets the table the way the
 * framework's validator does:
 *  - a field that is absent, or present with a value that trims to "", is
 *    checked against "required" alone, the only implicit rule used here; the
 *    other rules ("string", "max", "exists") are skipped for it, and
 *    "sometimes" adds nothing beyond that;
 *  - once "required" fails, no further rule of that field is checked;
 *  - otherwise every rule of the field is checked, in the listed order.
 */
module Requests {
  import opened Wrappers
  import opened Models
  import Policies
  import Text

  datatype Rule = Required | Sometimes | IsString | Max(limit: nat) | Exists

  /** Field name and its rules, as rules() returns them. */
  type RuleTable = seq<(string, seq<Rule>)>

  datatype FieldError = FieldError(field: string, rule: Rule)

  // ---- the four rule tables ----

  const StorePostRules: RuleTable :=
    [("category_id", [Required, Exists]),
     ("title", [Required, IsString, Max(255)]),
     ("body", [Required, IsString])]

  const UpdatePostRules: RuleTable :=
    [("category_id", [Sometimes, Exists]),
     ("title", [Sometimes, IsString, Max(255)]),
     ("body", [Sometimes, IsString])]

  const StoreCommentRules: RuleTable := [("body", [Required, IsString, Max(1000)])]

  const UpdateCommentRules: RuleTable := [("body", [Required, IsString, Max(1000)])]

  // ---- single rules ----

  /** PHP's trim() character set. */
  predicate Blank(s: string) {
    forall i :: 0 <= i < |s| ==> s[i] in {' ', '\t', '\n', '\r', '\0', '\U{000B}'}
  }

  /** The size the "max" rule measures: characters of a string, characters of a number's rendering. */
  function Size(v: Value): nat {
    match v
    case Str(s) => |s|
    case Num(n) => if n >= 0 then |Text.DecimalString(n)| else 1 + |Text.DecimalString(-n)|
  }

  /** exists:categories,id — the value denotes the id of a stored category. */
  predicate CategoryExists(v: Value, categoryIds: set<Id>) {
    AsId(v).Some? && AsId(v).value in categoryIds
  }

  /** Whether a present value passes one rule. */
  predicate Passes(rule: Rule, v: Value, categoryIds: set<Id>) {
    match rule
    case Required => !(v.Str? && Blank(v.s))
    case Sometimes => true
    case IsString => v.Str?
    case Max(limit) => Size(v) <= limit
    case Exists => CategoryExists(v, categoryIds)
  }

  /** The rules of a present value that fail, in order. */
  function Failing(field: string, rules: seq<Rule>, v: Value, categoryIds: set<Id>): (errs: seq<FieldError>)
    ensures forall i :: 0 <= i < |errs| ==> errs[i].field == field && errs[i].rule in rules && !Passes(errs[i].rule, v, categoryIds)
    ensures forall i :: 0 <= i < |rules| && !Passes(rules[i], v, categoryIds) ==> FieldError(field, rules[i]) in errs
  {
    if rules == [] then []
    else
      (if Passes(rules[0], v, categoryIds) then [] else [FieldError(field, rules[0])]) +
      Failing(field, rules[1..], v, categoryIds)
  }

  /** The failing rules keep the table's order: failing a concatenation fails each part in turn. */
  lemma {:induction false} FailingAppend(field: string, a: seq<Rule>, b: seq<Rule>, v: Value, categoryIds: set<Id>)
    ensures Failing(field, a + b, v, categoryIds) == Failing(field, a, v, categoryIds) + Failing(field, b, v, categoryIds)
  {
    if a == [] {
      assert a + b == b;
    } else {
      var h := if Passes(a[0], v, categoryIds) then [] else [FieldError(field, a[0])];
      assert (a + b)[0] == a[0] && (a + b)[1..] == a[1..] + b;
      assert Failing(field, a + b, v, categoryIds) == h + Failing(field, a[1..] + b, v, categoryIds);
      FailingAppend(field, a[1..], b, v, categoryIds);
      assert h + (Failing(field, a[1..], v, categoryIds) + Failing(field, b, v, categoryIds))
          == (h + Failing(field, a[1..], v, categoryIds)) + Failing(field, b, v, categoryIds);
    }
  }

  /** A present value passes every rule of the list. */
  predicate AllPass(rules: seq<Rule>, v: Value, categoryIds: set<Id>) {
    forall i :: 0 <= i < |rules| ==> Passes(rules[i], v, categoryIds)
  }

  /** A list of rules passes iff its first rule passes and the rest pass. */
  lemma AllPassCons(rules: seq<Rule>, v: Value, categoryIds: set<Id>)
    requires rules != []
    ensures AllPass(rules, v, categoryIds) <==> Passes(rules[0], v, categoryIds) && AllPass(rules[1..], v, categoryIds)
  {
    if Passes(rules[0], v, categoryIds) && AllPass(rules[1..], v, categoryIds) {
      forall i | 0 <= i < |rules| ensures Passes(rules[i], v, categoryIds) {
        if i > 0 { assert rules[i] == rules[1..][i - 1]; }
      }
    }
  }

  /**
   * The errors of one field. An absent or blank value is checked against
   * "required" alone; a filled value against every rule.
   */
  function FieldErrors(field: string, rules: seq<Rule>, input: Input, categoryIds: set<Id>): seq<FieldError> {
    if !Filled(input, field) then
      (if Required in rules then [FieldError(field, Required)] else [])
    else
      Failing(field, rules, input[field], categoryIds)
  }

  /** The errors of a whole payload, field by field in table order. */
  function Errors(table: RuleTable, input: Input, categoryIds: set<Id>): seq<FieldError> {
    if table == [] then []
    else FieldErrors(table[0].0, table[0].1, input, categoryIds) + Errors(table[1..], input, categoryIds)
  }

  /** The fields a table names. */
  function TableFields(table: RuleTable): set<string> {
    set i | 0 <= i < |table| :: table[i].0
  }

  /** $request->validated(): the input restricted to the fields that have rules. */
  function Validated(table: RuleTable, input: Input): (v: Input)
    ensures v.Keys == input.Keys * TableFields(table)
    ensures forall k :: k in v ==> v[k] == input[k]
  {
    Restrict(input, TableFields(table))
  }

  // ---- what each table accepts ----

  predicate TitleOk(v: Value) { v.Str? && |v.s| <= 255 }
  predicate BodyOk(v: Value) { v.Str? }
  predicate CommentBodyOk(v: Value) { v.Str? && |v.s| <= 1000 }

  /** A required field is present and not blank. */
  predicate Filled(input: Input, field: string) {
    field in input && !(input[field].Str? && Blank(input[field].s))
  }

  predicate StorePostValid(input: Input, categoryIds: set<Id>) {
    Errors(StorePostRules, input, categoryIds) == []
  }

  predicate UpdatePostValid(input: Input, categoryIds: set<Id>) {
    Errors(UpdatePostRules, input, categoryIds) == []
  }

  predicate StoreCommentValid(input: Input) {
    Errors(StoreCommentRules, input, {}) == []
  }

  predicate UpdateCommentValid(input: Input) {
    Errors(UpdateCommentRules, input, {}) == []
  }

  lemma ErrorsCons(table: RuleTable, input: Input, categoryIds: set<Id>)
    requires table != []
    ensures Errors(table, input, categoryIds) == []
      <==> FieldErrors(table[0].0, table[0].1, input, categoryIds) == [] && Errors(table[1..], input, categoryIds) == []
  {
  }

  /** The errors of a table are its first field's errors followed by the rest's. */
  lemma ErrorsStep(table: RuleTable, input: Input, categoryIds: set<Id>)
    requires table != []
    ensures Errors(table, input, categoryIds) ==
      FieldErrors(table[0].0, table[0].1, input, categoryIds) + Errors(table[1..], input, categoryIds)
  {
  }

  /** The errors of a three-field table are the errors of its fields, concatenated. */
  lemma ErrorsShape(table: RuleTable, input: Input, categoryIds: set<Id>)
    requires |table| == 3
    ensures Errors(table, input, categoryIds) ==
      FieldErrors(table[0].0, table[0].1, input, categoryIds) +
      FieldErrors(table[1].0, table[1].1, input, categoryIds) +
      FieldErrors(table[2].0, table[2].1, input, categoryIds)
  {
    var t1 := table[1..];
    var t2 := t1[1..];
    assert t1[0] == table[1] && t2[0] == table[2] && t2[1..] == [];
    var e0 := FieldErrors(table[0].0, table[0].1, input, categoryIds);
    var e1 := FieldErrors(table[1].0, table[1].1, input, categoryIds);
    var e2 := FieldErrors(table[2].0, table[2].1, input, categoryIds);
    ErrorsStep(table, input, categoryIds);
    ErrorsStep(t1, input, categoryIds);
    ErrorsStep(t2, input, categoryIds);
    assert Errors(t2[1..], input, categoryIds) == [];
    assert e0 + (e1 + (e2 + [])) == e0 + e1 + e2;
  }

  /** Without "required", an absent or blank field has no errors and a filled one has exactly its failing rules. */
  lemma OptionalFieldErrors(field: string, rules: seq<Rule>, input: Input, categoryIds: set<Id>)
    requires Required !in rules
    ensures FieldErrors(field, rules, input, categoryIds) == [] <==>
      (Filled(input, field) ==> AllPass(rules, input[field], categoryIds))
  {
    if Filled(input, field) {
      var v := input[field];
      var errs := Failing(field, rules, v, categoryIds);
      if errs != [] {
        assert errs[0] in errs;
        var i :| 0 <= i < |rules| && rules[i] == errs[0].rule;
      }
    }
  }

  /** With "required" first, a field has no errors iff it is filled and passes every rule. */
  lemma RequiredFieldErrors(field: string, rules: seq<Rule>, input: Input, categoryIds: set<Id>)
    requires |rules| > 0 && rules[0] == Required
    ensures FieldErrors(field, rules, input, categoryIds) == [] <==>
      (Filled(input, field) && AllPass(rules, input[field], categoryIds))
  {
    assert Required in rules;
    if Filled(input, field) {
      var v := input[field];
      var errs := Failing(field, rules, v, categoryIds);
      if errs != [] {
        assert errs[0] in errs;
        var i :| 0 <= i < |rules| && rules[i] == errs[0].rule;
      }
    }
  }

  /**
   * Creating a post: category_id names a stored category, title is a string
   * of at most 255 characters, body is a string; all three required.
   */
  lemma StorePostValidIff(input: Input, categoryIds: set<Id>)
    ensures StorePostValid(input, categoryIds) <==>
      && "category_id" in input && CategoryExists(input["category_id"], categoryIds)
      && Filled(input, "title") && TitleOk(input["title"])
      && Filled(input, "body") && BodyOk(input["body"])
  {
    var t := StorePostRules;
    ErrorsCons(t, input, categoryIds);
    ErrorsCons(t[1..], input, categoryIds);
    ErrorsCons(t[2..], input, categoryIds);
    assert t[1..][1..] == t[2..];
    assert t[2..][1..] == [];
    RequiredFieldErrors("category_id", [Required, Exists], input, categoryIds);
    RequiredFieldErrors("title", [Required, IsString, Max(255)], input, categoryIds);
    RequiredFieldErrors("body", [Required, IsString], input, categoryIds);
    if "category_id" in input {
      AllPassCons([Required, Exists], input["category_id"], categoryIds);
      AllPassCons([Exists], input["category_id"], categoryIds);
      if CategoryExists(input["category_id"], categoryIds) {
        NumericIsFilled(input["category_id"]);
      }
    }
    if "title" in input {
      AllPassCons([Required, IsString, Max(255)], input["title"], categoryIds);
      AllPassCons([IsString, Max(255)], input["title"], categoryIds);
      AllPassCons([Max(255)], input["title"], categoryIds);
    }
    if "body" in input {
      AllPassCons([Required, IsString], input["body"], categoryIds);
      AllPassCons([IsString], input["body"], categoryIds);
    }
  }

  /** A value naming a category id is never blank. */
  lemma NumericIsFilled(v: Value)
    requires AsId(v).Some?
    ensures !(v.Str? && Blank(v.s))
  {
    if v.Str? {
      assert v.s != [] && Text.AllDigits(v.s);
      assert Text.IsDigit(v.s[0]);
    }
  }

  /**
   * Updating a post: every field optional; an absent or blank field passes,
   * and a filled one obeys the creation rules' type, length and existence checks.
   */
  lemma UpdatePostValidIff(input: Input, categoryIds: set<Id>)
    ensures UpdatePostValid(input, categoryIds) <==>
      && (Filled(input, "category_id") ==> CategoryExists(input["category_id"], categoryIds))
      && (Filled(input, "title") ==> TitleOk(input["title"]))
      && (Filled(input, "body") ==> BodyOk(input["body"]))
  {
    var t := UpdatePostRules;
    ErrorsCons(t, input, categoryIds);
    ErrorsCons(t[1..], input, categoryIds);
    ErrorsCons(t[2..], input, categoryIds);
    assert t[1..][1..] == t[2..];
    assert t[2..][1..] == [];
    OptionalFieldErrors("category_id", [Sometimes, Exists], input, categoryIds);
    OptionalFieldErrors("title", [Sometimes, IsString, Max(255)], input, categoryIds);
    OptionalFieldErrors("body", [Sometimes, IsString], input, categoryIds);
    if "category_id" in input {
      AllPassCons([Sometimes, Exists], input["category_id"], categoryIds);
      AllPassCons([Exists], input["category_id"], categoryIds);
    }
    if "title" in input {
      AllPassCons([Sometimes, IsString, Max(255)], input["title"], categoryIds);
      AllPassCons([IsString, Max(255)], input["title"], categoryIds);
      AllPassCons([Max(255)], input["title"], categoryIds);
    }
    if "body" in input {
      AllPassCons([Sometimes, IsString], input["body"], categoryIds);
      AllPassCons([IsString], input["body"], categoryIds);
    }
  }

  /** Any payload valid for creating a post is valid for updating one. */
  lemma StorePostValidIsUpdateValid(input: Input, categoryIds: set<Id>)
    requires StorePostValid(input, categoryIds)
    ensures UpdatePostValid(input, categoryIds)
  {
    StorePostValidIff(input, categoryIds);
    UpdatePostValidIff(input, categoryIds);
  }

  /** An empty payload is a valid post update (and never a valid creation). */
  lemma EmptyPostPayload(categoryIds: set<Id>)
    ensures UpdatePostValid(map[], categoryIds)
    ensures !StorePostValid(map[], categoryIds)
  {
    UpdatePostValidIff(map[], categoryIds);
    StorePostValidIff(map[], categoryIds);
  }

  /** A comment body is required, a string, and at most 1000 characters; nothing else is checked. */
  lemma StoreCommentValidIff(input: Input)
    ensures StoreCommentValid(input) <==> Filled(input, "body") && CommentBodyOk(input["body"])
  {
    ErrorsCons(StoreCommentRules, input, {});
    assert StoreCommentRules[1..] == [];
    RequiredFieldErrors("body", [Required, IsString, Max(1000)], input, {});
    if "body" in input {
      AllPassCons([Required, IsString, Max(1000)], input["body"], {});
      AllPassCons([IsString, Max(1000)], input["body"], {});
      AllPassCons([Max(1000)], input["body"], {});
    }
  }

  /** Comment creation and comment update validate identically. */
  lemma CommentRulesAgree(input: Input)
    ensures StoreCommentValid(input) == UpdateCommentValid(input)
  {
  }

  /** An empty or missing comment body is rejected with an error keyed on body. */
  lemma EmptyCommentBodyRejected(input: Input)
    requires "body" !in input || input["body"] == Str("")
    ensures Errors(StoreCommentRules, input, {}) == [FieldError("body", Required)]
  {
  }

  /** A body of 1000 characters is accepted and one of 1001 is rejected by max. */
  lemma CommentBodyLimit(s: string)
    requires !Blank(s)
    ensures |s| <= 1000 ==> StoreCommentValid(map["body" := Str(s)])
    ensures |s| == 1001 ==> Errors(StoreCommentRules, map["body" := Str(s)], {}) == [FieldError("body", Max(1000))]
  {
    var input := map["body" := Str(s)];
    StoreCommentValidIff(input);
    if |s| == 1001 {
      var rules := [Required, IsString, Max(1000)];
      assert Failing("body", rules, Str(s), {}) == [FieldError("body", Max(1000))] by {
        var r1 := rules[1..];
        var r2 := r1[1..];
        assert r1 == [IsString, Max(1000)] && r2 == [Max(1000)] && r2[1..] == [];
        assert Failing("body", r2, Str(s), {}) == [FieldError("body", Max(1000))] + [];
        assert Failing("body", r1, Str(s), {}) == [] + Failing("body", r2, Str(s), {});
        assert Failing("body", rules, Str(s), {}) == [] + Failing("body", r1, Str(s), {});
      }
      assert StoreCommentRules[1..] == [];
    }
  }

  /** A title of 256 characters is rejected by max, whatever else the payload holds. */
  lemma TitleLimit(input: Input, categoryIds: set<Id>)
    requires "title" in input && input["title"].Str? && |input["title"].s| == 256 && !Blank(input["title"].s)
    ensures FieldError("title", Max(255)) in Errors(StorePostRules, input, categoryIds)
    ensures FieldError("title", Max(255)) in Errors(UpdatePostRules, input, categoryIds)
  {
    var rules := [Required, IsString, Max(255)];
    assert FieldError("title", Max(255)) in Failing("title", rules, input["title"], categoryIds) by {
      assert rules[2] == Max(255);
    }
    var rules' := [Sometimes, IsString, Max(255)];
    assert FieldError("title", Max(255)) in Failing("title", rules', input["title"], categoryIds) by {
      assert rules'[2] == Max(255);
    }
    ErrorsShape(StorePostRules, input, categoryIds);
    ErrorsShape(UpdatePostRules, input, categoryIds);
  }

  /** The validated part of a comment update holds at most body: post_id and user_id cannot be set through it. */
  lemma CommentUpdateOnlyBody(input: Input)
    ensures Validated(UpdateCommentRules, input).Keys <= {"body"}
  {
    forall k | k in TableFields(UpdateCommentRules) ensures k == "body" {
      var i :| 0 <= i < |UpdateCommentRules| && UpdateCommentRules[i].0 == k;
    }
  }

  // ---- authorize() ----

  function StorePostAuthorize(user: User): bool { true }

  /** Ownership is not checked by the request: the controller checks it after validation. */
  function UpdatePostAuthorize(user: User): bool { true }

  function StoreCommentAuthorize(user: User): bool { true }

  /** The request checks the comment policy's update ability on the route's comment. */
  function UpdateCommentAuthorize(user: User, comment: Comment): bool {
    Policies.CommentUpdate(user, comment)
  }

  lemma AuthorizeDecisions(user: User, comment: Comment)
    ensures StorePostAuthorize(user) && UpdatePostAuthorize(user) && StoreCommentAuthorize(user)
    ensures UpdateCommentAuthorize(user, comment) <==> user.id == comment.userId
  {
  }

  // ---- resolving a form request ----

  datatype Resolution = Denied | Rejected(errors: seq<FieldError>) | Accepted(validated: Input)

  /** A form request checks authorize() first and validates only an authorized request. */
  function Resolve(authorized: bool, table: RuleTable, input: Input, categoryIds: set<Id>): (r: Resolution)
    ensures r == Denied <==> !authorized
    ensures authorized ==> (r.Rejected? <==> Errors(table, input, categoryIds) != [])
    ensures r.Rejected? ==> r.errors == Errors(table, input, categoryIds) && r.errors != []
    ensures r.Accepted? ==> authorized && r.validated == Validated(table, input)
  {
    if !authorized then Denied
    else
      var errs := Errors(table, input, categoryIds);
      if errs != [] then Rejected(errs) else Accepted(Validated(table, input))
  }

  // ---- messages() ----

  function RuleName(rule: Rule): string {
    match rule
    case Required => "required"
    case Sometimes => "sometimes"
    case IsString => "string"
    case Max(_) => "max"
    case Exists => "exists"
  }

  const StorePostMessages: map<string, string> :=
    map["category_id.required" := "Category is required.",
        "category_id.exists" := "Selected category does not exist.",
        "title.required" := "Title is required.",
        "title.max" := "Title cannot exceed 255 characters.",
        "body.required" := "Body is required."]

  const UpdatePostMessages: map<string, string> :=
    map["category_id.exists" := "Selected category does not exist.",
        "title.max" := "Title cannot exceed 255 characters."]

  const NoMessages: map<string, string> := map[]

  /** A custom message from messages(), or the framework's default text for the rule. */
  datatype Message = Custom(text: string) | Default(field: string, rule: Rule)

  /** The key of a rule in messages(): "field.rule". */
  function MessageKey(field: string, rule: Rule): string {
    field + "." + RuleName(rule)
  }

  function MessageFor(e: FieldError, custom: map<string, string>): (m: Message)
    ensures m.Custom? <==> MessageKey(e.field, e.rule) in custom
    ensures m.Custom? ==> m.text == custom[MessageKey(e.field, e.rule)]
    ensures m.Default? ==> m == Default(e.field, e.rule)
  {
    var key := MessageKey(e.field, e.rule);
    if key in custom then Custom(custom[key]) else Default(e.field, e.rule)
  }

  /** Each failing rule of post creation maps to its fixed message. */
  lemma StorePostMessageTable()
    ensures MessageFor(FieldError("category_id", Required), StorePostMessages) == Custom("Category is required.")
    ensures MessageFor(FieldError("category_id", Exists), StorePostMessages) == Custom("Selected category does not exist.")
    ensures MessageFor(FieldError("title", Required), StorePostMessages) == Custom("Title is required.")
    ensures MessageFor(FieldError("title", Max(255)), StorePostMessages) == Custom("Title cannot exceed 255 characters.")
    ensures MessageFor(FieldError("body", Required), StorePostMessages) == Custom("Body is required.")
    ensures MessageFor(FieldError("title", IsString), StorePostMessages) == Default("title", IsString)
  {
    assert MessageKey("category_id", Required) == "category_id.required";
    assert MessageKey("category_id", Exists) == "category_id.exists";
    assert MessageKey("title", Required) == "title.required";
    assert MessageKey("title", Max(255)) == "title.max";
    assert MessageKey("body", Required) == "body.required";
    assert MessageKey("title", IsString) == "title.string";
  }

  /** Post update customises only the exists and max messages. */
  lemma UpdatePostMessageTable()
    ensures MessageFor(FieldError("category_id", Exists), UpdatePostMessages) == Custom("Selected category does not exist.")
    ensures MessageFor(FieldError("title", Max(255)), UpdatePostMessages) == Custom("Title cannot exceed 255 characters.")
    ensures MessageFor(FieldError("title", IsString), UpdatePostMessages) == Default("title", IsString)
  {
    assert MessageKey("category_id", Exists) == "category_id.exists";
    assert MessageKey("title", Max(255)) == "title.max";
    assert MessageKey("title", IsString) == "title.string";
  }
}
