/**
 * src/api/validate.js: the express-validator schemas as rule tables, the
 * errors they produce, and the `triggerBadRequest` gate that turns a
 * non-empty error list into a 400 error.
 */
module Validate {
  import opened Wrappers
  import opened Json
  import opened Arrays
  import opened HttpErrors
  import opened ErrorHandlers

  /** The express-validator check a schema entry names. */
  datatype Check = IsString | IsEmail | IsDate | IsURL | IsInt

  /**
   * The outcome of the format checks this model does not define (isEmail,
   * isDate, isURL, isInt) for a body field, absent fields included.
   */
  type Formats = (Check, Option<Value>) -> bool

  /** One schema entry: a field of the request body, its check and the check's error message. */
  datatype FieldRule = FieldRule(path: seq<string>, check: Check, message: string)

  /** `authorSchema` (src/api/validate.js:4-36). */
  const AuthorSchema: seq<FieldRule> := [
    FieldRule(["name"], IsString, "Must be String"),
    FieldRule(["surName"], IsString, "Must be String"),
    FieldRule(["email"], IsEmail, "Must be String"),
    FieldRule(["dateOfBirth"], IsDate, "Must be Date"),
    FieldRule(["avatar"], IsURL, "Must be valid url to image")
  ]

  /** `blogpostSchema` (src/api/validate.js:38-75). */
  const BlogpostSchema: seq<FieldRule> := [
    FieldRule(["category"], IsString, "Must be String"),
    FieldRule(["title"], IsString, "Must be String"),
    FieldRule(["cover"], IsURL, "Must be valid url to image"),
    FieldRule(["readTime", "value"], IsInt, "Must be Integer"),
    FieldRule(["readTime", "unit"], IsString, "Must be String"),
    FieldRule(["content"], IsString, "Must be String")
  ]

  /** `isString` is `typeof value === "string"`; the other checks are the `formats` oracle's. */
  predicate Passes(check: Check, v: Option<Value>, formats: Formats)
  {
    if check == IsString then v.Some? && v.value.Str? else formats(check, v)
  }

  /** The path as the schema spells it, `readTime.value`. */
  function DottedName(path: seq<string>): string
  {
    if |path| == 0 then ""
    else if |path| == 1 then path[0]
    else path[0] + "." + DottedName(path[1..])
  }

  /** The error express-validator records for a rule whose check failed. */
  function ErrorFor(rule: FieldRule, body: Record): FieldError
  {
    FieldError(DottedName(rule.path), "body", Lookup(body, rule.path), rule.message)
  }

  /**
   * `validationResult(req).array()` after the schema ran over `body`: one
   * error per failing rule, in schema order.
   */
  function ValidationResult(schema: seq<FieldRule>, body: Record, formats: Formats): (errors: seq<FieldError>)
    ensures |errors| <= |schema|
    ensures errors == [] <==> forall k :: 0 <= k < |schema| ==> Passes(schema[k].check, Lookup(body, schema[k].path), formats)
    ensures forall e :: e in errors ==>
              exists k :: 0 <= k < |schema| && !Passes(schema[k].check, Lookup(body, schema[k].path), formats) &&
                          e == ErrorFor(schema[k], body)
  {
    if |schema| == 0 then []
    else
      var rule := schema[0];
      var rest := ValidationResult(schema[1..], body, formats);
      assert forall k :: 1 <= k < |schema| ==> schema[k] == schema[1..][k - 1];
      if Passes(rule.check, Lookup(body, rule.path), formats) then rest
      else [ErrorFor(rule, body)] + rest
  }

  /** A single rule gives no error when it passes and exactly its own error when it fails. */
  lemma ValidationResultSingle(rule: FieldRule, body: Record, formats: Formats)
    ensures ValidationResult([rule], body, formats) ==
              if Passes(rule.check, Lookup(body, rule.path), formats) then [] else [ErrorFor(rule, body)]
  {
    assert [rule][1..] == [];
  }

  /**
   * The errors of a schema are those of its parts in order: with
   * `ValidationResultSingle`, each failing rule gives exactly one error, in
   * schema order.
   */
  lemma {:induction false} ValidationResultAppend(s1: seq<FieldRule>, s2: seq<FieldRule>, body: Record, formats: Formats)
    ensures ValidationResult(s1 + s2, body, formats) == ValidationResult(s1, body, formats) + ValidationResult(s2, body, formats)
  {
    if |s1| == 0 {
      assert s1 + s2 == s2;
    } else {
      assert (s1 + s2)[0] == s1[0];
      assert (s1 + s2)[1..] == s1[1..] + s2;
      ValidationResultAppend(s1[1..], s2, body, formats);
    }
  }

  /** Conversely, every failing rule contributes its error. */
  lemma {:induction false} FailingRuleReported(schema: seq<FieldRule>, body: Record, formats: Formats, k: int)
    requires 0 <= k < |schema|
    requires !Passes(schema[k].check, Lookup(body, schema[k].path), formats)
    ensures ErrorFor(schema[k], body) in ValidationResult(schema, body, formats)
  {
    if k > 0 {
      FailingRuleReported(schema[1..], body, formats, k - 1);
    }
  }

  /** The result depends on the body only through the fields the schema names. */
  lemma {:induction false} ResultReadsOnlySchemaFields(schema: seq<FieldRule>, b1: Record, b2: Record, formats: Formats)
    requires forall k :: 0 <= k < |schema| ==> Lookup(b1, schema[k].path) == Lookup(b2, schema[k].path)
    ensures ValidationResult(schema, b1, formats) == ValidationResult(schema, b2, formats)
  {
    if |schema| > 0 {
      assert Lookup(b1, schema[0].path) == Lookup(b2, schema[0].path);
      forall k | 0 <= k < |schema| - 1 ensures Lookup(b1, schema[1..][k].path) == Lookup(b2, schema[1..][k].path) {
        assert schema[1..][k] == schema[k + 1];
      }
      ResultReadsOnlySchemaFields(schema[1..], b1, b2, formats);
    }
  }

  /** The author schema looks at exactly name, surName, email, dateOfBirth and avatar of the body. */
  lemma AuthorSchemaFields(b1: Record, b2: Record, formats: Formats)
    requires forall f :: f in {"name", "surName", "email", "dateOfBirth", "avatar"} ==> Field(b1, f) == Field(b2, f)
    ensures ValidationResult(AuthorSchema, b1, formats) == ValidationResult(AuthorSchema, b2, formats)
  {
    forall k | 0 <= k < |AuthorSchema| ensures Lookup(b1, AuthorSchema[k].path) == Lookup(b2, AuthorSchema[k].path) {
      var f := AuthorSchema[k].path[0];
      assert AuthorSchema[k].path == [f];
      assert Field(b1, f) == Field(b2, f);
    }
    ResultReadsOnlySchemaFields(AuthorSchema, b1, b2, formats);
  }

  /** A body the blogpost schema accepts has an integer `readTime.value` and a string `readTime.unit`. */
  lemma BlogpostSchemaReadTime(body: Record, formats: Formats)
    requires ValidationResult(BlogpostSchema, body, formats) == []
    ensures formats(IsInt, Lookup(body, ["readTime", "value"]))
    ensures Lookup(body, ["readTime", "unit"]).Some? && Lookup(body, ["readTime", "unit"]).value.Str?
  {
    assert Passes(BlogpostSchema[3].check, Lookup(body, BlogpostSchema[3].path), formats);
    assert Passes(BlogpostSchema[4].check, Lookup(body, BlogpostSchema[4].path), formats);
  }

  /**
   * `triggerBadRequest`: `None` is `next()`; otherwise the 400 error that
   * carries the whole error list.
   */
  function TriggerBadRequest(errors: seq<FieldError>): (r: Option<Failure>)
    ensures r.None? <==> errors == []
    ensures r.Some? ==> r.value == HttpError(400, "Errors during validation", Some(errors))
  {
    if errors == [] then None else Some(HttpError(400, "Errors during validation", Some(errors)))
  }

  /**
   * A rejected body ends, through the installed error chain, in a 400 whose
   * `errorsList` holds the messages of the failing rules, in schema order.
   */
  lemma RejectedBodyResponse(schema: seq<FieldRule>, body: Record, formats: Formats)
    requires ValidationResult(schema, body, formats) != []
    ensures var errors := ValidationResult(schema, body, formats);
            && RunChain(ErrorChain, TriggerBadRequest(errors).value).Some?
            && var r := RunChain(ErrorChain, TriggerBadRequest(errors).value).value;
            && r.status == 400
            && r.body.message == "Errors during validation"
            && r.body.errorsList.Some?
            && |r.body.errorsList.value| == |errors|
            && forall k :: 0 <= k < |errors| ==> r.body.errorsList.value[k] == errors[k].msg
  {
    var errors := ValidationResult(schema, body, formats);
    var err := TriggerBadRequest(errors).value;
    ErrorChainResponse(err);
    AnswerIsUnique(ErrorChain, err, 0);
  }
}
