/**
 * The part of mongoose's schema semantics that src/api/models.js and
 * src/api/blogposts/model.js rely on: a schema is a table of paths, each
 * with a type, a `required` flag, an optional membership validator and an
 * optional default; a document is valid when every path is.
 */
module Schemas {
  import opened Wrappers
  import opened Json

  datatype PathType =
    | Text                                // String
    | Number
    | Date
    | ObjectId                            // Schema.Types.ObjectId
    | ObjectIdList                        // [{type: ObjectId}]
    | SubdocList(item: seq<SchemaPath>)   // [subSchema]

  /**
   * One path of a schema. `oneOf`, when present, is the validator
   * `unit => options.includes(unit)`.
   */
  datatype SchemaPath = SchemaPath(path: seq<string>, kind: PathType, required: bool,
                                   oneOf: Option<seq<string>>, defaultValue: Option<Value>)

  /**
   * Whether a value casts to a Number, a Date or an ObjectId: mongoose's
   * casting rules for those types are not part of this model.
   */
  type Casts = (PathType, Value) -> bool

  /**
   * mongoose's String cast: strings as they are, numbers and booleans as
   * their text, an object with a non-empty string `_id` as that id; arrays
   * and other objects fail.
   */
  function CastText(v: Value): Option<string>
  {
    match v
    case Str(s) => Some(s)
    case Num(n) => Some(IntText(n))
    case Bool(b) => Some(if b then "true" else "false")
    case Obj(f) =>
      if "_id" in f && f["_id"].Str? && f["_id"].s != "" then Some(f["_id"].s) else None
    case _ => None
  }

  /**
   * Whether the value at a path is acceptable. An absent or null value only
   * fails `required` (mongoose runs no other validator on it); a present one
   * must cast, a required string must not be empty, and the membership
   * validator sees the cast text.
   */
  predicate PathValid(p: SchemaPath, v: Option<Value>, casts: Casts)
    decreases p
  {
    if v.None? || v.value.Null? then !p.required
    else
      match p.kind
      case Text =>
        var t := CastText(v.value);
        && t.Some?
        && (p.required ==> t.value != "")
        && (p.oneOf.Some? ==> t.value in p.oneOf.value)
      case Number => casts(p.kind, v.value)
      case Date => casts(p.kind, v.value)
      case ObjectId => casts(p.kind, v.value)
      case ObjectIdList =>
        v.value.Arr? && forall e :: e in v.value.items ==> casts(ObjectId, e)
      case SubdocList(item) =>
        && v.value.Arr?
        && forall e :: e in v.value.items ==>
             e.Obj? && forall q :: q in item ==> PathValid(q, Lookup(e.fields, q.path), casts)
  }

  /** A document satisfies the schema when every path of it does. */
  predicate DocValid(schema: seq<SchemaPath>, doc: Record, casts: Casts)
  {
    forall k :: 0 <= k < |schema| ==> PathValid(schema[k], Lookup(doc, schema[k].path), casts)
  }

  /** A top-level path whose value is `undefined` takes its default. */
  function ApplyDefaults(schema: seq<SchemaPath>, doc: Record): Record
  {
    if |schema| == 0 then doc
    else
      var p := schema[0];
      var rest := ApplyDefaults(schema[1..], doc);
      if |p.path| == 1 && p.defaultValue.Some? && p.path[0] !in rest then rest[p.path[0] := p.defaultValue.value]
      else rest
  }

  /** A present (defined, non-null) value. */
  predicate Present(v: Option<Value>)
  {
    v.Some? && !v.value.Null?
  }

  /** A required path of a valid document holds a value; a required string path a non-empty one. */
  lemma RequiredPathPresent(schema: seq<SchemaPath>, doc: Record, casts: Casts, k: int)
    requires DocValid(schema, doc, casts)
    requires 0 <= k < |schema| && schema[k].required
    ensures Present(Lookup(doc, schema[k].path))
    ensures schema[k].kind == Text ==> CastText(Lookup(doc, schema[k].path).value) != Some("")
  {
    assert PathValid(schema[k], Lookup(doc, schema[k].path), casts);
  }

  /**
   * Removing an optional top-level field that no other path reads keeps a
   * valid document valid.
   */
  lemma {:induction false} OptionalFieldRemovable(schema: seq<SchemaPath>, doc: Record, casts: Casts, key: string)
    requires DocValid(schema, doc, casts)
    requires forall k :: 0 <= k < |schema| ==> |schema[k].path| > 0
    requires forall k :: 0 <= k < |schema| && |schema[k].path| > 0 && schema[k].path[0] == key ==>
               schema[k].path == [key] && !schema[k].required
    ensures DocValid(schema, doc - {key}, casts)
  {
    forall k | 0 <= k < |schema| ensures PathValid(schema[k], Lookup(doc - {key}, schema[k].path), casts) {
      var p := schema[k].path;
      assert PathValid(schema[k], Lookup(doc, p), casts);
      if p[0] == key {
        assert Lookup(doc - {key}, p) == None;
      } else {
        assert Field(doc - {key}, p[0]) == Field(doc, p[0]);
      }
    }
  }

  /** A default never overwrites a value that is there. */
  lemma {:induction false} DefaultsKeepPresent(schema: seq<SchemaPath>, doc: Record, key: string)
    requires key in doc
    ensures Field(ApplyDefaults(schema, doc), key) == Field(doc, key)
  {
    if |schema| > 0 {
      DefaultsKeepPresent(schema[1..], doc, key);
    }
  }

  /** An absent top-level field takes the default its schema path declares. */
  lemma {:induction false} DefaultFilled(schema: seq<SchemaPath>, doc: Record, key: string, d: Value)
    requires key !in doc
    requires exists k :: 0 <= k < |schema| && schema[k].path == [key] && schema[k].defaultValue == Some(d)
    requires forall j :: 0 <= j < |schema| && |schema[j].path| == 1 && schema[j].path[0] == key ==>
               schema[j].defaultValue == Some(d)
    ensures Field(ApplyDefaults(schema, doc), key) == Some(d)
  {
    var k :| 0 <= k < |schema| && schema[k].path == [key] && schema[k].defaultValue == Some(d);
    var rest := ApplyDefaults(schema[1..], doc);
    if k == 0 {
      if key in rest {
        assert key !in doc;
        NoOtherDefault(schema[1..], doc, key, d);
      }
    } else {
      assert schema[1..][k - 1] == schema[k];
      DefaultFilled(schema[1..], doc, key, d);
    }
  }

  /** A key the document lacks is added by the defaults only with the value every declaring path agrees on. */
  lemma {:induction false} NoOtherDefault(schema: seq<SchemaPath>, doc: Record, key: string, d: Value)
    requires key !in doc
    requires forall j :: 0 <= j < |schema| && |schema[j].path| == 1 && schema[j].path[0] == key ==>
               schema[j].defaultValue == Some(d)
    ensures key in ApplyDefaults(schema, doc) ==> ApplyDefaults(schema, doc)[key] == d
  {
    if |schema| > 0 {
      forall j | 0 <= j < |schema| - 1 && |schema[1..][j].path| == 1 && schema[1..][j].path[0] == key
        ensures schema[1..][j].defaultValue == Some(d)
      {
        assert schema[1..][j] == schema[j + 1];
      }
      NoOtherDefault(schema[1..], doc, key, d);
    }
  }

  /** Each element of a valid subdocument list is an object that satisfies the subschema. */
  lemma SubdocsValid(schema: seq<SchemaPath>, doc: Record, casts: Casts, k: int, item: seq<SchemaPath>, items: seq<Value>)
    requires DocValid(schema, doc, casts)
    requires 0 <= k < |schema| && schema[k].kind == SubdocList(item)
    requires Lookup(doc, schema[k].path) == Some(Arr(items))
    ensures forall e :: e in items ==> e.Obj? && DocValid(item, e.fields, casts)
  {
    assert PathValid(schema[k], Lookup(doc, schema[k].path), casts);
    forall e | e in items ensures e.Obj? && DocValid(item, e.fields, casts) {
      forall j | 0 <= j < |item| ensures PathValid(item[j], Lookup(e.fields, item[j].path), casts) {
        assert item[j] in item;
      }
    }
  }
}
