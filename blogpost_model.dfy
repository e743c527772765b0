/**
 * src/api/blogposts/model.js: the blogpost schema the mongoose routes use,
 * with a required cover and the author embedded by value. Its comment schema
 * is the same table as in src/api/models.js.
 */
module BlogpostModel {
  import opened Wrappers
  import opened Json
  import opened Schemas
  import Models

  const BlogpostSchema: seq<SchemaPath> := [
    SchemaPath(["category"], Text, true, None, None),
    SchemaPath(["title"], Text, true, None, None),
    SchemaPath(["cover"], Text, true, None, None),
    SchemaPath(["readTime", "value"], Number, true, None, None),
    Models.UnitPath,
    SchemaPath(["author", "name"], Text, false, None, None),
    SchemaPath(["author", "avatar"], Text, false, None, None),
    SchemaPath(["author", "email"], Text, true, None, None),
    SchemaPath(["content"], Text, true, None, None),
    SchemaPath(["comments"], SubdocList(Models.CommentSchema), false, None, Some(Arr([])))
  ]

  /** The cover is required: a valid blogpost has one, and without it no blogpost is valid. */
  lemma CoverRequired(doc: Record, casts: Casts)
    requires DocValid(BlogpostSchema, doc, casts)
    ensures Present(Field(doc, "cover")) && CastText(doc["cover"]) != Some("")
    ensures !DocValid(BlogpostSchema, doc - {"cover"}, casts)
  {
    RequiredPathPresent(BlogpostSchema, doc, casts, 2);
    assert Lookup(doc - {"cover"}, BlogpostSchema[2].path) == None;
  }

  /** The embedded author needs an email; a name and an avatar it may lack. */
  lemma EmbeddedAuthor(doc: Record, casts: Casts)
    requires DocValid(BlogpostSchema, doc, casts)
    ensures Field(doc, "author").Some? && Field(doc, "author").value.Obj?
    ensures Present(Lookup(doc, ["author", "email"]))
    ensures CastText(Lookup(doc, ["author", "email"]).value) != Some("")
    ensures var a := doc["author"].fields;
            && DocValid(BlogpostSchema, doc["author" := Obj(a - {"name"})], casts)
            && DocValid(BlogpostSchema, doc["author" := Obj(a - {"avatar"})], casts)
  {
    RequiredPathPresent(BlogpostSchema, doc, casts, 7);
    var a := doc["author"].fields;
    EmbeddedFieldRemovable(doc, casts, a, "name", 5);
    EmbeddedFieldRemovable(doc, casts, a, "avatar", 6);
  }

  lemma EmbeddedFieldRemovable(doc: Record, casts: Casts, a: Record, key: string, k: int)
    requires DocValid(BlogpostSchema, doc, casts)
    requires Field(doc, "author") == Some(Obj(a))
    requires 0 <= k < |BlogpostSchema| && BlogpostSchema[k].path == ["author", key] && !BlogpostSchema[k].required
    requires forall j :: 0 <= j < |BlogpostSchema| && j != k ==> BlogpostSchema[j].path != ["author", key]
    ensures DocValid(BlogpostSchema, doc["author" := Obj(a - {key})], casts)
  {
    var doc' := doc["author" := Obj(a - {key})];
    forall j | 0 <= j < |BlogpostSchema|
      ensures PathValid(BlogpostSchema[j], Lookup(doc', BlogpostSchema[j].path), casts)
    {
      var p := BlogpostSchema[j].path;
      assert PathValid(BlogpostSchema[j], Lookup(doc, p), casts);
      if j == k {
        assert Lookup(doc', p) == None;
      } else if p[0] == "author" {
        assert |p| == 2 && p[1] != key;
        assert Lookup(doc', p) == Field(a, p[1]) == Lookup(doc, p);
      } else {
        assert Lookup(doc', p) == Lookup(doc, p);
      }
    }
  }

  /** The unit validator is the one of src/api/models.js: "seconds", "minutes" or "hours". */
  lemma UnitValidator(doc: Record, casts: Casts)
    requires DocValid(BlogpostSchema, doc, casts)
    ensures Present(Lookup(doc, ["readTime", "unit"]))
    ensures CastText(Lookup(doc, ["readTime", "unit"]).value).Some?
    ensures CastText(Lookup(doc, ["readTime", "unit"]).value).value in {"seconds", "minutes", "hours"}
  {
    assert PathValid(BlogpostSchema[4], Lookup(doc, BlogpostSchema[4].path), casts);
  }

  /** Comments default to the empty list, and each one needs a name and a text. */
  lemma Comments(doc: Record, casts: Casts)
    ensures "comments" !in doc ==> Field(ApplyDefaults(BlogpostSchema, doc), "comments") == Some(Arr([]))
    ensures DocValid(BlogpostSchema, doc, casts) && Field(doc, "comments").Some? && Field(doc, "comments").value.Arr? ==>
              forall e :: e in doc["comments"].items ==>
                e.Obj? && Present(Field(e.fields, "name")) && Present(Field(e.fields, "text"))
  {
    if "comments" !in doc {
      assert BlogpostSchema[9].path == ["comments"];
      DefaultFilled(BlogpostSchema, doc, "comments", Arr([]));
    }
    if DocValid(BlogpostSchema, doc, casts) && Field(doc, "comments").Some? && Field(doc, "comments").value.Arr? {
      var items := doc["comments"].items;
      SubdocsValid(BlogpostSchema, doc, casts, 9, Models.CommentSchema, items);
      forall e | e in items ensures e.Obj? && Present(Field(e.fields, "name")) && Present(Field(e.fields, "text")) {
        Models.CommentRequiredFields(e.fields, casts);
      }
    }
  }
}
