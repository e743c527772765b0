/** src/api/models.js: the author, comment and blogpost schemas. */
module Models {
  import opened Wrappers
  import opened Json
  import opened Schemas

  const AuthorSchema: seq<SchemaPath> := [
    SchemaPath(["name"], Text, true, None, None),
    SchemaPath(["surname"], Text, true, None, None),
    SchemaPath(["email"], Text, true, None, None),
    SchemaPath(["dateOfBirth"], Date, true, None, None),
    SchemaPath(["avatar"], Text, false, None, None)
  ]

  const CommentSchema: seq<SchemaPath> := [
    SchemaPath(["name"], Text, true, None, None),
    SchemaPath(["text"], Text, true, None, None)
  ]

  /** The options of the `readTime.unit` validator. */
  const Units: seq<string> := ["seconds", "minutes", "hours"]

  /** `readTime.unit`: a required string restricted to `Units`. */
  const UnitPath: SchemaPath := SchemaPath(["readTime", "unit"], Text, true, Some(Units), None)

  const BlogpostSchema: seq<SchemaPath> := [
    SchemaPath(["category"], Text, true, None, None),
    SchemaPath(["title"], Text, true, None, None),
    SchemaPath(["cover"], Text, false, None, None),
    SchemaPath(["readTime", "value"], Number, true, None, None),
    UnitPath,
    SchemaPath(["author"], ObjectId, true, None, None),
    // mongoose gives every array path the default []
    SchemaPath(["likes"], ObjectIdList, false, None, Some(Arr([]))),
    SchemaPath(["content"], Text, true, None, None),
    SchemaPath(["comments"], SubdocList(CommentSchema), false, None, Some(Arr([])))
  ]

  /** A valid author has a name, a surname, an email and a date of birth; the strings are not empty. */
  lemma AuthorRequiredFields(doc: Record, casts: Casts)
    requires DocValid(AuthorSchema, doc, casts)
    ensures forall f :: f in ["name", "surname", "email"] ==> Present(Field(doc, f)) && CastText(doc[f]) != Some("")
    ensures Present(Field(doc, "dateOfBirth"))
  {
    RequiredPathPresent(AuthorSchema, doc, casts, 0);
    RequiredPathPresent(AuthorSchema, doc, casts, 1);
    RequiredPathPresent(AuthorSchema, doc, casts, 2);
    RequiredPathPresent(AuthorSchema, doc, casts, 3);
  }

  /** The avatar is optional: dropping it keeps a valid author valid. */
  lemma AuthorAvatarOptional(doc: Record, casts: Casts)
    requires DocValid(AuthorSchema, doc, casts)
    ensures DocValid(AuthorSchema, doc - {"avatar"}, casts)
  {
    OptionalFieldRemovable(AuthorSchema, doc, casts, "avatar");
  }

  /** A valid comment has a non-empty name and text. */
  lemma CommentRequiredFields(doc: Record, casts: Casts)
    requires DocValid(CommentSchema, doc, casts)
    ensures Present(Field(doc, "name")) && CastText(doc["name"]) != Some("")
    ensures Present(Field(doc, "text")) && CastText(doc["text"]) != Some("")
  {
    RequiredPathPresent(CommentSchema, doc, casts, 0);
    RequiredPathPresent(CommentSchema, doc, casts, 1);
  }

  /** The unit validator accepts exactly "seconds", "minutes" and "hours". */
  lemma UnitValidator(unit: string, casts: Casts)
    ensures PathValid(UnitPath, Some(Str(unit)), casts) <==> unit in {"seconds", "minutes", "hours"}
  {
  }

  /** A valid blogpost has category, title, readTime.value, readTime.unit, author and content. */
  lemma BlogpostRequiredFields(doc: Record, casts: Casts)
    requires DocValid(BlogpostSchema, doc, casts)
    ensures forall f :: f in ["category", "title", "author", "content"] ==> Present(Field(doc, f))
    ensures Present(Lookup(doc, ["readTime", "value"]))
    ensures Present(Lookup(doc, ["readTime", "unit"]))
    ensures CastText(Lookup(doc, ["readTime", "unit"]).value).Some?
    ensures CastText(Lookup(doc, ["readTime", "unit"]).value).value in Units
  {
    RequiredPathPresent(BlogpostSchema, doc, casts, 0);
    RequiredPathPresent(BlogpostSchema, doc, casts, 1);
    RequiredPathPresent(BlogpostSchema, doc, casts, 3);
    RequiredPathPresent(BlogpostSchema, doc, casts, 4);
    RequiredPathPresent(BlogpostSchema, doc, casts, 5);
    RequiredPathPresent(BlogpostSchema, doc, casts, 7);
    assert PathValid(BlogpostSchema[4], Lookup(doc, BlogpostSchema[4].path), casts);
  }

  /** The cover is optional here: dropping it keeps a valid blogpost valid. */
  lemma BlogpostCoverOptional(doc: Record, casts: Casts)
    requires DocValid(BlogpostSchema, doc, casts)
    ensures DocValid(BlogpostSchema, doc - {"cover"}, casts)
  {
    OptionalFieldRemovable(BlogpostSchema, doc, casts, "cover");
  }

  /** A blogpost saved without comments gets the empty list; one with comments keeps them. */
  lemma CommentsDefault(doc: Record)
    ensures "comments" !in doc ==> Field(ApplyDefaults(BlogpostSchema, doc), "comments") == Some(Arr([]))
    ensures "comments" in doc ==> Field(ApplyDefaults(BlogpostSchema, doc), "comments") == Field(doc, "comments")
  {
    if "comments" in doc {
      DefaultsKeepPresent(BlogpostSchema, doc, "comments");
    } else {
      assert BlogpostSchema[8].path == ["comments"];
      DefaultFilled(BlogpostSchema, doc, "comments", Arr([]));
    }
  }

  /** Every comment of a valid blogpost is a valid comment. */
  lemma BlogpostCommentsValid(doc: Record, casts: Casts, items: seq<Value>)
    requires DocValid(BlogpostSchema, doc, casts)
    requires Field(doc, "comments") == Some(Arr(items))
    ensures forall e :: e in items ==> e.Obj? && DocValid(CommentSchema, e.fields, casts)
  {
    SubdocsValid(BlogpostSchema, doc, casts, 8, CommentSchema, items);
  }
}
