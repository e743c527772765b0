/**
 * src/api/authors/index.js: the author routes over the flat-file author
 * list. Each handler loads the list, looks authors up by `uuid` or `email`,
 * changes the list in place and writes it back; `AuthorStore.authors` is that
 * list, and assigning it is the write.
 */
module Authors {
  import opened Wrappers
  import opened Json
  import opened Arrays
  import opened HttpErrors
  import opened Validate

  /** The callback `a => a.uuid === uuid`. */
  function UuidIs(uuid: string): Record -> bool
  {
    HasId("uuid", uuid)
  }

  /** The callback `a => a.uuid !== uuid`. */
  function UuidIsNot(uuid: string): Record -> bool
  {
    a => Field(a, "uuid") != Some(Str(uuid))
  }

  /** The callback `a => a.email === email`. */
  function EmailIs(email: Option<Value>): Record -> bool
  {
    a => StrictEquals(Field(a, "email"), email)
  }

  /** `authors.some(a => a.email === email)`. */
  predicate EmailInUse(authors: seq<Record>, email: Option<Value>)
  {
    Any(authors, EmailIs(email))
  }

  /** No two stored authors have emails that `===` considers equal. */
  ghost predicate EmailsDistinct(authors: seq<Record>)
  {
    forall i, j :: 0 <= i < j < |authors| ==> !StrictEquals(Field(authors[i], "email"), Field(authors[j], "email"))
  }

  /** No two stored authors have uuids that `===` considers equal. */
  ghost predicate UuidsDistinct(authors: seq<Record>)
  {
    forall i, j :: 0 <= i < j < |authors| ==> !StrictEquals(Field(authors[i], "uuid"), Field(authors[j], "uuid"))
  }

  /** `{...req.body, uuid: uuidv4()}`, with the generated uuid passed in. */
  function NewAuthor(body: Record, uuid: string): (a: Record)
    ensures Field(a, "uuid") == Some(Str(uuid))
    ensures forall f :: f != "uuid" ==> Field(a, f) == Field(body, f)
  {
    body["uuid" := Str(uuid)]
  }

  /** The 201 body `{name: name + " " + surname, avatar, uuid}`; an undefined avatar is dropped by JSON. */
  function CreatedReply(a: Record): Record
  {
    var reply := map["name" := Str(Display(Field(a, "name")) + " " + Display(Field(a, "surname")))];
    var reply := if "avatar" in a then reply["avatar" := a["avatar"]] else reply;
    if "uuid" in a then reply["uuid" := a["uuid"]] else reply
  }

  function EmailTaken(email: Option<Value>): Failure
  {
    HttpError(400, "Email " + Display(email) + " is already in use", None)
  }

  const NoEmailToCheck: Failure := HttpError(400, "No email to check provided", None)

  /** The 404 for an unknown author, naming the uuid of the request path. */
  function NoAuthor(uuid: string): Failure
  {
    HttpError(404, "No author with id " + uuid, None)
  }

  /**
   * The 404 the GET, PUT and DELETE routes build (src/api/authors/index.js:48,
   * 66, 80): it interpolates `req.body.uuid`, not the path's uuid.
   */
  function NoAuthorAsWritten(body: Record): Failure
  {
    HttpError(404, "No author with id " + Display(Field(body, "uuid")), None)
  }

  /** The corrected 404 names the id asked for: different ids give different messages. */
  lemma NoAuthorNamesId(u1: string, u2: string)
    requires NoAuthor(u1) == NoAuthor(u2)
    ensures u1 == u2
  {
    var prefix := "No author with id ";
    assert u1 == (prefix + u1)[|prefix|..];
    assert u2 == (prefix + u2)[|prefix|..];
  }

  /**
   * As written, a request without a body uuid gets "No author with id
   * undefined" whatever uuid it asked for.
   */
  lemma NoAuthorAsWrittenLosesId(uuid: string)
    requires uuid != "undefined"
    ensures NoAuthorAsWritten(map[]).message == "No author with id undefined"
    ensures NoAuthorAsWritten(map[]) != NoAuthor(uuid)
  {
    if NoAuthorAsWritten(map[]) == NoAuthor(uuid) {
      NoAuthorNamesId("undefined", uuid);
    }
  }

  /** Where an uploaded avatar is served from. */
  const AvatarBaseUrl: string := "http://localhost:3420/img/authors/"

  /** A create that passes the email check keeps the stored emails pairwise distinct. */
  lemma CreateKeepsEmailsDistinct(authors: seq<Record>, body: Record, uuid: string)
    requires EmailsDistinct(authors)
    requires !EmailInUse(authors, Field(body, "email"))
    ensures EmailsDistinct(authors + [NewAuthor(body, uuid)])
  {
    var a := NewAuthor(body, uuid);
    var s := authors + [a];
    forall i, j | 0 <= i < j < |s| ensures !StrictEquals(Field(s[i], "email"), Field(s[j], "email")) {
      if j == |authors| {
        assert !EmailIs(Field(body, "email"))(authors[i]);
        assert Field(a, "email") == Field(body, "email");
      }
    }
  }

  /** With a uuid nobody has yet, a create keeps the stored uuids pairwise distinct. */
  lemma CreateKeepsUuidsDistinct(authors: seq<Record>, body: Record, uuid: string)
    requires UuidsDistinct(authors)
    requires !Any(authors, UuidIs(uuid))
    ensures UuidsDistinct(authors + [NewAuthor(body, uuid)])
  {
    var s := authors + [NewAuthor(body, uuid)];
    forall i, j | 0 <= i < j < |s| ensures !StrictEquals(Field(s[i], "uuid"), Field(s[j], "uuid")) {
      if j == |authors| {
        assert !UuidIs(uuid)(authors[i]);
      }
    }
  }

  /**
   * An update does not check the email: merging a body that carries another
   * author's email leaves two authors with the same one.
   */
  lemma UpdateMayDuplicateEmail()
    ensures var authors := [map["uuid" := Str("a"), "email" := Str("x@y.z")], map["uuid" := Str("b"), "email" := Str("u@v.w")]];
            var body := map["email" := Str("x@y.z")];
            && EmailsDistinct(authors)
            && FindIndex(authors, UuidIs("b")) == 1
            && !EmailsDistinct(authors[1 := authors[1] + body])
  {
    var authors := [map["uuid" := Str("a"), "email" := Str("x@y.z")], map["uuid" := Str("b"), "email" := Str("u@v.w")]];
    var body := map["email" := Str("x@y.z")];
    assert !UuidIs("b")(authors[0]);
    var after := authors[1 := authors[1] + body];
    assert Field(after[0], "email") == Field(after[1], "email") == Some(Str("x@y.z"));
  }

  /** Filtering out a uuid leaves no author with it and keeps every other author. */
  lemma FilteredListLacksUuid(authors: seq<Record>, uuid: string)
    ensures var rest := Filter(authors, UuidIsNot(uuid));
            && FindIndex(rest, UuidIs(uuid)) == -1
            && (forall k :: 0 <= k < |authors| && !UuidIs(uuid)(authors[k]) ==> authors[k] in rest)
            && (|rest| < |authors| <==> Any(authors, UuidIs(uuid)))
  {
    var rest := Filter(authors, UuidIsNot(uuid));
    forall k | 0 <= k < |rest| ensures !UuidIs(uuid)(rest[k]) {
      assert UuidIsNot(uuid)(rest[k]);
    }
    forall k | 0 <= k < |authors| && !UuidIs(uuid)(authors[k]) ensures authors[k] in rest {
      assert UuidIsNot(uuid)(authors[k]);
    }
    if |rest| == |authors| {
      forall k | 0 <= k < |authors| ensures !UuidIs(uuid)(authors[k]) {
        assert UuidIsNot(uuid)(authors[k]);
      }
    }
    if |rest| < |authors| {
      var k :| 0 <= k < |authors| && !UuidIsNot(uuid)(authors[k]);
      assert UuidIs(uuid)(authors[k]);
    }
  }

  class AuthorStore {
    /** The contents of authors.json. */
    var authors: seq<Record>

    constructor (initial: seq<Record>)
      ensures authors == initial
    {
      authors := initial;
    }

    /**
     * POST /authors: `checkAuthorSchema` and `triggerBadRequest`, then the
     * handler, which refuses an email already in use and otherwise appends
     * the body with a fresh uuid.
     */
    method Create(body: Record, freshUuid: string, formats: Formats) returns (out: Outcome)
      modifies this
      ensures var errors := ValidationResult(AuthorSchema, body, formats);
              errors != [] ==> out == Forwarded(TriggerBadRequest(errors).value) && authors == old(authors)
      ensures var errors := ValidationResult(AuthorSchema, body, formats);
              errors == [] && EmailInUse(old(authors), Field(body, "email")) ==>
                out == Forwarded(EmailTaken(Field(body, "email"))) && authors == old(authors)
      ensures var errors := ValidationResult(AuthorSchema, body, formats);
              errors == [] && !EmailInUse(old(authors), Field(body, "email")) ==>
                && authors == old(authors) + [NewAuthor(body, freshUuid)]
                && out == Replied(201, Some(Obj(CreatedReply(NewAuthor(body, freshUuid)))))
      ensures EmailsDistinct(old(authors)) ==> EmailsDistinct(authors)
      ensures UuidsDistinct(old(authors)) && !Any(old(authors), UuidIs(freshUuid)) ==> UuidsDistinct(authors)
    {
      var gate := TriggerBadRequest(ValidationResult(AuthorSchema, body, formats));
      if gate.Some? {
        return Forwarded(gate.value);
      }
      var newAuthor := NewAuthor(body, freshUuid);
      var unavailable := EmailInUse(authors, Field(body, "email"));
      if !unavailable {
        if EmailsDistinct(authors) {
          CreateKeepsEmailsDistinct(authors, body, freshUuid);
        }
        if UuidsDistinct(authors) && !Any(authors, UuidIs(freshUuid)) {
          CreateKeepsUuidsDistinct(authors, body, freshUuid);
        }
        authors := authors + [newAuthor];
        out := Replied(201, Some(Obj(CreatedReply(newAuthor))));
      } else {
        out := Forwarded(EmailTaken(Field(body, "email")));
      }
    }

    /**
     * GET /authors/:uuid as written: the first author with that uuid, or the
     * 404 built from the request body's uuid.
     */
    method GetAsWritten(uuid: string, body: Record) returns (out: Outcome)
      ensures var i := FindIndex(authors, UuidIs(uuid));
              && (0 <= i ==> out == Replied(200, Some(Obj(authors[i]))))
              && (i == -1 ==> out == Forwarded(NoAuthorAsWritten(body)))
    {
      var found := Find(authors, UuidIs(uuid));
      if found.Some? {
        out := Replied(200, Some(Obj(found.value)));
      } else {
        out := Forwarded(NoAuthorAsWritten(body));
      }
    }

    /** GET /authors/:uuid with the corrected 404, naming the uuid asked for. */
    method Get(uuid: string) returns (out: Outcome)
      ensures var i := FindIndex(authors, UuidIs(uuid));
              && (0 <= i ==> out == Replied(200, Some(Obj(authors[i]))))
              && (i == -1 ==> out == Forwarded(NoAuthor(uuid)))
    {
      var found := Find(authors, UuidIs(uuid));
      if found.Some? {
        out := Replied(200, Some(Obj(found.value)));
      } else {
        out := Forwarded(NoAuthor(uuid));
      }
    }

    /**
     * PUT /authors/:uuid as written: after validation, the first author with
     * that uuid becomes `{...author, ...body}` and nothing else changes; an
     * unknown uuid gets the 404 built from the body's uuid.
     */
    method UpdateAsWritten(uuid: string, body: Record, formats: Formats) returns (out: Outcome)
      modifies this
      ensures var errors := ValidationResult(AuthorSchema, body, formats);
              errors != [] ==> out == Forwarded(TriggerBadRequest(errors).value) && authors == old(authors)
      ensures var errors := ValidationResult(AuthorSchema, body, formats);
              var i := FindIndex(old(authors), UuidIs(uuid));
              && (errors == [] && i == -1 ==> out == Forwarded(NoAuthorAsWritten(body)) && authors == old(authors))
              && (errors == [] && 0 <= i ==>
                    && |authors| == |old(authors)|
                    && authors[i] == old(authors)[i] + body
                    && (forall k :: 0 <= k < |authors| && k != i ==> authors[k] == old(authors)[k])
                    && out == Replied(200, Some(Obj(old(authors)[i] + body))))
    {
      var gate := TriggerBadRequest(ValidationResult(AuthorSchema, body, formats));
      if gate.Some? {
        return Forwarded(gate.value);
      }
      var i := FindIndex(authors, UuidIs(uuid));
      if i != -1 {
        var updated := authors[i] + body;
        authors := authors[i := updated];
        out := Replied(200, Some(Obj(updated)));
      } else {
        out := Forwarded(NoAuthorAsWritten(body));
      }
    }

    /** PUT /authors/:uuid with the corrected 404, naming the uuid asked for. */
    method Update(uuid: string, body: Record, formats: Formats) returns (out: Outcome)
      modifies this
      ensures var errors := ValidationResult(AuthorSchema, body, formats);
              errors != [] ==> out == Forwarded(TriggerBadRequest(errors).value) && authors == old(authors)
      ensures var errors := ValidationResult(AuthorSchema, body, formats);
              var i := FindIndex(old(authors), UuidIs(uuid));
              && (errors == [] && i == -1 ==> out == Forwarded(NoAuthor(uuid)) && authors == old(authors))
              && (errors == [] && 0 <= i ==>
                    && |authors| == |old(authors)|
                    && authors[i] == old(authors)[i] + body
                    && (forall k :: 0 <= k < |authors| && k != i ==> authors[k] == old(authors)[k])
                    && out == Replied(200, Some(Obj(old(authors)[i] + body))))
    {
      var gate := TriggerBadRequest(ValidationResult(AuthorSchema, body, formats));
      if gate.Some? {
        return Forwarded(gate.value);
      }
      var i := FindIndex(authors, UuidIs(uuid));
      if i != -1 {
        var updated := authors[i] + body;
        authors := authors[i := updated];
        out := Replied(200, Some(Obj(updated)));
      } else {
        out := Forwarded(NoAuthor(uuid));
      }
    }

    /**
     * DELETE /authors/:uuid as written: it answers 204 when some author has
     * the uuid, but the filtered list is never written back.
     */
    method DeleteAsWritten(uuid: string, body: Record) returns (out: Outcome)
      ensures out == if Any(authors, UuidIs(uuid)) then Replied(204, None) else Forwarded(NoAuthorAsWritten(body))
    {
      var remaining := Filter(authors, UuidIsNot(uuid));
      FilteredListLacksUuid(authors, uuid);
      if |authors| != |remaining| {
        out := Replied(204, None);
      } else {
        out := Forwarded(NoAuthorAsWritten(body));
      }
    }

    /** DELETE /authors/:uuid with the filtered list stored, as the 204 promises. */
    method Delete(uuid: string) returns (out: Outcome)
      modifies this
      ensures out == if Any(old(authors), UuidIs(uuid)) then Replied(204, None) else Forwarded(NoAuthor(uuid))
      ensures Any(old(authors), UuidIs(uuid)) ==> authors == Filter(old(authors), UuidIsNot(uuid))
      ensures !Any(old(authors), UuidIs(uuid)) ==> authors == old(authors)
      ensures FindIndex(authors, UuidIs(uuid)) == -1
    {
      var remaining := Filter(authors, UuidIsNot(uuid));
      FilteredListLacksUuid(authors, uuid);
      if |authors| != |remaining| {
        authors := remaining;
        out := Replied(204, None);
      } else {
        out := Forwarded(NoAuthor(uuid));
      }
    }

    /** POST /authors/checkEmail: whether some author already has the email, or 400 without one. */
    method CheckEmail(body: Record) returns (out: Outcome)
      ensures Truthy(Field(body, "email")) ==>
                var unavailable := exists k :: 0 <= k < |authors| && StrictEquals(Field(authors[k], "email"), Field(body, "email"));
                out == Replied(200, Some(Obj(map["unavailable" := Bool(unavailable)])))
      ensures !Truthy(Field(body, "email")) ==> out == Forwarded(NoEmailToCheck)
    {
      if Truthy(Field(body, "email")) {
        var unavailable := EmailInUse(authors, Field(body, "email"));
        out := Replied(200, Some(Obj(map["unavailable" := Bool(unavailable)])));
      } else {
        out := Forwarded(NoEmailToCheck);
      }
    }

    /**
     * POST /authors/:uuid/upload: the first author with that uuid gets the
     * served URL of its uploaded avatar. `extension` is `extname` of the
     * uploaded file's name, `None` when the request carries no file.
     */
    method UploadAvatar(uuid: string, extension: Option<string>) returns (out: Outcome)
      modifies this
      ensures var i := FindIndex(old(authors), UuidIs(uuid));
              && (i == -1 ==> out == Forwarded(NoAuthor(uuid)) && authors == old(authors))
              && (0 <= i && extension.None? ==> out == Forwarded(NoFile) && authors == old(authors))
              && (0 <= i && extension.Some? ==>
                    && authors == old(authors)[i := old(authors)[i]["avatar" := Str(AvatarBaseUrl + (uuid + extension.value))]]
                    && out == Replied(200, Some(Obj(map["message" := Str("avatar uploaded for " + uuid)]))))
    {
      var i := FindIndex(authors, UuidIs(uuid));
      if i != -1 {
        if extension.None? {
          return Forwarded(NoFile);
        }
        var filename := uuid + extension.value;
        authors := authors[i := authors[i]["avatar" := Str(AvatarBaseUrl + filename)]];
        out := Replied(200, Some(Obj(map["message" := Str("avatar uploaded for " + uuid)])));
      } else {
        out := Forwarded(NoAuthor(uuid));
      }
    }
  }

  /** As written, a GET of an unknown uuid without a body uuid reports "undefined" as the missing id. */
  method GetUnknownAsWritten() returns (found: Outcome)
    ensures found == Forwarded(HttpError(404, "No author with id undefined", None))
  {
    var store := new AuthorStore([map["uuid" := Str("a1")]]);
    assert !UuidIs("x")(store.authors[0]);
    found := store.GetAsWritten("x", map[]);
    NoAuthorAsWrittenLosesId("x");
  }

  /** With the corrected message, the same request names the id it asked for. */
  method GetUnknown() returns (found: Outcome)
    ensures found == Forwarded(HttpError(404, "No author with id x", None))
  {
    var store := new AuthorStore([map["uuid" := Str("a1")]]);
    assert !UuidIs("x")(store.authors[0]);
    found := store.Get("x");
    assert NoAuthor("x").message == "No author with id x";
  }

  /** As written, an author reported deleted is still found afterwards. */
  method DeleteThenGetAsWritten() returns (deleted: Outcome, found: Outcome)
    ensures deleted == Replied(204, None)
    ensures found == Replied(200, Some(Obj(map["uuid" := Str("a1")])))
  {
    var store := new AuthorStore([map["uuid" := Str("a1")]]);
    assert UuidIs("a1")(store.authors[0]);
    deleted := store.DeleteAsWritten("a1", map[]);
    found := store.GetAsWritten("a1", map[]);
  }

  /** With the list written back, the deleted author is gone. */
  method DeleteThenGet() returns (deleted: Outcome, found: Outcome)
    ensures deleted == Replied(204, None)
    ensures found == Forwarded(NoAuthor("a1"))
  {
    var store := new AuthorStore([map["uuid" := Str("a1")]]);
    assert UuidIs("a1")(store.authors[0]);
    deleted := store.Delete("a1");
    found := store.Get("a1");
  }
}
