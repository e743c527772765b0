# Blog API core: authors, comments, error handlers, validation and schemas

This project models the core of a small Express blog API (the
U4-D2-Express-Basics repository). The API keeps authors and blogposts in two
JSON files. It validates request bodies with express-validator and describes
its documents with mongoose schemas. The model covers these parts:

- **Authors** (`authors.dfy`): the author routes of `src/api/authors/index.js`.
  They create, read, update, delete and check emails over the author list,
  and they upload avatars. `AuthorStore` is a class. Its `authors` field is
  the contents of `authors.json`, and every route that writes the file
  reassigns that field.
- **Blogposts** (`blogposts.dfy`): the comment routes and the cover upload of
  `src/api/blogposts/index.js`, over `BlogpostStore.blogposts`.
- **ErrorHandlers** (`error_handlers.dfy`): the five error middlewares of
  `src/errorHandlers.js`, and the chain they form in declaration order.
- **Validate** (`validate.dfy`): the author and blogpost validation schemas
  of `src/api/validate.js`, the error list they produce, and
  `triggerBadRequest`.
- **Schemas**, **Models**, **BlogpostModel** (`schemas.dfy`, `models.dfy`,
  `blogpost_model.dfy`): the mongoose schemas of `src/api/models.js` and
  `src/api/blogposts/model.js`, as validity predicates over documents.
- **Json**, **Arrays**, **HttpErrors**, **Wrappers**: the shared vocabulary.
  - JSON values and records. Spreading `{...a, ...b}` is the map union `a + b`.
  - `===`, truthiness and template-literal text.
  - The array methods `find`, `findIndex`, `some`, `filter` and `map`.
  - The outcome of a route: it replies with a status and a body, or it hands
    an error to `next`.

Anything a route cannot compute itself is a parameter:
- the generated uuid;
- the current time;
- the uploaded file's extension or stored path;
- the format checks of express-validator (`Formats`);
- mongoose's Number, Date and ObjectId casts (`Casts`).

## Model

| member | source | states |
|---|---|---|
| Arrays.FindIndex | src/api/authors/index.js:59 | `findIndex` gives the first index whose element satisfies the callback, and -1 exactly when none does |
| Arrays.Find | src/api/authors/index.js:44 | `find` gives nothing exactly when no element matches; otherwise it gives the element at `findIndex` |
| Arrays.Any | src/api/authors/index.js:17 | `some` holds exactly when some element satisfies the callback |
| Arrays.Filter | src/api/authors/index.js:76 | `filter` keeps every element that passes and only those, and is no longer than its input; it keeps them all exactly when every element passes |
| Arrays.FilterDistributes | src/api/blogposts/index.js:203 | filtering keeps order: filtering a concatenation is the concatenation of the filtered parts |
| Arrays.FilterKeepsAll | src/api/blogposts/index.js:203 | when every element passes, `filter` returns the array unchanged |
| Arrays.Map | src/errorHandlers.js:3 | `map` keeps the length and applies the callback to each element |
| ErrorHandlers.BadRequestHandler | src/errorHandlers.js:1-7 | answers exactly the errors with status 400, with success false, the error's message, and the `msg` of each listed error in order (empty when there is no list); it forwards every other error unchanged |
| ErrorHandlers.UnauthorizedHandler | src/errorHandlers.js:9-15 | answers exactly the errors with status 401, with success false and the error's message; it forwards every other error unchanged |
| ErrorHandlers.ForbiddenErrorHandler | src/errorHandlers.js:17-23 | the same for status 403 |
| ErrorHandlers.NotfoundHandler | src/errorHandlers.js:25-31 | the same for status 404 |
| ErrorHandlers.GenericErrorHandler | src/errorHandlers.js:33-36 | always answers 500 with success false and the fixed message "We done fucked up" |
| ErrorHandlers.RunChain | src/errorHandlers.js:1-36 | a chain of handlers answers exactly when one of its handlers answers |
| ErrorHandlers.ChainAppend | src/errorHandlers.js:1-36 | a later handler runs only when every earlier one forwarded |
| ErrorHandlers.AnswerIsUnique | src/errorHandlers.js:1-36 | at most one handler answers, and the chain sends that handler's response |
| ErrorHandlers.ErrorChainResponse | src/errorHandlers.js:1-36 | with the handlers in declaration order, every error is answered exactly once. 400, 401, 403 and 404 keep their status and message; everything else becomes a 500 with the fixed message. success is always false |
| ErrorHandlers.GenericHidesCause | src/errorHandlers.js:33-36 | two errors that reach the catch-all handler get identical responses |
| Validate.ValidationResult | src/api/validate.js:4-75 | no more errors than schema rules; no errors exactly when every rule passes; each error belongs to a failing rule, with that rule's message, path and value |
| Validate.ValidationResultSingle | src/api/validate.js:4-75 | one rule gives no error when it passes and exactly its own error when it fails |
| Validate.ValidationResultAppend | src/api/validate.js:4-75 | the errors of a schema are the errors of its first part followed by those of the rest, so each failing rule gives exactly one error, in schema order |
| Validate.FailingRuleReported | src/api/validate.js:4-75 | every failing rule contributes its error |
| Validate.ResultReadsOnlySchemaFields | src/api/validate.js:4-75 | the errors depend only on the body fields the schema names |
| Validate.AuthorSchemaFields | src/api/validate.js:4-36 | the author schema reads exactly name, surName, email, dateOfBirth and avatar |
| Validate.BlogpostSchemaReadTime | src/api/validate.js:57-68 | a body the blogpost schema accepts has an integer `readTime.value` and a string `readTime.unit` |
| Validate.TriggerBadRequest | src/api/validate.js:80-88 | calls `next()` exactly when there are no errors; otherwise it forwards a 400 "Errors during validation" carrying the whole error list |
| Validate.RejectedBodyResponse | src/api/validate.js:80-88 | a rejected body ends, through the error chain, in a 400 whose `errorsList` holds the failing rules' messages in schema order |
| Authors.NewAuthor | src/api/authors/index.js:15 | the new author has the given uuid and every other field of the body |
| Authors.NoAuthorNamesId | src/api/authors/index.js:115 | the 404 message for an unknown author names the id asked for: different ids give different messages |
| Authors.NoAuthorAsWrittenLosesId | src/api/authors/index.js:48 | the 404 built from `req.body.uuid` says "No author with id undefined" for a bodiless request, whatever id was asked for |
| Authors.CreateKeepsEmailsDistinct | src/api/authors/index.js:17-19 | an author appended after the email check keeps the stored emails pairwise distinct |
| Authors.CreateKeepsUuidsDistinct | src/api/authors/index.js:15-19 | appending an author under a uuid no one has keeps the stored uuids pairwise distinct |
| Authors.UpdateMayDuplicateEmail | src/api/authors/index.js:59-62 | the update does not check the email, so it can leave two authors with the same one |
| Authors.FilteredListLacksUuid | src/api/authors/index.js:76-77 | after filtering out a uuid, no author has it and every other author is kept; the list got shorter exactly when some author had the uuid |
| Authors.AuthorStore.Create | src/api/authors/index.js:13-30 | an invalid body is forwarded as the 400 validation error. A taken email is forwarded as the 400 "Email ... is already in use". Otherwise the author is appended and the reply is 201 with name and surname joined, the avatar and the uuid. Distinct emails and distinct uuids are preserved |
| Authors.AuthorStore.GetAsWritten | src/api/authors/index.js:41-54 | as written: replies 200 with the first author having the uuid, or forwards the 404 built from the body's uuid |
| Authors.AuthorStore.Get | src/api/authors/index.js:41-54 | corrected: the same reply, but the 404 names the uuid asked for |
| Authors.AuthorStore.UpdateAsWritten | src/api/authors/index.js:56-71 | as written: an invalid body is forwarded as the 400 validation error. Otherwise the first author with the uuid becomes `{...author, ...body}` and is sent back, and the other authors stay as they were. An unknown uuid gets the 404 built from the body's uuid and changes nothing |
| Authors.AuthorStore.Update | src/api/authors/index.js:56-71 | corrected: the same as the route as written, but the 404 names the uuid asked for |
| Authors.GetUnknownAsWritten | src/api/authors/index.js:48 | as written, a GET of an unknown uuid without a body gets "No author with id undefined" |
| Authors.GetUnknown | src/api/authors/index.js:41-54 | corrected, the same request gets "No author with id x", naming the id asked for |
| Authors.AuthorStore.DeleteAsWritten | src/api/authors/index.js:73-85 | as written: replies 204 exactly when some author has the uuid, and otherwise forwards the 404 built from the body; the stored list is left unchanged either way |
| Authors.AuthorStore.Delete | src/api/authors/index.js:73-85 | corrected: on a 204 the stored list is the filtered one; afterwards no author has the uuid |
| Authors.AuthorStore.CheckEmail | src/api/authors/index.js:87-98 | with a truthy body email, replies whether some author has an email `===` to it; otherwise forwards the 400 "No email to check provided" |
| Authors.AuthorStore.UploadAvatar | src/api/authors/index.js:104-120 | the first author with the uuid gets the avatar URL under http://localhost:3420/img/authors/, named by the uuid and the file's extension. The others are unchanged. A missing file throws; an unknown uuid gets the 404 |
| Authors.DeleteThenGetAsWritten | src/api/authors/index.js:73-85 | as written, an author reported deleted (204) is still found by a later GET |
| Authors.DeleteThenGet | src/api/authors/index.js:73-85 | corrected, a GET after the 204 gets the 404 |
| Blogposts.NewComment | src/api/blogposts/index.js:157 | the new comment has the generated uuid and `createdAt` and `updatedAt` set to now; every other field comes from the body |
| Blogposts.MissingCommentReadsAsMissingBlogpost | src/api/blogposts/index.js:209 | as written, a missing comment on delete gets the missing-blogpost message, never one about the comment |
| Blogposts.NoCommentDiffersFromNoBlogpost | src/api/blogposts/index.js:187 | the corrected missing-comment 404 differs from every missing-blogpost 404 |
| Blogposts.FilteredCommentsLackId | src/api/blogposts/index.js:203-204 | after filtering out a comment id, no comment has it and every other comment is kept; the array got shorter exactly when some comment had the id |
| Blogposts.AddThenDeleteComment | src/api/blogposts/index.js:155-217 | deleting a newly added comment by its fresh uuid gives back the comments it was added to |
| Blogposts.BlogpostStore.GetComments | src/api/blogposts/index.js:141-153 | replies 200 with the `comments` of the first blogpost having the uuid, or forwards the 404 |
| Blogposts.BlogpostStore.AddComment | src/api/blogposts/index.js:155-171 | the new comment goes at the end of that blogpost's comments, after the earlier ones in order, and its `updatedAt` is stamped. The other fields and blogposts are unchanged. The reply is 201 with the id and the comment. Comments that cannot be spread throw; an unknown uuid gets the 404 |
| Blogposts.BlogpostStore.UpdateComment | src/api/blogposts/index.js:173-195 | the first comment with the id becomes `{...comment, ...body, updatedAt}` in place and is sent back; nothing else changes. An unknown comment or blogpost gets its own 404 and changes nothing |
| Blogposts.BlogpostStore.DeleteCommentAsWritten | src/api/blogposts/index.js:197-217 | as written: when some comment has the id, the comments become the filtered array and the reply is 204; none with the id is left. Otherwise it forwards the missing-blogpost 404 and changes nothing |
| Blogposts.BlogpostStore.DeleteComment | src/api/blogposts/index.js:197-217 | corrected: the same, but a missing comment gets the 404 naming the comment |
| Blogposts.BlogpostStore.UploadCover | src/api/blogposts/index.js:123-138 | the first blogpost whose `_id` matches gets `cover` set to the stored file path; nothing else changes and the reply names the id. A missing file throws; an unknown id gets the 404 |
| Schemas.RequiredPathPresent | src/api/models.js:7-10 | a required path of a valid document holds a value, and a required string path a non-empty one |
| Schemas.OptionalFieldRemovable | src/api/models.js:11 | dropping an optional top-level field keeps a valid document valid |
| Schemas.DefaultsKeepPresent | src/api/models.js:48 | a default never overwrites a value that is present |
| Schemas.DefaultFilled | src/api/models.js:48 | an absent top-level field takes its declared default |
| Schemas.NoOtherDefault | src/api/models.js:48 | defaults add a missing key only with the declared default |
| Schemas.SubdocsValid | src/api/models.js:48 | every element of a valid subdocument array is an object satisfying the subschema |
| Models.AuthorRequiredFields | src/api/models.js:5-16 | a valid author has a non-empty name, surname and email, and a date of birth |
| Models.AuthorAvatarOptional | src/api/models.js:11 | an author without an avatar can be valid |
| Models.CommentRequiredFields | src/api/models.js:18-26 | a valid comment has a non-empty name and text |
| Models.UnitValidator | src/api/models.js:34-43 | the readTime unit accepts a string exactly when it is "seconds", "minutes" or "hours" |
| Models.BlogpostRequiredFields | src/api/models.js:27-53 | a valid blogpost has category, title, readTime value, author and content, plus a unit that is one of the three |
| Models.BlogpostCoverOptional | src/api/models.js:31 | the cover is optional in this schema |
| Models.CommentsDefault | src/api/models.js:48 | a blogpost saved without comments gets `[]`; a blogpost saved with comments keeps them |
| Models.BlogpostCommentsValid | src/api/models.js:48 | every comment of a valid blogpost is a valid comment |
| BlogpostModel.CoverRequired | src/api/blogposts/model.js:19 | the cover is required: a valid blogpost has a non-empty one, and without it no blogpost is valid |
| BlogpostModel.EmbeddedAuthor | src/api/blogposts/model.js:33-37 | the embedded author is an object with a non-empty email; dropping its name or its avatar keeps the blogpost valid |
| BlogpostModel.EmbeddedFieldRemovable | src/api/blogposts/model.js:34-35 | an optional field of the embedded author can be removed without breaking validity |
| BlogpostModel.UnitValidator | src/api/blogposts/model.js:22-31 | a valid blogpost's unit is "seconds", "minutes" or "hours" |
| BlogpostModel.Comments | src/api/blogposts/model.js:6-14 | comments default to `[]`, and each comment of a valid blogpost has a name and a text |

## Left out

- File I/O: `getAuthors`, `setAuthors`, `getBlogposts` and `setBlogposts` become reads and assignments of the store's field. `saveAuthorImage` and the Cloudinary upload are not modelled, and neither is a failing read or write.
- `uuidv4()`, `new Date()`, `extname` and the uploaded file are parameters. The three `new Date()` calls of the comment POST are one `now`, and a `Date` is held as its JSON text.
- express-validator's `isEmail`, `isDate`, `isURL` and `isInt` are the `Formats` parameter. Only `isString` is defined here.
- mongoose's casts to Number, Date and ObjectId are the `Casts` parameter. The `timestamps` option and the `ref` links are not modelled.
- Number values are integers. The order of keys in JSON objects is not modelled.
- A `null` element inside a comments array counts as a comment without a uuid. In the source, reading `.uuid` of it throws a TypeError.
- `AuthorStore.authors` and `BlogpostStore.blogposts` hold objects only. A `null` or other non-object entry in authors.json or blogposts.json cannot be represented. In the source, the `a.uuid` and `b.uuid` callbacks throw a TypeError on such an entry (src/api/authors/index.js:44, 59, 76 and src/api/blogposts/index.js:144, 159).
- Each route is one atomic step, as if requests never overlapped. In the source every handler awaits between reading the file and writing it back (for example src/api/authors/index.js:16 and 20). Two overlapping requests can therefore both read the same list, and the later write drops the earlier one's change after its client was told it succeeded. Calling two methods in a row in the model keeps both changes.
- Logging is left out: `console.log(err)` in the catch-all handler (src/errorHandlers.js:35) and `console.log("FILE", req.file)` in the cover upload (src/api/blogposts/index.js:128).
- `[...comments]` on a string spreads it into one-character strings per `char`, that is per Unicode scalar value. A string holding a lone surrogate is not modelled.
- The mongoose-backed blogpost routes are not part of this model: create, list, get, update and delete a blogpost, and PDF, CSV and e-mail. GET /authors (the whole list) is not modelled either, since it only sends the file's contents.
- Authors.AuthorStore.CheckEmail: the statements after its try/catch (src/api/authors/index.js:99-101) are left out. They run after the reply has been sent and refer to an undefined `authorsPath`, so they raise a ReferenceError. Under Express 4 the rejected promise of the async handler is not passed to the error handlers: it becomes an unhandled rejection, which on Node 15 and later ends the process after the reply. Express 5 would pass it on to `next` instead.
- The router and middleware wiring of src/server.js is context only. It mounts only the authors router and installs none of the error handlers, so the ErrorHandlers chain is modelled in its declaration order.
- validate.js checks `surName`, while both schemas and the create reply use `surname`. The model keeps both spellings as written.
- src/api/blogposts/index.js is an ES module whose imports cannot all be resolved, so as written it fails to link and none of its routes runs:
  - `checkCommentSchema` (line 10) is not exported by src/api/validate.js;
  - `getAuthorsJSONReadableStream`, `sendConfirmationEmail` and `getPDFBlogpost` (lines 11-12) are not exported by src/lib/tools.js;
  - the default import of src/api/blogposts/model.js (line 15) fails, because that file has only named exports.
  src/server.js does not mount this router either. `GetComments`, `AddComment`, `UpdateComment`, `DeleteComment`, `DeleteCommentAsWritten` and `UploadCover` model the handler bodies as they would behave once the imports resolve, with no validation middleware in front of them.

## Findings

| source | as written | input that shows it | evidently intended | confidence | as-written member | corrected member |
|---|---|---|---|---|---|---|
| src/api/authors/index.js:75-80 | DELETE /authors/:uuid filters the list and answers 204 but never writes the filtered list back | authors `[{uuid: "a1"}]`, DELETE then GET of `a1`: the GET still finds the author | the filtered list is stored, so the author is gone | high, not executed | Authors.DeleteThenGetAsWritten | Authors.DeleteThenGet |
| src/api/authors/index.js:48 | the 404 messages of GET, PUT and DELETE interpolate `req.body.uuid` instead of the path's uuid | GET /authors/x with no body, under Express 4 (body-parser sets `req.body` to `{}`): "No author with id undefined"; under Express 5 `req.body` stays undefined and the GET ends in a 500 | "No author with id x", as the upload route does | high, not executed | Authors.GetUnknownAsWritten | Authors.GetUnknown |
| src/api/blogposts/index.js:209 | deleting a missing comment of an existing blogpost answers "No blogpost with id ..." | DELETE /blogposts/b1/comments/c9 where b1 exists without c9: reports that b1 is missing | "No comment with id c9", as the PUT route does | high, not executed | Blogposts.MissingCommentReadsAsMissingBlogpost | Blogposts.NoCommentDiffersFromNoBlogpost |
