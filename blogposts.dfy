/**
 * src/api/blogposts/index.js, the routes over the flat-file blogpost list:
 * the comment routes, which find a blogpost by `uuid` and change its
 * `comments` array, and the cover upload, which finds it by `_id`.
 * `BlogpostStore.blogposts` is that list, and assigning it is the write.
 */
module Blogposts {
  import opened Wrappers
  import opened Json
  import opened Arrays
  import opened HttpErrors

  /** `[...value]`: an array spreads to its elements, a string to its characters; anything else throws. */
  function Spread(v: Option<Value>): Option<seq<Value>>
  {
    match v
    case Some(Arr(items)) => Some(items)
    case Some(Str(s)) => Some(seq(|s|, k requires 0 <= k < |s| => Str([s[k]])))
    case _ => None
  }

  /** `{...req.body, uuid: uuidv4(), createdAt: new Date(), updatedAt: new Date()}`. */
  function NewComment(body: Record, uuid: string, now: string): (c: Record)
    ensures Field(c, "uuid") == Some(Str(uuid))
    ensures Field(c, "createdAt") == Some(Str(now)) && Field(c, "updatedAt") == Some(Str(now))
    ensures forall f :: f !in {"uuid", "createdAt", "updatedAt"} ==> Field(c, f) == Field(body, f)
  {
    body + map["uuid" := Str(uuid), "createdAt" := Str(now), "updatedAt" := Str(now)]
  }

  function NoBlogpost(uuid: string): Failure
  {
    HttpError(404, "No blogpost with id " + uuid, None)
  }

  function NoComment(commentId: string): Failure
  {
    HttpError(404, "No comment with id " + commentId, None)
  }

  /**
   * The 404 the comment DELETE route sends when the blogpost exists but the
   * comment does not (src/api/blogposts/index.js:209): the blogpost's message.
   */
  function NoCommentOnDeleteAsWritten(uuid: string, commentId: string): Failure
  {
    HttpError(404, "No blogpost with id " + uuid, None)
  }

  /**
   * As written, a missing comment on delete is reported as a missing
   * blogpost, and never as the missing comment.
   */
  lemma MissingCommentReadsAsMissingBlogpost(uuid: string, commentId: string)
    ensures NoCommentOnDeleteAsWritten(uuid, commentId) == NoBlogpost(uuid)
    ensures NoCommentOnDeleteAsWritten(uuid, commentId) != NoComment(commentId)
  {
    assert NoComment(commentId).message[3] == 'c';
    assert NoCommentOnDeleteAsWritten(uuid, commentId).message[3] == 'b';
  }

  /** The corrected message is never one of the blogpost messages. */
  lemma NoCommentDiffersFromNoBlogpost(uuid: string, commentId: string)
    ensures NoComment(commentId) != NoBlogpost(uuid)
  {
    assert NoComment(commentId).message[3] == 'c';
    assert NoBlogpost(uuid).message[3] == 'b';
  }

  /** The TypeError when a blogpost's `comments` cannot be spread or is not an array. */
  const CommentsNotArray: Failure := Thrown("TypeError: the blogpost's comments are not an array")

  /** Whether a blogpost's `comments` is an array, so that `findIndex` and `filter` can be called on it. */
  predicate CommentsAreArray(bp: Record)
  {
    Field(bp, "comments").Some? && Field(bp, "comments").value.Arr?
  }

  /** Filtering out a comment id leaves none with it; the filter shrinks exactly when one had it. */
  lemma FilteredCommentsLackId(items: seq<Value>, commentId: string)
    ensures var rest := Filter(items, ValueLacksId("uuid", commentId));
            && FindIndex(rest, ValueHasId("uuid", commentId)) == -1
            && (forall k :: 0 <= k < |items| && !ValueHasId("uuid", commentId)(items[k]) ==> items[k] in rest)
            && (|rest| < |items| <==> Any(items, ValueHasId("uuid", commentId)))
  {
    var rest := Filter(items, ValueLacksId("uuid", commentId));
    forall k | 0 <= k < |rest| ensures !ValueHasId("uuid", commentId)(rest[k]) {
      assert ValueLacksId("uuid", commentId)(rest[k]);
    }
    forall k | 0 <= k < |items| && !ValueHasId("uuid", commentId)(items[k]) ensures items[k] in rest {
      assert ValueLacksId("uuid", commentId)(items[k]);
    }
    if |rest| == |items| {
      forall k | 0 <= k < |items| ensures !ValueHasId("uuid", commentId)(items[k]) {
        assert ValueLacksId("uuid", commentId)(items[k]);
      }
    }
    if |rest| < |items| {
      var k :| 0 <= k < |items| && !ValueLacksId("uuid", commentId)(items[k]);
      assert ValueHasId("uuid", commentId)(items[k]);
    }
  }

  /**
   * Deleting the comment just added, by the uuid it was given, gives back
   * the comments it was added to, provided no earlier comment had that uuid.
   */
  lemma AddThenDeleteComment(before: seq<Value>, body: Record, commentUuid: string, now: string)
    requires !Any(before, ValueHasId("uuid", commentUuid))
    ensures Filter(before + [Obj(NewComment(body, commentUuid, now))], ValueLacksId("uuid", commentUuid)) == before
  {
    var keep := ValueLacksId("uuid", commentUuid);
    FilterDistributes(before, [Obj(NewComment(body, commentUuid, now))], keep);
    forall k | 0 <= k < |before| ensures keep(before[k]) {
      assert !ValueHasId("uuid", commentUuid)(before[k]);
    }
    FilterKeepsAll(before, keep);
  }

  class BlogpostStore {
    /** The contents of blogposts.json. */
    var blogposts: seq<Record>

    constructor (initial: seq<Record>)
      ensures blogposts == initial
    {
      blogposts := initial;
    }

    /** GET /blogposts/:uuid/comments: the comments of the first blogpost with that uuid, or 404. */
    method GetComments(uuid: string) returns (out: Outcome)
      ensures var i := FindIndex(blogposts, HasId("uuid", uuid));
              && (0 <= i ==> out == Replied(200, Field(blogposts[i], "comments")))
              && (i == -1 ==> out == Forwarded(NoBlogpost(uuid)))
    {
      var found := Find(blogposts, HasId("uuid", uuid));
      if found.Some? {
        out := Replied(200, Field(found.value, "comments"));
      } else {
        out := Forwarded(NoBlogpost(uuid));
      }
    }

    /**
     * POST /blogposts/:uuid/comments: appends the new comment to the comments
     * of the first blogpost with that uuid and stamps the blogpost's
     * `updatedAt`. `commentUuid` and `now` stand for `uuidv4()` and
     * `new Date()`.
     */
    method AddComment(uuid: string, body: Record, commentUuid: string, now: string) returns (out: Outcome)
      modifies this
      ensures var i := FindIndex(old(blogposts), HasId("uuid", uuid));
              && (i == -1 ==> out == Forwarded(NoBlogpost(uuid)) && blogposts == old(blogposts))
              && (0 <= i && Spread(Field(old(blogposts)[i], "comments")).None? ==>
                    out == Forwarded(CommentsNotArray) && blogposts == old(blogposts))
      ensures var i := FindIndex(old(blogposts), HasId("uuid", uuid));
              0 <= i && Spread(Field(old(blogposts)[i], "comments")).Some? ==>
                var before := Spread(Field(old(blogposts)[i], "comments")).value;
                var c := NewComment(body, commentUuid, now);
                && blogposts == old(blogposts)[i := old(blogposts)[i] + map["comments" := Arr(before + [Obj(c)]), "updatedAt" := Str(now)]]
                && out == Replied(201, Some(Obj(map["id" := Str(uuid), "newComment" := Obj(c)])))
                // the comment goes at the end; the earlier ones keep their order and content
                && Field(blogposts[i], "comments") == Some(Arr(before + [Obj(c)]))
                && (old(Field(blogposts[i], "comments")).value.Arr? ==> before == old(blogposts[i]["comments"].items))
                && (forall f :: f !in {"comments", "updatedAt"} ==> Field(blogposts[i], f) == Field(old(blogposts)[i], f))
                && |blogposts| == |old(blogposts)|
                && (forall k :: 0 <= k < |blogposts| && k != i ==> blogposts[k] == old(blogposts)[k])
    {
      var newComment := NewComment(body, commentUuid, now);
      var i := FindIndex(blogposts, HasId("uuid", uuid));
      if i != -1 {
        var comments := Spread(Field(blogposts[i], "comments"));
        if comments.None? {
          return Forwarded(CommentsNotArray);
        }
        var updated := blogposts[i] + map["comments" := Arr(comments.value + [Obj(newComment)]), "updatedAt" := Str(now)];
        blogposts := blogposts[i := updated];
        out := Replied(201, Some(Obj(map["id" := Str(uuid), "newComment" := Obj(newComment)])));
      } else {
        out := Forwarded(NoBlogpost(uuid));
      }
    }

    /**
     * PUT /blogposts/:uuid/comments/:commentId: the first comment with that
     * id becomes `{...comment, ...body, updatedAt}`; the other comments, the
     * rest of the blogpost and the other blogposts stay as they were.
     */
    method UpdateComment(uuid: string, commentId: string, body: Record, now: string) returns (out: Outcome)
      modifies this
      ensures var i := FindIndex(old(blogposts), HasId("uuid", uuid));
              && (i == -1 ==> out == Forwarded(NoBlogpost(uuid)) && blogposts == old(blogposts))
              && (0 <= i && !CommentsAreArray(old(blogposts)[i]) ==>
                    out == Forwarded(CommentsNotArray) && blogposts == old(blogposts))
      ensures var i := FindIndex(old(blogposts), HasId("uuid", uuid));
              0 <= i && CommentsAreArray(old(blogposts)[i]) ==>
                var items := old(blogposts)[i]["comments"].items;
                var j := FindIndex(items, ValueHasId("uuid", commentId));
                && (j == -1 ==> out == Forwarded(NoComment(commentId)) && blogposts == old(blogposts))
                && (0 <= j ==>
                      var c := items[j].fields + body + map["updatedAt" := Str(now)];
                      && blogposts == old(blogposts)[i := old(blogposts)[i]["comments" := Arr(items[j := Obj(c)])]]
                      && out == Replied(200, Some(Obj(c)))
                      && Field(c, "uuid") == (if "uuid" in body then Some(body["uuid"]) else Some(Str(commentId))))
    {
      var i := FindIndex(blogposts, HasId("uuid", uuid));
      if i != -1 {
        var comments := Field(blogposts[i], "comments");
        if comments.None? || !comments.value.Arr? {
          return Forwarded(CommentsNotArray);
        }
        var items := comments.value.items;
        var j := FindIndex(items, ValueHasId("uuid", commentId));
        if j != -1 {
          var updatedComment := items[j].fields + body + map["updatedAt" := Str(now)];
          items := items[j := Obj(updatedComment)];
          blogposts := blogposts[i := blogposts[i]["comments" := Arr(items)]];
          out := Replied(200, Some(Obj(updatedComment)));
        } else {
          out := Forwarded(NoComment(commentId));
        }
      } else {
        out := Forwarded(NoBlogpost(uuid));
      }
    }

    /**
     * DELETE /blogposts/:uuid/comments/:commentId as written: as
     * `DeleteComment`, except that a missing comment is reported with the
     * missing-blogpost message.
     */
    method DeleteCommentAsWritten(uuid: string, commentId: string) returns (out: Outcome)
      modifies this
      ensures var i := FindIndex(old(blogposts), HasId("uuid", uuid));
              && (i == -1 ==> out == Forwarded(NoBlogpost(uuid)) && blogposts == old(blogposts))
              && (0 <= i && !CommentsAreArray(old(blogposts)[i]) ==>
                    out == Forwarded(CommentsNotArray) && blogposts == old(blogposts))
      ensures var i := FindIndex(old(blogposts), HasId("uuid", uuid));
              0 <= i && CommentsAreArray(old(blogposts)[i]) ==>
                var items := old(blogposts)[i]["comments"].items;
                var found := Any(items, ValueHasId("uuid", commentId));
                && (!found ==> out == Forwarded(NoCommentOnDeleteAsWritten(uuid, commentId)) && blogposts == old(blogposts))
                && (found ==>
                      && out == Replied(204, None)
                      && blogposts == old(blogposts)[i := old(blogposts)[i]["comments" := Arr(Filter(items, ValueLacksId("uuid", commentId)))]]
                      && FindIndex(blogposts[i]["comments"].items, ValueHasId("uuid", commentId)) == -1)
    {
      var i := FindIndex(blogposts, HasId("uuid", uuid));
      if i != -1 {
        var comments := Field(blogposts[i], "comments");
        if comments.None? || !comments.value.Arr? {
          return Forwarded(CommentsNotArray);
        }
        var items := comments.value.items;
        var remaining := Filter(items, ValueLacksId("uuid", commentId));
        FilteredCommentsLackId(items, commentId);
        if |items| != |remaining| {
          blogposts := blogposts[i := blogposts[i]["comments" := Arr(remaining)]];
          out := Replied(204, None);
        } else {
          out := Forwarded(NoCommentOnDeleteAsWritten(uuid, commentId));
        }
      } else {
        out := Forwarded(NoBlogpost(uuid));
      }
    }

    /**
     * DELETE /blogposts/:uuid/comments/:commentId with the corrected 404: removes every comment with
     * that id from the first blogpost with that uuid, keeping the order of
     * the rest; 404 when there was none.
     */
    method DeleteComment(uuid: string, commentId: string) returns (out: Outcome)
      modifies this
      ensures var i := FindIndex(old(blogposts), HasId("uuid", uuid));
              && (i == -1 ==> out == Forwarded(NoBlogpost(uuid)) && blogposts == old(blogposts))
              && (0 <= i && !CommentsAreArray(old(blogposts)[i]) ==>
                    out == Forwarded(CommentsNotArray) && blogposts == old(blogposts))
      ensures var i := FindIndex(old(blogposts), HasId("uuid", uuid));
              0 <= i && CommentsAreArray(old(blogposts)[i]) ==>
                var items := old(blogposts)[i]["comments"].items;
                var found := Any(items, ValueHasId("uuid", commentId));
                && (!found ==> out == Forwarded(NoComment(commentId)) && blogposts == old(blogposts))
                && (found ==>
                      && out == Replied(204, None)
                      && blogposts == old(blogposts)[i := old(blogposts)[i]["comments" := Arr(Filter(items, ValueLacksId("uuid", commentId)))]]
                      && FindIndex(blogposts[i]["comments"].items, ValueHasId("uuid", commentId)) == -1)
    {
      var i := FindIndex(blogposts, HasId("uuid", uuid));
      if i != -1 {
        var comments := Field(blogposts[i], "comments");
        if comments.None? || !comments.value.Arr? {
          return Forwarded(CommentsNotArray);
        }
        var items := comments.value.items;
        var remaining := Filter(items, ValueLacksId("uuid", commentId));
        FilteredCommentsLackId(items, commentId);
        if |items| != |remaining| {
          blogposts := blogposts[i := blogposts[i]["comments" := Arr(remaining)]];
          out := Replied(204, None);
        } else {
          out := Forwarded(NoComment(commentId));
        }
      } else {
        out := Forwarded(NoBlogpost(uuid));
      }
    }

    /**
     * POST /blogposts/:bpId/upload: the first blogpost whose `_id` matches
     * gets `cover` set to the uploaded file's stored path (`None`: no file
     * in the request); nothing else changes.
     */
    method UploadCover(bpId: string, path: Option<string>) returns (out: Outcome)
      modifies this
      ensures var i := FindIndex(old(blogposts), HasId("_id", bpId));
              && (i == -1 ==> out == Forwarded(NoBlogpost(bpId)) && blogposts == old(blogposts))
              && (0 <= i && path.None? ==> out == Forwarded(NoFile) && blogposts == old(blogposts))
              && (0 <= i && path.Some? ==>
                    && |blogposts| == |old(blogposts)|
                    && Field(blogposts[i], "cover") == Some(Str(path.value))
                    && (forall f :: f != "cover" ==> Field(blogposts[i], f) == Field(old(blogposts)[i], f))
                    && (forall k :: 0 <= k < |blogposts| && k != i ==> blogposts[k] == old(blogposts)[k])
                    && out == Replied(200, Some(Obj(map["message" := Str("cover uploaded for " + bpId)]))))
    {
      var i := FindIndex(blogposts, HasId("_id", bpId));
      if i != -1 {
        if path.None? {
          return Forwarded(NoFile);
        }
        blogposts := blogposts[i := blogposts[i]["cover" := Str(path.value)]];
        out := Replied(200, Some(Obj(map["message" := Str("cover uploaded for " + bpId)])));
      } else {
        out := Forwarded(NoBlogpost(bpId));
      }
    }
  }
}
