/**
 * The error-handling middlewares of src/errorHandlers.js. Each one looks at
 * `err.status`, answers the request or calls `next(err)` with the same error;
 * installed in declaration order they form a chain that ends with the
 * catch-all 500 handler.
 */
module ErrorHandlers {
  import opened Wrappers
  import opened Arrays
  import opened HttpErrors

  /** `{ success, message, errorsList }` as the handlers send it. */
  datatype ErrorBody = ErrorBody(success: bool, message: string, errorsList: Option<seq<string>>)

  datatype Response = Response(status: int, body: ErrorBody)

  /** A handler answers, or calls `next` with an error. */
  datatype Step = Respond(response: Response) | Next(err: Failure)

  /** The message of the catch-all handler, the same whatever the error was. */
  const GenericMessage: string := "We done fucked up"

  /** `err.status === status`: only errors made by `createHttpError` carry a status. */
  predicate HasStatus(err: Failure, status: int)
  {
    err.HttpError? && err.status == status
  }

  function Msg(e: FieldError): string
  {
    e.msg
  }

  /** Answers 400 with the `msg` of every validation error, or forwards. */
  function BadRequestHandler(err: Failure): (s: Step)
    ensures s.Respond? <==> HasStatus(err, 400)
    ensures s.Next? ==> s.err == err
    ensures s.Respond? ==>
              && s.response.status == 400
              && s.response.body.success == false
              && s.response.body.message == err.message
              && s.response.body.errorsList.Some?
              && var sent := s.response.body.errorsList.value;
              && (err.errorsList.None? ==> sent == [])
              && (err.errorsList.Some? ==>
                    |sent| == |err.errorsList.value| &&
                    forall k :: 0 <= k < |sent| ==> sent[k] == err.errorsList.value[k].msg)
  {
    if HasStatus(err, 400) then
      var list := if err.errorsList.Some? then Map(err.errorsList.value, Msg) else [];
      Respond(Response(400, ErrorBody(false, err.message, Some(list))))
    else
      Next(err)
  }

  /** The shape shared by the 401, 403 and 404 handlers: answer `status` with the error's message, or forward. */
  function Relay(status: int, err: Failure): (s: Step)
    ensures s.Respond? <==> HasStatus(err, status)
    ensures s.Next? ==> s.err == err
    ensures s.Respond? ==> s.response == Response(status, ErrorBody(false, err.message, None))
  {
    if HasStatus(err, status) then Respond(Response(status, ErrorBody(false, err.message, None))) else Next(err)
  }

  function UnauthorizedHandler(err: Failure): (s: Step)
    ensures s.Respond? <==> HasStatus(err, 401)
    ensures s.Next? ==> s.err == err
    ensures s.Respond? ==> s.response == Response(401, ErrorBody(false, err.message, None))
  {
    Relay(401, err)
  }

  function ForbiddenErrorHandler(err: Failure): (s: Step)
    ensures s.Respond? <==> HasStatus(err, 403)
    ensures s.Next? ==> s.err == err
    ensures s.Respond? ==> s.response == Response(403, ErrorBody(false, err.message, None))
  {
    Relay(403, err)
  }

  function NotfoundHandler(err: Failure): (s: Step)
    ensures s.Respond? <==> HasStatus(err, 404)
    ensures s.Next? ==> s.err == err
    ensures s.Respond? ==> s.response == Response(404, ErrorBody(false, err.message, None))
  {
    Relay(404, err)
  }

  /** Always answers 500 with a fixed message; the error itself is only logged. */
  function GenericErrorHandler(err: Failure): (s: Step)
    ensures s.Respond?
    ensures s.response == Response(500, ErrorBody(false, GenericMessage, None))
  {
    Respond(Response(500, ErrorBody(false, GenericMessage, None)))
  }

  datatype Handler = BadRequest | Unauthorized | Forbidden | NotFound | Generic

  function Apply(h: Handler, err: Failure): Step
  {
    match h
    case BadRequest => BadRequestHandler(err)
    case Unauthorized => UnauthorizedHandler(err)
    case Forbidden => ForbiddenErrorHandler(err)
    case NotFound => NotfoundHandler(err)
    case Generic => GenericErrorHandler(err)
  }

  /** The handlers in the order src/errorHandlers.js declares them. */
  const ErrorChain: seq<Handler> := [BadRequest, Unauthorized, Forbidden, NotFound, Generic]

  /**
   * Express runs error middlewares in order until one answers; `None` means
   * every handler called `next`, leaving the error to Express itself.
   */
  function RunChain(chain: seq<Handler>, err: Failure): (r: Option<Response>)
    ensures r.Some? <==> exists k :: 0 <= k < |chain| && Apply(chain[k], err).Respond?
  {
    if |chain| == 0 then None
    else
      match Apply(chain[0], err)
      case Respond(res) => Some(res)
      case Next(e) =>
        assert forall k :: 1 <= k < |chain| ==> chain[k] == chain[1..][k - 1];
        RunChain(chain[1..], e)
  }

  /** Handler `k` of the chain is the one that answers: it responds and every earlier one forwarded. */
  ghost predicate Answers(chain: seq<Handler>, err: Failure, k: int)
  {
    && 0 <= k < |chain|
    && Apply(chain[k], err).Respond?
    && forall j :: 0 <= j < k ==> Apply(chain[j], err).Next?
  }

  /** Running two chains one after the other: the second runs only if the first did not answer. */
  lemma {:induction false} ChainAppend(c1: seq<Handler>, c2: seq<Handler>, err: Failure)
    ensures RunChain(c1 + c2, err) == if RunChain(c1, err).Some? then RunChain(c1, err) else RunChain(c2, err)
  {
    if |c1| == 0 {
      assert c1 + c2 == c2;
    } else {
      assert (c1 + c2)[0] == c1[0];
      assert (c1 + c2)[1..] == c1[1..] + c2;
      match Apply(c1[0], err)
      case Respond(_) =>
      case Next(e) =>
        ChainAppend(c1[1..], c2, e);
    }
  }

  /** At most one handler of a chain answers, and what the chain sends is that handler's response. */
  lemma {:induction false} AnswerIsUnique(chain: seq<Handler>, err: Failure, k: int)
    requires Answers(chain, err, k)
    ensures forall j :: Answers(chain, err, j) ==> j == k
    ensures RunChain(chain, err) == Some(Apply(chain[k], err).response)
  {
    if k > 0 {
      assert Apply(chain[0], err).Next?;
      assert Apply(chain[0], err).err == err;
      forall j | 0 <= j < k - 1 ensures Apply(chain[1..][j], err).Next? {
        assert chain[1..][j] == chain[j + 1];
      }
      AnswerIsUnique(chain[1..], err, k - 1);
      forall j | Answers(chain, err, j) ensures j == k {
        if j != 0 {
          assert Answers(chain[1..], err, j - 1);
        }
      }
    }
  }

  /**
   * The installed chain: exactly one handler answers; 400, 401, 403 and 404
   * keep their status and message, every other error becomes a 500 with the
   * fixed message, and `success` is always false.
   */
  lemma ErrorChainResponse(err: Failure)
    ensures var passThrough := err.HttpError? && err.status in {400, 401, 403, 404};
            var k := if passThrough then (if err.status == 400 then 0 else if err.status == 401 then 1
                                          else if err.status == 403 then 2 else 3) else 4;
            && Answers(ErrorChain, err, k)
            && RunChain(ErrorChain, err).Some?
            && var r := RunChain(ErrorChain, err).value;
            && r.status == (if passThrough then err.status else 500)
            && r.body.success == false
            && (passThrough ==> r.body.message == err.message)
            && (!passThrough ==> r.body == ErrorBody(false, GenericMessage, None))
  {
    var passThrough := err.HttpError? && err.status in {400, 401, 403, 404};
    var k := if passThrough then (if err.status == 400 then 0 else if err.status == 401 then 1
                                  else if err.status == 403 then 2 else 3) else 4;
    assert Answers(ErrorChain, err, k);
    AnswerIsUnique(ErrorChain, err, k);
  }

  /** The 500 answer never depends on the error: two such errors get the same response. */
  lemma GenericHidesCause(e1: Failure, e2: Failure)
    requires !(e1.HttpError? && e1.status in {400, 401, 403, 404})
    requires !(e2.HttpError? && e2.status in {400, 401, 403, 404})
    ensures RunChain(ErrorChain, e1) == RunChain(ErrorChain, e2)
  {
    ErrorChainResponse(e1);
    ErrorChainResponse(e2);
  }
}
