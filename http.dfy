/**
 * The per-request objects a handler chain works on: the request with its
 * route parameters, the response builder with its flush latch, and the raw
 * Express response whose `end()` closes the connection.
 */
module Http {
  import opened Wrappers

  /** Route parameters extracted from the url by a match. */
  type Params = map<string, string>

  /** A thrown error; its `message` is what the error path writes as body. */
  datatype Error = Error(message: string)

  const NotFound := 404
  const InternalServerError := 500

  /** The observable state of a response builder. `status` is `None` until something sets it. */
  datatype ResponseState = ResponseState(status: Option<int>, body: Option<string>, flushed: bool, flushes: nat)

  /** A response nothing has written to. */
  const Unwritten := ResponseState(None, None, false, 0)

  /** JavaScript falsiness of `statusCode`: `undefined` and `0` are falsy. */
  predicate Falsy(status: Option<int>) {
    status.None? || status.value == 0
  }

  /** `flush()`: latches `hasFlushedHeaders` and counts the call. */
  function Flushed(rs: ResponseState): ResponseState {
    rs.(flushed := true, flushes := rs.flushes + 1)
  }

  /** What a handler does to the response: the steps of a handler's script. */
  datatype Action =
    | SetStatus(code: int)
    | SetBody(text: string)
    | SetBodyFromParam(name: string)  // body := request.params[name]
    | CallFlush

  function Apply(a: Action, params: Params, rs: ResponseState): ResponseState {
    match a
    case SetStatus(code) => rs.(status := Some(code))
    case SetBody(text) => rs.(body := Some(text))
    case SetBodyFromParam(name) => rs.(body := if name in params then Some(params[name]) else None)
    case CallFlush => Flushed(rs)
  }

  /** The response after running `acts` in order. */
  function Perform(acts: seq<Action>, params: Params, rs: ResponseState): (r: ResponseState)
    ensures rs.flushed ==> r.flushed
    ensures rs.flushes <= r.flushes
    decreases |acts|
  {
    if acts == [] then rs
    else Apply(acts[|acts| - 1], params, Perform(acts[..|acts| - 1], params, rs))
  }

  /** An action that neither sets a status nor flushes. */
  predicate Quiet(a: Action) {
    a.SetBody? || a.SetBodyFromParam?
  }

  class Request {
    var params: Params

    constructor ()
      ensures params == map[]
    {
      params := map[];
    }
  }

  class Response {
    var statusCode: Option<int>
    var body: Option<string>
    var hasFlushedHeaders: bool
    var flushCount: nat

    function Value(): ResponseState
      reads this
    {
      ResponseState(statusCode, body, hasFlushedHeaders, flushCount)
    }

    constructor ()
      ensures Value() == Unwritten
    {
      statusCode, body, hasFlushedHeaders, flushCount := None, None, false, 0;
    }

    method Flush()
      modifies this
      ensures Value() == Flushed(old(Value()))
    {
      hasFlushedHeaders := true;
      flushCount := flushCount + 1;
    }

    /** One step of a handler's script. */
    method Run(a: Action, params: Params)
      modifies this
      ensures Value() == Apply(a, params, old(Value()))
    {
      match a
      case SetStatus(code) => statusCode := Some(code);
      case SetBody(text) => body := Some(text);
      case SetBodyFromParam(name) => body := if name in params then Some(params[name]) else None;
      case CallFlush => Flush();
    }

    /** A stretch of a handler's script, run in order. */
    method RunAll(acts: seq<Action>, params: Params)
      modifies this
      ensures Value() == Perform(acts, params, old(Value()))
    {
      for i := 0 to |acts|
        invariant Value() == Perform(acts[..i], params, old(Value()))
      {
        assert acts[..i + 1][..i] == acts[..i];
        Run(acts[i], params);
      }
      assert acts[..|acts|] == acts;
    }
  }

  /** The raw Express response: only `end()` is observed, by counting its calls. */
  class RawResponse {
    var endCount: nat

    constructor ()
      ensures endCount == 0
    {
      endCount := 0;
    }

    method End()
      modifies this
      ensures endCount == old(endCount) + 1
    {
      endCount := endCount + 1;
    }
  }
}
