/**
 * `toMiddleware(router, options)`: the request handler it returns dispatches
 * one request through the matching handlers, continuation by continuation,
 * and then finalises the response.
 *
 * The pure functions `ExecuteNext`, `Handle` and `Serve` say what one request
 * does to the observable state (`World`); the class `Middleware` runs the
 * same steps on the per-request objects and is proved against them.
 */
module Express {
  import opened Wrappers
  import opened Http
  import opened Routing

  const ExecutingHandler := "Executing handler: "
  const ErrorLabel := "ERROR: "

  /** The arguments of one call of `options.log`. */
  datatype LogCall = Line(text: string) | WithError(text: string, error: Error)

  /** How a handler chain ends: normally, or with an error thrown by some handler. */
  datatype Outcome = Ok | Fault(error: Error)

  /** A handler that ran: which match it came from and the request params it started with. */
  datatype Executed = Executed(hit: nat, params: Params)

  /**
   * What stays fixed during one request: the handler list the iterator was
   * built from, the matches route matching found, and whether `options.log`
   * was given.
   */
  datatype Env = Env(handlers: seq<Handler>, hits: seq<RouteMatch>, logging: bool) {
    predicate Valid() {
      HitsValid(handlers, hits)
    }

    function HandlerAt(i: nat): Handler
      requires Valid() && i < |hits|
    {
      handlers[hits[i].position]
    }
  }

  /**
   * The observable per-request state: the iterator cursor, `request.params`,
   * the response, the calls of `log` so far and, as a trace for the proofs,
   * the handlers that ran.
   */
  datatype World = World(cursor: nat, params: Params, response: ResponseState, log: seq<LogCall>, executed: seq<Executed>)

  datatype Step = Step(world: World, outcome: Outcome)

  /** The diagnostic line logged before a handler runs; none without a name or without `options.log`. */
  function Announcement(logging: bool, h: Handler): seq<LogCall> {
    if logging && h.name != "" then [Line(ExecutingHandler + h.name)] else []
  }

  /** `executeNextHandler()`: pull one match and run its handler, or end the chain. */
  function ExecuteNext(env: Env, w: World): (r: Step)
    requires env.Valid() && w.cursor <= |env.hits|
    ensures w.cursor <= r.world.cursor <= |env.hits|
    ensures w.cursor == |env.hits| ==> r == Step(w, Ok)
    ensures w.cursor < |env.hits| ==> w.cursor < r.world.cursor
    ensures w.response.flushed ==> r.world.response.flushed
    ensures w.response.flushes <= r.world.response.flushes
    decreases |env.hits| - w.cursor, 0
  {
    if w.cursor == |env.hits| then Step(w, Ok)
    else Handle(env, env.HandlerAt(w.cursor), Enter(env, w))
  }

  /** Pulling the match at the cursor: advance, overwrite `request.params`, announce the handler, record it. */
  function Enter(env: Env, w: World): World
    requires env.Valid() && w.cursor < |env.hits|
  {
    var m := MatchAt(env.handlers, env.hits, w.cursor);
    var w1 := w.(cursor := w.cursor + 1,
                 params := m.params,
                 log := w.log + Announcement(env.logging, m.handler));
    w1.(executed := w1.executed + [Executed(w.cursor, w1.params)])
  }

  /** The fixed part of one request: the iterator is built over `router.getHandlers()` only. */
  function RequestEnv(router: Router, hits: seq<RouteMatch>, logging: bool): Env {
    Env(router.GetHandlers(), hits, logging)
  }

  /** `handler.handle(context, executeNextHandler)` for a handler script. */
  function Handle(env: Env, h: Handler, w: World): (r: Step)
    requires env.Valid() && w.cursor <= |env.hits|
    ensures w.cursor <= r.world.cursor <= |env.hits|
    ensures !h.callsNext ==> r.world.cursor == w.cursor
    ensures w.response.flushed ==> r.world.response.flushed
    ensures w.response.flushes <= r.world.response.flushes
    decreases |env.hits| - w.cursor, 1
  {
    var w1 := w.(response := Perform(h.before, w.params, w.response));
    if h.raise.BeforeNext? then Step(w1, Fault(h.raise.error))
    else
      var s := if h.callsNext then ExecuteNext(env, w1) else Step(w1, Ok);
      if s.outcome.Fault? then s
      else
        var w2 := s.world.(response := Perform(h.after, s.world.params, s.world.response));
        Step(w2, if h.raise.AtEnd? then Fault(h.raise.error) else Ok)
  }

  /** The finaliser of a chain that ended normally: default to 404, then flush. */
  function Finalise(rs: ResponseState): ResponseState {
    var rs1 := if !rs.flushed && Falsy(rs.status) then rs.(status := Some(NotFound)) else rs;
    Flushed(rs1)
  }

  /** The catch branch as written: it writes the 500 only when headers were ALREADY flushed. */
  function RecoverAsWritten(rs: ResponseState, e: Error): ResponseState {
    if rs.flushed then Flushed(rs.(status := Some(InternalServerError), body := Some(e.message)))
    else rs
  }

  /** The catch branch as evidently intended: write the 500 only when nothing was flushed yet. */
  function RecoverIntended(rs: ResponseState, e: Error): ResponseState {
    if !rs.flushed then Flushed(rs.(status := Some(InternalServerError), body := Some(e.message)))
    else rs
  }

  function ErrorReport(logging: bool, e: Error): seq<LogCall> {
    if logging then [WithError(ErrorLabel, e)] else []
  }

  /** One whole request, as the code is written. */
  function Serve(env: Env, w: World): World
    requires env.Valid() && w.cursor <= |env.hits|
  {
    var s := ExecuteNext(env, w);
    match s.outcome
    case Ok => s.world.(response := Finalise(s.world.response))
    case Fault(e) =>
      s.world.(log := s.world.log + ErrorReport(env.logging, e),
               response := RecoverAsWritten(s.world.response, e))
  }

  /** One whole request with the catch branch's guard corrected. */
  function ServeIntended(env: Env, w: World): World
    requires env.Valid() && w.cursor <= |env.hits|
  {
    var s := ExecuteNext(env, w);
    match s.outcome
    case Ok => s.world.(response := Finalise(s.world.response))
    case Fault(e) =>
      s.world.(log := s.world.log + ErrorReport(env.logging, e),
               response := RecoverIntended(s.world.response, e))
  }

  /** `options.log`, or the no-op used when it is absent. */
  class Logger {
    const enabled: bool
    var calls: seq<LogCall>

    constructor (enabled: bool)
      ensures this.enabled == enabled && calls == []
    {
      this.enabled, calls := enabled, [];
    }

    method Log(c: LogCall)
      modifies this
      ensures calls == if enabled then old(calls) + [c] else old(calls)
    {
      if enabled {
        calls := calls + [c];
      }
    }
  }

  /** One call of the request handler that `toMiddleware` returns, with its per-request objects. */
  class Middleware {
    const request: Request
    const response: Response
    const matchIterator: HandlerMatchIterator
    const logger: Logger
    const raw: RawResponse
    ghost var executed: seq<Executed>

    ghost predicate Valid()
      reads this, matchIterator
    {
      matchIterator.Valid()
    }

    function Environment(): Env {
      Env(matchIterator.handlers, matchIterator.hits, logger.enabled)
    }

    ghost function State(): World
      reads this, request, response, matchIterator, logger
    {
      World(matchIterator.cursor, request.params, response.Value(), logger.calls, executed)
    }

    /** Build the context and the iterator over `router.getHandlers()` for one request. */
    constructor (router: Router, hits: seq<RouteMatch>, logger: Logger, raw: RawResponse)
      requires HitsValid(router.GetHandlers(), hits)
      ensures Valid()
      ensures Environment() == RequestEnv(router, hits, logger.enabled)
      ensures this.logger == logger && this.raw == raw
      ensures fresh(request) && fresh(response) && fresh(matchIterator)
      ensures State() == World(0, map[], Unwritten, logger.calls, [])
    {
      this.logger, this.raw := logger, raw;
      request := new Request();
      response := new Response();
      matchIterator := new HandlerMatchIterator(router.GetHandlers(), hits);
      executed := [];
    }

    method ExecuteNextHandler() returns (outcome: Outcome)
      requires Valid()
      modifies this, request, response, matchIterator, logger
      ensures Valid()
      ensures Step(State(), outcome) == ExecuteNext(Environment(), old(State()))
      decreases |matchIterator.hits| - matchIterator.cursor, 0
    {
      ghost var w := State();
      var handlerMatch := matchIterator.GetNextMatch();
      if handlerMatch.Some? {
        var m := handlerMatch.value;
        request.params := m.params;
        executed := executed + [Executed(matchIterator.cursor - 1, request.params)];
        if m.handler.name != "" {
          logger.Log(Line(ExecutingHandler + m.handler.name));
        }
        assert State() == Enter(Environment(), w);
        outcome := RunHandler(m.handler);
      } else {
        outcome := Ok;
      }
    }

    /** The handler's `handle(context, next)` with `next` bound to `ExecuteNextHandler`. */
    method RunHandler(h: Handler) returns (outcome: Outcome)
      requires Valid()
      modifies this, request, response, matchIterator, logger
      ensures Valid()
      ensures Step(State(), outcome) == Handle(Environment(), h, old(State()))
      decreases |matchIterator.hits| - matchIterator.cursor, 1
    {
      response.RunAll(h.before, request.params);
      if h.raise.BeforeNext? {
        return Fault(h.raise.error);
      }
      if h.callsNext {
        outcome := ExecuteNextHandler();
        if outcome.Fault? {
          return;
        }
      }
      response.RunAll(h.after, request.params);
      outcome := if h.raise.AtEnd? then Fault(h.raise.error) else Ok;
    }

    /** The body of the request handler: dispatch, then `try` / `catch` / `finally`. */
    method Respond()
      requires Valid()
      modifies this, request, response, matchIterator, logger, raw
      ensures raw.endCount == old(raw.endCount) + 1
      ensures State() == Serve(Environment(), old(State()))
    {
      var outcome := ExecuteNextHandler();
      if outcome.Ok? {
        if !response.hasFlushedHeaders && Falsy(response.statusCode) {
          response.statusCode := Some(NotFound);
        }
        response.Flush();
      } else {
        logger.Log(WithError(ErrorLabel, outcome.error));
        if response.hasFlushedHeaders {
          response.statusCode := Some(InternalServerError);
          response.body := Some(outcome.error.message);
          response.Flush();
        }
      }
      raw.End();
    }

    /** `Respond` with the catch branch's guard corrected to `!hasFlushedHeaders`. */
    method RespondIntended()
      requires Valid()
      modifies this, request, response, matchIterator, logger, raw
      ensures raw.endCount == old(raw.endCount) + 1
      ensures State() == ServeIntended(Environment(), old(State()))
    {
      var outcome := ExecuteNextHandler();
      if outcome.Ok? {
        if !response.hasFlushedHeaders && Falsy(response.statusCode) {
          response.statusCode := Some(NotFound);
        }
        response.Flush();
      } else {
        logger.Log(WithError(ErrorLabel, outcome.error));
        if !response.hasFlushedHeaders {
          response.statusCode := Some(InternalServerError);
          response.body := Some(outcome.error.message);
          response.Flush();
        }
      }
      raw.End();
    }
  }
}
