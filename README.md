# Request dispatch of `toMiddleware`, modelled in Dafny

`toMiddleware(router, options)` returns the request handler the Express server
installs. For each request it builds a context (request with `params`, response
builder with a `hasFlushedHeaders` latch), builds a `HandlerMatchIterator` over
`router.getHandlers()`, and runs `executeNextHandler`. That function pulls one
match, overwrites `context.request.params` with the match's params, logs
`Executing handler: <name>` when the handler has a name, and calls
`handler.handle(context, executeNextHandler)`. The next handler runs only if
the current one calls that continuation. When the chain ends normally, the
finaliser defaults the status to 404 (nothing flushed, no status set) and
calls `flush()`. When a handler throws, the catch branch logs `ERROR: ` with
the error. It writes a 500 with the error's message and calls `flush()`, but
only when headers were already flushed. `res.end()` runs in `finally` on every
exit path.

Layout:

- `wrappers.dfy`: `Option`.
- `http.dfy`: the response state, the handler-script actions, and the classes
  `Request`, `Response` (fields `statusCode`, `body`, `hasFlushedHeaders`, plus
  a flush counter) and `RawResponse` (counts `end()`).
- `routing.dfy`: handlers as scripts, `Router`, matches, and the stateful
  `HandlerMatchIterator`.
- `express.dfy`: the pure specification of one request (`ExecuteNext`,
  `Handle`, `Serve`), the `Logger` sink and the class `Middleware`. The class
  holds the per-request objects, and its methods (`ExecuteNextHandler`,
  `RunHandler`, `Respond`) are proved equal to that specification.
- `express_properties.dfy`: the properties of the specification, stated
  against independent reference definitions. `StopPoint` says how far the
  chain pulls. `Pulled` says which handlers run and with which params.
  `Announced` says what is logged. `NoneRaise` says when the chain faults.

A handler's code is not part of the repository's core. It is modelled as a
script: actions before the continuation, whether it calls `next`, actions after
it, and where it throws, if it does (`Raise`). A fault thrown inside `next()`
propagates through the handler that called it. Dafny has no exceptions, so
faults are the `Outcome` value `Fault(error)`. JavaScript falsiness of
`statusCode` is explicit: `undefined` (`None`) and `0` are falsy.

In three places the code does less than a request dispatcher of this kind
usually promises. The model follows the code in each:

- A dispatcher usually runs the registered middlewares before the endpoint
  handlers. Here only `router.getHandlers()` is dispatched
  (`ExpressProperties.MiddlewaresIgnored`).
- A dispatcher usually answers 500 when it cannot build the context. Here the
  context is built before the `try` (src/server/express.ts:24-30). A failure
  there produces no 500 and does not reach `res.end()`. The model assumes that
  construction succeeds.
- A fault is usually turned into a 500 when nothing has been flushed yet. Here
  that happens only when headers were already flushed. See Findings.

## Model

| member | source | states |
|---|---|---|
| Express.Middleware.constructor | src/server/express.ts:24-38 | context with empty params and an unwritten response; the iterator is built over `router.getHandlers()` and the request's matches (`RequestEnv`), with its cursor at 0 |
| Routing.HandlerMatchIterator.GetNextMatch | src/server/express.ts:41 | returns the match at the cursor and advances the cursor by one, or returns nothing and leaves the cursor when the matches are exhausted |
| Express.Middleware.ExecuteNextHandler | src/server/express.ts:40-50 | the new request params, response, log, cursor and trace, and the outcome, are exactly what `ExecuteNext` gives for the old state |
| Express.Middleware.RunHandler | src/server/express.ts:48 | running a handler with the continuation bound to `ExecuteNextHandler` gives exactly what `Handle` gives |
| Express.Middleware.Respond | src/server/express.ts:32-67 | the final state is `Serve` of the initial state: the normal-path finaliser, or the catch branch as written; `res.end()` is called exactly once on every path |
| Express.Logger.Log | src/server/express.ts:16-19 | with `options.log` the call is recorded; without it, logging is a no-op |
| Http.Response.Flush | src/server/express.ts:56 | `flush()` latches `hasFlushedHeaders` and counts one flush, leaving status and body |
| Http.RawResponse.End | src/server/express.ts:66 | counts one `res.end()` |
| Express.ExecuteNext | src/server/express.ts:40-50 | the cursor never moves back and never passes the last match; an exhausted iterator ends the chain normally with nothing changed; otherwise at least one match is pulled; the flush latch is never released |
| Express.Handle | src/server/express.ts:48 | a handler that does not call `next` pulls no match; the cursor stays within the matches; the flush latch is never released |
| ExpressProperties.StopPoint | src/server/express.ts:40-48 | the chain from match `c` pulls up to just after the first handler that does not continue, or up to the end of the matches; every earlier pulled handler continued |
| ExpressProperties.ChainTrace | src/server/express.ts:40-47 | the chain pulls exactly the matches from the cursor up to `StopPoint`; each pulled handler runs once, in iterator order, and starts with its own match's params; one log line per named handler |
| ExpressProperties.HandleTrace | src/server/express.ts:48 | a handler pulls further matches only when it continues, and then exactly up to `StopPoint` |
| ExpressProperties.RunsInIteratorOrder | src/server/express.ts:40-48 | the handlers that ran are consecutive matches from the cursor, in strictly increasing registration position; there are at most as many as the remaining matches; every handler but the last called its continuation |
| ExpressProperties.ShortCircuit | src/server/express.ts:48 | a handler that does not call `next`, or throws first, is the only one that runs; no later match is pulled |
| ExpressProperties.ExhaustsWhenAllContinue | src/server/express.ts:41-42 | when every matching handler continues, the chain pulls every match and ends on the exhausted iterator |
| ExpressProperties.ChainParams | src/server/express.ts:43 | after the chain, `request.params` holds the last pulled match's params; earlier params are discarded; with no match they are unchanged |
| ExpressProperties.HandleParams | src/server/express.ts:43-48 | a handler entered with its match's params leaves the params of the last match pulled, which is what code after `await next()` sees |
| ExpressProperties.NothingAnnouncedWithoutLog | src/server/express.ts:19 | without `options.log`, no handler line is logged |
| ExpressProperties.ChainOutcome | src/server/express.ts:48 | the chain ends without error if and only if none of the handlers it ran throws |
| ExpressProperties.HandleOutcome | src/server/express.ts:48 | a handler ends without error if and only if it does not throw and, when it calls `next`, the rest of the chain does not throw |
| ExpressProperties.ChainQuiet | src/server/express.ts:48 | handlers that never set a status and never flush leave status, latch and flush count unchanged |
| ExpressProperties.HandleQuiet | src/server/express.ts:48 | the same for one handler and the chain it continues |
| ExpressProperties.NormalPathFinalises | src/server/express.ts:52-56 | after a chain that ends normally: status is 404 when nothing was flushed and the status is falsy, otherwise the handlers' status; body unchanged; exactly one more flush |
| ExpressProperties.UnansweredRequestIsNotFound | src/server/express.ts:52-56 | a request that no handler answers or faults ends as 404, flushed once |
| ExpressProperties.FaultPathAsWritten | src/server/express.ts:58-64 | on a fault, `ERROR: ` and the error are logged once; the 500 with the message is written and flushed only when headers were already flushed, otherwise the response is left as the handlers left it |
| ExpressProperties.ServeLog | src/server/express.ts:44-47 | the request logs one line per named handler that ran, in order, then one error report if it faulted; without `options.log` nothing is logged |
| ExpressProperties.MiddlewaresIgnored | src/server/express.ts:33-38 | a request is built from the router by `RequestEnv`, the same function the constructor's ensures uses; two routers with the same `getHandlers()` serve every request alike, whatever their middlewares |
| ExpressProperties.FaultBeforeFlushGoesUnreported | src/server/express.ts:60-64 | as written, a handler fault before any flush or status leaves the response unset and unflushed: no 500 is sent |
| ExpressProperties.InvertedGuardExample | src/server/express.ts:60 | one handler for POST /items that throws at once: as written, the response stays unwritten; corrected, it is a flushed 500 with the message |
| ExpressProperties.ChainNoFlush | src/server/express.ts:48 | handlers that never call `flush()` leave the latch and the flush count unchanged, whatever status or body they set |
| ExpressProperties.HandleNoFlush | src/server/express.ts:48 | the same for one handler and the chain it continues |
| ExpressProperties.FaultPathIntended | src/server/express.ts:58-64 | with the guard corrected: the error is logged once; a chain that faulted unflushed ends as 500 with the message, flushed once more; a chain that faulted after a flush is left as the handlers left it |
| ExpressProperties.IntendedFaultIsServerError | src/server/express.ts:60-64 | with the guard corrected, a fault in a chain whose handlers never flush becomes status 500 with the error's message as body, flushed exactly once, whatever status the handlers set |
| ExpressProperties.IntendedFaultAfterFlushWritesNothing | src/server/express.ts:60-64 | with the guard corrected, when the handlers flushed and then one threw, status, body and flush count stay as the handlers left them |
| ExpressProperties.FlushThenThrowExample | src/server/express.ts:60-63 | one handler sets 200, flushes, then throws: as written the response becomes 500 and `flush()` is called a second time; corrected, it stays 200, flushed once |
| Express.Middleware.RespondIntended | src/server/express.ts:58-67 | `Respond` with the corrected guard: the final state is `ServeIntended`; `res.end()` is called exactly once |

## Left out

- Route matching, `HandlerMatchIterator`'s search and `cleanseHttpMethod` are not part of this model. The iterator receives the matches for the request's method and url as given: positions in the handler list, in increasing order, each with its params.
- The Express `req`, `res` and `next` objects are reduced to the request params, the response builder and a counter of `res.end()` calls. The middleware never calls Express's `next`.
- `StrongPointExpressRequest` and `StrongPointExpressResponse` are not part of this model. `flush()` only latches and counts. Whether a second `flush()` sends again is not modelled. After a handler has flushed, the normal-path finaliser still calls `flush()`, so the flush count is 2.
- Only the initial params (empty) of a fresh request are modelled. Headers and the physical send are left out.
- A failure while building the context (lines 24-25) is not modelled. In the code it rejects before the `try`, without a 500 and without `res.end()`.
- A `flush()` or `log` call that itself throws inside the `try` is not modelled.
- Handler code is a script. A handler calls `next` at most once, always awaits it, and never catches what `next` throws. Handlers that call `next` twice, catch, or act after a delay are not modelled.
- Thrown values that are not errors with a message (`err && err.message` on `null` or a string) are not modelled. Every fault carries a message.
- `statusCode` is an integer or unset. Other JavaScript values are not modelled.
- The promise and async machinery, and the interleaving of concurrent requests, are left out. Within one request every step is awaited in sequence.
- `log`'s arguments are modelled as `LogCall` values. What the sink prints is left out.
- src/shared/logger.ts holds an interface and no-op functions. It has no logic to model.

## Findings

| source | as written | input that shows it | evidently intended | confidence | as-written member | corrected member |
|---|---|---|---|---|---|---|
| src/server/express.ts:60 | `if (context.response.hasFlushedHeaders)` writes status 500 and the message only after a flush: it overwrites status and body and calls `flush()` again on an already flushed response, and leaves an unflushed one unanswered | one handler (POST /items) that throws before setting a status or flushing: the response stays unset and is never flushed; only `res.end()` closes it | `if (!context.response.hasFlushedHeaders)`: a fault before any flush becomes a 500 with the message, flushed once; a fault after a flush writes nothing | high; not executed | ExpressProperties.FaultBeforeFlushGoesUnreported | ExpressProperties.IntendedFaultIsServerError |

`Express.Middleware.Respond` follows the code as written.
`Express.Middleware.RespondIntended` is the same request handler with the corrected guard.
