/**
 * Registered handlers, the router that holds them, and the iterator that
 * hands out the handlers matching one request, one at a time.
 */
module Routing {
  import opened Wrappers
  import opened Http

  /** Where a handler's code throws, if it does. */
  datatype Raise = Never | BeforeNext(error: Error) | AtEnd(error: Error)

  /**
   * An endpoint handler's `handle(context, next)`, as a script: run `before`,
   * throw if `raise` is `BeforeNext`, call `next` when `callsNext` and wait for
   * it (a fault from `next` propagates), run `after`, throw if `raise` is `AtEnd`.
   * `name` stands for `handler.constructor.name`; "" when it has none.
   */
  datatype Handler = Handler(name: string, before: seq<Action>, callsNext: bool, after: seq<Action>, raise: Raise)

  /** A handler that, once run, pulls the next match. */
  predicate Continues(h: Handler) {
    h.callsNext && !h.raise.BeforeNext?
  }

  datatype Router = Router(middlewares: seq<Handler>, handlers: seq<Handler>) {
    function GetHandlers(): seq<Handler> {
      handlers
    }
  }

  /** One match found by route matching: a position in the handler list and the extracted params. */
  datatype RouteMatch = RouteMatch(position: nat, params: Params)

  /** What `getNextMatch()` returns: the handler and `parsedUrl.params`. */
  datatype Match = Match(handler: Handler, params: Params)

  /**
   * The matches route matching yields for one request: positions inside the
   * handler list, in registration order, each handler at most once.
   */
  predicate HitsValid(handlers: seq<Handler>, hits: seq<RouteMatch>) {
    && (forall i :: 0 <= i < |hits| ==> hits[i].position < |handlers|)
    && (forall i, j :: 0 <= i < j < |hits| ==> hits[i].position < hits[j].position)
  }

  function MatchAt(handlers: seq<Handler>, hits: seq<RouteMatch>, i: nat): Match
    requires HitsValid(handlers, hits) && i < |hits|
  {
    Match(handlers[hits[i].position], hits[i].params)
  }

  /** A stateful, single-use cursor over the matches of one request. */
  class HandlerMatchIterator {
    const handlers: seq<Handler>
    const hits: seq<RouteMatch>
    var cursor: nat

    ghost predicate Valid()
      reads this
    {
      HitsValid(handlers, hits) && cursor <= |hits|
    }

    constructor (handlers: seq<Handler>, hits: seq<RouteMatch>)
      requires HitsValid(handlers, hits)
      ensures Valid()
      ensures this.handlers == handlers && this.hits == hits && cursor == 0
    {
      this.handlers, this.hits, cursor := handlers, hits, 0;
    }

    /** The next match after the cursor, or `None` once the matches are exhausted. */
    method GetNextMatch() returns (m: Option<Match>)
      requires Valid()
      modifies this
      ensures Valid()
      ensures old(cursor) < |hits| ==> m == Some(MatchAt(handlers, hits, old(cursor))) && cursor == old(cursor) + 1
      ensures old(cursor) == |hits| ==> m == None && cursor == old(cursor)
    {
      if cursor < |hits| {
        m := Some(MatchAt(handlers, hits, cursor));
        cursor := cursor + 1;
      } else {
        m := None;
      }
    }
  }
}
