/**
 * What one request does, stated against independent reference definitions:
 * which matches are pulled (`StopPoint`), which handlers run and with which
 * params (`Pulled`), what is logged (`Announced`), when the chain faults
 * (`NoneRaise`), and how the response is finalised on each exit path.
 */
module ExpressProperties {
  import opened Wrappers
  import opened Http
  import opened Routing
  import opened Express

  /**
   * Where the chain started at match `c` stops pulling: just after the first
   * handler that does not continue, or at the end of the matches.
   */
  function StopPoint(env: Env, c: nat): (k: nat)
    requires env.Valid() && c <= |env.hits|
    ensures c <= k <= |env.hits|
    ensures k == c <==> c == |env.hits|
    ensures forall i :: c <= i < k - 1 ==> Continues(env.HandlerAt(i))
    ensures k < |env.hits| ==> !Continues(env.HandlerAt(k - 1))
    decreases |env.hits| - c
  {
    if c == |env.hits| then c
    else if Continues(env.HandlerAt(c)) then StopPoint(env, c + 1)
    else c + 1
  }

  /** The trace of handlers run for matches `from` .. `to` - 1, each with its own match's params. */
  function Pulled(env: Env, from: nat, to: nat): seq<Executed>
    requires env.Valid() && from <= to <= |env.hits|
    decreases |env.hits| - from
  {
    if from == to then [] else [Executed(from, env.hits[from].params)] + Pulled(env, from + 1, to)
  }

  /** The "Executing handler" lines for matches `from` .. `to` - 1. */
  function Announced(env: Env, from: nat, to: nat): seq<LogCall>
    requires env.Valid() && from <= to <= |env.hits|
    decreases |env.hits| - from
  {
    if from == to then [] else Announcement(env.logging, env.HandlerAt(from)) + Announced(env, from + 1, to)
  }

  predicate NoneRaise(env: Env, from: nat, to: nat)
    requires env.Valid() && from <= to <= |env.hits|
  {
    forall i :: from <= i < to ==> env.HandlerAt(i).raise.Never?
  }

  /** A handler whose script never sets a status and never flushes. */
  predicate QuietScript(h: Handler) {
    && (forall i :: 0 <= i < |h.before| ==> Quiet(h.before[i]))
    && (forall i :: 0 <= i < |h.after| ==> Quiet(h.after[i]))
  }

  predicate AllQuiet(env: Env, from: nat, to: nat)
    requires env.Valid() && from <= to <= |env.hits|
  {
    forall i :: from <= i < to ==> QuietScript(env.HandlerAt(i))
  }

  // ---------------------------------------------------------------------
  // Which handlers run, in which order, with which params, and what is logged

  lemma {:induction false} PulledAt(env: Env, from: nat, to: nat)
    requires env.Valid() && from <= to <= |env.hits|
    ensures |Pulled(env, from, to)| == to - from
    ensures forall k :: 0 <= k < to - from ==>
      Pulled(env, from, to)[k] == Executed(from + k, env.hits[from + k].params)
    decreases |env.hits| - from
  {
    if from < to {
      PulledAt(env, from + 1, to);
    }
  }

  /**
   * The chain pulls exactly the matches up to `StopPoint`, runs their handlers
   * in the iterator's order, each with its own match's params, and logs one
   * line per named handler.
   */
  lemma {:induction false} ChainTrace(env: Env, w: World)
    requires env.Valid() && w.cursor <= |env.hits|
    ensures var r := ExecuteNext(env, w).world;
      && r.cursor == StopPoint(env, w.cursor)
      && r.executed == w.executed + Pulled(env, w.cursor, r.cursor)
      && r.log == w.log + Announced(env, w.cursor, r.cursor)
    decreases |env.hits| - w.cursor, 0
  {
    if w.cursor < |env.hits| {
      var c := w.cursor;
      var h := env.HandlerAt(c);
      var e := Enter(env, w);
      var r := Handle(env, h, e).world;
      HandleTrace(env, h, e);
      TraceStep(env, c, r.cursor);
      assert r.executed == w.executed + Pulled(env, c, r.cursor) by {
        Reassociate(w.executed, [Executed(c, env.hits[c].params)], Pulled(env, c + 1, r.cursor), Pulled(env, c, r.cursor));
      }
      assert r.log == w.log + Announced(env, c, r.cursor) by {
        Reassociate(w.log, Announcement(env.logging, h), Announced(env, c + 1, r.cursor), Announced(env, c, r.cursor));
      }
    }
  }

  lemma Reassociate<T>(prefix: seq<T>, first: seq<T>, rest: seq<T>, whole: seq<T>)
    requires whole == first + rest
    ensures (prefix + first) + rest == prefix + whole
  {
  }

  /** Pulling match `c` contributes its own trace entry and log line, then the rest follow. */
  lemma TraceStep(env: Env, c: nat, k: nat)
    requires env.Valid() && c < |env.hits| && k <= |env.hits|
    requires k == (if Continues(env.HandlerAt(c)) then StopPoint(env, c + 1) else c + 1)
    ensures k == StopPoint(env, c) && c + 1 <= k
    ensures Pulled(env, c, k) == [Executed(c, env.hits[c].params)] + Pulled(env, c + 1, k)
    ensures Announced(env, c, k) == Announcement(env.logging, env.HandlerAt(c)) + Announced(env, c + 1, k)
  {
  }

  lemma {:induction false} HandleTrace(env: Env, h: Handler, w: World)
    requires env.Valid() && w.cursor <= |env.hits|
    ensures var r := Handle(env, h, w).world;
      && r.cursor == (if Continues(h) then StopPoint(env, w.cursor) else w.cursor)
      && r.executed == w.executed + Pulled(env, w.cursor, r.cursor)
      && r.log == w.log + Announced(env, w.cursor, r.cursor)
    decreases |env.hits| - w.cursor, 1
  {
    if Continues(h) {
      ChainTrace(env, w.(response := Perform(h.before, w.params, w.response)));
    }
  }

  /**
   * Handlers run in the order the iterator yields matches: match after match
   * from the cursor on, so in registration order and each match at most once;
   * every handler but the last one called its continuation.
   */
  lemma RunsInIteratorOrder(env: Env, w: World)
    requires env.Valid() && w.cursor <= |env.hits|
    ensures |w.executed| <= |ExecuteNext(env, w).world.executed|
    ensures var r := ExecuteNext(env, w).world;
      var ran := r.executed[|w.executed|..];
      && |ran| == r.cursor - w.cursor <= |env.hits| - w.cursor
      && (forall k :: 0 <= k < |ran| ==> ran[k].hit == w.cursor + k && ran[k].params == env.hits[w.cursor + k].params)
      && (forall k, l :: 0 <= k < l < |ran| ==> env.hits[ran[k].hit].position < env.hits[ran[l].hit].position)
      && (forall k :: 0 <= k < |ran| - 1 ==> Continues(env.HandlerAt(ran[k].hit)))
  {
    var r := ExecuteNext(env, w).world;
    ChainTrace(env, w);
    PulledAt(env, w.cursor, r.cursor);
    assert r.executed[|w.executed|..] == Pulled(env, w.cursor, r.cursor);
  }

  /** A handler that does not call its continuation ends the chain: no later match is pulled. */
  lemma ShortCircuit(env: Env, w: World)
    requires env.Valid() && w.cursor < |env.hits|
    requires !Continues(env.HandlerAt(w.cursor))
    ensures var r := ExecuteNext(env, w).world;
      && r.cursor == w.cursor + 1
      && r.executed == w.executed + [Executed(w.cursor, env.hits[w.cursor].params)]
  {
    ChainTrace(env, w);
  }

  /** When every matching handler continues, the chain runs all of them and ends when the iterator is exhausted. */
  lemma ExhaustsWhenAllContinue(env: Env, c: nat)
    requires env.Valid() && c <= |env.hits|
    requires forall i :: c <= i < |env.hits| ==> Continues(env.HandlerAt(i))
    ensures StopPoint(env, c) == |env.hits|
  {
  }

  /**
   * After the chain, `request.params` holds the params of the last match
   * pulled: a handler's code after `next()` sees a later match's params.
   */
  lemma {:induction false} ChainParams(env: Env, w: World)
    requires env.Valid() && w.cursor <= |env.hits|
    ensures var r := ExecuteNext(env, w).world;
      && (r.cursor == w.cursor ==> r.params == w.params)
      && (r.cursor > w.cursor ==> r.params == env.hits[r.cursor - 1].params)
    decreases |env.hits| - w.cursor, 0
  {
    if w.cursor < |env.hits| {
      HandleParams(env, env.HandlerAt(w.cursor), Enter(env, w));
    }
  }

  lemma {:induction false} HandleParams(env: Env, h: Handler, w: World)
    requires env.Valid() && 0 < w.cursor <= |env.hits|
    requires w.params == env.hits[w.cursor - 1].params
    ensures var r := Handle(env, h, w).world;
      r.params == env.hits[r.cursor - 1].params
    decreases |env.hits| - w.cursor, 1
  {
    if h.callsNext && !h.raise.BeforeNext? {
      ChainParams(env, w.(response := Perform(h.before, w.params, w.response)));
    }
  }

  /** Without `options.log` nothing is announced. */
  lemma {:induction false} NothingAnnouncedWithoutLog(env: Env, from: nat, to: nat)
    requires env.Valid() && from <= to <= |env.hits| && !env.logging
    ensures Announced(env, from, to) == []
    decreases |env.hits| - from
  {
    if from < to {
      NothingAnnouncedWithoutLog(env, from + 1, to);
    }
  }

  // ---------------------------------------------------------------------
  // Faults

  /** The chain ends normally exactly when none of the handlers it ran throws. */
  lemma {:induction false} ChainOutcome(env: Env, w: World)
    requires env.Valid() && w.cursor <= |env.hits|
    ensures ExecuteNext(env, w).outcome.Ok? <==> NoneRaise(env, w.cursor, StopPoint(env, w.cursor))
    decreases |env.hits| - w.cursor, 0
  {
    if w.cursor < |env.hits| {
      HandleOutcome(env, env.HandlerAt(w.cursor), Enter(env, w));
      RaiseStep(env, w.cursor);
    }
  }

  /** The handlers up to `StopPoint(c)` do not throw iff the one at `c` does not and, when it calls `next`, neither do the rest. */
  lemma RaiseStep(env: Env, c: nat)
    requires env.Valid() && c < |env.hits|
    ensures var h := env.HandlerAt(c);
      NoneRaise(env, c, StopPoint(env, c)) <==>
        h.raise.Never? && (h.callsNext ==> NoneRaise(env, c + 1, StopPoint(env, c + 1)))
  {
    var h := env.HandlerAt(c);
    if h.raise.Never? && h.callsNext {
      var k := StopPoint(env, c + 1);
      assert StopPoint(env, c) == k;
      if NoneRaise(env, c + 1, k) {
        forall i | c <= i < k ensures env.HandlerAt(i).raise.Never? {
          if i > c {
            assert c + 1 <= i < k;
          }
        }
      }
    }
  }

  lemma {:induction false} HandleOutcome(env: Env, h: Handler, w: World)
    requires env.Valid() && w.cursor <= |env.hits|
    ensures Handle(env, h, w).outcome.Ok? <==>
      h.raise.Never? && (h.callsNext ==> NoneRaise(env, w.cursor, StopPoint(env, w.cursor)))
    decreases |env.hits| - w.cursor, 1
  {
    if Continues(h) {
      ChainOutcome(env, w.(response := Perform(h.before, w.params, w.response)));
    }
  }

  // ---------------------------------------------------------------------
  // The response

  lemma {:induction false} PerformQuiet(acts: seq<Action>, params: Params, rs: ResponseState)
    requires forall i :: 0 <= i < |acts| ==> Quiet(acts[i])
    ensures var r := Perform(acts, params, rs);
      r.status == rs.status && r.flushed == rs.flushed && r.flushes == rs.flushes
    decreases |acts|
  {
    if acts != [] {
      PerformQuiet(acts[..|acts| - 1], params, rs);
    }
  }

  /** Handlers that never set a status and never flush leave status and latch as they were. */
  lemma {:induction false} ChainQuiet(env: Env, w: World)
    requires env.Valid() && w.cursor <= |env.hits|
    requires AllQuiet(env, w.cursor, StopPoint(env, w.cursor))
    ensures var r := ExecuteNext(env, w).world.response;
      r.status == w.response.status && r.flushed == w.response.flushed && r.flushes == w.response.flushes
    decreases |env.hits| - w.cursor, 0
  {
    var c := w.cursor;
    if c < |env.hits| {
      var h := env.HandlerAt(c);
      assert QuietScript(h);
      if Continues(h) {
        assert AllQuiet(env, c + 1, StopPoint(env, c + 1));
      }
      HandleQuiet(env, h, Enter(env, w));
    }
  }

  lemma {:induction false} HandleQuiet(env: Env, h: Handler, w: World)
    requires env.Valid() && w.cursor <= |env.hits|
    requires QuietScript(h)
    requires Continues(h) ==> AllQuiet(env, w.cursor, StopPoint(env, w.cursor))
    ensures var r := Handle(env, h, w).world.response;
      r.status == w.response.status && r.flushed == w.response.flushed && r.flushes == w.response.flushes
    decreases |env.hits| - w.cursor, 1
  {
    var w1 := w.(response := Perform(h.before, w.params, w.response));
    PerformQuiet(h.before, w.params, w.response);
    if !h.raise.BeforeNext? {
      var s := if h.callsNext then ExecuteNext(env, w1) else Step(w1, Ok);
      if h.callsNext {
        ChainQuiet(env, w1);
      }
      PerformQuiet(h.after, s.world.params, s.world.response);
    }
  }

  /**
   * The finaliser on the normal path: 404 when nothing was flushed and no
   * status was set, the handlers' status otherwise; then exactly one flush.
   */
  lemma NormalPathFinalises(env: Env, w: World)
    requires env.Valid() && w.cursor <= |env.hits|
    requires ExecuteNext(env, w).outcome.Ok?
    ensures var chain := ExecuteNext(env, w).world.response;
      var r := Serve(env, w).response;
      && r.status == (if !chain.flushed && Falsy(chain.status) then Some(NotFound) else chain.status)
      && r.body == chain.body
      && r.flushed && r.flushes == chain.flushes + 1
      && Serve(env, w).log == ExecuteNext(env, w).world.log
  {
  }

  /**
   * A request that no handler answers (none sets a status or flushes, none
   * throws) ends as 404, flushed once by the finaliser.
   */
  lemma UnansweredRequestIsNotFound(env: Env, w: World)
    requires env.Valid() && w.cursor <= |env.hits|
    requires Falsy(w.response.status) && !w.response.flushed
    requires AllQuiet(env, w.cursor, StopPoint(env, w.cursor))
    requires NoneRaise(env, w.cursor, StopPoint(env, w.cursor))
    ensures var r := Serve(env, w).response;
      r.status == Some(NotFound) && r.flushed && r.flushes == w.response.flushes + 1
  {
    ChainOutcome(env, w);
    ChainQuiet(env, w);
  }

  /**
   * The error path as written: the error is logged, and the 500 with the
   * message is written and flushed only when headers were already flushed.
   */
  lemma FaultPathAsWritten(env: Env, w: World)
    requires env.Valid() && w.cursor <= |env.hits|
    requires ExecuteNext(env, w).outcome.Fault?
    ensures var chain := ExecuteNext(env, w);
      var e := chain.outcome.error;
      var r := Serve(env, w);
      && r.log == chain.world.log + (if env.logging then [WithError(ErrorLabel, e)] else [])
      && (!chain.world.response.flushed ==> r.response == chain.world.response)
      && (chain.world.response.flushed ==>
            r.response == ResponseState(Some(InternalServerError), Some(e.message), true, chain.world.response.flushes + 1))
  {
  }

  /**
   * Everything logged during one request: one line per named handler that ran,
   * then one error report if the chain faulted; nothing without `options.log`.
   */
  lemma ServeLog(env: Env, w: World)
    requires env.Valid() && w.cursor <= |env.hits|
    ensures var s := ExecuteNext(env, w);
      Serve(env, w).log == w.log + Announced(env, w.cursor, StopPoint(env, w.cursor))
                         + (if s.outcome.Fault? then ErrorReport(env.logging, s.outcome.error) else [])
    ensures !env.logging ==> Serve(env, w).log == w.log
  {
    ChainTrace(env, w);
    if !env.logging {
      NothingAnnouncedWithoutLog(env, w.cursor, StopPoint(env, w.cursor));
    }
  }

  /**
   * A request is built from the router's endpoint handlers only: two routers
   * with the same `getHandlers()` serve every request alike, whatever their
   * middlewares.
   */
  lemma MiddlewaresIgnored(r1: Router, r2: Router, hits: seq<RouteMatch>, logging: bool, w: World)
    requires r1.handlers == r2.handlers
    requires HitsValid(r1.handlers, hits) && w.cursor <= |hits|
    ensures RequestEnv(r1, hits, logging).Valid()
    ensures Serve(RequestEnv(r1, hits, logging), w) == Serve(RequestEnv(r2, hits, logging), w)
  {
  }

  // ---------------------------------------------------------------------
  // The inverted guard of the catch branch

  /**
   * As written, a handler that throws before anything was flushed gets no
   * error response: status, body and latch stay as the chain left them.
   */
  lemma FaultBeforeFlushGoesUnreported(env: Env, w: World)
    requires env.Valid() && w.cursor <= |env.hits|
    requires Falsy(w.response.status) && !w.response.flushed
    requires AllQuiet(env, w.cursor, StopPoint(env, w.cursor))
    requires !NoneRaise(env, w.cursor, StopPoint(env, w.cursor))
    ensures var r := Serve(env, w).response;
      r.status == w.response.status && r.status != Some(InternalServerError)
      && !r.flushed && r.flushes == w.response.flushes
  {
    ChainOutcome(env, w);
    ChainQuiet(env, w);
  }

  /** One handler for POST /items that throws at once: no 500, nothing flushed. */
  lemma InvertedGuardExample()
    ensures var env := Env([Handler("ItemsHandler", [], false, [], BeforeNext(Error("boom")))], [RouteMatch(0, map[])], true);
      var w := World(0, map[], Unwritten, [], []);
      && Serve(env, w).response == Unwritten
      && ServeIntended(env, w).response == ResponseState(Some(InternalServerError), Some("boom"), true, 1)
  {
  }

  /** A handler whose script never calls `flush()`. */
  predicate NeverFlushes(h: Handler) {
    && (forall i :: 0 <= i < |h.before| ==> !h.before[i].CallFlush?)
    && (forall i :: 0 <= i < |h.after| ==> !h.after[i].CallFlush?)
  }

  predicate NoneFlush(env: Env, from: nat, to: nat)
    requires env.Valid() && from <= to <= |env.hits|
  {
    forall i :: from <= i < to ==> NeverFlushes(env.HandlerAt(i))
  }

  lemma {:induction false} PerformNoFlush(acts: seq<Action>, params: Params, rs: ResponseState)
    requires forall i :: 0 <= i < |acts| ==> !acts[i].CallFlush?
    ensures var r := Perform(acts, params, rs);
      r.flushed == rs.flushed && r.flushes == rs.flushes
    decreases |acts|
  {
    if acts != [] {
      PerformNoFlush(acts[..|acts| - 1], params, rs);
    }
  }

  /** Handlers that never call `flush()` leave the latch and the flush count as they were. */
  lemma {:induction false} ChainNoFlush(env: Env, w: World)
    requires env.Valid() && w.cursor <= |env.hits|
    requires NoneFlush(env, w.cursor, StopPoint(env, w.cursor))
    ensures var r := ExecuteNext(env, w).world.response;
      r.flushed == w.response.flushed && r.flushes == w.response.flushes
    decreases |env.hits| - w.cursor, 0
  {
    var c := w.cursor;
    if c < |env.hits| {
      var h := env.HandlerAt(c);
      assert NeverFlushes(h);
      if Continues(h) {
        assert NoneFlush(env, c + 1, StopPoint(env, c + 1));
      }
      HandleNoFlush(env, h, Enter(env, w));
    }
  }

  lemma {:induction false} HandleNoFlush(env: Env, h: Handler, w: World)
    requires env.Valid() && w.cursor <= |env.hits|
    requires NeverFlushes(h)
    requires Continues(h) ==> NoneFlush(env, w.cursor, StopPoint(env, w.cursor))
    ensures var r := Handle(env, h, w).world.response;
      r.flushed == w.response.flushed && r.flushes == w.response.flushes
    decreases |env.hits| - w.cursor, 1
  {
    var w1 := w.(response := Perform(h.before, w.params, w.response));
    PerformNoFlush(h.before, w.params, w.response);
    if !h.raise.BeforeNext? {
      var s := if h.callsNext then ExecuteNext(env, w1) else Step(w1, Ok);
      if h.callsNext {
        ChainNoFlush(env, w1);
      }
      PerformNoFlush(h.after, s.world.params, s.world.response);
    }
  }

  /**
   * The error path with the guard corrected: the error is logged once; a
   * chain that faulted before any flush ends as a 500 with the message,
   * flushed once more; a chain that faulted after a flush writes nothing.
   */
  lemma FaultPathIntended(env: Env, w: World)
    requires env.Valid() && w.cursor <= |env.hits|
    requires ExecuteNext(env, w).outcome.Fault?
    ensures var chain := ExecuteNext(env, w);
      var e := chain.outcome.error;
      var r := ServeIntended(env, w);
      && r.log == chain.world.log + (if env.logging then [WithError(ErrorLabel, e)] else [])
      && (!chain.world.response.flushed ==>
            r.response == ResponseState(Some(InternalServerError), Some(e.message), true, chain.world.response.flushes + 1))
      && (chain.world.response.flushed ==> r.response == chain.world.response)
  {
  }

  /**
   * With the guard corrected, a fault in a chain whose handlers never flush
   * becomes a 500 carrying the error's message, flushed exactly once, whatever
   * status the handlers set.
   */
  lemma IntendedFaultIsServerError(env: Env, w: World)
    requires env.Valid() && w.cursor <= |env.hits|
    requires !w.response.flushed
    requires NoneFlush(env, w.cursor, StopPoint(env, w.cursor))
    requires !NoneRaise(env, w.cursor, StopPoint(env, w.cursor))
    ensures var s := ExecuteNext(env, w);
      var r := ServeIntended(env, w).response;
      && s.outcome.Fault?
      && r.status == Some(InternalServerError) && r.body == Some(s.outcome.error.message)
      && r.flushed && r.flushes == w.response.flushes + 1
  {
    ChainOutcome(env, w);
    ChainNoFlush(env, w);
  }

  /**
   * With the guard corrected, a fault after the handlers flushed writes
   * nothing more: status, body and flush count stay as the handlers left them.
   */
  lemma IntendedFaultAfterFlushWritesNothing(env: Env, w: World)
    requires env.Valid() && w.cursor <= |env.hits|
    requires ExecuteNext(env, w).world.response.flushed
    requires ExecuteNext(env, w).outcome.Fault?
    ensures ServeIntended(env, w).response == ExecuteNext(env, w).world.response
  {
  }

  /**
   * One handler that sets 200, flushes, then throws: as written the flushed
   * response is overwritten with 500 and `flush()` is called a second time;
   * corrected, it stays 200, flushed once.
   */
  lemma FlushThenThrowExample()
    ensures var env := Env([Handler("ItemsHandler", [SetStatus(200), CallFlush], false, [], BeforeNext(Error("boom")))],
                           [RouteMatch(0, map[])], true);
      var w := World(0, map[], Unwritten, [], []);
      && Serve(env, w).response == ResponseState(Some(InternalServerError), Some("boom"), true, 2)
      && ServeIntended(env, w).response == ResponseState(Some(200), None, true, 1)
  {
    var acts := [SetStatus(200), CallFlush];
    assert acts[..1] == [SetStatus(200)];
    assert Perform(acts, map[], Unwritten) == ResponseState(Some(200), None, true, 1);
  }
}
