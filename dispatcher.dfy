/**
 * The client-side request dispatcher: `createClientRequestHandler` builds a
 * callback that looks a requested action up in a name-to-handler registry,
 * runs the handler and pushes one `client:response` event back through the
 * LiveView hook (two when pushing the success response itself throws).
 *
 * The pure parts (lookup, outcome, the response built from it, the events a
 * request gives rise to) are functions; the callback is the method `Handle`
 * of the class `ClientRequestHandler`, which works through the hook's log of
 * pushed events.
 */
module Dispatcher {
  import opened Wrappers
  import opened JsValue
  import opened Envelope
  import opened Channel

  /** How a handler's promise settles: it resolves to a value, or it throws
      or rejects with a value. */
  datatype Outcome = Returns(value: Value) | Throws(thrown: Thrown)

  /** The single argument every handler receives: `{config, sdk, hook, params}`. */
  datatype HandlerArgs = HandlerArgs(config: Value, sdk: Value, hook: Hook, params: Value)

  /** A response answers a request when it echoes the request's id (null
      for an absent one) and its action. */
  predicate Answers(r: Response, req: Request)
  {
    r.id == EchoId(req.id) && r.action == req.action
  }

  /** An action handler. Its body (a call into a wallet library) is abstract:
      only how it settles for given arguments is modelled. */
  type Handler = HandlerArgs -> Outcome

  /** What the dispatcher was constructed with, other than the registry. */
  datatype Context = Context(config: Value, sdk: Value, hook: Hook)

  /** The construction argument `deps`; `handlers` is None when not supplied. */
  datatype Deps = Deps(config: Value, sdk: Value, hook: Hook, handlers: Option<map<string, Handler>>)

  /** One invocation of a registered handler. */
  datatype Call = Call(action: string, args: HandlerArgs)

  /** Everything one request gives rise to: the handler invocations, every
      `pushEvent` call in order, and the value the callback's promise rejects
      with, if it does. */
  datatype Trace = Trace(calls: seq<Call>, pushed: seq<Event>, rejection: Option<Thrown>)

  /** The default registry `actionHandlers`. Its two bodies call
      `getAccount` and `connect` of a wallet library and are supplied as
      abstract handlers. */
  function ActionHandlers(getAccount: Handler, connectAccount: Handler): (m: map<string, Handler>)
    ensures m.Keys == {"get_account", "connect_account"}
    ensures m["get_account"] == getAccount && m["connect_account"] == connectAccount
  {
    map["get_account" := getAccount, "connect_account" := connectAccount]
  }

  /** The handler's argument for a request: the construction context plus
      the request's params. */
  function Args(ctx: Context, req: Request): HandlerArgs
  {
    HandlerArgs(ctx.config, ctx.sdk, ctx.hook, req.params)
  }

  /** The error thrown for an action missing from the registry. */
  function UnknownAction(action: string): Thrown
  {
    ErrorObject("Unknown action: " + action)
  }

  /** How the `try` block settles before anything is pushed: an unknown
      action throws, otherwise the handler's own outcome. */
  function Attempt(handlers: map<string, Handler>, ctx: Context, req: Request): Outcome
  {
    if req.action !in handlers then Throws(UnknownAction(req.action))
    else handlers[req.action](Args(ctx, req))
  }

  /** The response built for a settled attempt: the result as returned, or
      the error text of the caught value. */
  function Reply(handlers: map<string, Handler>, ctx: Context, req: Request): (r: Response)
    ensures Answers(r, req)
  {
    match Attempt(handlers, ctx, req)
    case Returns(result) => Success(EchoId(req.id), req.action, result)
    case Throws(thrown) => Failure(EchoId(req.id), req.action, ErrorText(thrown))
  }

  /** The `catch` block: push a failure response for `thrown`; if that push
      throws too, the callback's promise rejects with that fault. */
  function Report(id: Value, action: string, thrown: Thrown, refuses: Event -> Option<Thrown>,
                  calls: seq<Call>, earlier: seq<Event>): Trace
  {
    var e := Event(ClientResponse, Failure(id, action, ErrorText(thrown)));
    Trace(calls, earlier + [e], refuses(e))
  }

  /**
   * Everything `handleClientRequest(req)` does, given the registry, the
   * construction context and which pushes the hook refuses.
   */
  function Dispatch(handlers: map<string, Handler>, ctx: Context, refuses: Event -> Option<Thrown>,
                    req: Request): (t: Trace)
    // the handler is called once, with the context and params, iff it is registered
    ensures t.calls == if req.action in handlers then [Call(req.action, Args(ctx, req))] else []
    // the first push is always the response for the settled attempt
    ensures 1 <= |t.pushed| <= 2
    ensures t.pushed[0] == Event(ClientResponse, Reply(handlers, ctx, req))
    // every push is a correlated client:response
    ensures forall e <- t.pushed :: e.name == ClientResponse && Answers(e.response, req)
    // a second push happens exactly when pushing a success response threw,
    // and it reports a failure
    ensures |t.pushed| == 2 <==> t.pushed[0].response.Success? && refuses(t.pushed[0]).Some?
    ensures |t.pushed| == 2 ==> t.pushed[1].response.Failure?
    // the promise rejects only when the last push threw
    ensures t.rejection == refuses(t.pushed[|t.pushed| - 1])
  {
    var id := EchoId(req.id);
    var calls := if req.action in handlers then [Call(req.action, Args(ctx, req))] else [];
    match Attempt(handlers, ctx, req)
    case Returns(result) =>
      var ok := Event(ClientResponse, Success(id, req.action, result));
      (match refuses(ok)
       case None => Trace(calls, [ok], None)
       case Some(fault) => Report(id, req.action, fault, refuses, calls, [ok]))
    case Throws(thrown) => Report(id, req.action, thrown, refuses, calls, [])
  }

  // ---------------------------------------------------------------------
  // One request at a time: the cases of handleClientRequest

  /** An unknown action never reaches a handler, and the one response pushed
      reports "Unknown action: <action>". */
  lemma UnknownActionReported(handlers: map<string, Handler>, ctx: Context,
                              refuses: Event -> Option<Thrown>, req: Request)
    requires req.action !in handlers
    ensures var t := Dispatch(handlers, ctx, refuses, req);
      t.calls == [] &&
      t.pushed == [Event(ClientResponse, Failure(EchoId(req.id), req.action, Str("Unknown action: " + req.action)))]
  {
  }

  /** A handler that resolves to `r`, pushed without a fault, gives exactly
      one success response carrying `r` unchanged, and the promise resolves. */
  lemma ResultPassedThrough(handlers: map<string, Handler>, ctx: Context,
                            refuses: Event -> Option<Thrown>, req: Request, r: Value)
    requires req.action in handlers && handlers[req.action](Args(ctx, req)) == Returns(r)
    requires refuses(Event(ClientResponse, Success(EchoId(req.id), req.action, r))).None?
    ensures Dispatch(handlers, ctx, refuses, req) ==
      Trace([Call(req.action, Args(ctx, req))],
            [Event(ClientResponse, Success(EchoId(req.id), req.action, r))], None)
  {
  }

  /** A handler that throws or rejects with a truthy message reports that
      message as the error. */
  lemma ThrownMessageReported(handlers: map<string, Handler>, ctx: Context,
                              refuses: Event -> Option<Thrown>, req: Request, thrown: Thrown)
    requires req.action in handlers && handlers[req.action](Args(ctx, req)) == Throws(thrown)
    requires Truthy(thrown.message)
    ensures Dispatch(handlers, ctx, refuses, req).pushed ==
      [Event(ClientResponse, Failure(EchoId(req.id), req.action, thrown.message))]
  {
  }

  /** Without a truthy message (none, null, or the empty string) the error is
      the string conversion of the thrown value. */
  lemma ThrownTextReported(handlers: map<string, Handler>, ctx: Context,
                           refuses: Event -> Option<Thrown>, req: Request, thrown: Thrown)
    requires req.action in handlers && handlers[req.action](Args(ctx, req)) == Throws(thrown)
    requires !Truthy(thrown.message)
    ensures Dispatch(handlers, ctx, refuses, req).pushed ==
      [Event(ClientResponse, Failure(EchoId(req.id), req.action, Str(thrown.text)))]
  {
  }

  /** When pushing the success response throws `fault`, the catch block
      pushes a second, failure response for `fault`; the promise rejects
      only if that push throws as well. */
  lemma FailedSendReportedAgain(handlers: map<string, Handler>, ctx: Context,
                                refuses: Event -> Option<Thrown>, req: Request, r: Value, fault: Thrown)
    requires req.action in handlers && handlers[req.action](Args(ctx, req)) == Returns(r)
    requires refuses(Event(ClientResponse, Success(EchoId(req.id), req.action, r))) == Some(fault)
    ensures var t := Dispatch(handlers, ctx, refuses, req);
      var second := Event(ClientResponse, Failure(EchoId(req.id), req.action, ErrorText(fault)));
      t.pushed == [Event(ClientResponse, Success(EchoId(req.id), req.action, r)), second] &&
      t.rejection == refuses(second)
  {
  }

  // ---------------------------------------------------------------------
  // The callback over its lifetime: the requests it has served in order

  /** Every `pushEvent` call made while serving `reqs`, one after another. */
  function Log(handlers: map<string, Handler>, ctx: Context, refuses: Event -> Option<Thrown>,
               reqs: seq<Request>): (log: seq<Event>)
    ensures |reqs| <= |log| <= 2 * |reqs|
    ensures forall e <- log :: e.name == ClientResponse
    decreases |reqs|
  {
    if reqs == [] then []
    else Log(handlers, ctx, refuses, reqs[..|reqs| - 1]) + Dispatch(handlers, ctx, refuses, reqs[|reqs| - 1]).pushed
  }

  /** Every handler invocation made while serving `reqs`. */
  function Invoked(handlers: map<string, Handler>, ctx: Context, refuses: Event -> Option<Thrown>,
                   reqs: seq<Request>): (calls: seq<Call>)
    ensures |calls| <= |reqs|
    ensures forall c <- calls :: c.action in handlers
    decreases |reqs|
  {
    if reqs == [] then []
    else Invoked(handlers, ctx, refuses, reqs[..|reqs| - 1]) + Dispatch(handlers, ctx, refuses, reqs[|reqs| - 1]).calls
  }

  /** With a hook that never throws, the requests and the responses pushed
      are in one-to-one correspondence: the i-th push is the response to the
      i-th request. */
  lemma {:induction false} ReliableLogMatchesRequests(handlers: map<string, Handler>, ctx: Context,
                                                       refuses: Event -> Option<Thrown>, reqs: seq<Request>)
    requires forall e :: refuses(e).None?
    ensures var log := Log(handlers, ctx, refuses, reqs);
      |log| == |reqs| &&
      forall i :: 0 <= i < |reqs| ==> log[i] == Event(ClientResponse, Reply(handlers, ctx, reqs[i]))
    decreases |reqs|
  {
    if reqs != [] {
      var init := reqs[..|reqs| - 1];
      ReliableLogMatchesRequests(handlers, ctx, refuses, init);
      var t := Dispatch(handlers, ctx, refuses, reqs[|reqs| - 1]);
      assert |t.pushed| == 1;
    }
  }

  /** Serving one more request appends its pushes and calls to the logs. */
  lemma LogSnoc(handlers: map<string, Handler>, ctx: Context, refuses: Event -> Option<Thrown>,
                reqs: seq<Request>, req: Request)
    ensures Log(handlers, ctx, refuses, reqs + [req]) ==
            Log(handlers, ctx, refuses, reqs) + Dispatch(handlers, ctx, refuses, req).pushed
    ensures Invoked(handlers, ctx, refuses, reqs + [req]) ==
            Invoked(handlers, ctx, refuses, reqs) + Dispatch(handlers, ctx, refuses, req).calls
  {
  }

  /** A hook log that was `before` followed by the log of `reqs`, extended by
      the pushes for `req`, is `before` followed by the log of `reqs + [req]`. */
  lemma LogStep(handlers: map<string, Handler>, ctx: Context, refuses: Event -> Option<Thrown>,
                before: seq<Event>, prev: seq<Event>, now: seq<Event>, reqs: seq<Request>, req: Request)
    requires prev == before + Log(handlers, ctx, refuses, reqs)
    requires now == prev + Dispatch(handlers, ctx, refuses, req).pushed
    ensures now == before + Log(handlers, ctx, refuses, reqs + [req])
    ensures Invoked(handlers, ctx, refuses, reqs + [req]) ==
            Invoked(handlers, ctx, refuses, reqs) + Dispatch(handlers, ctx, refuses, req).calls
  {
    LogSnoc(handlers, ctx, refuses, reqs, req);
  }

  /** The response events of `reqs`, one per request, in order. */
  function Replies(handlers: map<string, Handler>, ctx: Context, reqs: seq<Request>): seq<Event>
    decreases |reqs|
  {
    if reqs == [] then []
    else Replies(handlers, ctx, reqs[..|reqs| - 1]) + [Event(ClientResponse, Reply(handlers, ctx, reqs[|reqs| - 1]))]
  }

  /** Serving one more request adds its response at the end. */
  lemma RepliesSnoc(handlers: map<string, Handler>, ctx: Context, reqs: seq<Request>, req: Request)
    ensures Replies(handlers, ctx, reqs + [req]) ==
            Replies(handlers, ctx, reqs) + [Event(ClientResponse, Reply(handlers, ctx, req))]
  {
    assert (reqs + [req])[..|reqs|] == reqs;
  }

  /** Adding one more element of `p` on the left and all of `p` on the right
      keeps one multiset inside the other. */
  lemma SubMultisetAppend<T>(a: seq<T>, b: seq<T>, p: seq<T>)
    requires multiset(a) <= multiset(b) && |p| >= 1
    ensures multiset(a + [p[0]]) <= multiset(b + p)
  {
    assert p == [p[0]] + p[1..];
    assert multiset(p) == multiset{p[0]} + multiset(p[1..]);
  }

  /** Whatever the hook does, no request is dropped: counted with
      multiplicity, `pushEvent` is called with the response of every request
      served, so two requests with equal responses give two calls. A call
      that threw is counted too: this is about the calls, not delivery. */
  lemma {:induction false} NoRequestDropped(handlers: map<string, Handler>, ctx: Context,
                                            refuses: Event -> Option<Thrown>, reqs: seq<Request>)
    ensures multiset(Replies(handlers, ctx, reqs)) <= multiset(Log(handlers, ctx, refuses, reqs))
    decreases |reqs|
  {
    if reqs != [] {
      var init, req := reqs[..|reqs| - 1], reqs[|reqs| - 1];
      assert reqs == init + [req];
      NoRequestDropped(handlers, ctx, refuses, init);
      LogSnoc(handlers, ctx, refuses, init, req);
      RepliesSnoc(handlers, ctx, init, req);
      SubMultisetAppend(Replies(handlers, ctx, init), Log(handlers, ctx, refuses, init),
                        Dispatch(handlers, ctx, refuses, req).pushed);
    }
  }

  /** Whatever the hook does, every response pushed answers some request
      served: none is pushed unprompted. */
  lemma {:induction false} NoResponseUnprompted(handlers: map<string, Handler>, ctx: Context,
                                                refuses: Event -> Option<Thrown>, reqs: seq<Request>)
    ensures forall e <- Log(handlers, ctx, refuses, reqs) ::
      exists i :: 0 <= i < |reqs| && Answers(e.response, reqs[i])
    decreases |reqs|
  {
    if reqs != [] {
      var init, last := reqs[..|reqs| - 1], |reqs| - 1;
      NoResponseUnprompted(handlers, ctx, refuses, init);
      var t := Dispatch(handlers, ctx, refuses, reqs[last]);
      forall e <- Log(handlers, ctx, refuses, reqs)
        ensures exists i :: 0 <= i < |reqs| && Answers(e.response, reqs[i])
      {
        if e in Log(handlers, ctx, refuses, init) {
          var i :| 0 <= i < |init| && Answers(e.response, init[i]);
          assert reqs[i] == init[i];
        } else {
          assert e in t.pushed;
        }
      }
    }
  }

  /** A handler is only ever invoked for a registered action, with the
      construction context and the params of a request that named it. */
  lemma {:induction false} InvokedOnlyAsRequested(handlers: map<string, Handler>, ctx: Context,
                                                  refuses: Event -> Option<Thrown>, reqs: seq<Request>)
    ensures forall c <- Invoked(handlers, ctx, refuses, reqs) ::
      exists i :: 0 <= i < |reqs| && reqs[i].action in handlers && c == Call(reqs[i].action, Args(ctx, reqs[i]))
    decreases |reqs|
  {
    if reqs != [] {
      var init := reqs[..|reqs| - 1];
      var last := |reqs| - 1;
      InvokedOnlyAsRequested(handlers, ctx, refuses, init);
      var t := Dispatch(handlers, ctx, refuses, reqs[last]);
      forall c <- Invoked(handlers, ctx, refuses, reqs)
        ensures exists i :: 0 <= i < |reqs| && reqs[i].action in handlers && c == Call(reqs[i].action, Args(ctx, reqs[i]))
      {
        if c in Invoked(handlers, ctx, refuses, init) {
          var i :| 0 <= i < |init| && init[i].action in handlers && c == Call(init[i].action, Args(ctx, init[i]));
          assert reqs[i] == init[i];
        } else {
          assert c in t.calls;
          assert c == Call(reqs[last].action, Args(ctx, reqs[last]));
        }
      }
    }
  }

  // ---------------------------------------------------------------------
  // createClientRequestHandler and its handleClientRequest closure

  /**
   * The closure returned by `createClientRequestHandler(deps)`: the
   * destructured deps are its constant fields; `served` and `invocations`
   * record, for the proof only, the requests it has handled and the handler
   * calls it made.
   */
  class ClientRequestHandler {
    const config: Value
    const sdk: Value
    const hook: Hook
    const handlers: map<string, Handler>

    /** The hook's pushes from before this handler was created. */
    ghost const before: seq<Event>
    ghost var served: seq<Request>
    ghost var invocations: seq<Call>

    function Ctx(): Context
    {
      Context(config, sdk, hook)
    }

    /** Everything pushed through the hook since construction is the log of
        the requests served, and the handler calls are the ones they made. */
    ghost predicate Valid()
      reads this, hook
    {
      ValidAt(hook.pushed)
    }

    /** Valid, for a given log of the hook's pushes. */
    ghost predicate ValidAt(pushed: seq<Event>)
      reads this
    {
      pushed == before + Log(handlers, Ctx(), hook.refuses, served) &&
      invocations == Invoked(handlers, Ctx(), hook.refuses, served)
    }

    /** `createClientRequestHandler(deps)`; `getAccount` and `connectAccount`
        are the bodies of the default registry's two entries. */
    constructor (deps: Deps, getAccount: Handler, connectAccount: Handler)
      ensures config == deps.config && sdk == deps.sdk && hook == deps.hook
      ensures handlers == if deps.handlers.Some? then deps.handlers.value
                          else ActionHandlers(getAccount, connectAccount)
      ensures before == deps.hook.pushed && served == [] && invocations == []
      ensures Valid()
    {
      config := deps.config;
      sdk := deps.sdk;
      hook := deps.hook;
      handlers := if deps.handlers.Some? then deps.handlers.value
                  else ActionHandlers(getAccount, connectAccount);
      before := deps.hook.pushed;
      served := [];
      invocations := [];
    }

    /** Proof bookkeeping after a request: `req` has been served, giving
        rise to the pushes and calls of its trace. */
    ghost method Record(req: Request, prev: seq<Event>, calls: seq<Call>)
      requires ValidAt(prev)
      requires hook.pushed == prev + Dispatch(handlers, Ctx(), hook.refuses, req).pushed
      requires calls == Dispatch(handlers, Ctx(), hook.refuses, req).calls
      modifies this
      ensures Valid()
      ensures served == old(served) + [req]
      ensures invocations == old(invocations) + calls
    {
      LogStep(handlers, Ctx(), hook.refuses, before, prev, hook.pushed, served, req);
      served := served + [req];
      invocations := invocations + calls;
    }

    /** `handleClientRequest(req)`: returns the value its promise rejects
        with, or None when it resolves. */
    method Handle(req: Request) returns (rejection: Option<Thrown>)
      requires Valid()
      modifies this, hook
      ensures Valid()
      ensures served == old(served) + [req]
      ensures var t := Dispatch(handlers, Ctx(), hook.refuses, req);
        hook.pushed == old(hook.pushed) + t.pushed &&
        invocations == old(invocations) + t.calls &&
        rejection == t.rejection
    {
      ghost var t := Dispatch(handlers, Ctx(), hook.refuses, req);
      var id := EchoId(req.id);
      var caught: Option<Thrown> := None;
      ghost var calls: seq<Call> := [];
      if req.action !in handlers {
        caught := Some(UnknownAction(req.action));
        assert Attempt(handlers, Ctx(), req) == Throws(caught.value);
      } else {
        var args := HandlerArgs(config, sdk, hook, req.params);
        var outcome := handlers[req.action](args);
        calls := [Call(req.action, args)];
        assert outcome == Attempt(handlers, Ctx(), req);
        match outcome {
          case Returns(result) =>
            caught := hook.PushEvent(ClientResponse, Success(id, req.action, result));
            assert hook.pushed == old(hook.pushed) + [t.pushed[0]];
          case Throws(thrown) =>
            caught := Some(thrown);
        }
      }
      rejection := None;
      if caught.Some? {
        rejection := hook.PushEvent(ClientResponse, Failure(id, req.action, ErrorText(caught.value)));
        assert t.pushed[|t.pushed| - 1] == Event(ClientResponse, Failure(id, req.action, ErrorText(caught.value)));
      } else {
        assert |t.pushed| == 1;
      }
      Record(req, old(hook.pushed), calls);
    }
  }
}
