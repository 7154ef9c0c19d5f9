/** What running the composed pipeline promises: onion order, short-circuiting,
    lazy handler resolution, errors reaching the caller unmodified, and the same
    request and token at every link. */
module PipelineProperties {
  import opened MediatRTypes
  import opened RequestHandlerWrapper

  predicate AllPassThrough(behaviors: seq<Behavior>)
  {
    forall i :: 0 <= i < |behaviors| ==> behaviors[i].PassThrough?
  }

  /** The entry events of the behaviors, first-registered first. */
  function Enters(behaviors: seq<Behavior>, request: Request, token: CancellationToken): (r: seq<Event>)
  {
    if behaviors == [] then []
    else [Enter(behaviors[0].id, request, token)] + Enters(behaviors[1..], request, token)
  }

  /** The exit events of the behaviors, last-registered first. */
  function Leaves(behaviors: seq<Behavior>): (r: seq<Event>)
  {
    if behaviors == [] then [] else Leaves(behaviors[1..]) + [Leave(behaviors[0].id)]
  }

  /** What pass-through behaviors around an inner outcome make of it: their entries
      before it, their exits after it when it succeeded, and its result unchanged. */
  function Wrap(behaviors: seq<Behavior>, request: Request, token: CancellationToken, inner: Outcome): (r: Outcome)
  {
    Outcome(Enters(behaviors, request, token) + inner.trace
              + (if inner.result.Success? then Leaves(behaviors) else []),
            inner.result)
  }

  /** The `Handler` delegate that `Handle` puts at the bottom of the chain. */
  function HandlerSeed(requestType: TypeName, responseType: TypeName, request: Request,
                       token: CancellationToken, serviceFactory: ServiceFactory): (r: RequestHandlerDelegate)
  {
    HandlerCall(RequestHandlerOf(requestType, responseType), serviceFactory.handler, request, token)
  }

  /** Composing a concatenation nests the second part inside the first. */
  lemma {:induction false} NestAppend(pre: seq<Behavior>, rest: seq<Behavior>, request: Request,
                                      token: CancellationToken, core: RequestHandlerDelegate)
    ensures Nest(pre + rest, request, token, core) == Nest(pre, request, token, Nest(rest, request, token, core))
  {
    if pre == [] {
      assert pre + rest == rest;
    } else {
      assert (pre + rest)[0] == pre[0];
      assert (pre + rest)[1..] == pre[1..] + rest;
      NestAppend(pre[1..], rest, request, token, core);
    }
  }

  /** A chain of pass-through behaviors is transparent: whatever the delegate inside it
      does, its events are bracketed by the behaviors' events in onion order and its
      result (value or exception) comes out unchanged. */
  lemma {:induction false} PassThroughChain(behaviors: seq<Behavior>, request: Request,
                                            token: CancellationToken, core: RequestHandlerDelegate)
    requires AllPassThrough(behaviors)
    ensures Invoke(Nest(behaviors, request, token, core)) == Wrap(behaviors, request, token, Invoke(core))
  {
    if behaviors == [] {
      assert Enters(behaviors, request, token) == [] && Leaves(behaviors) == [];
      assert Invoke(core).trace == [] + Invoke(core).trace + [];
    } else {
      var rest := behaviors[1..];
      var id := behaviors[0].id;
      assert AllPassThrough(rest) by {
        forall i | 0 <= i < |rest| ensures rest[i].PassThrough? { assert rest[i] == behaviors[i + 1]; }
      }
      PassThroughChain(rest, request, token, core);
      var inner := Invoke(core);
      var mid := Invoke(Nest(rest, request, token, core));
      PassThroughStep(id, request, token, Nest(rest, request, token, core));
      assert Nest(behaviors, request, token, core) == PipelineCall(PassThrough(id), request, token, Nest(rest, request, token, core));
      assert behaviors == [PassThrough(id)] + rest;
      WrapCons(id, rest, request, token, inner);
    }
  }

  /** One pass-through behavior around a delegate. */
  lemma PassThroughStep(id: BehaviorId, request: Request, token: CancellationToken, next: RequestHandlerDelegate)
    ensures Invoke(PipelineCall(PassThrough(id), request, token, next))
         == Outcome([Enter(id, request, token)] + Invoke(next).trace
                      + (if Invoke(next).result.Success? then [Leave(id)] else []),
                    Invoke(next).result)
  {
  }

  /** One more pass-through behavior outside a wrapped outcome. */
  lemma WrapCons(id: BehaviorId, rest: seq<Behavior>, request: Request, token: CancellationToken, inner: Outcome)
    ensures var mid := Wrap(rest, request, token, inner);
      Wrap([PassThrough(id)] + rest, request, token, inner)
      == Outcome([Enter(id, request, token)] + mid.trace + (if mid.result.Success? then [Leave(id)] else []), mid.result)
  {
  }

  /** Onion order: with pass-through behaviors B1..Bn and a handler that responds, the
      trace is B1..Bn entered, the handler resolved and run, Bn..B1 left, and the
      handler's response is the response. */
  lemma OnionOrder(requestType: TypeName, responseType: TypeName, request: Request,
                   token: CancellationToken, serviceFactory: ServiceFactory, v: Response)
    requires serviceFactory.behaviors.Success? && AllPassThrough(serviceFactory.behaviors.value)
    requires serviceFactory.handler == Instance(Responds(v))
    ensures Handle(requestType, responseType, request, token, serviceFactory)
         == Outcome(Enters(serviceFactory.behaviors.value, request, token)
                      + [Resolve(RequestHandlerOf(requestType, responseType)), Handled(request, token)]
                      + Leaves(serviceFactory.behaviors.value),
                    Success(v))
  {
    var seed := HandlerSeed(requestType, responseType, request, token, serviceFactory);
    PassThroughChain(serviceFactory.behaviors.value, request, token, seed);
    assert Invoke(seed).trace == [Resolve(RequestHandlerOf(requestType, responseType)), Handled(request, token)];
  }

  /** The three-behavior trace [B1, B2, B3, H, B3, B2, B1]. */
  lemma OnionOrderThree(request: Request, token: CancellationToken, v: Response)
    ensures
      var factory := ServiceFactory(Instance(Responds(v)), Success([PassThrough(1), PassThrough(2), PassThrough(3)]));
      Handle("Ping", "Pong", request, token, factory)
      == Outcome([Enter(1, request, token), Enter(2, request, token), Enter(3, request, token),
                  Resolve(RequestHandlerOf("Ping", "Pong")), Handled(request, token),
                  Leave(3), Leave(2), Leave(1)],
                 Success(v))
  {
    var bs := [PassThrough(1), PassThrough(2), PassThrough(3)];
    var factory := ServiceFactory(Instance(Responds(v)), Success(bs));
    OnionOrder("Ping", "Pong", request, token, factory, v);
    assert bs[1..] == [PassThrough(2), PassThrough(3)] && bs[1..][1..] == [PassThrough(3)];
    assert bs[1..][1..][1..] == [];
    assert Enters(bs[1..][1..], request, token) == [Enter(3, request, token)];
    assert Enters(bs[1..], request, token) == [Enter(2, request, token), Enter(3, request, token)];
    assert Enters(bs, request, token) == [Enter(1, request, token), Enter(2, request, token), Enter(3, request, token)];
    assert Leaves(bs[1..][1..]) == [Leave(3)];
    assert Leaves(bs[1..]) == [Leave(3), Leave(2)];
    assert Leaves(bs) == [Leave(3), Leave(2), Leave(1)];
  }

  /** With no behaviors the chain is the handler delegate itself: handling is resolving
      the handler and calling it directly. */
  lemma NoBehaviorsIsDirectCall(requestType: TypeName, responseType: TypeName, request: Request,
                                token: CancellationToken, serviceFactory: ServiceFactory)
    requires serviceFactory.behaviors == Success([])
    ensures Handle(requestType, responseType, request, token, serviceFactory)
         == RunHandler(RequestHandlerOf(requestType, responseType), serviceFactory.handler, request, token)
  {
  }

  /** Errors reach the caller unmodified: through pass-through behaviors, the resolution
      errors of `GetHandler` arrive exactly as it built them (not wrapped a second time)
      and a handler's exception arrives as the handler threw it. */
  lemma ErrorsPassThrough(requestType: TypeName, responseType: TypeName, request: Request,
                          token: CancellationToken, serviceFactory: ServiceFactory)
    requires serviceFactory.behaviors.Success? && AllPassThrough(serviceFactory.behaviors.value)
    ensures var o := Handle(requestType, responseType, request, token, serviceFactory);
      var handlerType := RequestHandlerOf(requestType, responseType);
      && (serviceFactory.handler.Throws? ==> o.result == Failure(ConstructionError(handlerType, serviceFactory.handler.cause)))
      && (serviceFactory.handler.Null? ==> o.result == Failure(NotFoundError(handlerType)))
      && (serviceFactory.handler.Instance? && serviceFactory.handler.instance.Raises? ==>
            o.result == Failure(serviceFactory.handler.instance.error))
  {
    var seed := HandlerSeed(requestType, responseType, request, token, serviceFactory);
    PassThroughChain(serviceFactory.behaviors.value, request, token, seed);
  }

  /** A behavior that does not call `next` ends the call: every behavior before it has
      entered and (since it succeeded) left, the inner behaviors and the handler never
      run, the handler is never resolved, and its response is the response. */
  lemma ShortCircuitStops(requestType: TypeName, responseType: TypeName, request: Request,
                          token: CancellationToken, serviceFactory: ServiceFactory,
                          pre: seq<Behavior>, id: BehaviorId, v: Response, post: seq<Behavior>,
                          other: Lookup<RequestHandler>)
    requires serviceFactory.behaviors == Success(pre + [ShortCircuit(id, v)] + post)
    requires AllPassThrough(pre)
    ensures Handle(requestType, responseType, request, token, serviceFactory)
         == Outcome(Enters(pre, request, token) + [Enter(id, request, token)] + Leaves(pre), Success(v))
    ensures Resolutions(Handle(requestType, responseType, request, token, serviceFactory).trace) == 0
    ensures Handle(requestType, responseType, request, token, serviceFactory)
         == Handle(requestType, responseType, request, token, ServiceFactory(other, serviceFactory.behaviors))
  {
    ShortCircuitOutcome(requestType, responseType, request, token, serviceFactory, pre, id, v, post);
    NoResolutionsOutside(pre, request, token);
    ResolutionsAppend(Enters(pre, request, token), [Enter(id, request, token)]);
    ResolutionsAppend(Enters(pre, request, token) + [Enter(id, request, token)], Leaves(pre));
    HandleResolvesLazily(requestType, responseType, request, token, serviceFactory, other);
  }

  /** Behavior entries and exits never resolve anything. */
  lemma {:induction false} NoResolutionsOutside(behaviors: seq<Behavior>, request: Request, token: CancellationToken)
    ensures Resolutions(Enters(behaviors, request, token)) == 0 && Resolutions(Leaves(behaviors)) == 0
  {
    if behaviors != [] {
      NoResolutionsOutside(behaviors[1..], request, token);
      ResolutionsAppend([Enter(behaviors[0].id, request, token)], Enters(behaviors[1..], request, token));
      ResolutionsAppend(Leaves(behaviors[1..]), [Leave(behaviors[0].id)]);
    }
  }

  lemma ShortCircuitOutcome(requestType: TypeName, responseType: TypeName, request: Request,
                            token: CancellationToken, serviceFactory: ServiceFactory,
                            pre: seq<Behavior>, id: BehaviorId, v: Response, post: seq<Behavior>)
    requires serviceFactory.behaviors == Success(pre + [ShortCircuit(id, v)] + post)
    requires AllPassThrough(pre)
    ensures Handle(requestType, responseType, request, token, serviceFactory)
         == Outcome(Enters(pre, request, token) + [Enter(id, request, token)] + Leaves(pre), Success(v))
  {
    var seed := HandlerSeed(requestType, responseType, request, token, serviceFactory);
    var rest := [ShortCircuit(id, v)] + post;
    assert pre + [ShortCircuit(id, v)] + post == pre + rest;
    NestAppend(pre, rest, request, token, seed);
    PassThroughChain(pre, request, token, Nest(rest, request, token, seed));
    assert rest[0] == ShortCircuit(id, v);
  }

  /** A behavior that throws without calling `next`: its exception is the outcome,
      unmodified, and nothing inside it runs. */
  lemma FailingBehaviorPropagates(requestType: TypeName, responseType: TypeName, request: Request,
                                  token: CancellationToken, serviceFactory: ServiceFactory,
                                  pre: seq<Behavior>, id: BehaviorId, e: Exception, post: seq<Behavior>)
    requires serviceFactory.behaviors == Success(pre + [Fail(id, e)] + post)
    requires AllPassThrough(pre)
    ensures Handle(requestType, responseType, request, token, serviceFactory)
         == Outcome(Enters(pre, request, token) + [Enter(id, request, token)], Failure(e))
  {
    var seed := HandlerSeed(requestType, responseType, request, token, serviceFactory);
    var rest := [Fail(id, e)] + post;
    assert pre + [Fail(id, e)] + post == pre + rest;
    NestAppend(pre, rest, request, token, seed);
    var inner := Nest(rest, request, token, seed);
    assert rest[0] == Fail(id, e);
    assert inner == PipelineCall(Fail(id, e), request, token, Nest(post, request, token, seed)) by {
      assert rest[1..] == post;
    }
    assert Invoke(inner) == Outcome([Enter(id, request, token)], Failure(e));
    PassThroughChain(pre, request, token, inner);
    assert Enters(pre, request, token) + [Enter(id, request, token)] + []
        == Enters(pre, request, token) + [Enter(id, request, token)];
  }

  /** A behavior sees only the outcome of its `next`: two delegates with the same
      outcome give any chain around them the same outcome. */
  lemma {:induction false} SameNextSameOutcome(behaviors: seq<Behavior>, request: Request, token: CancellationToken,
                                               core: RequestHandlerDelegate, core2: RequestHandlerDelegate)
    requires Invoke(core) == Invoke(core2)
    ensures Invoke(Nest(behaviors, request, token, core)) == Invoke(Nest(behaviors, request, token, core2))
  {
    if behaviors != [] {
      SameNextSameOutcome(behaviors[1..], request, token, core, core2);
    }
  }

  /** Whatever stands before it, a behavior that answers or throws without calling `next`
      cuts the chain there: the behaviors after it and the delegate at the bottom play no part. */
  lemma StoppingBehaviorCutsChain(pre: seq<Behavior>, stop: Behavior, post: seq<Behavior>, request: Request,
                                  token: CancellationToken, core: RequestHandlerDelegate, core2: RequestHandlerDelegate)
    requires stop.ShortCircuit? || stop.Fail?
    ensures Invoke(Nest(pre + [stop] + post, request, token, core))
         == Invoke(Nest(pre + [stop], request, token, core2))
  {
    var rest := [stop] + post;
    assert pre + [stop] + post == pre + rest;
    NestAppend(pre, rest, request, token, core);
    NestAppend(pre, [stop], request, token, core2);
    assert rest[0] == stop && rest[1..] == post && [stop][1..] == [];
    var cut := Nest(rest, request, token, core);
    var cut2 := Nest([stop], request, token, core2);
    assert cut == PipelineCall(stop, request, token, Nest(post, request, token, core));
    assert cut2 == PipelineCall(stop, request, token, core2);
    assert Invoke(cut) == Invoke(cut2);
    SameNextSameOutcome(pre, request, token, cut, cut2);
  }

  /** Resolution is lazy: a run that never resolved the handler has the same outcome
      whatever the container would have answered for it. */
  lemma {:induction false} LazyResolution(behaviors: seq<Behavior>, request: Request, token: CancellationToken,
                                          handlerType: HandlerType, lookup: Lookup<RequestHandler>,
                                          other: Lookup<RequestHandler>)
    requires Resolutions(Invoke(Nest(behaviors, request, token, HandlerCall(handlerType, lookup, request, token))).trace) == 0
    ensures Invoke(Nest(behaviors, request, token, HandlerCall(handlerType, lookup, request, token)))
         == Invoke(Nest(behaviors, request, token, HandlerCall(handlerType, other, request, token)))
  {
    if behaviors != [] {
      var next := Nest(behaviors[1..], request, token, HandlerCall(handlerType, lookup, request, token));
      var inner := Invoke(next);
      var id := behaviors[0].id;
      match behaviors[0]
      case PassThrough(_) =>
        ResolutionsAppend([Enter(id, request, token)], inner.trace);
        ResolutionsAppend([Enter(id, request, token)] + inner.trace, if inner.result.Success? then [Leave(id)] else []);
        LazyResolution(behaviors[1..], request, token, handlerType, lookup, other);
      case Recover(_, _) =>
        ResolutionsAppend([Enter(id, request, token)], inner.trace);
        LazyResolution(behaviors[1..], request, token, handlerType, lookup, other);
      case Retry(_) =>
        ResolutionsAppend([Enter(id, request, token)], inner.trace);
        ResolutionsAppend([Enter(id, request, token)] + inner.trace, if inner.result.Success? then [] else inner.trace);
        assert Resolutions(inner.trace) == 0 by {
          if inner.result.Success? {
            assert [Enter(id, request, token)] + inner.trace + [] == [Enter(id, request, token)] + inner.trace;
          }
        }
        LazyResolution(behaviors[1..], request, token, handlerType, lookup, other);
      case ShortCircuit(_, _) =>
      case Fail(_, _) =>
    }
  }

  /** The same for `Handle`: a call that did not resolve the handler (a behavior short-circuited
      or threw first) cannot have met a resolution error, and its outcome does not depend on it. */
  lemma HandleResolvesLazily(requestType: TypeName, responseType: TypeName, request: Request,
                             token: CancellationToken, serviceFactory: ServiceFactory, other: Lookup<RequestHandler>)
    requires Resolutions(Handle(requestType, responseType, request, token, serviceFactory).trace) == 0
    ensures Handle(requestType, responseType, request, token, serviceFactory)
         == Handle(requestType, responseType, request, token, ServiceFactory(other, serviceFactory.behaviors))
  {
    if serviceFactory.behaviors.Success? {
      LazyResolution(serviceFactory.behaviors.value, request, token,
                     RequestHandlerOf(requestType, responseType), serviceFactory.handler, other);
    }
  }

  /** No behavior that can call `next` more than once: none of the behaviors retries. */
  predicate NoRetry(behaviors: seq<Behavior>)
  {
    forall i :: 0 <= i < |behaviors| ==> !behaviors[i].Retry?
  }

  /** An invocation through behaviors none of which can call `next` twice resolves the
      handler at most once. */
  lemma {:induction false} ResolvedAtMostOnce(d: RequestHandlerDelegate)
    requires NoRetry(Links(d))
    ensures Resolutions(Invoke(d).trace) <= 1
  {
    match d
    case HandlerCall(_, _, _, _) =>
    case PipelineCall(b, request, token, next) =>
      assert Links(d) == [b] + Links(next);
      assert Links(d)[0] == b;
      assert NoRetry(Links(next)) by {
        forall i | 0 <= i < |Links(next)| ensures !Links(next)[i].Retry? {
          assert Links(next)[i] == Links(d)[i + 1];
        }
      }
      ResolvedAtMostOnce(next);
      var inner := Invoke(next);
      match b
      case PassThrough(id) =>
        ResolutionsAppend([Enter(id, request, token)], inner.trace);
        ResolutionsAppend([Enter(id, request, token)] + inner.trace, if inner.result.Success? then [Leave(id)] else []);
      case Recover(id, _) =>
        ResolutionsAppend([Enter(id, request, token)], inner.trace);
      case ShortCircuit(_, _) =>
      case Fail(_, _) =>
      case Retry(_) =>
        assert false;
  }

  /** `Handler()` caches nothing: a behavior that calls `next` again after a failure
      resolves the handler a second time. */
  lemma RetryResolvesAgain(requestType: TypeName, responseType: TypeName, request: Request,
                           token: CancellationToken, serviceFactory: ServiceFactory, id: BehaviorId)
    requires serviceFactory.behaviors == Success([Retry(id)])
    requires !serviceFactory.handler.Instance?
    ensures var handlerType := RequestHandlerOf(requestType, responseType);
      var o := Handle(requestType, responseType, request, token, serviceFactory);
      && o.trace == [Enter(id, request, token), Resolve(handlerType), Resolve(handlerType)]
      && Resolutions(o.trace) == 2
      && o.result == Failure(GetHandler(handlerType, serviceFactory.handler).error)
  {
    var handlerType := RequestHandlerOf(requestType, responseType);
    var seed := HandlerSeed(requestType, responseType, request, token, serviceFactory);
    assert [Retry(id)][1..] == [];
    assert Nest([Retry(id)], request, token, seed) == PipelineCall(Retry(id), request, token, seed);
    BehaviorUsesNext(Retry(id), request, token, seed);
    var o := Handle(requestType, responseType, request, token, serviceFactory);
    assert o.trace == [Enter(id, request, token), Resolve(handlerType), Resolve(handlerType)];
    assert o.trace[1..][1..][1..] == [];
  }

  /** Every behavior and the handler of a chain whose closures all captured one request
      and one token receive exactly that request and that token. */
  lemma {:induction false} SameRequestAndTokenEverywhere(d: RequestHandlerDelegate, request: Request,
                                                        token: CancellationToken)
    requires Captures(d, request, token)
    ensures forall i :: 0 <= i < |Invoke(d).trace| ==> ReceivedWith(Invoke(d).trace[i], request, token)
  {
    match d
    case HandlerCall(_, _, _, _) =>
    case PipelineCall(b, _, _, next) =>
      SameRequestAndTokenEverywhere(next, request, token);
      var inner := Invoke(next);
      var o := Invoke(d);
      var head := [Enter(b.id, request, token)];
      assert o == BehaviorHandle(b, request, token, next);
      match b
      case PassThrough(id) =>
        var tail := if inner.result.Success? then [Leave(id)] else [];
        assert o.trace == head + inner.trace + tail;
        assert forall i :: 0 <= i < |tail| ==> ReceivedWith(tail[i], request, token);
        forall i | 0 <= i < |o.trace| ensures ReceivedWith(o.trace[i], request, token) {
          if i == 0 {
          } else if i <= |inner.trace| {
            assert o.trace[i] == inner.trace[i - 1];
          } else {
            assert o.trace[i] == tail[i - 1 - |inner.trace|];
          }
        }
      case Recover(id, _) =>
        assert o.trace == head + inner.trace;
        forall i | 0 <= i < |o.trace| ensures ReceivedWith(o.trace[i], request, token) {
          if i > 0 {
            assert o.trace[i] == inner.trace[i - 1];
          }
        }
      case Retry(id) =>
        var again := if inner.result.Success? then [] else inner.trace;
        assert o.trace == head + inner.trace + again;
        forall i | 0 <= i < |o.trace| ensures ReceivedWith(o.trace[i], request, token) {
          if i == 0 {
          } else if i <= |inner.trace| {
            assert o.trace[i] == inner.trace[i - 1];
          } else {
            assert o.trace[i] == inner.trace[i - 1 - |inner.trace|];
          }
        }
      case ShortCircuit(_, _) =>
      case Fail(_, _) =>
  }

  /** `Handle` hands its own request and token to every link. */
  lemma HandlePassesRequestAndToken(requestType: TypeName, responseType: TypeName, request: Request,
                                    token: CancellationToken, serviceFactory: ServiceFactory)
    ensures var o := Handle(requestType, responseType, request, token, serviceFactory);
      forall i :: 0 <= i < |o.trace| ==> ReceivedWith(o.trace[i], request, token)
  {
    if serviceFactory.behaviors.Success? {
      var seed := HandlerSeed(requestType, responseType, request, token, serviceFactory);
      SameRequestAndTokenEverywhere(Nest(serviceFactory.behaviors.value, request, token, seed), request, token);
    }
  }

  /** `Handle` resolves the handler at most once per call when no behavior calls `next` twice. */
  lemma HandleResolvesAtMostOnce(requestType: TypeName, responseType: TypeName, request: Request,
                                 token: CancellationToken, serviceFactory: ServiceFactory)
    requires serviceFactory.behaviors.Success? ==> NoRetry(serviceFactory.behaviors.value)
    ensures Resolutions(Handle(requestType, responseType, request, token, serviceFactory).trace) <= 1
  {
    if serviceFactory.behaviors.Success? {
      var seed := HandlerSeed(requestType, responseType, request, token, serviceFactory);
      ResolvedAtMostOnce(Nest(serviceFactory.behaviors.value, request, token, seed));
    }
  }

  /** Because resolution happens inside the chain, an outer behavior that catches
      exceptions also catches a resolution failure. */
  lemma RecoverCatchesResolutionError(requestType: TypeName, responseType: TypeName, request: Request,
                                      token: CancellationToken, serviceFactory: ServiceFactory,
                                      id: BehaviorId, fallback: Response, inner: seq<Behavior>)
    requires serviceFactory.behaviors == Success([Recover(id, fallback)] + inner)
    requires AllPassThrough(inner)
    requires !serviceFactory.handler.Instance?
    ensures Handle(requestType, responseType, request, token, serviceFactory).result == Success(fallback)
  {
    var seed := HandlerSeed(requestType, responseType, request, token, serviceFactory);
    var bs := [Recover(id, fallback)] + inner;
    assert bs[0] == Recover(id, fallback) && bs[1..] == inner;
    PassThroughChain(inner, request, token, seed);
    assert Nest(bs, request, token, seed) == PipelineCall(Recover(id, fallback), request, token, Nest(inner, request, token, seed));
    assert Invoke(Nest(inner, request, token, seed)).result.Failure?;
    assert Invoke(Nest(bs, request, token, seed)) == BehaviorHandle(Recover(id, fallback), request, token, Nest(inner, request, token, seed));
    assert Handle(requestType, responseType, request, token, serviceFactory) == Invoke(Nest(bs, request, token, seed));
  }
}
