/** `RequestHandlerBase.GetHandler` and `RequestHandlerWrapperImpl.Handle`:
    resolving the one handler of a request with failure classification, and
    composing the pipeline behaviors around it with `Reverse` and `Aggregate`
    before invoking the composed delegate once. */
module RequestHandlerWrapper {
  import opened MediatRTypes
  import opened Linq

  /** `GetHandler<THandler>`: a thrown lookup becomes a construction error that keeps
      the thrown exception as its cause, a null lookup a distinct "not found" error with
      no cause, and an instance is returned as it is. */
  function GetHandler<THandler>(handlerType: HandlerType, lookup: Lookup<THandler>): (r: Result<THandler, Exception>)
    ensures r.Success? <==> lookup.Instance?
    ensures lookup.Instance? ==> r.value == lookup.instance
    ensures (r.Failure? && r.error.ConstructionError?) <==> lookup.Throws?
    ensures lookup.Throws? ==> r.error.handlerType == handlerType && InnerException(r.error) == Some(lookup.cause)
    ensures (r.Failure? && r.error.NotFoundError?) <==> lookup.Null?
    ensures lookup.Null? ==> r.error.handlerType == handlerType && InnerException(r.error) == None
  {
    match lookup
    case Throws(e) => Failure(ConstructionError(handlerType, e))
    case Null => Failure(NotFoundError(handlerType))
    case Instance(handler) => Success(handler)
  }

  /** `IRequestHandler.Handle(request, cancellationToken)`. */
  function HandleRequest(handler: RequestHandler, request: Request, token: CancellationToken): (o: Outcome)
    ensures o.trace == [Handled(request, token)]
    ensures o.result.Success? <==> handler.Responds?
    ensures handler.Responds? ==> o.result.value == handler.response
    ensures handler.Raises? ==> o.result.error == handler.error
  {
    match handler
    case Responds(v) => Outcome([Handled(request, token)], Success(v))
    case Raises(e) => Outcome([Handled(request, token)], Failure(e))
  }

  /** The local function `Handler()`: resolve the handler only now, then let it handle
      the request. A resolution failure is the outcome as `GetHandler` produced it. */
  function RunHandler(handlerType: HandlerType, lookup: Lookup<RequestHandler>,
                      request: Request, token: CancellationToken): (o: Outcome)
    ensures |o.trace| >= 1 && o.trace[0] == Resolve(handlerType) && Resolutions(o.trace) == 1
    ensures lookup.Instance? ==>
      var h := HandleRequest(lookup.instance, request, token);
      o.trace[1..] == h.trace && o.result == h.result
    ensures !lookup.Instance? ==> o.trace == [Resolve(handlerType)] && o.result == Failure(GetHandler(handlerType, lookup).error)
  {
    var resolved := GetHandler(handlerType, lookup);
    match resolved
    case Failure(e) => Outcome([Resolve(handlerType)], Failure(e))
    case Success(handler) =>
      var h := HandleRequest(handler, request, token);
      assert Resolutions(h.trace) == 0;
      ResolutionsAppend([Resolve(handlerType)], h.trace);
      Outcome([Resolve(handlerType)] + h.trace, h.result)
  }

  /** A `RequestHandlerDelegate<TResponse>`, as the closure it is:
      - HandlerCall is `Handler` itself, capturing the service factory's handler
        lookup, the request and the token;
      - PipelineCall is `() => pipeline.Handle(request, cancellationToken, next)`. */
  datatype RequestHandlerDelegate =
    | HandlerCall(handlerType: HandlerType, lookup: Lookup<RequestHandler>,
                  request: Request, token: CancellationToken)
    | PipelineCall(pipeline: Behavior, request: Request, token: CancellationToken,
                   next: RequestHandlerDelegate)

  /** Invoking a delegate: the outermost link runs first. */
  function Invoke(d: RequestHandlerDelegate): (r: Outcome)
    ensures |r.trace| >= 1
    ensures d.HandlerCall? ==> r.trace[0] == Resolve(d.handlerType)
    ensures d.PipelineCall? ==> r.trace[0] == Enter(d.pipeline.id, d.request, d.token)
    decreases d, 0
  {
    match d
    case HandlerCall(handlerType, lookup, request, token) => RunHandler(handlerType, lookup, request, token)
    case PipelineCall(pipeline, request, token, next) => BehaviorHandle(pipeline, request, token, next)
  }

  /** `IPipelineBehavior.Handle(request, cancellationToken, next)`: the behavior is entered with
      the request and the token, and `next` is run as many times as the behavior calls it. */
  function BehaviorHandle(behavior: Behavior, request: Request, token: CancellationToken,
                          next: RequestHandlerDelegate): (r: Outcome)
    ensures |r.trace| >= 1 && r.trace[0] == Enter(behavior.id, request, token)
    ensures (behavior.ShortCircuit? || behavior.Fail?) ==> r.trace == [Enter(behavior.id, request, token)]
    ensures behavior.ShortCircuit? ==> r.result == Success(behavior.response)
    ensures behavior.Fail? ==> r.result == Failure(behavior.error)
    ensures behavior.Recover? ==> r.result.Success?
    decreases next, 1
  {
    match behavior
    case PassThrough(id) =>
      var inner := Invoke(next);
      Outcome([Enter(id, request, token)] + inner.trace + (if inner.result.Success? then [Leave(id)] else []),
              inner.result)
    case ShortCircuit(id, v) => Outcome([Enter(id, request, token)], Success(v))
    case Fail(id, e) => Outcome([Enter(id, request, token)], Failure(e))
    case Recover(id, v) =>
      var inner := Invoke(next);
      Outcome([Enter(id, request, token)] + inner.trace,
              if inner.result.Failure? then Success(v) else inner.result)
    case Retry(id) =>
      var first := Invoke(next);
      if first.result.Success? then Outcome([Enter(id, request, token)] + first.trace, first.result)
      else
        var second := Invoke(next);
        Outcome([Enter(id, request, token)] + first.trace + second.trace, second.result)
  }

  /** How a behavior that calls `next` uses its outcome: pass-through and retrying
      behaviors return what `next` returned, a recovering behavior keeps a success of
      `next`, and a retrying behavior whose `next` failed runs `next` a second time. */
  lemma BehaviorUsesNext(behavior: Behavior, request: Request, token: CancellationToken,
                         next: RequestHandlerDelegate)
    ensures var r := BehaviorHandle(behavior, request, token, next);
      && ((behavior.PassThrough? || behavior.Retry?) ==> r.result == Invoke(next).result)
      && (behavior.Recover? && Invoke(next).result.Success? ==> r.result == Invoke(next).result)
      && (behavior.Retry? && Invoke(next).result.Failure? ==>
            r.trace == [Enter(behavior.id, request, token)] + Invoke(next).trace + Invoke(next).trace)
  {
  }

  /** The behaviors a delegate will run, outermost first. */
  function Links(d: RequestHandlerDelegate): (r: seq<Behavior>)
  {
    match d
    case HandlerCall(_, _, _, _) => []
    case PipelineCall(b, _, _, next) => [b] + Links(next)
  }

  /** The delegate at the bottom of the chain. */
  function Innermost(d: RequestHandlerDelegate): (r: RequestHandlerDelegate)
  {
    match d
    case HandlerCall(_, _, _, _) => d
    case PipelineCall(_, _, _, next) => Innermost(next)
  }

  /** Every closure of the chain captured this request and this token. */
  predicate Captures(d: RequestHandlerDelegate, request: Request, token: CancellationToken)
  {
    d.request == request && d.token == token &&
    (d.PipelineCall? ==> Captures(d.next, request, token))
  }

  /** Reference composition, a right fold: the first behavior is the outermost
      delegate, whose `next` is the composition of the rest around `core`. */
  function Nest(behaviors: seq<Behavior>, request: Request, token: CancellationToken,
                core: RequestHandlerDelegate): (r: RequestHandlerDelegate)
    ensures Links(r) == behaviors + Links(core)
    ensures Innermost(r) == Innermost(core)
    ensures Captures(core, request, token) ==> Captures(r, request, token)
  {
    if behaviors == [] then core
    else
      assert behaviors == [behaviors[0]] + behaviors[1..];
      PipelineCall(behaviors[0], request, token, Nest(behaviors[1..], request, token, core))
  }

  /** The `Aggregate` step of `Handle`: wrap the accumulated `next` in a closure calling
      `pipeline`, which becomes the new outermost link. */
  function Step(request: Request, token: CancellationToken): (r: (RequestHandlerDelegate, Behavior) -> RequestHandlerDelegate)
    ensures forall next, pipeline :: Links(r(next, pipeline)) == [pipeline] + Links(next)
    ensures forall next, pipeline :: Innermost(r(next, pipeline)) == Innermost(next)
    ensures forall next, pipeline :: Captures(next, request, token) ==> Captures(r(next, pipeline), request, token)
  {
    (next, pipeline) => PipelineCall(pipeline, request, token, next)
  }

  /** Folding the reversed behaviors from the left is the right fold over the
      behaviors as registered. */
  lemma {:induction false} AggregateReversedIsNest(behaviors: seq<Behavior>, request: Request,
                                                    token: CancellationToken, seed: RequestHandlerDelegate)
    ensures Aggregate(Reverse(behaviors), seed, Step(request, token)) == Nest(behaviors, request, token, seed)
  {
    if behaviors != [] {
      var rest := behaviors[1..];
      assert Reverse(behaviors) == Reverse(rest) + [behaviors[0]];
      AggregateSnoc(Reverse(rest), behaviors[0], seed, Step(request, token));
      AggregateReversedIsNest(rest, request, token, seed);
    }
  }

  /** Building the chain, lines 76-84 without the final call: nothing runs, the result
      is a delegate whose links are the behaviors in registration order, outermost
      first, around the seed, each closure capturing the same request and token. */
  function BuildPipeline(behaviors: seq<Behavior>, seed: RequestHandlerDelegate,
                         request: Request, token: CancellationToken): (d: RequestHandlerDelegate)
    ensures d == Nest(behaviors, request, token, seed)
    ensures seed.HandlerCall? ==> Links(d) == behaviors && Innermost(d) == seed
    ensures Captures(seed, request, token) ==> Captures(d, request, token)
  {
    AggregateReversedIsNest(behaviors, request, token, seed);
    Aggregate(Reverse(behaviors), seed, Step(request, token))
  }

  /** `RequestHandlerWrapperImpl<TRequest, TResponse>.Handle`. A failing `GetInstances`
      surfaces before anything runs; otherwise the composed chain is invoked once and its
      outcome is the response or the exception, unmodified. */
  function Handle(requestType: TypeName, responseType: TypeName, request: Request,
                  token: CancellationToken, serviceFactory: ServiceFactory): (o: Outcome)
    ensures serviceFactory.behaviors.Failure? ==> o == Outcome([], Failure(serviceFactory.behaviors.error))
    ensures serviceFactory.behaviors.Success? ==>
      o == Invoke(Nest(serviceFactory.behaviors.value, request, token,
                       HandlerCall(RequestHandlerOf(requestType, responseType), serviceFactory.handler, request, token)))
  {
    match serviceFactory.behaviors
    case Failure(e) => Outcome([], Failure(e))
    case Success(behaviors) =>
      var handler := HandlerCall(RequestHandlerOf(requestType, responseType), serviceFactory.handler, request, token);
      Invoke(BuildPipeline(behaviors, handler, request, token))
  }
}
