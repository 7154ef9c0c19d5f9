# MediatR request pipeline: handler resolution and behavior composition

This project models the request-pipeline engine of MediatR,
`src/MediatR/Internal/RequestHandlerWrapper.cs`, and proves what it promises.

- `RequestHandlerBase.GetHandler` asks the service container for the one
  `IRequestHandler<TRequest, TResponse>`. The lookup can end three ways, and each
  gets its own outcome. If the container throws, the result is a construction error
  that keeps the thrown exception as its inner exception. If it returns null, the
  result is a distinct "not found" error with no inner exception. If it returns an
  instance, that instance is returned.
- `RequestHandlerWrapperImpl.Handle` first fetches the pipeline behaviors, all at
  once. It reverses the list and folds it with `Aggregate`. The seed is the local
  function `Handler()`, and each step wraps the accumulated `next` in a closure that
  calls `pipeline.Handle(request, cancellationToken, next)`. Then it invokes the
  outermost delegate once.

## How the model is built

- **Files.** `mediatr_types.dfy` holds the values: requests, tokens, exceptions,
  container lookups, behaviors, handlers, and trace events. `linq.dfy` holds LINQ's
  `Reverse` and `Aggregate`. `request_handler_wrapper.dfy` holds `GetHandler`, the
  delegates and how they run, and `Handle`. `pipeline_properties.dfy` holds the
  lemmas about running the pipeline.
- **Closures as data.** The closures are written as a datatype,
  `RequestHandlerDelegate`. `HandlerCall` is the local function `Handler()` together
  with what it captures: the container's handler lookup, the request and the token.
  `PipelineCall` is the `Aggregate` lambda's closure: the behavior, the request, the
  token and `next`. `Invoke` runs a delegate. It returns an `Outcome`: a trace of
  events plus a response or an exception.
- **Resolution is a trace event.** Resolving the handler writes a `Resolve` event
  into the trace, at the moment `Handler()` calls `GetHandler`. This is how the
  proofs can talk about laziness.
- **The literal fold.** `Handle` runs `Aggregate(Reverse(behaviors), Handler, step)`
  exactly as the code does. `AggregateReversedIsNest` proves that this equals the
  right fold `Nest` over the registration order, so the first-registered behavior is
  the outermost one.
- **Behaviors.** A behavior is one of five kinds:
  - `PassThrough` logs on entry, awaits `next`, and logs on a successful exit.
  - `ShortCircuit` answers without calling `next`.
  - `Fail` throws without calling `next`.
  - `Recover` awaits `next` and replaces an exception with a fallback response.
  - `Retry` awaits `next` and, if it throws, awaits `next` a second time.
- **Handlers.** A handler either responds with a value or throws.

**Two facts about the code that the model keeps.**
- This file has no ambiguous-binding check: `GetInstance` returns one instance.
- Both resolution errors name the handler service type,
  `typeof(IRequestHandler<TRequest, TResponse>)`, not the request type. So both carry
  a `HandlerType` built from the wrapper's request and response type names.

## Model

| member | source | states |
|---|---|---|
| MediatRTypes.InnerException | src/MediatR/Internal/RequestHandlerWrapper.cs:18-28 | Of the errors the model distinguishes, only a construction error carries an inner exception, and that inner exception is the original cause. The "not found" error has none. |
| RequestHandlerWrapper.GetHandler | src/MediatR/Internal/RequestHandlerWrapper.cs:10-32 | It succeeds exactly when the lookup yields an instance, and then returns that same instance. A throwing lookup, and only a throwing lookup, gives a construction error. That error names the handler type and its inner exception is exactly the thrown one, so it is never reported as "not found". A null lookup, and only a null lookup, gives a "not found" error with no inner exception. |
| RequestHandlerWrapper.HandleRequest | src/MediatR/Internal/RequestHandlerWrapper.cs:55 | The handler receives the request and the token. Its response or its exception is the result. |
| RequestHandlerWrapper.RunHandler | src/MediatR/Internal/RequestHandlerWrapper.cs:52-56 | `Handler()` resolves the handler first, exactly once. With an instance, it then runs that handler, and the handler's result comes back unchanged. Without one, nothing else runs, and the result is `GetHandler`'s own error, not wrapped again. |
| Linq.Reverse | src/MediatR/Internal/RequestHandlerWrapper.cs:78 | The result has the same length, and element i is element n-1-i of the input. |
| Linq.Aggregate | src/MediatR/Internal/RequestHandlerWrapper.cs:79 | `Enumerable.Aggregate` is a left fold. An empty source gives the seed. Otherwise the step is applied last to the final element, over the fold of all the earlier ones. |
| Linq.AggregateSnoc | src/MediatR/Internal/RequestHandlerWrapper.cs:79-84 | `Aggregate` is a left fold: folding one more element at the end applies the step once more, to the accumulated value. |
| RequestHandlerWrapper.AggregateReversedIsNest | src/MediatR/Internal/RequestHandlerWrapper.cs:76-84 | A left fold over the reversed behaviors, seeded with `Handler`, equals the right fold `Nest` over the behaviors in registration order. |
| RequestHandlerWrapper.Invoke | src/MediatR/Internal/RequestHandlerWrapper.cs:85 | Invoking a delegate (`()` at line 85, and each `next()` a behavior makes) runs its outermost link first: the handler delegate starts by resolving the handler, a behavior delegate starts by entering that behavior with its captured request and token. |
| RequestHandlerWrapper.BehaviorHandle | src/MediatR/Internal/RequestHandlerWrapper.cs:82 | `pipeline.Handle(request, cancellationToken, next)`, defining the five behavior kinds. The behavior is always entered first with the request and the token. A short-circuiting or throwing behavior never runs `next`, and its response or exception is the result. A recovering behavior never fails. |
| RequestHandlerWrapper.BehaviorUsesNext | src/MediatR/Internal/RequestHandlerWrapper.cs:82 | A pass-through or retrying behavior returns `next`'s result. A recovering behavior keeps a success of `next`. A retrying behavior whose `next` failed runs `next` a second time, so the trace holds `next`'s events twice. |
| RequestHandlerWrapper.Nest | src/MediatR/Internal/RequestHandlerWrapper.cs:80-83 | The reference right fold. The composed chain lists the behaviors outermost-first, in registration order, above the seed. The seed stays innermost. If the seed captured the request and the token, every closure in the chain captured those same two. |
| RequestHandlerWrapper.Step | src/MediatR/Internal/RequestHandlerWrapper.cs:81-83 | The `Aggregate` lambda. Each step puts its behavior outermost over the accumulated `next` and keeps the innermost delegate. If `next` captured the request and the token, so does the new closure. |
| RequestHandlerWrapper.BuildPipeline | src/MediatR/Internal/RequestHandlerWrapper.cs:76-84 | Building the chain runs nothing and returns a delegate. It equals `Nest`: the links are the behaviors in registration order, the `Handler` seed is innermost, and every link captured the same request and token. |
| RequestHandlerWrapper.Handle | src/MediatR/Internal/RequestHandlerWrapper.cs:45-86 | If `GetInstances` throws, that exception is the outcome, before any behavior or the handler runs. Otherwise the outcome is exactly one invocation of the right-fold chain around `Handler`. |
| PipelineProperties.PassThroughChain | src/MediatR/Internal/RequestHandlerWrapper.cs:81-83 | Pass-through behaviors around any delegate add their entries before its events, in registration order. They add their exits after its events, in reverse order, but only if it succeeded. Its result, a value or an exception, comes out unchanged. |
| PipelineProperties.OnionOrder | src/MediatR/Internal/RequestHandlerWrapper.cs:76-85 | For pass-through behaviors B1..Bn and a responding handler, the trace is exactly B1..Bn entered, then the handler resolved and run, then Bn..B1 left. The response is the handler's response. |
| PipelineProperties.OnionOrderThree | src/MediatR/Internal/RequestHandlerWrapper.cs:76-85 | Three pass-through behaviors give exactly the trace [B1, B2, B3, resolve, H, B3, B2, B1]. |
| PipelineProperties.NoBehaviorsIsDirectCall | src/MediatR/Internal/RequestHandlerWrapper.cs:52-85 | With no behaviors, `Handle` is the same as resolving the handler and calling it directly. |
| PipelineProperties.ErrorsPassThrough | src/MediatR/Internal/RequestHandlerWrapper.cs:45-86 | Through pass-through behaviors, every error reaches the caller unmodified. A throwing container gives exactly the construction error around its cause. A null lookup gives exactly the "not found" error. A throwing handler gives exactly its own exception. |
| PipelineProperties.ShortCircuitStops | src/MediatR/Internal/RequestHandlerWrapper.cs:52-85 | A behavior that does not call `next` ends the call. This row's exact trace is for pass-through behaviors before it: they are entered and then left. The inner behaviors and the handler never run. The handler is never resolved, so the outcome is the same whatever the container would answer. The behavior's value is the response. |
| PipelineProperties.FailingBehaviorPropagates | src/MediatR/Internal/RequestHandlerWrapper.cs:81-85 | Take a behavior that throws without calling `next`, with only pass-through behaviors before it. Its exception is the outcome, unmodified, and nothing inside it runs. |
| PipelineProperties.SameNextSameOutcome | src/MediatR/Internal/RequestHandlerWrapper.cs:81-83 | A behavior sees only the outcome of its `next`. Two inner delegates with the same outcome give any chain around them the same outcome. |
| PipelineProperties.StoppingBehaviorCutsChain | src/MediatR/Internal/RequestHandlerWrapper.cs:81-85 | Whatever behaviors stand before it, a behavior that answers or throws without calling `next` cuts the chain there. The behaviors after it and the handler delegate make no difference to the outcome. |
| PipelineProperties.LazyResolution | src/MediatR/Internal/RequestHandlerWrapper.cs:52-83 | Take a composed chain whose run never resolved the handler. It has the same outcome whatever the container would have answered. |
| PipelineProperties.HandleResolvesLazily | src/MediatR/Internal/RequestHandlerWrapper.cs:52-85 | The same for `Handle`: a call that did not resolve the handler does not depend on the handler lookup, so no resolution error can have occurred. |
| PipelineProperties.ResolvedAtMostOnce | src/MediatR/Internal/RequestHandlerWrapper.cs:52-83 | If no behavior of a delegate can call `next` more than once (none retries), invoking it resolves the handler at most once. |
| PipelineProperties.HandleResolvesAtMostOnce | src/MediatR/Internal/RequestHandlerWrapper.cs:52-85 | If no behavior can call `next` more than once (none retries), one `Handle` call resolves the handler at most once. |
| PipelineProperties.RetryResolvesAgain | src/MediatR/Internal/RequestHandlerWrapper.cs:52-56 | `Handler()` caches nothing. A behavior that calls `next` again after a resolution failure resolves the handler a second time: the trace is entry, resolve, resolve, and the result is `GetHandler`'s error. |
| PipelineProperties.SameRequestAndTokenEverywhere | src/MediatR/Internal/RequestHandlerWrapper.cs:55-83 | Take a chain whose closures all captured one request and one token. Every behavior entry and every handler call it runs receives exactly that request and that token. |
| PipelineProperties.HandlePassesRequestAndToken | src/MediatR/Internal/RequestHandlerWrapper.cs:45-85 | Every behavior and the handler that `Handle` runs receive `Handle`'s own request and cancellation token. |
| PipelineProperties.RecoverCatchesResolutionError | src/MediatR/Internal/RequestHandlerWrapper.cs:52-83 | Resolution happens inside the chain. So an outer behavior that catches exceptions also catches a construction error or a "not found" error, and its fallback becomes the response. |

## Left out

- Asynchrony: each `Task` is modelled as its completed result. There is no scheduling, no `await` interleaving and no concurrency.
- Cancellation: `CancellationToken` is an opaque value that is only passed along. Nothing observes or acts on it.
- The service container: `ServiceFactory` is given as the outcome of its two lookups. One is the handler lookup (throws, null or instance). The other is the behavior list, or the exception `GetInstances` throws. That exception is passed through with no classification, since the code does not wrap it. Construction, scoping and registration are not modelled.
- Exceptions raised by the container, a behavior or a handler (`Raised`) are opaque codes. Their own `InnerException` is not modelled, so `InnerException` speaks only about the two errors `GetHandler` builds.
- Null services: a null entry in the behavior list would make `pipeline.Handle` at line 82 throw `NullReferenceException`. That would happen lazily, when the chain reaches that link, with no `Enter` event, and an outer behavior could catch it. A null enumerable from `GetInstances` would make `.Reverse()` at line 78 throw. Neither case is represented: the behavior list holds only behaviors.
- Generics and exception text: type arguments and `typeof(...)` are modelled as type-name strings. The two `InvalidOperationException` messages are modelled as the error kinds `ConstructionError` and `NotFoundError`.
- The `(TRequest)` casts at lines 55 and 82 are not modelled. The request is passed through unchanged, and the `InvalidCastException` such a cast could throw is not represented.
- Behavior and handler code: arbitrary user code is not modelled. A behavior is one of five representative kinds (pass-through, short-circuit, throw, recover, retry), and a handler either responds or throws.
- ResolvedAtMostOnce: the at-most-once bound is stated only for chains with no behavior that can call `next` more than once (no `Retry`), even though a `Retry` whose first `next` succeeds also calls it only once. In the source, a behavior that calls `next` twice resolves the handler twice, because `Handler()` calls `GetHandler` on every call; `RetryResolvesAgain` shows this.
- HandleResolvesAtMostOnce: the same restriction, for a whole `Handle` call.
- RetryResolvesAgain: within one `Handle` call the container and the handler give the same answer every time they are asked. `ServiceFactory.handler` is one lookup outcome and a handler always responds or always throws. So a retry repeats the first outcome, and the lemma's "the result is `GetHandler`'s error" relies on this. In the source, the second `next()` runs `Handler()` again, and a failure that is transient in the container or the handler could succeed the second time.
- BehaviorUsesNext: for the same reason, its retry clause "returns `next`'s result" means a retry can never turn a failure into a success in this model. A lookup or handler that answers differently on later calls is not modelled.
- The unused `handler` delegate and `combineFunc` (lines 59-73) are never invoked, so they are not modelled.
- Ambiguous bindings: this file never detects a second handler binding. `GetInstance` returns one instance, so no such check is modelled.
- Choosing the wrapper by the request's runtime type happens in the mediator, which is not part of this model. Here `Handle` receives the wrapper's request and response type names as parameters.
