/** The values a request travels with through the request pipeline: requests,
    cancellation tokens, exceptions, what the service container hands back,
    the pipeline behaviors and handlers, and the observable trace of one call. */
module MediatRTypes {

  datatype Option<+T> = None | Some(value: T)

  /** A synchronous stand-in for a completed `Task<T>`: a value or a thrown exception. */
  datatype Result<+T, +E> = Success(value: T) | Failure(error: E)

  /** The name of a .NET type, as `typeof(...)` would print it. */
  type TypeName = string

  /** `IRequestHandler<TRequest, TResponse>`: the service type asked of the container. */
  datatype HandlerType = RequestHandlerOf(requestType: TypeName, responseType: TypeName)

  /** A request instance; only its identity matters to the pipeline. */
  datatype Request = Request(typeName: TypeName, payload: int)

  /** An opaque cancellation token: the pipeline never looks inside, it only passes it on. */
  datatype CancellationToken = CancellationToken(id: nat, canceled: bool)

  type Response = int

  /** Exceptions. The two resolution failures are `InvalidOperationException`s that
      differ by message and by whether they carry an inner exception; every other
      exception (thrown by the container, a behavior or a handler) is `Raised`. */
  datatype Exception =
    | ConstructionError(handlerType: HandlerType, inner: Exception)
    | NotFoundError(handlerType: HandlerType)
    | Raised(code: nat)

  /** `Exception.InnerException`. */
  function InnerException(e: Exception): (r: Option<Exception>)
    ensures r.Some? <==> e.ConstructionError?
    ensures e.ConstructionError? ==> r.value == e.inner
  {
    match e
    case ConstructionError(_, cause) => Some(cause)
    case _ => None
  }

  /** How one `ServiceFactory.GetInstance<T>` call can end. */
  datatype Lookup<+T> = Throws(cause: Exception) | Null | Instance(instance: T)

  /** What the service container yields for one wrapper: the handler lookup
      (run lazily, inside the chain) and the outcome of the eager
      `GetInstances<IPipelineBehavior<TRequest, TResponse>>` call, in registration order. */
  datatype ServiceFactory = ServiceFactory(
    handler: Lookup<RequestHandler>,
    behaviors: Result<seq<Behavior>, Exception>)

  type BehaviorId = nat

  /** An `IPipelineBehavior<TRequest, TResponse>` instance, by what its `Handle` does:
      - PassThrough logs that it was entered, awaits `next()`, and on success logs that it left;
      - ShortCircuit returns its own response without calling `next`;
      - Fail throws its exception without calling `next`;
      - Recover awaits `next()` and replaces a thrown exception by its fallback response;
      - Retry awaits `next()` and, when it throws, awaits `next()` a second time. */
  datatype Behavior =
    | PassThrough(id: BehaviorId)
    | ShortCircuit(id: BehaviorId, response: Response)
    | Fail(id: BehaviorId, error: Exception)
    | Recover(id: BehaviorId, fallback: Response)
    | Retry(id: BehaviorId)

  /** An `IRequestHandler<TRequest, TResponse>` instance, by what its `Handle` does. */
  datatype RequestHandler = Responds(response: Response) | Raises(error: Exception)

  /** Observable effects, in the order they happen. */
  datatype Event =
    | Enter(behavior: BehaviorId, request: Request, token: CancellationToken)
    | Leave(behavior: BehaviorId)
    | Resolve(handlerType: HandlerType)
    | Handled(request: Request, token: CancellationToken)

  /** The effect and the outcome of running (a part of) the pipeline. */
  datatype Outcome = Outcome(trace: seq<Event>, result: Result<Response, Exception>)

  /** The event was received with exactly this request and token (events that carry none agree trivially). */
  predicate ReceivedWith(e: Event, request: Request, token: CancellationToken)
  {
    match e
    case Enter(_, r, t) => r == request && t == token
    case Handled(r, t) => r == request && t == token
    case _ => true
  }

  /** Number of handler resolutions recorded in a trace. */
  function Resolutions(trace: seq<Event>): (n: nat)
    ensures n <= |trace|
    ensures n == 0 <==> forall i :: 0 <= i < |trace| ==> !trace[i].Resolve?
  {
    if trace == [] then 0
    else (if trace[0].Resolve? then 1 else 0) + Resolutions(trace[1..])
  }

  lemma {:induction false} ResolutionsAppend(a: seq<Event>, b: seq<Event>)
    ensures Resolutions(a + b) == Resolutions(a) + Resolutions(b)
  {
    if a != [] {
      assert (a + b)[1..] == a[1..] + b;
      ResolutionsAppend(a[1..], b);
    } else {
      assert a + b == b;
    }
  }
}
