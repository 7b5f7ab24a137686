/** What all queue drivers share: payload encoding, the handler registry and the execution of one job. */
module QueueCore {
  import opened Common

  datatype Error =
    | HandlerNotFound(name: string)
    | MarshalFailed
    | BufferFull
    | Disabled
    | StoreFailed

  /** A payload as a caller hands it in; `Value` is any other Go value with its JSON encoding, if it has one. */
  datatype Payload = Nil | Raw(bytes: Bytes) | Text(text: Bytes) | Value(json: Option<Bytes>)

  /** The bytes of "{}". */
  const EMPTY_OBJECT: Bytes := [123, 125]

  function MarshalPayload(p: Payload): (r: Result<Bytes, Error>)
    ensures r.Err? <==> p == Value(None)
    ensures p == Nil ==> r == Ok(EMPTY_OBJECT)
    ensures forall b :: p == Raw(b) || p == Text(b) || p == Value(Some(b)) ==> r == Ok(b)
  {
    match p
    case Nil => Ok(EMPTY_OBJECT)
    case Raw(b) => Ok(b)
    case Text(b) => Ok(b)
    case Value(None) => Err(MarshalFailed)
    case Value(Some(b)) => Ok(b)
  }

  /** A registered handler is known by a number; what it does is left open. */
  type Handlers = map<string, nat>

  datatype Call = Call(handler: nat, payload: Bytes)

  /** The handler calls that executing one job makes: one, or none when no handler has its name. */
  function CallsOf(handlers: Handlers, name: string, payload: Bytes): seq<Call> {
    if name in handlers then [Call(handlers[name], payload)] else []
  }

  class Registry {
    var handlers: Handlers
    /** All handler calls so far, in order. */
    ghost var calls: seq<Call>

    constructor ()
      ensures handlers == map[] && calls == []
    {
      handlers := map[];
      calls := [];
    }

    method Register(name: string, handler: nat)
      modifies this`handlers
      ensures handlers == old(handlers)[name := handler]
    {
      handlers := handlers[name := handler];
    }

    method Get(name: string) returns (handler: Option<nat>)
      ensures handler.Some? <==> name in handlers
      ensures handler.Some? ==> handler.value == handlers[name]
    {
      handler := if name in handlers then Some(handlers[name]) else None;
    }
  }

  /** `returned` is what the handler returns if there is one to call. */
  method ExecuteJob(registry: Registry, name: string, payload: Bytes, returned: Option<Error>)
    returns (err: Option<Error>)
    modifies registry`calls
    ensures registry.calls == old(registry.calls) + CallsOf(registry.handlers, name, payload)
    ensures name in registry.handlers ==>
              registry.calls == old(registry.calls) + [Call(registry.handlers[name], payload)]
    ensures name !in registry.handlers ==> registry.calls == old(registry.calls)
    ensures err == if name in registry.handlers then returned else Some(HandlerNotFound(name))
  {
    var handler := registry.Get(name);
    if handler.None? {
      return Some(HandlerNotFound(name));
    }
    registry.calls := registry.calls + [Call(handler.value, payload)];
    err := returned;
  }
}
