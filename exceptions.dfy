/** The part of the CLR exception machinery that the capture policy depends on:
    exceptions and their exact runtime kinds, what a caller-supplied operation
    did, what a `Try` call does in turn, catch handlers and the downcast
    `(TException)ex`. */
module Exceptions {

  datatype Option<T> = None | Some(value: T)

  /** The exact runtime type of an exception, as `GetType()` returns it,
      named by its full type name. Types are compared by equality only. */
  type Kind = string

  /** A raised exception. Only its kind takes part in filtering; the message
      is carried so that a handler can build a replacement from it. */
  datatype Exn = Exn(kind: Kind, message: string)

  /** What the caller's operation did when it was invoked (and, for the
      asynchronous variants, awaited): completed with a value, or raised. An
      action completes with `()`. */
  datatype Outcome<T> = Completed(value: T) | Raised(ex: Exn)

  /** What a `Try` call itself does: return a value, let the original
      exception escape unchanged (`throw;`), or raise `InvalidCastException`
      because `(TException)ex` was applied to an exception of another kind. */
  datatype Completion<R> = Returned(value: R) | Rethrown(ex: Exn) | InvalidCast(ex: Exn)
  {
    function Map<S>(f: R -> S): Completion<S>
    {
      match this
      case Returned(v) => Returned(f(v))
      case Rethrown(ex) => Rethrown(ex)
      case InvalidCast(ex) => InvalidCast(ex)
    }
  }

  /** A `Func<Exception, TException>`; `None` is a null return. */
  type Handler = Exn -> Option<Exn>

  /** The declared failure type `TException` of a generic overload, as the
      runtime kinds that a cast to it accepts: `Exception` accepts every
      kind, a narrower type its own kind and those of its subclasses. */
  datatype Target = AnyException | AssignableFrom(kinds: set<Kind>)

  predicate Accepts(target: Target, k: Kind)
  {
    target.AnyException? || k in target.kinds
  }

  /** `Enumerable.Contains` over the expected types: a scan that compares
      each listed type with the raised one. */
  function Contains(kinds: seq<Kind>, k: Kind): (found: bool)
    ensures found <==> k in kinds
  {
    if |kinds| == 0 then false
    else kinds[0] == k || Contains(kinds[1..], k)
  }

  /** `handler?.Invoke(ex) ?? (TException)ex`: the handler's replacement when
      a handler is given and returns non-null, otherwise the original
      exception, provided the cast to the target type succeeds. */
  function HandleOrCast(handler: Option<Handler>, ex: Exn, target: Target): (c: Completion<Exn>)
    ensures !c.Rethrown?
    ensures handler.Some? && handler.value(ex).Some? ==> c == Returned(handler.value(ex).value)
    ensures handler.None? || handler.value(ex).None? ==>
              c == if Accepts(target, ex.kind) then Returned(ex) else InvalidCast(ex)
    ensures c.InvalidCast? ==> c.ex == ex
  {
    var replacement := if handler.Some? then handler.value(ex) else None;
    if replacement.Some? then Returned(replacement.value)
    else if Accepts(target, ex.kind) then Returned(ex)
    else InvalidCast(ex)
  }
}
