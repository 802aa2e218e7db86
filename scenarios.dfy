/** The repository's unit tests, restated as facts about the model with the
    kinds they use. An int-valued `TResult` has default `0`. */
module Scenarios {
  import opened Exceptions
  import opened Results
  import opened ErrorOrTry

  const ArgumentKind: Kind := "System.ArgumentException"
  const InvalidOperationKind: Kind := "System.InvalidOperationException"

  function Argument(): Exn
  {
    Exn(ArgumentKind, "")
  }

  /** The cast target of the handler tests, which bind `TException` to
      `InvalidOperationException`. */
  const InvalidOperationTarget: Target := AssignableFrom({InvalidOperationKind})

  /** The handler the tests pass: `ex => new InvalidOperationException(ex.Message)`. */
  function ToInvalidOperation(ex: Exn): Option<Exn>
  {
    Some(Exn(InvalidOperationKind, ex.message))
  }

  /** Actions: null on completion; the raised exception with no filter or a
      matching one; the handler's replacement; a rethrow when the filter
      names another kind. */
  lemma ActionScenarios()
    ensures Try(Completed(()), Some([])) == Returned(None)
    ensures Try(Raised(Argument()), Some([])) == Returned(Some(Argument()))
    ensures Try(Raised(Argument()), Some([ArgumentKind])) == Returned(Some(Argument()))
    ensures Try(Raised(Argument()), Some([InvalidOperationKind])) == Rethrown(Argument())
    ensures TryWithHandler(Raised(Argument()), ToInvalidOperation, InvalidOperationTarget).value.value.kind
            == InvalidOperationKind
  {
  }

  /** Functions returning int: `(null, 1)` on completion; `(exception, 0)`
      when captured, with the handler's replacement when one is given; a
      rethrow when the filter names another kind. */
  lemma FuncScenarios()
    ensures TryFunc(Completed(1), Some([]), 0).value.Deconstruct() == (None, 1)
    ensures TryFunc(Raised(Argument()), Some([]), 0).value.Deconstruct() == (Some(Argument()), 0)
    ensures TryFunc(Raised(Argument()), Some([ArgumentKind]), 0).value.Deconstruct() == (Some(Argument()), 0)
    ensures TryFunc(Raised(Argument()), Some([InvalidOperationKind]), 0) == Rethrown(Argument())
    ensures var (error, number) := TryFuncWithHandler(Raised(Argument()), ToInvalidOperation, 0).value.Deconstruct();
            error.Some? && error.value.kind == InvalidOperationKind && number == 0
  {
  }

  /** The asynchronous action tests: the same answers on the awaited
      outcome, including the handler's replacement. */
  lemma AsyncActionScenarios()
    ensures TryAsync(Raised(Argument()), Some([])) == Returned(Some(Argument()))
    ensures TryAsync(Completed(()), Some([])) == Returned(None)
    ensures TryAsyncWithHandler(Raised(Argument()), ToInvalidOperation, InvalidOperationTarget).value.value.kind
            == InvalidOperationKind
    ensures TryAsync(Raised(Argument()), Some([ArgumentKind])) == Returned(Some(Argument()))
    ensures TryAsync(Raised(Argument()), Some([InvalidOperationKind])) == Rethrown(Argument())
  {
  }

  /** The asynchronous function tests: `(null, 1)`, `(exception, 0)`, the
      handler's replacement with `0`, and a rethrow when the filter names
      another kind. */
  lemma AsyncFuncScenarios()
    ensures TryAsyncFunc(Completed(1), Some([]), 0).value.Deconstruct() == (None, 1)
    ensures TryAsyncFunc(Raised(Argument()), Some([]), 0).value.Deconstruct() == (Some(Argument()), 0)
    ensures var (error, number) := TryAsyncFuncWithHandler(Raised(Argument()), ToInvalidOperation, 0).value.Deconstruct();
            error.Some? && error.value.kind == InvalidOperationKind && number == 0
    ensures TryAsyncFunc(Raised(Argument()), Some([ArgumentKind]), 0).value.Deconstruct() == (Some(Argument()), 0)
    ensures TryAsyncFunc(Raised(Argument()), Some([InvalidOperationKind]), 0) == Rethrown(Argument())
  {
  }
}
