/** The older capture surface of `ErrorOrValue/ErrorsAsValues.cs`. The
    wanted-exception variants capture every exception; the expected-types
    variant rethrows every exception whose kind is not listed, so an empty
    list captures nothing. */
module ErrorsAsValues {
  import opened Exceptions
  import opened Results

  // ---------------------------------------------------------------------
  // The private helpers

  /** `TryWithWantedException<TResult, TException>(Func<TResult>, wantedException?)`:
      never rethrows; stores the handler's non-null answer, otherwise the
      original exception cast to `TException`. */
  function TryWithWantedException<R>(func: Outcome<R>, wantedException: Option<Handler>,
                                     target: Target, zero: R): (c: Completion<ErrorOr<R>>)
    ensures !c.Rethrown?
    ensures func.Completed? ==> c.Returned? && c.value.IsSuccess() && c.value.Value() == func.value
    ensures func.Raised? && c.Returned? ==> c.value.IsFailure() && c.value.Value() == zero
    ensures func.Raised? && wantedException.Some? && wantedException.value(func.ex).Some? ==>
              c.Returned? && c.value.Error() == wantedException.value(func.ex)
    ensures func.Raised? && (wantedException.None? || wantedException.value(func.ex).None?) ==>
              if Accepts(target, func.ex.kind) then c.Returned? && c.value.Error() == Some(func.ex)
              else c == InvalidCast(func.ex)
  {
    match func
    case Completed(v) => Returned(ErrorOr.Success(v))
    case Raised(ex) => HandleOrCast(wantedException, ex, target).Map(e => ErrorOr.Failure(Some(e), zero))
  }

  /** `TryWithWantedExceptionAsync<TResult, TException>(Func<Task<TResult>>, wantedException?)`. */
  function TryWithWantedExceptionAsync<R>(func: Outcome<R>, wantedException: Option<Handler>,
                                          target: Target, zero: R): (c: Completion<ErrorOr<R>>)
    ensures c == TryWithWantedException(func, wantedException, target, zero)
  {
    match func
    case Completed(v) => Returned(ErrorOr.Success(v))
    case Raised(ex) => HandleOrCast(wantedException, ex, target).Map(e => ErrorOr.Failure(Some(e), zero))
  }

  /** `TryWithExpectedExceptions<TResult>(Func<TResult>, params Type[])`:
      an exception whose exact kind is not listed is rethrown unchanged. */
  function TryWithExpectedExceptions<R>(func: Outcome<R>, expectedExceptions: seq<Kind>,
                                        zero: R): (c: Completion<ErrorOr<R>>)
    ensures !c.InvalidCast?
    ensures func.Completed? ==> c.Returned? && c.value.IsSuccess() && c.value.Value() == func.value
    ensures c.Rethrown? <==> func.Raised? && func.ex.kind !in expectedExceptions
    ensures c.Rethrown? ==> c.ex == func.ex
    ensures func.Raised? && c.Returned? ==>
              c.value.IsFailure() && c.value.Error() == Some(func.ex) && c.value.Value() == zero
  {
    match func
    case Completed(v) => Returned(ErrorOr.Success(v))
    case Raised(ex) =>
      if !Contains(expectedExceptions, ex.kind) then Rethrown(ex)
      else Returned(ErrorOr.Failure(Some(ex), zero))
  }

  // ---------------------------------------------------------------------
  // The public overloads

  /** `Try<TResult>(Func<TResult>)`: `TException` is `Exception`, so every
      exception is captured as it was raised. */
  function TryFunc<R>(func: Outcome<R>, zero: R): (c: Completion<ErrorOr<R>>)
    ensures c.Returned?
    ensures c.value.Error() == (if func.Raised? then Some(func.ex) else None)
    ensures c.value.Value() == if func.Completed? then func.value else zero
  {
    TryWithWantedException(func, None, AnyException, zero)
  }

  /** `Try<TResult, TException>(Func<TResult>, wantedException = default)`. */
  function TryFuncWithWanted<R>(func: Outcome<R>, wantedException: Option<Handler>,
                                target: Target, zero: R): (c: Completion<ErrorOr<R>>)
    ensures !c.Rethrown?
    ensures func.Completed? ==> c == Returned(ErrorOr.Success(func.value))
    ensures func.Raised? && wantedException.Some? && wantedException.value(func.ex).Some? ==>
              c == Returned(ErrorOr.Failure(wantedException.value(func.ex), zero))
    ensures func.Raised? && (wantedException.None? || wantedException.value(func.ex).None?) ==>
              c == if Accepts(target, func.ex.kind) then Returned(ErrorOr.Failure(Some(func.ex), zero))
                   else InvalidCast(func.ex)
    ensures c.InvalidCast? <==>
              func.Raised? && (wantedException.None? || wantedException.value(func.ex).None?)
              && !Accepts(target, func.ex.kind)
  {
    TryWithWantedException(func, wantedException, target, zero)
  }

  /** `Try<TResult>(Func<TResult>, params Type[] expectedExceptions)`. */
  function TryFuncExpecting<R>(func: Outcome<R>, expectedExceptions: seq<Kind>, zero: R): (c: Completion<ErrorOr<R>>)
    ensures func.Completed? ==> c == Returned(ErrorOr.Success(func.value))
    ensures func.Raised? ==>
              c == if func.ex.kind in expectedExceptions then Returned(ErrorOr.Failure(Some(func.ex), zero))
                   else Rethrown(func.ex)
  {
    TryWithExpectedExceptions(func, expectedExceptions, zero)
  }

  /** `TryAsync<TResult>(Func<Task<TResult>>)`. */
  function TryAsyncFunc<R>(func: Outcome<R>, zero: R): (c: Completion<ErrorOr<R>>)
    ensures c == TryFunc(func, zero)
  {
    TryWithWantedExceptionAsync(func, None, AnyException, zero)
  }

  /** `TryAsync<TResult, TException>(Func<Task<TResult>>, wantedException = default)`. */
  function TryAsyncFuncWithWanted<R>(func: Outcome<R>, wantedException: Option<Handler>,
                                     target: Target, zero: R): (c: Completion<ErrorOr<R>>)
    ensures c == TryFuncWithWanted(func, wantedException, target, zero)
  {
    TryWithWantedExceptionAsync(func, wantedException, target, zero)
  }

  /** `Try(Action)`: null on completion, otherwise the raised exception,
      whatever its kind. */
  function TryAction(action: Outcome<()>): (error: Option<Exn>)
    ensures error.None? <==> action.Completed?
    ensures action.Raised? ==> error == Some(action.ex)
  {
    match action
    case Completed(_) => None
    case Raised(ex) => Some(ex)
  }

  /** `TryAsync<TResult>(Func<Task>)`: the asynchronous `Try(Action)`; its
      type parameter is unused. */
  function TryAsyncAction(func: Outcome<()>): (error: Option<Exn>)
    ensures error == TryAction(func)
  {
    match func
    case Completed(_) => None
    case Raised(ex) => Some(ex)
  }
}
