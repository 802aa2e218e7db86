/** The capture executor of `ErrorOrValue/ErrorOr.cs`: run an operation,
    turn the exception it raises into data when the expected-type filter
    admits it, and rethrow it unchanged otherwise. An absent or empty filter
    admits every kind. Each function takes the operation's `Outcome` in
    place of the operation itself; the asynchronous variants take the
    awaited outcome. */
module ErrorOrTry {
  import opened Exceptions
  import opened Results

  /** `ShouldMatch`: a null or empty expected list matches every exception;
      otherwise the exception's exact kind must be listed. */
  function ShouldMatch(expected: Option<seq<Kind>>, ex: Exn): (matches: bool)
    ensures matches <==> expected.None? || |expected.value| == 0 || ex.kind in expected.value
  {
    !(expected.Some? && |expected.value| > 0) || Contains(expected.value, ex.kind)
  }

  /** The filter depends only on which kinds are listed, not on their order
      or repetition. */
  lemma ShouldMatchIgnoresOrder(xs: seq<Kind>, ys: seq<Kind>, ex: Exn)
    requires forall k :: k in xs <==> k in ys
    ensures ShouldMatch(Some(xs), ex) == ShouldMatch(Some(ys), ex)
  {
    if |xs| > 0 {
      assert xs[0] in ys;
    }
    if |ys| > 0 {
      assert ys[0] in xs;
    }
  }

  // ---------------------------------------------------------------------
  // The private helpers

  /** `TryExecute<TException>(Action, catchHandler?, expectedExceptions?)`. */
  function TryExecuteAction(action: Outcome<()>, catchHandler: Option<Handler>,
                            expected: Option<seq<Kind>>, target: Target): (c: Completion<Option<Exn>>)
    ensures action.Completed? ==> c == Returned(None)
    ensures c.Rethrown? <==> action.Raised? && !ShouldMatch(expected, action.ex)
    ensures c.Rethrown? || c.InvalidCast? ==> c.ex == action.ex
    ensures action.Raised? && c.Returned? ==>
              c.value == Some(if catchHandler.Some? && catchHandler.value(action.ex).Some?
                              then catchHandler.value(action.ex).value else action.ex)
    ensures action.Raised? && ShouldMatch(expected, action.ex) ==>
              (c.InvalidCast? <==>
                 (catchHandler.None? || catchHandler.value(action.ex).None?) && !Accepts(target, action.ex.kind))
  {
    match action
    case Completed(_) => Returned(None)
    case Raised(ex) =>
      if ShouldMatch(expected, ex) then HandleOrCast(catchHandler, ex, target).Map(e => Some(e))
      else Rethrown(ex)
  }

  /** `TryExecute<TResult>(Func<TResult>, expectedExceptions?)`. */
  function TryExecuteFunc<R>(func: Outcome<R>, expected: Option<seq<Kind>>, zero: R): (c: Completion<ErrorOr<R>>)
    ensures !c.InvalidCast?
    ensures func.Completed? ==> c.Returned? && c.value.IsSuccess() && c.value.Value() == func.value
    ensures c.Rethrown? <==> func.Raised? && !ShouldMatch(expected, func.ex)
    ensures c.Rethrown? ==> c.ex == func.ex
    ensures func.Raised? && c.Returned? ==>
              c.value.IsFailure() && c.value.Error() == Some(func.ex) && c.value.Value() == zero
  {
    match func
    case Completed(v) => Returned(ErrorOr.Success(v))
    case Raised(ex) =>
      if ShouldMatch(expected, ex) then Returned(ErrorOr.Failure(Some(ex), zero))
      else Rethrown(ex)
  }

  /** `TryExecute<TResult, TException>(Func<TResult>, catchHandler)`: no
      filter and no fallback; the handler's answer is stored as it is, so a
      null answer leaves no error behind. */
  function TryExecuteFuncWithHandler<R>(func: Outcome<R>, catchHandler: Handler, zero: R): (c: Completion<ErrorOr<R>>)
    ensures c.Returned?
    ensures func.Completed? ==> c.value.IsSuccess() && c.value.Value() == func.value
    ensures func.Raised? ==> c.value.Error() == catchHandler(func.ex) && c.value.Value() == zero
  {
    match func
    case Completed(v) => Returned(ErrorOr.Success(v))
    case Raised(ex) => Returned(ErrorOr.Failure(catchHandler(ex), zero))
  }

  /** `TryExecuteAsync<TResult>(Func<Task<TResult>>, expectedExceptions?)`. */
  function TryExecuteAsyncFunc<R>(func: Outcome<R>, expected: Option<seq<Kind>>, zero: R): (c: Completion<ErrorOr<R>>)
    ensures c == TryExecuteFunc(func, expected, zero)
  {
    match func
    case Completed(v) => Returned(ErrorOr.Success(v))
    case Raised(ex) =>
      if ShouldMatch(expected, ex) then Returned(ErrorOr.Failure(Some(ex), zero))
      else Rethrown(ex)
  }

  /** `TryExecuteAsync<TResult, TException>(Func<Task<TResult>>, catchHandler)`. */
  function TryExecuteAsyncFuncWithHandler<R>(func: Outcome<R>, catchHandler: Handler, zero: R): (c: Completion<ErrorOr<R>>)
    ensures c == TryExecuteFuncWithHandler(func, catchHandler, zero)
  {
    match func
    case Completed(v) => Returned(ErrorOr.Success(v))
    case Raised(ex) => Returned(ErrorOr.Failure(catchHandler(ex), zero))
  }

  /** `TryExecuteAsync<TException>(Func<Task>, catchHandler?, expectedExceptions?)`. */
  function TryExecuteAsyncAction(func: Outcome<()>, catchHandler: Option<Handler>,
                                 expected: Option<seq<Kind>>, target: Target): (c: Completion<Option<Exn>>)
    ensures c == TryExecuteAction(func, catchHandler, expected, target)
  {
    match func
    case Completed(_) => Returned(None)
    case Raised(ex) =>
      if ShouldMatch(expected, ex) then HandleOrCast(catchHandler, ex, target).Map(e => Some(e))
      else Rethrown(ex)
  }

  // ---------------------------------------------------------------------
  // The public overloads

  /** `Try(Action, params Type[]? expectedExceptions)`: the result type is
      `Exception`, so a captured exception is returned as it was raised. */
  function Try(action: Outcome<()>, expected: Option<seq<Kind>>): (c: Completion<Option<Exn>>)
    ensures action.Completed? ==> c == Returned(None)
    ensures action.Raised? ==>
              c == if ShouldMatch(expected, action.ex) then Returned(Some(action.ex)) else Rethrown(action.ex)
  {
    TryExecuteAction(action, None, expected, AnyException)
  }

  /** `Try<TException>(Action, catchHandler)`: no filter, so nothing is
      rethrown; the handler's non-null answer is returned, and a null answer
      falls back to the original exception cast to `TException`. */
  function TryWithHandler(action: Outcome<()>, catchHandler: Handler, target: Target): (c: Completion<Option<Exn>>)
    ensures !c.Rethrown?
    ensures action.Completed? ==> c == Returned(None)
    ensures action.Raised? && catchHandler(action.ex).Some? ==> c == Returned(catchHandler(action.ex))
    ensures action.Raised? && catchHandler(action.ex).None? ==>
              c == if Accepts(target, action.ex.kind) then Returned(Some(action.ex)) else InvalidCast(action.ex)
  {
    TryExecuteAction(action, Some(catchHandler), None, target)
  }

  /** `Try<TResult>(Func<TResult>, params Type[]? expectedExceptions)`. */
  function TryFunc<R>(func: Outcome<R>, expected: Option<seq<Kind>>, zero: R): (c: Completion<ErrorOr<R>>)
    ensures func.Completed? ==> c == Returned(ErrorOr.Success(func.value))
    ensures func.Raised? ==>
              c == if ShouldMatch(expected, func.ex) then Returned(ErrorOr.Failure(Some(func.ex), zero))
                   else Rethrown(func.ex)
  {
    TryExecuteFunc(func, expected, zero)
  }

  /** `Try<TResult, TException>(Func<TResult>, catchHandler)`: every
      exception is captured and replaced by the handler's answer. */
  function TryFuncWithHandler<R>(func: Outcome<R>, catchHandler: Handler, zero: R): (c: Completion<ErrorOr<R>>)
    ensures func.Completed? ==> c == Returned(ErrorOr.Success(func.value))
    ensures func.Raised? ==> c == Returned(ErrorOr.Failure(catchHandler(func.ex), zero))
  {
    TryExecuteFuncWithHandler(func, catchHandler, zero)
  }

  /** `TryAsync(Func<Task>, params Type[]? expectedExceptions)`. */
  function TryAsync(func: Outcome<()>, expected: Option<seq<Kind>>): (c: Completion<Option<Exn>>)
    ensures c == Try(func, expected)
  {
    TryExecuteAsyncAction(func, None, expected, AnyException)
  }

  /** `TryAsync<TException>(Func<Task>, catchHandler)`. */
  function TryAsyncWithHandler(func: Outcome<()>, catchHandler: Handler, target: Target): (c: Completion<Option<Exn>>)
    ensures c == TryWithHandler(func, catchHandler, target)
  {
    TryExecuteAsyncAction(func, Some(catchHandler), None, target)
  }

  /** `TryAsync<TResult>(Func<Task<TResult>>, params Type[]? expectedExceptions)`. */
  function TryAsyncFunc<R>(func: Outcome<R>, expected: Option<seq<Kind>>, zero: R): (c: Completion<ErrorOr<R>>)
    ensures c == TryFunc(func, expected, zero)
  {
    TryExecuteAsyncFunc(func, expected, zero)
  }

  /** `TryAsync<TResult, TException>(Func<Task<TResult>>, catchHandler)`. */
  function TryAsyncFuncWithHandler<R>(func: Outcome<R>, catchHandler: Handler, zero: R): (c: Completion<ErrorOr<R>>)
    ensures c == TryFuncWithHandler(func, catchHandler, zero)
  {
    TryExecuteAsyncFuncWithHandler(func, catchHandler, zero)
  }

  // ---------------------------------------------------------------------
  // Policy lemmas

  /** Whether an exception escapes is decided by the filter on the original
      kind before any handler runs: the handler cannot change it. */
  lemma FilterPrecedesHandler(action: Outcome<()>, h1: Option<Handler>, h2: Option<Handler>,
                              expected: Option<seq<Kind>>, t1: Target, t2: Target)
    ensures TryExecuteAction(action, h1, expected, t1).Rethrown?
        <==> TryExecuteAction(action, h2, expected, t2).Rethrown?
  {
  }

  /** With no filter, or an empty one, nothing is ever rethrown. */
  lemma NoFilterCapturesAll<R>(action: Outcome<()>, func: Outcome<R>, handler: Option<Handler>,
                               expected: Option<seq<Kind>>, target: Target, zero: R)
    requires expected.None? || expected.value == []
    ensures !TryExecuteAction(action, handler, expected, target).Rethrown?
    ensures !TryExecuteFunc(func, expected, zero).Rethrown?
  {
  }

  /** Filtering is by exact kind: an exception whose kind is not listed
      escapes even if the cast target would accept it (a subclass of a
      listed type, say), and a listed kind is captured. */
  lemma ExactKindFiltering(action: Outcome<()>, xs: seq<Kind>, target: Target)
    requires |xs| > 0 && action.Raised?
    ensures TryExecuteAction(action, None, Some(xs), target).Rethrown? <==> action.ex.kind !in xs
  {
  }

  /** A raised exception never reads as a completed action: whatever the
      action variant returns after a raise is non-null. */
  lemma RaisedNeverReturnsNull(action: Outcome<()>, handler: Option<Handler>,
                               expected: Option<seq<Kind>>, target: Target)
    requires action.Raised?
    ensures TryExecuteAction(action, handler, expected, target) != Returned(None)
  {
  }

  /** A handler that returns null in `Try(Func<TResult>, catchHandler)`
      leaves a result that reports success with the default value, though
      the function raised. */
  lemma NullHandlerAnswerReadsAsSuccess<R>(ex: Exn, catchHandler: Handler, zero: R)
    requires catchHandler(ex).None?
    ensures TryFuncWithHandler(Raised(ex), catchHandler, zero).value.IsSuccess()
    ensures TryFuncWithHandler(Raised(ex), catchHandler, zero).value.Value() == zero
  {
  }
}
