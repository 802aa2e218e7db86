/** How the two capture surfaces, `ErrorOrValue/ErrorOr.cs` and
    `ErrorOrValue/ErrorsAsValues.cs`, relate: where they agree and the
    inputs on which they part. */
module Surfaces {
  import opened Exceptions
  import opened Results
  import ErrorOrTry
  import ErrorsAsValues

  /** An empty expected list captures everything in the newer surface and
      nothing in the older one. */
  lemma EmptyExpectedListDiffers<R>(ex: Exn, zero: R)
    ensures ErrorOrTry.TryFunc(Raised(ex), Some([]), zero) == Returned(ErrorOr.Failure(Some(ex), zero))
    ensures ErrorsAsValues.TryFuncExpecting(Raised(ex), [], zero) == Rethrown(ex)
  {
  }

  /** With at least one expected kind, both surfaces filter alike. */
  lemma NonEmptyExpectedListAgrees<R>(func: Outcome<R>, xs: seq<Kind>, zero: R)
    requires |xs| > 0
    ensures ErrorOrTry.TryFunc(func, Some(xs), zero) == ErrorsAsValues.TryFuncExpecting(func, xs, zero)
  {
  }

  /** The unfiltered action variants of the two surfaces agree, and an
      explicit empty filter in the newer one changes nothing. */
  lemma ActionCaptureAgrees(action: Outcome<()>)
    ensures ErrorOrTry.Try(action, None) == Returned(ErrorsAsValues.TryAction(action))
    ensures ErrorOrTry.Try(action, Some([])) == Returned(ErrorsAsValues.TryAction(action))
  {
  }

  /** The unfiltered function variants agree: the older `Try(Func<TResult>)`
      is the newer one with no filter. */
  lemma FuncCaptureAgrees<R>(func: Outcome<R>, zero: R)
    ensures ErrorOrTry.TryFunc(func, None, zero) == ErrorsAsValues.TryFunc(func, zero)
  {
  }

  /** The two function-with-handler variants agree unless the handler
      returns null: the older one then falls back to the original exception
      (or fails the cast), the newer one stores the null and reports success. */
  lemma FuncHandlerAgreesUnlessNull<R>(func: Outcome<R>, h: Handler, target: Target, zero: R)
    ensures func.Completed? || h(func.ex).Some? ==>
              ErrorOrTry.TryFuncWithHandler(func, h, zero) == ErrorsAsValues.TryFuncWithWanted(func, Some(h), target, zero)
    ensures func.Raised? && h(func.ex).None? ==>
              ErrorOrTry.TryFuncWithHandler(func, h, zero).value.IsSuccess()
              && (var c := ErrorsAsValues.TryFuncWithWanted(func, Some(h), target, zero);
                  c.Returned? ==> c.value.Error() == Some(func.ex))
  {
  }
}
