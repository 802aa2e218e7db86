/** The result container: a readonly pair of a value and a nullable error.
    Dafny datatypes are immutable, so a result never changes once built. */
module Results {
  import opened Exceptions

  /** `ErrorOrBase<TResult, TError>`. `error == None` is a null `Error`; a
      failure keeps `default(TResult)` in `value`. */
  datatype ErrorOrBase<R> = ErrorOrBase(value: R, error: Option<Exn>)
  {
    /** Success means exactly that there is no error. */
    predicate IsSuccess()
    {
      error.None?
    }

    predicate IsFailure()
    {
      !IsSuccess()
    }

    /** The pair `(error, value)`: it tells success from failure and loses
        nothing of the result. */
    function Deconstruct(): (pair: (Option<Exn>, R))
      ensures pair.0.None? <==> IsSuccess()
      ensures ErrorOrBase(pair.1, pair.0) == this
    {
      (error, value)
    }

    /** The success constructor. */
    static function Success(value: R): (b: ErrorOrBase<R>)
      ensures b.IsSuccess() && !b.IsFailure()
      ensures b.Deconstruct() == (None, value)
    {
      ErrorOrBase(value, None)
    }

    /** The failure constructor; `zero` is `default(TResult)`. The runtime
        lets a null exception through, written `None`, and the result then
        reads as a success. */
    static function Failure(exception: Option<Exn>, zero: R): (b: ErrorOrBase<R>)
      ensures b.IsFailure() <==> exception.Some?
      ensures b.Deconstruct() == (exception, zero)
    {
      ErrorOrBase(zero, exception)
    }
  }

  /** The public `ErrorOr<TResult, TException>` and `ErrorOr<TResult>`
      (the latter is the former with `TException = Exception`): a wrapper
      whose every property reads the wrapped base. */
  datatype ErrorOr<R> = ErrorOr(base: ErrorOrBase<R>)
  {
    function Value(): R
    {
      base.value
    }

    function Error(): Option<Exn>
    {
      base.error
    }

    predicate IsSuccess()
    {
      base.IsSuccess()
    }

    predicate IsFailure()
    {
      base.IsFailure()
    }

    function Deconstruct(): (pair: (Option<Exn>, R))
      ensures pair == base.Deconstruct()
      ensures pair.0.None? <==> IsSuccess()
    {
      (Error(), Value())
    }

    static function Success(value: R): (r: ErrorOr<R>)
      ensures r.IsSuccess() && !r.IsFailure()
      ensures r.Error() == None && r.Value() == value
    {
      ErrorOr(ErrorOrBase.Success(value))
    }

    static function Failure(exception: Option<Exn>, zero: R): (r: ErrorOr<R>)
      ensures r.IsFailure() <==> exception.Some?
      ensures r.Error() == exception && r.Value() == zero
    {
      ErrorOr(ErrorOrBase.Failure(exception, zero))
    }
  }

  /** `IsSuccess` and `IsFailure` are complements, and the success flag is
      what the first half of `Deconstruct` says. */
  lemma SuccessFailureExclusive<R>(r: ErrorOr<R>)
    ensures r.IsSuccess() != r.IsFailure()
    ensures r.IsSuccess() <==> r.Error() == None
    ensures r.IsSuccess() <==> r.Deconstruct().0 == None
  {
  }

  /** The wrapper's properties are those of its base. */
  lemma WrapperAgreesWithBase<R>(r: ErrorOr<R>)
    ensures r.Value() == r.base.value && r.Error() == r.base.error
    ensures r.IsSuccess() == r.base.IsSuccess() && r.IsFailure() == r.base.IsFailure()
  {
  }

  /** A result is determined by what it deconstructs to. */
  lemma DeconstructInjective<R>(r: ErrorOr<R>, s: ErrorOr<R>)
    requires r.Deconstruct() == s.Deconstruct()
    ensures r == s
  {
  }
}
