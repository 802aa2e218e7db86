# ErrorOrValue, modelled in Dafny

ErrorOrValue is a small C# library that turns thrown exceptions into values.
A caller hands `ErrorOr.Try`/`TryAsync` an action or a function. The call
returns either a nullable exception (for actions) or an `ErrorOr` result
container (for functions). An optional list of expected exception types
decides which exceptions become data; the others are rethrown unchanged. An
optional catch handler replaces the captured exception.

The model is pure Dafny over datatypes, one module per source file:

- `Exceptions` holds what the other modules share. `Exn` is an exception with
  its exact runtime `Kind`. `Outcome` is what the caller's operation did:
  completed with a value, or raised. `Completion` is what a `Try` call itself
  does: return a value, rethrow the original exception, or raise
  `InvalidCastException` from the cast `(TException)ex`. `Handler` is a catch
  handler, whose `None` answer is a null return. `Target` is the set of kinds
  that a cast to `TException` accepts. `Contains` is the list membership test,
  and `HandleOrCast` is the expression `handler?.Invoke(ex) ?? (TException)ex`.
- `Results` models `ErrorOrValue/Results/ErrorOr.cs`. `ErrorOrBase` is the
  readonly pair of value and nullable error. `ErrorOr` is the public wrapper.
  It stands for both `ErrorOr<TResult, TException>` and `ErrorOr<TResult>`:
  with a single exception type in the model the two structs coincide.
- `ErrorOrTry` models `ErrorOrValue/ErrorOr.cs`: `ShouldMatch`, the six private
  `TryExecute*` helpers and the eight public overloads. Dafny has no
  overloading, so the overloads have distinct names.
- `ErrorsAsValues` models `ErrorOrValue/ErrorsAsValues.cs`, the older surface
  with its own filtering policy.
- `Surfaces` states where the two surfaces agree and where they part.
- `Scenarios` restates the repository's unit tests as facts about the model.

Each operation takes the operation's `Outcome` in place of the delegate. An
asynchronous variant takes the awaited outcome, and its contract says it
equals the synchronous variant on that outcome. `default(TResult)` is an
explicit parameter `zero`; Dafny has no generic default value. Datatypes are
immutable, which models the readonly structs.

Two behaviours of the code are modelled as written:

- In `Try(Func<TResult>, catchHandler)` (`ErrorOrValue/ErrorOr.cs:197`), the
  handler's answer goes straight to the failure constructor. A handler that
  returns null therefore leaves a result that reports `IsSuccess` with the
  default value. The handler's declared return type is non-nullable, so this
  is a caller error rather than a defect. `ErrorOrTry.NullHandlerAnswerReadsAsSuccess`
  states it, and `Surfaces.FuncHandlerAgreesUnlessNull` contrasts it with the
  older surface, which falls back to the original exception.
- The two surfaces disagree on an empty expected list. `ErrorOr.cs` captures
  every exception; `ErrorsAsValues.cs` captures none.
  `Surfaces.EmptyExpectedListDiffers` states this. The model follows the code
  of each file rather than reconciling them.

## Model

| member | source | states |
|---|---|---|
| Exceptions.Contains | ErrorOrValue/ErrorOr.cs:259 | the expected-type scan finds a kind exactly when that kind is listed (type equality, no subtyping) |
| Exceptions.HandleOrCast | ErrorOrValue/ErrorOr.cs:160 | `handler?.Invoke(ex) ?? (TException)ex` never rethrows; it gives the handler's non-null answer, otherwise the original exception when the target type accepts its kind, otherwise an invalid cast of that exception |
| Results.ErrorOrBase.Deconstruct | ErrorOrValue/Results/ErrorOr.cs:57-61 | the pair `(Error, Value)`; its first half is null exactly on success, and rebuilding from the pair gives back the same result |
| Results.ErrorOrBase.Success | ErrorOrValue/Results/ErrorOr.cs:36-40 | the success constructor gives `IsSuccess`, not `IsFailure`, and deconstructs to `(null, value)` |
| Results.ErrorOrBase.Failure | ErrorOrValue/Results/ErrorOr.cs:46-50 | the failure constructor deconstructs to `(exception, default)` and is a failure exactly when the exception is non-null |
| Results.ErrorOr.Deconstruct | ErrorOrValue/Results/ErrorOr.cs:111-115 | the wrapper deconstructs to exactly what its base does, with null error exactly on success |
| Results.ErrorOr.Success | ErrorOrValue/Results/ErrorOr.cs:98 | the wrapper's success constructor gives `IsSuccess`, `Error == null` and `Value == value` (also line 151) |
| Results.ErrorOr.Failure | ErrorOrValue/Results/ErrorOr.cs:104 | the wrapper's failure constructor gives `Error == exception`, `Value == default`, and `IsFailure` exactly when the exception is non-null (also line 157) |
| Results.SuccessFailureExclusive | ErrorOrValue/Results/ErrorOr.cs:25-30 | `IsSuccess` and `IsFailure` are complements; `IsSuccess` holds exactly when `Error` is null |
| Results.WrapperAgreesWithBase | ErrorOrValue/Results/ErrorOr.cs:77-92 | the wrapper's `Value`, `Error`, `IsSuccess` and `IsFailure` are those of its base (likewise lines 130-145) |
| Results.DeconstructInjective | ErrorOrValue/Results/ErrorOr.cs:164-168 | two results that deconstruct alike are equal: the pair loses nothing |
| ErrorOrTry.ShouldMatch | ErrorOrValue/ErrorOr.cs:258-259 | the filter matches iff the list is null, empty, or contains the exact kind |
| ErrorOrTry.ShouldMatchIgnoresOrder | ErrorOrValue/ErrorOr.cs:258-259 | two lists naming the same kinds, in any order and with any repetition, filter alike |
| ErrorOrTry.TryExecuteAction | ErrorOrValue/ErrorOr.cs:145-165 | completion gives null; a rethrow happens iff the filter rejects the original exception, and it rethrows that exception; a captured exception gives the handler's non-null answer, otherwise the original exception, and an invalid cast happens exactly when there is no such answer and the target rejects the kind |
| ErrorOrTry.TryExecuteFunc | ErrorOrValue/ErrorOr.cs:167-184 | completion gives a success holding the value; a rethrow of the original happens iff the filter rejects it; otherwise a failure carrying the original exception and the default value; never a cast error |
| ErrorOrTry.TryExecuteFuncWithHandler | ErrorOrValue/ErrorOr.cs:186-199 | never rethrows; completion gives a success holding the value; a raise stores `catchHandler(ex)` with the default value |
| ErrorOrTry.TryExecuteAsyncFunc | ErrorOrValue/ErrorOr.cs:201-218 | on the awaited outcome it behaves exactly as the synchronous helper |
| ErrorOrTry.TryExecuteAsyncFuncWithHandler | ErrorOrValue/ErrorOr.cs:220-233 | on the awaited outcome it behaves exactly as the synchronous helper |
| ErrorOrTry.TryExecuteAsyncAction | ErrorOrValue/ErrorOr.cs:235-256 | on the awaited outcome it behaves exactly as the synchronous action helper |
| ErrorOrTry.Try | ErrorOrValue/ErrorOr.cs:24-25 | null on completion; the raised exception itself when the filter admits it, otherwise a rethrow of it; never a cast error |
| ErrorOrTry.TryWithHandler | ErrorOrValue/ErrorOr.cs:38-42 | never rethrows; null on completion; the handler's non-null answer, else the original exception cast to the target type |
| ErrorOrTry.TryFunc | ErrorOrValue/ErrorOr.cs:58-61 | success holding the value; failure carrying the original exception when the filter admits it; otherwise a rethrow |
| ErrorOrTry.TryFuncWithHandler | ErrorOrValue/ErrorOr.cs:74-78 | success holding the value, or a result holding `catchHandler(ex)` and the default value, whatever the kind |
| ErrorOrTry.TryAsync | ErrorOrValue/ErrorOr.cs:90-93 | the asynchronous action overload equals `Try` on the awaited outcome |
| ErrorOrTry.TryAsyncWithHandler | ErrorOrValue/ErrorOr.cs:103-107 | equals `TryWithHandler` on the awaited outcome |
| ErrorOrTry.TryAsyncFunc | ErrorOrValue/ErrorOr.cs:121-124 | equals `TryFunc` on the awaited outcome |
| ErrorOrTry.TryAsyncFuncWithHandler | ErrorOrValue/ErrorOr.cs:139-143 | equals `TryFuncWithHandler` on the awaited outcome |
| ErrorOrTry.FilterPrecedesHandler | ErrorOrValue/ErrorOr.cs:158-160 | whether an exception escapes does not depend on the handler or the target: the filter runs first, on the original kind |
| ErrorOrTry.NoFilterCapturesAll | ErrorOrValue/ErrorOr.cs:258-259 | with a null or empty expected list nothing is rethrown, for actions and for functions |
| ErrorOrTry.ExactKindFiltering | ErrorOrValue/ErrorOr.cs:259 | with a non-empty list, an exception escapes iff its exact kind is not listed, whatever the cast target accepts |
| ErrorOrTry.RaisedNeverReturnsNull | ErrorOrValue/ErrorOr.cs:156-163 | an action that raised never yields null |
| ErrorOrTry.NullHandlerAnswerReadsAsSuccess | ErrorOrValue/ErrorOr.cs:195-197 | a handler returning null leaves a result reporting success with the default value |
| ErrorsAsValues.TryWithWantedException | ErrorOrValue/ErrorsAsValues.cs:67-80 | never rethrows; success holding the value on completion; on a raise, a failure with the default value that carries the handler's non-null answer, otherwise the original exception; an invalid cast exactly when the target rejects it |
| ErrorsAsValues.TryWithWantedExceptionAsync | ErrorOrValue/ErrorsAsValues.cs:82-95 | equals the synchronous helper on the awaited outcome |
| ErrorsAsValues.TryWithExpectedExceptions | ErrorOrValue/ErrorsAsValues.cs:97-116 | a rethrow of the original happens iff its exact kind is not listed (so an empty list rethrows all); otherwise a failure carrying it; a success holding the value on completion |
| ErrorsAsValues.TryFunc | ErrorOrValue/ErrorsAsValues.cs:7-10 | always returns; the error is the raised exception or null, the value is the returned value or the default |
| ErrorsAsValues.TryFuncWithWanted | ErrorOrValue/ErrorsAsValues.cs:12-18 | never rethrows; success holding the value on completion; on a raise, a failure with the default value carrying the handler's non-null answer, otherwise the original exception when the target accepts its kind; a cast error exactly when there is no such answer and the target rejects the kind |
| ErrorsAsValues.TryFuncExpecting | ErrorOrValue/ErrorsAsValues.cs:20-25 | success holding the value; failure carrying the original when its kind is listed; a rethrow otherwise |
| ErrorsAsValues.TryAsyncFunc | ErrorOrValue/ErrorsAsValues.cs:27-30 | equals `TryFunc` on the awaited outcome |
| ErrorsAsValues.TryAsyncFuncWithWanted | ErrorOrValue/ErrorsAsValues.cs:32-38 | equals `TryFuncWithWanted` on the awaited outcome |
| ErrorsAsValues.TryAsyncAction | ErrorOrValue/ErrorsAsValues.cs:40-52 | equals `TryAction` on the awaited outcome |
| ErrorsAsValues.TryAction | ErrorOrValue/ErrorsAsValues.cs:54-65 | null exactly on completion; otherwise the raised exception, of any kind |
| Surfaces.EmptyExpectedListDiffers | ErrorOrValue/ErrorsAsValues.cs:107-112 | an empty expected list captures the exception in the newer surface and rethrows it in the older one |
| Surfaces.NonEmptyExpectedListAgrees | ErrorOrValue/ErrorsAsValues.cs:97-116 | with a non-empty expected list both surfaces give the same answer |
| Surfaces.ActionCaptureAgrees | ErrorOrValue/ErrorsAsValues.cs:54-65 | the older `Try(Action)` returns what the newer one returns with no filter or an empty one |
| Surfaces.FuncCaptureAgrees | ErrorOrValue/ErrorsAsValues.cs:7-10 | the older `Try(Func<TResult>)` equals the newer one with no filter |
| Surfaces.FuncHandlerAgreesUnlessNull | ErrorOrValue/ErrorsAsValues.cs:76-79 | the two handler variants agree unless the handler returns null; then the newer reports success and the older keeps the original exception |
| Scenarios.ActionScenarios | ErrorOrValue.Tests/TryWithExceptionTests.cs:7-40 | the action tests: null on completion, the exception with no or a matching filter, the handler's replacement, a rethrow on a non-matching filter |
| Scenarios.FuncScenarios | ErrorOrValue.Tests/TryWithErrorOrResultTests.cs:7-56 | the function tests: `(null, 1)`, `(exception, 0)`, the handler's replacement with 0, a rethrow on a non-matching filter |
| Scenarios.AsyncActionScenarios | ErrorOrValue.Tests/TryAsyncWithExceptionTests.cs:7-43 | the five asynchronous action tests: the exception with no or a matching filter, null on completion, the handler's replacement, a rethrow on a non-matching filter |
| Scenarios.AsyncFuncScenarios | ErrorOrValue.Tests/TryAsyncWithErrorOrResultTests.cs:7-56 | the five asynchronous function tests: `(null, 1)`, `(exception, 0)`, the handler's replacement with 0, the exception on a matching filter, a rethrow on a non-matching filter |

## Left out

- Task scheduling and `await`: an asynchronous variant is modelled on the already-awaited outcome. An exception raised before the task exists is caught by the same `try`, so it is the same outcome.
- The caller's delegate: its only modelled effect is its `Outcome`. Side effects and exactly-once execution are not modelled; being functions, the model's operations are deterministic, so two calls on the same outcome give equal results.
- An exception raised by a catch handler itself: handlers are total functions here.
- Object identity of exceptions: `Exn` is a value (kind and message), so "the original exception" in a contract means an equal value, not the same object; a handler returning a fresh exception with the same kind and message cannot be told apart from one returning its argument.
- Reflection: exception types are `Kind` strings compared by equality, and the expected list is a `seq<Kind>`. The subtype relation enters only through `Target`, the kinds a cast to `TException` accepts.
- The CLR cast `(TException)ex`: modelled as the `InvalidCast` completion when the target rejects the kind, not as a new exception value.
- ErrorsAsValues.TryWithExpectedExceptions: a `params Type[]` passed explicitly as null makes `Contains` throw `ArgumentNullException`; the model's list is never null.
- The `where TException : Exception` type constraints and the nullable annotations: the model has one exception type, `Exn`, and `Option` for null.
- The example program and the test helpers are not part of this model.
