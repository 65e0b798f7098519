# Result algebra, modelled in Dafny

This project models the `Result` algebra of a small TypeScript library. A
`Result` is either a `Success` holding a value or a `Fail` holding an error.
Every instance carries the same combinators: `ok`, `unwrap`, `unwrapOr`,
`expect`, `map`, `mapError` and `andThen`.

- `wrappers.dfy` (`Wrappers`): `Option` stands for "a value or `undefined`". `Outcome` stands for "returned a value or threw an object".
- `result.dfy` (`Results`): the `Result` datatype built by `success(value)` and `fail(error)`. It has the two discriminant flags and the combinators as member functions. `Expect` is a method, because on a Fail it mutates the error it wraps. The file also holds the functor and monad laws.
- `pipeline.dfy` (`Pipelines`): chains of `andThen` and `map` calls. Their lemmas show that a failure stops the chain and that a chain of `map` calls is one `map`. These lemmas cover chains whose steps keep one value type and are total functions. In the source, each `.andThen` or `.map` may change the value type.
- `typed_error.dfy` (`TypedErrors`): the error object a `Fail` carries in `expect`. Its `message` field is mutable. Its `kind` (the source's `type`) and `data` are fixed at construction.

Design decisions:
- A throw is modelled as a returned value: `Thrown(x)` stands for `throw x` and `Returned(v)` for a normal return. Only `Unwrap` and `Expect` produce an `Outcome`. Every other combinator returns a plain value. Given a mapper that returns, the combinator itself never throws.
- A mapper is a partial function (`-->`). `Map` and `AndThen` require the mapper to be applicable only to the value of a Success. `MapError` requires it only for the error of a Fail. So a combinator given a mapper that is applicable nowhere still works on the inactive variant. This is how the model states that a mapper is never applied there.
- The inactive variant's field cannot be read: in Dafny, `r.value` is only well-formed when `r.Success?` holds, and `r.error` only when `r.Fail?` holds.

## Model

| member | source | states |
|---|---|---|
| `Results.Result.Ok` | src/result.ts:58-58 | `ok()` gives a value exactly when the `success` flag is set, and that value is the stored one; on Fail it gives `undefined` |
| `Results.Result.Unwrap` | src/result.ts:78-80 | `unwrap()` returns exactly when `ok()` has a value, and returns that value; otherwise the `fail` flag is set and it throws the stored error object itself |
| `Results.Result.UnwrapOr` | src/result.ts:81-81 | `unwrapOr(d)` agrees with `ok()` defaulting to `d` and with what `unwrap()` returns; on Fail it is `d` |
| `Results.Result.Map` | src/result.ts:62-62 | `map(f)` keeps the variant; on Success it holds `f(value)`; a Fail passes through unchanged and `f` need not be applicable |
| `Results.Result.MapError` | src/result.ts:87-87 | `mapError(g)` keeps the variant and what `ok()` gives; a Fail holds `g(error)`; `g` is needed only on a Fail |
| `Results.Result.AndThen` | src/result.ts:88-88 | `andThen(f)` on Success is exactly `f(value)`; on Fail it is a Fail with the same error, and `f` need not be applicable |
| `Results.Expect` | src/result.ts:82-85 | `expect(m)` has the same outcome as `unwrap()`: it returns the value, or it throws the very error object stored; on Fail that object's message is now `m`; only that object may change |
| `Results.ExactlyOneFlag` | src/result.ts:47-51 | exactly one of `success` and `fail` is true, and it tells which payload the Result holds |
| `Results.SuccessBehaviour` | src/result.ts:53-61 | `success(v)` has `success` set, `fail` clear, and `ok`, `unwrap`, `unwrapOr(d)` all give `v` whatever `d` is |
| `Results.FailBehaviour` | src/result.ts:71-81 | `fail(e)` has `fail` set, `ok()` is `undefined`, `unwrap()` throws `e`, `unwrapOr(d)` is `d` |
| `Results.MapShortCircuits` | src/result.ts:86-86 | `fail(e).map(f)` is `fail(e)` for every `f`, even one applicable to no value |
| `Results.MapErrorShortCircuits` | src/result.ts:63-63 | `success(v).mapError(g)` is `success(v)` for every `g` |
| `Results.AndThenShortCircuits` | src/result.ts:88-88 | `fail(e).andThen(f)` is `fail(e)` for every `f` |
| `Results.MapIdentity` | src/result.ts:62-62 | mapping the identity function changes nothing |
| `Results.MapComposition` | src/result.ts:62-62 | `r.map(f).map(g)` equals `r.map(g ∘ f)` |
| `Results.MapErrorComposition` | src/result.ts:87-87 | `r.mapError(f).mapError(g)` equals `r.mapError(g ∘ f)` |
| `Results.MapMapErrorCommute` | src/result.ts:62-63 | `map` and `mapError` may be applied in either order |
| `Results.AndThenLeftIdentity` | src/result.ts:64-64 | `success(v).andThen(f)` equals `f(v)` |
| `Results.AndThenRightIdentity` | src/result.ts:64-64 | `r.andThen(success)` equals `r` |
| `Results.AndThenAssociative` | src/result.ts:64-64 | `r.andThen(f).andThen(g)` equals `r.andThen(x => f(x).andThen(g))` |
| `Results.MapIsAndThen` | src/result.ts:62-64 | `r.map(f)` equals `r.andThen(x => success(f(x)))` |
| `Pipelines.Pipeline` | src/result.ts:88-88 | a chain of `andThen` calls on a Fail yields that same Fail, however many steps follow |
| `Pipelines.PipelineAppend` | src/result.ts:64-64 | a chain of `andThen` calls may be split anywhere: running the halves in turn gives the same result |
| `Pipelines.PipelineStopsAtFailure` | src/result.ts:88-88 | once a chain has failed, appending further steps does not change its result |
| `Pipelines.PipelineFirstFailure` | src/result.ts:64-64 | a chain from a Success that ends in a Fail ends with the error of its first failing step, and every step before it succeeded |
| `Pipelines.MapAll` | src/result.ts:86-86 | a chain of `map` calls keeps the variant, and leaves a Fail unchanged |
| `Pipelines.MapAllComposes` | src/result.ts:62-62 | a chain of `map` calls equals one `map` of the composed mappers |
| `TypedErrors.TypedError.constructor` | src/typed-error.ts:21-25 | a new error has the given `type` and `data`, and the given message or the empty string when none is given |

## Left out

- The asynchronous adapter `result` / `r` (src/result.ts:92-103) is not modelled. It awaits a promise and catches its rejection, which is host machinery. Its only logic is "resolved value → success, rejection → fail".
- The static types are not modelled: the `StringLiteral` literal-type check in src/typed-error.ts, the type-level tests, and the narrowing of `data` by `type`. None of them exists at run time.
- The host `Error` class is not modelled, and neither is the stack trace captured at construction. Every error `Expect` acts on is a `TypedError`. A plain `Error` corresponds to one whose `kind` and `data` go unused.
- `Results.Result.AndThen`: on a Fail the source re-types the error with `as any` to the mapper's error type. The model keeps a single error type `E` for both sides.
- `Results.Result.Map`, `Results.Result.MapError`, `Results.Result.AndThen`: mappers are modelled as pure functions. In the source the combinator calls the mapper directly (src/result.ts:62-64, 86-88). The model does not capture an exception thrown by a mapper propagating out of the combinator. It does not capture the mapper's side effects either.
- `Results.Result.Ok`: the model's `Some(v)` can be told apart from `None`. In the source, `success(undefined).ok()` and `fail(e).ok()` both give `undefined`.
- `Results.Result.UnwrapOr`: the default must have the value type `V`. The source allows a default of another type.
- `parseNumber` in src/result.test.ts is not modelled. It depends on floating-point parsing in the host language.
- `src/index.ts` only re-exports names, so it is not modelled.
