/**
 * The result algebra: a value that is either a `Success` holding a value or a
 * `Fail` holding an error, with the combinators every instance carries.
 *
 * Raising is modelled as an `Outcome`: `Returned(v)` for a normal return,
 * `Thrown(x)` for `throw x`. A mapper is a partial function (`-->`); a
 * combinator requires its mapper to be applicable only on the variant it acts
 * on, so a combinator that accepts a mapper applicable nowhere never applies it.
 */
module Results {
  import opened Wrappers
  import opened TypedErrors

  /** `success(value)` and `fail(error)` are the two constructors. */
  datatype Result<V, E> = Success(value: V) | Fail(error: E) {

    /** The `success` discriminant field. */
    function SuccessFlag(): bool {
      match this
      case Success(_) => true
      case Fail(_) => false
    }

    /** The `fail` discriminant field. */
    function FailFlag(): bool {
      match this
      case Success(_) => false
      case Fail(_) => true
    }

    /** `ok()`: the value on Success, `undefined` on Fail; never raises. */
    function Ok(): (o: Option<V>)
      ensures o.Some? <==> SuccessFlag()
      ensures o.Some? ==> o.value == value
    {
      match this
      case Success(v) => Some(v)
      case Fail(_) => None
    }

    /** `unwrap()`: returns the value on Success, throws the stored error on Fail. */
    function Unwrap(): (o: Outcome<V, E>)
      ensures o.Returned? <==> Ok().Some?
      ensures o.Returned? ==> Ok() == Some(o.value)
      ensures o.Thrown? ==> FailFlag() && o.thrown == error
    {
      match this
      case Success(v) => Returned(v)
      case Fail(e) => Thrown(e)
    }

    /** `unwrapOr(default)`: the value on Success (the default is ignored), the default on Fail. */
    function UnwrapOr(default: V): (x: V)
      ensures x == Ok().GetOr(default)
      ensures Unwrap().Returned? ==> x == Unwrap().value
      ensures FailFlag() ==> x == default
    {
      match this
      case Success(v) => v
      case Fail(_) => default
    }

    /** `map(f)`: applies `f` to the value of a Success; a Fail passes through and `f` is not applied. */
    function Map<W>(f: V --> W): (r: Result<W, E>)
      requires Success? ==> f.requires(value)
      ensures r.SuccessFlag() == SuccessFlag()
      ensures r.Ok() == if Success? then Some(f(value)) else None
      ensures Fail? ==> r == Fail(error)
    {
      match this
      case Success(v) => Success(f(v))
      case Fail(e) => Fail(e)
    }

    /** `mapError(g)`: applies `g` to the error of a Fail; a Success passes through and `g` is not applied. */
    function MapError<F>(g: E --> F): (r: Result<V, F>)
      requires Fail? ==> g.requires(error)
      ensures r.SuccessFlag() == SuccessFlag()
      ensures r.Ok() == Ok()
      ensures Fail? ==> r == Fail(g(error))
    {
      match this
      case Success(v) => Success(v)
      case Fail(e) => Fail(g(e))
    }

    /** `andThen(f)`: on a Success the result is exactly `f(value)`; a Fail passes through and `f` is not applied. */
    function AndThen<W>(f: V --> Result<W, E>): (r: Result<W, E>)
      requires Success? ==> f.requires(value)
      ensures Success? ==> r == f(value)
      ensures Fail? ==> r.FailFlag() && r.error == error
    {
      match this
      case Success(v) => f(v)
      case Fail(e) => Fail(e)
    }
  }

  /**
   * `expect(message)`: on a Success, returns the value and changes nothing; on a
   * Fail, overwrites the stored error's message and throws that same object.
   */
  method Expect<V, D>(r: Result<V, TypedError<D>>, message: string) returns (o: Outcome<V, TypedError<D>>)
    modifies if r.Fail? then {r.error} else {}
    ensures o == r.Unwrap()
    ensures r.Fail? ==> o.thrown.message == message
  {
    match r
    case Success(v) =>
      o := Returned(v);
    case Fail(e) =>
      e.message := message;
      o := Thrown(e);
  }

  /** Every Result has exactly one of the two discriminant flags set, and the flag tells which payload it holds. */
  lemma ExactlyOneFlag<V, E>(r: Result<V, E>)
    ensures r.SuccessFlag() != r.FailFlag()
    ensures r.SuccessFlag() <==> r.Success?
    ensures r.FailFlag() <==> r.Fail?
  {
  }

  /** `success(v)`: success is true, fail is false, and ok, unwrap and unwrapOr all give `v`. */
  lemma SuccessBehaviour<V, E>(v: V, default: V)
    ensures Result<V, E>.Success(v).SuccessFlag() && !Result<V, E>.Success(v).FailFlag()
    ensures Result<V, E>.Success(v).Ok() == Some(v)
    ensures Result<V, E>.Success(v).Unwrap() == Returned(v)
    ensures Result<V, E>.Success(v).UnwrapOr(default) == v
  {
  }

  /** `fail(e)`: success is false, fail is true, ok is undefined, unwrapOr gives the default and unwrap throws `e`. */
  lemma FailBehaviour<V, E>(e: E, default: V)
    ensures !Result<V, E>.Fail(e).SuccessFlag() && Result<V, E>.Fail(e).FailFlag()
    ensures Result<V, E>.Fail(e).Ok() == None
    ensures Result<V, E>.Fail(e).Unwrap() == Thrown(e)
    ensures Result<V, E>.Fail(e).UnwrapOr(default) == default
  {
  }

  /** `map` on a Fail ignores its mapper entirely: it accepts even one applicable nowhere. */
  lemma MapShortCircuits<V, W, E>(e: E, f: V --> W)
    ensures Result<V, E>.Fail(e).Map(f) == Fail(e)
  {
  }

  /** `mapError` on a Success ignores its mapper entirely. */
  lemma MapErrorShortCircuits<V, E, F>(v: V, g: E --> F)
    ensures Result<V, E>.Success(v).MapError(g) == Success(v)
  {
  }

  /** `andThen` on a Fail ignores its mapper entirely. */
  lemma AndThenShortCircuits<V, W, E>(e: E, f: V --> Result<W, E>)
    ensures Result<V, E>.Fail(e).AndThen(f) == Fail(e)
  {
  }

  /** Functor identity: mapping the identity changes nothing. */
  lemma MapIdentity<V, E>(r: Result<V, E>)
    ensures r.Map(x => x) == r
  {
  }

  /** Functor composition: `r.map(f).map(g)` equals `r.map(g ∘ f)`. */
  lemma MapComposition<U, V, W, E>(r: Result<U, E>, f: U -> V, g: V -> W)
    ensures r.Map(f).Map(g) == r.Map(x => g(f(x)))
  {
  }

  /** The error-channel analogue of the composition law. */
  lemma MapErrorComposition<V, E, F, G>(r: Result<V, E>, f: E -> F, g: F -> G)
    ensures r.MapError(f).MapError(g) == r.MapError(x => g(f(x)))
  {
  }

  /** `map` and `mapError` act on different channels, so their order does not matter. */
  lemma MapMapErrorCommute<V, W, E, F>(r: Result<V, E>, f: V -> W, g: E -> F)
    ensures r.Map(f).MapError(g) == r.MapError(g).Map(f)
  {
  }

  /** Monad left identity: `success(v).andThen(f)` is exactly `f(v)`. */
  lemma AndThenLeftIdentity<V, W, E>(v: V, f: V --> Result<W, E>)
    requires f.requires(v)
    ensures Result<V, E>.Success(v).AndThen(f) == f(v)
  {
  }

  /** Monad right identity: binding with `success` changes nothing. */
  lemma AndThenRightIdentity<V, E>(r: Result<V, E>)
    ensures r.AndThen(x => Success(x)) == r
  {
  }

  /** Monad associativity: chaining two `andThen` calls equals one `andThen` with the chained mapper. */
  lemma AndThenAssociative<U, V, W, E>(r: Result<U, E>, f: U -> Result<V, E>, g: V -> Result<W, E>)
    ensures r.AndThen(f).AndThen(g) == r.AndThen(x => f(x).AndThen(g))
  {
  }

  /** `map(f)` is `andThen` with a mapper that always succeeds. */
  lemma MapIsAndThen<V, W, E>(r: Result<V, E>, f: V -> W)
    ensures r.Map(f) == r.AndThen(x => Success(f(x)))
  {
  }
}
