/**
 * Chains of combinator calls, `r.andThen(f1).andThen(f2)...` and
 * `r.map(g1).map(g2)...`: the short-circuit guarantee is what lets such a chain
 * be written without a branch on the discriminant at every step.
 */
module Pipelines {
  import opened Results

  /** `r.andThen(steps[0]).andThen(steps[1])...`, left to right. */
  function Pipeline<V, E>(r: Result<V, E>, steps: seq<V -> Result<V, E>>): (out: Result<V, E>)
    ensures r.Fail? ==> out == r
    decreases |steps|
  {
    if steps == [] then r else Pipeline(r.AndThen(steps[0]), steps[1..])
  }

  /** Splitting a chain anywhere and running the two halves one after the other gives the same result. */
  lemma {:induction false} PipelineAppend<V, E>(r: Result<V, E>, a: seq<V -> Result<V, E>>, b: seq<V -> Result<V, E>>)
    ensures Pipeline(r, a + b) == Pipeline(Pipeline(r, a), b)
    decreases |a|
  {
    if a == [] {
      assert a + b == b;
    } else {
      assert (a + b)[0] == a[0];
      assert (a + b)[1..] == a[1..] + b;
      PipelineAppend(r.AndThen(a[0]), a[1..], b);
    }
  }

  /** Once a chain has failed, none of the steps after it change the result. */
  lemma PipelineStopsAtFailure<V, E>(r: Result<V, E>, a: seq<V -> Result<V, E>>, b: seq<V -> Result<V, E>>)
    requires Pipeline(r, a).Fail?
    ensures Pipeline(r, a + b) == Pipeline(r, a)
  {
    PipelineAppend(r, a, b);
  }

  /**
   * A chain that starts from a Success and ends in a Fail ends with the error
   * produced by its first failing step: every step before it succeeded.
   */
  lemma {:induction false} PipelineFirstFailure<V, E>(v: V, steps: seq<V -> Result<V, E>>)
    requires Pipeline(Success(v), steps).Fail?
    ensures exists k :: 0 <= k < |steps| && Pipeline(Success(v), steps[..k]).Success?
                        && steps[k](Pipeline(Success(v), steps[..k]).value) == Pipeline(Success(v), steps)
    decreases |steps|
  {
    assert steps != [];
    var first := steps[0](v);
    assert Pipeline(Success(v), steps) == Pipeline(first, steps[1..]);
    assert steps[..0] == [];
    if first.Fail? {
      assert Pipeline(Success(v), steps[..0]) == Success(v);
    } else {
      PipelineFirstFailure(first.value, steps[1..]);
      var k :| 0 <= k < |steps[1..]| && Pipeline(Success(first.value), steps[1..][..k]).Success?
               && steps[1..][k](Pipeline(Success(first.value), steps[1..][..k]).value) == Pipeline(first, steps[1..]);
      var prefix := steps[..k + 1];
      assert prefix[0] == steps[0] && prefix[1..] == steps[1..][..k];
      assert Pipeline(Success(v), prefix) == Pipeline(first, steps[1..][..k]);
      assert steps[k + 1] == steps[1..][k];
    }
  }

  /** Applies `fs[0]`, then `fs[1]`, ... to a plain value. */
  function ApplyAll<V>(x: V, fs: seq<V -> V>): V
    decreases |fs|
  {
    if fs == [] then x else ApplyAll(fs[0](x), fs[1..])
  }

  /** `r.map(fs[0]).map(fs[1])...`, left to right. */
  function MapAll<V, E>(r: Result<V, E>, fs: seq<V -> V>): (out: Result<V, E>)
    ensures out.SuccessFlag() == r.SuccessFlag()
    ensures r.Fail? ==> out == r
    decreases |fs|
  {
    if fs == [] then r else MapAll(r.Map(fs[0]), fs[1..])
  }

  /** The composition law for any number of `map` calls: the chain is one `map` of the composed mapper. */
  lemma {:induction false} MapAllComposes<V, E>(r: Result<V, E>, fs: seq<V -> V>)
    ensures MapAll(r, fs) == r.Map(x => ApplyAll(x, fs))
    decreases |fs|
  {
    if fs != [] {
      MapAllComposes(r.Map(fs[0]), fs[1..]);
      match r
      case Success(v) =>
        assert ApplyAll(v, fs) == ApplyAll(fs[0](v), fs[1..]);
      case Fail(_) =>
    }
  }
}
