/** Failure-carrying values shared by every module of the model. */
module Wrappers {

  /** A value that may be absent: Rust's `Option`, or Python's `None`. */
  datatype Option<+T> = None | Some(value: T)

  /** A computation that either produced a value or failed with an error: Rust's `Result`. */
  datatype Result<+T, +E> = Ok(value: T) | Err(error: E)

  /**
   * `xs.iter().map(f).collect::<Result<Vec<_>, _>>()`: every value in order when every call
   * succeeds, otherwise the error of the first call that fails.
   */
  function CollectMap<A, T, E>(xs: seq<A>, f: A -> Result<T, E>): (r: Result<seq<T>, E>)
    ensures r.Ok? <==> forall k | 0 <= k < |xs| :: f(xs[k]).Ok?
    ensures r.Ok? ==> |r.value| == |xs| && forall k | 0 <= k < |xs| :: r.value[k] == f(xs[k]).value
    ensures r.Err? ==> exists k | 0 <= k < |xs| ::
                         && (forall j | 0 <= j < k :: f(xs[j]).Ok?)
                         && f(xs[k]).Err? && r.error == f(xs[k]).error
    decreases |xs|
  {
    if xs == [] then Ok([])
    else
      assert forall k | 1 <= k < |xs| :: xs[k] == xs[1..][k - 1];
      match f(xs[0])
      case Err(e) => Err(e)
      case Ok(v) =>
        match CollectMap(xs[1..], f)
        case Err(e) => Err(e)
        case Ok(vs) => Ok([v] + vs)
  }

  /**
   * Python's `list(map(f, xs))` for a conversion that raises on bad input: every value in order
   * when every call succeeds, otherwise `None`.
   */
  function CollectSome<A, V>(xs: seq<A>, f: A -> Option<V>): (r: Option<seq<V>>)
    ensures r.Some? <==> forall k | 0 <= k < |xs| :: f(xs[k]).Some?
    ensures r.Some? ==> |r.value| == |xs| && forall k | 0 <= k < |xs| :: f(xs[k]) == Some(r.value[k])
    decreases |xs|
  {
    if xs == [] then Some([])
    else
      assert forall k | 1 <= k < |xs| :: xs[k] == xs[1..][k - 1];
      match f(xs[0])
      case None => None
      case Some(v) =>
        match CollectSome(xs[1..], f)
        case None => None
        case Some(vs) => Some([v] + vs)
  }

  /** When `f` gives `vs[k]` for every `xs[k]`, collecting gives `vs`. */
  lemma CollectSomeOfAll<A, V>(xs: seq<A>, f: A -> Option<V>, vs: seq<V>)
    requires |xs| == |vs| && forall k | 0 <= k < |xs| :: f(xs[k]) == Some(vs[k])
    ensures CollectSome(xs, f) == Some(vs)
  {
    var r := CollectSome(xs, f);
    assert r.Some?;
    assert r.value == vs;
  }

  /** When `f` gives `Ok(vs[k])` for every `xs[k]`, collecting gives `Ok(vs)`. */
  lemma CollectMapOfAll<A, T, E>(xs: seq<A>, f: A -> Result<T, E>, vs: seq<T>)
    requires |xs| == |vs| && forall k | 0 <= k < |xs| :: f(xs[k]) == Ok(vs[k])
    ensures CollectMap(xs, f) == Ok(vs)
  {
    var r := CollectMap(xs, f);
    assert r.Ok?;
    assert r.value == vs;
  }
}
