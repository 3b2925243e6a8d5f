/** Values that may be absent, and computations that may raise a Python exception.
    Only the text of an exception (what `str(e)` gives) ever reaches a caller of
    the modelled code, so a raised exception is represented by that text. */
module Outcomes {

  datatype Option<+T> = None | Some(value: T)

  datatype Outcome<+T> = Ok(value: T) | Raised(message: string)

  /** A Python `for` loop over `xs` whose body computes `f(x)` and may raise:
      the results in order, or the exception of the first element on which
      `f` raises (later elements are never looked at). */
  function MapAll<A, B>(f: A -> Outcome<B>, xs: seq<A>): (r: Outcome<seq<B>>)
    ensures r.Ok? <==> forall j :: 0 <= j < |xs| ==> f(xs[j]).Ok?
    ensures r.Ok? ==> |r.value| == |xs| && forall j :: 0 <= j < |xs| ==> r.value[j] == f(xs[j]).value
    ensures r.Raised? ==>
      exists k :: 0 <= k < |xs| && f(xs[k]) == Raised(r.message) && forall j :: 0 <= j < k ==> f(xs[j]).Ok?
    decreases |xs|
  {
    if xs == [] then Ok([])
    else
      var n := |xs| - 1;
      assert forall j :: 0 <= j < n ==> xs[..n][j] == xs[j];
      match MapAll(f, xs[..n])
      case Raised(m) => Raised(m)
      case Ok(done) =>
        match f(xs[n])
        case Raised(m) => Raised(m)
        case Ok(y) => Ok(done + [y])
  }

  /** The loop stops at the first element that raises, and its exception is the loop's. */
  lemma MapAllFirstFailure<A, B>(f: A -> Outcome<B>, xs: seq<A>, i: nat)
    requires i < |xs| && f(xs[i]).Raised?
    requires forall j :: 0 <= j < i ==> f(xs[j]).Ok?
    ensures MapAll(f, xs) == Raised(f(xs[i]).message)
  {
    var r := MapAll(f, xs);
    assert r.Raised?;
    var k :| 0 <= k < |xs| && f(xs[k]) == Raised(r.message) && forall j :: 0 <= j < k ==> f(xs[j]).Ok?;
    assert k == i;
  }

  /** When every element passes, the loop's result is determined element by element. */
  lemma MapAllAllOk<A, B>(f: A -> Outcome<B>, xs: seq<A>, ys: seq<B>)
    requires |ys| == |xs|
    requires forall j :: 0 <= j < |xs| ==> f(xs[j]) == Ok(ys[j])
    ensures MapAll(f, xs) == Ok(ys)
  {
    var r := MapAll(f, xs);
    assert r.Ok?;
    assert r.value == ys;
  }

  /** Once a prefix of the loop has raised, the rest of the loop is never run. */
  lemma MapAllPrefixRaised<A, B>(f: A -> Outcome<B>, xs: seq<A>, n: nat)
    requires n <= |xs| && MapAll(f, xs[..n]).Raised?
    ensures MapAll(f, xs) == MapAll(f, xs[..n])
  {
    var p := xs[..n];
    var k :| 0 <= k < |p| && f(p[k]) == Raised(MapAll(f, p).message) && forall j :: 0 <= j < k ==> f(p[j]).Ok?;
    assert forall j :: 0 <= j <= k ==> p[j] == xs[j];
    MapAllFirstFailure(f, xs, k);
  }

  /** One more round of the loop, when it does not raise, appends one result. */
  lemma MapAllStep<A, B>(f: A -> Outcome<B>, xs: seq<A>, n: nat)
    requires n < |xs| && MapAll(f, xs[..n]).Ok? && f(xs[n]).Ok?
    ensures MapAll(f, xs[..n + 1]) == Ok(MapAll(f, xs[..n]).value + [f(xs[n]).value])
  {
    assert xs[..n + 1][..n] == xs[..n];
  }

  /** One more round of the loop that raises ends the whole loop with its exception. */
  lemma MapAllStepRaised<A, B>(f: A -> Outcome<B>, xs: seq<A>, n: nat)
    requires n < |xs| && MapAll(f, xs[..n]).Ok? && f(xs[n]).Raised?
    ensures MapAll(f, xs) == Raised(f(xs[n]).message)
  {
    assert xs[..n + 1][..n] == xs[..n];
    MapAllPrefixRaised(f, xs, n + 1);
  }

  /** One more round of a loop that overwrites element `i` with its result:
      the results so far are the new prefix. */
  lemma MapAllUpdate<A>(f: A -> Outcome<A>, xs: seq<A>, ys: seq<A>, i: nat, y: A)
    requires i < |xs| == |ys| && MapAll(f, xs[..i]) == Ok(ys[..i]) && f(xs[i]) == Ok(y)
    ensures MapAll(f, xs[..i + 1]) == Ok(ys[i := y][..i + 1])
  {
    MapAllStep(f, xs, i);
    assert ys[i := y][..i + 1] == ys[..i] + [y];
  }
}
