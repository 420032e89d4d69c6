/** Failure-compatible wrappers, and the "first failure wins" map that a Python
    loop over a list performs when its body may raise. */
module Results {

  datatype Option<+T> = None | Some(value: T) {
    predicate IsFailure() { None? }
    function PropagateFailure<U>(): Option<U> requires None? { None }
    function Extract(): T requires Some? { value }
  }

  datatype Result<+T, +E> = Ok(value: T) | Err(error: E) {
    predicate IsFailure() { Err? }
    function PropagateFailure<U>(): Result<U, E> requires Err? { Err(error) }
    function Extract(): T requires Ok? { value }
  }

  /** Applies `f` to every element, front to back, the way a `for` loop whose
      body may raise does: the outcome is the list of all results, or the
      error of the first element on which `f` fails. */
  function MapAll<A, B, E>(f: A -> Result<B, E>, xs: seq<A>): (r: Result<seq<B>, E>)
    ensures r.Ok? <==> forall k :: 0 <= k < |xs| ==> f(xs[k]).Ok?
    ensures r.Ok? ==> |r.value| == |xs| && forall k :: 0 <= k < |xs| ==> f(xs[k]) == Ok(r.value[k])
    ensures r.Err? ==> exists k :: 0 <= k < |xs| && FirstFailure(f, xs, k) && f(xs[k]) == Err(r.error)
  {
    if xs == [] then Ok([])
    else
      var init := MapAll(f, xs[..|xs| - 1]);
      assert forall j :: 0 <= j < |xs| - 1 ==> xs[..|xs| - 1][j] == xs[j];
      if init.Err? then
        Err(init.error)
      else
        match f(xs[|xs| - 1])
        case Ok(b) => Ok(init.value + [b])
        case Err(e) => Err(e)
  }

  /** Index `k` is the first element of `xs` on which `f` fails. */
  predicate FirstFailure<A, B, E>(f: A -> Result<B, E>, xs: seq<A>, k: int)
  {
    0 <= k < |xs| && f(xs[k]).Err? && forall j :: 0 <= j < k ==> f(xs[j]).Ok?
  }

  /** A failure at `i` after `i` successes decides the outcome of the whole map,
      whatever comes after it. */
  lemma MapAllStopsAtFirstFailure<A, B, E>(f: A -> Result<B, E>, xs: seq<A>, i: int)
    requires FirstFailure(f, xs, i)
    ensures MapAll(f, xs) == Err(f(xs[i]).error)
  {
    var r := MapAll(f, xs);
    var k :| 0 <= k < |xs| && FirstFailure(f, xs, k) && f(xs[k]) == Err(r.error);
    assert k == i;
  }

  /** One more successful element extends a successful map of a prefix. */
  lemma MapAllExtend<A, B, E>(f: A -> Result<B, E>, xs: seq<A>, i: int, done: seq<B>)
    requires 0 <= i < |xs| && MapAll(f, xs[..i]) == Ok(done) && f(xs[i]).Ok?
    ensures MapAll(f, xs[..i + 1]) == Ok(done + [f(xs[i]).value])
  {
    assert xs[..i + 1][..i] == xs[..i];
  }

  /** A failure right after a successful prefix decides the whole map. */
  lemma MapAllFailsAt<A, B, E>(f: A -> Result<B, E>, xs: seq<A>, i: int, done: seq<B>)
    requires 0 <= i < |xs| && MapAll(f, xs[..i]) == Ok(done) && f(xs[i]).Err?
    ensures MapAll(f, xs) == Err(f(xs[i]).error)
  {
    assert forall j :: 0 <= j < i ==> xs[..i][j] == xs[j];
    MapAllStopsAtFirstFailure(f, xs, i);
  }
}
