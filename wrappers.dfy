/** Option and Result, used for JavaScript's absent values (`null`/`undefined`)
    and for asynchronous operations that either resolve or throw; and small
    helpers over sequences. */
module Wrappers {

  datatype Option<+T> = None | Some(value: T) {
    function GetOr(default: T): T {
      match this
      case Some(v) => v
      case None => default
    }
  }

  datatype Result<+R, +E> = Ok(value: R) | Err(error: E)

  /** `f` applied to each element of `xs`, in order. */
  function Map<A, B>(f: A -> B, xs: seq<A>): (ys: seq<B>)
    ensures |ys| == |xs|
    decreases |xs|
  {
    if xs == [] then [] else Map(f, xs[..|xs| - 1]) + [f(xs[|xs| - 1])]
  }

  lemma {:induction false} MapAt<A, B>(f: A -> B, xs: seq<A>, i: nat)
    requires i < |xs|
    ensures Map(f, xs)[i] == f(xs[i])
    decreases |xs|
  {
    if i < |xs| - 1 {
      MapAt(f, xs[..|xs| - 1], i);
    }
  }

  lemma MapOfTwo<A, B>(f: A -> B, x0: A, x1: A)
    ensures Map(f, [x0, x1]) == [f(x0), f(x1)]
  {
    assert [x0, x1][..1] == [x0];
    assert [x0][..0] == [];
  }

  lemma MapOfFour<A, B>(f: A -> B, x0: A, x1: A, x2: A, x3: A)
    ensures Map(f, [x0, x1, x2, x3]) == [f(x0), f(x1), f(x2), f(x3)]
  {
    assert [x0, x1, x2, x3][..3] == [x0, x1, x2];
    assert [x0, x1, x2][..2] == [x0, x1];
    MapOfTwo(f, x0, x1);
  }

  /** The values held by the first `n` options, in order. */
  function Present<A>(os: seq<Option<A>>, n: nat): (vs: seq<A>)
    requires n <= |os|
    ensures |vs| <= n
  {
    if n == 0 then []
    else Present(os, n - 1) + if os[n - 1].Some? then [os[n - 1].value] else []
  }
}
