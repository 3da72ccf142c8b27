/** Option and Result values shared by every module of the model.
    Python's `None` becomes `None`; a raised exception whose text the
    caller reads through `str(e)` becomes `Failure(message)`. */
module Wrappers {

  datatype Option<+T> = None | Some(value: T) {

    /** Applies `f` to the wrapped value, keeping `None` as it is. */
    function Map<U>(f: T -> U): Option<U>
    {
      match this
      case None => None
      case Some(v) => Some(f(v))
    }
  }

  datatype Result<+R, +E> = Success(value: R) | Failure(error: E)

  /** The values `f` gives for the elements of `xs`, in order, skipping
      the elements it gives `None` for. */
  function FilterMap<T, U>(f: T -> Option<U>, xs: seq<T>): (ys: seq<U>)
    ensures |ys| <= |xs|
  {
    if |xs| == 0 then []
    else (match f(xs[0]) case None => [] case Some(y) => [y]) + FilterMap(f, xs[1..])
  }

  /** Each element of a concatenation contributes on its own, in order. */
  lemma {:induction false} FilterMapConcat<T, U>(f: T -> Option<U>, xs: seq<T>, zs: seq<T>)
    ensures FilterMap(f, xs + zs) == FilterMap(f, xs) + FilterMap(f, zs)
    decreases |xs|
  {
    if |xs| > 0 {
      assert (xs + zs)[1..] == xs[1..] + zs;
      FilterMapConcat(f, xs[1..], zs);
    } else {
      assert xs + zs == zs;
    }
  }

  /** Every value kept is what `f` gives for some element. */
  lemma {:induction false} FilterMapSound<T, U>(f: T -> Option<U>, xs: seq<T>, n: nat)
    requires n < |FilterMap(f, xs)|
    ensures exists k | 0 <= k < |xs| :: f(xs[k]) == Some(FilterMap(f, xs)[n])
    decreases |xs|
  {
    var head := match f(xs[0]) case None => [] case Some(y) => [y];
    var rest := FilterMap(f, xs[1..]);
    if n < |head| {
      assert f(xs[0]) == Some(FilterMap(f, xs)[n]);
    } else {
      FilterMapSound(f, xs[1..], n - |head|);
      var k :| 0 <= k < |xs[1..]| && f(xs[1..][k]) == Some(rest[n - |head|]);
      assert f(xs[k + 1]) == Some(FilterMap(f, xs)[n]);
    }
  }

  /** Every value `f` gives for an element is kept. */
  lemma {:induction false} FilterMapComplete<T, U>(f: T -> Option<U>, xs: seq<T>, k: nat)
    requires k < |xs| && f(xs[k]).Some?
    ensures f(xs[k]).value in FilterMap(f, xs)
    decreases k
  {
    if k > 0 {
      assert xs[1..][k - 1] == xs[k];
      FilterMapComplete(f, xs[1..], k - 1);
    }
  }

  /** Elements `f` gives nothing for contribute nothing. */
  lemma {:induction false} FilterMapAllNone<T, U>(f: T -> Option<U>, xs: seq<T>)
    requires forall k | 0 <= k < |xs| :: f(xs[k]).None?
    ensures FilterMap(f, xs) == []
    decreases |xs|
  {
    if |xs| > 0 {
      assert forall k | 0 <= k < |xs[1..]| :: xs[1..][k] == xs[k + 1];
      FilterMapAllNone(f, xs[1..]);
    }
  }

  /** When `f` gives a value for every element, one is kept for each. */
  lemma {:induction false} FilterMapAllSome<T, U>(f: T -> Option<U>, xs: seq<T>)
    requires forall k | 0 <= k < |xs| :: f(xs[k]).Some?
    ensures |FilterMap(f, xs)| == |xs|
    decreases |xs|
  {
    if |xs| > 0 {
      assert forall k | 0 <= k < |xs[1..]| :: xs[1..][k] == xs[k + 1];
      FilterMapAllSome(f, xs[1..]);
    }
  }

  /** Cutting the input at `n` cuts the output where the first part's
      values end. */
  lemma FilterMapSplit<T, U>(f: T -> Option<U>, xs: seq<T>, n: nat)
    requires n <= |xs|
    ensures FilterMap(f, xs) == FilterMap(f, xs[..n]) + FilterMap(f, xs[n..])
  {
    assert xs == xs[..n] + xs[n..];
    FilterMapConcat(f, xs[..n], xs[n..]);
  }

  /** A run of elements that each give a value, with only elements
      that give none around it: one value is kept per element of the
      run. */
  lemma FilterMapRun<T, U>(f: T -> Option<U>, xs: seq<T>, a: nat, b: nat)
    requires a <= b <= |xs|
    requires forall k | 0 <= k < a :: f(xs[k]).None?
    requires forall k | a <= k < b :: f(xs[k]).Some?
    requires forall k | b <= k < |xs| :: f(xs[k]).None?
    ensures |FilterMap(f, xs)| == b - a
  {
    var x, rest := xs[..a], xs[a..];
    var y, z := rest[..b - a], rest[b - a..];
    assert FilterMap(f, x) == [] by {
      forall k | 0 <= k < |x| ensures f(x[k]).None? {
        assert x[k] == xs[k];
      }
      FilterMapAllNone(f, x);
    }
    assert |FilterMap(f, y)| == b - a by {
      forall k | 0 <= k < |y| ensures f(y[k]).Some? {
        assert y[k] == xs[a + k];
      }
      FilterMapAllSome(f, y);
    }
    assert FilterMap(f, z) == [] by {
      forall k | 0 <= k < |z| ensures f(z[k]).None? {
        assert z[k] == xs[b + k];
      }
      FilterMapAllNone(f, z);
    }
    FilterMapSplit(f, rest, b - a);
    assert |FilterMap(f, rest)| == b - a;
    FilterMapSplit(f, xs, a);
  }
}
