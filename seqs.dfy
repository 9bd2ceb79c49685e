/** `Array.prototype.filter` and the counting facts the callers rely on. */
module Seqs {
  import opened Wrappers

  /** Number of elements of `s` that satisfy `p`. */
  function Count<T>(p: T -> bool, s: seq<T>): nat {
    if s == [] then 0 else (if p(s[0]) then 1 else 0) + Count(p, s[1..])
  }

  /** `s.filter(p)`: the elements of `s` that satisfy `p`, in their original order. */
  function Filter<T>(p: T -> bool, s: seq<T>): (r: seq<T>)
    ensures |r| == Count(p, s) <= |s|
    ensures forall i :: 0 <= i < |r| ==> r[i] in s && p(r[i])
    ensures forall i :: 0 <= i < |s| && p(s[i]) ==> s[i] in r
  {
    if s == [] then []
    else if p(s[0]) then [s[0]] + Filter(p, s[1..])
    else Filter(p, s[1..])
  }

  /** Filtering commutes with concatenation: the relative order of kept elements
      is that of the input, and what is dropped from one part does not affect
      the other. */
  lemma {:induction false} FilterAppend<T>(p: T -> bool, a: seq<T>, b: seq<T>)
    ensures Filter(p, a + b) == Filter(p, a) + Filter(p, b)
  {
    if a == [] {
      assert a + b == b;
    } else {
      assert (a + b)[0] == a[0];
      assert (a + b)[1..] == a[1..] + b;
      FilterAppend(p, a[1..], b);
    }
  }

  /** A filter drops exactly the elements that fail `p` (those satisfying its
      complement `q`). */
  lemma {:induction false} FilterDropsFailing<T>(p: T -> bool, q: T -> bool, s: seq<T>)
    requires forall x :: q(x) == !p(x)
    ensures |s| - |Filter(p, s)| == Count(q, s)
  {
    if s != [] {
      FilterDropsFailing(p, q, s[1..]);
    }
  }

  /** A filter keeps everything exactly when every element satisfies `p`. */
  lemma FilterKeepsAll<T>(p: T -> bool, s: seq<T>)
    ensures Filter(p, s) == s <==> forall i :: 0 <= i < |s| ==> p(s[i])
  {
    if forall i :: 0 <= i < |s| ==> p(s[i]) {
      FilterAllKept(p, s);
    }
  }

  lemma {:induction false} FilterAllKept<T>(p: T -> bool, s: seq<T>)
    requires forall i :: 0 <= i < |s| ==> p(s[i])
    ensures Filter(p, s) == s
  {
    if s != [] {
      assert forall i :: 0 <= i < |s[1..]| ==> s[1..][i] == s[i + 1];
      FilterAllKept(p, s[1..]);
      assert [s[0]] + s[1..] == s;
    }
  }

  /** Nothing is kept when no element satisfies `p`. */
  lemma {:induction false} FilterNoneKept<T>(p: T -> bool, s: seq<T>)
    requires forall i :: 0 <= i < |s| ==> !p(s[i])
    ensures Filter(p, s) == []
  {
    if s != [] {
      assert forall i :: 0 <= i < |s[1..]| ==> s[1..][i] == s[i + 1];
      FilterNoneKept(p, s[1..]);
    }
  }

  /** `xs.map(f)` where `f` may throw (returns `Failure`): the first failure
      ends the whole mapping. */
  function MapResult<T, U, E>(f: T -> Result<U, E>, xs: seq<T>): (r: Result<seq<U>, E>)
    ensures r.Success? ==> |r.value| == |xs|
  {
    if xs == [] then Success([])
    else
      match f(xs[0])
      case Failure(e) => Failure(e)
      case Success(y) =>
        match MapResult(f, xs[1..])
        case Failure(e) => Failure(e)
        case Success(ys) => Success([y] + ys)
  }

  /** A successful mapping holds, at each position, what `f` gives for the
      element there. */
  lemma {:induction false} MapResultElements<T, U, E>(f: T -> Result<U, E>, xs: seq<T>)
    requires MapResult(f, xs).Success?
    ensures forall i :: 0 <= i < |xs| ==> f(xs[i]) == Success(MapResult(f, xs).value[i])
  {
    if xs != [] {
      MapResultElements(f, xs[1..]);
      var r := MapResult(f, xs).value;
      assert r[1..] == MapResult(f, xs[1..]).value;
      forall i | 1 <= i < |xs| ensures f(xs[i]) == Success(r[i]) {
        assert xs[1..][i - 1] == xs[i];
      }
    }
  }

  /** When `f` succeeds on every element the mapping succeeds: the failure
      branch is reached only through an element on which `f` fails. */
  lemma {:induction false} MapResultSucceeds<T, U, E>(f: T -> Result<U, E>, xs: seq<T>)
    requires forall i :: 0 <= i < |xs| ==> f(xs[i]).Success?
    ensures MapResult(f, xs).Success?
  {
    if xs != [] {
      assert forall i :: 0 <= i < |xs[1..]| ==> xs[1..][i] == xs[i + 1];
      MapResultSucceeds(f, xs[1..]);
    }
  }

  /** Mapping two lists that both map is mapping their concatenation. */
  lemma {:induction false} MapResultAppend<T, U, E>(f: T -> Result<U, E>, xs: seq<T>, ys: seq<T>)
    requires MapResult(f, xs).Success? && MapResult(f, ys).Success?
    ensures MapResult(f, xs + ys) == Success(MapResult(f, xs).value + MapResult(f, ys).value)
  {
    var b := MapResult(f, ys).value;
    if xs == [] {
      assert xs + ys == ys;
      assert [] + b == b;
    } else {
      var zs := xs + ys;
      assert zs[0] == xs[0] && zs[1..] == xs[1..] + ys;
      var y, a := f(xs[0]).value, MapResult(f, xs[1..]).value;
      MapResultAppend(f, xs[1..], ys);
      assert [y] + (a + b) == ([y] + a) + b;
    }
  }
}
