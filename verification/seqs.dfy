/** Generic searches and filters over sequences, shared by the table and
    symbol selection logic. */
module Seqs {
  import opened Wrappers

  /** The position of the first element satisfying `p` (a `for ... : if p: return`). */
  function FirstWhere<T>(xs: seq<T>, p: T -> bool): (r: Option<nat>)
    ensures r.None? <==> forall i :: 0 <= i < |xs| ==> !p(xs[i])
    ensures r.Some? ==> r.value < |xs| && p(xs[r.value])
                        && forall j :: 0 <= j < r.value ==> !p(xs[j])
  {
    if |xs| == 0 then None
    else if p(xs[0]) then Some(0)
    else
      match FirstWhere(xs[1..], p)
      case None => None
      case Some(i) => Some(i + 1)
  }

  /** The position of the last element equal to `x`. */
  function LastIndexOf<T(==)>(xs: seq<T>, x: T): (r: Option<nat>)
    ensures r.None? <==> x !in xs
    ensures r.Some? ==> r.value < |xs| && xs[r.value] == x
                        && forall j :: r.value < j < |xs| ==> xs[j] != x
  {
    if |xs| == 0 then None
    else if xs[|xs| - 1] == x then Some(|xs| - 1)
    else
      assert xs == xs[..|xs| - 1] + [xs[|xs| - 1]];
      LastIndexOf(xs[..|xs| - 1], x)
  }

  /** The present results of `f` over `xs`, in order. */
  function FilterMap<T, U>(xs: seq<T>, f: T -> Option<U>): (r: seq<U>)
    ensures |r| <= |xs|
    ensures forall k :: 0 <= k < |r| ==> exists i :: 0 <= i < |xs| && f(xs[i]) == Some(r[k])
  {
    if |xs| == 0 then []
    else
      var rest := FilterMap(xs[1..], f);
      assert forall k :: 0 <= k < |rest| ==> exists i :: 0 <= i < |xs| && f(xs[i]) == Some(rest[k]) by {
        forall k | 0 <= k < |rest|
          ensures exists i :: 0 <= i < |xs| && f(xs[i]) == Some(rest[k])
        {
          var i :| 0 <= i < |xs[1..]| && f(xs[1..][i]) == Some(rest[k]);
          assert xs[i + 1] == xs[1..][i];
        }
      }
      Present(f(xs[0])) + rest
  }

  /** The value of an option as a sequence of zero or one elements. */
  function Present<U>(o: Option<U>): (r: seq<U>)
    ensures |r| <= 1
    ensures o.Some? <==> |r| == 1
    ensures o.Some? ==> r[0] == o.value
  {
    match o
    case Some(y) => [y]
    case None => []
  }

  /** One step of the filter, stated without the membership clause. */
  lemma FilterMapStep<T, U>(xs: seq<T>, f: T -> Option<U>)
    requires |xs| > 0
    ensures FilterMap(xs, f) == Present(f(xs[0])) + FilterMap(xs[1..], f)
  {
  }

  /** Filtering works element by element, so it distributes over concatenation. */
  lemma {:induction false} FilterMapAppend<T, U>(a: seq<T>, b: seq<T>, f: T -> Option<U>)
    ensures FilterMap(a + b, f) == FilterMap(a, f) + FilterMap(b, f)
  {
    if |a| > 0 {
      assert (a + b)[0] == a[0];
      assert (a + b)[1..] == a[1..] + b;
      FilterMapAppend(a[1..], b, f);
      FilterMapStep(a + b, f);
      FilterMapStep(a, f);
    } else {
      assert a + b == b;
    }
  }

  /** A function that returns every element unchanged filters nothing out. */
  lemma {:induction false} FilterMapIdentity<T>(xs: seq<T>, f: T -> Option<T>)
    requires forall i :: 0 <= i < |xs| ==> f(xs[i]) == Some(xs[i])
    ensures FilterMap(xs, f) == xs
  {
    if |xs| > 0 {
      FilterMapIdentity(xs[1..], f);
    }
  }
}
