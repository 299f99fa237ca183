/** Order-preserving selection from a sequence: the shape of every
  * `for x in xs: if p(x): out.append(x)` loop in the plug-ins. */
module SeqFilter {
  import opened Wrappers

  /** The elements of `xs` that satisfy `p`, in their original order. */
  function Filter<T>(xs: seq<T>, p: T -> bool): (r: seq<T>)
    ensures |r| <= |xs|
    ensures forall k :: 0 <= k < |r| ==> p(r[k])
  {
    if xs == [] then []
    else Filter(xs[..|xs| - 1], p) + (if p(xs[|xs| - 1]) then [xs[|xs| - 1]] else [])
  }

  /** Filtering a concatenation filters each part and keeps the parts in
    * order: what comes earlier in the input comes earlier in the output. */
  lemma {:induction false} FilterAppend<T>(a: seq<T>, b: seq<T>, p: T -> bool)
    ensures Filter(a + b, p) == Filter(a, p) + Filter(b, p)
    decreases |b|
  {
    if b == [] {
      assert a + b == a;
    } else {
      var b' := b[..|b| - 1];
      assert (a + b)[..|a + b| - 1] == a + b';
      FilterAppend(a, b', p);
    }
  }

  /** Two disjoint filters whose union is a third one split that third
    * selection exactly: every selected element lands in exactly one part. */
  lemma {:induction false} FilterSplit<T>(xs: seq<T>, p: T -> bool, q: T -> bool, r: T -> bool)
    requires forall x :: r(x) <==> p(x) || q(x)
    requires forall x :: !(p(x) && q(x))
    ensures multiset(Filter(xs, p)) + multiset(Filter(xs, q)) == multiset(Filter(xs, r))
    ensures |Filter(xs, p)| + |Filter(xs, q)| == |Filter(xs, r)|
    decreases |xs|
  {
    if xs != [] {
      FilterSplit(xs[..|xs| - 1], p, q, r);
    }
  }

  /** `p` and its negation split the input: their sizes add up to the input's. */
  lemma {:induction false} FilterComplement<T>(xs: seq<T>, p: T -> bool, q: T -> bool)
    requires forall x :: q(x) <==> !p(x)
    ensures multiset(Filter(xs, p)) + multiset(Filter(xs, q)) == multiset(xs)
    ensures |Filter(xs, p)| + |Filter(xs, q)| == |xs|
    decreases |xs|
  {
    if xs != [] {
      var init := xs[..|xs| - 1];
      FilterComplement(init, p, q);
      assert xs == init + [xs[|xs| - 1]];
    }
  }

  /** The selection is empty exactly when no element satisfies `p`. */
  lemma {:induction false} FilterEmpty<T>(xs: seq<T>, p: T -> bool)
    ensures Filter(xs, p) == [] <==> forall k :: 0 <= k < |xs| ==> !p(xs[k])
    decreases |xs|
  {
    if xs != [] {
      var init := xs[..|xs| - 1];
      FilterEmpty(init, p);
      assert forall k :: 0 <= k < |init| ==> init[k] == xs[k];
    }
  }

  /** `[f(x) for x in xs]`. */
  function Map<T, U>(xs: seq<T>, f: T -> U): (r: seq<U>)
    ensures |r| == |xs|
    ensures forall i :: 0 <= i < |xs| ==> r[i] == f(xs[i])
  {
    if xs == [] then []
    else Map(xs[..|xs| - 1], f) + [f(xs[|xs| - 1])]
  }

  lemma MapSnoc<T, U>(xs: seq<T>, x: T, f: T -> U)
    ensures Map(xs + [x], f) == Map(xs, f) + [f(x)]
  {
    assert (xs + [x])[..|xs|] == xs;
  }

  /** The concatenation of `f(x)` for every `x` of `xs`, in order. */
  function FlatMap<T, U>(xs: seq<T>, f: T -> seq<U>): seq<U> {
    if xs == [] then []
    else FlatMap(xs[..|xs| - 1], f) + f(xs[|xs| - 1])
  }

  lemma {:induction false} FlatMapAppend<T, U>(a: seq<T>, b: seq<T>, f: T -> seq<U>)
    ensures FlatMap(a + b, f) == FlatMap(a, f) + FlatMap(b, f)
    decreases |b|
  {
    if b == [] {
      assert a + b == a;
    } else {
      var init := b[..|b| - 1];
      FlatMapAppend(a, init, f);
      assert (a + b)[..|a + b| - 1] == a + init;
    }
  }

  /** The position of the last element of `xs` that satisfies `p`, if any. */
  function LastWhere<T>(xs: seq<T>, p: T -> bool): (r: Option<nat>)
    ensures r.None? <==> forall i :: 0 <= i < |xs| ==> !p(xs[i])
    ensures r.Some? ==> r.value < |xs| && p(xs[r.value]) && forall j :: r.value < j < |xs| ==> !p(xs[j])
  {
    if xs == [] then None
    else if p(xs[|xs| - 1]) then Some(|xs| - 1)
    else LastWhere(xs[..|xs| - 1], p)
  }
}
