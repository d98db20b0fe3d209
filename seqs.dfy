/** The array operations the application uses on loaded lists:
    `findIndex`, `find`, `filter` and a `map` that replaces matching entries. */
module Seqs {
  import opened Wrappers

  /** `xs.findIndex(p)`, with `None` for JavaScript's `-1`. */
  function FindIndex<T>(xs: seq<T>, p: T -> bool): (r: Option<nat>)
    ensures r.Some? ==> r.value < |xs| && p(xs[r.value])
    ensures r.Some? ==> forall j :: 0 <= j < r.value ==> !p(xs[j])
    ensures r.None? <==> forall j :: 0 <= j < |xs| ==> !p(xs[j])
    decreases |xs|
  {
    if xs == [] then None
    else if p(xs[0]) then Some(0)
    else match FindIndex(xs[1..], p)
      case None => None
      case Some(i) => Some(i + 1)
  }

  /** `xs.find(p) || null`: the first element satisfying `p`. */
  function Find<T>(xs: seq<T>, p: T -> bool): (r: Option<T>)
    ensures r.None? <==> forall j :: 0 <= j < |xs| ==> !p(xs[j])
    ensures r.Some? ==> exists i :: 0 <= i < |xs| && xs[i] == r.value && p(xs[i])
                                    && forall j :: 0 <= j < i ==> !p(xs[j])
  {
    match FindIndex(xs, p)
    case None => None
    case Some(i) => Some(xs[i])
  }

  /** Appending never changes what an earlier match finds; a match only in the
      appended part is found at its shifted index. */
  lemma FindAppend<T>(xs: seq<T>, ys: seq<T>, p: T -> bool)
    ensures FindIndex(xs, p).Some? ==> FindIndex(xs + ys, p) == FindIndex(xs, p)
    ensures FindIndex(xs, p).None? ==>
      FindIndex(xs + ys, p) == match FindIndex(ys, p)
                               case Some(k) => Some(|xs| + k)
                               case None => None
  {
    var r := FindIndex(xs + ys, p);
    if FindIndex(xs, p).Some? {
      var i := FindIndex(xs, p).value;
      assert (xs + ys)[i] == xs[i];
      assert r.Some?;
      assert r.value <= i;
      assert xs[r.value] == (xs + ys)[r.value];
    } else if FindIndex(ys, p).Some? {
      var k := FindIndex(ys, p).value;
      assert (xs + ys)[|xs| + k] == ys[k];
      assert r.Some?;
      assert forall j :: 0 <= j < |xs| ==> (xs + ys)[j] == xs[j];
      assert r.value >= |xs|;
      assert (xs + ys)[r.value] == ys[r.value - |xs|];
      assert forall j :: |xs| <= j < r.value ==> (xs + ys)[j] == ys[j - |xs|];
    } else {
      assert forall j :: 0 <= j < |xs + ys| ==> (xs + ys)[j] == if j < |xs| then xs[j] else ys[j - |xs|];
    }
  }

  /** `FindIndex` returns the index of a match that has no match before it. */
  lemma FindIndexAt<T>(xs: seq<T>, q: T -> bool, i: nat)
    requires i < |xs| && q(xs[i])
    requires forall j :: 0 <= j < i ==> !q(xs[j])
    ensures FindIndex(xs, q) == Some(i)
  {
    var r := FindIndex(xs, q);
    assert r.Some?;
    assert r.value <= i;
  }

  /** `xs.filter(p)`. */
  function Filter<T>(xs: seq<T>, p: T -> bool): (r: seq<T>)
    ensures |r| <= |xs|
    ensures forall y :: y in r ==> y in xs && p(y)
    decreases |xs|
  {
    if xs == [] then []
    else if p(xs[0]) then [xs[0]] + Filter(xs[1..], p)
    else Filter(xs[1..], p)
  }

  /** Every element of `xs` that satisfies `p` survives the filter. */
  lemma {:induction false} FilterKeeps<T>(xs: seq<T>, p: T -> bool, y: T)
    requires y in xs && p(y)
    ensures y in Filter(xs, p)
    decreases |xs|
  {
    if xs[0] != y {
      FilterKeeps(xs[1..], p, y);
    }
  }

  /** Filtering distributes over concatenation, so it keeps the original order. */
  lemma {:induction false} FilterAppend<T>(xs: seq<T>, ys: seq<T>, p: T -> bool)
    ensures Filter(xs + ys, p) == Filter(xs, p) + Filter(ys, p)
    decreases |xs|
  {
    if xs == [] {
      assert xs + ys == ys;
    } else {
      assert (xs + ys)[0] == xs[0];
      assert (xs + ys)[1..] == xs[1..] + ys;
      FilterAppend(xs[1..], ys, p);
    }
  }

  /** A filter whose predicate holds everywhere keeps the whole list. */
  lemma {:induction false} FilterAll<T>(xs: seq<T>, p: T -> bool)
    requires forall j :: 0 <= j < |xs| ==> p(xs[j])
    ensures Filter(xs, p) == xs
    decreases |xs|
  {
    if xs != [] {
      FilterAll(xs[1..], p);
    }
  }

  /** `ys` is obtained from `xs` by deleting elements, keeping the order. */
  ghost predicate IsSubsequence<T>(ys: seq<T>, xs: seq<T>)
    decreases |xs|
  {
    if xs == [] then ys == []
    else (ys != [] && ys[0] == xs[0] && IsSubsequence(ys[1..], xs[1..]))
         || IsSubsequence(ys, xs[1..])
  }

  /** The filtered list is an order-preserving subsequence of the input. */
  lemma {:induction false} FilterIsSubsequence<T>(xs: seq<T>, p: T -> bool)
    ensures IsSubsequence(Filter(xs, p), xs)
    decreases |xs|
  {
    if xs != [] {
      FilterIsSubsequence(xs[1..], p);
      if p(xs[0]) {
        assert Filter(xs, p)[1..] == Filter(xs[1..], p);
      }
    }
  }

  /** `xs.map(x => p(x) ? y : x)`: replaces every element satisfying `p` by `y`. */
  function ReplaceWhere<T>(xs: seq<T>, p: T -> bool, y: T): (r: seq<T>)
    ensures |r| == |xs|
    ensures forall j :: 0 <= j < |xs| ==> r[j] == if p(xs[j]) then y else xs[j]
  {
    seq(|xs|, j requires 0 <= j < |xs| => if p(xs[j]) then y else xs[j])
  }
}
