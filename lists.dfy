/**
 * The list-building loops the adapters share: mapping every element with a
 * step that may throw (so the first failure loses the whole list), and
 * collecting values without repeats, in the order each first appears, the
 * way `if (result.indexOf(x) < 0) result.push(x)` does.
 */
module Lists {
  import opened Wrappers

  /** `f` applied to every element, in order. */
  function Map<A, B>(xs: seq<A>, f: A -> B): (r: seq<B>)
    ensures |r| == |xs| && forall i :: 0 <= i < |xs| ==> r[i] == f(xs[i])
  {
    seq(|xs|, i requires 0 <= i < |xs| => f(xs[i]))
  }

  /** Concatenation regroups freely. */
  lemma AppendAssoc<T>(x: seq<T>, y: seq<T>, z: seq<T>)
    ensures x + (y + z) == (x + y) + z
  {
  }

  /** Mapping one more element of a prefix appends its image. */
  lemma MapSnoc<A, B>(xs: seq<A>, i: nat, f: A -> B)
    requires i < |xs|
    ensures Map(xs[..i + 1], f) == Map(xs[..i], f) + [f(xs[i])]
  {
    var l := Map(xs[..i + 1], f);
    var r := Map(xs[..i], f) + [f(xs[i])];
    forall k | 0 <= k < |l| ensures l[k] == r[k] {
      if k < i {
        assert xs[..i + 1][k] == xs[..i][k];
      }
    }
  }

  /**
   * The values of `f` on every element, in order, when none is missing; one
   * missing value (a throw inside the loop) makes the whole list missing.
   */
  function AllSome<A, B>(xs: seq<A>, f: A -> Option<B>): (r: Option<seq<B>>)
    ensures r.Some? <==> forall i :: 0 <= i < |xs| ==> f(xs[i]).Some?
    ensures r.Some? ==> |r.value| == |xs| && forall i :: 0 <= i < |xs| ==> Some(r.value[i]) == f(xs[i])
  {
    if forall i :: 0 <= i < |xs| ==> f(xs[i]).Some? then
      Some(seq(|xs|, i requires 0 <= i < |xs| => f(xs[i]).value))
    else None
  }

  /** `xs.filter(p)`: the elements that pass, in their order. */
  function Filter<T(!new)>(xs: seq<T>, p: T -> bool): (r: seq<T>)
    ensures |r| <= |xs|
    ensures forall x :: x in r <==> x in xs && p(x)
    ensures (forall i :: 0 <= i < |xs| ==> p(xs[i])) ==> r == xs
  {
    if xs == [] then []
    else (if p(xs[0]) then [xs[0]] else []) + Filter(xs[1..], p)
  }

  /** Filtering a concatenation filters each part. */
  lemma {:induction false} FilterAppend<T(!new)>(xs: seq<T>, ys: seq<T>, p: T -> bool)
    ensures Filter(xs + ys, p) == Filter(xs, p) + Filter(ys, p)
  {
    if xs == [] {
      assert xs + ys == ys;
    } else {
      assert (xs + ys)[1..] == xs[1..] + ys;
      FilterAppend(xs[1..], ys, p);
    }
  }

  /** `for (x of xs) result.push(f(x))`, where computing `f(x)` may throw. */
  method CollectAll<A, B>(xs: seq<A>, f: A -> Option<B>) returns (r: Option<seq<B>>)
    ensures r == AllSome(xs, f)
  {
    var result: seq<B> := [];
    var i := 0;
    while i < |xs|
      invariant 0 <= i <= |xs|
      invariant |result| == i
      invariant forall k :: 0 <= k < i ==> Some(result[k]) == f(xs[k])
    {
      var y := f(xs[i]);
      if y.None? {
        assert !f(xs[i]).Some?;
        return None;
      }
      result := result + [y.value];
      i := i + 1;
    }
    assert result == AllSome(xs, f).value;
    return Some(result);
  }

  /**
   * `for (x of xs) { y = f(x); if (result.indexOf(y) < 0) result.push(y) }`:
   * every value once, in the order of its first occurrence.
   */
  method CollectDistinct<A, B(==)>(xs: seq<A>, f: A -> B) returns (r: seq<B>)
    ensures r == Dedup(Map(xs, f))
    ensures Distinct(r)
    ensures forall y :: y in r <==> y in Map(xs, f)
  {
    r := [];
    var i := 0;
    while i < |xs|
      invariant 0 <= i <= |xs|
      invariant r == Dedup(Map(xs[..i], f))
    {
      var y := f(xs[i]);
      MapSnoc(xs, i, f);
      DedupSnoc(Map(xs[..i], f), y);
      if y !in r {
        r := r + [y];
      }
      i := i + 1;
    }
    assert xs[..i] == xs;
    DedupSpec(Map(xs, f));
  }


  /** The loop `if (result.indexOf(x) < 0) result.push(x)`: the distinct elements in first-seen order. */
  function Dedup<T(==)>(xs: seq<T>): (r: seq<T>)
    ensures |r| <= |xs|
  {
    if xs == [] then []
    else
      var d := Dedup(xs[..|xs| - 1]);
      if xs[|xs| - 1] in d then d else d + [xs[|xs| - 1]]
  }

  predicate Distinct<T(==)>(xs: seq<T>) {
    forall i, j :: 0 <= i < j < |xs| ==> xs[i] != xs[j]
  }

  /** The index of the first occurrence of `x` in `xs`. */
  function FirstIndex<T(==)>(xs: seq<T>, x: T): (i: nat)
    requires x in xs
    ensures i < |xs| && xs[i] == x && x !in xs[..i]
  {
    if xs[0] == x then 0 else 1 + FirstIndex(xs[1..], x)
  }

  /**
   * De-duplication keeps exactly the elements of the input, each once, in the
   * order of their first occurrence.
   */
  lemma {:induction false} DedupSpec<T>(xs: seq<T>)
    ensures Distinct(Dedup(xs))
    ensures forall x :: x in Dedup(xs) <==> x in xs
    ensures forall i, j :: 0 <= i < j < |Dedup(xs)| ==> FirstIndex(xs, Dedup(xs)[i]) < FirstIndex(xs, Dedup(xs)[j])
  {
    if xs != [] {
      var p := xs[..|xs| - 1];
      var x := xs[|xs| - 1];
      DedupSpec(p);
      assert xs == p + [x];
      var d := Dedup(p);
      forall y | y in p ensures FirstIndex(xs, y) == FirstIndex(p, y) {
        FirstIndexPrefix(p, x, y);
      }
      if x !in d {
        assert x !in p;
        FirstIndexLast(p, x);
      }
    }
  }

  lemma {:induction false} FirstIndexPrefix<T>(p: seq<T>, x: T, y: T)
    requires y in p
    ensures FirstIndex(p + [x], y) == FirstIndex(p, y)
  {
    if p[0] != y {
      assert (p + [x])[1..] == p[1..] + [x];
      FirstIndexPrefix(p[1..], x, y);
    }
  }

  lemma {:induction false} FirstIndexLast<T>(p: seq<T>, x: T)
    requires x !in p
    ensures FirstIndex(p + [x], x) == |p|
  {
    if p != [] {
      assert (p + [x])[1..] == p[1..] + [x];
      FirstIndexLast(p[1..], x);
    }
  }

  /** One more element: the de-duplicated prefix grows by that element exactly when it is new. */
  lemma DedupSnoc<T>(xs: seq<T>, x: T)
    ensures Dedup(xs + [x]) == if x in Dedup(xs) then Dedup(xs) else Dedup(xs) + [x]
  {
    assert (xs + [x])[..|xs|] == xs;
  }
}
