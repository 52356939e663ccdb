/** `filter` and `reject` over sequences. */
module Lists {

  function Filter<T>(keep: T -> bool, xs: seq<T>): seq<T> {
    if xs == [] then []
    else if keep(xs[0]) then [xs[0]] + Filter(keep, xs[1..])
    else Filter(keep, xs[1..])
  }

  lemma {:induction false} FilterAppend<T>(keep: T -> bool, xs: seq<T>, ys: seq<T>)
    ensures Filter(keep, xs + ys) == Filter(keep, xs) + Filter(keep, ys)
  {
    if xs == [] {
      assert xs + ys == ys;
    } else {
      FilterAppend(keep, xs[1..], ys);
      assert (xs + ys)[1..] == xs[1..] + ys;
    }
  }

  lemma {:induction false} FilterFilter<T>(outer: T -> bool, inner: T -> bool, xs: seq<T>)
    requires forall x :: x in xs && outer(x) ==> inner(x)
    ensures Filter(outer, Filter(inner, xs)) == Filter(outer, xs)
  {
    if xs != [] {
      FilterFilter(outer, inner, xs[1..]);
      if inner(xs[0]) { FilterAppend(outer, [xs[0]], Filter(inner, xs[1..])); }
    }
  }

  lemma {:induction false} FilterSome<T>(keep: T -> bool, xs: seq<T>)
    ensures Filter(keep, xs) != [] <==> exists x :: x in xs && keep(x)
  {
    if xs != [] {
      FilterSome(keep, xs[1..]);
      assert forall x :: x in xs <==> x == xs[0] || x in xs[1..];
      if keep(xs[0]) { assert xs[0] in xs; }
    }
  }

  lemma {:induction false} FilterAll<T>(keep: T -> bool, xs: seq<T>)
    requires forall x :: x in xs ==> keep(x)
    ensures Filter(keep, xs) == xs
  {
    if xs != [] { FilterAll(keep, xs[1..]); }
  }

  /** The sequence without its element number `i`. */
  function TakeOut<T>(xs: seq<T>, i: nat): seq<T>
    requires i < |xs|
  {
    xs[..i] + xs[i + 1..]
  }

  lemma FilterTakeOut<T>(keep: T -> bool, xs: seq<T>, i: nat)
    requires i < |xs|
    ensures |Filter(keep, xs)| == |Filter(keep, TakeOut(xs, i))| + if keep(xs[i]) then 1 else 0
  {
    var before, x, after := xs[..i], [xs[i]], xs[i + 1..];
    assert xs == before + (x + after) && x[1..] == [];
    FilterAppend(keep, before, x + after);
    FilterAppend(keep, x, after);
    FilterAppend(keep, before, after);
  }

  lemma {:induction false} FilterIn<T>(keep: T -> bool, xs: seq<T>)
    ensures forall x :: x in Filter(keep, xs) ==> x in xs
  {
    if xs != [] { FilterIn(keep, xs[1..]); }
  }
}
