// The elements of a list that meet a condition, in order.
module Filters {

  function Filter<T(!new)>(keep: T -> bool, xs: seq<T>): (r: seq<T>)
    ensures |r| <= |xs|
    ensures forall x :: x in r <==> x in xs && keep(x)
  {
    if xs == [] then [] else (if keep(xs[0]) then [xs[0]] else []) + Filter(keep, xs[1..])
  }

  lemma {:induction false} FilterConcat<T(!new)>(keep: T -> bool, a: seq<T>, b: seq<T>)
    ensures Filter(keep, a + b) == Filter(keep, a) + Filter(keep, b)
  {
    if a == [] {
      assert a + b == b;
    } else {
      assert (a + b)[1..] == a[1..] + b;
      FilterConcat(keep, a[1..], b);
    }
  }

  lemma {:induction false} FilterAll<T(!new)>(keep: T -> bool, xs: seq<T>)
    requires forall x :: x in xs ==> keep(x)
    ensures Filter(keep, xs) == xs
  {
    if xs != [] {
      assert xs[0] in xs;
      FilterAll(keep, xs[1..]);
    }
  }

  function Others<T(==,!new)>(x: T): T -> bool {
    y => y != x
  }

  // ys is xs without the first x.
  ghost predicate FirstTakenOut<T(!new)>(xs: seq<T>, x: T, ys: seq<T>) {
    if x in xs then exists i: nat :: TakenOutAt(xs, x, i, ys) else ys == xs
  }

  ghost predicate TakenOutAt<T(!new)>(xs: seq<T>, x: T, i: nat, ys: seq<T>) {
    i < |xs| && xs[i] == x && x !in xs[..i] && ys == xs[..i] + xs[i + 1..]
  }

  lemma {:induction false} TakenOutLater<T(!new)>(first: T, xs: seq<T>, x: T, i: nat, ys: seq<T>)
    requires first != x && TakenOutAt(xs, x, i, ys)
    ensures TakenOutAt([first] + xs, x, i + 1, [first] + ys)
  {
    var all := [first] + xs;
    assert all[..i + 1] == [first] + xs[..i] && all[i + 2..] == xs[i + 1..];
  }

  lemma {:induction false} OthersStay<T(!new)>(xs: seq<T>, x: T, ys: seq<T>)
    requires FirstTakenOut(xs, x, ys)
    ensures Filter(Others(x), ys) == Filter(Others(x), xs)
  {
    if x in xs {
      var i: nat :| TakenOutAt(xs, x, i, ys);
      FilterWithout(xs[..i], x, xs[i + 1..]);
      assert xs == xs[..i] + [x] + xs[i + 1..];
    }
  }

  lemma {:induction false} FilterWithout<T(!new)>(a: seq<T>, x: T, b: seq<T>)
    ensures Filter(Others(x), a + [x] + b) == Filter(Others(x), a + b)
  {
    FilterConcat(Others(x), a + [x], b);
    FilterConcat(Others(x), a, [x]);
    FilterConcat(Others(x), a, b);
    assert [x][1..] == [] && Filter(Others(x), [x]) == [];
  }
}
