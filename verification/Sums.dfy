/** Sums and filters over sequences, with the few laws the other modules use. */
module Sums {

  function Sum<T(!new)>(xs: seq<T>, f: T -> int): int {
    if xs == [] then 0 else f(xs[0]) + Sum(xs[1..], f)
  }

  function Filter<T(!new)>(xs: seq<T>, keep: T -> bool): seq<T> {
    if xs == [] then []
    else if keep(xs[0]) then [xs[0]] + Filter(xs[1..], keep)
    else Filter(xs[1..], keep)
  }

  lemma {:induction false} SumConcat<T(!new)>(xs: seq<T>, ys: seq<T>, f: T -> int)
    ensures Sum(xs + ys, f) == Sum(xs, f) + Sum(ys, f)
  {
    if xs == [] {
      assert xs + ys == ys;
    } else {
      assert (xs + ys)[1..] == xs[1..] + ys;
      SumConcat(xs[1..], ys, f);
    }
  }

  lemma {:induction false} SumSplit<T(!new)>(xs: seq<T>, i: nat, f: T -> int)
    requires i < |xs|
    ensures Sum(xs, f) == Sum(xs[..i], f) + f(xs[i]) + Sum(xs[i + 1..], f)
  {
    assert xs == xs[..i] + [xs[i]] + xs[i + 1..];
    SumConcat(xs[..i] + [xs[i]], xs[i + 1..], f);
    SumConcat(xs[..i], [xs[i]], f);
    assert Sum([xs[i]], f) == f(xs[i]);
  }

  lemma {:induction false} SumUpdate<T(!new)>(xs: seq<T>, i: nat, x: T, f: T -> int)
    requires i < |xs|
    ensures Sum(xs[i := x], f) == Sum(xs, f) - f(xs[i]) + f(x)
  {
    SumSplit(xs, i, f);
    SumSplit(xs[i := x], i, f);
    assert xs[i := x][..i] == xs[..i] && xs[i := x][i + 1..] == xs[i + 1..];
  }

  lemma {:induction false} SumAppend<T(!new)>(xs: seq<T>, x: T, f: T -> int)
    ensures Sum(xs + [x], f) == Sum(xs, f) + f(x)
  {
    SumConcat(xs, [x], f);
    assert Sum([x], f) == f(x);
  }

  /** Two functions that agree on the elements, position by position, have the same sum. */
  lemma {:induction false} SumPointwise<T(!new), U(!new)>(xs: seq<T>, ys: seq<U>, f: T -> int, g: U -> int)
    requires |xs| == |ys|
    requires forall i | 0 <= i < |xs| :: f(xs[i]) == g(ys[i])
    ensures Sum(xs, f) == Sum(ys, g)
  {
    if xs != [] {
      SumPointwise(xs[1..], ys[1..], f, g);
    }
  }

  lemma {:induction false} SumZero<T(!new)>(xs: seq<T>, f: T -> int)
    requires forall i | 0 <= i < |xs| :: f(xs[i]) == 0
    ensures Sum(xs, f) == 0
  {
    if xs != [] {
      SumZero(xs[1..], f);
    }
  }

  lemma {:induction false} SumNonNegative<T(!new)>(xs: seq<T>, f: T -> int)
    requires forall i | 0 <= i < |xs| :: f(xs[i]) >= 0
    ensures Sum(xs, f) >= 0
    ensures forall i | 0 <= i < |xs| :: f(xs[i]) <= Sum(xs, f)
  {
    if xs != [] {
      SumNonNegative(xs[1..], f);
      forall i | 0 <= i < |xs| ensures f(xs[i]) <= Sum(xs, f) {
        if i > 0 {
          assert xs[i] == xs[1..][i - 1];
        }
      }
    }
  }

  function Without<T(!new)>(xs: seq<T>, j: nat): seq<T>
    requires j < |xs|
  {
    xs[..j] + xs[j + 1..]
  }

  lemma WithoutMultiset<T(!new)>(xs: seq<T>, j: nat)
    requires j < |xs|
    ensures multiset(xs) == multiset{xs[j]} + multiset(Without(xs, j))
  {
    var front, back := xs[..j], xs[j + 1..];
    assert xs == front + [xs[j]] + back;
    assert multiset(front + back) == multiset(front) + multiset(back);
  }

  lemma WithoutSum<T(!new)>(xs: seq<T>, j: nat, f: T -> int)
    requires j < |xs|
    ensures Sum(xs, f) == f(xs[j]) + Sum(Without(xs, j), f)
  {
    SumSplit(xs, j, f);
    SumConcat(xs[..j], xs[j + 1..], f);
  }

  /** A sum does not depend on the order of its terms. */
  lemma {:induction false} SumPermutation<T(!new)>(xs: seq<T>, ys: seq<T>, f: T -> int)
    requires multiset(xs) == multiset(ys)
    ensures Sum(xs, f) == Sum(ys, f)
  {
    assert |xs| == |multiset(xs)| == |multiset(ys)| == |ys|;
    if xs != [] {
      assert xs[0] in multiset(ys);
      var j :| 0 <= j < |ys| && ys[j] == xs[0];
      WithoutMultiset(xs, 0);
      WithoutMultiset(ys, j);
      WithoutSum(xs, 0, f);
      WithoutSum(ys, j, f);
      assert multiset(Without(xs, 0)) == multiset(xs) - multiset{xs[0]};
      SumPermutation(Without(xs, 0), Without(ys, j), f);
    }
  }

  lemma {:induction false} FilterConcat<T(!new)>(xs: seq<T>, ys: seq<T>, keep: T -> bool)
    ensures Filter(xs + ys, keep) == Filter(xs, keep) + Filter(ys, keep)
  {
    if xs == [] {
      assert xs + ys == ys;
    } else {
      assert (xs + ys)[1..] == xs[1..] + ys;
      assert (xs + ys)[0] == xs[0];
      FilterConcat(xs[1..], ys, keep);
      var front, back := Filter(xs[1..], keep), Filter(ys, keep);
      assert [xs[0]] + (front + back) == [xs[0]] + front + back;
    }
  }

  lemma {:induction false} FilterAll<T(!new)>(xs: seq<T>, keep: T -> bool)
    requires forall i | 0 <= i < |xs| :: keep(xs[i])
    ensures Filter(xs, keep) == xs
  {
    if xs != [] {
      FilterAll(xs[1..], keep);
    }
  }

  lemma {:induction false} FilterNone<T(!new)>(xs: seq<T>, keep: T -> bool)
    requires forall i | 0 <= i < |xs| :: !keep(xs[i])
    ensures Filter(xs, keep) == []
  {
    if xs != [] {
      FilterNone(xs[1..], keep);
    }
  }

  function Elements<T(!new)>(xs: seq<T>): set<T> {
    set x | x in xs
  }

  /** len(xs) == len(set(xs)) says that no element comes twice. */
  lemma {:induction false} SizeOfElements<T(!new)>(xs: seq<T>)
    ensures |Elements(xs)| <= |xs|
    ensures |xs| == |Elements(xs)| <==> forall i, j | 0 <= i < j < |xs| :: xs[i] != xs[j]
  {
    if xs != [] {
      var rest := xs[1..];
      var all, others := Elements(xs), Elements(rest);
      SizeOfElements(rest);
      assert all == others + {xs[0]};
      forall i, j | 0 <= i < j < |rest| ensures rest[i] == xs[i + 1] && rest[j] == xs[j + 1] {
      }
      if xs[0] in rest {
        var j :| 0 <= j < |rest| && rest[j] == xs[0];
        assert xs[0] == xs[j + 1] && all == others;
      } else {
        assert |all| == |others| + 1;
        forall i, j | 0 <= i < j < |xs| && |rest| == |others| ensures xs[i] != xs[j] {
          assert i > 0 ==> rest[i - 1] != rest[j - 1];
          assert xs[j] == rest[j - 1];
        }
      }
    }
  }
}
