/** Sums over sequences, and why reordering a sequence does not change them. */
module Sums {

  ghost function Sum<T>(xs: seq<T>, g: T -> real): real {
    if xs == [] then 0.0 else g(xs[0]) + Sum(xs[1..], g)
  }

  ghost function Total<T>(xs: seq<T>, g: T -> int): int {
    if xs == [] then 0 else g(xs[0]) + Total(xs[1..], g)
  }

  lemma {:induction false} SumConcat<T>(xs: seq<T>, ys: seq<T>, g: T -> real)
    ensures Sum(xs + ys, g) == Sum(xs, g) + Sum(ys, g)
  {
    if xs == [] {
      assert xs + ys == ys;
    } else {
      assert (xs + ys)[1..] == xs[1..] + ys;
      SumConcat(xs[1..], ys, g);
    }
  }

  lemma {:induction false} TotalConcat<T>(xs: seq<T>, ys: seq<T>, g: T -> int)
    ensures Total(xs + ys, g) == Total(xs, g) + Total(ys, g)
  {
    if xs == [] {
      assert xs + ys == ys;
    } else {
      assert (xs + ys)[1..] == xs[1..] + ys;
      TotalConcat(xs[1..], ys, g);
    }
  }

  lemma SumOfOne<T>(x: T, g: T -> real)
    ensures Sum([x], g) == g(x)
  {
    assert [x][1..] == [];
    assert Sum([x], g) == g([x][0]) + Sum([x][1..], g);
  }

  lemma SumSplit<T>(xs: seq<T>, i: nat, g: T -> real)
    requires i < |xs|
    ensures Sum(xs, g) == Sum(xs[..i], g) + g(xs[i]) + Sum(xs[i + 1..], g)
  {
    assert xs == xs[..i] + xs[i..];
    SumConcat(xs[..i], xs[i..], g);
  }

  lemma TotalSplit<T>(xs: seq<T>, i: nat, g: T -> int)
    requires i < |xs|
    ensures Total(xs, g) == Total(xs[..i], g) + g(xs[i]) + Total(xs[i + 1..], g)
  {
    assert xs == xs[..i] + xs[i..];
    TotalConcat(xs[..i], xs[i..], g);
  }

  lemma SumUpdate<T>(xs: seq<T>, i: nat, x: T, g: T -> real)
    requires i < |xs|
    ensures Sum(xs[i := x], g) == Sum(xs, g) - g(xs[i]) + g(x)
  {
    SumSplit(xs, i, g);
    SumSplit(xs[i := x], i, g);
    assert xs[i := x][..i] == xs[..i] && xs[i := x][i + 1..] == xs[i + 1..];
  }

  lemma TotalUpdate<T>(xs: seq<T>, i: nat, x: T, g: T -> int)
    requires i < |xs|
    ensures Total(xs[i := x], g) == Total(xs, g) - g(xs[i]) + g(x)
  {
    TotalSplit(xs, i, g);
    TotalSplit(xs[i := x], i, g);
    assert xs[i := x][..i] == xs[..i] && xs[i := x][i + 1..] == xs[i + 1..];
  }

  lemma {:induction false} SumLe<T>(xs: seq<T>, g: T -> real, h: T -> real)
    requires forall x :: x in xs ==> g(x) <= h(x)
    ensures Sum(xs, g) <= Sum(xs, h)
  {
    if xs != [] {
      assert xs[0] in xs;
      SumLe(xs[1..], g, h);
    }
  }

  lemma {:induction false} TotalNonNegative<T>(xs: seq<T>, g: T -> int)
    requires forall x :: x in xs ==> 0 <= g(x)
    ensures 0 <= Total(xs, g)
  {
    if xs != [] {
      assert xs[0] in xs;
      TotalNonNegative(xs[1..], g);
    }
  }

  /** Dropping an element from a sequence: what is left, as a multiset. */
  lemma DropOne<T>(xs: seq<T>, i: nat)
    requires i < |xs|
    ensures multiset(xs[..i] + xs[i + 1..]) == multiset(xs) - multiset{xs[i]}
  {
    assert xs == xs[..i] + [xs[i]] + xs[i + 1..];
  }

  lemma SumDropOne<T>(xs: seq<T>, i: nat, g: T -> real)
    requires i < |xs|
    ensures Sum(xs, g) == Sum(xs[..i] + xs[i + 1..], g) + g(xs[i])
  {
    SumSplit(xs, i, g);
    SumConcat(xs[..i], xs[i + 1..], g);
  }

  lemma TotalDropOne<T>(xs: seq<T>, i: nat, g: T -> int)
    requires i < |xs|
    ensures Total(xs, g) == Total(xs[..i] + xs[i + 1..], g) + g(xs[i])
  {
    TotalSplit(xs, i, g);
    TotalConcat(xs[..i], xs[i + 1..], g);
  }

  /** Two orders of the same elements: take the same element out of both. */
  lemma SameRest<T>(xs: seq<T>, ys: seq<T>) returns (i: nat, xs': seq<T>, ys': seq<T>)
    requires multiset(xs) == multiset(ys) && xs != []
    ensures i < |ys| && ys[i] == xs[0] && |xs'| < |xs|
    ensures xs' == xs[..0] + xs[1..] && ys' == ys[..i] + ys[i + 1..]
    ensures multiset(xs') == multiset(ys')
  {
    assert xs[0] in multiset(ys);
    i :| 0 <= i < |ys| && ys[i] == xs[0];
    xs', ys' := xs[..0] + xs[1..], ys[..i] + ys[i + 1..];
    DropOne(ys, i);
    DropOne(xs, 0);
  }

  lemma {:induction false} SumPermutation<T>(xs: seq<T>, ys: seq<T>, g: T -> real)
    requires multiset(xs) == multiset(ys)
    ensures Sum(xs, g) == Sum(ys, g)
    decreases |xs|
  {
    if xs == [] {
      assert |multiset(ys)| == 0;
    } else {
      var i, xs', ys' := SameRest(xs, ys);
      SumPermutation(xs', ys', g);
      SumDropOne(xs, 0, g);
      SumDropOne(ys, i, g);
    }
  }

  lemma {:induction false} TotalPermutation<T>(xs: seq<T>, ys: seq<T>, g: T -> int)
    requires multiset(xs) == multiset(ys)
    ensures Total(xs, g) == Total(ys, g)
    decreases |xs|
  {
    if xs == [] {
      assert |multiset(ys)| == 0;
    } else {
      var i, xs', ys' := SameRest(xs, ys);
      TotalPermutation(xs', ys', g);
      TotalDropOne(xs, 0, g);
      TotalDropOne(ys, i, g);
    }
  }

  ghost function Map<T, U>(xs: seq<T>, f: T -> U): seq<U> {
    seq(|xs|, i requires 0 <= i < |xs| => f(xs[i]))
  }

  lemma MapConcat<T, U>(a: seq<T>, b: seq<T>, f: T -> U)
    ensures Map(a + b, f) == Map(a, f) + Map(b, f)
  {
  }

  lemma MapDropOne<T, U>(xs: seq<T>, i: nat, f: T -> U)
    requires i < |xs|
    ensures multiset(Map(xs, f)) == multiset(Map(xs[..i] + xs[i + 1..], f)) + multiset{f(xs[i])}
  {
    assert Map(xs, f) == Map(xs, f)[..i] + [f(xs[i])] + Map(xs, f)[i + 1..];
    assert Map(xs[..i] + xs[i + 1..], f) == Map(xs, f)[..i] + Map(xs, f)[i + 1..];
  }

  lemma {:induction false} MapPermutation<T, U>(xs: seq<T>, ys: seq<T>, f: T -> U)
    requires multiset(xs) == multiset(ys)
    ensures multiset(Map(xs, f)) == multiset(Map(ys, f))
    decreases |xs|
  {
    if xs == [] {
      assert |multiset(ys)| == 0;
    } else {
      var i, xs', ys' := SameRest(xs, ys);
      MapPermutation(xs', ys', f);
      MapDropOne(xs, 0, f);
      MapDropOne(ys, i, f);
    }
  }

  /** The union of what the elements of a sequence contribute. */
  ghost function UnionOver<A, T>(xs: seq<A>, f: A -> multiset<T>): multiset<T> {
    if xs == [] then multiset{} else UnionOver(xs[..|xs| - 1], f) + f(xs[|xs| - 1])
  }

  lemma UnionOneMore<A, T>(xs: seq<A>, i: nat, f: A -> multiset<T>)
    requires i < |xs|
    ensures UnionOver(xs[..i + 1], f) == UnionOver(xs[..i], f) + f(xs[i])
    ensures xs[..|xs|] == xs && xs[..0] == []
  {
    assert xs[..i + 1][..i] == xs[..i];
  }

  lemma {:induction false} UnionMember<A, T>(xs: seq<A>, f: A -> multiset<T>, y: T)
    requires y in UnionOver(xs, f)
    ensures exists i :: 0 <= i < |xs| && y in f(xs[i])
  {
    if y !in f(xs[|xs| - 1]) {
      UnionMember(xs[..|xs| - 1], f, y);
    }
  }

  /** What each part holds at most once, and no two parts share, the union holds at most once. */
  lemma {:induction false} UnionOnce<A, T>(xs: seq<A>, f: A -> multiset<T>, y: T)
    requires forall i :: 0 <= i < |xs| ==> f(xs[i])[y] <= 1
    requires forall i, j :: 0 <= i < j < |xs| ==> y !in f(xs[i]) || y !in f(xs[j])
    ensures UnionOver(xs, f)[y] <= 1
  {
    if xs != [] {
      var n := |xs| - 1;
      UnionOnce(xs[..n], f, y);
      if y in f(xs[n]) && y in UnionOver(xs[..n], f) {
        UnionMember(xs[..n], f, y);
        assert false;
      }
    }
  }

  lemma {:induction false} UnionUpdate<A, T>(xs: seq<A>, i: nat, x: A, f: A -> multiset<T>)
    requires i < |xs|
    ensures UnionOver(xs[i := x], f) + f(xs[i]) == UnionOver(xs, f) + f(x)
  {
    var n := |xs| - 1;
    if i == n {
      assert xs[i := x][..n] == xs[..n];
    } else {
      UnionUpdate(xs[..n], i, x, f);
      assert xs[i := x][..n] == xs[..n][i := x];
      var now, was, last := UnionOver(xs[..n][i := x], f), UnionOver(xs[..n], f), f(xs[n]);
      assert now + last + f(xs[i]) == now + f(xs[i]) + last;
      assert was + last + f(x) == was + f(x) + last;
    }
  }

  lemma {:induction false} UnionSame<A, T>(xs: seq<A>, f: A -> multiset<T>, g: A -> multiset<T>)
    requires forall i :: 0 <= i < |xs| ==> f(xs[i]) == g(xs[i])
    ensures UnionOver(xs, f) == UnionOver(xs, g)
  {
    if xs != [] { UnionSame(xs[..|xs| - 1], f, g); }
  }

  lemma {:induction false} UnionPrepend<A, T>(x: A, xs: seq<A>, f: A -> multiset<T>)
    ensures UnionOver([x] + xs, f) == f(x) + UnionOver(xs, f)
  {
    if xs == [] {
      assert ([x] + xs)[..0] == [];
    } else {
      var n := |xs| - 1;
      assert ([x] + xs)[..n + 1] == [x] + xs[..n];
      UnionPrepend(x, xs[..n], f);
    }
  }
}
