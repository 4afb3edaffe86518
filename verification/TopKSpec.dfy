/** What "the k best scores" means, independently of any heap: a multiset of scores. */
module TopKSpec {

  /** `top` holds the k largest elements of `all` (all of them when there are fewer than k). */
  ghost predicate IsTopK(top: multiset<real>, all: multiset<real>, k: nat) {
    && top <= all
    && |top| == (if |all| <= k then |all| else k)
    && forall x, y :: x in top && y in all - top ==> y <= x
  }

  lemma SameSize(part: multiset<real>, whole: multiset<real>)
    requires part <= whole && |whole| <= |part|
    ensures part == whole
  {
    assert part + (whole - part) == whole;
    assert |whole - part| == 0;
  }

  lemma Surplus(a: multiset<real>, b: multiset<real>) returns (x: real)
    requires |a| <= |b| && a != b
    ensures b[x] > a[x]
  {
    if b <= a {
      SameSize(b, a);
      assert false;
    }
    if forall z :: b[z] <= a[z] {
      assert false;
    }
    x :| b[x] > a[x];
  }

  lemma NotSelected(top: multiset<real>, all: multiset<real>, k: nat, x: real, y: real)
    requires IsTopK(top, all, k) && x in top && all[y] > top[y]
    ensures y <= x
  {
    assert y in all - top;
  }

  /** The k best scores are uniquely determined, whatever entry is picked at a tie. */
  lemma TopKUnique(s: multiset<real>, t: multiset<real>, all: multiset<real>, k: nat)
    requires IsTopK(s, all, k) && IsTopK(t, all, k)
    ensures s == t
  {
    if s != t {
      var x := Surplus(s, t);
      var y := Surplus(t, s);
      NotSelected(s, all, k, y, x);
      NotSelected(t, all, k, x, y);
    }
  }

  /** Selecting in two rounds is the same as selecting once. */
  lemma TopKCompose(top: multiset<real>, all: multiset<real>, top': multiset<real>, more: multiset<real>, k: nat)
    requires IsTopK(top, all, k) && IsTopK(top', top + more, k)
    ensures IsTopK(top', all + more, k)
  {
    forall x, y | x in top' && y in (all + more) - top'
      ensures y <= x
    {
      if y !in (top + more) - top' && x < y {
        assert y in all - top;
        assert |top| == k by {
          if |top| == |all| { SameSize(top, all); }
        }
        assert x !in top;
        var z := Surplus(top', top);
        NotSelected(top', top + more, k, x, z);
      }
    }
  }

  /** Scores that no selected score is below can be left out without changing the selection. */
  lemma TopKIgnoreBeaten(top: multiset<real>, all: multiset<real>, beaten: multiset<real>, k: nat)
    requires IsTopK(top, all, k) && |top| == k
    requires forall x, y :: x in top && y in beaten ==> y <= x
    ensures IsTopK(top, all + beaten, k)
  {
    forall x, y | x in top && y in (all + beaten) - top
      ensures y <= x
    {
      assert y in all - top || y in beaten;
    }
  }

  /** A multiset no larger than k is its own selection. */
  lemma TopKAll(all: multiset<real>, k: nat)
    requires |all| <= k
    ensures IsTopK(all, all, k)
  {
    assert all - all == multiset{};
  }

  /** Offering one score to a full selection whose least element is `least`. */
  lemma TopKReplace(top: multiset<real>, all: multiset<real>, least: real, s: real, k: nat)
    requires IsTopK(top, all, k) && |top| == k && least in top && least <= s
    requires forall x :: x in top ==> least <= x
    ensures IsTopK(top - multiset{least} + multiset{s}, all + multiset{s}, k)
  {
    var top' := top - multiset{least} + multiset{s};
    forall x, y | x in top' && y in (all + multiset{s}) - top'
      ensures y <= x
    {
      assert y in all - top || y == least;
      assert x in top || x == s;
    }
  }

  /** A full selection none of whose scores is below `s`: offering `s` cannot change it. */
  ghost predicate Beats(top: multiset<real>, k: nat, s: real) {
    |top| == k && forall x :: x in top ==> s <= x
  }

  /** The threshold never falls: what was beaten stays beaten, whatever else is offered. */
  lemma BeatsForever(before: multiset<real>, after: multiset<real>, more: multiset<real>, k: nat, s: real)
    requires Beats(before, k, s) && IsTopK(after, before + more, k)
    ensures Beats(after, k, s)
  {
    forall x | x in after
      ensures s <= x
    {
      if x < s {
        assert x !in before;
        var z := Surplus(after, before);
        NotSelected(after, before + more, k, x, z);
      }
    }
  }

  /** Offering a beaten score, in any way that selects the best, leaves the scores as they were. */
  lemma BeatenChangesNothing(before: multiset<real>, after: multiset<real>, s: real, k: nat)
    requires Beats(before, k, s) && IsTopK(after, before + multiset{s}, k)
    ensures after == before
  {
    TopKAll(before, k);
    TopKIgnoreBeaten(before, before, multiset{s}, k);
    TopKUnique(before, after, before + multiset{s}, k);
  }

  /** A run of offers to an empty heap: what it held at each point, and what was offered in between. */
  ghost predicate Offers(held: seq<multiset<real>>, offered: seq<real>, k: nat) {
    && |held| == |offered| + 1 && held[0] == multiset{}
    && forall i :: 0 <= i < |offered| ==> IsTopK(held[i + 1], held[i] + multiset{offered[i]}, k)
  }

  /** After any run the heap holds the k best of all scores offered. */
  lemma {:induction false} RunSelects(held: seq<multiset<real>>, offered: seq<real>, k: nat, n: nat)
    requires Offers(held, offered, k) && n <= |offered|
    ensures IsTopK(held[n], multiset(offered[..n]), k)
  {
    if n == 0 {
      TopKAll(multiset{}, k);
    } else {
      RunSelects(held, offered, k, n - 1);
      assert offered[..n] == offered[..n - 1] + [offered[n - 1]];
      hide IsTopK;
      TopKCompose(held[n - 1], multiset(offered[..n - 1]), held[n], multiset{offered[n - 1]}, k);
    }
  }

  /** The threshold never falls during a run: what is beaten at one point is beaten at every later one. */
  lemma {:induction false} ThresholdNeverFalls(held: seq<multiset<real>>, offered: seq<real>, k: nat, m: nat, n: nat,
                                               s: real)
    requires Offers(held, offered, k) && m <= n <= |offered| && Beats(held[m], k, s)
    ensures Beats(held[n], k, s)
    decreases n
  {
    if m < n {
      ThresholdNeverFalls(held, offered, k, m, n - 1, s);
      hide IsTopK;
      BeatsForever(held[n - 1], held[n], multiset{offered[n - 1]}, k, s);
    }
  }

  // ---------- the selection as a function ----------

  ghost predicate IsLeast(x: real, all: multiset<real>) {
    x in all && forall y :: y in all ==> x <= y
  }

  lemma HasElement(all: multiset<real>)
    ensures all == multiset{} || exists x :: x in all
  {
    if forall x :: x !in all {
      assert all == multiset{};
    }
  }

  lemma {:induction false} HasLeast(all: multiset<real>)
    requires all != multiset{}
    ensures exists x :: IsLeast(x, all)
    decreases |all|
  {
    HasElement(all);
    var x :| x in all;
    var rest := all - multiset{x};
    assert forall z :: z in all ==> z == x || z in rest;
    if rest == multiset{} {
      assert IsLeast(x, all);
    } else {
      HasLeast(rest);
      var y :| IsLeast(y, rest);
      assert IsLeast(if y < x then y else x, all);
    }
  }

  ghost function Least(all: multiset<real>): (x: real)
    requires all != multiset{}
    ensures IsLeast(x, all)
  {
    HasLeast(all);
    var x :| IsLeast(x, all);
    x
  }

  /** The k best scores. */
  ghost function Best(all: multiset<real>, k: nat): (top: multiset<real>)
    ensures IsTopK(top, all, k)
    decreases |all|
  {
    if |all| <= k then
      TopKAll(all, k);
      all
    else
      var rest := all - multiset{Least(all)};
      var top := Best(rest, k);
      TopKIgnoreBeaten(top, rest, multiset{Least(all)}, k);
      assert rest + multiset{Least(all)} == all;
      top
  }

  lemma BestIsUnique(top: multiset<real>, all: multiset<real>, k: nat)
    requires IsTopK(top, all, k)
    ensures top == Best(all, k)
  {
    TopKUnique(top, Best(all, k), all, k);
  }

  // ---------- leaving scores out by a bound ----------

  /** A full heap under which a bound is too low: below every score held, or not above any. */
  ghost predicate TooLow(top: multiset<real>, k: nat, bound: real, strict: bool) {
    0 < k == |top| && forall x :: x in top ==> if strict then bound < x else bound <= x
  }

  /** Leaving out `more` whenever the bound is too low never changes what is selected. */
  ghost predicate SkipIsRight(more: multiset<real>, bound: real, strict: bool) {
    forall top: multiset<real>, k: nat :: TooLow(top, k, bound, strict) ==> IsTopK(top, top + more, k)
  }

  /** A skip is right under every full heap exactly when nothing that is skipped scores above the bound. */
  lemma SkipIsRightIff(more: multiset<real>, bound: real, strict: bool)
    ensures SkipIsRight(more, bound, strict) <==> forall x :: x in more ==> x <= bound
  {
    if forall x :: x in more ==> x <= bound {
      forall top: multiset<real>, k: nat | TooLow(top, k, bound, strict)
        ensures IsTopK(top, top + more, k)
      {
        TopKAll(top, k);
        TopKIgnoreBeaten(top, top, more, k);
      }
    } else {
      var x :| x in more && bound < x;
      var middle := (bound + x) / 2.0;
      var top := multiset{middle};
      assert TooLow(top, 1, bound, strict);
      assert middle in top && x in (top + more) - top;
      assert !IsTopK(top, top + more, 1);
    }
  }
}
