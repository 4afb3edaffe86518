/**
 * When pruning is exact: under which block bounds the single-term search of a segment selects
 * the k best scores from every heap, and when skipping some postings or documents is right.
 */
module Exactness {
  import opened Postings
  import opened SingleTerm
  import opened Sums
  import opened TopKSpec
  import opened WandSearch
  import opened WandSpec

  // ---------- one skip ----------

  lemma {:induction false} PassingIsScored(ps: seq<BlockPosting>, weigh: (nat, nat) -> real, f: Filter, j: nat)
    requires j < |ps| && Passes(f, ps[j].docId)
    ensures weigh(ps[j].frequency, ps[j].fieldnorm) in BlockScores(ps, weigh, f)
  {
    var n := |ps| - 1;
    if j < n {
      PassingIsScored(ps[..n], weigh, f, j);
    }
  }

  /**
   * Skipping block b whenever its bound is below the threshold is right for every full heap
   * exactly when the bound holds for every posting that passes the filter.
   */
  lemma BlockSkipRightIff(l: TermList, b: nat, f: Filter)
    requires b < |l.blocks| == |l.blockMax|
    ensures SkipIsRight(BlockScores(l.blocks[b], l.weigh, f), l.blockMax[b], true) <==> PassingBounded(l, b, f)
  {
    hide SkipIsRight, Passes;
    var ps, scores := l.blocks[b], BlockScores(l.blocks[b], l.weigh, f);
    SkipIsRightIff(scores, l.blockMax[b], true);
    if PassingBounded(l, b, f) {
      forall x | x in scores
        ensures x <= l.blockMax[b]
      {
        BlockScoresMember(ps, l.weigh, f, x);
      }
    } else {
      var j :| 0 <= j < |ps| && Passes(f, ps[j].docId) && !(l.weigh(ps[j].frequency, ps[j].fieldnorm) <= l.blockMax[b]);
      PassingIsScored(ps, l.weigh, f, j);
    }
  }

  // ---------- the whole search of a segment ----------

  /** From every heap, of any capacity, the search ends with the k best scores. */
  ghost predicate AlwaysSelects(l: TermList, f: Filter)
    requires |l.blockMax| == |l.blocks|
  {
    forall prior: multiset<real>, k: nat :: 0 < k && |prior| <= k ==>
      IsTopK(AfterBlocks(prior, k, l, f, |l.blocks|), prior + ListScores(l.blocks, l.weigh, f), k)
  }

  ghost predicate AllPassingBounded(l: TermList, f: Filter)
    requires |l.blockMax| == |l.blocks|
  {
    forall b :: 0 <= b < |l.blocks| ==> PassingBounded(l, b, f)
  }

  ghost predicate NonNegativeBounds(l: TermList) {
    forall b :: 0 <= b < |l.blockMax| ==> 0.0 <= l.blockMax[b]
  }

  /** A full heap none of whose scores is below t stays one. */
  lemma BlockKeepsBeats(scores: multiset<real>, k: nat, l: TermList, b: nat, f: Filter, t: real)
    requires b < |l.blocks| == |l.blockMax| && Beats(scores, k, t)
    ensures Beats(AfterBlock(scores, k, l, b, f), k, t)
  {
    hide BlockScores, IsTopK, Beats;
    if !BelowThreshold(scores, k, l.blockMax[b]) {
      var more := BlockScores(l.blocks[b], l.weigh, f);
      BeatsForever(scores, Best(scores + more, k), more, k, t);
    }
  }

  lemma {:induction false} ScanKeepsBeats(prior: multiset<real>, k: nat, l: TermList, f: Filter, n: nat, t: real)
    requires n <= |l.blocks| == |l.blockMax| && Beats(prior, k, t)
    ensures Beats(AfterBlocks(prior, k, l, f, n), k, t)
  {
    hide Beats, AfterBlock;
    if n > 0 {
      ScanKeepsBeats(prior, k, l, f, n - 1, t);
      BlockKeepsBeats(AfterBlocks(prior, k, l, f, n - 1), k, l, n - 1, f, t);
    }
  }

  /** The scores that blocks before n contribute, block b left out. */
  ghost function Without(l: TermList, f: Filter, n: nat, b: nat, x: real): int
    requires n <= |l.blocks| && b < |l.blocks|
  {
    var all: int := ListScores(l.blocks[..n], l.weigh, f)[x];
    var skipped: int := if b < n then BlockScores(l.blocks[b], l.weigh, f)[x] else 0;
    all - skipped
  }

  lemma WithoutStep(l: TermList, f: Filter, n: nat, b: nat, x: real)
    requires n < |l.blocks| && b < |l.blocks|
    ensures Without(l, f, n + 1, b, x) ==
            Without(l, f, n, b, x) + if n == b then 0 else BlockScores(l.blocks[n], l.weigh, f)[x]
  {
    assert l.blocks[..n + 1][..n] == l.blocks[..n];
  }

  lemma WithoutNone(l: TermList, f: Filter, b: nat, x: real)
    requires b < |l.blocks|
    ensures Without(l, f, 0, b, x) == 0
  {
  }

  /** A skipped block contributes nothing, any other block at most its scores. */
  lemma BlockAdds(scores: multiset<real>, k: nat, l: TermList, b: nat, f: Filter, x: real)
    requires b < |l.blocks| == |l.blockMax|
    ensures BelowThreshold(scores, k, l.blockMax[b]) ==> AfterBlock(scores, k, l, b, f)[x] == scores[x]
    ensures AfterBlock(scores, k, l, b, f)[x] <= scores[x] + BlockScores(l.blocks[b], l.weigh, f)[x]
  {
    hide BlockScores, BelowThreshold;
    var more := BlockScores(l.blocks[b], l.weigh, f);
    assert Best(scores + more, k)[x] <= (scores + more)[x];
  }

  lemma BeatsBound(scores: multiset<real>, k: nat, t: real, bound: real)
    requires Beats(scores, k, t) && bound < t
    ensures BelowThreshold(scores, k, bound)
  {
  }

  /** Under a heap that block b cannot beat by its bound, none of its scores is ever held. */
  lemma {:induction false} SkippedNeverHeld(prior: multiset<real>, k: nat, l: TermList, f: Filter, n: nat, b: nat,
                                            t: real, x: real)
    requires n <= |l.blocks| == |l.blockMax| && b < |l.blocks| && Beats(prior, k, t) && l.blockMax[b] < t
    ensures AfterBlocks(prior, k, l, f, n)[x] <= prior[x] + Without(l, f, n, b, x)
  {
    hide Beats, AfterBlock, Without, BelowThreshold, BlockScores;
    if n == 0 {
      WithoutNone(l, f, b, x);
    } else {
      var before := AfterBlocks(prior, k, l, f, n - 1);
      SkippedNeverHeld(prior, k, l, f, n - 1, b, t, x);
      ScanKeepsBeats(prior, k, l, f, n - 1, t);
      BeatsBound(before, k, t, l.blockMax[b]);
      BlockAdds(before, k, l, n - 1, f, x);
      WithoutStep(l, f, n - 1, b, x);
    }
  }

  /** k copies of one score. */
  lemma Copies(t: real, k: nat)
    ensures |multiset{}[t := k]| == k && Beats(multiset{}[t := k], k, t)
  {
    assert |multiset{}[t := k]| == k;
  }

  lemma SizeOfPart(part: multiset<real>, whole: multiset<real>)
    requires part <= whole
    ensures |part| <= |whole|
  {
    assert part + (whole - part) == whole;
  }

  /** A selection without any of the copies comes from the rest. */
  lemma CopyOrFewer(top: multiset<real>, all: multiset<real>, t: real, k: nat)
    requires top <= multiset{}[t := k] + all
    ensures t in top || |top| <= |all|
  {
    if t !in top {
      assert forall y :: top[y] <= (multiset{}[t := k] + all)[y];
      SizeOfPart(top, all);
    }
  }

  /** With more places than the list has scores, every score above the copies must be selected. */
  lemma AboveIsSelected(top: multiset<real>, all: multiset<real>, t: real, k: nat, x: real)
    requires |all| < k && t < x && IsTopK(top, multiset{}[t := k] + all, k)
    ensures top[x] >= all[x]
  {
    var whole := multiset{}[t := k] + all;
    assert |whole| == k + |all|;
    CopyOrFewer(top, all, t, k);
    assert x !in whole - top;
  }

  lemma {:induction false} BlockWithinList(l: TermList, f: Filter, n: nat, b: nat, x: real)
    requires b < n <= |l.blocks|
    ensures BlockScores(l.blocks[b], l.weigh, f)[x] <= ListScores(l.blocks[..n], l.weigh, f)[x]
  {
    assert l.blocks[..n][..n - 1] == l.blocks[..n - 1];
    if b < n - 1 { BlockWithinList(l, f, n - 1, b, x); }
  }

  /**
   * A posting that scores above its block's bound is lost: from a heap filled with a score between
   * the two, with room for all scores of the list, the search does not end with the k best.
   */
  lemma UnboundedIsLost(l: TermList, f: Filter, b: nat, j: nat) returns (prior: multiset<real>, k: nat)
    requires |l.blockMax| == |l.blocks| && b < |l.blocks| && j < |l.blocks[b]| && Passes(f, l.blocks[b][j].docId)
    requires l.blockMax[b] < l.weigh(l.blocks[b][j].frequency, l.blocks[b][j].fieldnorm)
    ensures 0 < k && |prior| <= k
    ensures !IsTopK(AfterBlocks(prior, k, l, f, |l.blocks|), prior + ListScores(l.blocks, l.weigh, f), k)
  {
    hide Passes, BlockScores, ListScores, AfterBlocks, Without, IsTopK, Beats;
    var x := l.weigh(l.blocks[b][j].frequency, l.blocks[b][j].fieldnorm);
    var all := ListScores(l.blocks, l.weigh, f);
    var t := (l.blockMax[b] + x) / 2.0;
    k := |all| + 1;
    prior := multiset{}[t := k];
    Copies(t, k);
    PassingIsScored(l.blocks[b], l.weigh, f, j);
    SkippedNeverHeld(prior, k, l, f, |l.blocks|, b, t, x);
    WithoutAll(l, f, b, x);
    var end := AfterBlocks(prior, k, l, f, |l.blocks|);
    assert end[x] < all[x];
    if IsTopK(end, prior + all, k) {
      AboveIsSelected(end, all, t, k, x);
      assert false;
    }
  }

  lemma WithoutAll(l: TermList, f: Filter, b: nat, x: real)
    requires b < |l.blocks|
    ensures Without(l, f, |l.blocks|, b, x) + BlockScores(l.blocks[b], l.weigh, f)[x] ==
            ListScores(l.blocks, l.weigh, f)[x]
  {
    assert l.blocks[..|l.blocks|] == l.blocks;
  }

  /** The single-term search of a segment is exact if and only if every block bound holds for the postings that pass. */
  lemma SearchExactIff(l: TermList, f: Filter)
    requires |l.blockMax| == |l.blocks| && NonNegativeBounds(l)
    ensures AlwaysSelects(l, f) <==> AllPassingBounded(l, f)
  {
    hide IsTopK, AfterBlocks, ListScores, Passes, ListedTo;
    if AllPassingBounded(l, f) {
      forall prior: multiset<real>, k: nat | 0 < k && |prior| <= k
        ensures IsTopK(AfterBlocks(prior, k, l, f, |l.blocks|), prior + ListScores(l.blocks, l.weigh, f), k)
      {
        BoundedListSelects(prior, k, l, f, |l.blocks|);
        ListedEnds(AfterBlocks(prior, k, l, f, |l.blocks|), prior, l, f, k);
      }
    } else {
      var b :| 0 <= b < |l.blocks| && !PassingBounded(l, b, f);
      var j :| 0 <= j < |l.blocks[b]| && Passes(f, l.blocks[b][j].docId)
               && !(l.weigh(l.blocks[b][j].frequency, l.blocks[b][j].fieldnorm) <= l.blockMax[b]);
      var prior, k := UnboundedIsLost(l, f, b, j);
    }
  }

  // ---------- skipped documents of several terms ----------

  lemma {:induction false} DocInBag(q: seq<TermList>, docs: set<nat>, d: nat, n: nat)
    requires d in docs && d < n
    ensures FullScore(q, d) in Bag(q, docs, n)
  {
    hide FullScore;
    if d < n - 1 { DocInBag(q, docs, d, n - 1); }
  }

  /**
   * block_max_skip_advance passes documents when the current block bounds of the pivot terms, as
   * compute_block_max_at_pivot adds them up, come to at most the threshold. Passing a set of
   * documents is right under every full heap exactly when none of their full scores is above that sum.
   */
  lemma DocumentSkipRightIff(ts: seq<TermState>, pivotLen: nat, docs: set<nat>, n: nat)
    requires pivotLen <= |ts|
    ensures var q, upper := Lists(ts), Sum(ts[..pivotLen], BlockBound());
            SkipIsRight(Bag(q, docs, n), upper, false) <==> forall d :: d in docs && d < n ==> FullScore(q, d) <= upper
  {
    hide SkipIsRight, FullScore, Bag, Sum, BlockBound, Lists;
    var q, upper := Lists(ts), Sum(ts[..pivotLen], BlockBound());
    SkipIsRightIff(Bag(q, docs, n), upper, false);
    if forall d :: d in docs && d < n ==> FullScore(q, d) <= upper {
      forall x | x in Bag(q, docs, n)
        ensures x <= upper
      {
        BagMember(q, docs, n, x);
      }
    } else {
      var d :| d in docs && d < n && !(FullScore(q, d) <= upper);
      DocInBag(q, docs, d, n);
    }
  }
}
