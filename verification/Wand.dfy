/** The multi-term Block-Max WAND traversal of one segment (src/query/bmw.c). */
module Wand {
  import opened ItemPointers
  import opened Postings
  import opened Sums
  import opened WandSpec

  /** The memmove of restore_ordering. */
  method MoveBlock<T>(a: array<T>, ord: nat, dest: nat)
    requires ord <= dest < a.Length
    modifies a
    ensures a[..] == Rotate(old(a[..]), ord, dest)
  {
    ghost var before := a[..];
    var tmp := a[ord];
    forall k | ord <= k < dest {
      a[k] := a[k + 1];
    }
    a[dest] := tmp;
    forall k | 0 <= k < a.Length
      ensures a[k] == Rotate(before, ord, dest)[k]
    {
      RotateAt(before, ord, dest, k);
    }
  }

  lemma RotateAt<T>(xs: seq<T>, ord: nat, dest: nat, k: nat)
    requires ord <= dest < |xs| && k < |xs|
    ensures Rotate(xs, ord, dest)[k] ==
            if k < ord || dest < k then xs[k] else if k == dest then xs[ord] else xs[k + 1]
  {
  }

  /** The scan of restore_ordering: how far the cursor at `ord` has to move. */
  method InsertionIndex(terms: array<TermState>, ord: nat) returns (i: nat)
    requires ord < terms.Length
    ensures ord < i <= terms.Length && InsertionPoint(terms[..], ord, i - 1)
  {
    ghost var ts := terms[..];
    var docId := Cur(terms[ord]);
    i := ord + 1;
    while i < terms.Length && Cur(terms[i]) < docId
      invariant ord < i <= terms.Length
      invariant forall k :: ord < k < i ==> Cur(ts[k]) < docId
    {
      i := i + 1;
    }
  }

  /** restore_ordering: linear insertion of a cursor that moved to the right. */
  method RestoreOrdering(terms: array<TermState>, ord: nat) returns (ghost dest: nat)
    requires ord < terms.Length
    modifies terms
    ensures InsertionPoint(old(terms[..]), ord, dest)
    ensures terms[..] == Rotate(old(terms[..]), ord, dest)
  {
    var i := InsertionIndex(terms, ord);
    dest := i - 1;
    MoveBlock(terms, ord, i - 1);
  }

  lemma MovedIsSortedButFor(ts: seq<TermState>, i: nat, t': TermState)
    requires SortedByDoc(ts) && Moved(ts, i, t')
    ensures SortedButFor(ts[i := t'], i)
  {
    assert forall k :: 0 <= k < i ==> Cur(ts[k]) <= Cur(ts[i]);
  }

  /** Where the insertion stops, the order is restored and the cursors are the same ones. */
  lemma Restored(ts: seq<TermState>, ord: nat, dest: nat)
    requires SortedButFor(ts, ord) && InsertionPoint(ts, ord, dest)
    ensures SortedByDoc(Rotate(ts, ord, dest)) && multiset(Rotate(ts, ord, dest)) == multiset(ts)
  {
    RotateSorts(ts, ord, dest);
    RotateIsReordering(ts, ord, dest);
  }

  /** What moving cursors keeps, whatever they skip. */
  ghost predicate Advanced(ts: seq<TermState>, us: seq<TermState>) {
    && |us| == |ts| && AllValid(us) && SortedByDoc(us) && SameTerms(us, ts)
    && Distance(us) <= Distance(ts)
    && (forall d: nat :: AllFrom(ts, d) ==> AllFrom(us, d))
    && (forall d: nat :: Passed(ts, d) ==> Passed(us, d))
  }

  /** The documents passed between ts and us all score at most `bar`. */
  ghost predicate SkipsOnlyUpTo(ts: seq<TermState>, us: seq<TermState>, bar: real) {
    forall d: nat :: Passed(us, d) && !Passed(ts, d) ==> FullScore(Lists(ts), d) <= bar
  }

  lemma AdvancedTransitive(ts: seq<TermState>, us: seq<TermState>, vs: seq<TermState>, bar: real)
    requires Advanced(ts, us) && Advanced(us, vs)
    ensures Advanced(ts, vs)
    ensures SkipsOnlyUpTo(ts, us, bar) && SkipsOnlyUpTo(us, vs, bar) ==> SkipsOnlyUpTo(ts, vs, bar)
  {
    forall d: nat
      ensures FullScore(Lists(us), d) == FullScore(Lists(ts), d)
    {
      SameTermsScore(us, ts, d);
    }
  }

  /** One cursor moved and put back in order. */
  lemma MoveAndRestore(ts: seq<TermState>, i: nat, t': TermState, us: seq<TermState>)
    requires AllValid(ts) && Moved(ts, i, t')
    requires SortedByDoc(us) && multiset(us) == multiset(ts[i := t'])
    ensures Advanced(ts, us)
    ensures Distance(us) == Distance(ts) - (Cur(t') - Cur(ts[i]))
    ensures ActiveCount(us) == ActiveCount(ts) - (if Active(ts[i]) && !Active(t') then 1 else 0)
    ensures forall d: nat :: Passed(us, d) <==>
                               Passed(ts, d) || (Has(t'.list, d) && Cur(ts[i]) <= d < Cur(t'))
  {
    hide Passed, AllValid, SortedByDoc, Distance, ActiveCount;
    AfterMove(ts, i, t');
    PassedAfterMove(ts, i, t');
    Reordered(ts[i := t'], us);
    assert forall d: nat :: AllFrom(ts, d) ==> AllFrom(ts[i := t'], d);
  }

  /** find_wand_pivot: the first document at which the accumulated bounds exceed the threshold. */
  method FindWandPivot(terms: array<TermState>, threshold: real) returns (found: bool, pivotLen: nat, pivot: nat)
    requires Bounded(terms[..]) && SortedByDoc(terms[..]) && 0.0 <= threshold
    ensures found ==> 0 < pivotLen <= terms.Length && pivot < UINT32_MAX
    ensures found ==> Cur(terms[pivotLen - 1]) == pivot
    ensures found ==> forall k :: pivotLen <= k < terms.Length ==> pivot < Cur(terms[k])
    ensures found ==> Sum(terms[..], MaxBelow(pivot)) <= threshold < Sum(terms[..pivotLen], MaxOf())
    ensures !found ==> Sum(terms[..], MaxBelow(UINT32_MAX)) <= threshold
  {
    ghost var ts := terms[..];
    var accumulated := 0.0;
    var i := 0;
    while i < terms.Length
      invariant 0 <= i <= terms.Length
      invariant accumulated == Sum(ts[..i], MaxOf()) <= threshold
    {
      var docId := Cur(terms[i]);
      if docId == UINT32_MAX {
        BoundBelow(ts, i, UINT32_MAX);
        return false, 0, 0;
      }
      AppendTerm(ts, i);
      accumulated := accumulated + terms[i].list.maxScore;
      if accumulated > threshold {
        BoundBelow(ts, i, docId);
        pivotLen := EndOfPivot(terms, i);
        PrefixGrows(ts, i + 1, pivotLen);
        assert ts[..pivotLen] == terms[..pivotLen];
        return true, pivotLen, docId;
      }
      i := i + 1;
    }
    BoundBelow(ts, i, UINT32_MAX);
    return false, 0, 0;
  }

  /** Include the terms after position i standing at the same document. */
  method EndOfPivot(terms: array<TermState>, i: nat) returns (pivotLen: nat)
    requires i < terms.Length && SortedByDoc(terms[..])
    ensures i < pivotLen <= terms.Length
    ensures Cur(terms[pivotLen - 1]) == Cur(terms[i])
    ensures forall k :: pivotLen <= k < terms.Length ==> Cur(terms[i]) < Cur(terms[k])
  {
    pivotLen := i + 1;
    while pivotLen < terms.Length && Cur(terms[pivotLen]) == Cur(terms[i])
      invariant i < pivotLen <= terms.Length
      invariant Cur(terms[pivotLen - 1]) == Cur(terms[i])
    {
      pivotLen := pivotLen + 1;
    }
    assert SortedByDoc(terms[..]);
    assert forall k :: 0 <= k < terms.Length ==> terms[..][k] == terms[k];
  }

  lemma AppendTerm(ts: seq<TermState>, i: nat)
    requires i < |ts|
    ensures Sum(ts[..i + 1], MaxOf()) == Sum(ts[..i], MaxOf()) + ts[i].list.maxScore
  {
    assert ts[..i + 1] == ts[..i] + [ts[i]];
    SumConcat(ts[..i], [ts[i]], MaxOf());
  }

  lemma {:induction false} PrefixGrows(ts: seq<TermState>, i: nat, j: nat)
    requires i <= j <= |ts| && Bounded(ts)
    ensures Sum(ts[..i], MaxOf()) <= Sum(ts[..j], MaxOf())
    decreases j
  {
    if i < j {
      AppendTerm(ts, j - 1);
      PrefixGrows(ts, i, j - 1);
    }
  }

  lemma BelowAtMost(ts: seq<TermState>, p: nat)
    requires Bounded(ts)
    ensures Sum(ts, MaxBelow(p)) <= Sum(ts, MaxOf())
  {
    hide Sum;
    forall t | t in ts
      ensures MaxBelow(p)(t) <= MaxOf()(t)
    {
      var k :| 0 <= k < |ts| && ts[k] == t;
    }
    SumLe(ts, MaxBelow(p), MaxOf());
  }

  lemma RestNotBelow(ts: seq<TermState>, i: nat, p: nat)
    requires SortedByDoc(ts) && i <= |ts| && (i < |ts| ==> p <= Cur(ts[i]))
    ensures Sum(ts[i..], MaxBelow(p)) == 0.0
  {
    hide Sum, Cur;
    forall k | 0 <= k < |ts[i..]|
      ensures p <= Cur(ts[i..][k])
    {
      assert Cur(ts[i]) <= Cur(ts[i + k]);
    }
    NothingBelow(ts[i..], p);
  }

  /** With the cursors sorted, those below p are among the first i when the i-th is not. */
  lemma BoundBelow(ts: seq<TermState>, i: nat, p: nat)
    requires Bounded(ts) && SortedByDoc(ts) && i <= |ts| && (i < |ts| ==> p <= Cur(ts[i]))
    ensures Sum(ts, MaxBelow(p)) <= Sum(ts[..i], MaxOf())
  {
    hide Sum, SortedByDoc, Cur;
    assert ts == ts[..i] + ts[i..];
    SumConcat(ts[..i], ts[i..], MaxBelow(p));
    BelowAtMost(ts[..i], p);
    RestNotBelow(ts, i, p);
  }

  lemma {:induction false} NothingBelow(ts: seq<TermState>, p: nat)
    requires forall k :: 0 <= k < |ts| ==> p <= Cur(ts[k])
    ensures Sum(ts, MaxBelow(p)) == 0.0
  {
    if ts != [] {
      NothingBelow(ts[1..], p);
    }
  }

  /** Us is ts with the cursor at i replaced by t' and put back in order at dest. */
  ghost predicate Replaced(ts: seq<TermState>, i: nat, t': TermState, dest: nat, us: seq<TermState>) {
    && Moved(ts, i, t') && InsertionPoint(ts[i := t'], i, dest) && us == Rotate(ts[i := t'], i, dest)
    && Advanced(ts, us)
    && ActiveCount(us) == ActiveCount(ts) - (if Active(ts[i]) && !Active(t') then 1 else 0)
    && Distance(us) == Distance(ts) - (Cur(t') - Cur(ts[i]))
    && forall d: nat :: Passed(us, d) && !Passed(ts, d) ==> Has(t'.list, d) && Cur(ts[i]) <= d < Cur(t')
  }

  method PutBack(terms: array<TermState>, i: nat, t': TermState) returns (ghost dest: nat)
    requires i < terms.Length && AllValid(terms[..]) && SortedByDoc(terms[..]) && Moved(terms[..], i, t')
    modifies terms
    ensures Replaced(old(terms[..]), i, t', dest, terms[..])
  {
    ghost var ts := terms[..];
    terms[i] := t';
    assert terms[..] == ts[i := t'];
    dest := RestoreOrdering(terms, i);
    MovedIsSortedButFor(ts, i, t');
    Restored(ts[i := t'], i, dest);
    MoveAndRestore(ts, i, t', terms[..]);
  }

  /** Seek one cursor and put it back in order. */
  method SeekAt(terms: array<TermState>, i: nat, target: nat) returns (active: bool, ghost t': TermState, ghost dest: nat)
    requires i < terms.Length && AllValid(terms[..]) && SortedByDoc(terms[..]) && Active(terms[i])
    modifies terms
    ensures Replaced(old(terms[..]), i, t', dest, terms[..]) && active == Active(t')
    ensures IsNext(t'.list, SeekFloor(old(terms[i]), target), Cur(t'))
    ensures forall d: nat :: Passed(terms[..], d) && !Passed(old(terms[..]), d) ==> d < target
  {
    ghost var ts := terms[..];
    assert ValidTerm(ts[i]);
    var t, a := SeekTermToDoc(terms[i], target);
    active, t' := a, t;
    CurFacts(ts[i]);
    CurFacts(t);
    dest := PutBack(terms, i, t);
  }

  /** Every cursor from position n on stands beyond document d. */
  ghost predicate Beyond(ts: seq<TermState>, n: nat, d: nat) {
    forall k :: n <= k < |ts| ==> d < Cur(ts[k])
  }

  /** After one seek, the cursors from position n on are still beyond the pivot. */
  lemma PositionsAfterSeek(ts: seq<TermState>, i: nat, t': TermState, dest: nat, n: nat, pivot: nat)
    requires SortedByDoc(ts) && i < n <= |ts| && pivot <= Cur(t')
    requires InsertionPoint(ts[i := t'], i, dest)
    requires Cur(ts[n - 1]) < UINT32_MAX && Beyond(ts, n, pivot)
    ensures Beyond(Rotate(ts[i := t'], i, dest), n, pivot)
    ensures Cur(t') < UINT32_MAX ==> Cur(Rotate(ts[i := t'], i, dest)[n - 1]) < UINT32_MAX
  {
    var us := Rotate(ts[i := t'], i, dest);
    forall k | n <= k < |us|
      ensures pivot < Cur(us[k])
    {
      if k == dest {
        assert Cur(ts[i := t'][dest]) < Cur(t');
      }
    }
  }

  /** Progress since `start`: only beaten documents skipped, and strictly nearer to the end if changed. */
  ghost predicate Progress(start: seq<TermState>, ts: seq<TermState>, bar: real) {
    && Advanced(start, ts) && SkipsOnlyUpTo(start, ts, bar)
    && (ts == start || Distance(ts) < Distance(start))
  }

  /** What seeking towards the pivot keeps. */
  ghost predicate Seeking(ts: seq<TermState>, n: nat, pivot: nat, bar: real) {
    && 0 < n <= |ts| && Cur(ts[n - 1]) < UINT32_MAX && Beyond(ts, n, pivot)
    && Sum(ts, MaxBelow(pivot)) <= bar
  }

  /** One round of seek_to_pivot for a cursor below the pivot. */
  method SeekBelowPivot(terms: array<TermState>, i: nat, pivotLen: nat, pivot: nat, activeCount: int,
                        ghost bar: real, ghost start: seq<TermState>)
    returns (active: bool, count: int)
    requires Progress(start, terms[..], bar) && Seeking(terms[..], pivotLen, pivot, bar)
    requires i < pivotLen && Cur(terms[i]) < pivot && pivot < UINT32_MAX
    requires activeCount == ActiveCount(terms[..])
    modifies terms
    ensures Progress(start, terms[..], bar) && Distance(terms[..]) < Distance(old(terms[..])) <= Distance(start)
    ensures count == ActiveCount(terms[..])
    ensures active ==> Seeking(terms[..], pivotLen, pivot, bar)
  {
    ghost var ts := terms[..];
    CurFacts(ts[i]);
    ghost var t', dest;
    active, t', dest := SeekAt(terms, i, pivot);
    AfterSeekBelow(ts, i, t', dest, terms[..], pivotLen, pivot, bar);
    AdvancedTransitive(start, ts, terms[..], bar);
    count := if active then activeCount else activeCount - 1;
  }

  lemma AfterSeekBelow(ts: seq<TermState>, i: nat, t': TermState, dest: nat, us: seq<TermState>,
                       n: nat, pivot: nat, bar: real)
    requires AllValid(ts) && SortedByDoc(ts) && Moved(ts, i, t') && Seeking(ts, n, pivot, bar)
    requires i < n && Cur(ts[i]) < pivot <= Cur(t')
    requires InsertionPoint(ts[i := t'], i, dest) && us == Rotate(ts[i := t'], i, dest) && Advanced(ts, us)
    requires forall d: nat :: Passed(us, d) && !Passed(ts, d) ==> d < pivot
    ensures SkipsOnlyUpTo(ts, us, bar)
    ensures Active(t') ==> Seeking(us, n, pivot, bar)
  {
    RotateIsReordering(ts[i := t'], i, dest);
    SeekSkips(ts, i, t', us, pivot, bar);
    PositionsAfterSeek(ts, i, t', dest, n, pivot);
    CurFacts(t');
  }

  /**
   * seek_to_pivot: bring every cursor below the pivot up to it; a cursor that overshoots is
   * moved right and another slides in. The source's exit for an exhausted cursor at i is
   * unreachable: the first `pivotLen` cursors stay active until a seek fails.
   */
  method SeekToPivot(terms: array<TermState>, pivotLen: nat, pivot: nat, activeCount: int, ghost bar: real)
    returns (ok: bool, count: int)
    requires AllValid(terms[..]) && SortedByDoc(terms[..]) && Seeking(terms[..], pivotLen, pivot, bar)
    requires pivot < UINT32_MAX && activeCount == ActiveCount(terms[..])
    modifies terms
    ensures Progress(old(terms[..]), terms[..], bar) && count == ActiveCount(terms[..])
    ensures !ok ==> Distance(terms[..]) < Distance(old(terms[..]))
    ensures ok ==> AllFrom(terms[..], pivot) && Seeking(terms[..], pivotLen, pivot, bar)
  {
    ghost var start := terms[..];
    count := activeCount;
    var i := 0;
    while i < pivotLen
      invariant 0 <= i <= pivotLen
      invariant Progress(start, terms[..], bar) && Seeking(terms[..], pivotLen, pivot, bar)
      invariant count == ActiveCount(terms[..])
      invariant 0 < i ==> pivot <= Cur(terms[0])
      decreases Distance(terms[..]), pivotLen - i
    {
      ghost var ts := terms[..];
      DistanceNonNegative(ts);
      assert Cur(ts[i]) <= Cur(ts[pivotLen - 1]) && Cur(ts[0]) <= Cur(ts[i]);
      var docId := Cur(terms[i]);
      if docId == UINT32_MAX {
        assert false;
      } else if docId < pivot {
        var active;
        active, count := SeekBelowPivot(terms, i, pivotLen, pivot, count, bar, start);
        if !active {
          return false, count;
        }
        assert i == 0;
      } else {
        i := i + 1;
      }
    }
    AllFromFirst(terms[..], pivot);
    return true, count;
  }

  lemma AllFromFirst(ts: seq<TermState>, d: nat)
    requires SortedByDoc(ts) && 0 < |ts| && d <= Cur(ts[0])
    ensures AllFrom(ts, d)
  {
    forall k | 0 <= k < |ts|
      ensures d <= Cur(ts[k])
    {
      assert Cur(ts[0]) <= Cur(ts[k]);
    }
  }

  /** A seek below the pivot skips only documents the terms below the pivot cannot lift over the bar. */
  lemma SeekSkips(ts: seq<TermState>, i: nat, t': TermState, us: seq<TermState>, pivot: nat, bar: real)
    requires AllValid(ts) && Moved(ts, i, t') && Advanced(ts, us)
    requires multiset(us) == multiset(ts[i := t'])
    requires Sum(ts, MaxBelow(pivot)) <= bar
    requires forall d: nat :: Passed(us, d) && !Passed(ts, d) ==> d < pivot
    ensures SkipsOnlyUpTo(ts, us, bar)
    ensures Sum(us, MaxBelow(pivot)) <= bar
  {
    forall d: nat | Passed(us, d) && !Passed(ts, d)
      ensures FullScore(Lists(ts), d) <= bar
    {
      UnpassedBound(ts, d, pivot);
    }
    SumPermutation(us, ts[i := t'], MaxBelow(pivot));
    SumUpdate(ts, i, t', MaxBelow(pivot));
    assert ValidTerm(ts[i]);
  }

  /** compute_block_max_at_pivot: the sum of the current block bounds of the pivot terms. */
  method ComputeBlockMaxAtPivot(terms: array<TermState>, pivotLen: nat) returns (upper: real)
    requires pivotLen <= terms.Length
    ensures upper == Sum(terms[..pivotLen], BlockBound())
  {
    upper := 0.0;
    var i := 0;
    while i < pivotLen
      invariant 0 <= i <= pivotLen
      invariant upper == Sum(terms[..i], BlockBound())
    {
      assert terms[..i + 1] == terms[..i] + [terms[i]];
      SumConcat(terms[..i], [terms[i]], BlockBound());
      upper := upper + CurrentBlockBound(terms[i]);
      i := i + 1;
    }
  }

  /** The first n cursors are active, so their current blocks are loaded. */
  ghost predicate PivotTermsActive(ts: seq<TermState>, n: nat) {
    0 < n <= |ts| && forall i :: 0 <= i < n ==> ValidTerm(ts[i]) && Active(ts[i])
  }

  lemma SeekingMeansActive(ts: seq<TermState>, n: nat, pivot: nat, bar: real)
    requires AllValid(ts) && SortedByDoc(ts) && Seeking(ts, n, pivot, bar)
    ensures PivotTermsActive(ts, n)
  {
    forall i | 0 <= i < n
      ensures Active(ts[i])
    {
      assert Cur(ts[i]) <= Cur(ts[n - 1]);
      CurFacts(ts[i]);
    }
  }

  /** What the active cursors offer to the skip decision. */
  ghost predicate Loaded(ts: seq<TermState>, n: nat) {
    && 0 < n <= |ts|
    && forall i :: 0 <= i < n ==>
         && 0.0 <= ts[i].list.maxScore && Cur(ts[i]) <= ts[i].skip.lastDocId < UINT32_MAX - 1
         && ts[i].currentBlock < |ts[i].list.skips| && ts[i].list.skips[ts[i].currentBlock] == ts[i].skip
  }

  lemma ActiveMeansLoaded(ts: seq<TermState>, n: nat)
    requires PivotTermsActive(ts, n)
    ensures Loaded(ts, n)
  {
    forall i | 0 <= i < n
      ensures Cur(ts[i]) <= ts[i].skip.lastDocId < UINT32_MAX - 1
    {
      CurFacts(ts[i]);
    }
  }

  /** Every cursor up to position n is at `pivot`. */
  ghost predicate Aligned(ts: seq<TermState>, n: nat, pivot: nat) {
    n <= |ts| && forall i :: 0 <= i < n ==> Cur(ts[i]) == pivot
  }

  /** The skip target lies within every pivot term's block (or just past it) and not past other cursors. */
  ghost predicate SafeTarget(ts: seq<TermState>, n: nat, target: nat) {
    && n <= |ts|
    && (forall i :: 0 <= i < n ==> target <= ts[i].skip.lastDocId + 1)
    && (n < |ts| ==> target <= Cur(ts[n]))
  }

  /**
   * The choice made by block_max_skip_advance: the pivot term with the largest list bound,
   * and how far it may go (just past the nearest block end, but not past a non-pivot cursor).
   */
  method ChooseSkip(terms: array<TermState>, pivotLen: nat, ghost pivot: nat) returns (best: nat, target: nat)
    requires Loaded(terms[..], pivotLen)
    ensures best < pivotLen && SafeTarget(terms[..], pivotLen, target)
    ensures forall i :: 0 <= i < pivotLen ==> terms[i].list.maxScore <= terms[best].list.maxScore
    ensures Aligned(terms[..], pivotLen, pivot) && Beyond(terms[..], pivotLen, pivot) ==> pivot < target
  {
    ghost var ts := terms[..];
    assert Cur(ts[0]) < UINT32_MAX;
    var bestScorer, bestMaxScore := -1, -1.0;
    var minBlockEnd: nat := UINT32_MAX;
    var i := 0;
    while i < pivotLen
      invariant 0 <= i <= pivotLen
      invariant -1 <= bestScorer < i && (0 < i ==> 0 <= bestScorer)
      invariant bestMaxScore == if bestScorer < 0 then -1.0 else ts[bestScorer].list.maxScore
      invariant forall k :: 0 <= k < i ==> ts[k].list.maxScore <= bestMaxScore
      invariant forall k :: 0 <= k < i ==> minBlockEnd <= ts[k].skip.lastDocId
      invariant Aligned(ts, pivotLen, pivot) ==> pivot <= minBlockEnd
    {
      if Cur(terms[i]) != UINT32_MAX {
        if terms[i].list.maxScore > bestMaxScore {
          bestMaxScore := terms[i].list.maxScore;
          bestScorer := i;
        }
        var blockLast := terms[i].list.skips[terms[i].currentBlock].lastDocId;
        if blockLast < minBlockEnd {
          minBlockEnd := blockLast;
        }
      }
      i := i + 1;
    }
    best := bestScorer;
    target := minBlockEnd + 1;
    if pivotLen < terms.Length {
      var nextDoc := Cur(terms[pivotLen]);
      if nextDoc < target {
        target := nextDoc;
      }
    }
  }

  /** block_max_skip_advance: when the block bounds cannot beat the threshold, move one term on. */
  method BlockMaxSkipAdvance(terms: array<TermState>, pivotLen: nat, activeCount: int, ghost pivot: nat, ghost bar: real)
    returns (count: int)
    requires AllValid(terms[..]) && SortedByDoc(terms[..])
    requires PivotTermsActive(terms[..], pivotLen)
    requires Sum(terms[..pivotLen], BlockBound()) <= bar
    requires activeCount == ActiveCount(terms[..])
    modifies terms
    ensures Advanced(old(terms[..]), terms[..]) && SkipsOnlyUpTo(old(terms[..]), terms[..], bar)
    ensures count == ActiveCount(terms[..])
    ensures Aligned(old(terms[..]), pivotLen, pivot) && Beyond(old(terms[..]), pivotLen, pivot) ==>
              Distance(terms[..]) < Distance(old(terms[..]))
  {
    ghost var ts := terms[..];
    assert terms[..pivotLen] == ts[..pivotLen];
    ActiveMeansLoaded(ts, pivotLen);
    var best, target := ChooseSkip(terms, pivotLen, pivot);
    ghost var t', dest;
    var active;
    active, t', dest := SeekAt(terms, best, target);
    count := if active then activeCount else activeCount - 1;
    AllSkippedInBlocks(ts, pivotLen, terms[..], target, bar);
  }

  lemma AllSkippedInBlocks(ts: seq<TermState>, n: nat, us: seq<TermState>, target: nat, bar: real)
    requires AllValid(ts) && SortedByDoc(ts) && PivotTermsActive(ts, n) && SafeTarget(ts, n, target)
    requires forall d: nat :: Passed(us, d) && !Passed(ts, d) ==> d < target
    requires Sum(ts[..n], BlockBound()) <= bar
    ensures SkipsOnlyUpTo(ts, us, bar)
  {
    forall d: nat | Passed(us, d) && !Passed(ts, d)
      ensures FullScore(Lists(ts), d) <= bar
    {
      SkippedInBlocks(ts, n, d, target);
    }
  }

  /** A document before the skip target is inside every pivot term's block and before all other cursors. */
  lemma SkippedInBlocks(ts: seq<TermState>, n: nat, d: nat, target: nat)
    requires AllValid(ts) && SortedByDoc(ts) && PivotTermsActive(ts, n) && !Passed(ts, d) && d < target
    requires SafeTarget(ts, n, target)
    ensures FullScore(Lists(ts), d) <= Sum(ts[..n], BlockBound())
  {
    forall i | n <= i < |ts|
      ensures d < Cur(ts[i])
    {
      assert Cur(ts[n]) <= Cur(ts[i]);
    }
    BlockBoundHolds(ts, n, d);
  }

  /** verify_pivot_alignment. */
  method VerifyPivotAlignment(terms: array<TermState>, pivotLen: nat, pivot: nat) returns (aligned: bool)
    requires pivotLen <= terms.Length
    ensures aligned <==> Aligned(terms[..], pivotLen, pivot)
  {
    var i := 0;
    while i < pivotLen
      invariant 0 <= i <= pivotLen
      invariant forall k :: 0 <= k < i ==> Cur(terms[k]) == pivot
    {
      if Cur(terms[i]) != pivot { return false; }
      i := i + 1;
    }
    return true;
  }

  /** score_pivot_document: add up the current postings of the aligned pivot terms. */
  method ScorePivotDocument(terms: array<TermState>, pivotLen: nat, ghost pivot: nat) returns (score: real)
    requires AllValid(terms[..]) && Aligned(terms[..], pivotLen, pivot) && pivot < UINT32_MAX
    ensures score == Sum(terms[..pivotLen], ListWeight(pivot))
  {
    ghost var ts := terms[..];
    score := 0.0;
    var i := 0;
    while i < pivotLen
      invariant 0 <= i <= pivotLen
      invariant score == Sum(ts[..i], ListWeight(pivot))
    {
      CurFacts(ts[i]);
      WeightAt(ts[i].list, pivot, ts[i].currentBlock, ts[i].currentInBlock);
      assert ts[..i + 1] == ts[..i] + [ts[i]];
      SumConcat(ts[..i], [ts[i]], ListWeight(pivot));
      if terms[i].list.found && !terms[i].finished {
        score := score + PostingWeight(terms[i].list, terms[i].postings[terms[i].currentInBlock]);
      }
      i := i + 1;
    }
    assert terms[..pivotLen] == ts[..pivotLen];
  }

  // ---------- leaving the pivot behind ----------

  /** Only the pivot, or documents in `skippable`, were passed. */
  ghost predicate PassesOnly(ts: seq<TermState>, us: seq<TermState>, pivot: nat, skippable: iset<nat>) {
    forall d: nat :: Passed(us, d) && !Passed(ts, d) ==> d == pivot || d in skippable
  }

  /** The state while the pivot terms are advanced from position i down: those below i still wait. */
  ghost predicate Leaving(start: seq<TermState>, ts: seq<TermState>, i: nat, pivot: nat, skippable: iset<nat>) {
    && Advanced(start, ts) && PassesOnly(start, ts, pivot, skippable)
    && Aligned(ts, i, pivot) && Beyond(ts, i, pivot)
  }

  lemma LeavingStep(start: seq<TermState>, ts: seq<TermState>, i: nat, t': TermState, dest: nat, us: seq<TermState>,
                    pivot: nat, skippable: iset<nat>)
    requires Leaving(start, ts, i + 1, pivot, skippable)
    requires Replaced(ts, i, t', dest, us) && pivot < Cur(t')
    requires PassesOnly(ts, us, pivot, skippable)
    ensures Leaving(start, us, i, pivot, skippable)
  {
    AdvancedTransitive(start, ts, us, 0.0);
    LeavingPositions(ts, i, t', dest, pivot);
  }

  lemma LeavingPositions(ts: seq<TermState>, i: nat, t': TermState, dest: nat, pivot: nat)
    requires i < |ts| && Aligned(ts, i + 1, pivot) && Beyond(ts, i + 1, pivot) && pivot < Cur(t')
    requires i <= dest < |ts|
    ensures Aligned(Rotate(ts[i := t'], i, dest), i, pivot)
    ensures Beyond(Rotate(ts[i := t'], i, dest), i, pivot)
  {
  }

  lemma StepPasses(ts: seq<TermState>, i: nat, t': TermState, dest: nat, us: seq<TermState>,
                   pivot: nat, floor: nat, skippable: iset<nat>)
    requires Replaced(ts, i, t', dest, us) && Cur(ts[i]) == pivot && IsNext(t'.list, floor, Cur(t'))
    requires forall d: nat :: Has(t'.list, d) && pivot <= d < floor ==> d == pivot || d in skippable
    ensures PassesOnly(ts, us, pivot, skippable)
  {
  }

  lemma LeavingAt(start: seq<TermState>, ts: seq<TermState>, i: nat, pivot: nat, skippable: iset<nat>)
    requires Leaving(start, ts, i + 1, pivot, skippable) && pivot < UINT32_MAX
    ensures i < |ts| && Cur(ts[i]) == pivot && ValidTerm(ts[i]) && Active(ts[i]) && ValidCursor(ts[i])
    ensures AllValid(ts) && SortedByDoc(ts)
  {
    assert ValidTerm(ts[i]);
    CurFacts(ts[i]);
  }

  /** Step one aligned pivot term to its next posting (advance_term_iterator and restore_ordering). */
  method AdvanceAt(terms: array<TermState>, i: nat, activeCount: int, ghost start: seq<TermState>,
                   ghost pivot: nat, ghost skippable: iset<nat>)
    returns (count: int)
    requires Leaving(start, terms[..], i + 1, pivot, skippable)
    requires pivot < UINT32_MAX && activeCount == ActiveCount(terms[..])
    modifies terms
    ensures Leaving(start, terms[..], i, pivot, skippable)
    ensures Distance(terms[..]) < Distance(old(terms[..])) && count == ActiveCount(terms[..])
  {
    ghost var ts := terms[..];
    LeavingAt(start, ts, i, pivot, skippable);
    hide Leaving, PassesOnly, AllValid, SortedByDoc, Passed, ValidTerm;
    CurFacts(ts[i]);
    var t', active := AdvanceTermIterator(terms[i]);
    count := if active then activeCount else activeCount - 1;
    CurFacts(t');
    ghost var dest := PutBack(terms, i, t');
    StepPasses(ts, i, t', dest, terms[..], pivot, pivot + 1, skippable);
    LeavingStep(start, ts, i, t', dest, terms[..], pivot, skippable);
  }

  /** Step 7: advance every pivot term past the pivot, from the last one down. */
  method AdvancePivotTerms(terms: array<TermState>, pivotLen: nat, pivot: nat, activeCount: int) returns (count: int)
    requires AllValid(terms[..]) && SortedByDoc(terms[..]) && 0 < pivotLen && pivot < UINT32_MAX
    requires Aligned(terms[..], pivotLen, pivot) && Beyond(terms[..], pivotLen, pivot)
    requires activeCount == ActiveCount(terms[..])
    modifies terms
    ensures Leaving(old(terms[..]), terms[..], 0, pivot, iset{})
    ensures Distance(terms[..]) < Distance(old(terms[..])) && count == ActiveCount(terms[..])
  {
    ghost var start := terms[..];
    count := activeCount;
    var i := pivotLen - 1;
    while i >= 0
      invariant -1 <= i < pivotLen
      invariant Leaving(start, terms[..], i + 1, pivot, iset{})
      invariant count == ActiveCount(terms[..])
      invariant if i == pivotLen - 1 then terms[..] == start else Distance(terms[..]) < Distance(start)
    {
      assert Cur(terms[..][i]) == pivot;
      if Cur(terms[i]) == pivot {
        count := AdvanceAt(terms, i, count, start, pivot, iset{});
      }
      i := i - 1;
    }
  }

  // ---------- tenants ----------

  /** A block marked single-tenant holds only documents whose tenant has those low 16 bits. */
  ghost predicate TenantMarksHold(l: TermList, tenants: seq<nat>) {
    forall b, j :: 0 <= b < |l.skips| && b < |l.blocks| && 0 <= j < |l.blocks[b]| &&
                   l.skips[b].tenantMode.TenantSingle? ==>
                     GetTenantId(tenants, l.blocks[b][j].docId) % 0x1_0000 == l.skips[b].tenantLow16
  }

  ghost predicate AllTenantMarksHold(ts: seq<TermState>, tenants: seq<nat>) {
    forall i :: 0 <= i < |ts| ==> TenantMarksHold(ts[i].list, tenants)
  }

  ghost function WrongTenant(tenants: seq<nat>, tenantId: nat): iset<nat> {
    iset d: nat | GetTenantId(tenants, d) != tenantId
  }

  /** Skip to the end of a single-tenant block of another tenant. */
  method SkipBlockAt(terms: array<TermState>, i: nat, activeCount: int, ghost start: seq<TermState>,
                     ghost pivot: nat, tenants: seq<nat>, tenantId: nat)
    returns (count: int)
    requires Leaving(start, terms[..], i + 1, pivot, WrongTenant(tenants, tenantId))
    requires pivot < UINT32_MAX && activeCount == ActiveCount(terms[..])
    requires TenantMarksHold(terms[i].list, tenants)
    requires terms[i].skip.tenantMode.TenantSingle? && terms[i].skip.tenantLow16 != tenantId % 0x1_0000
    modifies terms
    ensures Leaving(start, terms[..], i, pivot, WrongTenant(tenants, tenantId))
    ensures Distance(terms[..]) < Distance(old(terms[..])) && count == ActiveCount(terms[..])
  {
    ghost var ts := terms[..];
    LeavingAt(start, ts, i, pivot, WrongTenant(tenants, tenantId));
    hide Leaving, PassesOnly, WrongTenant, AllValid, SortedByDoc, Passed, TenantMarksHold, ValidTerm;
    CurFacts(ts[i]);
    ghost var t', dest;
    var active;
    var target := terms[i].list.skips[terms[i].currentBlock].lastDocId + 1;
    active, t', dest := SeekAt(terms, i, target);
    count := if active then activeCount else activeCount - 1;
    BlockOfWrongTenant(ts[i], tenants, tenantId);
    StepPasses(ts, i, t', dest, terms[..], pivot, target, WrongTenant(tenants, tenantId));
    LeavingStep(start, ts, i, t', dest, terms[..], pivot, WrongTenant(tenants, tenantId));
  }

  lemma BlockOfWrongTenant(t: TermState, tenants: seq<nat>, tenantId: nat)
    requires ValidTerm(t) && Active(t) && TenantMarksHold(t.list, tenants)
    requires t.skip.tenantMode.TenantSingle? && t.skip.tenantLow16 != tenantId % 0x1_0000
    ensures forall d: nat :: Has(t.list, d) && Cur(t) <= d < t.skip.lastDocId + 1 ==> d in WrongTenant(tenants, tenantId)
  {
    forall d: nat | Has(t.list, d) && Cur(t) <= d < t.skip.lastDocId + 1
      ensures d in WrongTenant(tenants, tenantId)
    {
      InBlockTenant(t, d, tenants);
    }
  }

  lemma InBlockTenant(t: TermState, d: nat, tenants: seq<nat>)
    requires ValidTerm(t) && Active(t) && TenantMarksHold(t.list, tenants) && t.skip.tenantMode.TenantSingle?
    requires Has(t.list, d) && Cur(t) <= d <= t.skip.lastDocId
    ensures GetTenantId(tenants, d) % 0x1_0000 == t.skip.tenantLow16
  {
    var b: nat, j: nat :| At(t.list, d, b, j);
    PositionOrder(t.list, b, j, t.currentBlock, t.currentInBlock);
    PositionOrder(t.list, t.currentBlock, |t.list.blocks[t.currentBlock]| - 1, b, j);
  }

  /** Step 5, wrong tenant: each pivot term leaves its block if that is another tenant's, else one posting. */
  method SkipWrongTenant(terms: array<TermState>, pivotLen: nat, pivot: nat, activeCount: int,
                         tenants: seq<nat>, tenantId: nat)
    returns (count: int)
    requires AllValid(terms[..]) && SortedByDoc(terms[..]) && 0 < pivotLen && pivot < UINT32_MAX
    requires Aligned(terms[..], pivotLen, pivot) && Beyond(terms[..], pivotLen, pivot)
    requires AllTenantMarksHold(terms[..], tenants) && activeCount == ActiveCount(terms[..])
    modifies terms
    ensures Leaving(old(terms[..]), terms[..], 0, pivot, WrongTenant(tenants, tenantId))
    ensures Distance(terms[..]) < Distance(old(terms[..])) && count == ActiveCount(terms[..])
  {
    ghost var start := terms[..];
    count := activeCount;
    var i := pivotLen - 1;
    while i >= 0
      invariant -1 <= i < pivotLen
      invariant Leaving(start, terms[..], i + 1, pivot, WrongTenant(tenants, tenantId))
      invariant count == ActiveCount(terms[..]) && AllTenantMarksHold(terms[..], tenants)
      invariant if i == pivotLen - 1 then terms[..] == start else Distance(terms[..]) < Distance(start)
    {
      ghost var ts := terms[..];
      assert Cur(ts[i]) == pivot && ValidTerm(ts[i]);
      if Cur(terms[i]) == pivot {
        var skip := terms[i].skip;
        if skip.tenantMode.TenantSingle? && skip.tenantLow16 != tenantId % 0x1_0000 {
          count := SkipBlockAt(terms, i, count, start, pivot, tenants, tenantId);
        } else {
          count := AdvanceAt(terms, i, count, start, pivot, WrongTenant(tenants, tenantId));
        }
      }
      TenantMarksKept(ts, terms[..], tenants);
      i := i - 1;
    }
  }

  /** Being about lists only, the tenant marks survive any reordering of the query terms. */
  lemma TenantMarksKept(ts: seq<TermState>, us: seq<TermState>, tenants: seq<nat>)
    requires SameTerms(us, ts) && |us| == |ts| && AllTenantMarksHold(ts, tenants)
    ensures AllTenantMarksHold(us, tenants)
  {
    forall i | 0 <= i < |us|
      ensures TenantMarksHold(us[i].list, tenants)
    {
      assert Lists(us)[i] in multiset(Lists(ts));
      var k :| 0 <= k < |ts| && Lists(ts)[k] == Lists(us)[i];
      assert TenantMarksHold(ts[k].list, tenants);
    }
  }
}
