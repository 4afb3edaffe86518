/**
 * Multi-term search in one segment (score_segment_multi_term_bmw, src/query/bmw.c): the
 * traversal leaves in the heap exactly the scores that scoring every document would leave.
 */
module WandSearch {
  import opened ItemPointers
  import opened Postings
  import opened Sums
  import opened TopKSpec
  import opened WandSpec
  import opened Wand
  import opened TopK

  // ---------- the exhaustive reference ----------

  ghost predicate HasAny(q: seq<TermList>, d: nat) {
    exists i :: 0 <= i < |q| && Has(q[i], d)
  }

  /** The filter of the traversal: doc range, and tenant unless the range already selects it. */
  predicate Admitted(d: nat, tenants: seq<nat>, tenantId: nat, minDocId: nat, maxDocId: nat) {
    && minDocId <= d <= maxDocId
    && (tenantId == 0 || maxDocId != UINT32_MAX || GetTenantId(tenants, d) == tenantId)
  }

  /** One scan of a segment: the query's lists there, the filter, and what the heap held before. */
  datatype Scan = Scan(q: seq<TermList>, tenants: seq<nat>, tenantId: nat, minDocId: nat, maxDocId: nat,
                       prior: multiset<real>, k: nat)

  /** The documents that scoring the whole segment would score. */
  ghost function Eligible(s: Scan): set<nat> {
    set d: nat | d < UINT32_MAX && HasAny(s.q, d) && Admitted(d, s.tenants, s.tenantId, s.minDocId, s.maxDocId)
  }

  /** The full scores of the documents of `docs` below n, one per document. */
  ghost function Bag(q: seq<TermList>, docs: set<nat>, n: nat): multiset<real> {
    if n == 0 then multiset{}
    else Bag(q, docs, n - 1) + if n - 1 in docs then multiset{FullScore(q, n - 1)} else multiset{}
  }

  /** The scores that scoring every eligible document of the segment yields. */
  ghost function ExhaustiveScores(s: Scan): multiset<real> {
    Bag(s.q, Eligible(s), UINT32_MAX)
  }

  lemma CountNone(q: seq<TermList>, docs: set<nat>, x: real)
    ensures Bag(q, docs, 0)[x] == 0
  {
  }

  lemma CountLast(q: seq<TermList>, docs: set<nat>, n: nat, x: real)
    requires 0 < n
    ensures Bag(q, docs, n)[x] == Bag(q, docs, n - 1)[x] + if n - 1 in docs && FullScore(q, n - 1) == x then 1 else 0
  {
    hide FullScore;
  }

  lemma {:induction false} CountAdd(q: seq<TermList>, docs: set<nat>, d: nat, n: nat, x: real)
    requires d !in docs
    ensures Bag(q, docs + {d}, n)[x] == Bag(q, docs, n)[x] + if d < n && FullScore(q, d) == x then 1 else 0
  {
    hide FullScore, Bag;
    if n == 0 {
      CountNone(q, docs, x);
      CountNone(q, docs + {d}, x);
    }
    if n > 0 {
      CountAdd(q, docs, d, n - 1, x);
      CountLast(q, docs + {d}, n, x);
      CountLast(q, docs, n, x);
    }
  }

  lemma BagAdd(q: seq<TermList>, docs: set<nat>, d: nat, n: nat)
    requires d !in docs && d < n
    ensures Bag(q, docs + {d}, n) == Bag(q, docs, n) + multiset{FullScore(q, d)}
  {
    hide Bag, FullScore;
    forall x: real
      ensures Bag(q, docs + {d}, n)[x] == (Bag(q, docs, n) + multiset{FullScore(q, d)})[x]
    {
      CountAdd(q, docs, d, n, x);
    }
  }

  lemma {:induction false} CountSplit(q: seq<TermList>, a: set<nat>, b: set<nat>, n: nat, x: real)
    requires a !! b
    ensures Bag(q, a + b, n)[x] == Bag(q, a, n)[x] + Bag(q, b, n)[x]
  {
    hide FullScore, Bag;
    if n == 0 {
      CountNone(q, a, x);
      CountNone(q, b, x);
      CountNone(q, a + b, x);
    }
    if n > 0 {
      CountSplit(q, a, b, n - 1, x);
      CountLast(q, a, n, x);
      CountLast(q, b, n, x);
      CountLast(q, a + b, n, x);
    }
  }

  lemma BagSplit(q: seq<TermList>, a: set<nat>, b: set<nat>, n: nat)
    requires a !! b
    ensures Bag(q, a + b, n) == Bag(q, a, n) + Bag(q, b, n)
  {
    hide Bag;
    forall x: real
      ensures Bag(q, a + b, n)[x] == (Bag(q, a, n) + Bag(q, b, n))[x]
    {
      CountSplit(q, a, b, n, x);
    }
  }

  lemma {:induction false} BagMember(q: seq<TermList>, docs: set<nat>, n: nat, s: real)
    requires s in Bag(q, docs, n)
    ensures exists d :: d in docs && d < n && s == FullScore(q, d)
  {
    if n > 0 {
      if n - 1 in docs && s == FullScore(q, n - 1) {
      } else {
        BagMember(q, docs, n - 1, s);
      }
    }
  }

  ghost predicate ValidQuery(q: seq<TermList>) {
    forall i :: 0 <= i < |q| ==> ValidList(q[i]) && BoundsDominate(q[i])
  }

  lemma {:induction false} ScoreIsPositive(q: seq<TermList>, d: nat)
    requires ValidQuery(q)
    ensures 0.0 <= FullScore(q, d)
    ensures HasAny(q, d) ==> 0.0 < FullScore(q, d)
  {
    if q != [] {
      WeightBounds(q[0], d);
      ScoreIsPositive(q[1..], d);
      assert HasAny(q, d) && !Has(q[0], d) ==> HasAny(q[1..], d) by {
        if HasAny(q, d) && !Has(q[0], d) {
          var i :| 0 <= i < |q| && Has(q[i], d);
          assert q[1..][i - 1] == q[i];
        }
      }
    }
  }

  // ---------- the traversal invariant ----------

  /** Nothing eligible was lost: a document some cursor has passed was offered or is beaten. */
  ghost predicate Settled(s: Scan, ts: seq<TermState>, offered: set<nat>, scores: multiset<real>) {
    forall d: nat :: d in Eligible(s) && Passed(ts, d) && d !in offered ==> Beats(scores, s.k, FullScore(s.q, d))
  }

  /** The cursors at a loop head: a sorted permutation of the query's terms, none before minDocId. */
  ghost predicate Cursors(s: Scan, ts: seq<TermState>, count: int) {
    && AllValid(ts) && SortedByDoc(ts) && multiset(Lists(ts)) == multiset(s.q) && ValidQuery(s.q)
    && AllTenantMarksHold(ts, s.tenants) && AllFrom(ts, s.minDocId) && count == ActiveCount(ts)
  }

  /** Offered documents lie behind every cursor, so none can become the pivot again. */
  ghost predicate OfferedBehind(ts: seq<TermState>, offered: set<nat>) {
    forall d :: d in offered ==> AllFrom(ts, d + 1)
  }

  /** The heap holds the best of what it started with and the documents offered so far. */
  ghost predicate HeapHolds(s: Scan, offered: set<nat>, scores: multiset<real>) {
    && (forall x :: x in scores ==> 0.0 <= x) && offered <= Eligible(s)
    && IsTopK(scores, s.prior + Bag(s.q, offered, UINT32_MAX), s.k)
  }

  /** The whole invariant at a loop head. */
  ghost predicate LoopHead(s: Scan, ts: seq<TermState>, count: int, offered: set<nat>, scores: multiset<real>) {
    && Cursors(s, ts, count) && OfferedBehind(ts, offered)
    && Settled(s, ts, offered, scores) && HeapHolds(s, offered, scores)
  }

  lemma CursorsAtHead(s: Scan, ts: seq<TermState>, count: int, offered: set<nat>, scores: multiset<real>)
    requires LoopHead(s, ts, count, offered, scores)
    ensures AllValid(ts) && SortedByDoc(ts) && AllTenantMarksHold(ts, s.tenants) && count == ActiveCount(ts)
    ensures multiset(Lists(ts)) == multiset(s.q) && Bounded(ts)
    ensures forall x :: x in scores ==> 0.0 <= x
  {
    ValidIsBounded(ts);
  }

  lemma CursorsAdvance(s: Scan, ts: seq<TermState>, us: seq<TermState>, count: int, count': int, offered: set<nat>)
    requires Cursors(s, ts, count) && OfferedBehind(ts, offered)
    requires Advanced(ts, us) && count' == ActiveCount(us)
    ensures Cursors(s, us, count') && OfferedBehind(us, offered)
  {
    TenantMarksKept(ts, us, s.tenants);
  }

  lemma ScoreOfQuery(q: seq<TermList>, ts: seq<TermState>, d: nat)
    requires multiset(Lists(ts)) == multiset(q)
    ensures FullScore(Lists(ts), d) == FullScore(q, d)
  {
    SumPermutation(Lists(ts), q, WeightOf(d));
  }

  /** A threshold of the heap: no positive score up to it can enter. */
  ghost predicate IsThreshold(scores: multiset<real>, k: nat, threshold: real) {
    0.0 <= threshold && forall x :: 0.0 < x <= threshold ==> Beats(scores, k, x)
  }

  /** Skipping documents whose score is at most the threshold loses nothing. */
  lemma SkipKeepsLoopHead(s: Scan, ts: seq<TermState>, us: seq<TermState>, count: int, count': int,
                          offered: set<nat>, scores: multiset<real>, threshold: real)
    requires LoopHead(s, ts, count, offered, scores) && IsThreshold(scores, s.k, threshold)
    requires Advanced(ts, us) && SkipsOnlyUpTo(ts, us, threshold) && count' == ActiveCount(us)
    ensures LoopHead(s, us, count', offered, scores)
  {
    CursorsAdvance(s, ts, us, count, count', offered);
    forall d: nat | d in Eligible(s) && Passed(us, d) && d !in offered
      ensures Beats(scores, s.k, FullScore(s.q, d))
    {
      if !Passed(ts, d) {
        ScoreOfQuery(s.q, ts, d);
        ScoreIsPositive(s.q, d);
      }
    }
  }

  /** Leaving an ineligible pivot, and other ineligible documents, loses nothing. */
  lemma LeavingKeepsLoopHead(s: Scan, ts: seq<TermState>, us: seq<TermState>, count: int, count': int,
                             offered: set<nat>, scores: multiset<real>, pivot: nat, skippable: iset<nat>)
    requires LoopHead(s, ts, count, offered, scores)
    requires Leaving(ts, us, 0, pivot, skippable) && count' == ActiveCount(us)
    requires pivot !in Eligible(s) && forall d :: d in skippable ==> d !in Eligible(s)
    ensures LoopHead(s, us, count', offered, scores)
  {
    CursorsAdvance(s, ts, us, count, count', offered);
  }

  // ---------- offering the pivot ----------

  /** What offering an aligned pivot does: its full score is offered, or it was beaten already. */
  ghost predicate PivotOffered(before: multiset<real>, after: multiset<real>, full: real, k: nat, isNew: bool) {
    if isNew then IsTopK(after, before + multiset{full}, k) else after == before
  }

  /** The slots of documents with their full scores, one per document. */
  ghost function Candidates(q: seq<TermList>, rootBlock: nat, docs: set<nat>): set<Entry>
    requires rootBlock < INVALID_BLOCK_NUMBER
  {
    set d | d in docs :: SlotFor(rootBlock, d, FullScore(q, d))
  }

  /** The heap holds what it held, and offered documents with their full scores, none of them twice. */
  ghost predicate Genuine(s: Scan, rootBlock: nat, start: multiset<Entry>, offered: set<nat>, held: multiset<Entry>) {
    rootBlock < INVALID_BLOCK_NUMBER && held <= start + multiset(Candidates(s.q, rootBlock, offered))
  }

  ghost predicate SlotOffered(before: multiset<Entry>, after: multiset<Entry>, e: Entry, isNew: bool) {
    if isNew then after <= before + multiset{e} else after == before
  }

  lemma GenuineAfterOffer(s: Scan, rootBlock: nat, start: multiset<Entry>, offered: set<nat>, before: multiset<Entry>,
                          after: multiset<Entry>, pivot: nat, isNew: bool)
    requires Genuine(s, rootBlock, start, offered, before) && pivot !in offered
    requires SlotOffered(before, after, SlotFor(rootBlock, pivot, FullScore(s.q, pivot)), isNew)
    ensures Genuine(s, rootBlock, start, if isNew then offered + {pivot} else offered, after)
  {
    hide FullScore;
    if isNew {
      var e := SlotFor(rootBlock, pivot, FullScore(s.q, pivot));
      assert Candidates(s.q, rootBlock, offered + {pivot}) == Candidates(s.q, rootBlock, offered) + {e};
      assert e !in Candidates(s.q, rootBlock, offered);
      assert multiset(Candidates(s.q, rootBlock, offered + {pivot})) ==
             multiset(Candidates(s.q, rootBlock, offered)) + multiset{e};
    }
  }

  lemma GenuineAtStart(s: Scan, rootBlock: nat, start: multiset<Entry>)
    requires rootBlock < INVALID_BLOCK_NUMBER
    ensures Genuine(s, rootBlock, start, {}, start)
  {
    assert Candidates(s.q, rootBlock, {}) == {};
  }

  lemma GenuineGrows(s: Scan, rootBlock: nat, start: multiset<Entry>, docs: set<nat>, more: set<nat>,
                     held: multiset<Entry>)
    requires Genuine(s, rootBlock, start, docs, held) && docs <= more
    ensures Genuine(s, rootBlock, start, more, held)
  {
    hide FullScore;
    assert Candidates(s.q, rootBlock, docs) <= Candidates(s.q, rootBlock, more);
  }

  /** The dominated check and the add: the heap ends up as if the score had been offered. */
  method OfferScore(heap: TopKHeap, rootBlock: nat, docId: nat, score: real)
    requires heap.Valid() && rootBlock < INVALID_BLOCK_NUMBER
    modifies heap.Repr
    ensures heap.Valid()
    ensures IsTopK(heap.Scores(), old(heap.Scores()) + multiset{score}, heap.capacity)
    ensures heap.Held() <= old(heap.Held()) + multiset{SlotFor(rootBlock, docId, score)}
    ensures |old(heap.Scores())| == heap.capacity && (forall x :: x in old(heap.Scores()) ==> score < x) ==>
              heap.Held() == old(heap.Held())
  {
    heap.SizeIsCard();
    var dominated := heap.Dominated(score);
    if !dominated {
      heap.AddSegment(rootBlock, docId, score);
    } else {
      TopKAll(heap.Scores(), heap.capacity);
      TopKIgnoreBeaten(heap.Scores(), heap.Scores(), multiset{score}, heap.capacity);
    }
  }

  /** Step 6: score the aligned pivot and offer it to the heap. */
  method OfferPivot(heap: TopKHeap, terms: array<TermState>, pivotLen: nat, pivot: nat, rootBlock: nat)
    requires heap.Valid() && rootBlock < INVALID_BLOCK_NUMBER && terms as object !in heap.Repr
    requires AllValid(terms[..]) && 0 < pivotLen && pivot < UINT32_MAX
    requires Aligned(terms[..], pivotLen, pivot) && Beyond(terms[..], pivotLen, pivot)
    requires Passed(terms[..], pivot) ==> Beats(heap.Scores(), heap.capacity, FullScore(Lists(terms[..]), pivot))
    modifies heap.Repr
    ensures heap.Valid() && terms[..] == old(terms[..])
    ensures PivotOffered(old(heap.Scores()), heap.Scores(), FullScore(Lists(terms[..]), pivot), heap.capacity,
                         !Passed(terms[..], pivot))
    ensures SlotOffered(old(heap.Held()), heap.Held(), SlotFor(rootBlock, pivot, FullScore(Lists(terms[..]), pivot)),
                        !Passed(terms[..], pivot))
  {
    ghost var ts := terms[..];
    ghost var before := heap.Scores();
    PivotScore(ts, pivotLen, pivot);
    var score := ScorePivotDocument(terms, pivotLen, pivot);
    assert ts[..pivotLen] == terms[..pivotLen];
    if score > 0.0 {
      OfferScore(heap, rootBlock, pivot, score);
    }
    if Passed(ts, pivot) {
      BeatenChangesNothing(before, heap.Scores(), score, heap.capacity);
    }
  }

  lemma OfferKeepsHeap(s: Scan, before: multiset<real>, after: multiset<real>, offered: set<nat>, pivot: nat, isNew: bool)
    requires HeapHolds(s, offered, before) && pivot !in offered && pivot in Eligible(s)
    requires 0.0 <= FullScore(s.q, pivot)
    requires PivotOffered(before, after, FullScore(s.q, pivot), s.k, isNew)
    ensures HeapHolds(s, if isNew then offered + {pivot} else offered, after)
  {
    if isNew {
      BagAdd(s.q, offered, pivot, UINT32_MAX);
      TopKCompose(before, s.prior + Bag(s.q, offered, UINT32_MAX), after, multiset{FullScore(s.q, pivot)}, s.k);
      assert s.prior + Bag(s.q, offered + {pivot}, UINT32_MAX) ==
             s.prior + Bag(s.q, offered, UINT32_MAX) + multiset{FullScore(s.q, pivot)};
    }
  }

  lemma BeatsKept(s: Scan, before: multiset<real>, after: multiset<real>, full: real, isNew: bool)
    requires PivotOffered(before, after, full, s.k, isNew)
    ensures forall x :: Beats(before, s.k, x) ==> Beats(after, s.k, x)
  {
    forall x | Beats(before, s.k, x)
      ensures Beats(after, s.k, x)
    {
      if isNew { BeatsForever(before, after, multiset{full}, s.k, x); }
    }
  }

  lemma SettledAfterOffer(s: Scan, ts: seq<TermState>, us: seq<TermState>, offered: set<nat>,
                          before: multiset<real>, after: multiset<real>, pivot: nat)
    requires Settled(s, ts, offered, before) && PassesOnly(ts, us, pivot, iset{})
    requires PivotOffered(before, after, FullScore(s.q, pivot), s.k, !Passed(ts, pivot))
    ensures Settled(s, us, if Passed(ts, pivot) then offered else offered + {pivot}, after)
  {
    var offered' := if Passed(ts, pivot) then offered else offered + {pivot};
    forall d: nat | d in Eligible(s) && Passed(us, d) && d !in offered'
      ensures Beats(after, s.k, FullScore(s.q, d))
    {
      assert Passed(ts, d);
      BeatsKept(s, before, after, FullScore(s.q, pivot), !Passed(ts, pivot));
    }
  }

  lemma OfferedStayBehind(ts: seq<TermState>, us: seq<TermState>, offered: set<nat>, pivot: nat)
    requires OfferedBehind(ts, offered) && Advanced(ts, us) && Beyond(us, 0, pivot)
    ensures OfferedBehind(us, offered + {pivot}) && OfferedBehind(us, offered)
  {
  }

  /** Offering the pivot and then leaving it behind keeps the invariant, with the pivot accounted for. */
  lemma OfferedAndLeft(s: Scan, ts: seq<TermState>, us: seq<TermState>, count: int, count': int, offered: set<nat>,
                       before: multiset<real>, after: multiset<real>, pivot: nat)
    requires LoopHead(s, ts, count, offered, before) && pivot in Eligible(s) && pivot !in offered
    requires PivotOffered(before, after, FullScore(s.q, pivot), s.k, !Passed(ts, pivot))
    requires Leaving(ts, us, 0, pivot, iset{}) && count' == ActiveCount(us)
    ensures LoopHead(s, us, count', if Passed(ts, pivot) then offered else offered + {pivot}, after)
  {
    ScoreIsPositive(s.q, pivot);
    OfferKeepsHeap(s, before, after, offered, pivot, !Passed(ts, pivot));
    SettledAfterOffer(s, ts, us, offered, before, after, pivot);
    CursorsAdvance(s, ts, us, count, count', offered);
    OfferedStayBehind(ts, us, offered, pivot);
  }

  /** The pivot was not offered before; if some cursor passed it, it is beaten already. */
  lemma PivotNotOffered(s: Scan, ts: seq<TermState>, count: int, offered: set<nat>, scores: multiset<real>,
                        pivotLen: nat, pivot: nat)
    requires LoopHead(s, ts, count, offered, scores) && pivot in Eligible(s)
    requires 0 < pivotLen && Aligned(ts, pivotLen, pivot)
    ensures pivot !in offered && FullScore(Lists(ts), pivot) == FullScore(s.q, pivot)
    ensures Passed(ts, pivot) ==> Beats(scores, s.k, FullScore(Lists(ts), pivot))
  {
    assert Cur(ts[0]) == pivot;
    assert !AllFrom(ts, pivot + 1);
    ScoreOfQuery(s.q, ts, pivot);
  }

  /** Offer the pivot, and account for it unless some cursor has passed it. */
  method OfferNew(heap: TopKHeap, terms: array<TermState>, pivotLen: nat, pivot: nat, rootBlock: nat,
                  ghost s: Scan, ghost offered: set<nat>, ghost start: multiset<Entry>, ghost activeCount: int)
    returns (ghost offered': set<nat>)
    requires heap.Valid() && terms as object !in heap.Repr && rootBlock < INVALID_BLOCK_NUMBER && s.k == heap.capacity
    requires LoopHead(s, terms[..], activeCount, offered, heap.Scores())
    requires Genuine(s, rootBlock, start, offered, heap.Held())
    requires 0 < pivotLen && pivot < UINT32_MAX && pivot in Eligible(s)
    requires Aligned(terms[..], pivotLen, pivot) && Beyond(terms[..], pivotLen, pivot)
    modifies heap.Repr
    ensures heap.Valid() && terms[..] == old(terms[..]) && pivot !in offered
    ensures PivotOffered(old(heap.Scores()), heap.Scores(), FullScore(s.q, pivot), s.k, !Passed(terms[..], pivot))
    ensures offered' == if Passed(terms[..], pivot) then offered else offered + {pivot}
    ensures Genuine(s, rootBlock, start, offered', heap.Held())
  {
    hide LoopHead, AllValid, Eligible, Genuine, Passed, Aligned, Beyond, FullScore, PivotOffered, SlotOffered, Beats;
    ghost var ts := terms[..];
    ghost var held := heap.Held();
    CursorsAtHead(s, ts, activeCount, offered, heap.Scores());
    PivotNotOffered(s, ts, activeCount, offered, heap.Scores(), pivotLen, pivot);
    OfferPivot(heap, terms, pivotLen, pivot, rootBlock);
    offered' := if Passed(ts, pivot) then offered else offered + {pivot};
    GenuineAfterOffer(s, rootBlock, start, offered, held, heap.Held(), pivot, !Passed(ts, pivot));
  }

  /** The second half of a scoring round: every cursor at the pivot goes on. */
  method LeavePivot(terms: array<TermState>, pivotLen: nat, pivot: nat, activeCount: int, ghost s: Scan,
                    ghost offered: set<nat>, ghost before: multiset<real>, ghost after: multiset<real>)
    returns (count: int)
    requires LoopHead(s, terms[..], activeCount, offered, before)
    requires 0 < pivotLen && pivot < UINT32_MAX && pivot in Eligible(s) && pivot !in offered
    requires Aligned(terms[..], pivotLen, pivot) && Beyond(terms[..], pivotLen, pivot)
    requires PivotOffered(before, after, FullScore(s.q, pivot), s.k, !Passed(terms[..], pivot))
    modifies terms
    ensures LoopHead(s, terms[..], count, if Passed(old(terms[..]), pivot) then offered else offered + {pivot}, after)
    ensures Distance(terms[..]) < Distance(old(terms[..]))
  {
    hide *;
    ghost var ts := terms[..];
    CursorsAtHead(s, ts, activeCount, offered, before);
    count := AdvancePivotTerms(terms, pivotLen, pivot, activeCount);
    OfferedAndLeft(s, ts, terms[..], activeCount, count, offered, before, after, pivot);
  }

  /** Steps 6 and 7: offer the aligned, admitted pivot and leave it behind. */
  method ScoreAndLeave(heap: TopKHeap, terms: array<TermState>, pivotLen: nat, pivot: nat, rootBlock: nat,
                       activeCount: int, ghost s: Scan, ghost offered: set<nat>, ghost start: multiset<Entry>)
    returns (count: int, ghost offered': set<nat>)
    requires heap.Valid() && terms as object !in heap.Repr && rootBlock < INVALID_BLOCK_NUMBER && s.k == heap.capacity
    requires LoopHead(s, terms[..], activeCount, offered, heap.Scores())
    requires Genuine(s, rootBlock, start, offered, heap.Held())
    requires 0 < pivotLen && pivot < UINT32_MAX && pivot in Eligible(s)
    requires Aligned(terms[..], pivotLen, pivot) && Beyond(terms[..], pivotLen, pivot)
    modifies heap.Repr, terms
    ensures heap.Valid() && LoopHead(s, terms[..], count, offered', heap.Scores())
    ensures Genuine(s, rootBlock, start, offered', heap.Held())
    ensures Distance(terms[..]) < Distance(old(terms[..]))
  {
    hide LoopHead, PivotOffered, Eligible, Genuine, Passed, Aligned, Beyond, FullScore, Distance;
    ghost var ts, before := terms[..], heap.Scores();
    offered' := OfferNew(heap, terms, pivotLen, pivot, rootBlock, s, offered, start, activeCount);
    count := LeavePivot(terms, pivotLen, pivot, activeCount, s, offered, before, heap.Scores());
  }

  // ---------- when the loop stops ----------

  /** Every eligible document still unoffered is beaten. */
  ghost predicate NothingLeft(s: Scan, offered: set<nat>, scores: multiset<real>) {
    forall d :: d in Eligible(s) && d !in offered ==> Beats(scores, s.k, FullScore(s.q, d))
  }

  /** No pivot below p, and no eligible document from p on. */
  lemma StopLosesNothing(s: Scan, ts: seq<TermState>, count: int, offered: set<nat>, scores: multiset<real>,
                         threshold: real, p: nat)
    requires LoopHead(s, ts, count, offered, scores) && IsThreshold(scores, s.k, threshold)
    requires Sum(ts, MaxBelow(p)) <= threshold && forall d :: d in Eligible(s) ==> d < p
    ensures NothingLeft(s, offered, scores)
  {
    forall d | d in Eligible(s) && d !in offered
      ensures Beats(scores, s.k, FullScore(s.q, d))
    {
      if !Passed(ts, d) {
        UnpassedBound(ts, d, p);
        ScoreOfQuery(s.q, ts, d);
        ScoreIsPositive(s.q, d);
      }
    }
  }

  lemma NoneActive(ts: seq<TermState>, k: nat)
    requires ActiveCount(ts) <= 0 && k < |ts|
    ensures !Active(ts[k])
  {
    TotalSplit(ts, k, OneIfActive());
    TotalNonNegative(ts[..k], OneIfActive());
    TotalNonNegative(ts[k + 1..], OneIfActive());
  }

  /** With every cursor exhausted, every document has been passed. */
  lemma ExhaustedLosesNothing(s: Scan, ts: seq<TermState>, count: int, offered: set<nat>, scores: multiset<real>)
    requires LoopHead(s, ts, count, offered, scores) && count <= 0
    ensures NothingLeft(s, offered, scores)
  {
    hide SortedByDoc, OfferedBehind, HeapHolds, AllTenantMarksHold, ValidQuery, Beats, BoundsDominate, AllFrom;
    forall d | d in Eligible(s) && d !in offered
      ensures Beats(scores, s.k, FullScore(s.q, d))
    {
      var i :| 0 <= i < |s.q| && Has(s.q[i], d);
      assert s.q[i] in multiset(Lists(ts));
      var k :| 0 <= k < |ts| && Lists(ts)[k] == s.q[i];
      NoneActive(ts, k);
      CurFacts(ts[k]);
      assert PassedBy(ts[k], d);
    }
  }

  /** What was offered plus what was beaten is everything eligible. */
  lemma OfferedIsEnough(s: Scan, ts: seq<TermState>, count: int, offered: set<nat>, scores: multiset<real>)
    requires LoopHead(s, ts, count, offered, scores) && NothingLeft(s, offered, scores)
    ensures IsTopK(scores, s.prior + ExhaustiveScores(s), s.k)
  {
    var rest := Eligible(s) - offered;
    assert offered + rest == Eligible(s);
    BagSplit(s.q, offered, rest, UINT32_MAX);
    var done := s.prior + Bag(s.q, offered, UINT32_MAX);
    RestIsBeaten(scores, done, s.q, rest, UINT32_MAX, s.k);
    assert s.prior + ExhaustiveScores(s) == done + Bag(s.q, rest, UINT32_MAX);
  }

  lemma OfferedAreEligible(s: Scan, ts: seq<TermState>, count: int, offered: set<nat>, scores: multiset<real>)
    requires LoopHead(s, ts, count, offered, scores)
    ensures offered <= Eligible(s)
  {
  }

  lemma RestIsBeaten(top: multiset<real>, all: multiset<real>, q: seq<TermList>, rest: set<nat>, n: nat, k: nat)
    requires IsTopK(top, all, k) && forall d :: d in rest ==> Beats(top, k, FullScore(q, d))
    ensures IsTopK(top, all + Bag(q, rest, n), k)
  {
    if Bag(q, rest, n) == multiset{} {
      assert all + Bag(q, rest, n) == all;
    } else {
      forall x, y | x in top && y in Bag(q, rest, n)
        ensures y <= x
      {
        BagMember(q, rest, n, y);
      }
      var y :| y in Bag(q, rest, n);
      BagMember(q, rest, n, y);
      TopKIgnoreBeaten(top, all, Bag(q, rest, n), k);
    }
  }

  // ---------- the main loop ----------

  /** An aligned pivot inside the filter is eligible. */
  lemma PivotEligible(s: Scan, ts: seq<TermState>, count: int, offered: set<nat>, scores: multiset<real>,
                      pivotLen: nat, pivot: nat)
    requires LoopHead(s, ts, count, offered, scores) && 0 < pivotLen && Aligned(ts, pivotLen, pivot)
    requires pivot < UINT32_MAX
    ensures s.minDocId <= pivot
    ensures pivot in Eligible(s) <==>
              pivot <= s.maxDocId &&
              !(s.tenantId != 0 && s.maxDocId == UINT32_MAX && GetTenantId(s.tenants, pivot) != s.tenantId)
  {
    assert Cur(ts[0]) == pivot;
    CurFacts(ts[0]);
    assert Lists(ts)[0] in multiset(s.q);
    assert ts[0].list in s.q;
  }

  lemma WrongTenantIneligible(s: Scan)
    requires s.tenantId != 0 && s.maxDocId == UINT32_MAX
    ensures forall d :: d in WrongTenant(s.tenants, s.tenantId) ==> d !in Eligible(s)
  {
  }

  /** Step 5: leave a pivot of another tenant. */
  method LeaveWrongTenant(heap: TopKHeap, terms: array<TermState>, pivotLen: nat, pivot: nat, activeCount: int,
                          tenants: seq<nat>, tenantId: nat, ghost s: Scan, ghost offered: set<nat>)
    returns (count: int)
    requires heap.Valid() && terms as object !in heap.Repr
    requires LoopHead(s, terms[..], activeCount, offered, heap.Scores())
    requires s.tenants == tenants && s.tenantId == tenantId != 0 && s.maxDocId == UINT32_MAX
    requires pivot < UINT32_MAX && pivot !in Eligible(s) && GetTenantId(tenants, pivot) != tenantId
    requires 0 < pivotLen <= terms.Length && Aligned(terms[..], pivotLen, pivot) && Beyond(terms[..], pivotLen, pivot)
    modifies terms
    ensures heap.Valid() && heap.Held() == old(heap.Held())
    ensures LoopHead(s, terms[..], count, offered, heap.Scores())
    ensures Distance(terms[..]) < Distance(old(terms[..]))
  {
    hide LoopHead, AllValid, SortedByDoc, Leaving, Eligible, Beyond, Aligned, AllTenantMarksHold, WrongTenant, Distance;
    ghost var ts := terms[..];
    CursorsAtHead(s, ts, activeCount, offered, heap.Scores());
    count := SkipWrongTenant(terms, pivotLen, pivot, activeCount, tenants, tenantId);
    WrongTenantIneligible(s);
    LeavingKeepsLoopHead(s, ts, terms[..], activeCount, count, offered, heap.Scores(), pivot,
                         WrongTenant(tenants, tenantId));
  }

  /** Steps 5 to 7, once every pivot term stands at the pivot. */
  method RoundAligned(heap: TopKHeap, terms: array<TermState>, pivotLen: nat, pivot: nat, rootBlock: nat,
                      activeCount: int, tenants: seq<nat>, tenantId: nat, maxDocId: nat, ghost s: Scan,
                      ghost offered: set<nat>, ghost start: multiset<Entry>)
    returns (count: int, ghost offered': set<nat>)
    requires heap.Valid() && terms as object !in heap.Repr && rootBlock < INVALID_BLOCK_NUMBER && s.k == heap.capacity
    requires LoopHead(s, terms[..], activeCount, offered, heap.Scores())
    requires Genuine(s, rootBlock, start, offered, heap.Held())
    requires s.tenants == tenants && s.tenantId == tenantId && s.maxDocId == maxDocId
    requires pivot <= maxDocId && pivot < UINT32_MAX && 0 < pivotLen <= terms.Length
    requires Aligned(terms[..], pivotLen, pivot) && Beyond(terms[..], pivotLen, pivot)
    modifies heap.Repr, terms
    ensures heap.Valid() && LoopHead(s, terms[..], count, offered', heap.Scores())
    ensures Genuine(s, rootBlock, start, offered', heap.Held())
    ensures Distance(terms[..]) < Distance(old(terms[..]))
  {
    ghost var ts := terms[..];
    hide *;
    offered' := offered;
    PivotEligible(s, ts, activeCount, offered, heap.Scores(), pivotLen, pivot);
    if tenantId != 0 && maxDocId == UINT32_MAX && GetTenantId(tenants, pivot) != tenantId {
      count := LeaveWrongTenant(heap, terms, pivotLen, pivot, activeCount, tenants, tenantId, s, offered);
      return;
    }
    count, offered' := ScoreAndLeave(heap, terms, pivotLen, pivot, rootBlock, activeCount, s, offered, start);
  }

  /** Steps 3 to 7 of one round, once the pivot terms have been sought to the pivot. */
  method RoundAtPivot(heap: TopKHeap, terms: array<TermState>, pivotLen: nat, pivot: nat, rootBlock: nat,
                      activeCount: int, threshold: real, tenants: seq<nat>, tenantId: nat, maxDocId: nat,
                      ghost s: Scan, ghost offered: set<nat>, ghost start: multiset<Entry>)
    returns (count: int, ghost offered': set<nat>)
    requires heap.Valid() && terms as object !in heap.Repr && rootBlock < INVALID_BLOCK_NUMBER && s.k == heap.capacity
    requires LoopHead(s, terms[..], activeCount, offered, heap.Scores()) && IsThreshold(heap.Scores(), s.k, threshold)
    requires Genuine(s, rootBlock, start, offered, heap.Held())
    requires s.tenants == tenants && s.tenantId == tenantId && s.maxDocId == maxDocId
    requires pivot <= maxDocId && pivot < UINT32_MAX && 0 < pivotLen <= terms.Length
    requires PivotTermsActive(terms[..], pivotLen) && AllFrom(terms[..], pivot) && Beyond(terms[..], pivotLen, pivot)
    modifies heap.Repr, terms
    ensures heap.Valid() && LoopHead(s, terms[..], count, offered', heap.Scores())
    ensures Genuine(s, rootBlock, start, offered', heap.Held())
    ensures if Aligned(old(terms[..]), pivotLen, pivot) then Distance(terms[..]) < Distance(old(terms[..]))
            else Distance(terms[..]) <= Distance(old(terms[..]))
  {
    hide Genuine, LoopHead, HeapHolds, Settled, Cursors, OfferedBehind, AllValid, SortedByDoc, Leaving,
        PivotOffered, Eligible;
    hide PivotTermsActive, Beyond, AllFrom, Advanced, SkipsOnlyUpTo, AllTenantMarksHold, WrongTenant;
    ghost var ts := terms[..];
    CursorsAtHead(s, ts, activeCount, offered, heap.Scores());
    offered' := offered;
    count := activeCount;
    var blockUpper := ComputeBlockMaxAtPivot(terms, pivotLen);
    if blockUpper <= threshold {
      count := BlockMaxSkipAdvance(terms, pivotLen, activeCount, pivot, threshold);
      SkipKeepsLoopHead(s, ts, terms[..], activeCount, count, offered, heap.Scores(), threshold);
      return;
    }
    var aligned := VerifyPivotAlignment(terms, pivotLen, pivot);
    if !aligned {
      return;
    }
    count, offered' := RoundAligned(heap, terms, pivotLen, pivot, rootBlock, activeCount, tenants, tenantId, maxDocId,
                                    s, offered, start);
  }

  lemma StartSeeking(ts: seq<TermState>, n: nat, pivot: nat, threshold: real)
    requires 0 < n <= |ts| && Cur(ts[n - 1]) == pivot < UINT32_MAX
    requires forall k :: n <= k < |ts| ==> pivot < Cur(ts[k])
    requires Sum(ts, MaxBelow(pivot)) <= threshold
    ensures Seeking(ts, n, pivot, threshold)
  {
  }

  /** When the last pivot term still stands at the pivot, all of them do. */
  lemma NoSeekMeansAligned(ts: seq<TermState>, n: nat, pivot: nat)
    requires SortedByDoc(ts) && AllFrom(ts, pivot) && 0 < n <= |ts|
    ensures Cur(ts[n - 1]) == pivot ==> Aligned(ts, n, pivot)
  {
  }

  /** One round from a chosen pivot: every path through it brings some cursor nearer to the end. */
  method RoundFromPivot(heap: TopKHeap, terms: array<TermState>, pivotLen: nat, pivot: nat, rootBlock: nat,
                        activeCount: int, threshold: real, tenants: seq<nat>, tenantId: nat, maxDocId: nat,
                        ghost s: Scan, ghost offered: set<nat>, ghost start: multiset<Entry>)
    returns (count: int, ghost offered': set<nat>)
    requires heap.Valid() && terms as object !in heap.Repr && rootBlock < INVALID_BLOCK_NUMBER && s.k == heap.capacity
    requires LoopHead(s, terms[..], activeCount, offered, heap.Scores()) && IsThreshold(heap.Scores(), s.k, threshold)
    requires Genuine(s, rootBlock, start, offered, heap.Held())
    requires s.tenants == tenants && s.tenantId == tenantId && s.maxDocId == maxDocId
    requires pivot <= maxDocId && pivot < UINT32_MAX && 0 < pivotLen <= terms.Length
    requires Cur(terms[pivotLen - 1]) == pivot && forall k :: pivotLen <= k < terms.Length ==> pivot < Cur(terms[k])
    requires Sum(terms[..], MaxBelow(pivot)) <= threshold
    modifies heap.Repr, terms
    ensures heap.Valid() && LoopHead(s, terms[..], count, offered', heap.Scores())
    ensures Genuine(s, rootBlock, start, offered', heap.Held())
    ensures Distance(terms[..]) < Distance(old(terms[..]))
  {
    hide Genuine, LoopHead, HeapHolds, Settled, Cursors, OfferedBehind, AllValid, SortedByDoc, Eligible, IsThreshold;
    hide PivotTermsActive, Beyond, AllFrom, Advanced, SkipsOnlyUpTo, Bounded, IsTopK, Aligned;
    ghost var ts := terms[..];
    CursorsAtHead(s, ts, activeCount, offered, heap.Scores());
    StartSeeking(ts, pivotLen, pivot, threshold);
    var ok;
    ok, count := SeekToPivot(terms, pivotLen, pivot, activeCount, threshold);
    SkipKeepsLoopHead(s, ts, terms[..], activeCount, count, offered, heap.Scores(), threshold);
    offered' := offered;
    if !ok {
      return;
    }
    CursorsAtHead(s, terms[..], count, offered, heap.Scores());
    SeekingMeansActive(terms[..], pivotLen, pivot, threshold);
    NoSeekMeansAligned(terms[..], pivotLen, pivot);
    count, offered' := RoundAtPivot(heap, terms, pivotLen, pivot, rootBlock, count, threshold,
                                    tenants, tenantId, maxDocId, s, offered, start);
  }

  lemma ThresholdOfHeap(scores: multiset<real>, k: nat, threshold: real)
    requires |scores| < k ==> threshold == 0.0
    requires |scores| >= k ==> threshold in scores && Beats(scores, k, threshold)
    requires forall x :: x in scores ==> 0.0 <= x
    ensures IsThreshold(scores, k, threshold) && 0.0 <= threshold
  {
  }

  lemma EligibleBelow(s: Scan, p: nat)
    requires s.maxDocId < p || p == UINT32_MAX
    ensures forall d :: d in Eligible(s) ==> d < p
  {
  }

  /** Step 1: the threshold and the pivot; stopping there loses nothing. */
  method ChoosePivot(heap: TopKHeap, terms: array<TermState>, maxDocId: nat,
                     ghost s: Scan, ghost count: int, ghost offered: set<nat>)
    returns (stop: bool, threshold: real, pivotLen: nat, pivot: nat)
    requires heap.Valid() && s.k == heap.capacity && s.maxDocId == maxDocId
    requires LoopHead(s, terms[..], count, offered, heap.Scores())
    ensures IsThreshold(heap.Scores(), s.k, threshold)
    ensures stop ==> NothingLeft(s, offered, heap.Scores())
    ensures !stop ==> 0 < pivotLen <= terms.Length && pivot < UINT32_MAX && pivot <= maxDocId
    ensures !stop ==> Cur(terms[pivotLen - 1]) == pivot
    ensures !stop ==> forall k :: pivotLen <= k < terms.Length ==> pivot < Cur(terms[k])
    ensures !stop ==> Sum(terms[..], MaxBelow(pivot)) <= threshold
  {
    hide LoopHead, AllValid, SortedByDoc, Eligible, NothingLeft, Bounded, IsThreshold, Beats;
    ghost var ts := terms[..];
    CursorsAtHead(s, ts, count, offered, heap.Scores());
    threshold := heap.Threshold();
    ThresholdOfHeap(heap.Scores(), s.k, threshold);
    var found;
    found, pivotLen, pivot := FindWandPivot(terms, threshold);
    stop := !found || pivot > maxDocId;
    if stop {
      ghost var p := if found then pivot else UINT32_MAX;
      EligibleBelow(s, p);
      StopLosesNothing(s, ts, count, offered, heap.Scores(), threshold, p);
    }
  }

  /** The starting state of the main loop: cursors sorted, nothing eligible passed yet. */
  ghost predicate ReadyToScan(s: Scan, ts: seq<TermState>, count: int) {
    && Cursors(s, ts, count) && (forall d: nat :: d in Eligible(s) ==> !Passed(ts, d))
    && |s.prior| <= s.k && forall x :: x in s.prior ==> 0.0 <= x
  }

  lemma {:induction false} EmptyBag(q: seq<TermList>, n: nat)
    ensures Bag(q, {}, n) == multiset{}
  {
    if n > 0 { EmptyBag(q, n - 1); }
  }

  lemma StartOfScan(s: Scan, ts: seq<TermState>, count: int)
    requires ReadyToScan(s, ts, count)
    ensures LoopHead(s, ts, count, {}, s.prior)
  {
    EmptyBag(s.q, UINT32_MAX);
    TopKAll(s.prior, s.k);
    assert s.prior + multiset{} == s.prior;
  }

  /**
   * The main loop of score_segment_multi_term_bmw: pivot selection, seeks, block-max skips,
   * tenant skips and scoring leave in the heap the k best of what it held and of every
   * eligible document's full score.
   */
  method WandLoop(heap: TopKHeap, terms: array<TermState>, rootBlock: nat, activeCount: int,
                  tenants: seq<nat>, tenantId: nat, maxDocId: nat, ghost s: Scan)
    requires heap.Valid() && terms as object !in heap.Repr && rootBlock < INVALID_BLOCK_NUMBER
    requires s.k == heap.capacity && s.prior == heap.Scores()
    requires s.tenants == tenants && s.tenantId == tenantId && s.maxDocId == maxDocId
    requires ReadyToScan(s, terms[..], activeCount)
    modifies heap.Repr, terms
    ensures heap.Valid()
    ensures IsTopK(heap.Scores(), s.prior + ExhaustiveScores(s), heap.capacity)
    ensures Genuine(s, rootBlock, old(heap.Held()), Eligible(s), heap.Held())
    ensures multiset(Lists(terms[..])) == multiset(s.q)
  {
    hide Genuine, LoopHead, HeapHolds, Settled, Cursors, OfferedBehind, AllValid, SortedByDoc, Eligible,
        NothingLeft, ReadyToScan;
    hide PivotTermsActive, Beyond, AllFrom, Advanced, SkipsOnlyUpTo, Seeking, Bounded, IsTopK, IsThreshold, Beats;
    var count := activeCount;
    ghost var offered: set<nat> := {};
    ghost var start := heap.Held();
    StartOfScan(s, terms[..], count);
    GenuineAtStart(s, rootBlock, start);
    while count > 0
      invariant heap.Valid() && LoopHead(s, terms[..], count, offered, heap.Scores())
      invariant Genuine(s, rootBlock, start, offered, heap.Held())
      decreases Distance(terms[..])
    {
      ghost var ts := terms[..];
      CursorsAtHead(s, ts, count, offered, heap.Scores());
      DistanceNonNegative(ts);
      var stop, threshold, pivotLen, pivot := ChoosePivot(heap, terms, maxDocId, s, count, offered);
      if stop {
        OfferedIsEnough(s, ts, count, offered, heap.Scores());
        OfferedAreEligible(s, ts, count, offered, heap.Scores());
        GenuineGrows(s, rootBlock, start, offered, Eligible(s), heap.Held());
        return;
      }
      count, offered := RoundFromPivot(heap, terms, pivotLen, pivot, rootBlock, count, threshold,
                                       tenants, tenantId, maxDocId, s, offered, start);
    }
    ExhaustedLosesNothing(s, terms[..], count, offered, heap.Scores());
    OfferedIsEnough(s, terms[..], count, offered, heap.Scores());
    OfferedAreEligible(s, terms[..], count, offered, heap.Scores());
    GenuineGrows(s, rootBlock, start, offered, Eligible(s), heap.Held());
    CursorsAtHead(s, terms[..], count, offered, heap.Scores());
  }
}
