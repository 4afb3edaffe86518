/**
 * One segment of a multi-term query from the start (init_segment_term_states, the sorts and
 * the seek to the range start, then the main loop; src/query/bmw.c).
 */
module WandSegment {
  import opened ItemPointers
  import opened Postings
  import opened QSort
  import opened Sums
  import opened TopKSpec
  import opened WandSpec
  import opened Wand
  import opened WandSearch
  import opened TopK

  /** What the segment's dictionary and skip index say about one query term. */
  datatype TermInput = TermInput(
    found: bool,
    blocks: seq<seq<BlockPosting>>,
    skips: seq<SkipEntry>,
    weigh: (nat, nat) -> real,      // BM25 with the term's IDF
    bound: SkipEntry -> real,       // tp_compute_block_max_score with the term's IDF
    queryFreq: nat)

  ghost function BoundsOf(input: TermInput): (r: seq<real>)
    ensures |r| == |input.skips|
    ensures forall b :: 0 <= b < |r| ==> r[b] == input.bound(input.skips[b])
  {
    seq(|input.skips|, b requires 0 <= b < |input.skips| => input.bound(input.skips[b]))
  }

  function MaxScore(bounds: seq<real>): (m: real)
    ensures 0.0 <= m
    ensures forall b :: 0 <= b < |bounds| ==> bounds[b] <= m
    ensures m == 0.0 || m in bounds
  {
    if bounds == [] then 0.0
    else
      var m := MaxScore(bounds[..|bounds| - 1]);
      if bounds[|bounds| - 1] > m then bounds[|bounds| - 1] else m
  }

  /** The list a term scans, with its score bounds precomputed. */
  ghost function InputList(input: TermInput): TermList {
    if input.found then
      TermList(true, input.blocks, input.skips, input.weigh, input.queryFreq,
               BoundsOf(input), Scale(MaxScore(BoundsOf(input)), input.queryFreq))
    else TermList(false, [], [], input.weigh, input.queryFreq, [], 0.0)
  }

  ghost function InputLists(inputs: seq<TermInput>): seq<TermList> {
    seq(|inputs|, i requires 0 <= i < |inputs| => InputList(inputs[i]))
  }

  /** The writers' layout, and block bounds that dominate the scores in their block. */
  ghost predicate ValidInput(input: TermInput, tenants: seq<nat>) {
    && 0 < input.queryFreq
    && ValidList(InputList(input))
    && TenantMarksHold(InputList(input), tenants)
    && (forall b, j :: 0 <= b < |input.blocks| && 0 <= j < |input.blocks[b]| && b < |input.skips| ==>
                         0.0 < input.weigh(input.blocks[b][j].frequency, input.blocks[b][j].fieldnorm)
                             <= input.bound(input.skips[b]))
  }

  ghost predicate ValidInputs(inputs: seq<TermInput>, tenants: seq<nat>) {
    forall i :: 0 <= i < |inputs| ==> ValidInput(inputs[i], tenants)
  }

  lemma ScaleLe(a: real, m: real, n: nat)
    requires 0.0 <= a <= m
    ensures 0.0 <= Scale(a, n) <= Scale(m, n)
  {
  }

  lemma BoundIsPositive(input: TermInput, tenants: seq<nat>, b: nat)
    requires ValidInput(input, tenants) && input.found && b < |input.blocks|
    ensures b < |input.skips| && 0.0 < input.bound(input.skips[b])
  {
    var p := InputList(input).blocks[b][0];
    assert 0.0 < input.weigh(p.frequency, p.fieldnorm);
  }

  lemma InputDominates(input: TermInput, tenants: seq<nat>)
    requires ValidInput(input, tenants)
    ensures BoundsDominate(InputList(input))
  {
    hide Scale, BoundsOf, MaxScore;
    if input.found {
      var bounds := BoundsOf(input);
      forall b | 0 <= b < |bounds|
        ensures 0.0 <= bounds[b] && Scale(bounds[b], input.queryFreq) <= Scale(MaxScore(bounds), input.queryFreq)
      {
        BoundIsPositive(input, tenants, b);
        ScaleLe(bounds[b], MaxScore(bounds), input.queryFreq);
      }
      ScaleLe(0.0, MaxScore(bounds), input.queryFreq);
    }
  }

  /** A freshly initialized cursor: on the first posting, if there is one. */
  ghost predicate AtStart(t: TermState) {
    && ValidTerm(t)
    && (Active(t) <==> t.list.found && 0 < |t.list.blocks|)
    && (Active(t) ==> t.currentBlock == 0 && t.currentInBlock == 0)
  }

  lemma StartPassesNothing(t: TermState, d: nat)
    requires AtStart(t)
    ensures !PassedBy(t, d) && (Has(t.list, d) ==> Active(t))
  {
    if Has(t.list, d) {
      var b: nat, j: nat :| At(t.list, d, b, j);
      PositionOrder(t.list, b, j, 0, 0);
    }
  }

  /** Pre-load the skip entries: one bound per block, and their maximum. */
  method ComputeBounds(input: TermInput) returns (bounds: seq<real>, maxScore: real)
    ensures bounds == BoundsOf(input) && maxScore == MaxScore(bounds)
  {
    bounds, maxScore := [], 0.0;
    var b := 0;
    while b < |input.skips|
      invariant 0 <= b <= |input.skips|
      invariant bounds == BoundsOf(input)[..b] && maxScore == MaxScore(bounds)
    {
      var bound := input.bound(input.skips[b]);
      assert (bounds + [bound])[..|bounds|] == bounds;
      bounds := bounds + [bound];
      if bound > maxScore {
        maxScore := bound;
      }
      b := b + 1;
    }
  }

  /** The cursor of one term at the start of a segment. */
  method InitTermState(input: TermInput, ghost tenants: seq<nat>) returns (t: TermState, active: bool)
    requires ValidInput(input, tenants)
    ensures AtStart(t) && t.list == InputList(input) && active == Active(t)
  {
    hide BoundsDominate, Scale, BoundsOf, MaxScore;
    InputDominates(input, tenants);
    if !input.found {
      var l := TermList(false, [], [], input.weigh, input.queryFreq, [], 0.0);
      return TermState(l, 0, 0, true, EMPTY_SKIP, []), false;
    }
    var bounds, maxScore := ComputeBounds(input);
    var l := TermList(true, input.blocks, input.skips, input.weigh, input.queryFreq, bounds,
                      Scale(maxScore, input.queryFreq));
    t := TermState(l, 0, 0, |l.blocks| == 0, EMPTY_SKIP, []);
    if 0 < |l.blocks| {
      t := LoadBlock(t, 0);
    }
    active := 0 < |l.blocks|;
  }

  ghost predicate AllAtStart(ts: seq<TermState>) {
    forall i :: 0 <= i < |ts| ==> AtStart(ts[i])
  }

  /** init_segment_term_states. */
  method InitSegmentTermStates(inputs: seq<TermInput>, ghost tenants: seq<nat>)
    returns (terms: array<TermState>, activeCount: int)
    requires ValidInputs(inputs, tenants)
    ensures fresh(terms) && AllAtStart(terms[..]) && Lists(terms[..]) == InputLists(inputs)
    ensures activeCount == ActiveCount(terms[..])
  {
    hide AtStart, ValidInput, InputList;
    var states: seq<TermState> := [];
    activeCount := 0;
    var i := 0;
    while i < |inputs|
      invariant 0 <= i <= |inputs| == |inputs|
      invariant |states| == i && AllAtStart(states)
      invariant forall k :: 0 <= k < i ==> states[k].list == InputList(inputs[k])
      invariant activeCount == ActiveCount(states)
    {
      var t, active := InitTermState(inputs[i], tenants);
      TotalConcat(states, [t], OneIfActive());
      states := states + [t];
      if active {
        activeCount := activeCount + 1;
      }
      i := i + 1;
    }
    var dummy := TermState(TermList(false, [], [], (tf, norm) => 0.0, 0, [], 0.0), 0, 0, true, EMPTY_SKIP, []);
    terms := new TermState[|states|](k => if 0 <= k < |states| then states[k] else dummy);
    assert terms[..] == states;
    assert Lists(terms[..]) == InputLists(inputs);
  }

  predicate DocLeq(a: TermState, b: TermState) {
    Cur(a) <= Cur(b)
  }

  /** sort_terms_by_doc_id: qsort by current document, exhausted cursors last. */
  method SortTermsByDocId(terms: array<TermState>)
    modifies terms
    ensures SortedByDoc(terms[..]) && multiset(terms[..]) == multiset(old(terms[..]))
  {
    var sorted := Sort(terms[..], DocLeq);
    SortKeeps(terms[..], DocLeq);
    SortSorts(terms[..], DocLeq);
    forall k | 0 <= k < terms.Length {
      terms[k] := sorted[k];
    }
    assert terms[..] == sorted;
  }

  // ---------- the range start ----------

  /** The loop that brings every cursor to the start of the doc range, before the second sort. */
  method SeekAllToMin(terms: array<TermState>, minDocId: nat, activeCount: int) returns (count: int)
    requires AllValid(terms[..]) && activeCount == ActiveCount(terms[..]) && minDocId <= UINT32_MAX
    modifies terms
    ensures AllValid(terms[..]) && Lists(terms[..]) == Lists(old(terms[..])) && AllFrom(terms[..], minDocId)
    ensures count == ActiveCount(terms[..])
    ensures forall d: nat :: Passed(terms[..], d) && !Passed(old(terms[..]), d) ==> d < minDocId
  {
    hide AllValid, Passed, ValidCursor, BoundsDominate;
    ghost var start := terms[..];
    count := activeCount;
    var i := 0;
    while i < terms.Length
      invariant 0 <= i <= terms.Length
      invariant AllValid(terms[..]) && Lists(terms[..]) == Lists(start) && count == ActiveCount(terms[..])
      invariant forall k :: 0 <= k < i ==> minDocId <= Cur(terms[k])
      invariant forall d: nat :: Passed(terms[..], d) && !Passed(start, d) ==> d < minDocId
    {
      ghost var ts := terms[..];
      ValidAt(ts, i);
      CurFacts(ts[i]);
      if terms[i].list.found && !terms[i].finished && Cur(terms[i]) < minDocId {
        var t, active := SeekTermToDoc(terms[i], minDocId);
        CurFacts(t);
        AfterMove(ts, i, t);
        PassedAfterMove(ts, i, t);
        terms[i] := t;
        assert terms[..] == ts[i := t];
        assert Lists(ts[i := t]) == Lists(ts);
        if !active {
          count := count - 1;
        }
      }
      i := i + 1;
    }
  }

  lemma ValidAt(ts: seq<TermState>, i: nat)
    requires AllValid(ts) && i < |ts|
    ensures ValidTerm(ts[i])
  {
  }

  lemma StartFacts(ts: seq<TermState>, inputs: seq<TermInput>, tenants: seq<nat>)
    requires AllAtStart(ts) && Lists(ts) == InputLists(inputs) && ValidInputs(inputs, tenants)
    ensures AllValid(ts) && AllTenantMarksHold(ts, tenants) && ValidQuery(InputLists(inputs))
    ensures forall d: nat :: !Passed(ts, d)
  {
    forall d: nat, i | 0 <= i < |ts|
      ensures !PassedBy(ts[i], d)
    {
      StartPassesNothing(ts[i], d);
    }
    forall i | 0 <= i < |inputs|
      ensures ValidList(InputLists(inputs)[i]) && BoundsDominate(InputLists(inputs)[i])
      ensures TenantMarksHold(InputLists(inputs)[i], tenants)
    {
      InputDominates(inputs[i], tenants);
    }
    forall i | 0 <= i < |ts|
      ensures TenantMarksHold(ts[i].list, tenants)
    {
      assert ts[i].list == Lists(ts)[i] == InputLists(inputs)[i];
    }
  }

  /** With no active cursor the segment has none of the query's terms. */
  lemma NothingActive(ts: seq<TermState>, s: Scan)
    requires AllAtStart(ts) && Lists(ts) == s.q && ActiveCount(ts) == 0 && |s.prior| <= s.k
    ensures IsTopK(s.prior, s.prior + ExhaustiveScores(s), s.k)
  {
    forall d | d in Eligible(s)
      ensures false
    {
      var i :| 0 <= i < |s.q| && Has(s.q[i], d);
      assert s.q[i] == ts[i].list;
      StartPassesNothing(ts[i], d);
      NoneActive(ts, i);
    }
    assert Eligible(s) == {};
    EmptyBag(s.q, UINT32_MAX);
    TopKAll(s.prior, s.k);
    assert s.prior + multiset{} == s.prior;
  }

  lemma ReadyAfterSorts(s: Scan, start: seq<TermState>, sorted: seq<TermState>, ts: seq<TermState>,
                        inputs: seq<TermInput>, count: int)
    requires Lists(start) == s.q == InputLists(inputs) && ValidQuery(s.q) && AllTenantMarksHold(start, s.tenants)
    requires forall d: nat :: !Passed(start, d)
    requires SameTerms(start, sorted) && SamePassed(start, sorted)
    requires AllValid(ts) && SortedByDoc(ts) && SameTerms(sorted, ts) && count == ActiveCount(ts)
    requires |ts| == |sorted| == |start| && AllFrom(ts, s.minDocId)
    requires forall d: nat :: Passed(ts, d) && !Passed(sorted, d) ==> d < s.minDocId
    requires |s.prior| <= s.k && forall x :: x in s.prior ==> 0.0 <= x
    ensures ReadyToScan(s, ts, count)
  {
    TenantMarksKept(start, ts, s.tenants);
  }

  /** Initialize, sort, bring to the range start and sort again. */
  method PrepareTerms(inputs: seq<TermInput>, minDocId: nat, ghost s: Scan)
    returns (terms: array<TermState>, activeCount: int, empty: bool)
    requires ValidInputs(inputs, s.tenants) && s.q == InputLists(inputs) && s.minDocId == minDocId <= UINT32_MAX
    requires |s.prior| <= s.k && forall x :: x in s.prior ==> 0.0 <= x
    ensures fresh(terms)
    ensures empty ==> IsTopK(s.prior, s.prior + ExhaustiveScores(s), s.k)
    ensures !empty ==> ReadyToScan(s, terms[..], activeCount)
  {
    hide AllAtStart, ValidInputs, IsTopK, Eligible, Bag, ReadyToScan, SamePassed, SameTerms;
    hide AllValid, SortedByDoc, AllTenantMarksHold, AllFrom, Passed, ValidQuery;
    terms, activeCount := InitSegmentTermStates(inputs, s.tenants);
    ghost var start := terms[..];
    StartFacts(start, inputs, s.tenants);
    empty := activeCount == 0;
    if empty {
      NothingActive(start, s);
      return;
    }
    SortTermsByDocId(terms);
    ghost var sorted := terms[..];
    Reordered(start, sorted);
    if minDocId > 0 {
      activeCount := SeekAllToMin(terms, minDocId, activeCount);
      ghost var sought := terms[..];
      SortTermsByDocId(terms);
      Reordered(sought, terms[..]);
    }
    ReadyAfterSorts(s, start, sorted, terms[..], inputs, activeCount);
  }

  /**
   * score_segment_multi_term_bmw. For any block bounds that dominate the scores in their
   * blocks, the heap ends with the k best of what it held and of the full score of every
   * document of the segment that contains a query term and passes the filter.
   */
  method ScoreSegmentMultiTermBmw(heap: TopKHeap, rootBlock: nat, inputs: seq<TermInput>,
                                  tenants: seq<nat>, tenantId: nat, minDocId: nat, maxDocId: nat)
    requires heap.Valid() && rootBlock < INVALID_BLOCK_NUMBER && minDocId <= UINT32_MAX
    requires ValidInputs(inputs, tenants) && forall x :: x in heap.Scores() ==> 0.0 <= x
    modifies heap.Repr
    ensures heap.Valid()
    ensures IsTopK(heap.Scores(),
                   old(heap.Scores()) + ExhaustiveScores(Scan(InputLists(inputs), tenants, tenantId, minDocId, maxDocId,
                                                              old(heap.Scores()), heap.capacity)),
                   heap.capacity)
    ensures Genuine(Scan(InputLists(inputs), tenants, tenantId, minDocId, maxDocId, old(heap.Scores()), heap.capacity),
                    rootBlock, old(heap.Held()),
                    Eligible(Scan(InputLists(inputs), tenants, tenantId, minDocId, maxDocId,
                                  old(heap.Scores()), heap.capacity)),
                    heap.Held())
  {
    hide ValidInputs, IsTopK, Bag, ReadyToScan, Eligible, Genuine;
    GenuineAtStart(Scan(InputLists(inputs), tenants, tenantId, minDocId, maxDocId, heap.Scores(), heap.capacity),
                   rootBlock, heap.Held());
    ghost var s := Scan(InputLists(inputs), tenants, tenantId, minDocId, maxDocId, heap.Scores(), heap.capacity);
    heap.SizeIsCard();
    var terms, activeCount, empty := PrepareTerms(inputs, minDocId, s);
    if empty {
      GenuineGrows(s, rootBlock, heap.Held(), {}, Eligible(s), heap.Held());
    } else {
      WandLoop(heap, terms, rootBlock, activeCount, tenants, tenantId, maxDocId, s);
    }
  }
}
