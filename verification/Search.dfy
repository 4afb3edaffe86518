/**
 * A whole search (tp_score_single_term_bmw and tp_score_multi_term_bmw, src/query/bmw.c):
 * the memtable, then every segment of every level, then the sorted results.
 */
module Search {
  import opened Collecting
  import opened Constants
  import opened DocMap
  import opened Extraction
  import opened ItemPointers
  import opened MemtableScoring
  import opened Postings
  import opened QSort
  import opened Sequences
  import opened Sums
  import opened TopK
  import opened TopKSpec
  import opened WandSearch
  import opened WandSegment
  import opened WandSpec

  /** One segment as a query sees it; `view` is what its dictionary says about the query. */
  datatype Segment<V> = Segment(rootBlock: nat, view: V, tenants: seq<nat>, tenantOrdered: bool, ranges: seq<TenantRange>)

  ghost predicate ValidSegment<V>(g: Segment<V>) {
    && g.rootBlock < INVALID_BLOCK_NUMBER && |g.tenants| < UINT32_MAX
    && (g.tenantOrdered ==> RangesCover(g.tenants, g.ranges, iset{0, UINT32_MAX}))
  }

  /** Does document d of a segment belong to the requested tenant? 0 asks for every tenant. */
  predicate Matches(tenants: seq<nat>, tenantId: nat, d: nat) {
    tenantId == 0 || GetTenantId(tenants, d) == tenantId
  }

  /** A doc range and tenant filter that admits exactly the tenant's documents. */
  ghost predicate AdmitsExactly(tenants: seq<nat>, tenantId: nat, minDocId: nat, maxDocId: nat) {
    && minDocId <= UINT32_MAX
    && forall d: nat :: d < UINT32_MAX ==>
         (Admitted(d, tenants, tenantId, minDocId, maxDocId) <==> Matches(tenants, tenantId, d))
  }

  /** The doc range to scan: the tenant's own range in a tenant-ordered segment, everything elsewhere. */
  method SegmentRange<V>(g: Segment<V>, tenantId: nat) returns (hasDocs: bool, minDocId: nat, maxDocId: nat)
    requires ValidSegment(g) && tenantId != UINT32_MAX
    ensures hasDocs ==> AdmitsExactly(g.tenants, tenantId, minDocId, maxDocId)
    ensures hasDocs && tenantId != 0 && maxDocId != UINT32_MAX ==>
              forall d: nat :: minDocId <= d <= maxDocId ==> GetTenantId(g.tenants, d) == tenantId
    ensures hasDocs && tenantId != 0 && g.tenantOrdered ==>
              forall d: nat :: minDocId <= d <= maxDocId <==> GetTenantId(g.tenants, d) == tenantId
    ensures !hasDocs ==> forall d: nat :: !Matches(g.tenants, tenantId, d)
  {
    minDocId, maxDocId := 0, UINT32_MAX;
    if tenantId != 0 && g.tenantOrdered {
      var range := TenantDocRange(g.ranges, tenantId, g.tenants);
      if range.None? { return false, 0, 0; }
      minDocId, maxDocId := range.value.0, range.value.1;
    }
    return true, minDocId, maxDocId;
  }

  /** What was collected when the first i elements of a sequence have contributed. */
  ghost predicate CollectedTo<A(!new)>(heap: TopKHeap, prior: multiset<real>, start: multiset<RawEntry>,
                                 scores: multiset<real>, slots: multiset<RawEntry>,
                                 xs: seq<A>, i: nat, f: A -> multiset<real>, e: A -> multiset<RawEntry>)
    reads heap.Repr
  {
    && i <= |xs| && NonNegative(scores + UnionOver(xs[..i], f))
    && Collected(heap, prior, start, scores + UnionOver(xs[..i], f), slots + UnionOver(xs[..i], e))
  }

  lemma CollectedToStart<A(!new)>(heap: TopKHeap, prior: multiset<real>, start: multiset<RawEntry>,
                            scores: multiset<real>, slots: multiset<RawEntry>,
                            xs: seq<A>, f: A -> multiset<real>, e: A -> multiset<RawEntry>)
    requires Collected(heap, prior, start, scores, slots) && NonNegative(scores)
    ensures CollectedTo(heap, prior, start, scores, slots, xs, 0, f, e)
  {
    hide Collected;
    assert scores + UnionOver(xs[..0], f) == scores && slots + UnionOver(xs[..0], e) == slots;
  }

  lemma CollectedToNext<A(!new)>(heap: TopKHeap, prior: multiset<real>, start: multiset<RawEntry>,
                           scores: multiset<real>, slots: multiset<RawEntry>,
                           xs: seq<A>, i: nat, f: A -> multiset<real>, e: A -> multiset<RawEntry>)
    requires i < |xs|
    requires Collected(heap, prior, start, scores + UnionOver(xs[..i], f) + f(xs[i]),
                       slots + UnionOver(xs[..i], e) + e(xs[i]))
    requires NonNegative(scores + UnionOver(xs[..i], f) + f(xs[i]))
    ensures CollectedTo(heap, prior, start, scores, slots, xs, i + 1, f, e)
  {
    hide Collected;
    UnionOneMore(xs, i, f);
    UnionOneMore(xs, i, e);
    assert scores + UnionOver(xs[..i + 1], f) == scores + UnionOver(xs[..i], f) + f(xs[i]);
    assert slots + UnionOver(xs[..i + 1], e) == slots + UnionOver(xs[..i], e) + e(xs[i]);
  }

  lemma CollectedToEnd<A(!new)>(heap: TopKHeap, prior: multiset<real>, start: multiset<RawEntry>,
                          scores: multiset<real>, slots: multiset<RawEntry>,
                          xs: seq<A>, f: A -> multiset<real>, e: A -> multiset<RawEntry>)
    requires CollectedTo(heap, prior, start, scores, slots, xs, |xs|, f, e)
    ensures Collected(heap, prior, start, scores + UnionOver(xs, f), slots + UnionOver(xs, e))
    ensures NonNegative(scores + UnionOver(xs, f))
  {
    hide Collected;
    assert xs[..|xs|] == xs;
  }

  // ---------- several terms ----------

  type MultiSegment = Segment<seq<TermInput>>

  ghost predicate ValidMulti(g: MultiSegment) {
    ValidSegment(g) && ValidInputs(g.view, g.tenants)
  }

  /** The tenant's documents of a segment that contain a query term. */
  ghost function SegmentDocs(g: MultiSegment, tenantId: nat): set<nat> {
    set d: nat | d < UINT32_MAX && HasAny(InputLists(g.view), d) && Matches(g.tenants, tenantId, d)
  }

  /** Their full scores, one per document. */
  ghost function SegmentScores(tenantId: nat): MultiSegment -> multiset<real> {
    (g: MultiSegment) => Bag(InputLists(g.view), SegmentDocs(g, tenantId), UINT32_MAX)
  }

  ghost function SegmentSlots(tenantId: nat): MultiSegment -> multiset<RawEntry> {
    (g: MultiSegment) =>
      if g.rootBlock < INVALID_BLOCK_NUMBER
      then multiset(Candidates(InputLists(g.view), g.rootBlock, SegmentDocs(g, tenantId))) else multiset{}
  }

  /** A segment's candidates: the documents with a query term and, if one is asked for, the tenant, each with its full score. */
  lemma SegmentSlotsAreTenants(g: MultiSegment, tenantId: nat, e: RawEntry)
    requires g.rootBlock < INVALID_BLOCK_NUMBER
    ensures e in SegmentSlots(tenantId)(g) <==>
            && e == RawEntry(INVALID_POINTER, g.rootBlock, e.docId, FullScore(InputLists(g.view), e.docId))
            && e.docId < UINT32_MAX && HasAny(InputLists(g.view), e.docId)
            && (tenantId == 0 || (e.docId < |g.tenants| && g.tenants[e.docId] == tenantId))
  {
    hide FullScore, HasAny;
  }

  lemma RangeSelectsDocs(g: MultiSegment, tenantId: nat, s: Scan)
    requires s.q == InputLists(g.view) && s.tenants == g.tenants && s.tenantId == tenantId
    requires AdmitsExactly(g.tenants, tenantId, s.minDocId, s.maxDocId)
    ensures Eligible(s) == SegmentDocs(g, tenantId)
  {
    hide HasAny, Admitted, Matches;
  }

  lemma InputsFormQuery(inputs: seq<TermInput>, tenants: seq<nat>)
    requires ValidInputs(inputs, tenants)
    ensures ValidQuery(InputLists(inputs))
  {
    hide BoundsDominate;
    forall i | 0 <= i < |inputs|
      ensures BoundsDominate(InputList(inputs[i]))
    {
      InputDominates(inputs[i], tenants);
    }
  }

  ghost predicate NonNegative(scores: multiset<real>) {
    forall x :: x in scores ==> 0.0 <= x
  }

  lemma SegmentScoresNonNegative(g: MultiSegment, tenantId: nat)
    requires ValidMulti(g)
    ensures NonNegative(SegmentScores(tenantId)(g))
  {
    var q := InputLists(g.view);
    InputsFormQuery(g.view, g.tenants);
    forall x | x in Bag(q, SegmentDocs(g, tenantId), UINT32_MAX)
      ensures 0.0 <= x
    {
      BagMember(q, SegmentDocs(g, tenantId), UINT32_MAX, x);
      var d: nat :| d in SegmentDocs(g, tenantId) && x == FullScore(q, d);
      ScoreIsPositive(q, d);
    }
  }

  lemma TopOfNonNegative(top: multiset<real>, all: multiset<real>, more: multiset<real>, k: nat)
    requires IsTopK(top, all + more, k) && NonNegative(all) && NonNegative(more)
    ensures NonNegative(top)
  {
    forall x | x in top
      ensures 0.0 <= x
    {
      assert x in all + more;
    }
  }

  lemma NoDocsNoScores(g: MultiSegment, tenantId: nat)
    requires forall d: nat :: !Matches(g.tenants, tenantId, d)
    ensures SegmentScores(tenantId)(g) == multiset{} && SegmentSlots(tenantId)(g) == multiset{}
  {
    assert SegmentDocs(g, tenantId) == {};
    EmptyBag(InputLists(g.view), UINT32_MAX);
  }

  /** One segment: all its matching documents' full scores are taken into account. */
  method SearchSegment(heap: TopKHeap, g: MultiSegment, tenantId: nat)
    requires heap.Valid() && NonNegative(heap.Scores()) && ValidMulti(g) && tenantId != UINT32_MAX
    modifies heap.Repr
    ensures heap.Valid() && NonNegative(heap.Scores())
    ensures IsTopK(heap.Scores(), old(heap.Scores()) + SegmentScores(tenantId)(g), heap.capacity)
    ensures heap.Held() <= old(heap.Held()) + SegmentSlots(tenantId)(g)
  {
    hide IsTopK, ValidInputs, RangesCover, AdmitsExactly, Eligible, SegmentDocs, Matches, Bag, FullScore;
    ghost var prior := heap.Scores();
    var hasDocs, minDocId, maxDocId := SegmentRange(g, tenantId);
    if !hasDocs {
      NoDocsNoScores(g, tenantId);
      heap.SizeIsCard();
      TopKAll(prior, heap.capacity);
      assert prior + multiset{} == prior;
      return;
    }
    RangeStart(g.tenants, tenantId, minDocId, maxDocId);
    ghost var s := Scan(InputLists(g.view), g.tenants, tenantId, minDocId, maxDocId, prior, heap.capacity);
    RangeSelectsDocs(g, tenantId, s);
    ScoreSegmentMultiTermBmw(heap, g.rootBlock, g.view, g.tenants, tenantId, minDocId, maxDocId);
    SegmentScoresNonNegative(g, tenantId);
    TopOfNonNegative(heap.Scores(), prior, SegmentScores(tenantId)(g), heap.capacity);
  }

  lemma RangeStart(tenants: seq<nat>, tenantId: nat, minDocId: nat, maxDocId: nat)
    requires AdmitsExactly(tenants, tenantId, minDocId, maxDocId)
    ensures minDocId <= UINT32_MAX
  {
  }

  ghost predicate ValidChain(chain: seq<MultiSegment>) {
    forall i :: 0 <= i < |chain| ==> ValidMulti(chain[i])
  }

  ghost function ChainScores(tenantId: nat): seq<MultiSegment> -> multiset<real> {
    (chain: seq<MultiSegment>) => UnionOver(chain, SegmentScores(tenantId))
  }

  ghost function ChainSlots(tenantId: nat): seq<MultiSegment> -> multiset<RawEntry> {
    (chain: seq<MultiSegment>) => UnionOver(chain, SegmentSlots(tenantId))
  }

  /** One segment more on top of what was collected. */
  method CollectSegment(heap: TopKHeap, g: MultiSegment, tenantId: nat,
                        ghost prior: multiset<real>, ghost start: multiset<RawEntry>,
                        ghost scores: multiset<real>, ghost slots: multiset<RawEntry>)
    requires Collected(heap, prior, start, scores, slots) && NonNegative(prior) && NonNegative(scores)
    requires ValidMulti(g) && tenantId != UINT32_MAX
    modifies heap.Repr
    ensures Collected(heap, prior, start, scores + SegmentScores(tenantId)(g), slots + SegmentSlots(tenantId)(g))
    ensures NonNegative(scores + SegmentScores(tenantId)(g))
  {
    CollectedMeans(heap, prior, start, scores, slots);
    ghost var before, held := heap.Scores(), heap.Held();
    hide *;
    TopOfNonNegative(before, prior, scores, heap.capacity);
    SegmentScoresNonNegative(g, tenantId);
    UnionNonNegative(scores, SegmentScores(tenantId)(g));
    SearchSegment(heap, g, tenantId);
    CollectedMore(heap, before, held, prior, start, scores, slots, SegmentScores(tenantId)(g), SegmentSlots(tenantId)(g));
  }

  lemma UnionNonNegative(a: multiset<real>, b: multiset<real>)
    requires NonNegative(a) && NonNegative(b)
    ensures NonNegative(a + b)
  {
  }

  method CollectNextSegment(heap: TopKHeap, chain: seq<MultiSegment>, i: nat, tenantId: nat,
                            ghost prior: multiset<real>, ghost start: multiset<RawEntry>,
                            ghost scores: multiset<real>, ghost slots: multiset<RawEntry>)
    requires i < |chain| && NonNegative(prior) && ValidChain(chain) && tenantId != UINT32_MAX
    requires CollectedTo(heap, prior, start, scores, slots, chain, i, SegmentScores(tenantId), SegmentSlots(tenantId))
    modifies heap.Repr
    ensures CollectedTo(heap, prior, start, scores, slots, chain, i + 1, SegmentScores(tenantId), SegmentSlots(tenantId))
  {
    ghost var f, e := SegmentScores(tenantId), SegmentSlots(tenantId);
    hide Collected, ValidMulti, SegmentScores, SegmentSlots, NonNegative, UnionOver;
    CollectSegment(heap, chain[i], tenantId, prior, start,
                   scores + UnionOver(chain[..i], f), slots + UnionOver(chain[..i], e));
    CollectedToNext(heap, prior, start, scores, slots, chain, i, f, e);
  }

  /** The segment chain of one level. */
  method CollectChain(heap: TopKHeap, chain: seq<MultiSegment>, tenantId: nat,
                      ghost prior: multiset<real>, ghost start: multiset<RawEntry>,
                      ghost scores: multiset<real>, ghost slots: multiset<RawEntry>)
    requires Collected(heap, prior, start, scores, slots) && NonNegative(prior) && NonNegative(scores)
    requires ValidChain(chain) && tenantId != UINT32_MAX
    modifies heap.Repr
    ensures Collected(heap, prior, start, scores + ChainScores(tenantId)(chain), slots + ChainSlots(tenantId)(chain))
    ensures NonNegative(scores + ChainScores(tenantId)(chain))
  {
    ghost var f, e := SegmentScores(tenantId), SegmentSlots(tenantId);
    CollectedToStart(heap, prior, start, scores, slots, chain, f, e);
    var i := 0;
    while i < |chain|
      invariant 0 <= i <= |chain|
      invariant CollectedTo(heap, prior, start, scores, slots, chain, i, f, e)
    {
      CollectNextSegment(heap, chain, i, tenantId, prior, start, scores, slots);
      i := i + 1;
    }
    CollectedToEnd(heap, prior, start, scores, slots, chain, f, e);
  }

  ghost predicate ValidLevels(levels: seq<seq<MultiSegment>>) {
    |levels| == TP_MAX_LEVELS && forall i :: 0 <= i < |levels| ==> ValidChain(levels[i])
  }

  /** Every matching document of the index counts once, with its full score. */
  ghost function IndexScores(terms: seq<MemTerm>, levels: seq<seq<MultiSegment>>, tenantId: nat): multiset<real> {
    MemtableScores(terms, tenantId) + UnionOver(levels, ChainScores(tenantId))
  }

  ghost function IndexSlots(terms: seq<MemTerm>, levels: seq<seq<MultiSegment>>, tenantId: nat): multiset<RawEntry> {
    MemtableSlots(terms, tenantId) + UnionOver(levels, ChainSlots(tenantId))
  }

  method CollectLevel(heap: TopKHeap, levels: seq<seq<MultiSegment>>, level: nat, tenantId: nat,
                      ghost scores: multiset<real>, ghost slots: multiset<RawEntry>)
    requires level < TP_MAX_LEVELS && ValidLevels(levels) && tenantId != UINT32_MAX
    requires CollectedTo(heap, multiset{}, multiset{}, scores, slots, levels, level, ChainScores(tenantId),
             ChainSlots(tenantId))
    modifies heap.Repr
    ensures CollectedTo(heap, multiset{}, multiset{}, scores, slots, levels, level + 1,
                        ChainScores(tenantId), ChainSlots(tenantId))
  {
    ghost var f, e := ChainScores(tenantId), ChainSlots(tenantId);
    assert NonNegative(multiset{});
    hide Collected, ValidChain, ChainScores, ChainSlots, NonNegative, UnionOver;
    CollectChain(heap, levels[level], tenantId, multiset{}, multiset{},
                 scores + UnionOver(levels[..level], f), slots + UnionOver(levels[..level], e));
    CollectedToNext(heap, multiset{}, multiset{}, scores, slots, levels, level, f, e);
  }

  /** Memtable first, then the levels from 0 up. */
  method CollectIndex(heap: TopKHeap, terms: seq<MemTerm>, levels: seq<seq<MultiSegment>>, tenantId: nat)
    requires heap.Valid() && heap.Entries() == [] && ValidMemTerms(terms) && ValidLevels(levels) && tenantId != UINT32_MAX
    modifies heap.Repr
    ensures Collected(heap, multiset{}, multiset{}, IndexScores(terms, levels, tenantId),
                      IndexSlots(terms, levels, tenantId))
  {
    assert heap.Held() == multiset{} && heap.Scores() == multiset{} && NonNegative(multiset{});
    hide ValidMemTerms, MemtableScores, MemtableSlots, NonNegative, Collected, ChainScores, ChainSlots, ValidChain;
    hide CollectedTo, UnionOver;
    ScoreMemtableMultiTerm(heap, terms, tenantId);
    MemtableNonNegative(terms, tenantId);
    ghost var scores, slots := MemtableScores(terms, tenantId), MemtableSlots(terms, tenantId);
    ghost var f, e := ChainScores(tenantId), ChainSlots(tenantId);
    CollectedToStart(heap, multiset{}, multiset{}, scores, slots, levels, f, e);
    var level := 0;
    while level < TP_MAX_LEVELS
      invariant 0 <= level <= TP_MAX_LEVELS
      invariant CollectedTo(heap, multiset{}, multiset{}, scores, slots, levels, level, f, e)
    {
      CollectLevel(heap, levels, level, tenantId, scores, slots);
      level := level + 1;
    }
    CollectedToEnd(heap, multiset{}, multiset{}, scores, slots, levels, f, e);
  }

  lemma MemtableNonNegative(terms: seq<MemTerm>, tenantId: nat)
    requires ValidMemTerms(terms)
    ensures NonNegative(MemtableScores(terms, tenantId)) && NonNegative(multiset{})
  {
    MemtableScoresNonNegative(terms, tenantId);
  }

  /** Every slot a search can hold names a document of its segment's CTID column. */
  ghost predicate SlotsInColumns(slots: multiset<RawEntry>, columns: Columns) {
    forall e :: e in slots ==> InColumns(e, columns)
  }

  /**
   * What a search promises: the k best of all scores, best first, and the hits are the CTIDs and
   * full scores of candidates, each candidate at most as often as it is one.
   */
  ghost predicate SearchResult(hits: seq<Hit>, scores: multiset<real>, slots: multiset<RawEntry>, columns: Columns,
                               k: nat) {
    && BestFirst(hits) && IsTopK(multiset(ScoresOfHits(hits)), scores, k)
    && exists entries: seq<RawEntry> :: multiset(entries) <= slots && HitsOf(hits, entries, columns)
  }

  /** Candidates that occur once and have different CTIDs. */
  ghost predicate DifferentDocs(slots: multiset<RawEntry>, columns: Columns) {
    && AtMostOnce(slots)
    && forall e, g :: e in slots && g in slots && Resolved(e, columns) == Resolved(g, columns) ==> e == g
  }

  ghost function CtidOf(): Hit -> ItemPointer {
    (h: Hit) => h.ctid
  }

  /** No document is returned twice, not even at a tie. */
  lemma NoDocumentTwice(hits: seq<Hit>, scores: multiset<real>, slots: multiset<RawEntry>, columns: Columns, k: nat)
    requires SearchResult(hits, scores, slots, columns, k) && DifferentDocs(slots, columns)
    ensures Distinct(Map(hits, CtidOf()))
  {
    var entries: seq<RawEntry> :| multiset(entries) <= slots && HitsOf(hits, entries, columns);
    hide SearchResult, IsTopK;
    var all := Map(entries, HitOf(columns));
    EntriesDiffer(entries, slots, columns);
    MapPermutation(hits, all, CtidOf());
    DistinctCount(Map(all, CtidOf()));
    CountDistinct(Map(hits, CtidOf()));
  }

  lemma EntriesDiffer(entries: seq<RawEntry>, slots: multiset<RawEntry>, columns: Columns)
    requires multiset(entries) <= slots && DifferentDocs(slots, columns)
    ensures Distinct(Map(Map(entries, HitOf(columns)), CtidOf()))
  {
    hide Resolved;
    forall x
      ensures multiset(entries)[x] <= 1
    {
      assert multiset(entries)[x] <= slots[x];
    }
    CountDistinct(entries);
    var ctids := Map(Map(entries, HitOf(columns)), CtidOf());
    forall i, j | 0 <= i < j < |ctids|
      ensures ctids[i] != ctids[j]
    {
      assert entries[i] in multiset(entries) && entries[j] in multiset(entries);
    }
  }

  /** Resolve and extract what was collected from the whole index. */
  method Finish(heap: TopKHeap, columns: Columns, ghost scores: multiset<real>, ghost slots: multiset<RawEntry>)
    returns (hits: seq<Hit>)
    requires Collected(heap, multiset{}, multiset{}, scores, slots) && SlotsInColumns(slots, columns)
    modifies heap.Repr
    ensures SearchResult(hits, scores, slots, columns, heap.capacity)
  {
    CollectedMeans(heap, multiset{}, multiset{}, scores, slots);
    ghost var held, top := heap.Held(), heap.Scores();
    assert multiset{} + scores == scores;
    HeldInColumns(heap, slots, columns);
    hide *;
    hits := ReadOut(heap, columns);
    ReadOutIsResult(hits, top, held, scores, slots, columns, heap.capacity);
  }

  lemma HeldInColumns(heap: TopKHeap, slots: multiset<RawEntry>, columns: Columns)
    requires heap.Valid() && heap.Held() <= slots && SlotsInColumns(slots, columns)
    ensures forall e :: e in heap.Entries() ==> InColumns(e, columns)
  {
    forall e | e in heap.Entries()
      ensures InColumns(e, columns)
    {
      assert e in heap.Held();
      assert e in slots;
    }
  }

  lemma ReadOutIsResult(hits: seq<Hit>, top: multiset<real>, held: multiset<RawEntry>, scores: multiset<real>,
                        slots: multiset<RawEntry>, columns: Columns, k: nat)
    requires ReadsOut(hits, top, held, columns) && IsTopK(top, scores, k) && held <= multiset{} + slots
    ensures SearchResult(hits, scores, slots, columns, k)
  {
    hide IsTopK, BestFirst, HitsOf;
    var entries: seq<RawEntry> :| multiset(entries) == held && HitsOf(hits, entries, columns);
    assert multiset(entries) <= slots;
  }

  /**
   * tp_score_multi_term_bmw. With block bounds that dominate the scores in their blocks, the
   * search returns the scores that scoring every matching document of the memtable and of
   * every segment would select.
   */
  method ScoreMultiTermBmw(terms: seq<MemTerm>, levels: seq<seq<MultiSegment>>, maxResults: nat, tenantId: nat,
                           columns: Columns)
    returns (hits: seq<Hit>)
    requires 0 < maxResults && tenantId != UINT32_MAX && ValidMemTerms(terms) && ValidLevels(levels)
    requires SlotsInColumns(IndexSlots(terms, levels, tenantId), columns)
    ensures SearchResult(hits, IndexScores(terms, levels, tenantId), IndexSlots(terms, levels, tenantId), columns,
            maxResults)
  {
    hide ValidMemTerms, ValidLevels, SlotsInColumns, SearchResult, Collected, IndexScores, IndexSlots;
    var heap := new TopKHeap(maxResults);
    CollectIndex(heap, terms, levels, tenantId);
    hits := Finish(heap, columns, IndexScores(terms, levels, tenantId), IndexSlots(terms, levels, tenantId));
  }
}
