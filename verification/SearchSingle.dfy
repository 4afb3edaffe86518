/** A whole single-term search (tp_score_single_term_bmw, src/query/bmw.c). */
module SearchSingle {
  import opened Collecting
  import opened Constants
  import opened DocMap
  import opened Extraction
  import opened ItemPointers
  import opened MemtableScoring
  import opened Postings
  import opened Search
  import opened SingleTerm
  import opened Sums
  import opened TopK
  import opened TopKSpec
  import opened Wand

  /** A segment with the term's posting list in it. */
  type TermSegment = Segment<TermList>

  ghost predicate ValidTermSegment(g: TermSegment) {
    && ValidSegment(g)
    && (g.view.found ==> ValidList(g.view) && ScoresBounded(g.view) && TenantMarksHold(g.view, g.tenants))
  }

  /** The filter without a doc range: the tenant decides alone. */
  function WholeSegment(g: TermSegment, tenantId: nat): Filter {
    Filter(g.tenants, tenantId, 0, UINT32_MAX)
  }

  /** The scores of all the tenant's postings of the term. */
  ghost function TermSegmentScores(tenantId: nat): TermSegment -> multiset<real> {
    (g: TermSegment) =>
      if g.view.found then ListScores(g.view.blocks, g.view.weigh, WholeSegment(g, tenantId)) else multiset{}
  }

  ghost function TermSegmentSlots(tenantId: nat): TermSegment -> multiset<RawEntry> {
    (g: TermSegment) =>
      if g.view.found && g.rootBlock < INVALID_BLOCK_NUMBER
      then ListSlots(g.view.blocks, g.view.weigh, WholeSegment(g, tenantId), g.rootBlock) else multiset{}
  }

  lemma {:induction false} BlockSlotsArePassing(ps: seq<BlockPosting>, weigh: (nat, nat) -> real, f: Filter,
                                                rootBlock: nat, e: RawEntry)
    requires rootBlock < INVALID_BLOCK_NUMBER
    ensures e in BlockSlots(ps, weigh, f, rootBlock) <==>
            exists j :: 0 <= j < |ps| && Passes(f, ps[j].docId)
                        && e == RawEntry(INVALID_POINTER, rootBlock, ps[j].docId, weigh(ps[j].frequency, ps[j].fieldnorm))
  {
    hide Passes;
    if ps != [] { BlockSlotsArePassing(ps[..|ps| - 1], weigh, f, rootBlock, e); }
  }

  lemma {:induction false} ListSlotsOfBlocks(blocks: seq<seq<BlockPosting>>, weigh: (nat, nat) -> real, f: Filter,
                                             rootBlock: nat, e: RawEntry)
    requires rootBlock < INVALID_BLOCK_NUMBER
    ensures e in ListSlots(blocks, weigh, f, rootBlock) <==>
            exists b :: 0 <= b < |blocks| && e in BlockSlots(blocks[b], weigh, f, rootBlock)
  {
    hide BlockSlots;
    if blocks != [] { ListSlotsOfBlocks(blocks[..|blocks| - 1], weigh, f, rootBlock, e); }
  }

  /** A segment's candidates for one term: its postings of the tenant, if one is asked for, each with its score. */
  lemma TermSegmentSlotsAreTenants(g: TermSegment, tenantId: nat, e: RawEntry)
    requires g.view.found && ValidTermSegment(g)
    ensures e in TermSegmentSlots(tenantId)(g) <==>
            exists b, j :: 0 <= b < |g.view.blocks| && 0 <= j < |g.view.blocks[b]|
              && (tenantId == 0 ||
                  (g.view.blocks[b][j].docId < |g.tenants| && g.tenants[g.view.blocks[b][j].docId] == tenantId))
              && e == RawEntry(INVALID_POINTER, g.rootBlock, g.view.blocks[b][j].docId,
                               g.view.weigh(g.view.blocks[b][j].frequency, g.view.blocks[b][j].fieldnorm))
  {
    hide BlockSlots, ListSlots, RangesCover, TenantMarksHold, ScoresBounded;
    var f, blocks := WholeSegment(g, tenantId), g.view.blocks;
    ListSlotsOfBlocks(blocks, g.view.weigh, f, g.rootBlock, e);
    forall b | 0 <= b < |blocks|
      ensures e in BlockSlots(blocks[b], g.view.weigh, f, g.rootBlock) <==>
              exists j :: 0 <= j < |blocks[b]| && TenantOf(g, tenantId, blocks[b][j].docId)
                && e == RawEntry(INVALID_POINTER, g.rootBlock, blocks[b][j].docId,
                    g.view.weigh(blocks[b][j].frequency, blocks[b][j].fieldnorm))
    {
      BlockSlotsArePassing(blocks[b], g.view.weigh, f, g.rootBlock, e);
      forall j | 0 <= j < |blocks[b]|
        ensures Passes(f, blocks[b][j].docId) <==> TenantOf(g, tenantId, blocks[b][j].docId)
      {
        assert blocks[b][j].docId < UINT32_MAX;
      }
    }
  }

  ghost predicate TenantOf(g: TermSegment, tenantId: nat, d: nat) {
    tenantId == 0 || (d < |g.tenants| && g.tenants[d] == tenantId)
  }

  // ---------- filters that pass the same postings ----------

  ghost predicate SameOn(ps: seq<BlockPosting>, f: Filter, g: Filter) {
    forall j :: 0 <= j < |ps| ==> (Passes(f, ps[j].docId) <==> Passes(g, ps[j].docId))
  }

  lemma {:induction false} SameBlockScores(ps: seq<BlockPosting>, weigh: (nat, nat) -> real, f: Filter, g: Filter,
                                           rootBlock: nat)
    requires SameOn(ps, f, g) && rootBlock < INVALID_BLOCK_NUMBER
    ensures BlockScores(ps, weigh, f) == BlockScores(ps, weigh, g)
    ensures BlockSlots(ps, weigh, f, rootBlock) == BlockSlots(ps, weigh, g, rootBlock)
  {
    hide Passes;
    if ps != [] {
      SameBlockScores(ps[..|ps| - 1], weigh, f, g, rootBlock);
    }
  }

  lemma {:induction false} SameListScores(blocks: seq<seq<BlockPosting>>, weigh: (nat, nat) -> real, f: Filter, g: Filter,
                                          rootBlock: nat)
    requires forall b :: 0 <= b < |blocks| ==> SameOn(blocks[b], f, g)
    requires rootBlock < INVALID_BLOCK_NUMBER
    ensures ListScores(blocks, weigh, f) == ListScores(blocks, weigh, g)
    ensures ListSlots(blocks, weigh, f, rootBlock) == ListSlots(blocks, weigh, g, rootBlock)
  {
    hide SameOn, BlockScores, BlockSlots;
    if blocks != [] {
      SameListScores(blocks[..|blocks| - 1], weigh, f, g, rootBlock);
      SameBlockScores(blocks[|blocks| - 1], weigh, f, g, rootBlock);
    }
  }

  lemma RangeIsWhole(g: TermSegment, tenantId: nat, minDocId: nat, maxDocId: nat)
    requires ValidTermSegment(g) && g.view.found && AdmitsExactly(g.tenants, tenantId, minDocId, maxDocId)
    ensures TermSegmentScores(tenantId)(g) ==
            ListScores(g.view.blocks, g.view.weigh, Filter(g.tenants, tenantId, minDocId, maxDocId))
    ensures TermSegmentSlots(tenantId)(g) ==
            ListSlots(g.view.blocks, g.view.weigh, Filter(g.tenants, tenantId, minDocId, maxDocId), g.rootBlock)
  {
    hide RangesCover, TenantMarksHold, ScoresBounded;
    var f, whole := Filter(g.tenants, tenantId, minDocId, maxDocId), WholeSegment(g, tenantId);
    var blocks := g.view.blocks;
    forall b | 0 <= b < |blocks|
      ensures SameOn(blocks[b], f, whole)
    {
      forall j | 0 <= j < |blocks[b]|
        ensures Passes(f, blocks[b][j].docId) <==> Passes(whole, blocks[b][j].docId)
      {
        assert blocks[b][j].docId < UINT32_MAX;
      }
    }
    SameListScores(blocks, g.view.weigh, f, whole, g.rootBlock);
  }

  lemma {:induction false} ListScoresPositive(blocks: seq<seq<BlockPosting>>, weigh: (nat, nat) -> real, f: Filter)
    requires forall b, j :: 0 <= b < |blocks| && 0 <= j < |blocks[b]| ==>
                              0.0 <= weigh(blocks[b][j].frequency, blocks[b][j].fieldnorm)
    ensures NonNegative(ListScores(blocks, weigh, f))
  {
    if blocks != [] {
      ListScoresPositive(blocks[..|blocks| - 1], weigh, f);
      var last := BlockScores(blocks[|blocks| - 1], weigh, f);
      forall x | x in last
        ensures 0.0 <= x
      {
        BlockScoresMember(blocks[|blocks| - 1], weigh, f, x);
      }
    }
  }

  lemma NothingInSegment(g: TermSegment, tenantId: nat)
    requires forall d: nat :: !Matches(g.tenants, tenantId, d)
    ensures TermSegmentScores(tenantId)(g) == multiset{} && TermSegmentSlots(tenantId)(g) == multiset{}
  {
    forall d: nat
      ensures !Passes(WholeSegment(g, tenantId), d)
    {
      assert !Matches(g.tenants, tenantId, d);
    }
    NothingPasses(g.view.blocks, g.view.weigh, WholeSegment(g, tenantId), g.rootBlock);
  }

  lemma {:induction false} NothingPassesBlock(ps: seq<BlockPosting>, weigh: (nat, nat) -> real, f: Filter, rootBlock: nat)
    requires forall d: nat :: !Passes(f, d)
    ensures BlockScores(ps, weigh, f) == multiset{}
    ensures rootBlock < INVALID_BLOCK_NUMBER ==> BlockSlots(ps, weigh, f, rootBlock) == multiset{}
  {
    if ps != [] { NothingPassesBlock(ps[..|ps| - 1], weigh, f, rootBlock); }
  }

  lemma {:induction false} NothingPasses(blocks: seq<seq<BlockPosting>>, weigh: (nat, nat) -> real, f: Filter,
                                         rootBlock: nat)
    requires forall d: nat :: !Passes(f, d)
    ensures ListScores(blocks, weigh, f) == multiset{}
    ensures rootBlock < INVALID_BLOCK_NUMBER ==> ListSlots(blocks, weigh, f, rootBlock) == multiset{}
  {
    if blocks != [] {
      NothingPasses(blocks[..|blocks| - 1], weigh, f, rootBlock);
      NothingPassesBlock(blocks[|blocks| - 1], weigh, f, rootBlock);
    }
  }

  // ---------- one segment, one level, the index ----------

  lemma RangeGivesValidTerm(g: TermSegment, tenantId: nat, minDocId: nat, maxDocId: nat)
    requires ValidTermSegment(g) && g.view.found
    requires tenantId != 0 && maxDocId != UINT32_MAX ==>
               forall d: nat :: minDocId <= d <= maxDocId ==> GetTenantId(g.tenants, d) == tenantId
    ensures ValidTerm(g.view, Filter(g.tenants, tenantId, minDocId, maxDocId))
    ensures ReadableTerm(g.view, Filter(g.tenants, tenantId, minDocId, maxDocId))
  {
    hide ValidList, TenantMarksHold, RangesCover;
  }

  lemma SegmentNonNegative(g: TermSegment, tenantId: nat)
    requires ValidTermSegment(g)
    ensures NonNegative(TermSegmentScores(tenantId)(g))
  {
    if g.view.found {
      ListScoresPositive(g.view.blocks, g.view.weigh, WholeSegment(g, tenantId));
    }
  }

  /** One segment: the tenant's doc range, then the term's blocks in it. */
  method SearchTermSegment(heap: TopKHeap, g: TermSegment, tenantId: nat)
    requires heap.Valid() && ValidTermSegment(g) && tenantId != UINT32_MAX
    modifies heap.Repr
    ensures heap.Valid()
    ensures IsTopK(heap.Scores(), old(heap.Scores()) + TermSegmentScores(tenantId)(g), heap.capacity)
    ensures heap.Held() <= old(heap.Held()) + TermSegmentSlots(tenantId)(g)
  {
    hide IsTopK, RangesCover, AdmitsExactly, Matches, ListScores, ListSlots, ValidTerm, ReadableTerm,
        ScoresBounded, ValidList, TenantMarksHold;
    ghost var prior := heap.Scores();
    var hasDocs, minDocId, maxDocId := SegmentRange(g, tenantId);
    if !hasDocs {
      NothingInSegment(g, tenantId);
      heap.SizeIsCard();
      TopKAll(prior, heap.capacity);
      assert prior + multiset{} == prior;
      return;
    }
    var f := Filter(g.tenants, tenantId, minDocId, maxDocId);
    if g.view.found {
      RangeGivesValidTerm(g, tenantId, minDocId, maxDocId);
      RangeIsWhole(g, tenantId, minDocId, maxDocId);
    }
    ScoreSegmentSingleTermBmw(heap, g.rootBlock, g.view, f);
  }

  ghost predicate ValidTermChain(chain: seq<TermSegment>) {
    forall i :: 0 <= i < |chain| ==> ValidTermSegment(chain[i])
  }

  ghost predicate ValidTermLevels(levels: seq<seq<TermSegment>>) {
    |levels| == TP_MAX_LEVELS && forall i :: 0 <= i < |levels| ==> ValidTermChain(levels[i])
  }

  ghost function TermChainScores(tenantId: nat): seq<TermSegment> -> multiset<real> {
    (chain: seq<TermSegment>) => UnionOver(chain, TermSegmentScores(tenantId))
  }

  ghost function TermChainSlots(tenantId: nat): seq<TermSegment> -> multiset<RawEntry> {
    (chain: seq<TermSegment>) => UnionOver(chain, TermSegmentSlots(tenantId))
  }

  method CollectTermSegment(heap: TopKHeap, chain: seq<TermSegment>, i: nat, tenantId: nat,
                            ghost scores: multiset<real>, ghost slots: multiset<RawEntry>)
    requires i < |chain| && ValidTermChain(chain) && tenantId != UINT32_MAX
    requires CollectedTo(heap, multiset{}, multiset{}, scores, slots, chain, i,
                         TermSegmentScores(tenantId), TermSegmentSlots(tenantId))
    modifies heap.Repr
    ensures CollectedTo(heap, multiset{}, multiset{}, scores, slots, chain, i + 1,
                        TermSegmentScores(tenantId), TermSegmentSlots(tenantId))
  {
    ghost var f, e := TermSegmentScores(tenantId), TermSegmentSlots(tenantId);
    ghost var scores', slots' := scores + UnionOver(chain[..i], f), slots + UnionOver(chain[..i], e);
    CollectedMeans(heap, multiset{}, multiset{}, scores', slots');
    ghost var before, held := heap.Scores(), heap.Held();
    hide Collected, IsTopK, ValidTermSegment, TermSegmentScores, TermSegmentSlots, UnionOver, NonNegative;
    SearchTermSegment(heap, chain[i], tenantId);
    CollectedMore(heap, before, held, multiset{}, multiset{}, scores', slots', f(chain[i]), e(chain[i]));
    SegmentNonNegative(chain[i], tenantId);
    UnionNonNegative(scores', f(chain[i]));
    CollectedToNext(heap, multiset{}, multiset{}, scores, slots, chain, i, f, e);
  }

  method CollectTermChain(heap: TopKHeap, chain: seq<TermSegment>, tenantId: nat,
                          ghost scores: multiset<real>, ghost slots: multiset<RawEntry>)
    requires ValidTermChain(chain) && tenantId != UINT32_MAX
    requires Collected(heap, multiset{}, multiset{}, scores, slots) && NonNegative(scores)
    modifies heap.Repr
    ensures Collected(heap, multiset{}, multiset{},
                      scores + TermChainScores(tenantId)(chain), slots + TermChainSlots(tenantId)(chain))
    ensures NonNegative(scores + TermChainScores(tenantId)(chain))
  {
    ghost var g, h := TermSegmentScores(tenantId), TermSegmentSlots(tenantId);
    CollectedToStart(heap, multiset{}, multiset{}, scores, slots, chain, g, h);
    var i := 0;
    while i < |chain|
      invariant 0 <= i <= |chain|
      invariant CollectedTo(heap, multiset{}, multiset{}, scores, slots, chain, i, g, h)
    {
      CollectTermSegment(heap, chain, i, tenantId, scores, slots);
      i := i + 1;
    }
    CollectedToEnd(heap, multiset{}, multiset{}, scores, slots, chain, g, h);
  }

  method CollectTermLevel(heap: TopKHeap, levels: seq<seq<TermSegment>>, level: nat, tenantId: nat,
                          ghost scores: multiset<real>, ghost slots: multiset<RawEntry>)
    requires level < TP_MAX_LEVELS && ValidTermLevels(levels) && tenantId != UINT32_MAX
    requires CollectedTo(heap, multiset{}, multiset{}, scores, slots, levels, level,
                         TermChainScores(tenantId), TermChainSlots(tenantId))
    modifies heap.Repr
    ensures CollectedTo(heap, multiset{}, multiset{}, scores, slots, levels, level + 1,
                        TermChainScores(tenantId), TermChainSlots(tenantId))
  {
    ghost var f, e := TermChainScores(tenantId), TermChainSlots(tenantId);
    hide Collected, ValidTermChain, TermChainScores, TermChainSlots, NonNegative, UnionOver;
    CollectTermChain(heap, levels[level], tenantId,
                     scores + UnionOver(levels[..level], f), slots + UnionOver(levels[..level], e));
    CollectedToNext(heap, multiset{}, multiset{}, scores, slots, levels, level, f, e);
  }

  ghost function AllTermScores(t: MemTerm, levels: seq<seq<TermSegment>>, tenantId: nat): multiset<real> {
    TermScores(t, |t.postings|, tenantId) + UnionOver(levels, TermChainScores(tenantId))
  }

  ghost function AllTermSlots(t: MemTerm, levels: seq<seq<TermSegment>>, tenantId: nat): multiset<RawEntry> {
    TermSlots(t, |t.postings|, tenantId) + UnionOver(levels, TermChainSlots(tenantId))
  }

  lemma {:induction false} TermScoresNonNegative(t: MemTerm, n: nat, tenantId: nat)
    requires n <= |t.postings| && ValidMemTerm(t)
    ensures NonNegative(TermScores(t, n, tenantId))
  {
    if n > 0 { TermScoresNonNegative(t, n - 1, tenantId); }
  }

  method CollectTerm(heap: TopKHeap, t: MemTerm, levels: seq<seq<TermSegment>>, tenantId: nat)
    requires heap.Valid() && heap.Entries() == [] && ValidMemTerm(t) && ValidTermLevels(levels) && tenantId != UINT32_MAX
    modifies heap.Repr
    ensures Collected(heap, multiset{}, multiset{}, AllTermScores(t, levels, tenantId), AllTermSlots(t, levels, tenantId))
  {
    assert heap.Held() == multiset{} && heap.Scores() == multiset{};
    ghost var n := |t.postings|;
    hide ValidMemTerm, TermScores, TermSlots, NonNegative, Collected, TermChainScores, TermChainSlots, ValidTermLevels;
    hide CollectedTo, UnionOver;
    ScoreMemtableSingleTerm(heap, t, tenantId);
    TermScoresNonNegative(t, n, tenantId);
    ghost var scores, slots := TermScores(t, n, tenantId), TermSlots(t, n, tenantId);
    ghost var f, e := TermChainScores(tenantId), TermChainSlots(tenantId);
    CollectedToStart(heap, multiset{}, multiset{}, scores, slots, levels, f, e);
    EightLevels(levels);
    var level := 0;
    while level < TP_MAX_LEVELS
      invariant 0 <= level <= TP_MAX_LEVELS
      invariant CollectedTo(heap, multiset{}, multiset{}, scores, slots, levels, level, f, e)
    {
      CollectTermLevel(heap, levels, level, tenantId, scores, slots);
      level := level + 1;
    }
    CollectedToEnd(heap, multiset{}, multiset{}, scores, slots, levels, f, e);
  }

  lemma EightLevels(levels: seq<seq<TermSegment>>)
    requires ValidTermLevels(levels)
    ensures |levels| == TP_MAX_LEVELS
  {
  }

  /**
   * tp_score_single_term_bmw: the k best of the scores of all the tenant's postings of the
   * term, in the memtable and in every segment.
   */
  method ScoreSingleTermBmw(t: MemTerm, levels: seq<seq<TermSegment>>, maxResults: nat, tenantId: nat, columns: Columns)
    returns (hits: seq<Hit>)
    requires 0 < maxResults && tenantId != UINT32_MAX && ValidMemTerm(t) && ValidTermLevels(levels)
    requires SlotsInColumns(AllTermSlots(t, levels, tenantId), columns)
    ensures SearchResult(hits, AllTermScores(t, levels, tenantId), AllTermSlots(t, levels, tenantId), columns, maxResults)
  {
    hide ValidMemTerm, ValidTermLevels, SlotsInColumns, SearchResult, Collected, AllTermScores, AllTermSlots;
    var heap := new TopKHeap(maxResults);
    CollectTerm(heap, t, levels, tenantId);
    hits := Finish(heap, columns, AllTermScores(t, levels, tenantId), AllTermSlots(t, levels, tenantId));
  }
}
