/**
 * Single-term Block-Max scoring of one segment (score_segment_single_term_bmw in
 * src/query/bmw.c over the iterator of src/segment/scan.c).
 */
module SingleTerm {
  import opened Fieldnorm
  import opened ItemPointers
  import opened Postings
  import opened TopK
  import opened TopKSpec
  import opened Wand
  import opened WandSearch

  /** What the scan keeps: doc range, and tenant unless the range already selects it. */
  datatype Filter = Filter(tenants: seq<nat>, tenantId: nat, minDocId: nat, maxDocId: nat)

  predicate Passes(f: Filter, d: nat) {
    Admitted(d, f.tenants, f.tenantId, f.minDocId, f.maxDocId)
  }

  /** The scores of the postings of one block that pass the filter, one per posting. */
  ghost function BlockScores(ps: seq<BlockPosting>, weigh: (nat, nat) -> real, f: Filter): multiset<real> {
    if ps == [] then multiset{}
    else
      var p := ps[|ps| - 1];
      BlockScores(ps[..|ps| - 1], weigh, f)
      + if Passes(f, p.docId) then multiset{weigh(p.frequency, p.fieldnorm)} else multiset{}
  }

  /** Scoring every posting of the term, block by block. */
  ghost function ListScores(blocks: seq<seq<BlockPosting>>, weigh: (nat, nat) -> real, f: Filter): multiset<real> {
    if blocks == [] then multiset{}
    else ListScores(blocks[..|blocks| - 1], weigh, f) + BlockScores(blocks[|blocks| - 1], weigh, f)
  }

  /** The heap slots of the passing postings of one block, each once. */
  ghost function BlockSlots(ps: seq<BlockPosting>, weigh: (nat, nat) -> real, f: Filter, rootBlock: nat): multiset<Entry>
    requires rootBlock < INVALID_BLOCK_NUMBER
  {
    if ps == [] then multiset{}
    else
      var p := ps[|ps| - 1];
      BlockSlots(ps[..|ps| - 1], weigh, f, rootBlock)
      + if Passes(f, p.docId) then multiset{SlotFor(rootBlock, p.docId, weigh(p.frequency, p.fieldnorm))} else multiset{}
  }

  ghost function ListSlots(blocks: seq<seq<BlockPosting>>, weigh: (nat, nat) -> real, f: Filter,
                           rootBlock: nat): multiset<Entry>
    requires rootBlock < INVALID_BLOCK_NUMBER
  {
    if blocks == [] then multiset{}
    else ListSlots(blocks[..|blocks| - 1], weigh, f, rootBlock) + BlockSlots(blocks[|blocks| - 1], weigh, f, rootBlock)
  }

  lemma {:induction false} SlotsOfPrefix(ps: seq<BlockPosting>, j: nat, weigh: (nat, nat) -> real, f: Filter,
                                         rootBlock: nat)
    requires rootBlock < INVALID_BLOCK_NUMBER && j <= |ps|
    ensures BlockSlots(ps[..j], weigh, f, rootBlock) <= BlockSlots(ps, weigh, f, rootBlock)
    decreases |ps|
  {
    if j == |ps| {
      assert ps[..j] == ps;
    } else {
      SlotsOfPrefix(ps[..|ps| - 1], j, weigh, f, rootBlock);
      assert ps[..|ps| - 1][..j] == ps[..j];
    }
  }

  /** Slots held beyond the starting ones belong to the first j postings of a block. */
  ghost predicate SlottedTo(held: multiset<Entry>, start: multiset<Entry>, ps: seq<BlockPosting>, j: nat,
                            weigh: (nat, nat) -> real, f: Filter, rootBlock: nat) {
    rootBlock < INVALID_BLOCK_NUMBER && j <= |ps| && held <= start + BlockSlots(ps[..j], weigh, f, rootBlock)
  }

  lemma SlottedOne(before: multiset<Entry>, after: multiset<Entry>, start: multiset<Entry>, ps: seq<BlockPosting>, j: nat,
                   weigh: (nat, nat) -> real, f: Filter, rootBlock: nat)
    requires j < |ps| && SlottedTo(before, start, ps, j, weigh, f, rootBlock)
    requires after <= before + if Passes(f, ps[j].docId)
                               then multiset{SlotFor(rootBlock, ps[j].docId, weigh(ps[j].frequency, ps[j].fieldnorm))}
                               else multiset{}
    ensures SlottedTo(after, start, ps, j + 1, weigh, f, rootBlock)
  {
    assert ps[..j + 1][..j] == ps[..j];
  }

  lemma SlottedAll(held: multiset<Entry>, start: multiset<Entry>, ps: seq<BlockPosting>, j: nat,
                   weigh: (nat, nat) -> real, f: Filter, rootBlock: nat)
    requires SlottedTo(held, start, ps, j, weigh, f, rootBlock)
    ensures held <= start + BlockSlots(ps, weigh, f, rootBlock)
  {
    SlotsOfPrefix(ps, j, weigh, f, rootBlock);
  }

  lemma SlottedNone(start: multiset<Entry>, ps: seq<BlockPosting>, weigh: (nat, nat) -> real, f: Filter, rootBlock: nat)
    requires rootBlock < INVALID_BLOCK_NUMBER
    ensures SlottedTo(start, start, ps, 0, weigh, f, rootBlock)
  {
  }

  /** Block bounds dominate the positive scores in their block. */
  ghost predicate ScoresBounded(l: TermList) {
    && |l.blockMax| == |l.blocks|
    && forall b, j :: 0 <= b < |l.blocks| && 0 <= j < |l.blocks[b]| ==>
                        0.0 < l.weigh(l.blocks[b][j].frequency, l.blocks[b][j].fieldnorm) <= l.blockMax[b]
  }

  lemma {:induction false} BlockScoresMember(ps: seq<BlockPosting>, weigh: (nat, nat) -> real, f: Filter, x: real)
    requires x in BlockScores(ps, weigh, f)
    ensures exists j :: 0 <= j < |ps| && Passes(f, ps[j].docId) && x == weigh(ps[j].frequency, ps[j].fieldnorm)
  {
    var n := |ps| - 1;
    if !(Passes(f, ps[n].docId) && x == weigh(ps[n].frequency, ps[n].fieldnorm)) {
      BlockScoresMember(ps[..n], weigh, f, x);
    }
  }

  /** A block none of whose passing postings can enter may be skipped. */
  lemma SkippedBlock(scores: multiset<real>, all: multiset<real>, ps: seq<BlockPosting>, weigh: (nat, nat) -> real,
                     f: Filter, k: nat)
    requires IsTopK(scores, all, k)
    requires forall j :: 0 <= j < |ps| && Passes(f, ps[j].docId) ==>
                           Beats(scores, k, weigh(ps[j].frequency, ps[j].fieldnorm))
    ensures IsTopK(scores, all + BlockScores(ps, weigh, f), k)
  {
    var more := BlockScores(ps, weigh, f);
    if more == multiset{} {
      assert all + more == all;
    } else {
      forall x, y | x in scores && y in more
        ensures y <= x
      {
        BlockScoresMember(ps, weigh, f, y);
      }
      var y :| y in more;
      BlockScoresMember(ps, weigh, f, y);
      TopKIgnoreBeaten(scores, all, more, k);
    }
  }

  /** Postings after position n that all fail the filter add nothing. */
  lemma {:induction false} RestFails(ps: seq<BlockPosting>, n: nat, weigh: (nat, nat) -> real, f: Filter)
    requires n <= |ps| && forall j :: n <= j < |ps| ==> !Passes(f, ps[j].docId)
    ensures BlockScores(ps, weigh, f) == BlockScores(ps[..n], weigh, f)
    decreases |ps|
  {
    if n == |ps| {
      assert ps[..n] == ps;
    } else {
      RestFails(ps[..|ps| - 1], n, weigh, f);
      assert ps[..|ps| - 1][..n] == ps[..n];
    }
  }

  // ---------- the iterator ----------

  /** Between calls of `next` the iterator may stand just past the last posting of its block. */
  ghost predicate ValidIterator(t: TermState) {
    && ValidList(t.list) && t.list.found
    && (!t.finished ==>
          && t.currentBlock < |t.list.blocks|
          && t.skip == t.list.skips[t.currentBlock]
          && t.postings == t.list.blocks[t.currentBlock]
          && t.currentInBlock <= |t.postings|)
  }

  /** tp_segment_posting_iterator_next: the next posting, advancing into the next block by itself. */
  method Next(t: TermState) returns (t': TermState, ok: bool, p: BlockPosting)
    requires ValidIterator(t) && !t.finished
    ensures ValidIterator(t') && t'.list == t.list && ok == !t'.finished
    ensures t.currentInBlock < |t.postings| ==>
              ok && t' == t.(currentInBlock := t.currentInBlock + 1) && p == t.postings[t.currentInBlock]
    ensures t.currentInBlock == |t.postings| && t.currentBlock + 1 < |t.list.blocks| ==>
              ok && t' == LoadBlock(t, t.currentBlock + 1).(currentInBlock := 1)
              && p == t.list.blocks[t.currentBlock + 1][0]
    ensures t.currentInBlock == |t.postings| && t.currentBlock + 1 == |t.list.blocks| ==> !ok
  {
    t' := t;
    p := BlockPosting(0, 0, 0);
    while t'.currentInBlock >= t'.skip.docCount
      invariant ValidIterator(t') && !t'.finished && t'.list == t.list
      invariant t' == t || (t.currentInBlock == |t.postings| && t.currentBlock + 1 < |t.list.blocks|
                            && t' == LoadBlock(t, t.currentBlock + 1))
      decreases |t.list.blocks| - t'.currentBlock
    {
      t' := t'.(currentBlock := t'.currentBlock + 1);
      if t'.currentBlock >= |t'.list.blocks| {
        t' := t'.(finished := true);
        return t', false, p;
      }
      t' := LoadBlock(t', t'.currentBlock);
    }
    p := t'.postings[t'.currentInBlock];
    t' := t'.(currentInBlock := t'.currentInBlock + 1);
    return t', true, p;
  }

  lemma AscendingRest(l: TermList, b: nat, j: nat, f: Filter)
    requires ValidList(l) && b < |l.blocks| && j < |l.blocks[b]| && f.maxDocId < l.blocks[b][j].docId
    ensures forall k :: j <= k < |l.blocks[b]| ==> !Passes(f, l.blocks[b][k].docId)
  {
    assert forall k :: j <= k < |l.blocks[b]| ==> f.maxDocId < l.blocks[b][k].docId;
  }

  /** The iterator has block i of `l` loaded and will hand out its posting j next. */
  ghost predicate Standing(t: TermState, l: TermList, i: nat, j: nat) {
    && ValidIterator(t) && !t.finished && t.list == l
    && t.currentBlock == i && t.currentInBlock == j && i < |l.blocks|
  }

  lemma Loaded(t: TermState, i: nat)
    requires ValidIterator(t) && i < |t.list.blocks|
    ensures i < |t.list.skips| && Standing(LoadBlock(t.(finished := false), i), t.list, i, 0)
  {
  }

  /** `next` as the scoring loop sees it: it leaves block i exactly when all its postings were handed out. */
  method NextInBlock(t: TermState, ghost l: TermList, i: nat, ghost j: nat)
    returns (t': TermState, ok: bool, p: BlockPosting)
    requires Standing(t, l, i, j) && i < |l.blocks| && j <= |l.blocks[i]|
    ensures ValidIterator(t') && t'.list == l
    ensures ok && t'.currentBlock == i <==> j < |l.blocks[i]|
    ensures j < |l.blocks[i]| ==> Standing(t', l, i, j + 1) && p == l.blocks[i][j]
  {
    t', ok, p := Next(t);
  }

  // ---------- one block ----------

  /** The first j postings of a block have been offered. */
  ghost predicate ScoredTo(scores: multiset<real>, prior: multiset<real>, ps: seq<BlockPosting>, j: nat,
                           weigh: (nat, nat) -> real, f: Filter, k: nat) {
    j <= |ps| && IsTopK(scores, prior + BlockScores(ps[..j], weigh, f), k)
  }

  lemma ScoredNone(prior: multiset<real>, ps: seq<BlockPosting>, weigh: (nat, nat) -> real, f: Filter, k: nat)
    requires |prior| <= k
    ensures ScoredTo(prior, prior, ps, 0, weigh, f, k)
  {
    TopKAll(prior, k);
    assert prior + BlockScores(ps[..0], weigh, f) == prior;
  }

  lemma ScoredOne(before: multiset<real>, after: multiset<real>, prior: multiset<real>, ps: seq<BlockPosting>, j: nat,
                  weigh: (nat, nat) -> real, f: Filter, k: nat)
    requires j < |ps| && ScoredTo(before, prior, ps, j, weigh, f, k)
    requires if Passes(f, ps[j].docId)
             then IsTopK(after, before + multiset{weigh(ps[j].frequency, ps[j].fieldnorm)}, k)
             else after == before
    ensures ScoredTo(after, prior, ps, j + 1, weigh, f, k)
  {
    hide IsTopK;
    assert ps[..j + 1][..j] == ps[..j];
    var done := BlockScores(ps[..j], weigh, f);
    if Passes(f, ps[j].docId) {
      var one := multiset{weigh(ps[j].frequency, ps[j].fieldnorm)};
      TopKCompose(before, prior + done, after, one, k);
      assert prior + (done + one) == prior + done + one;
    } else {
      assert prior + (done + multiset{}) == prior + done;
    }
  }

  lemma ScoredAll(scores: multiset<real>, prior: multiset<real>, ps: seq<BlockPosting>, j: nat,
                  weigh: (nat, nat) -> real, f: Filter, k: nat)
    requires ScoredTo(scores, prior, ps, j, weigh, f, k)
    requires forall i :: j <= i < |ps| ==> !Passes(f, ps[i].docId)
    ensures IsTopK(scores, prior + BlockScores(ps, weigh, f), k)
  {
    hide IsTopK;
    RestFails(ps, j, weigh, f);
  }

  /** The filter tests and the offer for one posting. */
  method ScorePosting(heap: TopKHeap, rootBlock: nat, p: BlockPosting, weigh: (nat, nat) -> real, f: Filter)
    requires heap.Valid() && rootBlock < INVALID_BLOCK_NUMBER && p.docId <= f.maxDocId
    modifies heap.Repr
    ensures heap.Valid()
    ensures if Passes(f, p.docId)
            then IsTopK(heap.Scores(), old(heap.Scores()) + multiset{weigh(p.frequency, p.fieldnorm)}, heap.capacity)
            else heap.Scores() == old(heap.Scores())
    ensures heap.Held() <= old(heap.Held()) +
                           if Passes(f, p.docId)
                           then multiset{SlotFor(rootBlock, p.docId, weigh(p.frequency, p.fieldnorm))} else multiset{}
  {
    if p.docId < f.minDocId { return; }
    if f.tenantId != 0 && f.maxDocId == UINT32_MAX && GetTenantId(f.tenants, p.docId) != f.tenantId { return; }
    var score := weigh(p.frequency, p.fieldnorm);
    OfferScore(heap, rootBlock, p.docId, score);
  }

  /** Both halves of the progress through block ps, as the loop carries them. */
  ghost predicate Progress(heap: TopKHeap, prior: multiset<real>, start: multiset<Entry>, ps: seq<BlockPosting>, j: nat,
                           weigh: (nat, nat) -> real, f: Filter, rootBlock: nat)
    reads heap.Repr
  {
    && heap.Valid() && ScoredTo(heap.Scores(), prior, ps, j, weigh, f, heap.capacity)
    && SlottedTo(heap.Held(), start, ps, j, weigh, f, rootBlock)
  }

  lemma ProgressStarts(heap: TopKHeap, ps: seq<BlockPosting>, weigh: (nat, nat) -> real, f: Filter, rootBlock: nat)
    requires heap.Valid() && rootBlock < INVALID_BLOCK_NUMBER
    ensures Progress(heap, heap.Scores(), heap.Held(), ps, 0, weigh, f, rootBlock)
  {
    heap.SizeIsCard();
    ScoredNone(heap.Scores(), ps, weigh, f, heap.capacity);
    SlottedNone(heap.Held(), ps, weigh, f, rootBlock);
  }

  lemma ProgressEnds(heap: TopKHeap, prior: multiset<real>, start: multiset<Entry>, ps: seq<BlockPosting>, j: nat,
                     weigh: (nat, nat) -> real, f: Filter, rootBlock: nat)
    requires Progress(heap, prior, start, ps, j, weigh, f, rootBlock) && rootBlock < INVALID_BLOCK_NUMBER
    requires forall i :: j <= i < |ps| ==> !Passes(f, ps[i].docId)
    ensures heap.Valid() && IsTopK(heap.Scores(), prior + BlockScores(ps, weigh, f), heap.capacity)
    ensures heap.Held() <= start + BlockSlots(ps, weigh, f, rootBlock)
  {
    ScoredAll(heap.Scores(), prior, ps, j, weigh, f, heap.capacity);
    SlottedAll(heap.Held(), start, ps, j, weigh, f, rootBlock);
  }

  method ScoreNext(heap: TopKHeap, rootBlock: nat, p: BlockPosting, weigh: (nat, nat) -> real, f: Filter,
                   ghost prior: multiset<real>, ghost start: multiset<Entry>, ghost ps: seq<BlockPosting>, ghost j: nat)
    requires rootBlock < INVALID_BLOCK_NUMBER && p.docId <= f.maxDocId && j < |ps| && p == ps[j]
    requires Progress(heap, prior, start, ps, j, weigh, f, rootBlock)
    modifies heap.Repr
    ensures Progress(heap, prior, start, ps, j + 1, weigh, f, rootBlock)
  {
    hide IsTopK, ScoredTo, SlottedTo, Passes;
    ghost var before, held := heap.Scores(), heap.Held();
    ScorePosting(heap, rootBlock, p, weigh, f);
    ScoredOne(before, heap.Scores(), prior, ps, j, weigh, f, heap.capacity);
    SlottedOne(held, heap.Held(), start, ps, j, weigh, f, rootBlock);
  }

  /**
   * Score block i through the iterator. The loop is left when the iterator has advanced into
   * the next block, whose first posting is then not scored here.
   */
  method ScoreBlock(heap: TopKHeap, rootBlock: nat, t0: TermState, i: nat, f: Filter) returns (t: TermState)
    requires heap.Valid() && rootBlock < INVALID_BLOCK_NUMBER
    requires ValidIterator(t0) && ValidList(t0.list) && i < |t0.list.blocks|
    modifies heap.Repr
    ensures heap.Valid() && ValidIterator(t) && t.list == t0.list
    ensures IsTopK(heap.Scores(), old(heap.Scores()) + BlockScores(t0.list.blocks[i], t0.list.weigh, f), heap.capacity)
    ensures heap.Held() <= old(heap.Held()) + BlockSlots(t0.list.blocks[i], t0.list.weigh, f, rootBlock)
  {
    ghost var ps, weigh := t0.list.blocks[i], t0.list.weigh;
    ghost var prior, start := heap.Scores(), heap.Held();
    hide *;
    Loaded(t0, i);
    t := LoadBlock(t0.(finished := false), i);
    ProgressStarts(heap, ps, weigh, f, rootBlock);
    ghost var j := 0;
    while true
      invariant 0 <= j <= |ps| && Standing(t, t0.list, i, j)
      invariant Progress(heap, prior, start, ps, j, weigh, f, rootBlock)
      decreases |ps| - j
    {
      var ok, p;
      t, ok, p := NextInBlock(t, t0.list, i, j);
      if !ok || t.currentBlock != i {
        ProgressEnds(heap, prior, start, ps, j, weigh, f, rootBlock);
        return;
      }
      if p.docId > f.maxDocId {
        AscendingRest(t0.list, i, j, f);
        ProgressEnds(heap, prior, start, ps, j, weigh, f, rootBlock);
        return;
      }
      ScoreNext(heap, rootBlock, p, t0.list.weigh, f, prior, start, ps, j);
      j := j + 1;
    }
  }

  // ---------- the whole list ----------

  /** When the doc range alone selects the tenant, the documents in it are that tenant's. */
  ghost predicate RangeSelects(l: TermList, f: Filter) {
    f.tenantId != 0 && f.maxDocId != UINT32_MAX ==>
      forall b, j :: 0 <= b < |l.blocks| && 0 <= j < |l.blocks[b]| &&
                     f.minDocId <= l.blocks[b][j].docId <= f.maxDocId ==>
                       GetTenantId(f.tenants, l.blocks[b][j].docId) == f.tenantId
  }

  /** What the scan needs to read a list: the writers' layout and one bound per block, however good. */
  ghost predicate ReadableTerm(l: TermList, f: Filter) {
    ValidList(l) && |l.blockMax| == |l.blocks| && TenantMarksHold(l, f.tenants) && RangeSelects(l, f)
  }

  ghost predicate ValidTerm(l: TermList, f: Filter) {
    ReadableTerm(l, f) && ScoresBounded(l)
  }

  ghost predicate NonePasses(ps: seq<BlockPosting>, f: Filter) {
    forall j :: 0 <= j < |ps| ==> !Passes(f, ps[j].docId)
  }

  lemma BeforeRange(l: TermList, f: Filter, b: nat)
    requires ReadableTerm(l, f) && b < |l.blocks| && l.skips[b].lastDocId < f.minDocId
    ensures NonePasses(l.blocks[b], f)
  {
    forall j | 0 <= j < |l.blocks[b]|
      ensures !Passes(f, l.blocks[b][j].docId)
    {
      InBlockAtMostLast(l, b, j);
    }
  }

  lemma OtherTenant(l: TermList, f: Filter, b: nat)
    requires ReadableTerm(l, f) && b < |l.blocks| && f.tenantId != 0
    requires l.skips[b].tenantMode.TenantSingle? && l.skips[b].tenantLow16 != f.tenantId % 0x1_0000
    ensures NonePasses(l.blocks[b], f)
  {
    forall j | 0 <= j < |l.blocks[b]|
      ensures !Passes(f, l.blocks[b][j].docId)
    {
      assert GetTenantId(f.tenants, l.blocks[b][j].docId) % 0x1_0000 == l.skips[b].tenantLow16;
    }
  }

  /** The threshold test of a block: its bound is below 0 or, once the heap is full, below every held score. */
  ghost predicate BelowThreshold(scores: multiset<real>, k: nat, bound: real) {
    if |scores| < k then bound < 0.0 else forall x :: x in scores ==> bound < x
  }

  /** The scores held after block b, whatever its bound is worth. */
  ghost function AfterBlock(scores: multiset<real>, k: nat, l: TermList, b: nat, f: Filter): multiset<real>
    requires b < |l.blocks| == |l.blockMax|
  {
    if BelowThreshold(scores, k, l.blockMax[b]) then scores else Best(scores + BlockScores(l.blocks[b], l.weigh, f), k)
  }

  /** The scores held after the first n blocks. */
  ghost function AfterBlocks(prior: multiset<real>, k: nat, l: TermList, f: Filter, n: nat): multiset<real>
    requires n <= |l.blocks| == |l.blockMax|
  {
    if n == 0 then prior else AfterBlock(AfterBlocks(prior, k, l, f, n - 1), k, l, n - 1, f)
  }

  /** A block none of whose postings passes changes nothing, scored or not. */
  lemma BlockOut(scores: multiset<real>, k: nat, l: TermList, b: nat, f: Filter)
    requires b < |l.blocks| == |l.blockMax| && NonePasses(l.blocks[b], f) && |scores| <= k
    ensures AfterBlock(scores, k, l, b, f) == scores
  {
    RestFails(l.blocks[b], 0, l.weigh, f);
    assert scores + multiset{} == scores;
    TopKAll(scores, k);
    BestIsUnique(scores, scores, k);
  }

  /** The bound of block b holds for its postings that pass. */
  ghost predicate PassingBounded(l: TermList, b: nat, f: Filter)
    requires b < |l.blocks| == |l.blockMax|
  {
    forall j :: 0 <= j < |l.blocks[b]| && Passes(f, l.blocks[b][j].docId) ==>
                  l.weigh(l.blocks[b][j].frequency, l.blocks[b][j].fieldnorm) <= l.blockMax[b]
  }

  /** With a bound that holds, the block is selected from, skipped or not. */
  lemma BoundedBlockSelects(scores: multiset<real>, k: nat, l: TermList, b: nat, f: Filter)
    requires b < |l.blocks| == |l.blockMax| && 0 < k && |scores| <= k
    requires 0.0 <= l.blockMax[b] && PassingBounded(l, b, f)
    ensures IsTopK(AfterBlock(scores, k, l, b, f), scores + BlockScores(l.blocks[b], l.weigh, f), k)
  {
    hide BlockScores;
    if BelowThreshold(scores, k, l.blockMax[b]) {
      TopKAll(scores, k);
      SkippedBlock(scores, scores, l.blocks[b], l.weigh, f, k);
    }
  }

  lemma BoundsOfBlock(l: TermList, b: nat, f: Filter)
    requires ValidTerm(l, f) && b < |l.blocks|
    ensures |l.blockMax| == |l.blocks| && 0.0 <= l.blockMax[b] && PassingBounded(l, b, f)
  {
    assert 0.0 < l.weigh(l.blocks[b][0].frequency, l.blocks[b][0].fieldnorm) <= l.blockMax[b];
  }

  /** The scores of the first i blocks have been selected from. */
  ghost predicate ListedTo(scores: multiset<real>, prior: multiset<real>, l: TermList, i: nat, f: Filter, k: nat) {
    i <= |l.blocks| && IsTopK(scores, prior + ListScores(l.blocks[..i], l.weigh, f), k)
  }

  lemma ListedBlock(before: multiset<real>, after: multiset<real>, prior: multiset<real>, l: TermList, i: nat,
                    f: Filter, k: nat)
    requires i < |l.blocks| && ListedTo(before, prior, l, i, f, k)
    requires IsTopK(after, before + BlockScores(l.blocks[i], l.weigh, f), k)
    ensures ListedTo(after, prior, l, i + 1, f, k)
  {
    hide IsTopK;
    var done, one := ListScores(l.blocks[..i], l.weigh, f), BlockScores(l.blocks[i], l.weigh, f);
    assert l.blocks[..i + 1][..i] == l.blocks[..i];
    TopKCompose(before, prior + done, after, one, k);
    assert prior + (done + one) == prior + done + one;
  }

  lemma ListSlotsStep(l: TermList, i: nat, f: Filter, rootBlock: nat)
    requires rootBlock < INVALID_BLOCK_NUMBER && i < |l.blocks|
    ensures ListSlots(l.blocks[..i + 1], l.weigh, f, rootBlock) ==
            ListSlots(l.blocks[..i], l.weigh, f, rootBlock) + BlockSlots(l.blocks[i], l.weigh, f, rootBlock)
  {
    assert l.blocks[..i + 1][..i] == l.blocks[..i];
  }

  lemma ListedEnds(scores: multiset<real>, prior: multiset<real>, l: TermList, f: Filter, k: nat)
    ensures |prior| <= k ==> ListedTo(prior, prior, l, 0, f, k)
    ensures ListedTo(scores, prior, l, |l.blocks|, f, k) ==>
              IsTopK(scores, prior + ListScores(l.blocks, l.weigh, f), k)
  {
    if |prior| <= k { TopKAll(prior, k); }
    assert prior + ListScores(l.blocks[..0], l.weigh, f) == prior;
    assert l.blocks[..|l.blocks|] == l.blocks;
  }

  lemma IteratorAtFirst(l: TermList)
    requires ValidList(l) && l.found && l.blocks != []
    ensures ValidIterator(TermState(l, 0, 0, false, l.skips[0], l.blocks[0]))
  {
  }

  lemma SkipCount(l: TermList, f: Filter)
    requires ReadableTerm(l, f)
    ensures |l.skips| == |l.blocks| == |l.blockMax|
  {
  }

  lemma ListOfTerm(l: TermList, f: Filter)
    requires ReadableTerm(l, f)
    ensures ValidList(l)
  {
  }

  /** The threshold of the heap decides the test. */
  lemma ThresholdDecides(scores: multiset<real>, k: nat, bound: real, t: real)
    requires 0 < k && |scores| <= k
    requires |scores| < k ==> t == 0.0
    requires |scores| >= k ==> t in scores && Beats(scores, k, t)
    ensures bound < t <==> BelowThreshold(scores, k, bound)
  {
  }

  /** One block: skipped for its range, its bound or its tenant mark, or else scored. */
  method VisitBlock(heap: TopKHeap, rootBlock: nat, t: TermState, i: nat, f: Filter) returns (t': TermState)
    requires heap.Valid() && rootBlock < INVALID_BLOCK_NUMBER
    requires ValidIterator(t) && i < |t.list.blocks| && ReadableTerm(t.list, f)
    modifies heap.Repr
    ensures heap.Valid() && ValidIterator(t') && t'.list == t.list
    ensures |t.list.blockMax| == |t.list.blocks|
    ensures heap.Scores() == AfterBlock(old(heap.Scores()), heap.capacity, t.list, i, f)
    ensures heap.Held() <= old(heap.Held()) + BlockSlots(t.list.blocks[i], t.list.weigh, f, rootBlock)
  {
    hide IsTopK, ReadableTerm, BlockScores, BlockSlots, NonePasses, ValidIterator, BelowThreshold;
    var l := t.list;
    SkipCount(l, f);
    ListOfTerm(l, f);
    heap.SizeIsCard();
    ghost var prior := heap.Scores();
    var threshold := heap.Threshold();
    ThresholdDecides(prior, heap.capacity, l.blockMax[i], threshold);
    var skip := l.skips[i];
    if skip.lastDocId < f.minDocId {
      BeforeRange(l, f, i);
      BlockOut(prior, heap.capacity, l, i, f);
      return t;
    }
    if l.blockMax[i] < threshold {
      return t;
    }
    if f.tenantId != 0 && skip.tenantMode.TenantSingle? && skip.tenantLow16 != f.tenantId % 0x1_0000 {
      OtherTenant(l, f, i);
      BlockOut(prior, heap.capacity, l, i, f);
      return t;
    }
    t' := ScoreBlock(heap, rootBlock, t, i, f);
    BestIsUnique(heap.Scores(), prior + BlockScores(l.blocks[i], l.weigh, f), heap.capacity);
  }

  /** What was selected from the first n blocks, when their bounds hold. */
  lemma {:induction false} BoundedListSelects(prior: multiset<real>, k: nat, l: TermList, f: Filter, n: nat)
    requires n <= |l.blocks| == |l.blockMax| && 0 < k && |prior| <= k
    requires forall b :: 0 <= b < |l.blocks| ==> 0.0 <= l.blockMax[b] && PassingBounded(l, b, f)
    ensures ListedTo(AfterBlocks(prior, k, l, f, n), prior, l, n, f, k)
  {
    hide IsTopK, AfterBlock, ListedTo, PassingBounded;
    if n == 0 {
      ListedEnds(prior, prior, l, f, k);
    } else {
      BoundedListSelects(prior, k, l, f, n - 1);
      var before := AfterBlocks(prior, k, l, f, n - 1);
      ListedSize(before, prior, l, n - 1, f, k);
      BoundedBlockSelects(before, k, l, n - 1, f);
      ListedBlock(before, AfterBlock(before, k, l, n - 1, f), prior, l, n - 1, f, k);
    }
  }

  lemma ListedSize(scores: multiset<real>, prior: multiset<real>, l: TermList, n: nat, f: Filter, k: nat)
    requires ListedTo(scores, prior, l, n, f, k)
    ensures |scores| <= k
  {
  }

  /** The scores of every posting of the term that passes: none when the segment does not have the term. */
  ghost function PassingScores(l: TermList, f: Filter): multiset<real> {
    if l.found then ListScores(l.blocks, l.weigh, f) else multiset{}
  }

  /** The scores held after scanning a segment for the term, whatever the block bounds are worth. */
  ghost function AfterSegment(prior: multiset<real>, k: nat, l: TermList, f: Filter): multiset<real>
    requires l.found ==> |l.blockMax| == |l.blocks|
  {
    if l.found then AfterBlocks(prior, k, l, f, |l.blocks|) else prior
  }

  lemma BoundedSegmentSelects(prior: multiset<real>, k: nat, l: TermList, f: Filter)
    requires (l.found ==> |l.blockMax| == |l.blocks|) && 0 < k && |prior| <= k
    ensures (l.found ==> ValidTerm(l, f)) ==> IsTopK(AfterSegment(prior, k, l, f), prior + PassingScores(l, f), k)
  {
    hide IsTopK, AfterBlocks, ListedTo, PassingBounded;
    TopKAll(prior, k);
    assert prior + multiset{} == prior;
    if l.found && ValidTerm(l, f) {
      forall b | 0 <= b < |l.blocks|
        ensures 0.0 <= l.blockMax[b] && PassingBounded(l, b, f)
      {
        BoundsOfBlock(l, b, f);
      }
      BoundedListSelects(prior, k, l, f, |l.blocks|);
      ListedEnds(AfterBlocks(prior, k, l, f, |l.blocks|), prior, l, f, k);
    }
  }

  /**
   * score_segment_single_term_bmw. The scores held afterwards are those of visiting block after
   * block. When the block bounds hold they are the k best of what was held and of the score of
   * every posting that passes the filter: no block is scored twice, and no skipped block or
   * posting could have entered.
   */
  method ScoreSegmentSingleTermBmw(heap: TopKHeap, rootBlock: nat, l: TermList, f: Filter)
    requires heap.Valid() && rootBlock < INVALID_BLOCK_NUMBER
    requires l.found ==> ReadableTerm(l, f)
    modifies heap.Repr
    ensures heap.Valid()
    ensures l.found ==> |l.blockMax| == |l.blocks|
    ensures heap.Scores() == AfterSegment(old(heap.Scores()), heap.capacity, l, f)
    ensures (l.found ==> ValidTerm(l, f)) ==>
              IsTopK(heap.Scores(), old(heap.Scores()) + PassingScores(l, f), heap.capacity)
    ensures heap.Held() <= old(heap.Held()) + if l.found then ListSlots(l.blocks, l.weigh, f, rootBlock) else multiset{}
  {
    hide IsTopK, ValidTerm, ReadableTerm, PassingScores, AfterBlock, AfterBlocks, AfterSegment, ValidIterator,
        ValidList, ListSlots;
    ghost var start, prior, k := heap.Held(), heap.Scores(), heap.capacity;
    heap.SizeIsCard();
    heap.HasRoom();
    if l.found { SkipCount(l, f); }
    BoundedSegmentSelects(prior, k, l, f);
    SegmentStarts(prior, k, l, f, rootBlock);
    if !l.found { return; }
    ListOfTerm(l, f);
    if |l.blocks| == 0 { return; }
    IteratorAtFirst(l);
    var t := TermState(l, 0, 0, false, l.skips[0], l.blocks[0]);
    var i := 0;
    while i < |l.blocks|
      invariant 0 <= i <= |l.blocks| && heap.Valid() && ValidIterator(t) && t.list == l
      invariant heap.Scores() == AfterBlocks(prior, k, l, f, i)
      invariant heap.Held() <= start + ListSlots(l.blocks[..i], l.weigh, f, rootBlock)
    {
      t := VisitBlock(heap, rootBlock, t, i, f);
      NextBlock(prior, k, l, f, i);
      ListSlotsStep(l, i, f, rootBlock);
      i := i + 1;
    }
    assert l.blocks[..i] == l.blocks;
  }

  lemma SegmentStarts(prior: multiset<real>, k: nat, l: TermList, f: Filter, rootBlock: nat)
    requires rootBlock < INVALID_BLOCK_NUMBER && (l.found ==> |l.blockMax| == |l.blocks|)
    ensures !l.found ==> AfterSegment(prior, k, l, f) == prior
    ensures l.found ==>
              AfterSegment(prior, k, l, f) == AfterBlocks(prior, k, l, f, |l.blocks|) &&
              AfterBlocks(prior, k, l, f, 0) == prior
    ensures ListSlots(l.blocks[..0], l.weigh, f, rootBlock) == multiset{}
  {
  }

  lemma NextBlock(prior: multiset<real>, k: nat, l: TermList, f: Filter, i: nat)
    requires i < |l.blocks| == |l.blockMax|
    ensures AfterBlocks(prior, k, l, f, i + 1) == AfterBlock(AfterBlocks(prior, k, l, f, i), k, l, i, f)
  {
  }

  // ---------- the 16-bit length ----------

  /** The iterator hands out the decoded length as a uint16; the multi-term path does not. */
  function PostingLength16(norm: nat): nat
    requires norm < 256
  {
    DecodeFieldnorm(norm) % 0x1_0000
  }

  /** The cast takes off a multiple of 65,536 and leaves less than that. */
  lemma LengthCast(norm: nat)
    requires norm < 256
    ensures PostingLength16(norm) < 0x1_0000
    ensures exists k: nat :: DecodeFieldnorm(norm) == 0x1_0000 * k + PostingLength16(norm)
  {
    hide DecodeFieldnorm;
    assert DecodeFieldnorm(norm) == 0x1_0000 * (DecodeFieldnorm(norm) / 0x1_0000) + PostingLength16(norm);
  }

  /** Both scoring paths give a posting the same length exactly for length codes below 136. */
  lemma LengthCastExactIff(norm: nat)
    requires norm < 256
    ensures PostingLength16(norm) == DecodeFieldnorm(norm) <==> norm < 136
  {
    assert DecodeFieldnorm(135) == 61464;
    assert DecodeFieldnorm(136) == 65560;
    if norm < 135 {
      TableAscends(norm, 135);
    } else if 136 < norm {
      TableAscends(136, norm);
    }
  }
}
