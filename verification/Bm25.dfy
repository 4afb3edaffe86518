/**
 * BM25 as the weight of the searches, on lists that compaction has written: exactly when the
 * bounds computed from the stored statistics make pruning right.
 */
module Bm25 {
  import opened Exactness
  import opened Fieldnorm
  import opened ItemPointers
  import opened Merge
  import opened MergeBlocks
  import opened Postings
  import opened Scoring
  import opened SingleTerm
  import opened Sums
  import opened TopKSpec
  import opened Wand
  import opened WandSearch
  import opened WandSegment
  import opened WandSpec

  /** compute_bm25_score as score_pivot_document calls it, with a term's IDF and the index's parameters. */
  ghost function Weigh(p: Params): (nat, nat) -> real {
    (tf: nat, norm: nat) =>
      if ValidParams(p) && 0 < tf && norm < 256 then Bm25Score(p, tf, DecodeFieldnorm(norm)) else 0.0
  }

  /** compute_bm25_score as the single-term search calls it: the iterator hands it the length as a uint16. */
  ghost function Weigh16(p: Params): (nat, nat) -> real {
    (tf: nat, norm: nat) =>
      if ValidParams(p) && 0 < tf && norm < 256 then Bm25Score(p, tf, PostingLength16(norm)) else 0.0
  }

  /** tp_compute_block_max_score. */
  ghost function BoundBy(p: Params): SkipEntry -> real {
    (s: SkipEntry) =>
      if ValidParams(p) && 0 < s.blockMaxTf && s.blockMaxNorm < 256
      then BlockMaxScore(p, s.blockMaxTf, s.blockMaxNorm) else 0.0
  }

  ghost function InputFor(l: PostingList, p: Params, queryFreq: nat): TermInput {
    TermInput(true, l.blocks, l.skips, Weigh(p), BoundBy(p), queryFreq)
  }

  ghost predicate RealPostings(l: PostingList) {
    forall b :: 0 <= b < |l.blocks| ==> ValidBlock(l.blocks[b])
  }

  /** A length not so much shorter than the block's longest one that the frequency weighs more. */
  ghost predicate SafeLength(p: Params, tf: nat, dl: nat, skip: SkipEntry)
    requires ValidParams(p) && skip.blockMaxNorm < 256
  {
    tf as real * LengthNorm(p, DecodeFieldnorm(skip.blockMaxNorm)) <= skip.blockMaxTf as real * LengthNorm(p, dl)
  }

  /** Safe with the length that a search for several terms scores. */
  ghost predicate SafePosting(p: Params, q: BlockPosting, skip: SkipEntry)
    requires ValidParams(p) && q.fieldnorm < 256 && skip.blockMaxNorm < 256
  {
    SafeLength(p, q.frequency, DecodeFieldnorm(q.fieldnorm), skip)
  }

  /** Safe with the length that the single-term search scores. */
  ghost predicate Safe16(p: Params, q: BlockPosting, skip: SkipEntry)
    requires ValidParams(p) && q.fieldnorm < 256 && skip.blockMaxNorm < 256
  {
    SafeLength(p, q.frequency, PostingLength16(q.fieldnorm), skip)
  }

  ghost predicate BlockIsSafe(p: Params, block: seq<BlockPosting>, skip: SkipEntry)
    requires ValidParams(p) && ValidBlock(block) && skip.blockMaxNorm < 256
  {
    forall i :: 0 <= i < |block| ==> SafePosting(p, block[i], skip)
  }

  /** The bound from the stored statistics holds for a frequency and a length exactly when they are safe. */
  lemma LengthBoundedIff(p: Params, tf: nat, dl: nat, skip: SkipEntry)
    requires ValidParams(p) && 0.0 < p.idf && 0 < tf && 0 < skip.blockMaxTf && skip.blockMaxNorm < 256
    ensures Bm25Score(p, tf, dl) <= BoundBy(p)(skip) <==> SafeLength(p, tf, dl, skip)
    ensures 0.0 < Bm25Score(p, tf, dl) && 0.0 < BoundBy(p)(skip)
  {
    hide Bm25Score, LengthNorm, DecodeFieldnorm;
    ScoreOrderIff(p, tf, dl, skip.blockMaxTf, DecodeFieldnorm(skip.blockMaxNorm));
    ScorePositive(p, tf, dl);
    ScorePositive(p, skip.blockMaxTf, DecodeFieldnorm(skip.blockMaxNorm));
  }

  /** One posting is bounded by the stored statistics exactly when it is safe, on either path. */
  lemma PostingBoundedIff(p: Params, q: BlockPosting, skip: SkipEntry)
    requires ValidParams(p) && 0.0 < p.idf && 0 < q.frequency && q.fieldnorm < 256
    requires 0 < skip.blockMaxTf && skip.blockMaxNorm < 256
    ensures Weigh(p)(q.frequency, q.fieldnorm) <= BoundBy(p)(skip) <==> SafePosting(p, q, skip)
    ensures Weigh16(p)(q.frequency, q.fieldnorm) <= BoundBy(p)(skip) <==> Safe16(p, q, skip)
    ensures 0.0 < Weigh(p)(q.frequency, q.fieldnorm) && 0.0 < BoundBy(p)(skip)
  {
    hide Bm25Score, DecodeFieldnorm, PostingLength16, BoundBy, SafeLength;
    LengthBoundedIff(p, q.frequency, DecodeFieldnorm(q.fieldnorm), skip);
    LengthBoundedIff(p, q.frequency, PostingLength16(q.fieldnorm), skip);
  }

  /** The cast only shortens, so what is safe in 16 bits is safe; below length code 136 the two agree. */
  lemma SafeCast(p: Params, q: BlockPosting, skip: SkipEntry)
    requires ValidParams(p) && q.fieldnorm < 256 && skip.blockMaxNorm < 256
    ensures Safe16(p, q, skip) ==> SafePosting(p, q, skip)
    ensures q.fieldnorm < 136 ==> (Safe16(p, q, skip) <==> SafePosting(p, q, skip))
  {
    hide DecodeFieldnorm, LengthNorm;
    LengthCastExactIff(q.fieldnorm);
    var dl, dl16 := DecodeFieldnorm(q.fieldnorm), PostingLength16(q.fieldnorm);
    LengthNormBounds(p, dl16, dl);
    MulMonotone(skip.blockMaxTf as real, LengthNorm(p, dl16), LengthNorm(p, dl));
  }

  /** The bound of a block holds for all its postings. */
  ghost predicate Bounded(block: seq<BlockPosting>, skip: SkipEntry, weigh: (nat, nat) -> real,
                          bound: SkipEntry -> real) {
    forall j :: 0 <= j < |block| ==> 0.0 < weigh(block[j].frequency, block[j].fieldnorm) <= bound(skip)
  }

  lemma StatsInRange(block: seq<BlockPosting>, maxTf: nat, maxNorm: nat)
    requires ValidBlock(block) && IsBlockStats(block, maxTf, maxNorm)
    ensures 0 < maxTf && maxNorm < 256
  {
  }

  lemma BlockBoundedIff(p: Params, block: seq<BlockPosting>, skip: SkipEntry)
    requires ValidParams(p) && 0.0 < p.idf && ValidBlock(block)
    requires IsBlockStats(block, skip.blockMaxTf, skip.blockMaxNorm) && skip.blockMaxNorm < 256
    ensures Bounded(block, skip, Weigh(p), BoundBy(p)) <==> BlockIsSafe(p, block, skip)
  {
    hide SafePosting, IsBlockStats, Weigh, BoundBy;
    StatsInRange(block, skip.blockMaxTf, skip.blockMaxNorm);
    forall j | 0 <= j < |block|
      ensures 0.0 < Weigh(p)(block[j].frequency, block[j].fieldnorm)
      ensures Weigh(p)(block[j].frequency, block[j].fieldnorm) <= BoundBy(p)(skip) <==> SafePosting(p, block[j], skip)
    {
      PostingBoundedIff(p, block[j], skip);
    }
  }

  /** Every block of the list is safe to prune by its stored statistics. */
  ghost predicate ListIsSafe(p: Params, l: PostingList)
    requires ValidParams(p) && RealPostings(l)
  {
    |l.skips| == |l.blocks|
    && forall b :: 0 <= b < |l.blocks| ==> l.skips[b].blockMaxNorm < 256 && BlockIsSafe(p, l.blocks[b], l.skips[b])
  }

  ghost predicate ListIsBounded(l: PostingList, weigh: (nat, nat) -> real, bound: SkipEntry -> real) {
    |l.skips| == |l.blocks| && forall b :: 0 <= b < |l.blocks| ==> Bounded(l.blocks[b], l.skips[b], weigh, bound)
  }

  lemma ListBoundedIff(p: Params, l: PostingList, tenants: seq<nat>)
    requires ValidParams(p) && 0.0 < p.idf && RealPostings(l) && AllDescribed(l, tenants)
    ensures ListIsBounded(l, Weigh(p), BoundBy(p)) <==> ListIsSafe(p, l)
  {
    hide ValidBlock, IsBlockStats, Bounded, BlockIsSafe, MarkHolds, Weigh, BoundBy;
    forall b | 0 <= b < |l.blocks|
      ensures l.skips[b].blockMaxNorm < 256
      ensures ValidBlock(l.blocks[b]) &&
              (Bounded(l.blocks[b], l.skips[b], Weigh(p), BoundBy(p)) <==> BlockIsSafe(p, l.blocks[b], l.skips[b]))
    {
      assert Describes(l.skips[b], l.blocks[b], tenants);
      StatsInRange(l.blocks[b], l.skips[b].blockMaxTf, l.skips[b].blockMaxNorm);
      BlockBoundedIff(p, l.blocks[b], l.skips[b]);
    }
  }

  /** What a multi-term search requires of a compacted list holds exactly when the list is safe to prune. */
  lemma CompactedInputValidIff(segs: seq<SegmentData>, m: SegmentData, k: nat, p: Params, queryFreq: nat)
    requires ValidSegment(m) && IsCompaction(segs, m) && k < |m.lists| && |m.lists[k].blocks| <= 65535
    requires RealPostings(m.lists[k]) && ValidParams(p) && 0.0 < p.idf && 0 < queryFreq
    ensures ValidInput(InputFor(m.lists[k], p, queryFreq), m.docs.tenants) <==> ListIsSafe(p, m.lists[k])
  {
    var l, input := m.lists[k], InputFor(m.lists[k], p, queryFreq);
    CompactedListIsSearchable(segs, m, k, Weigh(p), queryFreq, BoundsOf(input), InputList(input).maxScore);
    assert InputList(input) == AsTermList(l, Weigh(p), queryFreq, BoundsOf(input), InputList(input).maxScore);
    ListBoundedIff(p, l, m.docs.tenants);
    InputBoundedIff(l, p, queryFreq, m.docs.tenants);
  }

  lemma InputBoundedIff(l: PostingList, p: Params, queryFreq: nat, tenants: seq<nat>)
    requires ValidList(InputList(InputFor(l, p, queryFreq))) &&
             TenantMarksHold(InputList(InputFor(l, p, queryFreq)), tenants)
    requires 0 < queryFreq
    ensures ValidInput(InputFor(l, p, queryFreq), tenants) <==> ListIsBounded(l, Weigh(p), BoundBy(p))
  {
    hide Weigh, BoundBy, TenantMarksHold;
  }

  /** Without length normalization every compacted list is safe to prune. */
  lemma SafeWithoutNormalization(p: Params, l: PostingList, tenants: seq<nat>)
    requires ValidParams(p) && p.b == 0.0 && RealPostings(l) && AllDescribed(l, tenants)
    ensures ListIsSafe(p, l)
  {
    hide DecodeFieldnorm, MarkHolds;
    forall b | 0 <= b < |l.blocks|
      ensures l.skips[b].blockMaxNorm < 256 && BlockIsSafe(p, l.blocks[b], l.skips[b])
    {
      assert Describes(l.skips[b], l.blocks[b], tenants);
    }
  }

  // ---------- the single-term search ----------

  /** A compacted list as the single-term search scans it: scored with 16-bit lengths, bounded by decoded ones. */
  ghost function ViewOf(l: PostingList, p: Params): TermList {
    AsTermList(l, Weigh16(p), 1, BoundsOf(InputFor(l, p, 1)), 0.0)
  }

  /** Every posting of the block that passes the filter is safe with its 16-bit length. */
  ghost predicate PassingSafe(p: Params, l: PostingList, b: nat, f: Filter)
    requires ValidParams(p) && RealPostings(l) && b < |l.blocks| == |l.skips| && l.skips[b].blockMaxNorm < 256
  {
    forall j :: 0 <= j < |l.blocks[b]| && Passes(f, l.blocks[b][j].docId) ==> Safe16(p, l.blocks[b][j], l.skips[b])
  }

  ghost predicate ListPassingSafe(p: Params, l: PostingList, f: Filter)
    requires ValidParams(p) && RealPostings(l)
  {
    |l.skips| == |l.blocks|
    && forall b :: 0 <= b < |l.blocks| ==> l.skips[b].blockMaxNorm < 256 && PassingSafe(p, l, b, f)
  }

  lemma ViewShape(l: PostingList, p: Params, tenants: seq<nat>)
    requires AllDescribed(l, tenants)
    ensures var view := ViewOf(l, p);
            |view.blockMax| == |view.blocks| == |l.skips| && view.blocks == l.blocks && view.weigh == Weigh16(p)
            && forall b :: 0 <= b < |l.blocks| ==> view.blockMax[b] == BoundBy(p)(l.skips[b])
  {
    hide Describes, Weigh16, BoundBy;
  }

  lemma PassingBoundedIff(p: Params, l: PostingList, tenants: seq<nat>, b: nat, f: Filter)
    requires ValidParams(p) && 0.0 < p.idf && RealPostings(l) && AllDescribed(l, tenants) && b < |l.blocks|
    ensures l.skips[b].blockMaxNorm < 256 && |ViewOf(l, p).blockMax| == |ViewOf(l, p).blocks| == |l.blocks|
    ensures 0.0 <= ViewOf(l, p).blockMax[b]
    ensures PassingBounded(ViewOf(l, p), b, f) <==> PassingSafe(p, l, b, f)
  {
    hide ValidBlock, Weigh, Weigh16, BoundBy, SafePosting, Safe16, Passes, ViewOf, MarkHolds, IsBlockStats;
    ViewShape(l, p, tenants);
    assert Describes(l.skips[b], l.blocks[b], tenants) && ValidBlock(l.blocks[b]);
    StatsInRange(l.blocks[b], l.skips[b].blockMaxTf, l.skips[b].blockMaxNorm);
    forall j | 0 <= j < |l.blocks[b]|
      ensures l.blocks[b][j].fieldnorm < 256 && 0.0 < BoundBy(p)(l.skips[b])
      ensures Weigh16(p)(l.blocks[b][j].frequency, l.blocks[b][j].fieldnorm) <= BoundBy(p)(l.skips[b])
              <==> Safe16(p, l.blocks[b][j], l.skips[b])
    {
      RealPosting(l.blocks[b], j);
      PostingBoundedIff(p, l.blocks[b][j], l.skips[b]);
    }
    assert 0.0 < BoundBy(p)(l.skips[b]) by { assert |l.blocks[b]| > 0; }
  }

  lemma RealPosting(block: seq<BlockPosting>, j: nat)
    requires ValidBlock(block) && j < |block|
    ensures 0 < block[j].frequency && block[j].fieldnorm < 256
  {
  }

  /** Skipping a block of a compacted list below the threshold is right exactly when its passing postings are safe in 16 bits. */
  lemma CompactedSkipRightIff(p: Params, l: PostingList, tenants: seq<nat>, b: nat, f: Filter)
    requires ValidParams(p) && 0.0 < p.idf && RealPostings(l) && AllDescribed(l, tenants) && b < |l.blocks|
    ensures l.skips[b].blockMaxNorm < 256
    ensures SkipIsRight(BlockScores(l.blocks[b], Weigh16(p), f), BoundBy(p)(l.skips[b]), true) <==>
            PassingSafe(p, l, b, f)
  {
    hide *;
    PassingBoundedIff(p, l, tenants, b, f);
    ViewShape(l, p, tenants);
    BlockSkipRightIff(ViewOf(l, p), b, f);
  }

  /**
   * The single-term search of a compacted segment selects the k best from every heap if and only if
   * every posting that passes the filter is safe with its 16-bit length. (`k` is the term's place in the dictionary.)
   */
  lemma CompactedSearchExactIff(segs: seq<SegmentData>, m: SegmentData, k: nat, p: Params, f: Filter)
    requires ValidSegment(m) && IsCompaction(segs, m) && k < |m.lists|
    requires RealPostings(m.lists[k]) && ValidParams(p) && 0.0 < p.idf
    ensures |ViewOf(m.lists[k], p).blockMax| == |ViewOf(m.lists[k], p).blocks|
    ensures AlwaysSelects(ViewOf(m.lists[k], p), f) <==> ListPassingSafe(p, m.lists[k], f)
  {
    var l := m.lists[k];
    assert AllDescribed(l, m.docs.tenants);
    hide Meaning, Describes, ViewOf, AlwaysSelects, PassingBounded, PassingSafe, Weigh16, BoundBy, ValidBlock;
    ViewShape(l, p, m.docs.tenants);
    forall b | 0 <= b < |l.blocks|
      ensures l.skips[b].blockMaxNorm < 256 && 0.0 <= ViewOf(l, p).blockMax[b]
      ensures PassingBounded(ViewOf(l, p), b, f) <==> PassingSafe(p, l, b, f)
    {
      PassingBoundedIff(p, l, m.docs.tenants, b, f);
    }
    SearchExactIff(ViewOf(l, p), f);
  }

  /** The filter that every document passes. */
  const EVERYTHING := Filter([], 0, 0, UINT32_MAX)

  ghost predicate ShortDocuments(l: PostingList) {
    forall b, j :: 0 <= b < |l.blocks| && 0 <= j < |l.blocks[b]| ==> l.blocks[b][j].fieldnorm < 136
  }

  /**
   * Without a filter, a list on which the single-term search is exact is safe for several terms too;
   * the two conditions are the same when no length code is 136 or more.
   */
  lemma UnfilteredSafeIff(p: Params, l: PostingList)
    requires ValidParams(p) && RealPostings(l)
    requires forall b, j :: 0 <= b < |l.blocks| && 0 <= j < |l.blocks[b]| ==> l.blocks[b][j].docId <= UINT32_MAX
    ensures ListPassingSafe(p, l, EVERYTHING) ==> ListIsSafe(p, l)
    ensures ShortDocuments(l) ==> (ListPassingSafe(p, l, EVERYTHING) <==> ListIsSafe(p, l))
  {
    hide SafePosting, Safe16, ValidBlock;
    if |l.skips| == |l.blocks| {
      forall b | 0 <= b < |l.blocks| && l.skips[b].blockMaxNorm < 256
        ensures PassingSafe(p, l, b, EVERYTHING) ==> BlockIsSafe(p, l.blocks[b], l.skips[b])
        ensures ShortDocuments(l) ==> (PassingSafe(p, l, b, EVERYTHING) <==> BlockIsSafe(p, l.blocks[b], l.skips[b]))
      {
        BlockSafeCast(p, l, b);
      }
    }
  }

  lemma BlockSafeCast(p: Params, l: PostingList, b: nat)
    requires ValidParams(p) && RealPostings(l) && b < |l.blocks| == |l.skips| && l.skips[b].blockMaxNorm < 256
    requires forall j :: 0 <= j < |l.blocks[b]| ==> l.blocks[b][j].docId <= UINT32_MAX
    ensures PassingSafe(p, l, b, EVERYTHING) ==> BlockIsSafe(p, l.blocks[b], l.skips[b])
    ensures ShortDocuments(l) ==> (PassingSafe(p, l, b, EVERYTHING) <==> BlockIsSafe(p, l.blocks[b], l.skips[b]))
  {
    hide SafePosting, Safe16, ValidBlock;
    assert ValidBlock(l.blocks[b]);
    forall j | 0 <= j < |l.blocks[b]|
      ensures l.blocks[b][j].fieldnorm < 256 && Passes(EVERYTHING, l.blocks[b][j].docId)
      ensures Safe16(p, l.blocks[b][j], l.skips[b]) ==> SafePosting(p, l.blocks[b][j], l.skips[b])
      ensures l.blocks[b][j].fieldnorm < 136 ==>
                (Safe16(p, l.blocks[b][j], l.skips[b]) <==> SafePosting(p, l.blocks[b][j], l.skips[b]))
    {
      RealPosting(l.blocks[b], j);
      SafeCast(p, l.blocks[b][j], l.skips[b]);
    }
  }

  /** Without length normalization every compacted list is safe for the single-term search, too. */
  lemma PassingSafeWithoutNormalization(p: Params, l: PostingList, tenants: seq<nat>, f: Filter)
    requires ValidParams(p) && p.b == 0.0 && RealPostings(l) && AllDescribed(l, tenants)
    ensures ListPassingSafe(p, l, f)
  {
    hide DecodeFieldnorm, PostingLength16, MarkHolds;
    forall b | 0 <= b < |l.blocks|
      ensures l.skips[b].blockMaxNorm < 256 && PassingSafe(p, l, b, f)
    {
      assert Describes(l.skips[b], l.blocks[b], tenants);
    }
  }

  // ---------- documents of 65,560 words and more ----------

  /**
   * With length normalization, a posting with its block's largest frequency and a length code from
   * 136 on is never safe in 16 bits: its length is cast, the one the bound is computed from is not.
   */
  lemma LongDocumentIsUnsafe(p: Params, q: BlockPosting, skip: SkipEntry)
    requires ValidParams(p) && 0.0 < p.b && 136 <= q.fieldnorm <= skip.blockMaxNorm < 256
    requires 0 < q.frequency == skip.blockMaxTf
    ensures !Safe16(p, q, skip)
  {
    hide DecodeFieldnorm, LengthNorm;
    LengthCastExactIff(q.fieldnorm);
    if q.fieldnorm < skip.blockMaxNorm { TableAscends(q.fieldnorm, skip.blockMaxNorm); }
    var dl16, dl := PostingLength16(q.fieldnorm), DecodeFieldnorm(skip.blockMaxNorm);
    LongerNormIsLarger(p, dl16, dl);
    var m, m' := LengthNorm(p, dl16), LengthNorm(p, dl);
    ProductPositive(q.frequency as real, m' - m);
    assert q.frequency as real * m' == q.frequency as real * m + q.frequency as real * (m' - m);
  }

  /** So a compacted list with such a posting that passes the filter is not searched exactly. */
  lemma LongDocumentIsLost(segs: seq<SegmentData>, m: SegmentData, k: nat, p: Params, f: Filter, b: nat, j: nat)
    requires ValidSegment(m) && IsCompaction(segs, m) && k < |m.lists|
    requires RealPostings(m.lists[k]) && ValidParams(p) && 0.0 < p.idf && 0.0 < p.b
    requires b < |m.lists[k].blocks| == |m.lists[k].skips| && j < |m.lists[k].blocks[b]|
    requires var q := m.lists[k].blocks[b][j];
             136 <= q.fieldnorm && q.frequency == m.lists[k].skips[b].blockMaxTf && Passes(f, q.docId)
    ensures |ViewOf(m.lists[k], p).blockMax| == |ViewOf(m.lists[k], p).blocks| && !AlwaysSelects(ViewOf(m.lists[k], p), f)
  {
    hide Meaning, ViewOf, AlwaysSelects, Passes, Safe16, MarkHolds;
    CompactedSearchExactIff(segs, m, k, p, f);
    var l := m.lists[k];
    assert Describes(l.skips[b], l.blocks[b], m.docs.tenants) && ValidBlock(l.blocks[b]);
    RealPosting(l.blocks[b], j);
    StatsInRange(l.blocks[b], l.skips[b].blockMaxTf, l.skips[b].blockMaxNorm);
    LongDocumentIsUnsafe(p, l.blocks[b][j], l.skips[b]);
    assert !PassingSafe(p, l, b, f);
  }

  /** One block with one document, of 65,560 words: 24 of them after the cast. */
  const ONE_LONG_DOCUMENT := PostingList([[BlockPosting(0, 1, 136)]], [SkipEntry(0, 1, 1, 136, TenantNone, 0)], 1)

  /** A list that is safe for several terms and still not searched exactly for one. */
  lemma SafeIsNotEnough(p: Params)
    requires ValidParams(p) && 0.0 < p.idf && 0.0 < p.b
    ensures var l := ONE_LONG_DOCUMENT;
            && RealPostings(l) && AllDescribed(l, []) && ListIsSafe(p, l)
            && |ViewOf(l, p).blockMax| == |ViewOf(l, p).blocks| && !AlwaysSelects(ViewOf(l, p), EVERYTHING)
  {
    hide DecodeFieldnorm, LengthNorm, AlwaysSelects, ViewOf, Safe16;
    var l := ONE_LONG_DOCUMENT;
    assert l.blocks[0][0] == BlockPosting(0, 1, 136);
    LongDocumentIsUnsafe(p, l.blocks[0][0], l.skips[0]);
    assert !PassingSafe(p, l, 0, EVERYTHING);
    PassingBoundedIff(p, l, [], 0, EVERYTHING);
    ViewShape(l, p, []);
    SearchExactIff(ViewOf(l, p), EVERYTHING);
  }

  // ---------- searches that go wrong ----------

  /** One block: a term once in a document of length 1 and once in one of length 3. */
  const SHORT_AND_LONG := PostingList([[BlockPosting(0, 1, 1), BlockPosting(1, 1, 3)]],
                                      [SkipEntry(1, 2, 1, 3, TenantNone, 0)], 2)

  /**
   * What a bound that is too low costs. The list is as the writers store it. A heap of capacity 1
   * holds the score of one occurrence in a document of length 2: the bound, computed from length 3,
   * is below it, so the single-term search skips the block and leaves the heap as it was, although
   * the document of length 1 scores higher.
   */
  lemma SkippedBlockCanWin(p: Params)
    requires ValidParams(p) && 0.0 < p.idf && 0.0 < p.b
    ensures var l, held := ViewOf(SHORT_AND_LONG, p), multiset{Bm25Score(p, 1, 2)};
            && AllDescribed(SHORT_AND_LONG, []) && ReadableTerm(l, EVERYTHING)
            && AfterBlocks(held, 1, l, EVERYTHING, |l.blocks|) == held
            && !IsTopK(held, held + ListScores(l.blocks, l.weigh, EVERYTHING), 1)
  {
    var l, held := ViewOf(SHORT_AND_LONG, p), multiset{Bm25Score(p, 1, 2)};
    ShortAndLongIsStored();
    SmallLengths(p);
    ViewShape(SHORT_AND_LONG, p, []);
    hide Bm25Score, DecodeFieldnorm, IsBlockStats, ViewOf, PostingLength16, AfterBlocks, ListScores, AllDescribed, IsTopK;
    var best := Bm25Score(p, 1, 1);
    assert l.blockMax[0] == Bm25Score(p, 1, 3);
    OneBlockSkipped(l, EVERYTHING, held);
    FirstIsScored(l, EVERYTHING);
    NotTheBest(held, held, held + ListScores(l.blocks, l.weigh, EVERYTHING), best);
  }

  lemma OneBlockSkipped(l: TermList, f: Filter, held: multiset<real>)
    requires |l.blockMax| == |l.blocks| == 1 && BelowThreshold(held, 1, l.blockMax[0])
    ensures AfterBlocks(held, 1, l, f, 1) == held
  {
    assert AfterBlocks(held, 1, l, f, 0) == held;
  }

  lemma FirstIsScored(l: TermList, f: Filter)
    requires |l.blocks| == 1 && l.blocks[0] != [] && Passes(f, l.blocks[0][0].docId)
    ensures l.weigh(l.blocks[0][0].frequency, l.blocks[0][0].fieldnorm) in ListScores(l.blocks, l.weigh, f)
  {
    hide BlockScores, ListScores;
    var x := l.weigh(l.blocks[0][0].frequency, l.blocks[0][0].fieldnorm);
    PassingIsScored(l.blocks[0], l.weigh, f, 0);
    BlockWithinList(l, f, 1, 0, x);
    assert l.blocks[..1] == l.blocks;
  }

  /** What is selected from scores below the best one is not the best. */
  lemma NotTheBest(end: multiset<real>, low: multiset<real>, all: multiset<real>, best: real)
    requires end <= low && best in all && forall x :: x in low ==> x < best
    ensures !IsTopK(end, all, 1)
  {
    assert best !in low && best in all - end;
    assert all == multiset{best} + (all - multiset{best});
    SomeMember(end);
    if |end| > 0 {
      var x :| x in end;
      assert x < best;
    }
  }

  lemma SomeMember(m: multiset<real>)
    ensures |m| == 0 || exists x :: x in m
  {
    if forall x :: x !in m { assert m == multiset{}; }
  }

  lemma ShortAndLongIsStored()
    ensures AllDescribed(SHORT_AND_LONG, [])
  {
    var block := SHORT_AND_LONG.blocks[0];
    assert block[0].frequency == 1 && block[1].fieldnorm == 3;
  }

  /** Scores fall with the length, and the codes 1 to 4 stand for these lengths. */
  lemma SmallLengths(p: Params)
    requires ValidParams(p) && 0.0 < p.idf && 0.0 < p.b
    ensures forall n :: 1 <= n <= 4 ==> DecodeFieldnorm(n) == PostingLength16(n) == n
    ensures Bm25Score(p, 1, 4) < Bm25Score(p, 1, 3) < Bm25Score(p, 1, 2) < Bm25Score(p, 1, 1)
  {
    forall n | 1 <= n <= 4
      ensures DecodeFieldnorm(n) == PostingLength16(n) == n
    {
      TableValue(n);
    }
    LongerScoresLess(p, 1, 3, 4);
    LongerScoresLess(p, 1, 2, 3);
    LongerScoresLess(p, 1, 1, 2);
  }

  /** Two blocks: documents of length 1 and 4 in the first, one of length 2 in the second. */
  const TWO_BLOCKS := PostingList([[BlockPosting(0, 1, 1), BlockPosting(1, 1, 4)], [BlockPosting(2, 1, 2)]],
                                  [SkipEntry(1, 2, 1, 4, TenantNone, 0), SkipEntry(2, 1, 1, 2, TenantNone, 0)], 3)

  /** A list as a search for several terms takes it, with the cursor on its first posting. */
  ghost function FirstCursor(l: PostingList, p: Params): TermState
    requires 0 < |l.blocks| == |l.skips|
  {
    TermState(InputList(InputFor(l, p, 1)), 0, 0, false, l.skips[0], l.blocks[0])
  }

  /**
   * The same for the skip of block_max_skip_advance in a search for several terms of which this
   * segment has one. The heap of capacity 1 holds the score of a document of length 3. The list's
   * bound is above this threshold, so document 0 is the pivot; the bound of its block, computed
   * from length 4, is not, so the block's two documents are passed. Whatever is selected from the
   * heap and the one document that is left, it is not the best score.
   */
  lemma SkippedDocumentCanWin(p: Params)
    requires ValidParams(p) && 0.0 < p.idf && 0.0 < p.b
    ensures var t, held := FirstCursor(TWO_BLOCKS, p), multiset{Bm25Score(p, 1, 3)};
            && AllDescribed(TWO_BLOCKS, []) && ValidCursor(t) && Cur(t) == 0
            && Sum([t], BlockBound()) <= Bm25Score(p, 1, 3) < Sum([t], MaxOf())
            && SafeTarget([t], 1, 2)
            && forall end: multiset<real> :: end <= held + Bag([t.list], {2}, 3) ==>
                 !IsTopK(end, held + Bag([t.list], {0, 1, 2}, 3), 1)
  {
    var t, held := FirstCursor(TWO_BLOCKS, p), multiset{Bm25Score(p, 1, 3)};
    SmallLengths(p);
    TwoBlocksAreStored();
    TwoBlocksCursor(p);
    TwoBlocksBounds(p);
    TwoBlocksScores(p);
    hide *;
    assert DecodeFieldnorm(1) == 1 && DecodeFieldnorm(2) == 2 && DecodeFieldnorm(4) == 4;
    BestIsPassed([t.list], Bm25Score(p, 1, 3));
  }

  /** With document 0 passed, and better than the score held and than document 2, the best is out of reach. */
  lemma BestIsPassed(q: seq<TermList>, score: real)
    requires score < FullScore(q, 0) && FullScore(q, 2) < FullScore(q, 0)
    ensures forall end: multiset<real> :: end <= multiset{score} + Bag(q, {2}, 3) ==>
              !IsTopK(end, multiset{score} + Bag(q, {0, 1, 2}, 3), 1)
  {
    hide FullScore, IsTopK, Bag;
    BagOfOne(q, 2, 3);
    DocInBag(q, {0, 1, 2}, 0, 3);
    var low, all := multiset{score} + Bag(q, {2}, 3), multiset{score} + Bag(q, {0, 1, 2}, 3);
    forall end: multiset<real> | end <= low
      ensures !IsTopK(end, all, 1)
    {
      NotTheBest(end, low, all, FullScore(q, 0));
    }
  }

  lemma TwoBlocksAreStored()
    ensures AllDescribed(TWO_BLOCKS, [])
  {
    var l := TWO_BLOCKS;
    assert l.blocks[0][0].frequency == 1 && l.blocks[0][1].fieldnorm == 4;
    assert l.blocks[1][0].frequency == 1 && l.blocks[1][0].fieldnorm == 2;
    assert IsBlockStats(l.blocks[0], 1, 4) && IsBlockStats(l.blocks[1], 1, 2);
  }

  lemma TwoBlocksCursor(p: Params)
    ensures var t := FirstCursor(TWO_BLOCKS, p);
            ValidCursor(t) && Active(t) && Cur(t) == 0 && SafeTarget([t], 1, 2) &&
            At(t.list, 0, 0, 0) && At(t.list, 2, 1, 0)
  {
    hide Weigh, BoundBy, BoundsOf, MaxScore;
  }

  /** The block bounds of that list: the scores of lengths 4 and 2. */
  lemma TwoBlocksBounds(p: Params)
    requires ValidParams(p)
    ensures var t := FirstCursor(TWO_BLOCKS, p);
            Sum([t], BlockBound()) == BlockMaxScore(p, 1, 4) && BlockMaxScore(p, 1, 2) <= Sum([t], MaxOf())
  {
    hide BlockMaxScore, Sum, MaxScore;
    var t, bounds := FirstCursor(TWO_BLOCKS, p), BoundsOf(InputFor(TWO_BLOCKS, p, 1));
    SumOfOne(t, BlockBound());
    SumOfOne(t, MaxOf());
    assert bounds[0] == BlockMaxScore(p, 1, 4) && bounds[1] == BlockMaxScore(p, 1, 2);
  }

  lemma TwoBlocksScores(p: Params)
    requires ValidParams(p)
    ensures var q := [FirstCursor(TWO_BLOCKS, p).list];
            FullScore(q, 0) == Bm25Score(p, 1, DecodeFieldnorm(1)) &&
            FullScore(q, 2) == Bm25Score(p, 1, DecodeFieldnorm(2))
  {
    hide Bm25Score, DecodeFieldnorm, Sum, BoundBy, BoundsOf, MaxScore;
    var t := FirstCursor(TWO_BLOCKS, p);
    TwoBlocksCursor(p);
    SumOfOne(t.list, WeightOf(0));
    SumOfOne(t.list, WeightOf(2));
    hide Weight, ValidCursor;
    WeightAt(t.list, 0, 0, 0);
    WeightAt(t.list, 2, 1, 0);
  }

  lemma {:induction false} BagOfOne(q: seq<TermList>, d: nat, n: nat)
    ensures Bag(q, {d}, n) == if d < n then multiset{FullScore(q, d)} else multiset{}
  {
    hide FullScore;
    if n > 0 { BagOfOne(q, d, n - 1); }
  }
}
