/**
 * Blocked posting lists and the cursor that walks one (src/segment/scan.c, and the
 * per-term part of src/query/bmw.c). A list is a sequence of blocks of postings in
 * strictly ascending doc id order, with one skip entry per block.
 */
module Postings {
  import opened Constants
  import opened ItemPointers

  datatype BlockPosting = BlockPosting(docId: nat, frequency: nat, fieldnorm: nat)

  datatype TenantMode = TenantNone | TenantSingle | TenantMixed

  datatype SkipEntry = SkipEntry(lastDocId: nat, docCount: nat, blockMaxTf: nat, blockMaxNorm: nat,
                                 tenantMode: TenantMode, tenantLow16: nat)

  const EMPTY_SKIP := SkipEntry(0, 0, 0, 0, TenantNone, 0)

  /** Everything about one query term in one segment that does not change during a scan. */
  datatype TermList = TermList(
    found: bool,
    blocks: seq<seq<BlockPosting>>,
    skips: seq<SkipEntry>,
    weigh: (nat, nat) -> real,   // (frequency, fieldnorm) to BM25 score, with the term's IDF
    queryFreq: nat,
    blockMax: seq<real>,         // per-block score bound, before query_freq
    maxScore: real)              // bound for the whole list, times query_freq

  /** tp_segment_get_tenant_id: 0 without tenant data or out of range. */
  function GetTenantId(tenants: seq<nat>, d: nat): nat {
    if d < |tenants| then tenants[d] else 0
  }

  /** `d` sits in block b at position j. */
  predicate At(l: TermList, d: nat, b: nat, j: nat) {
    b < |l.blocks| && j < |l.blocks[b]| && l.blocks[b][j].docId == d
  }

  ghost predicate Has(l: TermList, d: nat) {
    l.found && exists b: nat, j: nat :: At(l, d, b, j)
  }

  /** Layout promised by the segment writers: full skip index, ascending doc ids, ids below the sentinel. */
  ghost predicate ValidList(l: TermList) {
    && |l.skips| == |l.blocks| <= 65535
    && (forall b :: 0 <= b < |l.blocks| ==>
                      && 1 <= |l.blocks[b]| <= TP_BLOCK_SIZE
                      && l.skips[b].docCount == |l.blocks[b]|
                      && l.skips[b].lastDocId == l.blocks[b][|l.blocks[b]| - 1].docId)
    && (forall b, i, j :: 0 <= b < |l.blocks| && 0 <= i < j < |l.blocks[b]| ==>
                            l.blocks[b][i].docId < l.blocks[b][j].docId)
    && (forall b, c, j :: 0 <= b < c < |l.blocks| && 0 <= j < |l.blocks[c]| ==>
                            l.skips[b].lastDocId < l.blocks[c][j].docId)
    && (forall b, j :: 0 <= b < |l.blocks| && 0 <= j < |l.blocks[b]| ==>
                         l.blocks[b][j].docId < UINT32_MAX - 1)
  }

  lemma InBlockAtMostLast(l: TermList, b: nat, j: nat)
    requires ValidList(l) && b < |l.blocks| && j < |l.blocks[b]|
    ensures l.blocks[b][j].docId <= l.skips[b].lastDocId
  {
    if j < |l.blocks[b]| - 1 {
      assert l.blocks[b][j].docId < l.blocks[b][|l.blocks[b]| - 1].docId;
    }
  }

  /** Positions are ordered like doc ids. */
  lemma PositionOrder(l: TermList, b: nat, j: nat, c: nat, k: nat)
    requires ValidList(l) && b < |l.blocks| && j < |l.blocks[b]| && c < |l.blocks| && k < |l.blocks[c]|
    ensures l.blocks[b][j].docId < l.blocks[c][k].docId <==> b < c || (b == c && j < k)
  {
    InBlockAtMostLast(l, b, j);
    InBlockAtMostLast(l, c, k);
  }

  /** A document occurs at most once in a list. */
  lemma AtUnique(l: TermList, d: nat, b: nat, j: nat, c: nat, k: nat)
    requires ValidList(l) && At(l, d, b, j) && At(l, d, c, k)
    ensures b == c && j == k
  {
    PositionOrder(l, b, j, c, k);
    PositionOrder(l, c, k, b, j);
  }

  /** What the term adds to the score of document d: 0 when it does not occur there. */
  ghost function Weight(l: TermList, d: nat): real {
    if Has(l, d) then
      var b: nat, j: nat :| At(l, d, b, j);
      PostingWeight(l, l.blocks[b][j])
    else 0.0
  }

  function PostingWeight(l: TermList, p: BlockPosting): real {
    Scale(l.weigh(p.frequency, p.fieldnorm), l.queryFreq)
  }

  /** A term counts as often as it is repeated in the query. */
  function Scale(score: real, queryFreq: nat): real {
    score * queryFreq as real
  }

  lemma OneMoreTime(w: real, n: nat)
    requires 0 < n
    ensures w * n as real == w * 1 as real + w * (n - 1) as real
  {
  }

  lemma WeightAt(l: TermList, d: nat, b: nat, j: nat)
    requires ValidList(l) && l.found && At(l, d, b, j)
    ensures Has(l, d) && Weight(l, d) == PostingWeight(l, l.blocks[b][j])
  {
    var c: nat, k: nat :| At(l, d, c, k) && Weight(l, d) == PostingWeight(l, l.blocks[c][k]);
    AtUnique(l, d, b, j, c, k);
  }

  // ---------- the cursor ----------

  /** TpTermState with its iterator: `skip` and `postings` are the loaded block. */
  datatype TermState = TermState(
    list: TermList,
    currentBlock: nat,
    currentInBlock: nat,
    finished: bool,
    skip: SkipEntry,
    postings: seq<BlockPosting>)

  ghost predicate ValidCursor(t: TermState) {
    && ValidList(t.list)
    && (t.list.found && !t.finished ==>
          && t.currentBlock < |t.list.blocks|
          && t.skip == t.list.skips[t.currentBlock]
          && t.postings == t.list.blocks[t.currentBlock]
          && t.currentInBlock < |t.postings|)
  }

  /** term_current_doc_id: the document under the cursor, UINT32_MAX when exhausted. */
  function Cur(t: TermState): nat
  {
    if !t.list.found || t.finished then UINT32_MAX
    else if t.currentInBlock >= t.skip.docCount || t.currentInBlock >= |t.postings| then UINT32_MAX
    else t.postings[t.currentInBlock].docId
  }

  ghost predicate Active(t: TermState) {
    t.list.found && !t.finished
  }

  lemma CurFacts(t: TermState)
    requires ValidCursor(t)
    ensures Active(t) <==> Cur(t) != UINT32_MAX
    ensures Active(t) ==> Cur(t) < UINT32_MAX - 1 && Has(t.list, Cur(t))
    ensures Active(t) ==> At(t.list, Cur(t), t.currentBlock, t.currentInBlock)
    ensures Active(t) ==> Cur(t) <= t.list.skips[t.currentBlock].lastDocId < UINT32_MAX - 1
  {
    if Active(t) {
      assert At(t.list, Cur(t), t.currentBlock, t.currentInBlock);
      InBlockAtMostLast(t.list, t.currentBlock, t.currentInBlock);
    }
  }

  /** `r` is the first document of the list at or after `x`, UINT32_MAX if there is none. */
  ghost predicate IsNext(l: TermList, x: nat, r: nat) {
    && (r == UINT32_MAX || (Has(l, r) && x <= r))
    && forall d :: Has(l, d) && x <= d ==> r <= d
  }

  /** tp_segment_posting_iterator_load_block on an existing block. */
  function LoadBlock(t: TermState, block: nat): TermState
    requires block < |t.list.blocks| && block < |t.list.skips|
  {
    t.(currentBlock := block, currentInBlock := 0, skip := t.list.skips[block], postings := t.list.blocks[block])
  }

  /** Standing at (b, j): the first document at or after x, if everything before is below x. */
  lemma NextAt(l: TermList, x: nat, b: nat, j: nat)
    requires ValidList(l) && l.found && b < |l.blocks| && j < |l.blocks[b]| && x <= l.blocks[b][j].docId
    requires forall c, k :: 0 <= c < |l.blocks| && 0 <= k < |l.blocks[c]| && (c < b || (c == b && k < j)) ==>
                              l.blocks[c][k].docId < x
    ensures IsNext(l, x, l.blocks[b][j].docId)
  {
    var r := l.blocks[b][j].docId;
    assert At(l, r, b, j);
    forall d | Has(l, d) && x <= d
      ensures r <= d
    {
      var c: nat, k: nat :| At(l, d, c, k);
      PositionOrder(l, c, k, b, j);
    }
  }

  /** Every document of the list is below x. */
  lemma NoNext(l: TermList, x: nat)
    requires ValidList(l)
    requires forall b :: 0 <= b < |l.blocks| ==> l.skips[b].lastDocId < x
    ensures IsNext(l, x, UINT32_MAX)
  {
    forall d | Has(l, d) && x <= d
      ensures false
    {
      var b: nat, j: nat :| At(l, d, b, j);
      InBlockAtMostLast(l, b, j);
    }
  }

  /** advance_term_iterator: step to the next posting. */
  method AdvanceTermIterator(t: TermState) returns (t': TermState, active: bool)
    requires ValidCursor(t) && Active(t)
    ensures ValidCursor(t') && t'.list == t.list && active == Active(t')
    ensures IsNext(t.list, Cur(t) + 1, Cur(t'))
  {
    var l := t.list;
    ghost var x := Cur(t) + 1;
    forall c, k | 0 <= c < |l.blocks| && 0 <= k < |l.blocks[c]|
      ensures l.blocks[c][k].docId < x <==> c < t.currentBlock || (c == t.currentBlock && k <= t.currentInBlock)
    {
      PositionOrder(l, t.currentBlock, t.currentInBlock, c, k);
    }
    t' := t.(currentInBlock := t.currentInBlock + 1);
    if t'.currentInBlock >= t'.skip.docCount {
      t' := t'.(currentBlock := t'.currentBlock + 1);
      if t'.currentBlock >= |l.blocks| {
        t' := t'.(finished := true);
        forall b | 0 <= b < |l.blocks|
          ensures l.skips[b].lastDocId < x
        {
          assert l.blocks[b][|l.blocks[b]| - 1].docId < x;
        }
        NoNext(l, x);
        return t', false;
      }
      t' := LoadBlock(t', t'.currentBlock);
    }
    NextAt(l, x, t'.currentBlock, t'.currentInBlock);
    return t', true;
  }

  /** Where a seek must land: never before the cursor, never before the target. */
  function SeekFloor(t: TermState, target: nat): nat {
    if target > Cur(t) then target else Cur(t)
  }

  /**
   * Linear scan within the loaded block. The source then loads the following block and
   * returns its first posting unchecked; with a valid skip index that step is unreachable,
   * because a block is only scanned to its end when it is the last one.
   */
  method ScanBlock(t: TermState, target: nat, ghost x: nat) returns (t': TermState, active: bool)
    requires ValidCursor(t) && Active(t) && target <= x
    requires target <= t.skip.lastDocId || t.currentBlock + 1 == |t.list.blocks|
    requires forall c, k :: 0 <= c < |t.list.blocks| && 0 <= k < |t.list.blocks[c]| ==>
                              if c < t.currentBlock || (c == t.currentBlock && k < t.currentInBlock)
                              then t.list.blocks[c][k].docId < x
                              else t.list.blocks[c][k].docId < target || x <= t.list.blocks[c][k].docId
    ensures ValidCursor(t') && t'.list == t.list && active == Active(t')
    ensures IsNext(t.list, x, Cur(t'))
  {
    t' := t;
    var l := t.list;
    while t'.currentInBlock < t'.skip.docCount
      invariant t'.currentInBlock <= t'.skip.docCount && t' == t.(currentInBlock := t'.currentInBlock)
      invariant forall k :: 0 <= k < t'.currentInBlock ==> t'.postings[k].docId < x
    {
      var docId := t'.postings[t'.currentInBlock].docId;
      if docId >= target {
        NextAt(l, x, t'.currentBlock, t'.currentInBlock);
        return t', true;
      }
      t' := t'.(currentInBlock := t'.currentInBlock + 1);
    }
    assert t'.postings[|t'.postings| - 1].docId < x;
    if target <= t.skip.lastDocId {
      assert false;
    }
    t' := t'.(currentBlock := t'.currentBlock + 1, finished := true);
    forall b | 0 <= b < |l.blocks|
      ensures l.skips[b].lastDocId < x
    {
      InBlockAtMostLast(l, b, |l.blocks[b]| - 1);
      PositionOrder(l, b, |l.blocks[b]| - 1, |l.blocks| - 1, |l.blocks[|l.blocks| - 1]| - 1);
    }
    NoNext(l, x);
    return t', false;
  }

  /**
   * The binary search on the cached last_doc_ids, over the blocks from `from` on. The last
   * block is never compared: it is returned even when it ends before the target.
   */
  method FindBlock(l: TermList, from: nat, target: nat) returns (block: nat)
    requires ValidList(l) && 0 < from <= |l.blocks| && l.skips[from - 1].lastDocId < target
    ensures from <= block <= |l.blocks|
    ensures block == |l.blocks| <==> from == |l.blocks|
    ensures forall b :: 0 <= b < block ==> l.skips[b].lastDocId < target
    ensures block < |l.blocks| - 1 ==> target <= l.skips[block].lastDocId
  {
    SkipsAscend(l, from - 1);
    var left: int, right: int := from, |l.blocks| - 1;
    while left < right
      invariant from <= left <= |l.blocks| && left <= right + 1 <= |l.blocks|
      invariant forall b :: 0 <= b < left ==> l.skips[b].lastDocId < target
      invariant right < |l.blocks| - 1 ==> left <= right && target <= l.skips[right].lastDocId
      invariant left == |l.blocks| ==> from == |l.blocks|
    {
      var mid := left + (right - left) / 2;
      if l.skips[mid].lastDocId < target {
        SkipsAscend(l, mid);
        left := mid + 1;
      } else {
        right := mid;
      }
    }
    block := left;
  }

  /** Nothing before the cursor reaches its document; everything from it on does. */
  lemma CursorSplits(t: TermState)
    requires ValidCursor(t) && Active(t)
    ensures forall c, k :: 0 <= c < |t.list.blocks| && 0 <= k < |t.list.blocks[c]| ==>
                             (t.list.blocks[c][k].docId < Cur(t) <==>
                              c < t.currentBlock || (c == t.currentBlock && k < t.currentInBlock))
  {
    var l := t.list;
    forall c, k | 0 <= c < |l.blocks| && 0 <= k < |l.blocks[c]|
      ensures l.blocks[c][k].docId < Cur(t) <==> c < t.currentBlock || (c == t.currentBlock && k < t.currentInBlock)
    {
      PositionOrder(l, c, k, t.currentBlock, t.currentInBlock);
    }
  }

  lemma BlocksBefore(l: TermList, block: nat, x: nat)
    requires ValidList(l) && block <= |l.blocks| && forall b :: 0 <= b < block ==> l.skips[b].lastDocId < x
    ensures forall c, k :: 0 <= c < block && 0 <= k < |l.blocks[c]| ==> l.blocks[c][k].docId < x
  {
    forall c, k | 0 <= c < block && 0 <= k < |l.blocks[c]|
      ensures l.blocks[c][k].docId < x
    {
      InBlockAtMostLast(l, c, k);
    }
  }

  /** seek_term_to_doc: move to the first posting at or after both the cursor and the target. */
  method SeekTermToDoc(t: TermState, target: nat) returns (t': TermState, active: bool)
    requires ValidCursor(t)
    ensures ValidCursor(t') && t'.list == t.list && active == Active(t')
    ensures !Active(t) ==> t' == t
    ensures Active(t) ==> IsNext(t.list, SeekFloor(t, target), Cur(t'))
  {
    if !t.list.found || t.finished { return t, false; }
    ghost var x := SeekFloor(t, target);
    CurFacts(t);
    CursorSplits(t);
    if target <= t.skip.lastDocId {
      t', active := ScanBlock(t, target, x);
      return;
    }
    var block := FindBlock(t.list, t.currentBlock + 1, target);
    if block >= |t.list.blocks| {
      NoNext(t.list, x);
      return t.(finished := true), false;
    }
    BlocksBefore(t.list, block, x);
    t', active := ScanBlock(LoadBlock(t, block), target, x);
  }

  lemma SkipsAscend(l: TermList, b: nat)
    requires ValidList(l) && b < |l.blocks|
    ensures forall c :: 0 <= c <= b ==> l.skips[c].lastDocId <= l.skips[b].lastDocId
  {
    assert forall c :: 0 <= c < b ==> l.skips[c].lastDocId < l.blocks[b][|l.blocks[b]| - 1].docId;
  }
}
