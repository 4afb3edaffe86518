/**
 * Writing one term's sorted postings as blocks with skip entries (the posting loop of
 * write_merged_segment, src/segment/merge.c).
 */
module MergeBlocks {
  import opened Constants
  import opened ItemPointers
  import opened MergePostings
  import opened Postings
  import opened Scoring
  import opened Wand

  /** A term's posting blocks with their skip index. */
  datatype PostingList = PostingList(blocks: seq<seq<BlockPosting>>, skips: seq<SkipEntry>, docFreq: nat)

  ghost predicate AscendingDocs(ps: seq<BlockPosting>) {
    forall i, j :: 0 <= i < j < |ps| ==> ps[i].docId < ps[j].docId
  }

  /** Every document of the block belongs to this tenant, 0 meaning none. */
  ghost predicate AllOfTenant(block: seq<BlockPosting>, tenants: seq<nat>, tenant: nat) {
    forall j :: 0 <= j < |block| ==> GetTenantId(tenants, block[j].docId) == tenant
  }

  /** The mark of a block: none exactly for documents without a tenant, single for one tenant, mixed for several. */
  ghost predicate MarkHolds(block: seq<BlockPosting>, skip: SkipEntry, tenants: seq<nat>) {
    match skip.tenantMode
    case TenantNone => AllOfTenant(block, tenants, 0)
    case TenantSingle => exists t: nat :: t != 0 && AllOfTenant(block, tenants, t) && skip.tenantLow16 == t % 0x1_0000
    case TenantMixed => exists i, j :: 0 <= i < j < |block| &&
                                       GetTenantId(tenants, block[i].docId) != GetTenantId(tenants, block[j].docId)
  }

  /** The mark is determined by the tenants of the documents. */
  lemma MarkIsUnique(block: seq<BlockPosting>, skip: SkipEntry, other: SkipEntry, tenants: seq<nat>)
    requires block != [] && MarkHolds(block, skip, tenants) && MarkHolds(block, other, tenants)
    ensures skip.tenantMode == other.tenantMode
    ensures skip.tenantMode.TenantSingle? ==> skip.tenantLow16 == other.tenantLow16
  {
    assert AllOfTenant(block, tenants, GetTenantId(tenants, block[0].docId)) || skip.tenantMode.TenantMixed?;
  }

  /** What a skip entry says about its block. */
  ghost predicate Describes(skip: SkipEntry, block: seq<BlockPosting>, tenants: seq<nat>) {
    && 1 <= |block| <= TP_BLOCK_SIZE && skip.docCount == |block| && skip.lastDocId == block[|block| - 1].docId
    && IsBlockStats(block, skip.blockMaxTf, skip.blockMaxNorm) && MarkHolds(block, skip, tenants)
  }

  /** The largest doc id of a block, which is its last. */
  method LastDocId(block: seq<BlockPosting>) returns (last: nat)
    requires AscendingDocs(block) && block != []
    ensures last == block[|block| - 1].docId
  {
    last := 0;
    for j := 0 to |block|
      invariant last == if j == 0 then 0 else block[j - 1].docId
    {
      assert 0 < j ==> block[j - 1].docId < block[j].docId;
      if block[j].docId > last {
        last := block[j].docId;
      }
    }
  }

  /** Per-block tenant mode and low 16 bits. */
  method TenantMark(block: seq<BlockPosting>, tenants: seq<nat>) returns (mode: TenantMode, low16: nat)
    requires block != []
    ensures MarkHolds(block, SkipEntry(0, 0, 0, 0, mode, low16), tenants)
  {
    mode, low16 := TenantNone, 0;
    var firstTid := GetTenantId(tenants, block[0].docId);
    var allSame := true;
    var j := 1;
    while j < |block|
      invariant 1 <= j <= |block| && allSame
      invariant forall i :: 0 <= i < j ==> GetTenantId(tenants, block[i].docId) == firstTid
    {
      if GetTenantId(tenants, block[j].docId) != firstTid {
        allSame := false;
        break;
      }
      j := j + 1;
    }
    assert allSame ==> AllOfTenant(block, tenants, firstTid);
    if firstTid != 0 && allSame {
      mode, low16 := TenantSingle, firstTid % 0x1_0000;
    } else if !allSame {
      mode := TenantMixed;
    }
  }

  /** The skip entry of one block; `tenants` is empty when the merged segment has no tenants. */
  method BuildSkip(block: seq<BlockPosting>, tenants: seq<nat>) returns (skip: SkipEntry)
    requires AscendingDocs(block) && 1 <= |block| <= TP_BLOCK_SIZE
    ensures Describes(skip, block, tenants)
  {
    var lastDocId := LastDocId(block);
    var maxTf, maxNorm := BlockStats(block);
    var mode, low16 := TenantNone, 0;
    if tenants != [] {
      mode, low16 := TenantMark(block, tenants);
    }
    skip := SkipEntry(lastDocId, |block|, maxTf, maxNorm, mode, low16);
  }

  lemma {:induction false} FlatAppend<T>(blocks: seq<seq<T>>, block: seq<T>)
    ensures Flat(blocks + [block]) == Flat(blocks) + block
  {
    if blocks == [] {
      assert (blocks + [block])[1..] == [];
    } else {
      assert (blocks + [block])[1..] == blocks[1..] + [block];
      FlatAppend(blocks[1..], block);
    }
  }

  /** The blocks cut the postings into runs of 128, the last one possibly shorter. */
  ghost predicate CutsInto(ps: seq<BlockPosting>, blocks: seq<seq<BlockPosting>>) {
    forall b :: 0 <= b < |blocks| ==> TP_BLOCK_SIZE * b < |ps| && blocks[b] == RunAt(ps, b)
  }

  function RunAt(ps: seq<BlockPosting>, b: nat): seq<BlockPosting> {
    var start := b * TP_BLOCK_SIZE;
    var end := if start + TP_BLOCK_SIZE <= |ps| then start + TP_BLOCK_SIZE else |ps|;
    if start <= end then ps[start..end] else []
  }

  ghost predicate AllDescribed(l: PostingList, tenants: seq<nat>) {
    && |l.skips| == |l.blocks|
    && forall b :: 0 <= b < |l.blocks| ==> Describes(l.skips[b], l.blocks[b], tenants)
  }

  lemma RunAscends(ps: seq<BlockPosting>, b: nat)
    requires AscendingDocs(ps) && TP_BLOCK_SIZE * b < |ps|
    ensures AscendingDocs(RunAt(ps, b)) && 1 <= |RunAt(ps, b)| <= TP_BLOCK_SIZE
    ensures TP_BLOCK_SIZE * b + |RunAt(ps, b)| <= |ps|
    ensures forall j :: 0 <= j < |RunAt(ps, b)| ==> RunAt(ps, b)[j] == ps[TP_BLOCK_SIZE * b + j]
  {
  }

  /** The block loop for one term. */
  method WriteBlocks(ps: seq<BlockPosting>, tenants: seq<nat>) returns (l: PostingList)
    requires AscendingDocs(ps)
    ensures Flat(l.blocks) == ps && CutsInto(ps, l.blocks) && AllDescribed(l, tenants) && l.docFreq == |ps|
    ensures |l.blocks| == (|ps| + TP_BLOCK_SIZE - 1) / TP_BLOCK_SIZE
  {
    hide AscendingDocs, Describes, Flat, RunAt;
    l := PostingList([], [], |ps|);
    var numBlocks := (|ps| + TP_BLOCK_SIZE - 1) / TP_BLOCK_SIZE;
    NoBlocks(ps);
    for blockIdx := 0 to numBlocks
      invariant |l.blocks| == blockIdx && AllDescribed(l, tenants) && CutsInto(ps, l.blocks) && l.docFreq == |ps|
      invariant Flat(l.blocks) == ps[..if TP_BLOCK_SIZE * blockIdx <= |ps| then TP_BLOCK_SIZE * blockIdx else |ps|]
    {
      var block := RunAt(ps, blockIdx);
      RunAscends(ps, blockIdx);
      var skip := BuildSkip(block, tenants);
      FlatAppend(l.blocks, block);
      RunExtends(ps, blockIdx);
      l := PostingList(l.blocks + [block], l.skips + [skip], l.docFreq);
    }
    assert ps[..|ps|] == ps;
  }

  lemma NoBlocks(ps: seq<BlockPosting>)
    ensures Flat<BlockPosting>([]) == ps[..0]
  {
  }

  lemma RunExtends(ps: seq<BlockPosting>, b: nat)
    requires TP_BLOCK_SIZE * b < |ps|
    ensures var next := if TP_BLOCK_SIZE * (b + 1) <= |ps| then TP_BLOCK_SIZE * (b + 1) else |ps|;
            ps[..TP_BLOCK_SIZE * b] + RunAt(ps, b) == ps[..next]
  {
  }

  // ---------- the layout that searching relies on ----------

  /** The list as a query sees it, whatever weights the query gives it. */
  ghost function AsTermList(l: PostingList, weigh: (nat, nat) -> real, queryFreq: nat, blockMax: seq<real>,
                            maxScore: real): TermList {
    TermList(true, l.blocks, l.skips, weigh, queryFreq, blockMax, maxScore)
  }

  /** Blocks cut from ascending postings satisfy what every cursor over them requires. */
  lemma WrittenListIsValid(ps: seq<BlockPosting>, l: PostingList, tenants: seq<nat>, weigh: (nat, nat) -> real,
                           queryFreq: nat, blockMax: seq<real>, maxScore: real)
    requires AscendingDocs(ps) && CutsInto(ps, l.blocks) && AllDescribed(l, tenants) && |l.blocks| <= 65535
    requires forall i :: 0 <= i < |ps| ==> ps[i].docId < UINT32_MAX - 1
    ensures ValidList(AsTermList(l, weigh, queryFreq, blockMax, maxScore))
    ensures TenantMarksHold(AsTermList(l, weigh, queryFreq, blockMax, maxScore), tenants)
  {
    hide IsBlockStats, RunAt;
    forall b, j | 0 <= b < |l.blocks| && 0 <= j < |l.blocks[b]|
      ensures TP_BLOCK_SIZE * b + j < |ps| && l.blocks[b][j] == ps[TP_BLOCK_SIZE * b + j]
    {
      assert l.blocks[b] == RunAt(ps, b);
      RunAscends(ps, b);
    }
    forall b | 0 <= b < |l.blocks|
      ensures Describes(l.skips[b], l.blocks[b], tenants)
    {
    }
  }
}
