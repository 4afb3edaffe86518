/**
 * A posting block on its whole way: compressed and written with the segment, its dictionary
 * entries patched, the segment opened through its page index, and the block loaded by an
 * iterator (tp_segment_posting_iterator_load_block, src/segment/scan.c).
 */
module BlockStore {
  import opened Compression
  import opened Constants
  import opened Paging
  import opened Postings
  import opened Sequences
  import opened Wrappers

  /** A posting that fits the stored form. */
  predicate Storable(q: BlockPosting) {
    q.docId < 0x1_0000_0000 && q.frequency < 0x1_0000 && q.fieldnorm < 0x100
  }

  ghost predicate StorableBlock(block: seq<BlockPosting>) {
    forall j :: 0 <= j < |block| ==> Storable(block[j])
  }

  /** The stored form; writers set the reserved byte to 0. */
  function Stored(block: seq<BlockPosting>): (ps: seq<TpBlockPosting>)
    requires StorableBlock(block)
    ensures |ps| == |block|
  {
    seq(|block|, j requires 0 <= j < |block| && StorableBlock(block) =>
                   TpBlockPosting(block[j].docId, block[j].frequency, block[j].fieldnorm, 0))
  }

  /** The postings as cursors see them. */
  function Loaded(ps: seq<TpBlockPosting>): (block: seq<BlockPosting>)
    ensures |block| == |ps|
  {
    seq(|ps|, j requires 0 <= j < |ps| => BlockPosting(ps[j].docId, ps[j].frequency, ps[j].fieldnorm))
  }

  method CompressedBytes(block: seq<BlockPosting>) returns (bytes: seq<byte>)
    requires StorableBlock(block) && |block| <= TP_BLOCK_SIZE
    ensures |bytes| <= TP_MAX_COMPRESSED_BLOCK_SIZE && Compressed(bytes, Stored(block))
    ensures |bytes| <= HEADER_SIZE + 7 * |block|
  {
    hide Compressed;
    var out := new byte[TP_MAX_COMPRESSED_BLOCK_SIZE](_ => 0);
    var size := CompressBlock(Stored(block), out);
    bytes := out[..size];
    CompressedSizeBound(bytes, Stored(block));
  }

  /** Loading what was compressed: the block again, whatever bytes follow it in the buffer. */
  lemma LoadsBlock(buffer: seq<byte>, bytes: seq<byte>, block: seq<BlockPosting>, qs: seq<TpBlockPosting>)
    requires StorableBlock(block) && bytes <= buffer && Compressed(bytes, Stored(block))
    requires |qs| == |block| && Decompressed(buffer, qs, 0)
    ensures Loaded(qs) == block
  {
    hide Compressed, Decompressed;
    assert buffer[..|bytes|] == bytes;
    RoundTripFromZero(buffer, |bytes|, Stored(block), qs);
  }

  /** The block of `count` postings at a logical offset; None is the reader's error past the last page. */
  method LoadBlock(reader: SegmentReader, offset: nat, count: nat, ghost bytes: seq<byte>, ghost block: seq<BlockPosting>)
    returns (r: Option<seq<BlockPosting>>)
    requires reader.Valid() && StorableBlock(block) && |block| == count <= TP_BLOCK_SIZE
    requires |bytes| <= TP_MAX_COMPRESSED_BLOCK_SIZE && Compressed(bytes, Stored(block))
    requires var all := Logical(reader.relation.blocks, reader.pageMap);
             offset + |bytes| <= |all| && all[offset..offset + |bytes|] == bytes
    modifies reader
    ensures r == if offset + TP_MAX_COMPRESSED_BLOCK_SIZE <= DATA_PER_PAGE * |reader.pageMap| then Some(block) else None
  {
    hide Compressed, Decompressed, Logical, DataPages, Decodable;
    ghost var all := Logical(reader.relation.blocks, reader.pageMap);
    var read := reader.Read(offset, TP_MAX_COMPRESSED_BLOCK_SIZE);
    if read.None? { return None; }
    var buffer := read.value;
    PrefixOfSlice(all, offset, |bytes|, TP_MAX_COMPRESSED_BLOCK_SIZE);
    assert buffer[..|bytes|] == bytes;
    CompressedIsDecodable(buffer, |bytes|, Stored(block));
    var out := new TpBlockPosting[count](_ => TpBlockPosting(0, 0, 0, 0));
    DecompressBlock(buffer, count, 0, out);
    LoadsBlock(buffer, bytes, block, out[..count]);
    return Some(Loaded(out[..count]));
  }

  lemma PrefixOfSlice(all: seq<byte>, offset: nat, n: nat, m: nat)
    requires n <= m && offset + m <= |all|
    ensures all[offset..offset + m][..n] == all[offset..offset + n]
  {
  }

  /** The dictionary entries patched after everything was written lie before the posting blocks. */
  lemma PatchLeavesRest(was: seq<byte>, now: seq<byte>, contents: seq<byte>, at: nat, part: seq<byte>, offset: nat,
                        n: nat)
    requires contents <= was && at + |part| <= offset && offset + n <= |contents|
    requires now == Spliced(was, at, part)
    ensures |now| == |was| && now[offset..offset + n] == contents[offset..offset + n]
    ensures now[at..at + |part|] == part
  {
  }

  lemma MiddleChunk(before: seq<byte>, bytes: seq<byte>, after: seq<byte>)
    ensures Concat([before, bytes, after]) == before + bytes + after
    ensures (before + bytes + after)[|before|..|before| + |bytes|] == bytes
  {
    var chunks := [before, bytes, after];
    assert chunks[..2] == [before, bytes] && chunks[..2][..1] == [before];
    assert Concat([before]) == before;
    assert Concat([before, bytes]) == before + bytes;
  }

  lemma StillIndexed(now: seq<Page>, was: seq<Page>, root: Option<nat>, ids: seq<nat>, pages: seq<nat>)
    requires PageIndex(was, root, ids, pages) && NoneIn(ids, pages) && InRelation(pages, |was|)
    requires |now| >= |was| && forall b :: 0 <= b < |was| && b !in pages ==> now[b] == was[b]
    ensures PageIndex(now, root, ids, pages) && InRelation(pages, |now|)
  {
    hide EntriesOf, NextOf;
    forall k | 0 <= k < |ids|
      ensures ids[k] < |was| && ids[k] !in pages
    {
      assert ids[k] in ids;
    }
  }

  /**
   * Write a segment whose parts are `before`, one compressed block and `after`, patch dictionary
   * entries in `before`, open the segment through its page index, read the entries, and load the
   * block. The entries are the patched ones. The block is the one that was written exactly if the
   * segment's pages reach as far as the largest compressed block would, since that much is always
   * read; otherwise loading fails.
   */
  method StoreAndLoad(relation: Relation, before: seq<byte>, block: seq<BlockPosting>, after: seq<byte>,
                      entriesOffset: nat, entries: seq<seq<byte>>)
    returns (dictionary: Option<seq<byte>>, loaded: Option<seq<BlockPosting>>, numPages: nat, size: nat)
    requires relation.Valid() && StorableBlock(block) && |block| <= TP_BLOCK_SIZE
    requires entries != [] && forall i :: 0 <= i < |entries| ==> |entries[i]| == ENTRY_SIZE
    requires entriesOffset + ENTRY_SIZE * |entries| <= |before|
    modifies relation
    ensures dictionary == Some(Joined(entries))
    ensures size <= HEADER_SIZE + 7 * |block| && numPages == PagesFor(|before| + size + |after|)
    ensures loaded == if |before| + TP_MAX_COMPRESSED_BLOCK_SIZE <= DATA_PER_PAGE * numPages then Some(block) else None
  {
    hide DataPages, Logical, Concat, PageIndex, InRelation, NoneIn, Distinct, Compressed, Joined, Spliced, StorableBlock;
    var bytes := CompressedBytes(block);
    size := |bytes|;
    ghost var ids;
    var pages, root;
    pages, root, ids := StoreSegment(relation, [before, bytes, after]);
    MiddleChunk(before, bytes, after);
    numPages := |pages|;
    ghost var written, was := relation.blocks, Logical(relation.blocks, pages);
    LogicalLength(written, pages);
    var ok := PatchEntries(relation, pages, entriesOffset, entries);
    ghost var now := Logical(relation.blocks, pages);
    LogicalLength(relation.blocks, pages);
    PatchLeavesRest(was, now, before + bytes + after, entriesOffset, Joined(entries), |before|, size);
    StillIndexed(relation.blocks, written, root, ids, pages);
    WrittenIndexLoads(relation.blocks, root, ids, pages);
    var pageMap := LoadPageMap(relation, root, |pages|, ids);
    var reader := new SegmentReader(relation, pageMap.value);
    dictionary := reader.Read(entriesOffset, ENTRY_SIZE * |entries|);
    loaded := LoadBlock(reader, |before|, |block|, bytes, block);
  }

  /** The bytes of the last page behind the end of a segment of n bytes. */
  function Slack(n: nat): nat {
    if n % DATA_PER_PAGE == 0 then 0 else DATA_PER_PAGE - n % DATA_PER_PAGE
  }

  /**
   * In lengths: the block can be loaded exactly if the block, what follows it and the slack of the
   * last page together have room for the largest compressed block.
   */
  lemma LoadableIff(before: nat, size: nat, after: nat)
    requires 0 < before + size + after
    ensures var total := before + size + after;
            before + TP_MAX_COMPRESSED_BLOCK_SIZE <= DATA_PER_PAGE * PagesFor(total) <==>
            TP_MAX_COMPRESSED_BLOCK_SIZE <= size + after + Slack(total)
  {
    WholePages(before + size + after);
  }

  lemma WholePages(n: nat)
    requires 0 < n
    ensures DATA_PER_PAGE * PagesFor(n) == n + Slack(n)
  {
    var q, r := n / DATA_PER_PAGE, n % DATA_PER_PAGE;
    assert n == DATA_PER_PAGE * q + r;
    if r == 0 {
      assert n - 1 == DATA_PER_PAGE * (q - 1) + (DATA_PER_PAGE - 1);
    }
  }

  /**
   * A stored posting that cannot be loaded: a segment of one page whose only block starts within
   * 898 bytes of the page's end, whatever the posting and whatever is written around it.
   */
  method UnreadableBlock(relation: Relation, before: seq<byte>, q: BlockPosting, after: seq<byte>,
                         entriesOffset: nat, entries: seq<seq<byte>>)
    returns (dictionary: Option<seq<byte>>, loaded: Option<seq<BlockPosting>>, numPages: nat)
    requires relation.Valid() && Storable(q) && |before| == 7300 && |after| == 700
    requires entries != [] && forall i :: 0 <= i < |entries| ==> |entries[i]| == ENTRY_SIZE
    requires entriesOffset + ENTRY_SIZE * |entries| <= |before|
    modifies relation
    ensures numPages == 1 && dictionary == Some(Joined(entries)) && loaded == None
  {
    hide Joined, Storable;
    assert StorableBlock([q]);
    var size;
    dictionary, loaded, numPages, size := StoreAndLoad(relation, before, [q], after, entriesOffset, entries);
  }
}
