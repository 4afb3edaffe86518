/**
 * The N-way merge of one term's postings (collect_term_postings, src/segment/merge.c):
 * every posting of every source segment is collected once, tagged with where it came from.
 */
module MergePostings {
  import opened ItemPointers
  import opened Postings
  import opened Sums

  /** The per-document arrays of a segment; `tenants` is empty when the segment has none. */
  datatype DocTable = DocTable(ctids: seq<ItemPointer>, fieldnorms: seq<nat>, tenants: seq<nat>)

  datatype Collected = Collected(ctid: ItemPointer, sourceIdx: nat, oldDocId: nat, frequency: nat, fieldnorm: nat)

  /** TpPostingMergeSource: a position in the blocks of one segment's posting list. */
  datatype PostingSource = PostingSource(docs: DocTable, sourceIdx: nat, blocks: seq<seq<BlockPosting>>,
                                         currentBlock: nat, currentInBlock: nat, exhausted: bool)

  ghost function Flat<T>(blocks: seq<seq<T>>): seq<T> {
    if blocks == [] then [] else blocks[0] + Flat(blocks[1..])
  }

  /** No empty block, and every posting names a document of the segment. */
  ghost predicate ValidBlocks(blocks: seq<seq<BlockPosting>>, numDocs: nat) {
    && (forall b :: 0 <= b < |blocks| ==> blocks[b] != [])
    && (forall b, j :: 0 <= b < |blocks| && 0 <= j < |blocks[b]| ==> blocks[b][j].docId < numDocs)
  }

  ghost predicate ValidPosition(s: PostingSource) {
    && ValidBlocks(s.blocks, |s.docs.ctids|)
    && (!s.exhausted ==> s.currentBlock < |s.blocks| && s.currentInBlock < |s.blocks[s.currentBlock]|)
  }

  ghost predicate ValidPositions(srcs: seq<PostingSource>) {
    forall i :: 0 <= i < |srcs| ==> ValidPosition(srcs[i])
  }

  /** The postings not yet collected. */
  ghost function Rest(s: PostingSource): seq<BlockPosting>
    requires ValidPosition(s)
  {
    if s.exhausted then []
    else s.blocks[s.currentBlock][s.currentInBlock..] + Flat(s.blocks[s.currentBlock + 1..])
  }

  /** posting_source_convert_current. */
  function Current(s: PostingSource): Collected
    requires ValidPosition(s) && !s.exhausted
  {
    Tag(s.docs, s.sourceIdx, s.blocks[s.currentBlock][s.currentInBlock])
  }

  function Tag(docs: DocTable, sourceIdx: nat, p: BlockPosting): Collected {
    var ctid := if p.docId < |docs.ctids| then docs.ctids[p.docId] else INVALID_POINTER;
    Collected(ctid, sourceIdx, p.docId, p.frequency, p.fieldnorm)
  }

  ghost function TagOf(docs: DocTable, sourceIdx: nat): BlockPosting -> Collected {
    (p: BlockPosting) => Tag(docs, sourceIdx, p)
  }

  /** posting_source_init. */
  function InitPostings(docs: DocTable, sourceIdx: nat, blocks: seq<seq<BlockPosting>>): PostingSource {
    PostingSource(docs, sourceIdx, blocks, 0, 0, |blocks| == 0)
  }

  lemma InitRest(docs: DocTable, sourceIdx: nat, blocks: seq<seq<BlockPosting>>)
    requires ValidBlocks(blocks, |docs.ctids|)
    ensures var s := InitPostings(docs, sourceIdx, blocks); ValidPosition(s) && Rest(s) == Flat(blocks)
  {
    if blocks != [] {
      assert blocks[0][0..] == blocks[0];
    }
  }

  /** Same segment and list, possibly another position. */
  ghost predicate SameList(s: PostingSource, t: PostingSource) {
    s.docs == t.docs && s.sourceIdx == t.sourceIdx && s.blocks == t.blocks
  }

  /** Advancing within a block, to the next block, and past the last one. */
  lemma RestDrops(s: PostingSource)
    requires ValidPosition(s) && !s.exhausted
    ensures Rest(s) != [] && Current(s) == Tag(s.docs, s.sourceIdx, Rest(s)[0])
    ensures s.currentInBlock + 1 < |s.blocks[s.currentBlock]| ==>
              Rest(s.(currentInBlock := s.currentInBlock + 1)) == Rest(s)[1..]
    ensures s.currentInBlock + 1 == |s.blocks[s.currentBlock]| && s.currentBlock + 1 < |s.blocks| ==>
              Rest(s.(currentBlock := s.currentBlock + 1, currentInBlock := 0)) == Rest(s)[1..]
    ensures s.currentInBlock + 1 == |s.blocks[s.currentBlock]| && s.currentBlock + 1 == |s.blocks| ==> Rest(s)[1..] == []
  {
    var block, next := s.blocks[s.currentBlock], s.blocks[s.currentBlock + 1..];
    assert block[s.currentInBlock..][1..] == block[s.currentInBlock + 1..];
    if s.currentBlock + 1 < |s.blocks| {
      assert next[1..] == s.blocks[s.currentBlock + 2..];
      assert s.blocks[s.currentBlock + 1][0..] == s.blocks[s.currentBlock + 1];
    }
  }

  /** posting_source_advance. */
  method AdvancePosting(s: PostingSource) returns (s': PostingSource)
    requires ValidPosition(s) && !s.exhausted
    ensures ValidPosition(s') && SameList(s', s)
    ensures Rest(s) != [] && Rest(s') == Rest(s)[1..] && Current(s) == Tag(s.docs, s.sourceIdx, Rest(s)[0])
  {
    RestDrops(s);
    hide Flat, Tag, Current;
    s' := s.(currentInBlock := s.currentInBlock + 1);
    ghost var b := s.currentBlock;
    while s'.currentInBlock >= |s'.blocks[s'.currentBlock]|
      invariant !s'.exhausted && s'.blocks == s.blocks && s'.currentBlock < |s'.blocks|
      invariant s' == s.(currentInBlock := s.currentInBlock + 1) ||
                (b + 1 < |s.blocks| && s.currentInBlock + 1 == |s.blocks[b]|
                 && s' == s.(currentBlock := b + 1, currentInBlock := 0))
      decreases |s'.blocks| - s'.currentBlock
    {
      s' := s'.(currentBlock := s'.currentBlock + 1);
      if s'.currentBlock >= |s'.blocks| {
        s' := s'.(exhausted := true);
        return;
      }
      s' := s'.(currentInBlock := 0);
    }
  }

  /** find_min_posting_source: the first source with the least current CTID, -1 if none is left. */
  method FindMinPosting(sources: array<PostingSource>) returns (minIdx: int)
    requires ValidPositions(sources[..])
    ensures -1 <= minIdx < sources.Length
    ensures minIdx < 0 <==> forall i :: 0 <= i < sources.Length ==> sources[i].exhausted
    ensures minIdx >= 0 ==> !sources[minIdx].exhausted && NoCurrentBefore(sources[..], Current(sources[minIdx]).ctid)
  {
    minIdx := -1;
    for i := 0 to sources.Length
      invariant -1 <= minIdx < i
      invariant minIdx < 0 ==> forall j :: 0 <= j < i ==> sources[j].exhausted
      invariant minIdx >= 0 ==> !sources[minIdx].exhausted
      invariant minIdx >= 0 ==> NoCurrentBefore(sources[..i], Current(sources[minIdx]).ctid)
    {
      assert ValidPosition(sources[..][i]);
      assert sources[..i + 1] == sources[..i] + [sources[i]];
      if sources[i].exhausted { continue; }
      var ctid := Current(sources[i]).ctid;
      if minIdx < 0 || Before(ctid, Current(sources[minIdx]).ctid) {
        minIdx := i;
      }
    }
    assert sources[..sources.Length] == sources[..];
  }

  ghost predicate NoCurrentBefore(srcs: seq<PostingSource>, c: ItemPointer) {
    forall i :: 0 <= i < |srcs| && ValidPosition(srcs[i]) && !srcs[i].exhausted ==> !Before(Current(srcs[i]).ctid, c)
  }

  // ---------- what is collected ----------

  ghost function Tagged(s: PostingSource): seq<Collected>
    requires ValidPosition(s)
  {
    Map(Rest(s), TagOf(s.docs, s.sourceIdx))
  }

  /** Everything the sources still hold. */
  ghost function Remaining(srcs: seq<PostingSource>): multiset<Collected>
    requires ValidPositions(srcs)
  {
    if srcs == [] then multiset{}
    else
      assert ValidPosition(srcs[0]);
      assert forall i :: 0 <= i < |srcs| - 1 ==> srcs[1..][i] == srcs[i + 1];
      multiset(Tagged(srcs[0])) + Remaining(srcs[1..])
  }

  lemma TailValid(srcs: seq<PostingSource>)
    requires ValidPositions(srcs) && srcs != []
    ensures ValidPosition(srcs[0]) && ValidPositions(srcs[1..])
  {
    assert forall i :: 0 <= i < |srcs| - 1 ==> srcs[1..][i] == srcs[i + 1];
  }

  lemma {:induction false} RemainingUpdate(srcs: seq<PostingSource>, m: nat, s: PostingSource, c: Collected)
    requires ValidPositions(srcs) && m < |srcs| && ValidPosition(s) && ValidPosition(srcs[m])
    requires multiset(Tagged(srcs[m])) == multiset(Tagged(s)) + multiset{c}
    ensures ValidPositions(srcs[m := s]) && Remaining(srcs) == Remaining(srcs[m := s]) + multiset{c}
  {
    hide ValidPosition, Tagged;
    TailValid(srcs);
    if m == 0 {
      assert srcs[0 := s][1..] == srcs[1..];
    } else {
      RemainingUpdate(srcs[1..], m - 1, s, c);
      assert srcs[m := s][1..] == srcs[1..][m - 1 := s];
    }
  }

  lemma {:induction false} NothingRemains(srcs: seq<PostingSource>)
    requires ValidPositions(srcs) && forall i :: 0 <= i < |srcs| ==> srcs[i].exhausted
    ensures Remaining(srcs) == multiset{}
  {
    if srcs != [] {
      assert forall i :: 0 <= i < |srcs| - 1 ==> srcs[1..][i] == srcs[i + 1];
      NothingRemains(srcs[1..]);
    }
  }

  lemma TaggedDrops(s: PostingSource, s': PostingSource)
    requires ValidPosition(s) && ValidPosition(s') && SameList(s', s)
    requires Rest(s) != [] && Rest(s') == Rest(s)[1..]
    ensures Tagged(s) == [Tag(s.docs, s.sourceIdx, Rest(s)[0])] + Tagged(s')
    ensures multiset(Tagged(s)) == multiset(Tagged(s')) + multiset{Tag(s.docs, s.sourceIdx, Rest(s)[0])}
  {
    hide Rest, ValidPosition, Tag;
    MapHead(Rest(s), TagOf(s.docs, s.sourceIdx));
  }

  lemma MapHead<T, U>(xs: seq<T>, f: T -> U)
    requires xs != []
    ensures Map(xs, f) == [f(xs[0])] + Map(xs[1..], f)
  {
  }

  // ---------- order ----------

  ghost predicate InCtidOrder(cs: seq<Collected>) {
    forall i, j :: 0 <= i < j < |cs| ==> !Before(cs[j].ctid, cs[i].ctid)
  }

  ghost predicate SourcesInOrder(srcs: seq<PostingSource>)
    requires ValidPositions(srcs)
  {
    forall i :: 0 <= i < |srcs| ==> InCtidOrder(Tagged(srcs[i]))
  }

  /** Everything collected lies at or before everything still to come. */
  ghost predicate MergedInOrder(cs: seq<Collected>, srcs: seq<PostingSource>)
    requires ValidPositions(srcs)
  {
    && SourcesInOrder(srcs) && InCtidOrder(cs)
    && forall k :: 0 <= k < |cs| ==> NoCurrentBefore(srcs, cs[k].ctid)
  }

  lemma NotBeforeTransitive(a: ItemPointer, b: ItemPointer, c: ItemPointer)
    requires !Before(b, a) && !Before(c, b)
    ensures !Before(c, a)
  {
  }

  lemma TailInOrder(cs: seq<Collected>, c: Collected, rest: seq<Collected>)
    requires InCtidOrder(cs) && cs == [c] + rest
    ensures InCtidOrder(rest) && (rest != [] ==> !Before(rest[0].ctid, c.ctid))
  {
    assert cs[0] == c;
    assert forall i :: 0 <= i < |rest| ==> rest[i] == cs[i + 1];
  }

  lemma NextNotBefore(srcs: seq<PostingSource>, m: nat, s: PostingSource, x: ItemPointer, c: ItemPointer)
    requires ValidPositions(srcs) && m < |srcs| && ValidPosition(s) && NoCurrentBefore(srcs, x)
    requires !Before(c, x) && (!s.exhausted ==> !Before(Current(s).ctid, c))
    ensures NoCurrentBefore(srcs[m := s], x)
  {
    hide ValidPosition, Current;
    if !s.exhausted { NotBeforeTransitive(x, c, Current(s).ctid); }
  }

  lemma OrderKept(cs: seq<Collected>, srcs: seq<PostingSource>, m: nat, s: PostingSource)
    requires ValidPositions(srcs) && m < |srcs| && ValidPosition(srcs[m]) && ValidPosition(s) && !srcs[m].exhausted
    requires Tagged(srcs[m]) == [Current(srcs[m])] + Tagged(s)
    requires MergedInOrder(cs, srcs) && NoCurrentBefore(srcs, Current(srcs[m]).ctid)
    ensures ValidPositions(srcs[m := s]) && MergedInOrder(cs + [Current(srcs[m])], srcs[m := s])
  {
    hide ValidPosition, Rest, Tagged, Current;
    var c := Current(srcs[m]);
    assert InCtidOrder(Tagged(srcs[m]));
    TailInOrder(Tagged(srcs[m]), c, Tagged(s));
    if !s.exhausted { CurrentIsFirst(s); }
    forall k | 0 <= k < |cs|
      ensures !Before(c.ctid, cs[k].ctid)
    {
      assert NoCurrentBefore(srcs, cs[k].ctid);
    }
    forall k | 0 <= k <= |cs|
      ensures NoCurrentBefore(srcs[m := s], (cs + [c])[k].ctid)
    {
      NextNotBefore(srcs, m, s, (cs + [c])[k].ctid, c.ctid);
    }
  }

  lemma CurrentIsFirst(s: PostingSource)
    requires ValidPosition(s) && !s.exhausted
    ensures |Tagged(s)| > 0 && Tagged(s)[0] == Current(s)
  {
  }

  // ---------- the merge loop ----------

  lemma CardOfSum<T>(a: multiset<T>, b: multiset<T>)
    ensures |a + b| == |a| + |b|
  {
  }

  /** One round: collect the least current posting and move its source on. */
  method CollectOne(sources: array<PostingSource>, minIdx: nat, ghost cs: seq<Collected>) returns (c: Collected)
    requires ValidPositions(sources[..]) && minIdx < sources.Length && !sources[minIdx].exhausted
    requires NoCurrentBefore(sources[..], Current(sources[minIdx]).ctid)
    modifies sources
    ensures ValidPositions(sources[..]) && Remaining(old(sources[..])) == Remaining(sources[..]) + multiset{c}
    ensures MergedInOrder(cs, old(sources[..])) ==> MergedInOrder(cs + [c], sources[..])
  {
    hide Remaining, MergedInOrder, Rest, Tagged, ValidBlocks;
    ghost var start := sources[..];
    assert ValidPosition(start[minIdx]);
    c := Current(sources[minIdx]);
    var s := AdvancePosting(sources[minIdx]);
    TaggedDrops(start[minIdx], s);
    RemainingUpdate(start, minIdx, s, c);
    if MergedInOrder(cs, start) { OrderKept(cs, start, minIdx, s); }
    sources[minIdx] := s;
    assert sources[..] == start[minIdx := s];
  }

  /**
   * The loop of collect_term_postings. Every posting is collected exactly once; and when each
   * source is in CTID order, as without tenants, so is the result.
   */
  method CollectPostings(start: seq<PostingSource>) returns (cs: seq<Collected>)
    requires ValidPositions(start)
    ensures multiset(cs) == Remaining(start)
    ensures SourcesInOrder(start) ==> InCtidOrder(cs)
  {
    hide Remaining, ValidPosition, MergedInOrder, InCtidOrder, SourcesInOrder, NoCurrentBefore, Tagged, Rest;
    var sources := new PostingSource[|start|](i requires 0 <= i < |start| => start[i]);
    assert sources[..] == start;
    cs := [];
    StartsInOrder(start);
    while true
      invariant ValidPositions(sources[..]) && multiset(cs) + Remaining(sources[..]) == Remaining(start)
      invariant SourcesInOrder(start) ==> MergedInOrder(cs, sources[..])
      decreases |Remaining(sources[..])|
    {
      ghost var before := Remaining(sources[..]);
      var minIdx := FindMinPosting(sources);
      if minIdx < 0 { break; }
      var c := CollectOne(sources, minIdx, cs);
      CardOfSum(Remaining(sources[..]), multiset{c});
      cs := cs + [c];
    }
    NothingRemains(sources[..]);
    OrderOfMerged(cs, sources[..]);
  }

  lemma StartsInOrder(srcs: seq<PostingSource>)
    requires ValidPositions(srcs)
    ensures SourcesInOrder(srcs) ==> MergedInOrder([], srcs)
  {
  }

  lemma OrderOfMerged(cs: seq<Collected>, srcs: seq<PostingSource>)
    requires ValidPositions(srcs)
    ensures MergedInOrder(cs, srcs) ==> InCtidOrder(cs)
  {
  }
}
