/**
 * Reading the results out of the heap (tp_topk_resolve_ctids and tp_topk_extract,
 * src/query/bmw.c): segment documents get their CTIDs, then everything is sorted.
 */
module Extraction {
  import opened ItemPointers
  import opened QSort
  import opened Sums
  import opened TopK
  import opened Wrappers

  datatype Hit = Hit(ctid: ItemPointer, score: real)

  /** The CTID column of the segment rooted at a block; None when the block is outside the relation. */
  type Columns = nat -> Option<seq<ItemPointer>>

  function Resolved(e: RawEntry, columns: Columns): ItemPointer {
    if e.segBlock != INVALID_BLOCK_NUMBER && columns(e.segBlock).Some? && e.docId < |columns(e.segBlock).value|
    then columns(e.segBlock).value[e.docId]
    else e.ctid
  }

  /** Every segment slot points into its segment's column. */
  ghost predicate InColumns(e: RawEntry, columns: Columns) {
    e.segBlock != INVALID_BLOCK_NUMBER && columns(e.segBlock).Some? ==> e.docId < |columns(e.segBlock).value|
  }

  /** What is left of the heap's shape once CTIDs have been resolved. */
  ghost predicate Allocated(heap: TopKHeap)
    reads heap
  {
    && heap.size <= heap.capacity && heap.segBlocks != heap.docIds
    && heap.ctids.Length == heap.segBlocks.Length == heap.docIds.Length == heap.scores.Length == heap.capacity
  }

  ghost predicate SlotResolved(heap: TopKHeap, i: nat, was: seq<Entry>, columns: Columns)
    requires Allocated(heap) && i < heap.size && i < |was|
    reads heap, heap.ctids, heap.segBlocks
  {
    heap.ctids[i] == Resolved(was[i], columns) && heap.segBlocks[i] == INVALID_BLOCK_NUMBER
  }

  ghost predicate SlotUntouched(heap: TopKHeap, i: nat, was: seq<Entry>)
    requires Allocated(heap) && i < heap.size && i < |was|
    reads heap, heap.ctids, heap.segBlocks
  {
    heap.ctids[i] == was[i].ctid && heap.segBlocks[i] == was[i].segBlock
  }

  /** Each slot is either resolved or untouched. */
  ghost predicate PartlyResolved(heap: TopKHeap, was: seq<Entry>, columns: Columns)
    reads heap, heap.ctids, heap.segBlocks
  {
    && Allocated(heap) && |was| == heap.size
    && forall i :: 0 <= i < heap.size ==> SlotResolved(heap, i, was, columns) || SlotUntouched(heap, i, was)
  }

  /** Every slot before i that still names a segment names one that cannot be opened. */
  ghost predicate DoneBefore(heap: TopKHeap, i: nat, columns: Columns)
    requires Allocated(heap) && i <= heap.size
    reads heap, heap.segBlocks
  {
    forall j :: 0 <= j < i ==> heap.segBlocks[j] == INVALID_BLOCK_NUMBER || columns(heap.segBlocks[j]).None?
  }

  /** Open one segment and resolve all its slots from i on. */
  method ResolveSegment(heap: TopKHeap, i: nat, segBlock: nat, columns: Columns, ghost was: seq<Entry>)
    requires PartlyResolved(heap, was, columns) && i < heap.size && DoneBefore(heap, i, columns)
    requires heap.segBlocks[i] == segBlock != INVALID_BLOCK_NUMBER && columns(segBlock).Some?
    requires forall j :: 0 <= j < heap.size ==> heap.docIds[j] == was[j].docId && InColumns(was[j], columns)
    modifies heap.ctids, heap.segBlocks
    ensures PartlyResolved(heap, was, columns) && DoneBefore(heap, i + 1, columns)
  {
    var column := columns(segBlock).value;
    var j := i;
    while j < heap.size
      invariant i <= j <= heap.size
      invariant PartlyResolved(heap, was, columns) && DoneBefore(heap, i, columns)
      invariant i < j ==> heap.segBlocks[i] == INVALID_BLOCK_NUMBER
      invariant heap.segBlocks[i] == segBlock || heap.segBlocks[i] == INVALID_BLOCK_NUMBER
    {
      assert SlotResolved(heap, j, was, columns) || SlotUntouched(heap, j, was);
      if heap.segBlocks[j] == segBlock {
        assert heap.docIds[j] == was[j].docId && InColumns(was[j], columns);
        label before:
        heap.ctids[j] := column[heap.docIds[j]];
        heap.segBlocks[j] := INVALID_BLOCK_NUMBER;
        assert SlotResolved(heap, j, was, columns);
        forall m | 0 <= m < heap.size && m != j
          ensures SlotResolved(heap, m, was, columns) || SlotUntouched(heap, m, was)
        {
          assert old@before(SlotResolved(heap, m, was, columns) || SlotUntouched(heap, m, was));
        }
      }
      j := j + 1;
    }
  }

  /** tp_topk_resolve_ctids: every slot of a segment that can be opened gets its document's CTID. */
  method ResolveCtids(heap: TopKHeap, columns: Columns)
    requires heap.Valid() && forall e :: e in heap.Entries() ==> InColumns(e, columns)
    modifies heap.ctids, heap.segBlocks
    ensures Allocated(heap)
    ensures forall i :: 0 <= i < heap.size ==> heap.ctids[i] == Resolved(old(heap.Entries())[i], columns)
  {
    ghost var was := heap.Entries();
    assert forall j :: 0 <= j < heap.size ==> was[j] in was;
    var i := 0;
    while i < heap.size
      invariant 0 <= i <= heap.size
      invariant PartlyResolved(heap, was, columns) && DoneBefore(heap, i, columns)
    {
      var segBlock := heap.segBlocks[i];
      if segBlock != INVALID_BLOCK_NUMBER && columns(segBlock).Some? {
        ResolveSegment(heap, i, segBlock, columns, was);
      }
      i := i + 1;
    }
    forall j | 0 <= j < heap.size
      ensures heap.ctids[j] == Resolved(was[j], columns)
    {
      assert SlotResolved(heap, j, was, columns) || SlotUntouched(heap, j, was);
    }
  }

  /** compare_heap_entries: higher score first, then lower CTID. */
  predicate HitLeq(a: Hit, b: Hit) {
    a.score > b.score || (a.score == b.score && !Before(b.ctid, a.ctid))
  }

  lemma HitLeqIsTotal()
    ensures TotalPreorder(HitLeq)
  {
  }

  /** No hit scores below a later one, and at a tie no later hit has the lower block, or the lower offset in the same block. */
  ghost predicate BestFirst(hits: seq<Hit>) {
    forall i, j :: 0 <= i < j < |hits| ==>
      && hits[i].score >= hits[j].score
      && (hits[i].score == hits[j].score ==>
            && hits[i].ctid.block <= hits[j].ctid.block
            && (hits[i].ctid.block == hits[j].ctid.block ==> hits[i].ctid.offset <= hits[j].ctid.offset))
  }

  lemma SortedIsBestFirst(hits: seq<Hit>)
    requires SortedBy(hits, HitLeq)
    ensures BestFirst(hits)
  {
  }

  function Hits(heap: TopKHeap): (hits: seq<Hit>)
    requires Allocated(heap)
    reads heap, heap.ctids, heap.scores
    ensures |hits| == heap.size
  {
    seq(heap.size, i requires 0 <= i < heap.size reads heap, heap.ctids, heap.scores
                     requires Allocated(heap) => Hit(heap.ctids[i], heap.scores[i]))
  }

  /** tp_topk_extract: all hits, best first; the heap is empty afterwards. */
  method Extract(heap: TopKHeap) returns (hits: seq<Hit>)
    requires Allocated(heap)
    modifies heap
    ensures BestFirst(hits) && multiset(hits) == multiset(old(Hits(heap)))
    ensures |hits| == old(heap.size) && heap.size == 0
  {
    hits := Sort(Hits(heap), HitLeq);
    HitLeqIsTotal();
    SortSorts(Hits(heap), HitLeq);
    SortKeeps(Hits(heap), HitLeq);
    SortedIsBestFirst(hits);
    heap.size := 0;
  }

  ghost function ScoresOfHits(hits: seq<Hit>): seq<real> {
    seq(|hits|, i requires 0 <= i < |hits| => hits[i].score)
  }

  /** The hit that a slot turns into. */
  ghost function HitOf(columns: Columns): RawEntry -> Hit {
    (e: RawEntry) => Hit(Resolved(e, columns), e.score)
  }

  /** The hits are those of exactly these entries, each as often as it occurs among them. */
  ghost predicate HitsOf(hits: seq<Hit>, entries: seq<RawEntry>, columns: Columns) {
    multiset(hits) == multiset(Map(entries, HitOf(columns)))
  }

  /** The hits hold the heap's scores, one hit for each held entry, best first. */
  ghost predicate ReadsOut(hits: seq<Hit>, scores: multiset<real>, held: multiset<RawEntry>, columns: Columns) {
    && BestFirst(hits) && multiset(ScoresOfHits(hits)) == scores
    && exists entries: seq<RawEntry> :: multiset(entries) == held && HitsOf(hits, entries, columns)
  }

  lemma HitScoresPermuted(a: seq<Hit>, b: seq<Hit>)
    requires multiset(a) == multiset(b)
    ensures multiset(ScoresOfHits(a)) == multiset(ScoresOfHits(b))
  {
    var score := (h: Hit) => h.score;
    MapPermutation(a, b, score);
    assert ScoresOfHits(a) == Map(a, score) && ScoresOfHits(b) == Map(b, score);
  }

  /** Both steps together, as every search ends. */
  method ReadOut(heap: TopKHeap, columns: Columns) returns (hits: seq<Hit>)
    requires heap.Valid() && forall e :: e in heap.Entries() ==> InColumns(e, columns)
    modifies heap.Repr
    ensures ReadsOut(hits, old(heap.Scores()), old(heap.Held()), columns)
  {
    ghost var was := heap.Entries();
    ResolveCtids(heap, columns);
    ghost var raw := Hits(heap);
    ghost var entries: seq<RawEntry> := was;
    assert raw == Map(entries, HitOf(columns));
    assert ScoresOfHits(raw) == ScoresOf(was);
    hits := Extract(heap);
    HitScoresPermuted(hits, raw);
    assert multiset(entries) == multiset(was) && HitsOf(hits, entries, columns);
  }
}
