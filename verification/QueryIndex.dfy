/**
 * A query over an index of spilled segments: no row of the index is returned twice. What the levels
 * keep (no block in two chains, no row in two segments) makes the candidates of a query different
 * documents.
 */
module QueryIndex {
  import opened Completeness
  import opened Extraction
  import opened ItemPointers
  import opened Lsm
  import opened MemtableScoring
  import opened Merge
  import opened Postings
  import opened Search
  import opened SearchSingle
  import opened Sequences
  import opened SingleTerm
  import opened Sums
  import opened TopK
  import opened Wand
  import opened WandSearch
  import opened WandSegment
  import opened WandSpec
  import opened Wrappers

  /** The CTID columns of the segments of an index. */
  ghost function ColumnsOf(s: State): Columns {
    (b: nat) => if b in s.store then Some(s.store[b].data.docs.ctids) else None
  }

  /** Slots of one segment of n documents: each document at most once. */
  ghost predicate OnePerDoc(slots: multiset<RawEntry>, rootBlock: nat, n: nat) {
    && AtMostOnce(slots) && (forall e :: e in slots ==> e.segBlock == rootBlock && e.docId < n)
    && forall e, g :: e in slots && g in slots && e.docId == g.docId ==> e == g
  }

  /** Memtable slots: each of these rows at most once. */
  ghost predicate OnePerRow(slots: multiset<RawEntry>, rows: set<ItemPointer>) {
    && AtMostOnce(slots) && (forall e :: e in slots ==> e.segBlock == INVALID_BLOCK_NUMBER && e.ctid in rows)
    && forall e, g :: e in slots && g in slots && e.ctid == g.ctid ==> e == g
  }

  /** A query's levels are those of the index, and `slots` gives each segment's candidates. */
  ghost predicate Covers<V(!new)>(s: State, levels: seq<seq<Segment<V>>>, slots: Segment<V> -> multiset<RawEntry>) {
    && |levels| == |s.chains|
    && forall l :: 0 <= l < |levels| ==> CoversLevel(s, s.chains[l], levels[l], slots)
  }

  ghost predicate CoversLevel<V(!new)>(s: State, chain: seq<nat>, level: seq<Segment<V>>,
                                             slots: Segment<V> -> multiset<RawEntry>) {
    && |level| == |chain|
    && forall i :: 0 <= i < |level| ==>
         chain[i] in s.store && OnePerDoc(slots(level[i]), chain[i], |s.store[chain[i]].data.docs.ctids|)
  }

  /** A level's candidates are those of its segments together. */
  ghost predicate ByLevel<V(!new)>(levels: seq<seq<Segment<V>>>, slots: Segment<V> -> multiset<RawEntry>,
                             byLevel: seq<Segment<V>> -> multiset<RawEntry>) {
    forall l :: 0 <= l < |levels| ==> byLevel(levels[l]) == UnionOver(levels[l], slots)
  }

  lemma SlotInLevel<V(!new)>(s: State, chain: seq<nat>, level: seq<Segment<V>>,
                             slots: Segment<V> -> multiset<RawEntry>, e: RawEntry)
    returns (i: nat)
    requires CoversLevel(s, chain, level, slots) && e in UnionOver(level, slots)
    ensures i < |chain| == |level| && e in slots(level[i]) && e.segBlock == chain[i] && chain[i] in s.store
    ensures e.docId < |s.store[chain[i]].data.docs.ctids|
    ensures OnePerDoc(slots(level[i]), chain[i], |s.store[chain[i]].data.docs.ctids|)
  {
    UnionMember(level, slots, e);
    i :| 0 <= i < |level| && e in slots(level[i]);
  }

  lemma LevelHasOnce<V(!new)>(s: State, chain: seq<nat>, level: seq<Segment<V>>,
                              slots: Segment<V> -> multiset<RawEntry>, e: RawEntry)
    requires CoversLevel(s, chain, level, slots) && Distinct(chain)
    ensures UnionOver(level, slots)[e] <= 1
    ensures e in UnionOver(level, slots) ==> e.segBlock in chain
  {
    forall i | 0 <= i < |level|
      ensures slots(level[i])[e] <= 1 && (e in slots(level[i]) ==> e.segBlock == chain[i])
    {
      assert OnePerDoc(slots(level[i]), chain[i], |s.store[chain[i]].data.docs.ctids|);
    }
    UnionOnce(level, slots, e);
    if e in UnionOver(level, slots) {
      var i := SlotInLevel(s, chain, level, slots, e);
    }
  }

  /** Across the levels, too, every candidate occurs once. */
  lemma IndexHasOnce<V(!new)>(s: State, levels: seq<seq<Segment<V>>>, slots: Segment<V> -> multiset<RawEntry>,
                        byLevel: seq<Segment<V>> -> multiset<RawEntry>, e: RawEntry)
    requires ApartChains(s.chains) && AllDistinct(s.chains) && Covers(s, levels, slots) && ByLevel(levels, slots, byLevel)
    ensures UnionOver(levels, byLevel)[e] <= 1
  {
    hide CoversLevel, Distinct;
    forall l | 0 <= l < |levels|
      ensures byLevel(levels[l])[e] <= 1 && (e in byLevel(levels[l]) ==> e.segBlock in s.chains[l])
    {
      LevelHasOnce(s, s.chains[l], levels[l], slots, e);
    }
    UnionOnce(levels, byLevel, e);
  }

  lemma SlotInIndex<V(!new)>(s: State, levels: seq<seq<Segment<V>>>, slots: Segment<V> -> multiset<RawEntry>,
                       byLevel: seq<Segment<V>> -> multiset<RawEntry>, e: RawEntry)
    returns (l: nat, i: nat)
    requires Covers(s, levels, slots) && ByLevel(levels, slots, byLevel) && e in UnionOver(levels, byLevel)
    ensures l < |levels| == |s.chains| && i < |s.chains[l]| == |levels[l]| && e in slots(levels[l][i])
    ensures e.segBlock == s.chains[l][i] && e.segBlock in s.store && e.docId < |s.store[e.segBlock].data.docs.ctids|
    ensures OnePerDoc(slots(levels[l][i]), s.chains[l][i], |s.store[e.segBlock].data.docs.ctids|)
  {
    hide CoversLevel, OnePerDoc;
    UnionMember(levels, byLevel, e);
    l :| 0 <= l < |levels| && e in byLevel(levels[l]);
    i := SlotInLevel(s, s.chains[l], levels[l], slots, e);
  }

  lemma SamePlace(chains: seq<seq<nat>>, l: nat, i: nat, m: nat, j: nat)
    requires ApartChains(chains) && AllDistinct(chains) && l < |chains| && m < |chains| && i < |chains[l]| &&
             j < |chains[m]|
    requires chains[l][i] == chains[m][j]
    ensures l == m && i == j
  {
    assert chains[l][i] in chains[l] && chains[m][j] in chains[m];
    assert Distinct(chains[l]);
  }

  /** Candidates of two segments of an index that name the same row are the same. */
  lemma SameRowSameSlot<V(!new)>(s: State, levels: seq<seq<Segment<V>>>, slots: Segment<V> -> multiset<RawEntry>,
                           byLevel: seq<Segment<V>> -> multiset<RawEntry>, e: RawEntry, g: RawEntry)
    requires Sound(s) && Covers(s, levels, slots) && ByLevel(levels, slots, byLevel)
    requires e in UnionOver(levels, byLevel) && g in UnionOver(levels, byLevel) && INVALID_BLOCK_NUMBER !in s.store
    requires Resolved(e, ColumnsOf(s)) == Resolved(g, ColumnsOf(s))
    ensures e == g
  {
    hide Covers, ByLevel, ApartChains, AllDistinct, Merge.ValidSegment, UnionOver, Linked;
    var l, i := SlotInIndex(s, levels, slots, byLevel, e);
    var m, j := SlotInIndex(s, levels, slots, byLevel, g);
    var a, b := s.store[e.segBlock].data, s.store[g.segBlock].data;
    assert a.docs.ctids[e.docId] == b.docs.ctids[g.docId];
    assert a.docs.ctids[e.docId] in RowSet(a) && b.docs.ctids[g.docId] in RowSet(b);
    assert e.segBlock == g.segBlock;
    SamePlace(s.chains, l, i, m, j);
    assert e.docId == g.docId;
  }

  lemma SlotNamesRow<V(!new)>(s: State, levels: seq<seq<Segment<V>>>, slots: Segment<V> -> multiset<RawEntry>,
                        byLevel: seq<Segment<V>> -> multiset<RawEntry>, e: RawEntry)
    requires Covers(s, levels, slots) && ByLevel(levels, slots, byLevel) && INVALID_BLOCK_NUMBER !in s.store
    requires e in UnionOver(levels, byLevel)
    ensures e.segBlock != INVALID_BLOCK_NUMBER && InColumns(e, ColumnsOf(s)) && Resolved(e, ColumnsOf(s)) in Rows(s)
  {
    hide Covers, ByLevel, UnionOver;
    var l, i := SlotInIndex(s, levels, slots, byLevel, e);
    assert s.store[e.segBlock].data.docs.ctids[e.docId] in RowSet(s.store[e.segBlock].data);
  }

  /** The candidates of a query over memtable and index are different documents, all in their columns. */
  lemma CandidatesDiffer<V(!new)>(s: State, levels: seq<seq<Segment<V>>>, slots: Segment<V> -> multiset<RawEntry>,
                            byLevel: seq<Segment<V>> -> multiset<RawEntry>, mem: multiset<RawEntry>,
                            rows: set<ItemPointer>)
    requires Sound(s) && INVALID_BLOCK_NUMBER !in s.store && Covers(s, levels, slots) && ByLevel(levels, slots, byLevel)
    requires OnePerRow(mem, rows) && rows !! Rows(s)
    ensures DifferentDocs(mem + UnionOver(levels, byLevel), ColumnsOf(s))
    ensures SlotsInColumns(mem + UnionOver(levels, byLevel), ColumnsOf(s))
  {
    hide Covers, ByLevel, Sound, UnionOver, Rows;
    var all, seg := mem + UnionOver(levels, byLevel), UnionOver(levels, byLevel);
    forall e | e in seg
      ensures e.segBlock != INVALID_BLOCK_NUMBER && InColumns(e, ColumnsOf(s)) && Resolved(e, ColumnsOf(s)) in Rows(s)
    {
      SlotNamesRow(s, levels, slots, byLevel, e);
    }
    forall e
      ensures seg[e] <= 1
    {
      SoundIsApart(s);
      IndexHasOnce(s, levels, slots, byLevel, e);
    }
    forall e, g | e in all && g in all && Resolved(e, ColumnsOf(s)) == Resolved(g, ColumnsOf(s))
      ensures e == g
    {
      assert e in mem || e in seg;
      assert g in mem || g in seg;
      if e in seg && g in seg {
        SameRowSameSlot(s, levels, slots, byLevel, e, g);
      }
    }
  }

  lemma SoundIsApart(s: State)
    requires Sound(s)
    ensures ApartChains(s.chains) && AllDistinct(s.chains)
  {
    hide RowsDisjoint, Linked;
  }

  /** Where a hit comes from: a candidate, resolved through its segment's column. */
  lemma HitHasEntry(h: Hit, hits: seq<Hit>, scores: multiset<real>, slots: multiset<RawEntry>, columns: Columns, k: nat)
    returns (e: RawEntry)
    requires SearchResult(hits, scores, slots, columns, k) && h in hits
    ensures e in slots && h == Hit(Resolved(e, columns), e.score)
  {
    hide Resolved, BestFirst;
    var entries: seq<RawEntry> :| multiset(entries) <= slots && HitsOf(hits, entries, columns);
    assert h in multiset(hits);
    assert h in Map(entries, HitOf(columns));
    var i :| 0 <= i < |entries| && Map(entries, HitOf(columns))[i] == h;
    e := entries[i];
    assert e in multiset(entries);
  }

  // ---------- reading the segments of an index ----------

  /** The segment at block b of the index; `from` says how a query's view comes from its dictionary. */
  ghost predicate ReadsSegment<V>(g: Segment<V>, b: nat, data: SegmentData, from: (V, SegmentData) -> bool) {
    g.rootBlock == b && b < INVALID_BLOCK_NUMBER && g.tenants == data.docs.tenants && from(g.view, data)
  }

  ghost predicate ReadsChain<V>(level: seq<Segment<V>>, chain: seq<nat>, store: map<nat, Stored>,
                                from: (V, SegmentData) -> bool) {
    && |level| == |chain|
    && forall i :: 0 <= i < |chain| ==>
         chain[i] in store && ReadsSegment(level[i], chain[i], store[chain[i]].data, from)
  }

  ghost predicate ReadsIndex<V>(levels: seq<seq<Segment<V>>>, s: State, from: (V, SegmentData) -> bool) {
    && |levels| == |s.chains|
    && forall l :: 0 <= l < |levels| ==> ReadsChain(levels[l], s.chains[l], s.store, from)
  }

  ghost predicate ListOfSegment(blocks: seq<seq<BlockPosting>>, data: SegmentData) {
    exists k :: 0 <= k < |data.lists| && blocks == data.lists[k].blocks
  }

  lemma DocInSegment(blocks: seq<seq<BlockPosting>>, data: SegmentData, b: nat, j: nat)
    requires Merge.ValidSegment(data) && ListOfSegment(blocks, data) && b < |blocks| && j < |blocks[b]|
    ensures blocks[b][j].docId < |data.docs.ctids|
  {
    hide NormsAgree;
    var k :| 0 <= k < |data.lists| && blocks == data.lists[k].blocks;
    assert ValidPostingList(data.lists[k], data.docs);
  }

  // ---------- several terms ----------

  /** The lists of the query's terms, each read from the segment's dictionary. */
  ghost function InputsRead(): (seq<TermInput>, SegmentData) -> bool {
    (view: seq<TermInput>, data: SegmentData) =>
      forall i :: 0 <= i < |view| ==> view[i].found ==> ListOfSegment(view[i].blocks, data)
  }

  lemma SegmentIsOnePerDoc(g: MultiSegment, b: nat, data: SegmentData, tenantId: nat)
    requires ReadsSegment(g, b, data, InputsRead()) && Merge.ValidSegment(data)
    ensures OnePerDoc(SegmentSlots(tenantId)(g), b, |data.docs.ctids|)
  {
    SlotsOnce(g, tenantId);
    hide Merge.ValidSegment, FullScore, SegmentSlots, InputsRead, HasAny;
    forall e | e in SegmentSlots(tenantId)(g)
      ensures e.segBlock == b && e.docId < |data.docs.ctids|
      ensures e == RawEntry(INVALID_POINTER, b, e.docId, FullScore(InputLists(g.view), e.docId))
    {
      SegmentSlotsAreTenants(g, tenantId, e);
      DocWithTerm(g, b, data, e.docId);
    }
  }

  lemma SlotsOnce(g: MultiSegment, tenantId: nat)
    ensures AtMostOnce(SegmentSlots(tenantId)(g))
  {
    hide FullScore, SegmentDocs;
  }

  lemma DocWithTerm(g: MultiSegment, b: nat, data: SegmentData, d: nat)
    requires ReadsSegment(g, b, data, InputsRead()) && Merge.ValidSegment(data) && HasAny(InputLists(g.view), d)
    ensures d < |data.docs.ctids|
  {
    hide Merge.ValidSegment, ListOfSegment;
    var q := InputLists(g.view);
    var i :| 0 <= i < |q| && Has(q[i], d);
    var c: nat, j: nat :| At(q[i], d, c, j);
    DocInSegment(g.view[i].blocks, data, c, j);
  }

  lemma MemtableIsOnePerRow(terms: seq<MemTerm>, tenantId: nat)
    ensures OnePerRow(MemtableSlots(terms, tenantId), MemDocs(terms, tenantId))
  {
    hide MemDocs, DocScoreOf;
  }

  lemma ReadIsCovered(s: State, levels: seq<seq<MultiSegment>>, tenantId: nat)
    requires Sound(s) && ReadsIndex(levels, s, InputsRead())
    ensures Covers(s, levels, SegmentSlots(tenantId)) && ByLevel(levels, SegmentSlots(tenantId), ChainSlots(tenantId))
  {
    hide OnePerDoc, ReadsSegment, LevelsHold, Merge.ValidSegment, SegmentSlots;
    forall l, i | 0 <= l < |levels| && 0 <= i < |levels[l]|
      ensures |levels[l]| == |s.chains[l]| && s.chains[l][i] in s.store
      ensures OnePerDoc(SegmentSlots(tenantId)(levels[l][i]), s.chains[l][i], |s.store[s.chains[l][i]].data.docs.ctids|)
    {
      assert ReadsChain(levels[l], s.chains[l], s.store, InputsRead());
      SegmentIsOnePerDoc(levels[l][i], s.chains[l][i], s.store[s.chains[l][i]].data, tenantId);
    }
  }

  /** A memtable row that contains a query term, with its full score. */
  ghost predicate FromMemtable(h: Hit, terms: seq<MemTerm>, tenantId: nat) {
    h.ctid in MemDocs(terms, tenantId) && h.score == DocScore(terms, tenantId, h.ctid)
  }

  /** The row of document d of a segment, which contains a query term, with that document's full score. */
  ghost predicate FromSegment(h: Hit, g: MultiSegment, ctids: seq<ItemPointer>, tenantId: nat, d: nat) {
    d < |ctids| && h.ctid == ctids[d] && d in SegmentDocs(g, tenantId) && h.score == FullScore(InputLists(g.view), d)
  }

  /** The segment that answers for the i-th block of level l's chain. */
  ghost predicate FromLevel(h: Hit, levels: seq<seq<MultiSegment>>, s: State, tenantId: nat, l: nat, i: nat, d: nat) {
    && l < |levels| && l < |s.chains| && i < |levels[l]| && i < |s.chains[l]| && s.chains[l][i] in s.store
    && FromSegment(h, levels[l][i], s.store[s.chains[l][i]].data.docs.ctids, tenantId, d)
  }

  ghost predicate NamesRow(h: Hit, terms: seq<MemTerm>, levels: seq<seq<MultiSegment>>, s: State, tenantId: nat) {
    FromMemtable(h, terms, tenantId) || exists l: nat, i: nat, d: nat :: FromLevel(h, levels, s, tenantId, l, i, d)
  }

  lemma HitNamesRow(h: Hit, hits: seq<Hit>, terms: seq<MemTerm>, levels: seq<seq<MultiSegment>>, s: State,
                    tenantId: nat, k: nat)
    requires Sound(s) && INVALID_BLOCK_NUMBER !in s.store && ReadsIndex(levels, s, InputsRead()) && h in hits
    requires SearchResult(hits, IndexScores(terms, levels, tenantId), IndexSlots(terms, levels, tenantId),
             ColumnsOf(s), k)
    ensures NamesRow(h, terms, levels, s, tenantId)
  {
    hide SearchResult, Sound, Covers, ByLevel, DocScore, MemDocs, FullScore, SegmentDocs, SegmentSlots, ReadsIndex,
        OnePerDoc;
    var e := HitHasEntry(h, hits, IndexScores(terms, levels, tenantId), IndexSlots(terms, levels, tenantId),
        ColumnsOf(s), k);
    if e in MemtableSlots(terms, tenantId) {
      assert FromMemtable(h, terms, tenantId);
    } else {
      assert e in UnionOver(levels, ChainSlots(tenantId));
      ReadIsCovered(s, levels, tenantId);
      var l, i := SlotInIndex(s, levels, SegmentSlots(tenantId), ChainSlots(tenantId), e);
      SlotOfSegment(levels[l][i], tenantId, e);
      assert FromLevel(h, levels, s, tenantId, l, i, e.docId);
    }
  }

  lemma SlotOfSegment(g: MultiSegment, tenantId: nat, e: RawEntry)
    requires e in SegmentSlots(tenantId)(g)
    ensures e.docId in SegmentDocs(g, tenantId) && e.score == FullScore(InputLists(g.view), e.docId)
  {
    hide FullScore, SegmentDocs;
  }

  /** No row of the memtable with a query term, and none of a segment, is left out for a worse one. */
  ghost predicate NothingBetterLeftOut(hits: seq<Hit>, terms: seq<MemTerm>, levels: seq<seq<MultiSegment>>, s: State,
                                       tenantId: nat, k: nat) {
    && (forall h :: FromMemtable(h, terms, tenantId) ==> ReturnedOrBeaten(h, hits, k))
    && (forall h, l: nat, i: nat, d: nat :: FromLevel(h, levels, s, tenantId, l, i, d) ==> ReturnedOrBeaten(h, hits, k))
  }

  lemma MemtableRowKept(h: Hit, hits: seq<Hit>, terms: seq<MemTerm>, levels: seq<seq<MultiSegment>>, s: State,
                        tenantId: nat, k: nat)
    requires ValidLevels(levels) && FromMemtable(h, terms, tenantId)
    requires SearchResult(hits, IndexScores(terms, levels, tenantId), IndexSlots(terms, levels, tenantId),
             ColumnsOf(s), k)
    ensures ReturnedOrBeaten(h, hits, k)
  {
    hide SearchResult, DocScore, MemDocs, ValidLevels, ReturnedOrBeaten;
    var e := RawEntry(h.ctid, INVALID_BLOCK_NUMBER, 0, h.score);
    assert e == MemSlot(h.ctid, DocScoreOf(terms, tenantId)(h.ctid)) && e in MemtableSlots(terms, tenantId);
    ScoresOfIndex(terms, levels, tenantId);
    LeftOutNoBetter(hits, IndexScores(terms, levels, tenantId), IndexSlots(terms, levels, tenantId), ColumnsOf(s), k, e);
  }

  lemma SegmentRowKept(h: Hit, hits: seq<Hit>, terms: seq<MemTerm>, levels: seq<seq<MultiSegment>>, s: State,
                       tenantId: nat, k: nat, l: nat, i: nat, d: nat)
    requires Sound(s) && INVALID_BLOCK_NUMBER !in s.store && ReadsIndex(levels, s, InputsRead()) && ValidLevels(levels)
    requires SearchResult(hits, IndexScores(terms, levels, tenantId), IndexSlots(terms, levels, tenantId),
             ColumnsOf(s), k)
    requires FromLevel(h, levels, s, tenantId, l, i, d)
    ensures ReturnedOrBeaten(h, hits, k)
  {
    RootOf(levels, s, InputsRead(), l, i);
    hide SearchResult, FullScore, SegmentDocs, SegmentSlots, ValidLevels, ReturnedOrBeaten, Sound, ReadsIndex,
        InputsRead, IndexSlots, IndexScores;
    hide Resolved, ColumnsOf, Distinct;
    var g := levels[l][i];
    var e := RawEntry(INVALID_POINTER, g.rootBlock, d, h.score);
    ResolvedIn(s, e);
    SlotOfDoc(g, tenantId, d);
    SlotOfLevel(terms, levels, tenantId, l, i, e);
    ScoresOfIndex(terms, levels, tenantId);
    LeftOutNoBetter(hits, IndexScores(terms, levels, tenantId), IndexSlots(terms, levels, tenantId), ColumnsOf(s), k, e);
  }

  lemma RootOf<V>(levels: seq<seq<Segment<V>>>, s: State, from: (V, SegmentData) -> bool, l: nat, i: nat)
    requires ReadsIndex(levels, s, from) && l < |levels| && i < |levels[l]|
    ensures |s.chains| == |levels| && |s.chains[l]| == |levels[l]| && s.chains[l][i] in s.store
    ensures levels[l][i].rootBlock == s.chains[l][i] < INVALID_BLOCK_NUMBER
  {
    assert ReadsChain(levels[l], s.chains[l], s.store, from);
  }

  lemma ResolvedIn(s: State, e: RawEntry)
    requires INVALID_BLOCK_NUMBER !in s.store && e.segBlock in s.store && e.docId < |s.store[e.segBlock].data.docs.ctids|
    ensures Resolved(e, ColumnsOf(s)) == s.store[e.segBlock].data.docs.ctids[e.docId]
  {
  }

  lemma SlotOfLevel(terms: seq<MemTerm>, levels: seq<seq<MultiSegment>>, tenantId: nat, l: nat, i: nat, e: RawEntry)
    requires l < |levels| && i < |levels[l]| && e in SegmentSlots(tenantId)(levels[l][i])
    ensures e in IndexSlots(terms, levels, tenantId)
  {
    hide SegmentSlots, UnionOver, MemtableSlots;
    UnionHas(levels[l], SegmentSlots(tenantId), i, e);
    UnionHas(levels, ChainSlots(tenantId), l, e);
  }

  lemma SlotOfDoc(g: MultiSegment, tenantId: nat, d: nat)
    requires g.rootBlock < INVALID_BLOCK_NUMBER && d in SegmentDocs(g, tenantId)
    ensures RawEntry(INVALID_POINTER, g.rootBlock, d, FullScore(InputLists(g.view), d)) in SegmentSlots(tenantId)(g)
  {
    hide FullScore, SegmentDocs;
    assert SlotFor(g.rootBlock, d, FullScore(InputLists(g.view), d)) in
           Candidates(InputLists(g.view), g.rootBlock, SegmentDocs(g, tenantId));
  }

  lemma RowsKept(hits: seq<Hit>, terms: seq<MemTerm>, levels: seq<seq<MultiSegment>>, s: State, tenantId: nat, k: nat)
    requires Sound(s) && INVALID_BLOCK_NUMBER !in s.store && ReadsIndex(levels, s, InputsRead()) && ValidLevels(levels)
    requires SearchResult(hits, IndexScores(terms, levels, tenantId), IndexSlots(terms, levels, tenantId),
             ColumnsOf(s), k)
    ensures NothingBetterLeftOut(hits, terms, levels, s, tenantId, k)
  {
    hide SearchResult, FromMemtable, FromLevel, ReturnedOrBeaten, Sound, ReadsIndex, ValidLevels, IndexScores, IndexSlots;
    forall h | FromMemtable(h, terms, tenantId)
      ensures ReturnedOrBeaten(h, hits, k)
    {
      MemtableRowKept(h, hits, terms, levels, s, tenantId, k);
    }
    forall h, l: nat, i: nat, d: nat | FromLevel(h, levels, s, tenantId, l, i, d)
      ensures ReturnedOrBeaten(h, hits, k)
    {
      SegmentRowKept(h, hits, terms, levels, s, tenantId, k, l, i, d);
    }
  }

  /**
   * tp_score_multi_term_bmw over an index of spilled segments and a memtable whose rows are in no
   * segment: sorted, the k best scores, and no row twice.
   */
  method SearchIndex(terms: seq<MemTerm>, levels: seq<seq<MultiSegment>>, maxResults: nat, tenantId: nat,
                     columns: Columns, ghost s: State)
    returns (hits: seq<Hit>)
    requires 0 < maxResults && tenantId != UINT32_MAX && ValidMemTerms(terms) && ValidLevels(levels)
    requires Sound(s) && INVALID_BLOCK_NUMBER !in s.store && ReadsIndex(levels, s, InputsRead()) &&
             columns == ColumnsOf(s)
    requires MemDocs(terms, tenantId) !! Rows(s)
    ensures SearchResult(hits, IndexScores(terms, levels, tenantId), IndexSlots(terms, levels, tenantId), columns,
            maxResults)
    ensures Distinct(Map(hits, CtidOf())) && forall h :: h in hits ==> NamesRow(h, terms, levels, s, tenantId)
    ensures NothingBetterLeftOut(hits, terms, levels, s, tenantId, maxResults)
  {
    ReadIsCovered(s, levels, tenantId);
    MemtableIsOnePerRow(terms, tenantId);
    CandidatesDiffer(s, levels, SegmentSlots(tenantId), ChainSlots(tenantId),
                     MemtableSlots(terms, tenantId), MemDocs(terms, tenantId));
    ghost var scores, slots := IndexScores(terms, levels, tenantId), IndexSlots(terms, levels, tenantId);
    assert slots == MemtableSlots(terms, tenantId) + UnionOver(levels, ChainSlots(tenantId));
    hide *;
    hits := ScoreMultiTermBmw(terms, levels, maxResults, tenantId, columns);
    NoDocumentTwice(hits, scores, slots, columns, maxResults);
    forall h | h in hits
      ensures NamesRow(h, terms, levels, s, tenantId)
    {
      HitNamesRow(h, hits, terms, levels, s, tenantId, maxResults);
    }
    RowsKept(hits, terms, levels, s, tenantId, maxResults);
  }

  // ---------- one term ----------

  ghost function ListRead(): (TermList, SegmentData) -> bool {
    (view: TermList, data: SegmentData) => view.found ==> ListOfSegment(view.blocks, data)
  }

  lemma OnePerDocUnion(a: multiset<RawEntry>, b: multiset<RawEntry>, rootBlock: nat, n: nat)
    requires OnePerDoc(a, rootBlock, n) && OnePerDoc(b, rootBlock, n)
    requires forall e, g :: e in a && g in b ==> e.docId != g.docId
    ensures OnePerDoc(a + b, rootBlock, n)
  {
    forall e
      ensures (a + b)[e] <= 1
    {
      assert e in a && e in b ==> e.docId != e.docId;
    }
  }

  ghost predicate Below(slots: multiset<RawEntry>, d: nat) {
    forall e :: e in slots ==> e.docId < d
  }

  ghost predicate AtLeast(slots: multiset<RawEntry>, d: nat) {
    forall e :: e in slots ==> d <= e.docId
  }

  lemma {:induction false} BlockRange(ps: seq<BlockPosting>, weigh: (nat, nat) -> real, f: Filter, rootBlock: nat)
    requires rootBlock < INVALID_BLOCK_NUMBER && forall i, j :: 0 <= i < j < |ps| ==> ps[i].docId < ps[j].docId
    ensures ps != [] ==> AtLeast(BlockSlots(ps, weigh, f, rootBlock), ps[0].docId)
    ensures ps != [] ==> Below(BlockSlots(ps, weigh, f, rootBlock), ps[|ps| - 1].docId + 1)
  {
    hide Passes;
    if ps != [] { BlockRange(ps[..|ps| - 1], weigh, f, rootBlock); }
  }

  lemma OneSlot(e: RawEntry, rootBlock: nat, n: nat)
    requires e.segBlock == rootBlock && e.docId < n
    ensures OnePerDoc(multiset{e}, rootBlock, n) && OnePerDoc(multiset{}, rootBlock, n)
  {
  }

  /** The slots of a block's ascending postings below n: one per document. */
  lemma {:induction false} BlockIsOnePerDoc(ps: seq<BlockPosting>, weigh: (nat, nat) -> real, f: Filter,
                                            rootBlock: nat, n: nat)
    requires rootBlock < INVALID_BLOCK_NUMBER && forall i :: 0 <= i < |ps| ==> ps[i].docId < n
    requires forall i, j :: 0 <= i < j < |ps| ==> ps[i].docId < ps[j].docId
    ensures OnePerDoc(BlockSlots(ps, weigh, f, rootBlock), rootBlock, n)
  {
    hide Passes, OnePerDoc;
    if ps == [] {
      NothingIsOnePerDoc(rootBlock, n);
    } else {
      var m, p := |ps| - 1, ps[|ps| - 1];
      BlockIsOnePerDoc(ps[..m], weigh, f, rootBlock, n);
      BlockRange(ps[..m], weigh, f, rootBlock);
      var e := SlotFor(rootBlock, p.docId, weigh(p.frequency, p.fieldnorm));
      OneSlot(e, rootBlock, n);
      var before, last: multiset<RawEntry> :=
        BlockSlots(ps[..m], weigh, f, rootBlock), if Passes(f, p.docId) then multiset{e} else multiset{};
      OnePerDocUnion(before, last, rootBlock, n);
    }
  }

  lemma {:induction false} ListIsOnePerDoc(l: TermList, f: Filter, rootBlock: nat, n: nat, m: nat)
    requires ValidList(l) && rootBlock < INVALID_BLOCK_NUMBER && m <= |l.blocks|
    requires forall b, j :: 0 <= b < |l.blocks| && 0 <= j < |l.blocks[b]| ==> l.blocks[b][j].docId < n
    ensures OnePerDoc(ListSlots(l.blocks[..m], l.weigh, f, rootBlock), rootBlock, n)
    ensures m > 0 ==> Below(ListSlots(l.blocks[..m], l.weigh, f, rootBlock), l.skips[m - 1].lastDocId + 1)
  {
    hide BlockSlots, OnePerDoc;
    if m == 0 {
      NothingIsOnePerDoc(rootBlock, n);
    } else {
      ListIsOnePerDoc(l, f, rootBlock, n, m - 1);
      BlockIsOnePerDoc(l.blocks[m - 1], l.weigh, f, rootBlock, n);
      BlockRange(l.blocks[m - 1], l.weigh, f, rootBlock);
      assert l.blocks[..m][..m - 1] == l.blocks[..m - 1];
      OnePerDocUnion(ListSlots(l.blocks[..m - 1], l.weigh, f, rootBlock),
                     BlockSlots(l.blocks[m - 1], l.weigh, f, rootBlock), rootBlock, n);
    }
  }

  lemma NothingIsOnePerDoc(rootBlock: nat, n: nat)
    ensures OnePerDoc(multiset{}, rootBlock, n)
  {
  }

  lemma TermSegmentIsOnePerDoc(g: TermSegment, b: nat, data: SegmentData, tenantId: nat)
    requires ReadsSegment(g, b, data, ListRead()) && Merge.ValidSegment(data) && ValidTermSegment(g)
    ensures OnePerDoc(TermSegmentSlots(tenantId)(g), b, |data.docs.ctids|)
  {
    hide Merge.ValidSegment, ListOfSegment, ValidList, OnePerDoc, ListSlots, ScoresBounded, TenantMarksHold;
    var n := |data.docs.ctids|;
    if g.view.found {
      forall c, j | 0 <= c < |g.view.blocks| && 0 <= j < |g.view.blocks[c]|
        ensures g.view.blocks[c][j].docId < n
      {
        DocInSegment(g.view.blocks, data, c, j);
      }
      ListIsOnePerDoc(g.view, WholeSegment(g, tenantId), b, n, |g.view.blocks|);
      assert g.view.blocks[..|g.view.blocks|] == g.view.blocks;
    } else {
      NothingIsOnePerDoc(b, n);
    }
  }

  lemma ListReadIsCovered(s: State, levels: seq<seq<TermSegment>>, tenantId: nat)
    requires Sound(s) && ReadsIndex(levels, s, ListRead()) && ValidTermLevels(levels)
    ensures Covers(s, levels, TermSegmentSlots(tenantId))
    ensures ByLevel(levels, TermSegmentSlots(tenantId), TermChainSlots(tenantId))
  {
    hide OnePerDoc, ReadsSegment, LevelsHold, Merge.ValidSegment, TermSegmentSlots, ValidTermSegment;
    forall l, i | 0 <= l < |levels| && 0 <= i < |levels[l]|
      ensures |levels[l]| == |s.chains[l]| && s.chains[l][i] in s.store
      ensures OnePerDoc(TermSegmentSlots(tenantId)(levels[l][i]), s.chains[l][i],
              |s.store[s.chains[l][i]].data.docs.ctids|)
    {
      assert ReadsChain(levels[l], s.chains[l], s.store, ListRead()) && ValidTermChain(levels[l]);
      TermSegmentIsOnePerDoc(levels[l][i], s.chains[l][i], s.store[s.chains[l][i]].data, tenantId);
    }
  }

  /** The rows of a memtable list; a list names a row at most once. */
  ghost function TermRows(t: MemTerm, n: nat): set<ItemPointer>
    requires n <= |t.postings|
  {
    set i | 0 <= i < n :: t.postings[i].ctid
  }

  ghost predicate RowsOnce(t: MemTerm) {
    forall i, j :: 0 <= i < j < |t.postings| ==> t.postings[i].ctid != t.postings[j].ctid
  }

  lemma {:induction false} TermIsOnePerRow(t: MemTerm, n: nat, tenantId: nat)
    requires n <= |t.postings| && RowsOnce(t)
    ensures OnePerRow(TermSlots(t, n, tenantId), TermRows(t, n))
  {
    if n > 0 {
      TermIsOnePerRow(t, n - 1, tenantId);
      assert t.postings[n - 1].ctid !in TermRows(t, n - 1);
    }
  }

  ghost predicate FromMemPosting(h: Hit, t: MemTerm, tenantId: nat, j: nat) {
    && j < |t.postings| && h.ctid == t.postings[j].ctid && h.score == MemWeight(t, t.postings[j])
    && (tenantId == 0 || !t.hasTenantIds || t.postings[j].tenantId == tenantId)
  }

  /** The row of the j-th posting of block b, of the tenant if one is asked for, with that posting's score. */
  ghost predicate FromPosting(h: Hit, g: TermSegment, ctids: seq<ItemPointer>, tenantId: nat, b: nat, j: nat) {
    && b < |g.view.blocks| && j < |g.view.blocks[b]|
    && var p := g.view.blocks[b][j];
       && p.docId < |ctids| && h.ctid == ctids[p.docId] && h.score == g.view.weigh(p.frequency, p.fieldnorm)
       && TenantOf(g, tenantId, p.docId)
  }

  ghost predicate FromTermLevel(h: Hit, levels: seq<seq<TermSegment>>, s: State, tenantId: nat, l: nat, i: nat,
                                b: nat, j: nat) {
    && l < |levels| && l < |s.chains| && i < |levels[l]| && i < |s.chains[l]| && s.chains[l][i] in s.store
    && FromPosting(h, levels[l][i], s.store[s.chains[l][i]].data.docs.ctids, tenantId, b, j)
  }

  ghost predicate NamesPosting(h: Hit, t: MemTerm, levels: seq<seq<TermSegment>>, s: State, tenantId: nat) {
    || (exists j: nat :: FromMemPosting(h, t, tenantId, j))
    || exists l: nat, i: nat, b: nat, j: nat :: FromTermLevel(h, levels, s, tenantId, l, i, b, j)
  }

  lemma HitNamesPosting(h: Hit, hits: seq<Hit>, t: MemTerm, levels: seq<seq<TermSegment>>, s: State, tenantId: nat,
                        k: nat)
    requires Sound(s) && INVALID_BLOCK_NUMBER !in s.store && ReadsIndex(levels, s, ListRead()) &&
             ValidTermLevels(levels) && h in hits
    requires SearchResult(hits, AllTermScores(t, levels, tenantId), AllTermSlots(t, levels, tenantId), ColumnsOf(s), k)
    ensures NamesPosting(h, t, levels, s, tenantId)
  {
    hide SearchResult, Sound, Covers, ByLevel, TermSlots, TermSegmentSlots, ReadsIndex, OnePerDoc,
        ValidTermSegment, TenantOf;
    var e := HitHasEntry(h, hits, AllTermScores(t, levels, tenantId), AllTermSlots(t, levels, tenantId), ColumnsOf(s), k);
    if e in TermSlots(t, |t.postings|, tenantId) {
      var j := MemPostingOf(t, tenantId, e);
      assert FromMemPosting(h, t, tenantId, j);
    } else {
      assert e in UnionOver(levels, TermChainSlots(tenantId));
      ListReadIsCovered(s, levels, tenantId);
      var l, i := SlotInIndex(s, levels, TermSegmentSlots(tenantId), TermChainSlots(tenantId), e);
      assert ValidTermChain(levels[l]);
      var b, j := PostingOf(levels[l][i], tenantId, e);
      assert FromTermLevel(h, levels, s, tenantId, l, i, b, j);
    }
  }

  lemma MemPostingOf(t: MemTerm, tenantId: nat, e: RawEntry) returns (j: nat)
    requires e in TermSlots(t, |t.postings|, tenantId)
    ensures FromMemPosting(Hit(e.ctid, e.score), t, tenantId, j) && e.segBlock == INVALID_BLOCK_NUMBER
  {
    TermSlotsAreTenants(t, |t.postings|, tenantId, e);
    j :| 0 <= j < |t.postings| && (tenantId == 0 || !t.hasTenantIds || t.postings[j].tenantId == tenantId)
         && e == RawEntry(t.postings[j].ctid, INVALID_BLOCK_NUMBER, 0,
                          t.weigh(t.postings[j].frequency,
                              if 1 <= t.postings[j].docLength then t.postings[j].docLength else 1));
  }

  lemma PostingOf(g: TermSegment, tenantId: nat, e: RawEntry) returns (b: nat, j: nat)
    requires ValidTermSegment(g) && e in TermSegmentSlots(tenantId)(g)
    ensures b < |g.view.blocks| && j < |g.view.blocks[b]| && TenantOf(g, tenantId, g.view.blocks[b][j].docId)
    ensures e.docId == g.view.blocks[b][j].docId
    ensures e.score == g.view.weigh(g.view.blocks[b][j].frequency, g.view.blocks[b][j].fieldnorm)
  {
    hide ValidTermSegment;
    TermSegmentSlotsAreTenants(g, tenantId, e);
    b, j :| 0 <= b < |g.view.blocks| && 0 <= j < |g.view.blocks[b]|
            && (tenantId == 0 ||
                (g.view.blocks[b][j].docId < |g.tenants| && g.tenants[g.view.blocks[b][j].docId] == tenantId))
            && e == RawEntry(INVALID_POINTER, g.rootBlock, g.view.blocks[b][j].docId,
                             g.view.weigh(g.view.blocks[b][j].frequency, g.view.blocks[b][j].fieldnorm));
  }

  /** No posting of the term, in the memtable or in a segment, is left out for a worse one. */
  ghost predicate NoPostingLeftOut(hits: seq<Hit>, t: MemTerm, levels: seq<seq<TermSegment>>, s: State, tenantId: nat,
                                   k: nat) {
    && (forall h, j: nat :: FromMemPosting(h, t, tenantId, j) ==> ReturnedOrBeaten(h, hits, k))
    && (forall h, l: nat, i: nat, b: nat, j: nat ::
          FromTermLevel(h, levels, s, tenantId, l, i, b, j) && levels[l][i].view.found ==>
          ReturnedOrBeaten(h, hits, k))
  }

  lemma MemPostingKept(h: Hit, hits: seq<Hit>, t: MemTerm, levels: seq<seq<TermSegment>>, s: State, tenantId: nat,
                       k: nat, j: nat)
    requires ValidTermLevels(levels) && FromMemPosting(h, t, tenantId, j)
    requires SearchResult(hits, AllTermScores(t, levels, tenantId), AllTermSlots(t, levels, tenantId), ColumnsOf(s), k)
    ensures ReturnedOrBeaten(h, hits, k)
  {
    hide SearchResult, TermSlots, ValidTermLevels, ReturnedOrBeaten;
    var e := RawEntry(h.ctid, INVALID_BLOCK_NUMBER, 0, h.score);
    TermSlotsAreTenants(t, |t.postings|, tenantId, e);
    assert e in TermSlots(t, |t.postings|, tenantId);
    ScoresOfTermIndex(t, levels, tenantId);
    LeftOutNoBetter(hits, AllTermScores(t, levels, tenantId), AllTermSlots(t, levels, tenantId), ColumnsOf(s), k, e);
  }

  lemma PostingKept(h: Hit, hits: seq<Hit>, t: MemTerm, levels: seq<seq<TermSegment>>, s: State, tenantId: nat, k: nat,
                    l: nat, i: nat, b: nat, j: nat)
    requires Sound(s) && INVALID_BLOCK_NUMBER !in s.store && ReadsIndex(levels, s, ListRead()) && ValidTermLevels(levels)
    requires SearchResult(hits, AllTermScores(t, levels, tenantId), AllTermSlots(t, levels, tenantId), ColumnsOf(s), k)
    requires FromTermLevel(h, levels, s, tenantId, l, i, b, j) && levels[l][i].view.found
    ensures ReturnedOrBeaten(h, hits, k)
  {
    RootOf(levels, s, ListRead(), l, i);
    assert ValidTermChain(levels[l]);
    hide SearchResult, TermSegmentSlots, ValidTermSegment, ReturnedOrBeaten, Sound, ReadsIndex, ListRead,
        AllTermSlots, AllTermScores, ValidTermLevels;
    var g := levels[l][i];
    var e := RawEntry(INVALID_POINTER, g.rootBlock, g.view.blocks[b][j].docId, h.score);
    hide Resolved, ColumnsOf;
    ResolvedIn(s, e);
    SlotOfPosting(g, tenantId, b, j);
    SlotOfTermLevel(t, levels, tenantId, l, i, e);
    ScoresOfTermIndex(t, levels, tenantId);
    LeftOutNoBetter(hits, AllTermScores(t, levels, tenantId), AllTermSlots(t, levels, tenantId), ColumnsOf(s), k, e);
  }

  lemma SlotOfPosting(g: TermSegment, tenantId: nat, b: nat, j: nat)
    requires g.view.found && ValidTermSegment(g) && b < |g.view.blocks| && j < |g.view.blocks[b]|
    requires TenantOf(g, tenantId, g.view.blocks[b][j].docId)
    ensures RawEntry(INVALID_POINTER, g.rootBlock, g.view.blocks[b][j].docId,
                     g.view.weigh(g.view.blocks[b][j].frequency,
                         g.view.blocks[b][j].fieldnorm)) in TermSegmentSlots(tenantId)(g)
  {
    hide ValidTermSegment, TermSegmentSlots;
    TermSegmentSlotsAreTenants(g, tenantId, RawEntry(INVALID_POINTER, g.rootBlock, g.view.blocks[b][j].docId,
                                                     g.view.weigh(g.view.blocks[b][j].frequency,
                                                         g.view.blocks[b][j].fieldnorm)));
  }

  lemma SlotOfTermLevel(t: MemTerm, levels: seq<seq<TermSegment>>, tenantId: nat, l: nat, i: nat, e: RawEntry)
    requires l < |levels| && i < |levels[l]| && e in TermSegmentSlots(tenantId)(levels[l][i])
    ensures e in AllTermSlots(t, levels, tenantId)
  {
    hide TermSegmentSlots, UnionOver, TermSlots;
    UnionHas(levels[l], TermSegmentSlots(tenantId), i, e);
    UnionHas(levels, TermChainSlots(tenantId), l, e);
  }

  lemma PostingsKept(hits: seq<Hit>, t: MemTerm, levels: seq<seq<TermSegment>>, s: State, tenantId: nat, k: nat)
    requires Sound(s) && INVALID_BLOCK_NUMBER !in s.store && ReadsIndex(levels, s, ListRead()) && ValidTermLevels(levels)
    requires SearchResult(hits, AllTermScores(t, levels, tenantId), AllTermSlots(t, levels, tenantId), ColumnsOf(s), k)
    ensures NoPostingLeftOut(hits, t, levels, s, tenantId, k)
  {
    hide SearchResult, FromMemPosting, ReturnedOrBeaten, Sound, ReadsIndex, ValidTermLevels, AllTermScores,
        AllTermSlots, FromPosting;
    forall h, j: nat | FromMemPosting(h, t, tenantId, j)
      ensures ReturnedOrBeaten(h, hits, k)
    {
      MemPostingKept(h, hits, t, levels, s, tenantId, k, j);
    }
    forall h, l: nat, i: nat, b: nat, j: nat |
      FromTermLevel(h, levels, s, tenantId, l, i, b, j) && levels[l][i].view.found
      ensures ReturnedOrBeaten(h, hits, k)
    {
      PostingKept(h, hits, t, levels, s, tenantId, k, l, i, b, j);
    }
  }

  /** tp_score_single_term_bmw over an index of spilled segments and a memtable: the same, for one term. */
  method SearchIndexSingle(t: MemTerm, levels: seq<seq<TermSegment>>, maxResults: nat, tenantId: nat,
                           columns: Columns, ghost s: State)
    returns (hits: seq<Hit>)
    requires 0 < maxResults && tenantId != UINT32_MAX && ValidMemTerm(t) && ValidTermLevels(levels) && RowsOnce(t)
    requires Sound(s) && INVALID_BLOCK_NUMBER !in s.store && ReadsIndex(levels, s, ListRead()) && columns == ColumnsOf(s)
    requires TermRows(t, |t.postings|) !! Rows(s)
    ensures SearchResult(hits, AllTermScores(t, levels, tenantId), AllTermSlots(t, levels, tenantId), columns, maxResults)
    ensures Distinct(Map(hits, CtidOf())) && forall h :: h in hits ==> NamesPosting(h, t, levels, s, tenantId)
    ensures NoPostingLeftOut(hits, t, levels, s, tenantId, maxResults)
  {
    ghost var n := |t.postings|;
    ListReadIsCovered(s, levels, tenantId);
    TermIsOnePerRow(t, n, tenantId);
    CandidatesDiffer(s, levels, TermSegmentSlots(tenantId), TermChainSlots(tenantId),
                     TermSlots(t, n, tenantId), TermRows(t, n));
    ghost var scores, slots := AllTermScores(t, levels, tenantId), AllTermSlots(t, levels, tenantId);
    assert slots == TermSlots(t, n, tenantId) + UnionOver(levels, TermChainSlots(tenantId));
    hide *;
    hits := ScoreSingleTermBmw(t, levels, maxResults, tenantId, columns);
    NoDocumentTwice(hits, scores, slots, columns, maxResults);
    forall h | h in hits
      ensures NamesPosting(h, t, levels, s, tenantId)
    {
      HitNamesPosting(h, hits, t, levels, s, tenantId, maxResults);
    }
    PostingsKept(hits, t, levels, s, tenantId, maxResults);
  }
}
