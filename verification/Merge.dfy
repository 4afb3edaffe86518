/**
 * Compaction of segments (tp_merge_level_segments and write_merged_segment,
 * src/segment/merge.c): the merged segment means what its sources mean together.
 */
module Merge {
  import opened ItemPointers
  import opened MergeBlocks
  import opened MergeDocs
  import opened MergePostings
  import opened MergeTerms
  import opened Postings
  import opened QSort
  import opened Sequences
  import opened Sums
  import opened Terms
  import opened Wand
  import opened Wrappers

  /** A segment: its dictionary, the posting list of each term, and the document table. */
  datatype SegmentData = SegmentData(terms: seq<string>, lists: seq<PostingList>, docs: DocTable)

  /** One occurrence of a term: the row, how often, and the row's length byte. */
  datatype Occurrence = Occurrence(ctid: ItemPointer, frequency: nat, fieldnorm: nat)

  ghost predicate ValidPostingList(l: PostingList, docs: DocTable) {
    && ValidBlocks(l.blocks, |docs.ctids|) && AscendingDocs(Flat(l.blocks)) && l.docFreq == |Flat(l.blocks)|
    && NormsAgree(Flat(l.blocks), docs)
  }

  /** The length byte stored with a posting is the one of its document. */
  ghost predicate NormsAgree(ps: seq<BlockPosting>, docs: DocTable) {
    forall j :: 0 <= j < |ps| ==> ps[j].docId < |docs.fieldnorms| && ps[j].fieldnorm == docs.fieldnorms[ps[j].docId]
  }

  ghost predicate ValidSegment(s: SegmentData) {
    && s.terms != [] && AscendingTerms(s.terms) && |s.lists| == |s.terms| && ValidDocs(s.docs)
    && forall k :: 0 <= k < |s.lists| ==> ValidPostingList(s.lists[k], s.docs)
  }

  ghost predicate ValidSegments(segs: seq<SegmentData>) {
    forall i :: 0 <= i < |segs| ==> ValidSegment(segs[i])
  }

  function TablesOf(segs: seq<SegmentData>): seq<DocTable> {
    seq(|segs|, i requires 0 <= i < |segs| => segs[i].docs)
  }

  function DictsOf(segs: seq<SegmentData>): seq<seq<string>> {
    seq(|segs|, i requires 0 <= i < |segs| => segs[i].terms)
  }

  // ---------- meaning ----------

  ghost function OccurrenceIn(docs: DocTable): BlockPosting -> Occurrence {
    (p: BlockPosting) => Occurrence(if p.docId < |docs.ctids| then docs.ctids[p.docId] else INVALID_POINTER,
                                    p.frequency, p.fieldnorm)
  }

  ghost function ListMeaning(l: PostingList, docs: DocTable): multiset<Occurrence> {
    multiset(Map(Flat(l.blocks), OccurrenceIn(docs)))
  }

  ghost predicate HasTerm(s: SegmentData, w: string, k: nat) {
    k < |s.terms| && k < |s.lists| && s.terms[k] == w
  }

  /** The occurrences of a term in a segment: none if the dictionary does not have it. */
  ghost function Meaning(s: SegmentData, w: string): multiset<Occurrence> {
    if exists k: nat :: HasTerm(s, w, k) then
      var k: nat :| HasTerm(s, w, k);
      ListMeaning(s.lists[k], s.docs)
    else multiset{}
  }

  ghost function MeaningOf(w: string): SegmentData -> multiset<Occurrence> {
    (s: SegmentData) => Meaning(s, w)
  }

  lemma MeaningAt(s: SegmentData, w: string, k: nat)
    requires AscendingTerms(s.terms) && HasTerm(s, w, k)
    ensures Meaning(s, w) == ListMeaning(s.lists[k], s.docs)
  {
    var j: nat :| HasTerm(s, w, j) && Meaning(s, w) == ListMeaning(s.lists[j], s.docs);
    TermOnce(s, w, j, k);
  }

  lemma {:induction false} FlatMember<T>(blocks: seq<seq<T>>, x: T)
    ensures x in Flat(blocks) <==> exists b :: 0 <= b < |blocks| && x in blocks[b]
  {
    if blocks != [] {
      FlatMember(blocks[1..], x);
      if x in Flat(blocks[1..]) {
        var b :| 0 <= b < |blocks[1..]| && x in blocks[1..][b];
        assert x in blocks[b + 1];
      }
      if exists b :: 0 < b < |blocks| && x in blocks[b] {
        var b :| 0 < b < |blocks| && x in blocks[b];
        assert x in blocks[1..][b - 1];
      }
    }
  }

  /** The j-th posting of block b of the k-th term is one of w, and `o` is what it says. */
  ghost predicate Says(s: SegmentData, w: string, k: nat, b: nat, j: nat, o: Occurrence) {
    && k < |s.terms| && k < |s.lists| && s.terms[k] == w && b < |s.lists[k].blocks| && j < |s.lists[k].blocks[b]|
    && var p := s.lists[k].blocks[b][j];
       p.docId < |s.docs.ctids| && o.ctid == s.docs.ctids[p.docId] && o.frequency == p.frequency &&
       o.fieldnorm == p.fieldnorm
  }

  /** In plain terms: what a segment means for a term are the row, frequency and length byte of each of its postings. */
  lemma MeaningPostings(s: SegmentData, w: string, o: Occurrence)
    requires ValidSegment(s)
    ensures o in Meaning(s, w) <==> exists k: nat, b: nat, j: nat :: Says(s, w, k, b, j, o)
  {
    hide ValidPostingList, AscendingTerms, ValidDocs, Flat;
    if o in Meaning(s, w) {
      var k: nat :| HasTerm(s, w, k) && Meaning(s, w) == ListMeaning(s.lists[k], s.docs);
      var b, j := ListSays(s, k, o);
      assert Says(s, w, k, b, j, o);
    }
    if exists k: nat, b: nat, j: nat :: Says(s, w, k, b, j, o) {
      var k: nat, b: nat, j: nat :| Says(s, w, k, b, j, o);
      assert HasTerm(s, w, k);
      MeaningAt(s, w, k);
      SaidByList(s, k, b, j, o);
    }
  }

  lemma ListSays(s: SegmentData, k: nat, o: Occurrence) returns (b: nat, j: nat)
    requires ValidSegment(s) && k < |s.lists| && o in ListMeaning(s.lists[k], s.docs)
    ensures Says(s, s.terms[k], k, b, j, o)
  {
    hide AscendingTerms, ValidDocs, Flat, NormsAgree, AscendingDocs;
    var blocks := s.lists[k].blocks;
    assert ValidPostingList(s.lists[k], s.docs);
    assert o in Map(Flat(blocks), OccurrenceIn(s.docs));
    var i :| 0 <= i < |Flat(blocks)| && Map(Flat(blocks), OccurrenceIn(s.docs))[i] == o;
    FlatMember(blocks, Flat(blocks)[i]);
    b :| 0 <= b < |blocks| && Flat(blocks)[i] in blocks[b];
    j :| 0 <= j < |blocks[b]| && blocks[b][j] == Flat(blocks)[i];
  }

  lemma SaidByList(s: SegmentData, k: nat, b: nat, j: nat, o: Occurrence)
    requires k < |s.terms| && Says(s, s.terms[k], k, b, j, o)
    ensures o in ListMeaning(s.lists[k], s.docs)
  {
    hide Flat;
    var blocks := s.lists[k].blocks;
    FlatMember(blocks, blocks[b][j]);
    var i :| 0 <= i < |Flat(blocks)| && Flat(blocks)[i] == blocks[b][j];
    assert Map(Flat(blocks), OccurrenceIn(s.docs))[i] == o;
  }

  lemma TermOnce(s: SegmentData, w: string, j: nat, k: nat)
    requires AscendingTerms(s.terms) && HasTerm(s, w, j) && HasTerm(s, w, k)
    ensures j == k
  {
    Trichotomy(w, w);
  }

  // ---------- one term ----------

  /** Each reference names a list of the segment it points to. */
  ghost predicate ValidRefs(segs: seq<SegmentData>, refs: seq<Ref>) {
    && (forall j :: 0 <= j < |refs| ==>
                      refs[j].segmentIdx < |segs| && refs[j].termIdx < |segs[refs[j].segmentIdx].lists|)
    && (forall j, k :: 0 <= j < k < |refs| ==> refs[j].segmentIdx < refs[k].segmentIdx)
  }

  function ListAt(segs: seq<SegmentData>, r: Ref): PostingList
    requires r.segmentIdx < |segs| && r.termIdx < |segs[r.segmentIdx].lists|
  {
    segs[r.segmentIdx].lists[r.termIdx]
  }

  function SourceFor(segs: seq<SegmentData>, r: Ref): PostingSource
    requires r.segmentIdx < |segs| && r.termIdx < |segs[r.segmentIdx].lists|
  {
    InitPostings(segs[r.segmentIdx].docs, r.segmentIdx, ListAt(segs, r).blocks)
  }

  function SourcesFor(segs: seq<SegmentData>, refs: seq<Ref>): (r: seq<PostingSource>)
    requires ValidRefs(segs, refs)
    ensures |r| == |refs| && forall j :: 0 <= j < |refs| ==> r[j] == SourceFor(segs, refs[j])
  {
    seq(|refs|, j requires 0 <= j < |refs| => SourceFor(segs, refs[j]))
  }

  lemma SourceIsValid(segs: seq<SegmentData>, r: Ref)
    requires ValidSegments(segs) && r.segmentIdx < |segs| && r.termIdx < |segs[r.segmentIdx].lists|
    ensures ValidPosition(SourceFor(segs, r)) && Rest(SourceFor(segs, r)) == Flat(ListAt(segs, r).blocks)
    ensures ValidPostingList(ListAt(segs, r), segs[r.segmentIdx].docs)
  {
    assert ValidSegment(segs[r.segmentIdx]);
    assert ValidPostingList(ListAt(segs, r), segs[r.segmentIdx].docs);
    InitRest(segs[r.segmentIdx].docs, r.segmentIdx, ListAt(segs, r).blocks);
  }

  lemma SourcesAreValid(segs: seq<SegmentData>, refs: seq<Ref>)
    requires ValidSegments(segs) && ValidRefs(segs, refs)
    ensures ValidPositions(SourcesFor(segs, refs))
  {
    forall j | 0 <= j < |refs|
      ensures ValidPosition(SourcesFor(segs, refs)[j])
    {
      SourceIsValid(segs, refs[j]);
    }
  }

  /** All postings of the references, tagged, as one sequence. */
  ghost function AllTagged(segs: seq<SegmentData>, refs: seq<Ref>): seq<Collected>
    requires ValidRefs(segs, refs)
  {
    if refs == [] then []
    else
      assert forall j :: 0 <= j < |refs| - 1 ==> refs[1..][j] == refs[j + 1];
      TaggedList(segs, refs[0]) + AllTagged(segs, refs[1..])
  }

  ghost function TaggedList(segs: seq<SegmentData>, r: Ref): seq<Collected>
    requires r.segmentIdx < |segs| && r.termIdx < |segs[r.segmentIdx].lists|
  {
    Map(Flat(ListAt(segs, r).blocks), TagOf(segs[r.segmentIdx].docs, r.segmentIdx))
  }

  lemma RefsTail(segs: seq<SegmentData>, refs: seq<Ref>)
    requires ValidRefs(segs, refs) && refs != []
    ensures ValidRefs(segs, refs[1..]) && SourcesFor(segs, refs)[1..] == SourcesFor(segs, refs[1..])
    ensures forall j :: 0 <= j < |refs[1..]| ==>
              refs[1..][j] == refs[j + 1] && refs[0].segmentIdx < refs[1..][j].segmentIdx
  {
    assert forall j :: 0 <= j < |refs| - 1 ==> refs[1..][j] == refs[j + 1];
  }

  lemma {:induction false} RemainingIsAllTagged(segs: seq<SegmentData>, refs: seq<Ref>)
    requires ValidSegments(segs) && ValidRefs(segs, refs) && ValidPositions(SourcesFor(segs, refs))
    ensures Remaining(SourcesFor(segs, refs)) == multiset(AllTagged(segs, refs))
  {
    if refs != [] {
      RefsTail(segs, refs);
      SourcesAreValid(segs, refs[1..]);
      RemainingIsAllTagged(segs, refs[1..]);
      SourceIsValid(segs, refs[0]);
    }
  }

  // ---------- no document twice ----------

  ghost function KeyOf(): Collected -> DocRef {
    (c: Collected) => DocRef(c.sourceIdx, c.oldDocId)
  }

  /** Every collected key names a source of the references at or after `low`. */
  ghost predicate KeysFrom(keys: seq<DocRef>, low: nat) {
    forall j :: 0 <= j < |keys| ==> low <= keys[j].source
  }

  lemma HeadKeys(segs: seq<SegmentData>, r: Ref)
    requires r.segmentIdx < |segs| && r.termIdx < |segs[r.segmentIdx].lists|
    requires AscendingDocs(Flat(ListAt(segs, r).blocks))
    ensures Distinct(Map(TaggedList(segs, r), KeyOf()))
    ensures forall j :: 0 <= j < |TaggedList(segs, r)| ==> Map(TaggedList(segs, r), KeyOf())[j].source == r.segmentIdx
  {
    hide Flat;
    var ps, keys := Flat(ListAt(segs, r).blocks), Map(TaggedList(segs, r), KeyOf());
    assert |keys| == |ps| && forall j :: 0 <= j < |ps| ==> keys[j] == DocRef(r.segmentIdx, ps[j].docId);
    forall i, j | 0 <= i < j < |keys|
      ensures keys[i] != keys[j]
    {
      assert ps[i].docId < ps[j].docId;
    }
  }

  lemma {:induction false} KeysDistinct(segs: seq<SegmentData>, refs: seq<Ref>, low: nat)
    requires ValidSegments(segs) && ValidRefs(segs, refs) && (refs != [] ==> low <= refs[0].segmentIdx)
    ensures Distinct(Map(AllTagged(segs, refs), KeyOf())) && KeysFrom(Map(AllTagged(segs, refs), KeyOf()), low)
  {
    if refs != [] {
      RefsTail(segs, refs);
      KeysDistinct(segs, refs[1..], refs[0].segmentIdx + 1);
      SourceIsValid(segs, refs[0]);
      HeadKeys(segs, refs[0]);
      MapConcat(TaggedList(segs, refs[0]), AllTagged(segs, refs[1..]), KeyOf());
      JoinKeys(Map(TaggedList(segs, refs[0]), KeyOf()), Map(AllTagged(segs, refs[1..]), KeyOf()), low,
          refs[0].segmentIdx);
    }
  }

  lemma JoinKeys(head: seq<DocRef>, tail: seq<DocRef>, low: nat, n: nat)
    requires Distinct(head) && Distinct(tail) && KeysFrom(tail, n + 1) && low <= n
    requires forall j :: 0 <= j < |head| ==> head[j].source == n
    ensures Distinct(head + tail) && KeysFrom(head + tail, low)
  {
    DistinctConcat(head, tail);
  }

  // ---------- new ids, sorted ----------

  ghost function OccurrenceOf(): Collected -> Occurrence {
    (c: Collected) => Occurrence(c.ctid, c.frequency, c.fieldnorm)
  }

  /** The posting that is written for a collected one. */
  function Renumber(oldToNew: seq<seq<nat>>, c: Collected): BlockPosting {
    BlockPosting(NewId(oldToNew, DocRef(c.sourceIdx, c.oldDocId)), c.frequency, c.fieldnorm)
  }

  ghost function RenumberOf(oldToNew: seq<seq<nat>>): Collected -> BlockPosting {
    (c: Collected) => Renumber(oldToNew, c)
  }

  ghost function DocIdOf(): BlockPosting -> nat {
    (p: BlockPosting) => p.docId
  }

  predicate DocIdLeq(a: BlockPosting, b: BlockPosting) {
    a.docId <= b.docId
  }

  /** A collected posting carries its document's CTID and length byte. */
  ghost predicate FromDoc(tables: seq<DocTable>, c: Collected) {
    var r := DocRef(c.sourceIdx, c.oldDocId);
    IsDoc(tables, r) && c.ctid == CtidAt(tables, r) && c.fieldnorm == NormAt(tables, r)
  }

  ghost predicate AllFromDocs(tables: seq<DocTable>, cs: seq<Collected>) {
    forall j :: 0 <= j < |cs| ==> FromDoc(tables, cs[j])
  }

  lemma ListFromDocs(segs: seq<SegmentData>, r: Ref)
    requires ValidSegments(segs) && r.segmentIdx < |segs| && r.termIdx < |segs[r.segmentIdx].lists|
    ensures AllFromDocs(TablesOf(segs), TaggedList(segs, r))
  {
    SourceIsValid(segs, r);
    hide Flat, ValidSegments, ValidPosition;
    var ps, docs := Flat(ListAt(segs, r).blocks), segs[r.segmentIdx].docs;
    forall j | 0 <= j < |ps|
      ensures FromDoc(TablesOf(segs), TaggedList(segs, r)[j])
    {
      InDocs(ListAt(segs, r).blocks, |docs.ctids|, j);
    }
  }

  /** Every posting of the flattened blocks names a document. */
  lemma {:induction false} InDocs(blocks: seq<seq<BlockPosting>>, n: nat, j: nat)
    requires ValidBlocks(blocks, n) && j < |Flat(blocks)|
    ensures Flat(blocks)[j].docId < n
  {
    if j >= |blocks[0]| {
      assert forall b :: 0 <= b < |blocks| - 1 ==> blocks[1..][b] == blocks[b + 1];
      InDocs(blocks[1..], n, j - |blocks[0]|);
    }
  }

  lemma {:induction false} TaggedFromDocs(segs: seq<SegmentData>, refs: seq<Ref>)
    requires ValidSegments(segs) && ValidRefs(segs, refs)
    ensures AllFromDocs(TablesOf(segs), AllTagged(segs, refs))
  {
    if refs != [] {
      RefsTail(segs, refs);
      TaggedFromDocs(segs, refs[1..]);
      ListFromDocs(segs, refs[0]);
      hide FromDoc, ValidSegments, ValidRefs;
    }
  }

  lemma FromDocsPermuted(tables: seq<DocTable>, a: seq<Collected>, b: seq<Collected>)
    requires AllFromDocs(tables, a) && multiset(a) == multiset(b)
    ensures AllFromDocs(tables, b)
  {
    hide FromDoc;
    forall j | 0 <= j < |b|
      ensures FromDoc(tables, b[j])
    {
      assert b[j] in multiset(a);
    }
  }

  /** The new posting means what the collected one meant. */
  lemma RenumberKeeps(tables: seq<DocTable>, merged: DocTable, oldToNew: seq<seq<nat>>, c: Collected)
    requires DocsMerged(tables, merged, oldToNew) && FromDoc(tables, c)
    ensures OccurrenceIn(merged)(Renumber(oldToNew, c)) == OccurrenceOf()(c)
    ensures Renumber(oldToNew, c).docId < |merged.ctids| == |merged.fieldnorms|
    ensures c.fieldnorm == merged.fieldnorms[Renumber(oldToNew, c).docId]
  {
    assert DocKept(tables, DocRef(c.sourceIdx, c.oldDocId), merged, NewId(oldToNew, DocRef(c.sourceIdx, c.oldDocId)));
  }

  /** Different documents get different ids. */
  lemma NewIdsDiffer(tables: seq<DocTable>, merged: DocTable, oldToNew: seq<seq<nat>>, c: Collected, d: Collected)
    requires DocsMerged(tables, merged, oldToNew) && DisjointDocs(tables) && FromDoc(tables, c) && FromDoc(tables, d)
    requires KeyOf()(c) != KeyOf()(d)
    ensures Renumber(oldToNew, c).docId != Renumber(oldToNew, d).docId
  {
    var r, q := DocRef(c.sourceIdx, c.oldDocId), DocRef(d.sourceIdx, d.oldDocId);
    assert DocKept(tables, r, merged, NewId(oldToNew, r)) && DocKept(tables, q, merged, NewId(oldToNew, q));
  }

  lemma NewIdsDistinct(tables: seq<DocTable>, merged: DocTable, oldToNew: seq<seq<nat>>, cs: seq<Collected>)
    requires DocsMerged(tables, merged, oldToNew) && DisjointDocs(tables) && AllFromDocs(tables, cs)
    requires Distinct(Map(cs, KeyOf()))
    ensures Distinct(Map(Map(cs, RenumberOf(oldToNew)), DocIdOf()))
  {
    hide DocsMerged, DisjointDocs, FromDoc, Renumber;
    var ids := Map(Map(cs, RenumberOf(oldToNew)), DocIdOf());
    forall i, j | 0 <= i < j < |ids|
      ensures ids[i] != ids[j]
    {
      assert Map(cs, KeyOf())[i] != Map(cs, KeyOf())[j];
      NewIdsDiffer(tables, merged, oldToNew, cs[i], cs[j]);
    }
  }

  lemma MeaningKept(tables: seq<DocTable>, merged: DocTable, oldToNew: seq<seq<nat>>, cs: seq<Collected>,
                    ps: seq<BlockPosting>)
    requires DocsMerged(tables, merged, oldToNew) && AllFromDocs(tables, cs)
    requires multiset(ps) == multiset(Map(cs, RenumberOf(oldToNew)))
    ensures multiset(Map(ps, OccurrenceIn(merged))) == multiset(Map(cs, OccurrenceOf()))
  {
    hide DocsMerged, FromDoc, Renumber;
    MapPermutation(ps, Map(cs, RenumberOf(oldToNew)), OccurrenceIn(merged));
    forall j | 0 <= j < |cs|
      ensures OccurrenceIn(merged)(Renumber(oldToNew, cs[j])) == OccurrenceOf()(cs[j])
    {
      RenumberKeeps(tables, merged, oldToNew, cs[j]);
    }
    hide OccurrenceIn, OccurrenceOf;
    assert Map(Map(cs, RenumberOf(oldToNew)), OccurrenceIn(merged)) == Map(cs, OccurrenceOf());
  }

  lemma WrittenPostings(tables: seq<DocTable>, merged: DocTable, oldToNew: seq<seq<nat>>, cs: seq<Collected>,
                        ps: seq<BlockPosting>)
    requires DocsMerged(tables, merged, oldToNew) && AllFromDocs(tables, cs)
    requires multiset(ps) == multiset(Map(cs, RenumberOf(oldToNew)))
    ensures NormsAgree(ps, merged) && forall j :: 0 <= j < |ps| ==> ps[j].docId < |merged.ctids|
  {
    hide DocsMerged, FromDoc, Renumber;
    var moved := Map(cs, RenumberOf(oldToNew));
    forall j | 0 <= j < |ps|
      ensures ps[j].docId < |merged.ctids| == |merged.fieldnorms| && ps[j].fieldnorm == merged.fieldnorms[ps[j].docId]
    {
      assert ps[j] in multiset(moved);
      var i :| 0 <= i < |moved| && moved[i] == ps[j];
      RenumberKeeps(tables, merged, oldToNew, cs[i]);
      SameNorm(oldToNew, cs[i]);
    }
  }

  lemma SameNorm(oldToNew: seq<seq<nat>>, c: Collected)
    ensures Renumber(oldToNew, c).fieldnorm == c.fieldnorm
  {
  }

  lemma SortedDistinctAscends(ps: seq<BlockPosting>, qs: seq<BlockPosting>)
    requires SortedBy(ps, DocIdLeq) && multiset(ps) == multiset(qs) && Distinct(Map(qs, DocIdOf()))
    ensures AscendingDocs(ps)
  {
    MapPermutation(ps, qs, DocIdOf());
    DistinctCount(Map(qs, DocIdOf()));
    CountDistinct(Map(ps, DocIdOf()));
    forall i, j | 0 <= i < j < |ps|
      ensures ps[i].docId < ps[j].docId
    {
      assert DocIdLeq(ps[i], ps[j]);
      assert Map(ps, DocIdOf())[i] != Map(ps, DocIdOf())[j];
    }
  }

  /** What one written list is, in terms of the collected postings. */
  ghost predicate ListFrom(l: PostingList, merged: DocTable, cs: seq<Collected>) {
    && ValidPostingList(l, merged) && AllDescribed(l, merged.tenants) && CutsInto(Flat(l.blocks), l.blocks)
    && ListMeaning(l, merged) == multiset(Map(cs, OccurrenceOf())) && l.docFreq == |cs|
  }

  lemma WrittenIsValid(l: PostingList, merged: DocTable, ps: seq<BlockPosting>)
    requires Flat(l.blocks) == ps && CutsInto(ps, l.blocks) && AllDescribed(l, merged.tenants) && l.docFreq == |ps|
    requires AscendingDocs(ps) && NormsAgree(ps, merged) && forall j :: 0 <= j < |ps| ==> ps[j].docId < |merged.ctids|
    ensures ValidPostingList(l, merged)
  {
    forall b, j | 0 <= b < |l.blocks| && 0 <= j < |l.blocks[b]|
      ensures l.blocks[b][j].docId < |merged.ctids|
    {
      RunAscends(ps, b);
      assert l.blocks[b] == RunAt(ps, b);
    }
    forall b | 0 <= b < |l.blocks|
      ensures l.blocks[b] != []
    {
      assert Describes(l.skips[b], l.blocks[b], merged.tenants);
    }
  }

  /** Convert with the new ids, sort by id, and write blocks. */
  method WriteTerm(cs: seq<Collected>, tables: seq<DocTable>, merged: DocTable, oldToNew: seq<seq<nat>>)
    returns (l: PostingList)
    requires DocsMerged(tables, merged, oldToNew) && DisjointDocs(tables) && AllFromDocs(tables, cs)
    requires Distinct(Map(cs, KeyOf()))
    ensures ListFrom(l, merged, cs)
  {
    hide DocsMerged, DisjointDocs, AllFromDocs, Distinct, Renumber, NormsAgree, SortedBy;
    var blockPostings: seq<BlockPosting> := [];
    for j := 0 to |cs|
      invariant blockPostings == Map(cs, RenumberOf(oldToNew))[..j]
    {
      blockPostings := blockPostings + [Renumber(oldToNew, cs[j])];
    }
    ghost var moved := Map(cs, RenumberOf(oldToNew));
    assert blockPostings == moved;
    NewIdsDistinct(tables, merged, oldToNew, cs);
    var sorted := Sort(blockPostings, DocIdLeq);
    SortKeeps(blockPostings, DocIdLeq);
    SortByDocId(blockPostings);
    SortedDistinctAscends(sorted, moved);
    WrittenPostings(tables, merged, oldToNew, cs, sorted);
    MeaningKept(tables, merged, oldToNew, cs, sorted);
    l := WriteBlocks(sorted, merged.tenants);
    WrittenIsValid(l, merged, sorted);
    assert |sorted| == |cs|;
  }

  lemma SortByDocId(ps: seq<BlockPosting>)
    ensures SortedBy(Sort(ps, DocIdLeq), DocIdLeq)
  {
    SortSorts(ps, DocIdLeq);
  }

  /** collect_term_postings and the posting loop for one merged term. */
  method MergeTerm(segs: seq<SegmentData>, refs: seq<Ref>, merged: DocTable, oldToNew: seq<seq<nat>>)
    returns (l: PostingList)
    requires ValidSegments(segs) && ValidRefs(segs, refs) && DisjointDocs(TablesOf(segs))
    requires DocsMerged(TablesOf(segs), merged, oldToNew)
    ensures ListFrom(l, merged, AllTagged(segs, refs))
  {
    hide DocsMerged, DisjointDocs, ValidSegments, ListFrom, AllTagged, AllFromDocs, Distinct, Remaining, ValidPositions;
    SourcesAreValid(segs, refs);
    var cs := CollectPostings(SourcesFor(segs, refs));
    RemainingIsAllTagged(segs, refs);
    TaggedFromDocs(segs, refs);
    FromDocsPermuted(TablesOf(segs), AllTagged(segs, refs), cs);
    KeysDistinct(segs, refs, 0);
    KeysPermuted(AllTagged(segs, refs), cs);
    l := WriteTerm(cs, TablesOf(segs), merged, oldToNew);
    ListFromPermuted(l, merged, cs, AllTagged(segs, refs));
  }

  lemma KeysPermuted(a: seq<Collected>, b: seq<Collected>)
    requires multiset(a) == multiset(b) && Distinct(Map(a, KeyOf()))
    ensures Distinct(Map(b, KeyOf()))
  {
    MapPermutation(a, b, KeyOf());
    DistinctCount(Map(a, KeyOf()));
    CountDistinct(Map(b, KeyOf()));
  }

  lemma ListFromPermuted(l: PostingList, merged: DocTable, a: seq<Collected>, b: seq<Collected>)
    requires ListFrom(l, merged, a) && multiset(a) == multiset(b)
    ensures ListFrom(l, merged, b)
  {
    hide ValidPostingList, AllDescribed, CutsInto, ListMeaning;
    MapPermutation(a, b, OccurrenceOf());
    assert |a| == |multiset(a)| == |multiset(b)| == |b|;
  }

  // ---------- the union of meanings ----------

  ghost function RefMeaning(segs: seq<SegmentData>, refs: seq<Ref>): multiset<Occurrence>
    requires ValidRefs(segs, refs)
  {
    multiset(Map(AllTagged(segs, refs), OccurrenceOf()))
  }

  /** The tagged postings of a list mean what the list means. */
  lemma TaggedMeaning(segs: seq<SegmentData>, r: Ref)
    requires r.segmentIdx < |segs| && r.termIdx < |segs[r.segmentIdx].lists|
    ensures multiset(Map(TaggedList(segs, r), OccurrenceOf())) == ListMeaning(ListAt(segs, r), segs[r.segmentIdx].docs)
  {
    hide Flat;
    var ps, docs := Flat(ListAt(segs, r).blocks), segs[r.segmentIdx].docs;
    assert Map(TaggedList(segs, r), OccurrenceOf()) == Map(ps, OccurrenceIn(docs));
  }

  lemma {:induction false} TaggedAppend(segs: seq<SegmentData>, refs: seq<Ref>, r: Ref)
    requires ValidRefs(segs, refs + [r])
    ensures ValidRefs(segs, refs) && r.segmentIdx < |segs| && r.termIdx < |segs[r.segmentIdx].lists|
    ensures AllTagged(segs, refs + [r]) == AllTagged(segs, refs) + TaggedList(segs, r)
  {
    RefsPrefix(segs, refs, r);
    if refs == [] {
      assert (refs + [r])[1..] == [];
    } else {
      RefsTail(segs, refs + [r]);
      RefsTail(segs, refs);
      assert (refs + [r])[1..] == refs[1..] + [r];
      TaggedAppend(segs, refs[1..], r);
    }
  }

  lemma RefsPrefix(segs: seq<SegmentData>, refs: seq<Ref>, r: Ref)
    requires ValidRefs(segs, refs + [r])
    ensures ValidRefs(segs, refs) && r.segmentIdx < |segs| && r.termIdx < |segs[r.segmentIdx].lists|
    ensures forall j :: 0 <= j < |refs| ==> refs[j].segmentIdx < r.segmentIdx
  {
    assert (refs + [r])[|refs|] == r;
    assert forall j :: 0 <= j < |refs| ==> (refs + [r])[j] == refs[j];
  }

  lemma MeaningAppend(segs: seq<SegmentData>, refs: seq<Ref>, r: Ref)
    requires ValidRefs(segs, refs + [r])
    ensures ValidRefs(segs, refs) && r.segmentIdx < |segs| && r.termIdx < |segs[r.segmentIdx].lists|
    ensures RefMeaning(segs, refs + [r]) == RefMeaning(segs, refs) + ListMeaning(ListAt(segs, r), segs[r.segmentIdx].docs)
  {
    TaggedAppend(segs, refs, r);
    TaggedMeaning(segs, r);
    hide AllTagged, TaggedList, ListMeaning, OccurrenceOf;
    MapConcat(AllTagged(segs, refs), TaggedList(segs, r), OccurrenceOf());
  }

  lemma SegmentFacts(segs: seq<SegmentData>, n: nat)
    requires ValidSegments(segs) && n < |segs|
    ensures AscendingTerms(segs[n].terms) && |segs[n].lists| == |segs[n].terms| && DictsOf(segs)[n] == segs[n].terms
  {
    assert ValidSegment(segs[n]);
  }

  /** The next dictionary does not have the term, or has it at one index, which is the last reference. */
  lemma LastRef(segs: seq<SegmentData>, w: string, refs: seq<Ref>, n: nat) returns (has: bool, t: nat)
    requires ValidSegments(segs) && n < |segs| && RefsTo(DictsOf(segs), w, refs, n + 1)
    ensures has ==> HasTerm(segs[n], w, t) && refs != [] && refs[|refs| - 1] == Ref(n, t)
                    && RefsTo(DictsOf(segs), w, refs[..|refs| - 1], n)
    ensures !has ==> RefsTo(DictsOf(segs), w, refs, n) && forall k: nat :: !HasTerm(segs[n], w, k)
  {
    SegmentFacts(segs, n);
    var dicts := DictsOf(segs);
    has, t := false, 0;
    if k: nat :| HasTerm(segs[n], w, k) {
      has, t := true, k;
      LastIsNewest(segs, w, refs, n, t);
    } else {
      forall r | r in refs
        ensures r.segmentIdx < n
      {
        assert Occurs(dicts, w, r);
        if r.segmentIdx == n { assert HasTerm(segs[n], w, r.termIdx); }
      }
    }
  }

  lemma LastIsNewest(segs: seq<SegmentData>, w: string, refs: seq<Ref>, n: nat, t: nat)
    requires ValidSegments(segs) && n < |segs| && RefsTo(DictsOf(segs), w, refs, n + 1) && HasTerm(segs[n], w, t)
    ensures refs != [] && refs[|refs| - 1] == Ref(n, t) && RefsTo(DictsOf(segs), w, refs[..|refs| - 1], n)
  {
    SegmentFacts(segs, n);
    var dicts, last := DictsOf(segs), |refs| - 1;
    assert Occurs(dicts, w, Ref(n, t)) && Ref(n, t) in refs;
    var j :| 0 <= j < |refs| && refs[j] == Ref(n, t);
    assert refs[last] in refs;
    assert refs[last] == Ref(n, t);
    forall r
      ensures r in refs[..last] <==> r.segmentIdx < n && Occurs(dicts, w, r)
    {
      if r in refs[..last] {
        var i :| 0 <= i < last && refs[i] == r;
        assert refs[i] in refs && refs[i].segmentIdx < refs[last].segmentIdx;
      }
      if r.segmentIdx < n && Occurs(dicts, w, r) {
        assert r in refs;
        var i :| 0 <= i < |refs| && refs[i] == r;
        assert refs[..last][i] == r;
      }
    }
  }

  lemma SourceAdds(segs: seq<SegmentData>, w: string, refs: seq<Ref>, n: nat, t: nat)
    requires ValidSegments(segs) && n < |segs| && HasTerm(segs[n], w, t) && refs != [] && refs[|refs| - 1] == Ref(n, t)
    requires ValidRefs(segs, refs)
    ensures ValidRefs(segs, refs[..|refs| - 1])
    ensures RefMeaning(segs, refs) == RefMeaning(segs, refs[..|refs| - 1]) + Meaning(segs[n], w)
  {
    SegmentFacts(segs, n);
    hide RefMeaning, ListMeaning, Meaning, ValidSegments;
    var before := refs[..|refs| - 1];
    assert refs == before + [Ref(n, t)];
    MeaningAppend(segs, before, Ref(n, t));
    MeaningAt(segs[n], w, t);
  }

  /** The references of a term, taken together, mean what the sources mean together. */
  lemma {:induction false} RefsMeanSources(segs: seq<SegmentData>, w: string, refs: seq<Ref>, n: nat)
    requires ValidSegments(segs) && n <= |segs| && RefsTo(DictsOf(segs), w, refs, n) && ValidRefs(segs, refs)
    ensures RefMeaning(segs, refs) == UnionOver(segs[..n], MeaningOf(w))
  {
    hide Meaning, RefMeaning, RefsTo, ValidSegments, ValidRefs;
    if n == 0 {
      NoRefs(segs, w, refs);
    } else {
      var has, t := LastRef(segs, w, refs, n - 1);
      UnionOneMore(segs, n - 1, MeaningOf(w));
      if has {
        SourceAdds(segs, w, refs, n - 1, t);
        RefsMeanSources(segs, w, refs[..|refs| - 1], n - 1);
      } else {
        RefsMeanSources(segs, w, refs, n - 1);
        NoMeaning(segs[n - 1], w);
      }
    }
  }

  lemma NoMeaning(s: SegmentData, w: string)
    requires forall k: nat :: !HasTerm(s, w, k)
    ensures Meaning(s, w) == multiset{}
  {
  }

  lemma NoRefs(segs: seq<SegmentData>, w: string, refs: seq<Ref>)
    requires ValidRefs(segs, refs) && RefsTo(DictsOf(segs), w, refs, 0)
    ensures RefMeaning(segs, refs) == UnionOver(segs[..0], MeaningOf(w)) == multiset{}
  {
    assert forall j :: 0 <= j < |refs| ==> refs[j] in refs;
  }

  lemma RefsAreValid(segs: seq<SegmentData>, m: MergedTerm)
    requires ValidSegments(segs) && RefsExact(DictsOf(segs), m)
    ensures ValidRefs(segs, m.refs)
  {
    forall j | 0 <= j < |m.refs|
      ensures m.refs[j].segmentIdx < |segs| && m.refs[j].termIdx < |segs[m.refs[j].segmentIdx].lists|
    {
      assert m.refs[j] in m.refs && Occurs(DictsOf(segs), m.term, m.refs[j]);
      SegmentFacts(segs, m.refs[j].segmentIdx);
    }
  }

  // ---------- the merged segment ----------

  /** The merge keeps meaning: terms, occurrences, documents; and its lists are laid out for searching. */
  ghost predicate IsCompaction(segs: seq<SegmentData>, merged: SegmentData) {
    && (forall w :: Meaning(merged, w) == UnionOver(segs, MeaningOf(w)))
    && (forall w :: w in merged.terms <==> exists r :: Occurs(DictsOf(segs), w, r))
    && (exists oldToNew :: DocsMerged(TablesOf(segs), merged.docs, oldToNew))
    && (forall k :: 0 <= k < |merged.lists| ==>
                      AllDescribed(merged.lists[k], merged.docs.tenants)
                      && CutsInto(Flat(merged.lists[k].blocks), merged.lists[k].blocks))
  }

  /** The lists written so far are those of the first n merged terms. */
  ghost predicate ListsTo(segs: seq<SegmentData>, terms: seq<MergedTerm>, lists: seq<PostingList>, docs: DocTable,
                          n: nat) {
    && |lists| == n <= |terms|
    && forall k :: 0 <= k < n ==>
         ValidRefs(segs, terms[k].refs) && ListFrom(lists[k], docs, AllTagged(segs, terms[k].refs))
  }

  function TermsOf(merged: seq<MergedTerm>): seq<string> {
    seq(|merged|, k requires 0 <= k < |merged| => merged[k].term)
  }

  method WriteLists(segs: seq<SegmentData>, terms: seq<MergedTerm>, docs: DocTable, oldToNew: seq<seq<nat>>)
    returns (lists: seq<PostingList>)
    requires ValidSegments(segs) && DisjointDocs(TablesOf(segs)) && DocsMerged(TablesOf(segs), docs, oldToNew)
    requires IsMerge(DictsOf(segs), terms)
    ensures ListsTo(segs, terms, lists, docs, |terms|)
  {
    hide ValidSegments, DisjointDocs, DocsMerged, RefsExact, ListFrom, AllTagged, AscendingMerged;
    lists := [];
    for k := 0 to |terms|
      invariant ListsTo(segs, terms, lists, docs, k)
    {
      RefsAreValid(segs, terms[k]);
      var l := MergeTerm(segs, terms[k].refs, docs, oldToNew);
      lists := lists + [l];
    }
  }

  lemma MergedIsValid(segs: seq<SegmentData>, terms: seq<MergedTerm>, lists: seq<PostingList>, docs: DocTable)
    requires segs != [] && ValidSegments(segs) && IsMerge(DictsOf(segs), terms) && ValidDocs(docs)
    requires ListsTo(segs, terms, lists, docs, |terms|)
    ensures ValidSegment(SegmentData(TermsOf(terms), lists, docs))
  {
    hide RefsExact, ValidPostingList, AllDescribed, CutsInto, AllTagged;
    assert ValidSegment(segs[0]);
    assert Covered(terms, DictsOf(segs)[0][0]);
    forall i, j | 0 <= i < j < |terms|
      ensures Less(TermsOf(terms)[i], TermsOf(terms)[j])
    {
    }
    forall k | 0 <= k < |lists|
      ensures ValidPostingList(lists[k], docs)
    {
      assert ListFrom(lists[k], docs, AllTagged(segs, terms[k].refs));
    }
  }

  lemma MergedMeaning(segs: seq<SegmentData>, terms: seq<MergedTerm>, m: SegmentData, w: string)
    requires ValidSegments(segs) && IsMerge(DictsOf(segs), terms) && m.terms == TermsOf(terms) && ValidSegment(m)
    requires ListsTo(segs, terms, m.lists, m.docs, |terms|)
    ensures Meaning(m, w) == UnionOver(segs, MeaningOf(w))
  {
    hide ValidPostingList, AllTagged, ListMeaning, ValidDocs;
    if k: nat :| HasTerm(m, w, k) {
      MeaningAt(m, w, k);
      assert ListFrom(m.lists[k], m.docs, AllTagged(segs, terms[k].refs)) && RefsExact(DictsOf(segs), terms[k]);
      RefsMeanSources(segs, w, terms[k].refs, |segs|);
      assert segs[..|segs|] == segs;
    } else {
      forall i | 0 <= i < |segs|
        ensures Meaning(segs[i], w) == multiset{}
      {
        NoTermNoMeaning(segs, terms, m, w, i);
      }
      EmptyUnion(segs, MeaningOf(w));
    }
  }

  lemma NoTermNoMeaning(segs: seq<SegmentData>, terms: seq<MergedTerm>, m: SegmentData, w: string, i: nat)
    requires IsMerge(DictsOf(segs), terms) && m.terms == TermsOf(terms) && |m.lists| == |m.terms| && i < |segs|
    requires forall k: nat :: !HasTerm(m, w, k)
    ensures Meaning(segs[i], w) == multiset{}
  {
    hide RefsExact, AscendingMerged;
    if t: nat :| HasTerm(segs[i], w, t) {
      assert Covered(terms, DictsOf(segs)[i][t]);
      var k :| 0 <= k < |terms| && terms[k].term == w;
      assert HasTerm(m, w, k);
    }
  }

  lemma {:induction false} EmptyUnion<A, T>(xs: seq<A>, f: A -> multiset<T>)
    requires forall i :: 0 <= i < |xs| ==> f(xs[i]) == multiset{}
    ensures UnionOver(xs, f) == multiset{}
  {
    if xs != [] { EmptyUnion(xs[..|xs| - 1], f); }
  }

  lemma MergedTerms(segs: seq<SegmentData>, terms: seq<MergedTerm>, w: string)
    requires IsMerge(DictsOf(segs), terms)
    ensures w in TermsOf(terms) <==> exists r :: Occurs(DictsOf(segs), w, r)
  {
    MergeIsUnion(DictsOf(segs), terms, w);
    hide IsMerge;
    assert w in TermsOf(terms) <==> Covered(terms, w) by {
      assert forall k :: 0 <= k < |terms| ==> TermsOf(terms)[k] == terms[k].term;
    }
  }

  lemma MergedIsCompaction(segs: seq<SegmentData>, terms: seq<MergedTerm>, m: SegmentData, oldToNew: seq<seq<nat>>)
    requires ValidSegments(segs) && IsMerge(DictsOf(segs), terms) && m.terms == TermsOf(terms) && ValidSegment(m)
    requires ListsTo(segs, terms, m.lists, m.docs, |terms|) && DocsMerged(TablesOf(segs), m.docs, oldToNew)
    ensures IsCompaction(segs, m)
  {
    forall w
      ensures Meaning(m, w) == UnionOver(segs, MeaningOf(w))
      ensures w in m.terms <==> exists r :: Occurs(DictsOf(segs), w, r)
    {
      MergedMeaning(segs, terms, m, w);
      MergedTerms(segs, terms, w);
    }
    hide Meaning, DocsMerged, IsMerge, ValidSegments, ValidSegment, ValidPostingList, AllDescribed, CutsInto,
        AllTagged, Flat;
    forall k | 0 <= k < |m.lists|
      ensures AllDescribed(m.lists[k], m.docs.tenants) && CutsInto(Flat(m.lists[k].blocks), m.lists[k].blocks)
    {
      assert ListFrom(m.lists[k], m.docs, AllTagged(segs, terms[k].refs));
    }
  }

  lemma DictsAreValid(segs: seq<SegmentData>)
    requires ValidSegments(segs)
    ensures forall i :: 0 <= i < |DictsOf(segs)| ==> DictsOf(segs)[i] != [] && AscendingTerms(DictsOf(segs)[i])
    ensures ValidTables(TablesOf(segs))
  {
    hide ValidPostingList, ValidDocs, AscendingTerms;
    forall i | 0 <= i < |segs|
      ensures segs[i].terms != [] && AscendingTerms(segs[i].terms) && ValidDocs(segs[i].docs)
    {
      assert ValidSegment(segs[i]);
    }
  }

  lemma SegmentIsAlphabetical(s: SegmentData)
    requires ValidSegment(s)
    ensures forall i, j :: 0 <= i < j < |s.terms| ==> Alphabetical(s.terms[i], s.terms[j])
  {
    AscendingIsAlphabetical(s.terms);
  }

  /**
   * tp_merge_level_segments on the segments of one level, whose rows are disjoint: the merged
   * segment is valid again and means exactly what its sources meant; None is the error for
   * more documents than a segment can hold.
   */
  method MergeSegments(segs: seq<SegmentData>) returns (r: Option<SegmentData>)
    requires segs != [] && ValidSegments(segs) && DisjointDocs(TablesOf(segs))
    ensures r.None? <==> TooManyDocs(TablesOf(segs))
    ensures r.Some? ==> ValidSegment(r.value) && IsCompaction(segs, r.value)
    ensures r.Some? ==> forall i, j :: 0 <= i < j < |r.value.terms| ==> Alphabetical(r.value.terms[i], r.value.terms[j])
  {
    hide ValidSegments, DisjointDocs, IsMerge, DocsMerged, ValidSegment, IsCompaction, ListsTo, AscendingTerms,
        ValidTables;
    DictsAreValid(segs);
    var terms := MergeDictionaries(DictsOf(segs));
    var docs := BuildMergedDocmap(TablesOf(segs));
    if docs.None? { return None; }
    var table, oldToNew := docs.value.0, docs.value.1;
    var lists := WriteLists(segs, terms, table, oldToNew);
    TableIsValid(TablesOf(segs), table, oldToNew);
    var m := SegmentData(TermsOf(terms), lists, table);
    MergedIsValid(segs, terms, lists, table);
    MergedIsCompaction(segs, terms, m, oldToNew);
    SegmentIsAlphabetical(m);
    return Some(m);
  }

  /** Compacted lists have the layout every search cursor relies on, with truthful tenant marks. */
  lemma CompactedListIsSearchable(segs: seq<SegmentData>, m: SegmentData, k: nat, weigh: (nat, nat) -> real,
                                  queryFreq: nat, blockMax: seq<real>, maxScore: real)
    requires ValidSegment(m) && IsCompaction(segs, m) && k < |m.lists| && |m.lists[k].blocks| <= 65535
    ensures var l := AsTermList(m.lists[k], weigh, queryFreq, blockMax, maxScore);
            ValidList(l) && TenantMarksHold(l, m.docs.tenants)
  {
    hide Meaning, CutsInto, AllDescribed, ValidList, TenantMarksHold, Flat;
    var l := m.lists[k];
    assert ValidPostingList(l, m.docs) && AllDescribed(l, m.docs.tenants) && CutsInto(Flat(l.blocks), l.blocks);
    var oldToNew :| DocsMerged(TablesOf(segs), m.docs, oldToNew);
    forall j | 0 <= j < |Flat(l.blocks)|
      ensures Flat(l.blocks)[j].docId < UINT32_MAX - 1
    {
      InDocs(l.blocks, |m.docs.ctids|, j);
    }
    WrittenListIsValid(Flat(l.blocks), l, m.docs.tenants, weigh, queryFreq, blockMax, maxScore);
  }

  lemma TableIsValid(tables: seq<DocTable>, merged: DocTable, oldToNew: seq<seq<nat>>)
    requires DocsMerged(tables, merged, oldToNew)
    ensures ValidDocs(merged)
  {
  }
}
