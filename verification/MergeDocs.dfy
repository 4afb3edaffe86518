/**
 * The merged document table (build_merged_docmap, src/segment/merge.c): every source document
 * keeps its CTID, its length byte and its tenant under a new id.
 */
module MergeDocs {
  import opened DocMap
  import opened Fieldnorm
  import opened ItemPointers
  import opened MergePostings
  import opened Postings
  import opened Wrappers

  ghost predicate ValidDocs(t: DocTable) {
    && |t.fieldnorms| == |t.ctids| && (t.tenants == [] || |t.tenants| == |t.ctids|)
    && (forall d :: 0 <= d < |t.fieldnorms| ==> t.fieldnorms[d] < 256)
    && (forall d :: 0 <= d < |t.tenants| ==> t.tenants[d] <= UINT32_MAX)
  }

  ghost predicate ValidTables(tables: seq<DocTable>) {
    forall i :: 0 <= i < |tables| ==> ValidDocs(tables[i])
  }

  /** A document of a source: the source's index and the document's id there. */
  datatype DocRef = DocRef(source: nat, id: nat)

  ghost predicate IsDoc(tables: seq<DocTable>, r: DocRef) {
    r.source < |tables| && r.id < |tables[r.source].ctids|
  }

  function CtidAt(tables: seq<DocTable>, r: DocRef): ItemPointer {
    if r.source < |tables| && r.id < |tables[r.source].ctids| then tables[r.source].ctids[r.id] else INVALID_POINTER
  }

  function NormAt(tables: seq<DocTable>, r: DocRef): nat {
    if r.source < |tables| && r.id < |tables[r.source].fieldnorms| then tables[r.source].fieldnorms[r.id] else 0
  }

  function TenantAt(tables: seq<DocTable>, r: DocRef): nat {
    if r.source < |tables| then GetTenantId(tables[r.source].tenants, r.id) else 0
  }

  /** No CTID occurs twice, in one segment or in two. */
  ghost predicate DisjointDocs(tables: seq<DocTable>) {
    forall r, q :: IsDoc(tables, r) && IsDoc(tables, q) && CtidAt(tables, r) == CtidAt(tables, q) ==> r == q
  }

  /** Documents before `end`, table by table. */
  predicate Earlier(r: DocRef, end: DocRef) {
    r.source < end.source || (r.source == end.source && r.id < end.id)
  }

  /** The table entry made of a source document. */
  ghost predicate EntryFor(e: DocEntry, tables: seq<DocTable>, r: DocRef) {
    && e.ctid == CtidAt(tables, r) && e.tenantId == TenantAt(tables, r)
    && NormAt(tables, r) < 256 && e.docLength == DecodeFieldnorm(NormAt(tables, r))
  }

  ghost predicate Source(c: ItemPointer, tables: seq<DocTable>, end: DocRef) {
    exists r :: IsDoc(tables, r) && Earlier(r, end) && CtidAt(tables, r) == c
  }

  /** Exactly the documents before `end` are in the table. */
  ghost predicate AddedTo(m: map<ItemPointer, DocEntry>, tables: seq<DocTable>, end: DocRef) {
    && (forall r :: IsDoc(tables, r) && Earlier(r, end) ==>
          CtidAt(tables, r) in m && EntryFor(m[CtidAt(tables, r)], tables, r))
    && (forall c :: c in m ==> Source(c, tables, end))
  }

  lemma AddOne(m: map<ItemPointer, DocEntry>, tables: seq<DocTable>, r: DocRef, e: DocEntry)
    requires DisjointDocs(tables) && IsDoc(tables, r) && AddedTo(m, tables, r) && EntryFor(e, tables, r)
    ensures AddedTo(m[e.ctid := e], tables, DocRef(r.source, r.id + 1))
  {
    hide EntryFor;
    assert e.ctid == CtidAt(tables, r) by { EntryCtid(e, tables, r); }
    var next := DocRef(r.source, r.id + 1);
    forall c | c in m[e.ctid := e]
      ensures Source(c, tables, next)
    {
      if c == e.ctid {
        assert IsDoc(tables, r) && Earlier(r, next);
      } else {
        assert Source(c, tables, r);
        var q :| IsDoc(tables, q) && Earlier(q, r) && CtidAt(tables, q) == c;
        assert Earlier(q, next);
      }
    }
  }

  lemma EntryCtid(e: DocEntry, tables: seq<DocTable>, r: DocRef)
    requires EntryFor(e, tables, r)
    ensures e.ctid == CtidAt(tables, r)
  {
  }

  /** A document about to be added is not in the table yet. */
  lemma NotAddedYet(m: map<ItemPointer, DocEntry>, tables: seq<DocTable>, r: DocRef)
    requires DisjointDocs(tables) && IsDoc(tables, r) && AddedTo(m, tables, r)
    ensures CtidAt(tables, r) !in m
  {
  }

  lemma NextTable(m: map<ItemPointer, DocEntry>, tables: seq<DocTable>, n: nat)
    requires n < |tables| && AddedTo(m, tables, DocRef(n, |tables[n].ctids|))
    ensures AddedTo(m, tables, DocRef(n + 1, 0))
  {
    hide EntryFor;
    var here, next := DocRef(n, |tables[n].ctids|), DocRef(n + 1, 0);
    forall c | c in m
      ensures Source(c, tables, next)
    {
      assert Source(c, tables, here);
      var r :| IsDoc(tables, r) && Earlier(r, here) && CtidAt(tables, r) == c;
      assert Earlier(r, next);
    }
    assert forall r :: IsDoc(tables, r) && Earlier(r, next) ==> Earlier(r, here);
  }

  lemma NothingAdded(tables: seq<DocTable>)
    ensures AddedTo(map[], tables, DocRef(0, 0))
  {
  }

  lemma DocFacts(tables: seq<DocTable>, r: DocRef, id: nat)
    requires ValidTables(tables) && IsDoc(tables, r)
    ensures r.id < |tables[r.source].fieldnorms| && tables[r.source].fieldnorms[r.id] < 256
    ensures GetTenantId(tables[r.source].tenants, r.id) <= UINT32_MAX
    ensures EntryFor(DocEntry(tables[r.source].ctids[r.id], id, DecodeFieldnorm(tables[r.source].fieldnorms[r.id]),
                              GetTenantId(tables[r.source].tenants, r.id)), tables, r)
  {
    assert ValidDocs(tables[r.source]);
    hide DecodeFieldnorm;
  }

  /** First pass: add every document of one source. `ok` is false on the size error. */
  method AddTable(docmap: DocMapBuilder, tables: seq<DocTable>, i: nat) returns (ok: bool)
    requires docmap.Valid() && !docmap.finalized && i < |tables| && ValidTables(tables) && DisjointDocs(tables)
    requires AddedTo(docmap.ctidToId, tables, DocRef(i, 0))
    modifies docmap
    ensures docmap.Valid() && !docmap.finalized
    ensures ok ==> AddedTo(docmap.ctidToId, tables, DocRef(i + 1, 0))
    ensures ok ==> docmap.numDocs == old(docmap.numDocs) + |tables[i].ctids|
    ensures !ok ==> old(docmap.numDocs) + |tables[i].ctids| >= UINT32_MAX
  {
    hide AddedTo, DisjointDocs, ValidTables, GetTenantId, DecodeFieldnorm, DocMapBuilder.Published, ValidTable, EntryFor;
    var j := 0;
    while j < |tables[i].ctids|
      invariant 0 <= j <= |tables[i].ctids| && docmap.Valid() && !docmap.finalized
      invariant AddedTo(docmap.ctidToId, tables, DocRef(i, j)) && docmap.numDocs == old(docmap.numDocs) + j
    {
      ghost var r, before := DocRef(i, j), docmap.ctidToId;
      DocFacts(tables, r, |before|);
      NotAddedYet(before, tables, r);
      var docLength := DecodeFieldnorm(tables[i].fieldnorms[j]);
      var id := docmap.Add(tables[i].ctids[j], docLength, GetTenantId(tables[i].tenants, j));
      if id.None? { return false; }
      AddOne(before, tables, r, DocEntry(tables[i].ctids[j], |before|, docLength, GetTenantId(tables[i].tenants, j)));
      j := j + 1;
    }
    NextTable(docmap.ctidToId, tables, i);
    return true;
  }

  function NewId(oldToNew: seq<seq<nat>>, r: DocRef): nat {
    if r.source < |oldToNew| && r.id < |oldToNew[r.source]| then oldToNew[r.source][r.id] else 0
  }

  /** old_to_new holds the final id of every document of the first n sources. */
  ghost predicate MappedTo(oldToNew: seq<seq<nat>>, tables: seq<DocTable>, m: map<ItemPointer, DocEntry>, n: nat) {
    && |oldToNew| == n <= |tables| && (forall i :: 0 <= i < n ==> |oldToNew[i]| == |tables[i].ctids|)
    && forall r :: IsDoc(tables, r) && r.source < n ==>
                     CtidAt(tables, r) in m && NewId(oldToNew, r) == m[CtidAt(tables, r)].docId
  }

  ghost predicate TableMapped(ids: seq<nat>, ctids: seq<ItemPointer>, m: map<ItemPointer, DocEntry>, n: nat) {
    && |ids| == n <= |ctids|
    && forall d :: 0 <= d < n ==> ctids[d] in m && ids[d] == m[ctids[d]].docId
  }

  /** Second pass, one source: look up the final ids. */
  method MapTable(docmap: DocMapBuilder, ctids: seq<ItemPointer>) returns (ids: seq<nat>)
    requires docmap.Valid() && forall c :: c in ctids ==> c in docmap.ctidToId
    ensures TableMapped(ids, ctids, docmap.ctidToId, |ctids|)
  {
    hide DocMapBuilder.Published, ValidTable;
    ids := [];
    for d := 0 to |ctids|
      invariant TableMapped(ids, ctids, docmap.ctidToId, d)
    {
      assert ctids[d] in ctids;
      var id := docmap.Lookup(ctids[d]);
      ids := ids + [id];
    }
  }

  lemma MappedNext(oldToNew: seq<seq<nat>>, tables: seq<DocTable>, m: map<ItemPointer, DocEntry>, n: nat, ids: seq<nat>)
    requires MappedTo(oldToNew, tables, m, n) && n < |tables| && TableMapped(ids, tables[n].ctids, m, |tables[n].ctids|)
    ensures MappedTo(oldToNew + [ids], tables, m, n + 1)
  {
    forall r | IsDoc(tables, r) && r.source < n + 1
      ensures CtidAt(tables, r) in m && NewId(oldToNew + [ids], r) == m[CtidAt(tables, r)].docId
    {
      if r.source < n {
        assert NewId(oldToNew + [ids], r) == NewId(oldToNew, r);
      }
    }
  }

  lemma AllAdded(m: map<ItemPointer, DocEntry>, tables: seq<DocTable>, n: nat)
    requires AddedTo(m, tables, DocRef(|tables|, 0)) && n < |tables|
    ensures forall c :: c in tables[n].ctids ==> c in m
  {
    forall c | c in tables[n].ctids
      ensures c in m
    {
      var d: nat :| d < |tables[n].ctids| && tables[n].ctids[d] == c;
      var r := DocRef(n, d);
      assert IsDoc(tables, r) && Earlier(r, DocRef(|tables|, 0)) && CtidAt(tables, r) == c;
    }
  }

  /** The arrays of the finalized docmap, as the merged segment stores them. */
  function Published(docmap: DocMapBuilder): (t: DocTable)
    requires |docmap.ctidPages| == |docmap.ctidOffsets|
    reads docmap
    ensures |t.ctids| == |docmap.ctidPages| && forall i :: 0 <= i < |t.ctids| ==> t.ctids[i] == docmap.CtidOf(i)
  {
    DocTable(seq(|docmap.ctidPages|, i requires 0 <= i < |docmap.ctidPages| && |docmap.ctidPages| == |docmap.ctidOffsets|
                                       reads docmap => ItemPointer(docmap.ctidPages[i], docmap.ctidOffsets[i])),
             docmap.fieldnorms, if docmap.tenantOrdered then docmap.tenantIds else [])
  }

  /** A document keeps its CTID, its length byte and its tenant. */
  ghost predicate DocKept(tables: seq<DocTable>, r: DocRef, merged: DocTable, n: nat) {
    && n < |merged.ctids| && n < |merged.fieldnorms| && merged.ctids[n] == CtidAt(tables, r)
    && merged.fieldnorms[n] == NormAt(tables, r) && GetTenantId(merged.tenants, n) == TenantAt(tables, r)
  }

  ghost predicate Reached(tables: seq<DocTable>, oldToNew: seq<seq<nat>>, n: nat) {
    exists r :: IsDoc(tables, r) && NewId(oldToNew, r) == n
  }

  /** Ids follow (tenant, CTID). */
  ghost predicate DocsOrdered(t: DocTable) {
    forall n, m :: 0 <= n < m < |t.ctids| ==>
      GetTenantId(t.tenants, n) < GetTenantId(t.tenants, m) ||
      (GetTenantId(t.tenants, n) == GetTenantId(t.tenants, m) && Before(t.ctids[n], t.ctids[m]))
  }

  /** Every source document has its place in the merged table, which holds nothing else. */
  ghost predicate DocsMerged(tables: seq<DocTable>, merged: DocTable, oldToNew: seq<seq<nat>>) {
    && ValidDocs(merged) && DocsOrdered(merged) && |merged.ctids| < UINT32_MAX
    && (forall r :: IsDoc(tables, r) ==> DocKept(tables, r, merged, NewId(oldToNew, r)))
    && (forall n :: 0 <= n < |merged.ctids| ==> Reached(tables, oldToNew, n))
  }

  // ---------- reading the finalized docmap ----------

  /** What finalize leaves for the document with CTID c. */
  ghost predicate Final(docmap: DocMapBuilder, c: ItemPointer, before: DocEntry)
    reads docmap
  {
    && c in docmap.ctidToId && |docmap.ctidPages| == |docmap.ctidOffsets| == |docmap.fieldnorms|
    && var n := docmap.ctidToId[c].docId;
       && n < |docmap.ctidPages| && docmap.CtidOf(n) == c && IsCode(before.docLength, docmap.fieldnorms[n])
       && GetTenantId(Published(docmap).tenants, n) == before.tenantId
  }

  lemma FinalEntry(docmap: DocMapBuilder, before: map<ItemPointer, DocEntry>, c: ItemPointer)
    requires docmap.Valid() && docmap.finalized && OrderIsomorphism(before, docmap.ctidToId) && c in before
    ensures Final(docmap, c, before[c])
  {
    hide IsCode, RangesCover, KeyLess;
    var n := docmap.ctidToId[c].docId;
    var c' := docmap.CtidOf(n);
    assert docmap.ctidToId[c'].docId == n;
  }

  ghost function TotalDocs(tables: seq<DocTable>, n: nat): nat
    requires n <= |tables|
  {
    if n == 0 then 0 else TotalDocs(tables, n - 1) + |tables[n - 1].ctids|
  }

  /** More documents than one segment can number. */
  ghost predicate TooManyDocs(tables: seq<DocTable>) {
    TotalDocs(tables, |tables|) >= UINT32_MAX
  }

  lemma {:induction false} TotalGrows(tables: seq<DocTable>, m: nat, n: nat)
    requires m <= n <= |tables|
    ensures TotalDocs(tables, m) <= TotalDocs(tables, n)
  {
    if m < n { TotalGrows(tables, m, n - 1); }
  }

  lemma KeptByDocmap(docmap: DocMapBuilder, before: map<ItemPointer, DocEntry>, tables: seq<DocTable>,
                     oldToNew: seq<seq<nat>>, r: DocRef)
    requires docmap.Valid() && docmap.finalized && OrderIsomorphism(before, docmap.ctidToId)
    requires AddedTo(before, tables, DocRef(|tables|, 0)) && MappedTo(oldToNew, tables, docmap.ctidToId, |tables|)
    requires IsDoc(tables, r)
    ensures |docmap.ctidPages| == |docmap.ctidOffsets| && DocKept(tables, r, Published(docmap), NewId(oldToNew, r))
  {
    hide OrderIsomorphism, RangesCover, DecodeFieldnorm, ValidTable, IsCode;
    var c := CtidAt(tables, r);
    assert Earlier(r, DocRef(|tables|, 0)) && c in before && EntryFor(before[c], tables, r);
    FinalEntry(docmap, before, c);
    RequantizeIsStable(NormAt(tables, r), docmap.fieldnorms[docmap.ctidToId[c].docId]);
  }

  lemma ReachedByDocmap(docmap: DocMapBuilder, before: map<ItemPointer, DocEntry>, tables: seq<DocTable>,
                        oldToNew: seq<seq<nat>>, n: nat)
    requires docmap.Valid() && docmap.finalized && docmap.ctidToId.Keys == before.Keys && n < docmap.numDocs
    requires AddedTo(before, tables, DocRef(|tables|, 0)) && MappedTo(oldToNew, tables, docmap.ctidToId, |tables|)
    ensures Reached(tables, oldToNew, n)
  {
    hide RangesCover, IsCode, ValidTable, EntryFor;
    var c := docmap.CtidOf(n);
    assert c in before && Source(c, tables, DocRef(|tables|, 0));
    var r :| IsDoc(tables, r) && Earlier(r, DocRef(|tables|, 0)) && CtidAt(tables, r) == c;
    assert NewId(oldToNew, r) == n;
  }

  lemma OrderedByDocmap(docmap: DocMapBuilder, before: map<ItemPointer, DocEntry>, n: nat, m: nat)
    requires docmap.Valid() && docmap.finalized && OrderIsomorphism(before, docmap.ctidToId) && ValidTable(before)
    requires n < m < docmap.numDocs
    ensures |docmap.ctidPages| == |docmap.ctidOffsets| == docmap.numDocs
    ensures var t := Published(docmap);
            GetTenantId(t.tenants, n) < GetTenantId(t.tenants, m) ||
            (GetTenantId(t.tenants, n) == GetTenantId(t.tenants, m) && Before(t.ctids[n], t.ctids[m]))
  {
    hide RangesCover, IsCode;
    var c, d := docmap.CtidOf(n), docmap.CtidOf(m);
    FinalEntry(docmap, before, c);
    FinalEntry(docmap, before, d);
    assert before[c].ctid == c && before[d].ctid == d && KeyLess(before[c], before[d]);
  }

  lemma PublishedIsValid(docmap: DocMapBuilder)
    requires docmap.Valid() && docmap.finalized
    ensures |docmap.ctidPages| == |docmap.ctidOffsets| && ValidDocs(Published(docmap))
    ensures |Published(docmap).ctids| == docmap.numDocs < UINT32_MAX
  {
    hide RangesCover, DecodeFieldnorm;
  }

  lemma MergedByDocmap(docmap: DocMapBuilder, before: map<ItemPointer, DocEntry>, tables: seq<DocTable>,
                       oldToNew: seq<seq<nat>>)
    requires docmap.Valid() && docmap.finalized && OrderIsomorphism(before, docmap.ctidToId) && ValidTable(before)
    requires AddedTo(before, tables, DocRef(|tables|, 0)) && MappedTo(oldToNew, tables, docmap.ctidToId, |tables|)
    ensures |docmap.ctidPages| == |docmap.ctidOffsets| && DocsMerged(tables, Published(docmap), oldToNew)
  {
    hide *;
    SameKeys(before, docmap.ctidToId);
    PublishedIsValid(docmap);
    var t := Published(docmap);
    forall r | IsDoc(tables, r)
      ensures DocKept(tables, r, t, NewId(oldToNew, r))
    {
      KeptByDocmap(docmap, before, tables, oldToNew, r);
    }
    forall n | 0 <= n < |t.ctids|
      ensures Reached(tables, oldToNew, n)
    {
      ReachedByDocmap(docmap, before, tables, oldToNew, n);
    }
    AllOrderedByDocmap(docmap, before);
    Conclude(tables, t, oldToNew);
  }

  lemma AllOrderedByDocmap(docmap: DocMapBuilder, before: map<ItemPointer, DocEntry>)
    requires docmap.Valid() && docmap.finalized && OrderIsomorphism(before, docmap.ctidToId) && ValidTable(before)
    ensures |docmap.ctidPages| == |docmap.ctidOffsets| && DocsOrdered(Published(docmap))
  {
    PublishedIsValid(docmap);
    hide Published, OrderIsomorphism, ValidTable, GetTenantId, DocMapBuilder.Valid, Before, ValidDocs;
    var t := Published(docmap);
    forall n, m | 0 <= n < m < |t.ctids|
      ensures GetTenantId(t.tenants, n) < GetTenantId(t.tenants, m) ||
              (GetTenantId(t.tenants, n) == GetTenantId(t.tenants, m) && Before(t.ctids[n], t.ctids[m]))
    {
      OrderedByDocmap(docmap, before, n, m);
    }
  }

  lemma Conclude(tables: seq<DocTable>, t: DocTable, oldToNew: seq<seq<nat>>)
    requires ValidDocs(t) && DocsOrdered(t) && |t.ctids| < UINT32_MAX
    requires forall r :: IsDoc(tables, r) ==> DocKept(tables, r, t, NewId(oldToNew, r))
    requires forall n :: 0 <= n < |t.ctids| ==> Reached(tables, oldToNew, n)
    ensures DocsMerged(tables, t, oldToNew)
  {
  }

  /** First pass over all sources. */
  method AddAll(docmap: DocMapBuilder, tables: seq<DocTable>) returns (ok: bool)
    requires docmap.Valid() && !docmap.finalized && docmap.ctidToId == map[] && ValidTables(tables) &&
             DisjointDocs(tables)
    modifies docmap
    ensures docmap.Valid() && !docmap.finalized && (ok <==> TotalDocs(tables, |tables|) < UINT32_MAX)
    ensures ok ==> AddedTo(docmap.ctidToId, tables, DocRef(|tables|, 0))
  {
    NothingAdded(tables);
    hide AddedTo, DisjointDocs, ValidTables, DocMapBuilder.Published, ValidTable;
    var i := 0;
    while i < |tables|
      invariant 0 <= i <= |tables| && docmap.Valid() && !docmap.finalized
      invariant AddedTo(docmap.ctidToId, tables, DocRef(i, 0)) && docmap.numDocs == TotalDocs(tables, i)
    {
      ok := AddTable(docmap, tables, i);
      if !ok {
        TotalGrows(tables, i + 1, |tables|);
        return;
      }
      i := i + 1;
    }
    return true;
  }

  /** Second pass over all sources. */
  method MapAll(docmap: DocMapBuilder, tables: seq<DocTable>, ghost before: map<ItemPointer, DocEntry>)
    returns (oldToNew: seq<seq<nat>>)
    requires docmap.Valid() && AddedTo(before, tables, DocRef(|tables|, 0)) && docmap.ctidToId.Keys == before.Keys
    ensures MappedTo(oldToNew, tables, docmap.ctidToId, |tables|)
  {
    hide AddedTo, TableMapped, DocMapBuilder.Valid;
    oldToNew := [];
    for i := 0 to |tables|
      invariant MappedTo(oldToNew, tables, docmap.ctidToId, i)
    {
      AllAdded(before, tables, i);
      var ids := MapTable(docmap, tables[i].ctids);
      MappedNext(oldToNew, tables, docmap.ctidToId, i, ids);
      oldToNew := oldToNew + [ids];
    }
  }

  /**
   * build_merged_docmap: the merged document table and old_to_new; None is the size error,
   * raised exactly when there are too many documents for one segment.
   */
  method BuildMergedDocmap(tables: seq<DocTable>) returns (r: Option<(DocTable, seq<seq<nat>>)>)
    requires ValidTables(tables) && DisjointDocs(tables)
    ensures r.None? <==> TooManyDocs(tables)
    ensures r.Some? ==> DocsMerged(tables, r.value.0, r.value.1)
  {
    hide AddedTo, DisjointDocs, ValidTables, OrderIsomorphism, ValidTable, MappedTo, DocsMerged;
    var docmap := new DocMapBuilder();
    var ok := AddAll(docmap, tables);
    if !ok { return None; }
    ghost var before := docmap.ctidToId;
    docmap.Finalize();
    SameKeys(before, docmap.ctidToId);
    var oldToNew := MapAll(docmap, tables, before);
    MergedByDocmap(docmap, before, tables, oldToNew);
    return Some((Published(docmap), oldToNew));
  }

  lemma SameKeys(before: map<ItemPointer, DocEntry>, m: map<ItemPointer, DocEntry>)
    requires OrderIsomorphism(before, m)
    ensures m.Keys == before.Keys
  {
  }
}
