/**
 * Assignment of dense document ids to CTIDs when a segment is written (src/segment/docmap.c),
 * and the search for one tenant's id range when it is read (src/segment/scan.c).
 */
module DocMap {
  import opened Fieldnorm
  import opened ItemPointers
  import opened QSort
  import opened Sequences
  import opened Wrappers

  datatype DocEntry = DocEntry(ctid: ItemPointer, docId: nat, docLength: nat, tenantId: nat)

  datatype TenantRange = TenantRange(tenantId: nat, firstDocId: nat, docCount: nat)

  // ---------- the two sort orders ----------

  predicate CtidLeq(a: DocEntry, b: DocEntry) {
    !Before(b.ctid, a.ctid)
  }

  predicate TenantThenCtidLeq(a: DocEntry, b: DocEntry) {
    if a.tenantId != b.tenantId then a.tenantId < b.tenantId else CtidLeq(a, b)
  }

  /** The order documents get in a segment: by tenant, then by CTID. */
  predicate KeyLess(a: DocEntry, b: DocEntry) {
    a.tenantId < b.tenantId || (a.tenantId == b.tenantId && Before(a.ctid, b.ctid))
  }

  /** The order of documents as that of numbers, the tenant above the CTID's 32-bit block and 16-bit offset. */
  lemma KeyIsNumeric(a: DocEntry, b: DocEntry)
    requires a.ctid.block < 0x1_0000_0000 && b.ctid.block < 0x1_0000_0000
    requires a.ctid.offset < 0x1_0000 && b.ctid.offset < 0x1_0000
    ensures KeyLess(a, b) <==>
            a.tenantId * 0x1_0000_0000_0000 + Number(a.ctid) < b.tenantId * 0x1_0000_0000_0000 + Number(b.ctid)
  {
  }

  /** Every entry of the table occurs exactly once in `s`, and nothing else does. */
  ghost predicate ListsTable(s: seq<DocEntry>, m: map<ItemPointer, DocEntry>) {
    && |s| == |m| && Distinct(s)
    && (forall e :: e in s ==> e.ctid in m && m[e.ctid] == e)
    && (forall c :: c in m ==> m[c].ctid == c && m[c] in s)
  }

  ghost predicate ValidTable(m: map<ItemPointer, DocEntry>) {
    && (forall c :: c in m ==> m[c].ctid == c && m[c].docId < |m| && m[c].tenantId <= UINT32_MAX)
    && (forall c, d :: c in m && d in m && c != d ==> m[c].docId != m[d].docId)
  }

  lemma ListsTablePermuted(s: seq<DocEntry>, t: seq<DocEntry>, m: map<ItemPointer, DocEntry>)
    requires ListsTable(s, m) && multiset(s) == multiset(t)
    ensures ListsTable(t, m)
  {
    assert |t| == |multiset(t)| == |multiset(s)| == |s|;
    DistinctCount(s);
    CountDistinct(t);
    assert forall e :: e in t ==> e in multiset(t);
    assert forall e :: e in s ==> e in multiset(s);
  }

  ghost predicate AscendingKeys(s: seq<DocEntry>) {
    forall i, j :: 0 <= i < j < |s| ==> KeyLess(s[i], s[j])
  }

  lemma SortedAscends(s: seq<DocEntry>, m: map<ItemPointer, DocEntry>)
    requires ListsTable(s, m)
    requires SortedBy(s, TenantThenCtidLeq) || (SortedBy(s, CtidLeq) && forall e :: e in s ==> e.tenantId == 0)
    ensures AscendingKeys(s)
  {
    forall i, j | 0 <= i < j < |s|
      ensures KeyLess(s[i], s[j])
    {
      assert m[s[i].ctid] == s[i] && m[s[j].ctid] == s[j];
      assert s[i].tenantId == s[j].tenantId ==> CtidLeq(s[i], s[j]);
    }
  }

  lemma OrdersAreTotal()
    ensures TotalPreorder(CtidLeq) && TotalPreorder(TenantThenCtidLeq)
  {
  }

  // ---------- what finalization establishes ----------

  /** `m` is `before` with document ids replaced by positions in the sorted list `s`. */
  ghost predicate Renumbered(before: map<ItemPointer, DocEntry>, m: map<ItemPointer, DocEntry>, s: seq<DocEntry>, n: nat)
    requires n <= |s|
  {
    && m.Keys == before.Keys
    && (forall i :: 0 <= i < n ==> s[i].ctid in m && m[s[i].ctid] == s[i].(docId := i))
    && (forall i :: n <= i < |s| ==> s[i].ctid in m && m[s[i].ctid] == s[i])
  }

  /** Ids follow the key order of the documents, and reach exactly 0 .. |m| - 1. */
  ghost predicate OrderIsomorphism(before: map<ItemPointer, DocEntry>, m: map<ItemPointer, DocEntry>) {
    && m.Keys == before.Keys
    && (forall c :: c in m ==> m[c] == before[c].(docId := m[c].docId) && m[c].docId < |m|)
    && (forall c, d :: c in m && d in m ==> (m[c].docId < m[d].docId <==> KeyLess(before[c], before[d])))
  }

  lemma SortedLength(s: seq<DocEntry>, m: map<ItemPointer, DocEntry>)
    requires ListsTable(s, m)
    ensures |s| == |m|
  {
  }

  lemma NothingRenumbered(before: map<ItemPointer, DocEntry>, s: seq<DocEntry>)
    requires ListsTable(s, before)
    ensures Renumbered(before, before, s, 0)
  {
    assert forall i :: 0 <= i < |s| ==> s[i] in s;
  }

  lemma RenumberStep(before: map<ItemPointer, DocEntry>, m: map<ItemPointer, DocEntry>, s: seq<DocEntry>, n: nat)
    requires n < |s| && ListsTable(s, before) && Renumbered(before, m, s, n)
    ensures Renumbered(before, m[s[n].ctid := s[n].(docId := n)], s, n + 1)
  {
    forall i | 0 <= i < |s| && i != n
      ensures s[i].ctid != s[n].ctid
    {
      assert before[s[i].ctid] == s[i] && before[s[n].ctid] == s[n];
    }
  }

  lemma PositionOf(before: map<ItemPointer, DocEntry>, m: map<ItemPointer, DocEntry>, s: seq<DocEntry>, c: ItemPointer)
    returns (i: nat)
    requires ListsTable(s, before) && Renumbered(before, m, s, |s|) && c in m
    ensures i < |s| && s[i] == before[c] && m[c] == s[i].(docId := i)
  {
    assert before[c] in s;
    i :| 0 <= i < |s| && s[i] == before[c];
    assert m[s[i].ctid] == s[i].(docId := i);
  }

  lemma KeyLessIsStrict(a: DocEntry, b: DocEntry)
    ensures !KeyLess(a, a) && !(KeyLess(a, b) && KeyLess(b, a))
  {
  }

  lemma RenumberedIsIsomorphism(before: map<ItemPointer, DocEntry>, m: map<ItemPointer, DocEntry>, s: seq<DocEntry>)
    requires ListsTable(s, before) && AscendingKeys(s) && Renumbered(before, m, s, |s|)
    ensures OrderIsomorphism(before, m)
  {
    assert |m| == |before| == |s| && m.Keys == before.Keys by {
      assert |m.Keys| == |m| && |before.Keys| == |before|;
    }
    hide ListsTable, Renumbered, KeyLess;
    forall c | c in m
      ensures m[c] == before[c].(docId := m[c].docId) && m[c].docId < |m|
    {
      var i := PositionOf(before, m, s, c);
    }
    forall c, d | c in m && d in m
      ensures m[c].docId < m[d].docId <==> KeyLess(before[c], before[d])
    {
      var i := PositionOf(before, m, s, c);
      var j := PositionOf(before, m, s, d);
      KeyLessIsStrict(s[i], s[j]);
      if j < i { assert KeyLess(s[j], s[i]); }
    }
  }

  // ---------- tenant ranges ----------

  ghost predicate InRange(r: TenantRange, d: nat) {
    r.firstDocId <= d < r.firstDocId + r.docCount
  }

  /** Ranges ascend by tenant and each holds exactly its tenant's documents. */
  ghost predicate RangesCover(tenants: seq<nat>, ranges: seq<TenantRange>, missing: iset<nat>) {
    && (forall i, j :: 0 <= i < j < |ranges| ==> ranges[i].tenantId < ranges[j].tenantId)
    && (forall i :: 0 <= i < |ranges| ==> RangeExact(tenants, ranges[i]))
    && (forall d :: 0 <= d < |tenants| && tenants[d] !in missing ==>
                      exists i :: 0 <= i < |ranges| && ranges[i].tenantId == tenants[d])
    && (forall i :: 0 <= i < |ranges| ==> ranges[i].tenantId !in missing)
  }

  /** A maximal run: all of the tenant's documents, no other ones, and at least one. */
  ghost predicate RangeExact(tenants: seq<nat>, r: TenantRange) {
    && 0 < r.docCount && r.firstDocId + r.docCount <= |tenants|
    && forall d :: 0 <= d < |tenants| ==> (tenants[d] == r.tenantId <==> InRange(r, d))
  }

  ghost predicate Ascending(tenants: seq<nat>) {
    forall i, j :: 0 <= i < j < |tenants| ==> tenants[i] <= tenants[j]
  }

  /** The ranges emitted for the documents before `runStart`. */
  ghost predicate RangesBefore(tenants: seq<nat>, ranges: seq<TenantRange>, runStart: nat, runTenant: nat) {
    && (forall i, j :: 0 <= i < j < |ranges| ==> ranges[i].tenantId < ranges[j].tenantId)
    && (forall i :: 0 <= i < |ranges| ==> RangeExact(tenants, ranges[i]) && 0 < ranges[i].tenantId < runTenant)
    && (forall d :: 0 <= d < runStart && d < |tenants| && tenants[d] != 0 ==>
                      exists i :: 0 <= i < |ranges| && ranges[i].tenantId == tenants[d])
  }

  /** A run [start, end) bounded by other tenants on both sides. */
  lemma RunIsExact(tenants: seq<nat>, start: nat, end: nat, tenant: nat)
    requires Ascending(tenants) && start < end <= |tenants|
    requires forall d :: start <= d < end ==> tenants[d] == tenant
    requires start > 0 ==> tenants[start - 1] < tenant
    requires end < |tenants| ==> tenant < tenants[end]
    ensures RangeExact(tenants, TenantRange(tenant, start, end - start))
  {
  }

  lemma EmitRange(tenants: seq<nat>, ranges: seq<TenantRange>, start: nat, end: nat, tenant: nat, next: nat)
    requires Ascending(tenants) && start < end <= |tenants| && tenant < next
    requires RangesBefore(tenants, ranges, start, tenant)
    requires forall d :: start <= d < end ==> tenants[d] == tenant
    requires start > 0 ==> tenants[start - 1] < tenant
    requires end < |tenants| ==> tenants[end] == next
    ensures RangesBefore(tenants, if tenant != 0 then ranges + [TenantRange(tenant, start, end - start)] else ranges,
                         end, next)
  {
    RunIsExact(tenants, start, end, tenant);
    var more := if tenant != 0 then ranges + [TenantRange(tenant, start, end - start)] else ranges;
    forall d | 0 <= d < end && tenants[d] != 0
      ensures exists i :: 0 <= i < |more| && more[i].tenantId == tenants[d]
    {
      if d < start {
        var i :| 0 <= i < |ranges| && ranges[i].tenantId == tenants[d];
        assert more[i].tenantId == tenants[d];
      } else {
        assert more[|ranges|].tenantId == tenants[d];
      }
    }
  }

  /**
   * The boundary scan of tp_docmap_finalize. UINT32_MAX stands for "past the end", so a run of
   * that tenant never ends and gets no range.
   */
  method ComputeRanges(tenants: seq<nat>) returns (ranges: seq<TenantRange>)
    requires Ascending(tenants) && tenants != []
    requires forall d :: 0 <= d < |tenants| ==> tenants[d] <= UINT32_MAX
    ensures RangesCover(tenants, ranges, iset{0, UINT32_MAX})
  {
    hide RangesBefore;
    ranges := [];
    var runStart, runTenant := 0, tenants[0];
    NoRanges(tenants, runTenant);
    var i := 1;
    while i <= |tenants|
      invariant 1 <= i <= |tenants| + 1 && runStart <= i && runTenant <= UINT32_MAX
      invariant i <= |tenants| ==> runStart < i
      invariant i == |tenants| + 1 ==> runTenant == UINT32_MAX
      invariant runStart < |tenants| ==> forall d :: runStart <= d < i && d < |tenants| ==> tenants[d] == runTenant
      invariant 0 < runStart < |tenants| ==> tenants[runStart - 1] < runTenant
      invariant RangesBefore(tenants, ranges, runStart, runTenant)
    {
      var tid := if i < |tenants| then tenants[i] else UINT32_MAX;
      if tid != runTenant {
        assert tenants[i - 1] == runTenant;
        EmitRange(tenants, ranges, runStart, i, runTenant, tid);
        if runTenant != 0 {
          ranges := ranges + [TenantRange(runTenant, runStart, i - runStart)];
        }
        runStart, runTenant := i, tid;
      }
      i := i + 1;
    }
    RangesComplete(tenants, ranges, runStart);
  }

  lemma NoRanges(tenants: seq<nat>, runTenant: nat)
    ensures RangesBefore(tenants, [], 0, runTenant)
  {
  }

  lemma RangesComplete(tenants: seq<nat>, ranges: seq<TenantRange>, runStart: nat)
    requires RangesBefore(tenants, ranges, runStart, UINT32_MAX)
    requires runStart < |tenants| ==> forall d :: runStart <= d < |tenants| ==> tenants[d] == UINT32_MAX
    ensures RangesCover(tenants, ranges, iset{0, UINT32_MAX})
  {
  }

  /** Every non-zero tenant has its range exactly when no document belongs to the sentinel tenant. */
  lemma RangesCompleteIff(tenants: seq<nat>, ranges: seq<TenantRange>)
    requires RangesCover(tenants, ranges, iset{0, UINT32_MAX})
    ensures RangesCover(tenants, ranges, iset{0}) <==> UINT32_MAX !in tenants
  {
    if UINT32_MAX in tenants {
      var d :| 0 <= d < |tenants| && tenants[d] == UINT32_MAX;
      assert tenants[d] !in iset{0};
    }
  }

  /** tp_segment_get_tenant_doc_range on a tenant-ordered segment: first and last document id. */
  method TenantDocRange(ranges: seq<TenantRange>, tenantId: nat, ghost tenants: seq<nat>)
    returns (r: Option<(nat, nat)>)
    requires RangesCover(tenants, ranges, iset{0, UINT32_MAX})
    ensures r.Some? ==> forall d :: 0 <= d < |tenants| ==> (tenants[d] == tenantId <==> r.value.0 <= d <= r.value.1)
    ensures r.Some? ==> r.value.0 <= r.value.1 < |tenants|
    ensures r.None? && tenantId != 0 && tenantId != UINT32_MAX ==> tenantId !in tenants
  {
    var lo, hi := 0, |ranges| - 1;
    while lo <= hi
      invariant 0 <= lo <= hi + 1 <= |ranges|
      invariant forall i :: 0 <= i < lo ==> ranges[i].tenantId < tenantId
      invariant forall i :: hi < i < |ranges| ==> tenantId < ranges[i].tenantId
      decreases hi - lo
    {
      var mid := lo + (hi - lo) / 2;
      var range := ranges[mid];
      if range.tenantId == tenantId {
        assert RangeExact(tenants, range);
        return Some((range.firstDocId, range.firstDocId + range.docCount - 1));
      } else if range.tenantId < tenantId {
        lo := mid + 1;
      } else {
        hi := mid - 1;
      }
    }
    return None;
  }

  // ---------- the builder ----------

  class DocMapBuilder {
    var ctidToId: map<ItemPointer, DocEntry>
    var numDocs: nat
    var finalized: bool
    var tenantOrdered: bool
    var ctidPages: seq<nat>
    var ctidOffsets: seq<nat>
    var fieldnorms: seq<nat>
    var tenantIds: seq<nat>
    var tenantRanges: seq<TenantRange>

    constructor ()
      ensures Valid() && !finalized && ctidToId == map[]
    {
      ctidToId := map[];
      numDocs := 0;
      finalized, tenantOrdered := false, false;
      ctidPages, ctidOffsets, fieldnorms, tenantIds, tenantRanges := [], [], [], [], [];
    }

    ghost predicate Valid()
      reads this
    {
      && numDocs == |ctidToId| < UINT32_MAX && ValidTable(ctidToId)
      && (finalized ==> Published())
    }

    /** The arrays describe document i as the table does. */
    ghost predicate Published()
      reads `ctidToId, `tenantOrdered, `ctidPages, `ctidOffsets, `fieldnorms, `tenantIds, `tenantRanges
    {
      && |ctidPages| == |ctidOffsets| == |fieldnorms| == |ctidToId|
      && (forall i :: 0 <= i < |ctidToId| ==>
                        && CtidOf(i) in ctidToId && ctidToId[CtidOf(i)].docId == i
                        && IsCode(ctidToId[CtidOf(i)].docLength, fieldnorms[i]))
      && (tenantOrdered <==> exists c :: c in ctidToId && ctidToId[c].tenantId != 0)
      && (tenantOrdered ==>
            && |tenantIds| == |ctidToId|
            && (forall i :: 0 <= i < |ctidToId| ==> tenantIds[i] == ctidToId[CtidOf(i)].tenantId)
            && RangesCover(tenantIds, tenantRanges, iset{0, UINT32_MAX}))
    }

    ghost function CtidOf(i: nat): ItemPointer
      requires i < |ctidPages| && i < |ctidOffsets|
      reads `ctidPages, `ctidOffsets
    {
      ItemPointer(ctidPages[i], ctidOffsets[i])
    }

    /** tp_docmap_add: a known document keeps its id, a new one gets the next; None is the size error. */
    method Add(ctid: ItemPointer, docLength: nat, tenantId: nat) returns (id: Option<nat>)
      requires Valid() && !finalized && tenantId <= UINT32_MAX
      modifies this
      ensures Valid() && !finalized
      ensures id.None? <==> old(numDocs) >= UINT32_MAX - 1
      ensures id.None? ==> ctidToId == old(ctidToId)
      ensures id.Some? && ctid in old(ctidToId) ==> ctidToId == old(ctidToId) && id.value == ctidToId[ctid].docId
      ensures id.Some? && ctid !in old(ctidToId) ==>
                && id.value == |old(ctidToId)|
                && ctidToId == old(ctidToId)[ctid := DocEntry(ctid, id.value, docLength, tenantId)]
    {
      if numDocs >= UINT32_MAX - 1 { return None; }
      if ctid in ctidToId { return Some(ctidToId[ctid].docId); }
      id := Some(numDocs);
      ctidToId := ctidToId[ctid := DocEntry(ctid, numDocs, docLength, tenantId)];
      numDocs := numDocs + 1;
    }

    /** tp_docmap_lookup: UINT32_MAX is never an id, so it can mean "not found". */
    method Lookup(ctid: ItemPointer) returns (id: nat)
      requires Valid()
      ensures id == UINT32_MAX <==> ctid !in ctidToId
      ensures ctid in ctidToId ==> id == ctidToId[ctid].docId
    {
      if ctid !in ctidToId { return UINT32_MAX; }
      return ctidToId[ctid].docId;
    }

    /** Walk the hash table in its own order. */
    method CollectEntries() returns (entries: seq<DocEntry>, hasTenants: bool)
      requires Valid()
      ensures ListsTable(entries, ctidToId)
      ensures hasTenants <==> exists c :: c in ctidToId && ctidToId[c].tenantId != 0
    {
      entries, hasTenants := [], false;
      var left := ctidToId.Keys;
      while left != {}
        invariant left <= ctidToId.Keys && |entries| + |left| == |ctidToId|
        invariant Distinct(entries)
        invariant forall e :: e in entries ==> e.ctid in ctidToId && ctidToId[e.ctid] == e && e.ctid !in left
        invariant forall c :: c in ctidToId && c !in left ==> ctidToId[c] in entries
        invariant hasTenants <==> exists c :: c in ctidToId && c !in left && ctidToId[c].tenantId != 0
        decreases left
      {
        var c :| c in left;
        var entry := ctidToId[c];
        assert entry !in entries;
        entries := entries + [entry];
        if entry.tenantId != 0 {
          hasTenants := true;
        }
        left := left - {c};
      }
    }

    /** The first n documents have been written to the output arrays. */
    ghost predicate Filled(entries: seq<DocEntry>, hasTenants: bool, n: nat)
      reads `ctidPages, `ctidOffsets, `fieldnorms, `tenantIds
    {
      && n <= |entries| && |ctidPages| == |ctidOffsets| == |fieldnorms| == n
      && (hasTenants ==> |tenantIds| == n)
      && forall j :: 0 <= j < n ==>
                       && CtidOf(j) == entries[j].ctid && IsCode(entries[j].docLength, fieldnorms[j])
                       && (hasTenants ==> tenantIds[j] == entries[j].tenantId)
    }

    method FillOne(entries: seq<DocEntry>, hasTenants: bool, i: nat)
      requires i < |entries| && Filled(entries, hasTenants, i)
      modifies `ctidPages, `ctidOffsets, `fieldnorms, `tenantIds
      ensures Filled(entries, hasTenants, i + 1)
    {
      hide IsCode;
      var e := entries[i];
      ctidPages, ctidOffsets := ctidPages + [e.ctid.block], ctidOffsets + [e.ctid.offset];
      var norm := EncodeFieldnorm(e.docLength);
      fieldnorms := fieldnorms + [norm];
      if hasTenants {
        tenantIds := tenantIds + [e.tenantId];
      }
      assert CtidOf(i) == e.ctid;
      assert forall j :: 0 <= j < i ==> CtidOf(j) == old(CtidOf(j));
    }

    /** Fill the output arrays in sorted order and write the new ids back into the table. */
    method AssignIds(entries: seq<DocEntry>, hasTenants: bool)
      requires ListsTable(entries, ctidToId)
      modifies `ctidToId, `ctidPages, `ctidOffsets, `fieldnorms, `tenantIds
      ensures Renumbered(old(ctidToId), ctidToId, entries, |entries|)
      ensures Filled(entries, hasTenants, |entries|)
    {
      hide Renumbered, ListsTable, IsCode;
      ghost var before := ctidToId;
      NothingRenumbered(before, entries);
      ctidPages, ctidOffsets, fieldnorms, tenantIds := [], [], [], [];
      var i := 0;
      while i < |entries|
        invariant 0 <= i <= |entries| && Renumbered(before, ctidToId, entries, i)
        invariant Filled(entries, hasTenants, i)
      {
        FillOne(entries, hasTenants, i);
        RenumberStep(before, ctidToId, entries, i);
        ctidToId := ctidToId[entries[i].ctid := entries[i].(docId := i)];
        i := i + 1;
      }
    }

    /** qsort with the comparator the tenant data calls for. */
    method SortEntries(entries: seq<DocEntry>, hasTenants: bool) returns (sorted: seq<DocEntry>)
      requires ListsTable(entries, ctidToId)
      requires hasTenants <==> exists c :: c in ctidToId && ctidToId[c].tenantId != 0
      ensures ListsTable(sorted, ctidToId) && AscendingKeys(sorted)
    {
      OrdersAreTotal();
      if hasTenants {
        sorted := Sort(entries, TenantThenCtidLeq);
        SortKeeps(entries, TenantThenCtidLeq);
        SortSorts(entries, TenantThenCtidLeq);
      } else {
        sorted := Sort(entries, CtidLeq);
        SortKeeps(entries, CtidLeq);
        SortSorts(entries, CtidLeq);
      }
      ListsTablePermuted(entries, sorted, ctidToId);
      SortedAscends(sorted, ctidToId);
    }

    /** The tenant column of the sorted documents. */
    lemma TenantsAscend(sorted: seq<DocEntry>, m: map<ItemPointer, DocEntry>)
      requires ListsTable(sorted, m) && AscendingKeys(sorted) && Filled(sorted, true, |sorted|) && ValidTable(m)
      ensures Ascending(tenantIds) && |tenantIds| == |m|
      ensures forall d :: 0 <= d < |tenantIds| ==> tenantIds[d] <= UINT32_MAX
    {
      forall d | 0 <= d < |tenantIds|
        ensures tenantIds[d] <= UINT32_MAX
      {
        assert sorted[d] in sorted;
      }
    }

    lemma PublishedAt(before: map<ItemPointer, DocEntry>, sorted: seq<DocEntry>, i: nat)
      requires Renumbered(before, ctidToId, sorted, |sorted|) && Filled(sorted, tenantOrdered, |sorted|) && i < |sorted|
      ensures |ctidPages| == |ctidOffsets| == |fieldnorms| == |sorted|
      ensures CtidOf(i) in ctidToId && ctidToId[CtidOf(i)].docId == i
      ensures IsCode(ctidToId[CtidOf(i)].docLength, fieldnorms[i])
      ensures tenantOrdered ==> |tenantIds| == |sorted| && tenantIds[i] == ctidToId[CtidOf(i)].tenantId
    {
      hide IsCode;
    }

    lemma ValidRenumbered(before: map<ItemPointer, DocEntry>)
      requires OrderIsomorphism(before, ctidToId) && ValidTable(before)
      ensures ValidTable(ctidToId) && |ctidToId| == |before|
    {
      assert |ctidToId| == |ctidToId.Keys| == |before.Keys| == |before|;
      forall c, d | c in ctidToId && d in ctidToId && c != d
        ensures ctidToId[c].docId != ctidToId[d].docId
      {
        assert before[c].ctid == c && before[d].ctid == d;
        assert KeyLess(before[c], before[d]) || KeyLess(before[d], before[c]);
      }
    }

    lemma TenantsKept(before: map<ItemPointer, DocEntry>)
      requires OrderIsomorphism(before, ctidToId)
      ensures (exists c :: c in before && before[c].tenantId != 0) <==>
              (exists c :: c in ctidToId && ctidToId[c].tenantId != 0)
    {
      hide KeyLess;
    }

    lemma PublishedWhenFilled(before: map<ItemPointer, DocEntry>, sorted: seq<DocEntry>)
      requires |sorted| == |before| && Renumbered(before, ctidToId, sorted, |sorted|) && ValidTable(before)
      requires OrderIsomorphism(before, ctidToId) && Filled(sorted, tenantOrdered, |sorted|)
      requires tenantOrdered <==> exists c :: c in before && before[c].tenantId != 0
      requires tenantOrdered ==> RangesCover(tenantIds, tenantRanges, iset{0, UINT32_MAX})
      ensures Published() && ValidTable(ctidToId) && |ctidToId| == |before|
    {
      ValidRenumbered(before);
      TenantsKept(before);
      hide RangesCover, IsCode, Renumbered, OrderIsomorphism, ValidTable;
      assert |ctidPages| == |ctidOffsets| == |fieldnorms| == |sorted|;
      assert tenantOrdered ==> |tenantIds| == |sorted|;
      hide Filled;
      forall i | 0 <= i < |sorted|
        ensures CtidOf(i) in ctidToId && ctidToId[CtidOf(i)].docId == i
        ensures IsCode(ctidToId[CtidOf(i)].docLength, fieldnorms[i])
        ensures tenantOrdered ==> tenantIds[i] == ctidToId[CtidOf(i)].tenantId
      {
        PublishedAt(before, sorted, i);
      }
    }

    lemma EmptyPublished()
      requires ctidToId == map[] && ctidPages == ctidOffsets == [] && fieldnorms == [] && !tenantOrdered
      ensures Published() && OrderIsomorphism(ctidToId, ctidToId)
    {
    }

    /** Sort, renumber, and find the tenant ranges. */
    method FinalizeEntries(entries: seq<DocEntry>, hasTenants: bool)
      requires ValidTable(ctidToId) && ListsTable(entries, ctidToId) && ctidToId != map[]
      requires hasTenants <==> exists c :: c in ctidToId && ctidToId[c].tenantId != 0
      modifies `ctidToId, `tenantOrdered, `ctidPages, `ctidOffsets, `fieldnorms, `tenantIds, `tenantRanges
      ensures Published() && ValidTable(ctidToId) && |ctidToId| == old(|ctidToId|)
      ensures OrderIsomorphism(old(ctidToId), ctidToId)
    {
      hide RangesCover, IsCode, ListsTable, AscendingKeys, Renumbered, OrderIsomorphism, Filled, Published, ValidTable;
      ghost var before := ctidToId;
      var sorted := SortEntries(entries, hasTenants);
      SortedLength(sorted, before);
      tenantOrdered := hasTenants;
      AssignIds(sorted, hasTenants);
      RenumberedIsIsomorphism(before, ctidToId, sorted);
      if hasTenants {
        TenantsAscend(sorted, before);
        tenantRanges := ComputeRanges(tenantIds);
      }
      PublishedWhenFilled(before, sorted);
    }

    /**
     * tp_docmap_finalize: from here on the ids follow the order of (tenant, CTID), which is
     * CTID order when there are no tenants, and the tenant ranges are in place.
     */
    method Finalize()
      requires Valid() && !finalized
      modifies this
      ensures Valid() && finalized && numDocs == old(numDocs)
      ensures OrderIsomorphism(old(ctidToId), ctidToId)
    {
      hide Published, ValidTable, ListsTable, OrderIsomorphism;
      if numDocs == 0 {
        ctidPages, ctidOffsets, fieldnorms, tenantOrdered := [], [], [], false;
        EmptyPublished();
        finalized := true;
        return;
      }
      var entries, hasTenants := CollectEntries();
      FinalizeEntries(entries, hasTenants);
      finalized := true;
    }
  }
}
