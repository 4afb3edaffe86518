/**
 * Scoring the memtable, which has no skip index (score_memtable_single_term and
 * score_memtable_multi_term, src/query/bmw.c).
 */
module MemtableScoring {
  import opened Collecting
  import opened ItemPointers
  import opened Postings
  import opened Sums
  import opened TopK
  import opened TopKSpec

  datatype MemPosting = MemPosting(ctid: ItemPointer, frequency: nat, docLength: int, tenantId: nat)

  /** One query term in the memtable; `hasTenantIds` is whether the source supplies tenants. */
  datatype MemTerm = MemTerm(postings: seq<MemPosting>, hasTenantIds: bool, weigh: (nat, int) -> real, queryFreq: nat)

  predicate MemPasses(t: MemTerm, p: MemPosting, tenantId: nat) {
    !(tenantId != 0 && t.hasTenantIds && p.tenantId != tenantId)
  }

  /** A missing document length counts as 1. */
  function MemWeight(t: MemTerm, p: MemPosting): real {
    t.weigh(p.frequency, if p.docLength <= 0 then 1 else p.docLength)
  }

  /** The memtable holds valid CTIDs, and BM25 is not negative. */
  ghost predicate ValidMemTerm(t: MemTerm) {
    forall j :: 0 <= j < |t.postings| ==> IsValid(t.postings[j].ctid) && 0.0 <= MemWeight(t, t.postings[j])
  }

  ghost predicate ValidMemTerms(terms: seq<MemTerm>) {
    forall i :: 0 <= i < |terms| ==> ValidMemTerm(terms[i])
  }

  /** The heap slot of a memtable document. */
  ghost function MemSlot(ctid: ItemPointer, score: real): RawEntry {
    RawEntry(ctid, INVALID_BLOCK_NUMBER, 0, score)
  }

  /** The dominated check and the add. */
  method OfferMemtable(heap: TopKHeap, ctid: ItemPointer, score: real)
    requires heap.Valid() && IsValid(ctid)
    modifies heap.Repr
    ensures heap.Valid()
    ensures IsTopK(heap.Scores(), old(heap.Scores()) + multiset{score}, heap.capacity)
    ensures heap.Held() <= old(heap.Held()) + multiset{MemSlot(ctid, score)}
  {
    heap.SizeIsCard();
    var dominated := heap.Dominated(score);
    if !dominated {
      heap.AddMemtable(ctid, score);
    } else {
      TopKAll(heap.Scores(), heap.capacity);
      TopKIgnoreBeaten(heap.Scores(), heap.Scores(), multiset{score}, heap.capacity);
    }
  }

  /** One more offer on top of what was collected. */
  method CollectMemtable(heap: TopKHeap, ctid: ItemPointer, score: real,
                         ghost prior: multiset<real>, ghost start: multiset<RawEntry>,
                         ghost scores: multiset<real>, ghost slots: multiset<RawEntry>)
    requires Collected(heap, prior, start, scores, slots) && IsValid(ctid)
    modifies heap.Repr
    ensures Collected(heap, prior, start, scores + multiset{score}, slots + multiset{MemSlot(ctid, score)})
  {
    hide IsTopK;
    ghost var before, held := heap.Scores(), heap.Held();
    OfferMemtable(heap, ctid, score);
    CollectedMore(heap, before, held, prior, start, scores, slots, multiset{score}, multiset{MemSlot(ctid, score)});
  }

  // ---------- one term ----------

  /** What the first n postings of one term contribute. */
  ghost function TermScores(t: MemTerm, n: nat, tenantId: nat): multiset<real>
    requires n <= |t.postings|
  {
    if n == 0 then multiset{}
    else
      var p := t.postings[n - 1];
      TermScores(t, n - 1, tenantId) + if MemPasses(t, p, tenantId) then multiset{MemWeight(t, p)} else multiset{}
  }

  ghost function TermSlots(t: MemTerm, n: nat, tenantId: nat): multiset<RawEntry>
    requires n <= |t.postings|
  {
    if n == 0 then multiset{}
    else
      var p := t.postings[n - 1];
      TermSlots(t, n - 1, tenantId)
      + if MemPasses(t, p, tenantId) then multiset{MemSlot(p.ctid, MemWeight(t, p))} else multiset{}
  }

  /** The next posting: passed over for its tenant, or offered. */
  method ScorePosting(heap: TopKHeap, t: MemTerm, i: nat, tenantId: nat,
                      ghost prior: multiset<real>, ghost start: multiset<RawEntry>)
    requires i < |t.postings| && ValidMemTerm(t)
    requires Collected(heap, prior, start, TermScores(t, i, tenantId), TermSlots(t, i, tenantId))
    modifies heap.Repr
    ensures Collected(heap, prior, start, TermScores(t, i + 1, tenantId), TermSlots(t, i + 1, tenantId))
  {
    hide Collected;
    var p := t.postings[i];
    ghost var scores, slots := TermScores(t, i, tenantId), TermSlots(t, i, tenantId);
    if tenantId != 0 && t.hasTenantIds && p.tenantId != tenantId {
      assert scores + multiset{} == scores && slots + multiset{} == slots;
      return;
    }
    var docLength := p.docLength;
    if docLength <= 0 { docLength := 1; }
    var score := t.weigh(p.frequency, docLength);
    CollectMemtable(heap, p.ctid, score, prior, start, scores, slots);
  }

  /** score_memtable_single_term: every posting of the tenant is offered. */
  method ScoreMemtableSingleTerm(heap: TopKHeap, t: MemTerm, tenantId: nat)
    requires heap.Valid() && ValidMemTerm(t)
    modifies heap.Repr
    ensures Collected(heap, old(heap.Scores()), old(heap.Held()),
                      TermScores(t, |t.postings|, tenantId), TermSlots(t, |t.postings|, tenantId))
  {
    ghost var prior, start := heap.Scores(), heap.Held();
    CollectedNothing(heap);
    hide *;
    var i := 0;
    while i < |t.postings|
      invariant 0 <= i <= |t.postings|
      invariant Collected(heap, prior, start, TermScores(t, i, tenantId), TermSlots(t, i, tenantId))
    {
      ScorePosting(heap, t, i, tenantId, prior, start);
      i := i + 1;
    }
  }

  // ---------- several terms ----------

  ghost function PostingScoreOf(t: MemTerm, tenantId: nat, c: ItemPointer): MemPosting -> real {
    (p: MemPosting) => if p.ctid == c && MemPasses(t, p, tenantId) then Scale(MemWeight(t, p), t.queryFreq) else 0.0
  }

  ghost function TermScoreOf(tenantId: nat, c: ItemPointer): MemTerm -> real {
    (t: MemTerm) => Sum(t.postings, PostingScoreOf(t, tenantId, c))
  }

  /** The full score of a memtable document: the sum over the query's terms. */
  ghost function DocScore(terms: seq<MemTerm>, tenantId: nat, c: ItemPointer): real {
    Sum(terms, TermScoreOf(tenantId, c))
  }

  ghost function DocScoreOf(terms: seq<MemTerm>, tenantId: nat): ItemPointer -> real {
    (c: ItemPointer) => DocScore(terms, tenantId, c)
  }

  ghost function DocsOf(t: MemTerm, postings: seq<MemPosting>, tenantId: nat): set<ItemPointer> {
    set p | p in postings && MemPasses(t, p, tenantId) :: p.ctid
  }

  /** The memtable documents of the tenant that contain a query term. */
  ghost function MemDocs(terms: seq<MemTerm>, tenantId: nat): set<ItemPointer> {
    if terms == [] then {}
    else MemDocs(terms[..|terms| - 1], tenantId)
         + DocsOf(terms[|terms| - 1], terms[|terms| - 1].postings, tenantId)
  }

  /** The scores of a set of documents, one per document. */
  ghost function ScoreBag(score: ItemPointer -> real, docs: set<ItemPointer>): multiset<real> {
    if docs == {} then multiset{}
    else
      var c :| c in docs;
      ScoreBag(score, docs - {c}) + multiset{score(c)}
  }

  lemma {:induction false} ScoreBagRemove(score: ItemPointer -> real, docs: set<ItemPointer>, c: ItemPointer)
    requires c in docs
    ensures ScoreBag(score, docs) == ScoreBag(score, docs - {c}) + multiset{score(c)}
  {
    var d :| d in docs && ScoreBag(score, docs) == ScoreBag(score, docs - {d}) + multiset{score(d)};
    if c != d {
      ScoreBagRemove(score, docs - {d}, c);
      ScoreBagRemove(score, docs - {c}, d);
      assert docs - {d} - {c} == docs - {c} - {d};
    }
  }

  ghost function MemtableScores(terms: seq<MemTerm>, tenantId: nat): multiset<real> {
    ScoreBag(DocScoreOf(terms, tenantId), MemDocs(terms, tenantId))
  }

  ghost function SlotsFor(score: ItemPointer -> real, docs: set<ItemPointer>): set<RawEntry> {
    set c | c in docs :: MemSlot(c, score(c))
  }

  ghost function MemtableSlots(terms: seq<MemTerm>, tenantId: nat): multiset<RawEntry> {
    multiset(SlotsFor(DocScoreOf(terms, tenantId), MemDocs(terms, tenantId)))
  }

  function Get(acc: map<ItemPointer, real>, c: ItemPointer): real {
    if c in acc then acc[c] else 0.0
  }

  /** The accumulator after the terms `done` and the postings `part` of term t. */
  ghost predicate Accumulated(acc: map<ItemPointer, real>, done: seq<MemTerm>, t: MemTerm, part: seq<MemPosting>,
                              tenantId: nat) {
    && acc.Keys == MemDocs(done, tenantId) + DocsOf(t, part, tenantId)
    && forall c :: Get(acc, c) == DocScore(done, tenantId, c) + Sum(part, PostingScoreOf(t, tenantId, c))
  }

  lemma SumSnoc<T>(xs: seq<T>, x: T, g: T -> real)
    ensures Sum(xs + [x], g) == Sum(xs, g) + g(x)
  {
    SumSplit(xs + [x], |xs|, g);
    assert (xs + [x])[..|xs|] == xs && (xs + [x])[|xs| + 1..] == [];
  }

  lemma AccumulateOne(acc: map<ItemPointer, real>, acc': map<ItemPointer, real>, done: seq<MemTerm>, t: MemTerm,
                      part: seq<MemPosting>, p: MemPosting, tenantId: nat)
    requires Accumulated(acc, done, t, part, tenantId)
    requires acc' == if MemPasses(t, p, tenantId)
                     then acc[p.ctid := Get(acc, p.ctid) + Scale(MemWeight(t, p), t.queryFreq)] else acc
    ensures Accumulated(acc', done, t, part + [p], tenantId)
  {
    assert DocsOf(t, part + [p], tenantId) ==
           DocsOf(t, part, tenantId) + if MemPasses(t, p, tenantId) then {p.ctid} else {};
    forall c
      ensures Get(acc', c) == DocScore(done, tenantId, c) + Sum(part + [p], PostingScoreOf(t, tenantId, c))
    {
      hide Sum, DocScore;
      SumSnoc(part, p, PostingScoreOf(t, tenantId, c));
    }
  }

  lemma NextTerm(acc: map<ItemPointer, real>, done: seq<MemTerm>, t: MemTerm, t': MemTerm, tenantId: nat)
    requires Accumulated(acc, done, t, t.postings, tenantId)
    ensures Accumulated(acc, done + [t], t', [], tenantId)
  {
    assert (done + [t])[..|done|] == done;
    forall c
      ensures DocScore(done + [t], tenantId, c) ==
              DocScore(done, tenantId, c) + Sum(t.postings, PostingScoreOf(t, tenantId, c))
    {
      SumSnoc(done, t, TermScoreOf(tenantId, c));
    }
    hide DocScore;
  }

  /** Add up one term's postings per document. */
  method AccumulateTerm(acc0: map<ItemPointer, real>, t: MemTerm, tenantId: nat, ghost done: seq<MemTerm>)
    returns (acc: map<ItemPointer, real>)
    requires Accumulated(acc0, done, t, [], tenantId)
    ensures Accumulated(acc, done, t, t.postings, tenantId)
  {
    hide Accumulated;
    acc := acc0;
    var i := 0;
    while i < |t.postings|
      invariant 0 <= i <= |t.postings|
      invariant Accumulated(acc, done, t, t.postings[..i], tenantId)
    {
      var p := t.postings[i];
      ghost var before := acc;
      assert t.postings[..i + 1] == t.postings[..i] + [p];
      if !(tenantId != 0 && t.hasTenantIds && p.tenantId != tenantId) {
        var docLength := p.docLength;
        if docLength <= 0 { docLength := 1; }
        var termScore := Scale(t.weigh(p.frequency, docLength), t.queryFreq);
        if p.ctid !in acc {
          acc := acc[p.ctid := termScore];
        } else {
          acc := acc[p.ctid := acc[p.ctid] + termScore];
        }
      }
      AccumulateOne(before, acc, done, t, t.postings[..i], p, tenantId);
      i := i + 1;
    }
    assert t.postings[..|t.postings|] == t.postings;
  }

  /** The document accumulator of score_memtable_multi_term. */
  method Accumulate(terms: seq<MemTerm>, tenantId: nat) returns (acc: map<ItemPointer, real>)
    ensures acc.Keys == MemDocs(terms, tenantId)
    ensures forall c :: c in acc ==> acc[c] == DocScore(terms, tenantId, c)
  {
    acc := map[];
    ghost var noTerm := MemTerm([], false, (f, l) => 0.0, 0);
    assert Accumulated(acc, [], noTerm, [], tenantId);
    assert terms[..0] == [];
    var i := 0;
    while i < |terms|
      invariant 0 <= i <= |terms| && Accumulated(acc, terms[..i], noTerm, [], tenantId)
    {
      acc := AccumulateTerm(acc, terms[i], tenantId, terms[..i]);
      NextTerm(acc, terms[..i], terms[i], noTerm, tenantId);
      assert terms[..i + 1] == terms[..i] + [terms[i]];
      i := i + 1;
    }
    assert terms[..|terms|] == terms;
    assert forall c :: c in acc ==> Get(acc, c) == acc[c];
  }

  lemma {:induction false} SumNonNegative<T>(xs: seq<T>, g: T -> real)
    requires forall i :: 0 <= i < |xs| ==> 0.0 <= g(xs[i])
    ensures 0.0 <= Sum(xs, g)
  {
    if xs != [] {
      SumNonNegative(xs[1..], g);
    }
  }

  lemma ScaleNonNegative(w: real, n: nat)
    requires 0.0 <= w
    ensures 0.0 <= Scale(w, n)
  {
  }

  lemma DocScoreNonNegative(terms: seq<MemTerm>, tenantId: nat, c: ItemPointer)
    requires ValidMemTerms(terms)
    ensures 0.0 <= DocScore(terms, tenantId, c)
  {
    forall i | 0 <= i < |terms|
      ensures 0.0 <= TermScoreOf(tenantId, c)(terms[i])
    {
      var t := terms[i];
      forall j | 0 <= j < |t.postings|
        ensures 0.0 <= PostingScoreOf(t, tenantId, c)(t.postings[j])
      {
        ScaleNonNegative(MemWeight(t, t.postings[j]), t.queryFreq);
      }
      SumNonNegative(t.postings, PostingScoreOf(t, tenantId, c));
    }
    SumNonNegative(terms, TermScoreOf(tenantId, c));
  }

  lemma {:induction false} DocsAreValid(terms: seq<MemTerm>, tenantId: nat)
    requires ValidMemTerms(terms)
    ensures forall c :: c in MemDocs(terms, tenantId) ==> IsValid(c)
  {
    if terms != [] {
      DocsAreValid(terms[..|terms| - 1], tenantId);
    }
  }

  lemma SlotsAdd(score: ItemPointer -> real, docs: set<ItemPointer>, c: ItemPointer)
    requires c !in docs
    ensures multiset(SlotsFor(score, docs + {c})) == multiset(SlotsFor(score, docs)) + multiset{MemSlot(c, score(c))}
  {
    var e := MemSlot(c, score(c));
    assert SlotsFor(score, docs + {c}) == SlotsFor(score, docs) + {e};
    assert e !in SlotsFor(score, docs);
  }

  lemma BagOneMore(score: ItemPointer -> real, docs: set<ItemPointer>, c: ItemPointer)
    requires c !in docs
    ensures ScoreBag(score, docs + {c}) == ScoreBag(score, docs) + multiset{score(c)}
  {
    ScoreBagRemove(score, docs + {c}, c);
    assert docs + {c} - {c} == docs;
  }

  /** Offer one accumulated document. */
  method OfferDocument(heap: TopKHeap, c: ItemPointer, s: real, ghost score: ItemPointer -> real,
                       ghost done: set<ItemPointer>, ghost prior: multiset<real>, ghost start: multiset<RawEntry>)
    requires IsValid(c) && s == score(c) && c !in done
    requires Collected(heap, prior, start, ScoreBag(score, done), multiset(SlotsFor(score, done)))
    modifies heap.Repr
    ensures Collected(heap, prior, start, ScoreBag(score, done + {c}), multiset(SlotsFor(score, done + {c})))
  {
    hide *;
    CollectMemtable(heap, c, s, prior, start, ScoreBag(score, done), multiset(SlotsFor(score, done)));
    BagOneMore(score, done, c);
    SlotsAdd(score, done, c);
  }

  ghost predicate Parted(all: set<ItemPointer>, left: set<ItemPointer>, done: set<ItemPointer>) {
    left !! done && left + done == all
  }

  lemma PartStarts(all: set<ItemPointer>)
    ensures Parted(all, all, {})
  {
  }

  lemma PartMoves(all: set<ItemPointer>, left: set<ItemPointer>, done: set<ItemPointer>, c: ItemPointer)
    requires Parted(all, left, done) && c in left
    ensures c in all && c !in done && Parted(all, left - {c}, done + {c})
  {
  }

  lemma PartEnds(all: set<ItemPointer>, done: set<ItemPointer>)
    requires Parted(all, {}, done)
    ensures done == all
  {
  }

  /** Walk the accumulator in its own order and offer every document. */
  method OfferAll(heap: TopKHeap, acc: map<ItemPointer, real>, ghost score: ItemPointer -> real)
    requires heap.Valid()
    requires forall c :: c in acc.Keys ==> IsValid(c) && acc[c] == score(c)
    modifies heap.Repr
    ensures Collected(heap, old(heap.Scores()), old(heap.Held()),
                      ScoreBag(score, acc.Keys), multiset(SlotsFor(score, acc.Keys)))
  {
    ghost var prior, start := heap.Scores(), heap.Held();
    CollectedNothing(heap);
    NothingBagged(score);
    PartStarts(acc.Keys);
    hide *;
    var left := acc.Keys;
    ghost var done: set<ItemPointer> := {};
    while left != {}
      invariant Parted(acc.Keys, left, done)
      invariant Collected(heap, prior, start, ScoreBag(score, done), multiset(SlotsFor(score, done)))
      decreases left
    {
      var c :| c in left;
      PartMoves(acc.Keys, left, done, c);
      OfferDocument(heap, c, acc[c], score, done, prior, start);
      left, done := left - {c}, done + {c};
    }
    PartEnds(acc.Keys, done);
  }

  lemma NothingBagged(score: ItemPointer -> real)
    ensures ScoreBag(score, {}) == multiset{} && multiset(SlotsFor(score, {})) == multiset{}
  {
  }

  /**
   * score_memtable_multi_term: each memtable document of the tenant that contains a query
   * term is offered once, with its full score.
   */
  method ScoreMemtableMultiTerm(heap: TopKHeap, terms: seq<MemTerm>, tenantId: nat)
    requires heap.Valid() && ValidMemTerms(terms)
    modifies heap.Repr
    ensures Collected(heap, old(heap.Scores()), old(heap.Held()),
                      MemtableScores(terms, tenantId), MemtableSlots(terms, tenantId))
  {
    hide IsTopK, DocScore;
    var acc := Accumulate(terms, tenantId);
    DocsAreValid(terms, tenantId);
    OfferAll(heap, acc, DocScoreOf(terms, tenantId));
  }

  lemma {:induction false} BagIsNonNegative(score: ItemPointer -> real, docs: set<ItemPointer>)
    requires forall c :: c in docs ==> 0.0 <= score(c)
    ensures forall x :: x in ScoreBag(score, docs) ==> 0.0 <= x
  {
    if docs != {} {
      var c :| c in docs && ScoreBag(score, docs) == ScoreBag(score, docs - {c}) + multiset{score(c)};
      BagIsNonNegative(score, docs - {c});
    }
  }

  lemma MemtableScoresNonNegative(terms: seq<MemTerm>, tenantId: nat)
    requires ValidMemTerms(terms)
    ensures forall x :: x in MemtableScores(terms, tenantId) ==> 0.0 <= x
  {
    forall c | c in MemDocs(terms, tenantId)
      ensures 0.0 <= DocScoreOf(terms, tenantId)(c)
    {
      DocScoreNonNegative(terms, tenantId, c);
    }
    BagIsNonNegative(DocScoreOf(terms, tenantId), MemDocs(terms, tenantId));
  }

  // ---------- whose postings count, and how much ----------

  /** A single-term search takes exactly the tenant's postings; a missing document length counts as 1. */
  lemma {:induction false} TermSlotsAreTenants(t: MemTerm, n: nat, tenantId: nat, e: RawEntry)
    requires n <= |t.postings|
    ensures e in TermSlots(t, n, tenantId) <==>
            exists j :: 0 <= j < n && (tenantId == 0 || !t.hasTenantIds || t.postings[j].tenantId == tenantId)
                        && e == RawEntry(t.postings[j].ctid, INVALID_BLOCK_NUMBER, 0,
                                         t.weigh(t.postings[j].frequency,
                                             if 1 <= t.postings[j].docLength then t.postings[j].docLength else 1))
  {
    if n > 0 { TermSlotsAreTenants(t, n - 1, tenantId, e); }
  }

  lemma {:induction false} TermScoresAreTenants(t: MemTerm, n: nat, tenantId: nat, x: real)
    requires n <= |t.postings|
    ensures x in TermScores(t, n, tenantId) <==>
            exists j :: 0 <= j < n && (tenantId == 0 || !t.hasTenantIds || t.postings[j].tenantId == tenantId)
                        && x == t.weigh(t.postings[j].frequency,
                            if 1 <= t.postings[j].docLength then t.postings[j].docLength else 1)
  {
    if n > 0 { TermScoresAreTenants(t, n - 1, tenantId, x); }
  }

  lemma {:induction false} TermScoresOfSlots(t: MemTerm, n: nat, tenantId: nat)
    requires n <= |t.postings|
    ensures |TermScores(t, n, tenantId)| == |TermSlots(t, n, tenantId)| <= n
    ensures tenantId == 0 || !t.hasTenantIds ==> |TermScores(t, n, tenantId)| == n
  {
    if n > 0 {
      TermScoresOfSlots(t, n - 1, tenantId);
      var p := t.postings[n - 1];
      OneLarger(TermScores(t, n - 1, tenantId), MemWeight(t, p));
      OneLarger(TermSlots(t, n - 1, tenantId), MemSlot(p.ctid, MemWeight(t, p)));
      hide MemWeight, MemSlot;
    }
  }

  lemma OneLarger<T>(m: multiset<T>, x: T)
    ensures |m + multiset{x}| == |m| + 1 && |m + multiset{}| == |m|
  {
  }

  /** A memtable document of the tenant is a row of some posting of a query term with that tenant. */
  lemma {:induction false} MemDocsAreTenants(terms: seq<MemTerm>, tenantId: nat, c: ItemPointer)
    ensures c in MemDocs(terms, tenantId) <==>
            exists i, j :: 0 <= i < |terms| && 0 <= j < |terms[i].postings| && terms[i].postings[j].ctid == c
                           && (tenantId == 0 || !terms[i].hasTenantIds || terms[i].postings[j].tenantId == tenantId)
  {
    if terms != [] {
      var n := |terms| - 1;
      MemDocsAreTenants(terms[..n], tenantId, c);
      if c in DocsOf(terms[n], terms[n].postings, tenantId) {
        var p :| p in terms[n].postings && MemPasses(terms[n], p, tenantId) && p.ctid == c;
        var j :| 0 <= j < |terms[n].postings| && terms[n].postings[j] == p;
      }
    }
  }

  /** The candidates of a search for several terms: those documents, each with its full score. */
  lemma MemtableSlotsAreTenants(terms: seq<MemTerm>, tenantId: nat, e: RawEntry)
    ensures e in MemtableSlots(terms, tenantId) <==>
            && e == RawEntry(e.ctid, INVALID_BLOCK_NUMBER, 0, DocScore(terms, tenantId, e.ctid))
            && exists i, j :: 0 <= i < |terms| && 0 <= j < |terms[i].postings| && terms[i].postings[j].ctid == e.ctid
                              && (tenantId == 0 || !terms[i].hasTenantIds || terms[i].postings[j].tenantId == tenantId)
  {
    hide DocScore, MemDocs;
    MemDocsAreTenants(terms, tenantId, e.ctid);
  }

  /** A term without the postings of other tenants. */
  ghost function TenantsPostings(t: MemTerm, ps: seq<MemPosting>, tenantId: nat): seq<MemPosting> {
    if ps == [] then []
    else (if tenantId == 0 || !t.hasTenantIds || ps[0].tenantId == tenantId then [ps[0]] else [])
         + TenantsPostings(t, ps[1..], tenantId)
  }

  ghost function TenantsOnly(tenantId: nat): MemTerm -> MemTerm {
    (t: MemTerm) => MemTerm(TenantsPostings(t, t.postings, tenantId), false, t.weigh, t.queryFreq)
  }

  lemma {:induction false} PostingsOfOthersCountNothing(t: MemTerm, ps: seq<MemPosting>, tenantId: nat, c: ItemPointer)
    ensures Sum(ps, PostingScoreOf(t, tenantId, c)) ==
            Sum(TenantsPostings(t, ps, tenantId), PostingScoreOf(TenantsOnly(tenantId)(t), 0, c))
  {
    if ps != [] {
      var g := PostingScoreOf(TenantsOnly(tenantId)(t), 0, c);
      PostingsOfOthersCountNothing(t, ps[1..], tenantId, c);
      var first := if tenantId == 0 || !t.hasTenantIds || ps[0].tenantId == tenantId then [ps[0]] else [];
      SumConcat(first, TenantsPostings(t, ps[1..], tenantId), g);
      SumOfOne(ps[0], g);
    }
  }

  /** A tenant's search scores a document as a search for all tenants would over the tenant's postings alone. */
  lemma {:induction false} TenantsScore(terms: seq<MemTerm>, tenantId: nat, c: ItemPointer)
    ensures DocScore(terms, tenantId, c) == DocScore(Map(terms, TenantsOnly(tenantId)), 0, c)
  {
    if terms != [] {
      PostingsOfOthersCountNothing(terms[0], terms[0].postings, tenantId, c);
      TenantsScore(terms[1..], tenantId, c);
      assert Map(terms, TenantsOnly(tenantId))[1..] == Map(terms[1..], TenantsOnly(tenantId));
    }
  }

  /** A document with one posting: its score as often as the query repeats the term. */
  lemma OnePostingScore(t: MemTerm, p: MemPosting)
    requires t.postings == [p]
    ensures DocScore([t], 0, p.ctid) ==
            t.weigh(p.frequency, if 1 <= p.docLength then p.docLength else 1) * t.queryFreq as real
  {
    SumOfOne(t, TermScoreOf(0, p.ctid));
    SumOfOne(p, PostingScoreOf(t, 0, p.ctid));
  }

  /** Scores add up over terms, and over the postings of a term. */
  lemma ScoresAddUp(ss: seq<MemTerm>, ts: seq<MemTerm>, t: MemTerm, ps: seq<MemPosting>, qs: seq<MemPosting>,
                    tenantId: nat, c: ItemPointer)
    ensures DocScore(ss + ts, tenantId, c) == DocScore(ss, tenantId, c) + DocScore(ts, tenantId, c)
    ensures DocScore([t.(postings := ps + qs)], tenantId, c) ==
            DocScore([t.(postings := ps)], tenantId, c) + DocScore([t.(postings := qs)], tenantId, c)
  {
    SumConcat(ss, ts, TermScoreOf(tenantId, c));
    var both, first, second := t.(postings := ps + qs), t.(postings := ps), t.(postings := qs);
    hide Sum;
    SumOfOne(both, TermScoreOf(tenantId, c));
    SumOfOne(first, TermScoreOf(tenantId, c));
    SumOfOne(second, TermScoreOf(tenantId, c));
    SumConcat(ps, qs, PostingScoreOf(both, tenantId, c));
    SumAgrees(ps, PostingScoreOf(both, tenantId, c), PostingScoreOf(first, tenantId, c));
    SumAgrees(qs, PostingScoreOf(both, tenantId, c), PostingScoreOf(second, tenantId, c));
  }

  lemma {:induction false} SumAgrees<T>(xs: seq<T>, g: T -> real, h: T -> real)
    requires forall x :: x in xs ==> g(x) == h(x)
    ensures Sum(xs, g) == Sum(xs, h)
  {
    if xs != [] { SumAgrees(xs[1..], g, h); }
  }

  /** The query with every repetition of a term written out. */
  ghost function MemWrittenOut(terms: seq<MemTerm>): seq<MemTerm> {
    if terms == [] then [] else MemCopies(terms[0], terms[0].queryFreq) + MemWrittenOut(terms[1..])
  }

  ghost function MemCopies(t: MemTerm, n: nat): seq<MemTerm> {
    if n == 0 then [] else [t.(queryFreq := 1)] + MemCopies(t, n - 1)
  }

  lemma {:induction false} OneMoreMemCopy(t: MemTerm, ps: seq<MemPosting>, n: nat, tenantId: nat, c: ItemPointer)
    requires 0 < n
    ensures Sum(ps, PostingScoreOf(t.(queryFreq := n), tenantId, c)) ==
            Sum(ps, PostingScoreOf(t.(queryFreq := 1), tenantId, c)) +
            Sum(ps, PostingScoreOf(t.(queryFreq := n - 1), tenantId, c))
  {
    if ps != [] {
      OneMoreMemCopy(t, ps[1..], n, tenantId, c);
      OneMoreTime(MemWeight(t, ps[0]), n);
    }
  }

  lemma {:induction false} NeverAskedFor(t: MemTerm, ps: seq<MemPosting>, tenantId: nat, c: ItemPointer)
    ensures Sum(ps, PostingScoreOf(t.(queryFreq := 0), tenantId, c)) == 0.0
  {
    if ps != [] { NeverAskedFor(t, ps[1..], tenantId, c); }
  }

  lemma {:induction false} MemCopiesScore(t: MemTerm, n: nat, tenantId: nat, c: ItemPointer)
    ensures DocScore(MemCopies(t, n), tenantId, c) == TermScoreOf(tenantId, c)(t.(queryFreq := n))
  {
    if n == 0 {
      NeverAskedFor(t, t.postings, tenantId, c);
    } else {
      MemCopiesScore(t, n - 1, tenantId, c);
      OneMoreMemCopy(t, t.postings, n, tenantId, c);
      hide Sum;
      SumConcat([t.(queryFreq := 1)], MemCopies(t, n - 1), TermScoreOf(tenantId, c));
      SumOfOne(t.(queryFreq := 1), TermScoreOf(tenantId, c));
    }
  }

  /** In the memtable, too, a term that the query repeats n times counts as n terms that it names once. */
  lemma {:induction false} MemRepetitionScore(terms: seq<MemTerm>, tenantId: nat, c: ItemPointer)
    ensures DocScore(terms, tenantId, c) == DocScore(MemWrittenOut(terms), tenantId, c)
  {
    if terms != [] {
      MemRepetitionScore(terms[1..], tenantId, c);
      MemCopiesScore(terms[0], terms[0].queryFreq, tenantId, c);
      assert terms[0].(queryFreq := terms[0].queryFreq) == terms[0];
      SumConcat(MemCopies(terms[0], terms[0].queryFreq), MemWrittenOut(terms[1..]), TermScoreOf(tenantId, c));
    }
  }
}
