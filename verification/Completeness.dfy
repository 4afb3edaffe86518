/**
 * That a search misses nothing: a candidate that is not among the hits scores no better than any
 * of them. The scores a search selects from are those of its candidates, one for each.
 */
module Completeness {
  import opened Extraction
  import opened ItemPointers
  import opened MemtableScoring
  import opened Postings
  import opened Search
  import opened SearchSingle
  import opened SingleTerm
  import opened Sums
  import opened TopK
  import opened TopKSpec
  import opened WandSearch
  import opened WandSegment
  import opened WandSpec

  ghost function ScoreOf(): RawEntry -> real {
    (e: RawEntry) => e.score
  }

  /** `scores` are the scores of the slots, each as often as it occurs. */
  ghost predicate ScoresOfSlots(slots: multiset<RawEntry>, scores: multiset<real>) {
    exists all: seq<RawEntry> :: multiset(all) == slots && multiset(Map(all, ScoreOf())) == scores
  }

  lemma ScoresOfNone()
    ensures ScoresOfSlots(multiset{}, multiset{})
  {
    var all: seq<RawEntry> := [];
    assert multiset(all) == multiset{} && multiset(Map(all, ScoreOf())) == multiset{};
  }

  lemma ScoresOfOne(e: RawEntry)
    ensures ScoresOfSlots(multiset{e}, multiset{e.score})
  {
    assert Map([e], ScoreOf()) == [e.score];
    assert multiset([e]) == multiset{e} && multiset(Map([e], ScoreOf())) == multiset{e.score};
  }

  lemma ScoresOfBoth(a: multiset<RawEntry>, x: multiset<real>, b: multiset<RawEntry>, y: multiset<real>)
    requires ScoresOfSlots(a, x) && ScoresOfSlots(b, y)
    ensures ScoresOfSlots(a + b, x + y)
  {
    hide Map, ScoreOf;
    var p: seq<RawEntry> :| multiset(p) == a && multiset(Map(p, ScoreOf())) == x;
    var q: seq<RawEntry> :| multiset(q) == b && multiset(Map(q, ScoreOf())) == y;
    MapConcat(p, q, ScoreOf());
    assert multiset(p + q) == a + b && multiset(Map(p + q, ScoreOf())) == x + y;
  }

  lemma {:induction false} ScoresOfUnion<A>(xs: seq<A>, e: A -> multiset<RawEntry>, f: A -> multiset<real>)
    requires forall i :: 0 <= i < |xs| ==> ScoresOfSlots(e(xs[i]), f(xs[i]))
    ensures ScoresOfSlots(UnionOver(xs, e), UnionOver(xs, f))
  {
    hide ScoresOfSlots;
    if xs == [] {
      ScoresOfNone();
    } else {
      var n := |xs| - 1;
      ScoresOfUnion(xs[..n], e, f);
      ScoresOfBoth(UnionOver(xs[..n], e), UnionOver(xs[..n], f), e(xs[n]), f(xs[n]));
    }
  }

  // ---------- the memtable ----------

  lemma {:induction false} ScoresOfDocs(score: ItemPointer -> real, docs: set<ItemPointer>)
    ensures ScoresOfSlots(multiset(SlotsFor(score, docs)), ScoreBag(score, docs))
  {
    hide ScoresOfSlots;
    if docs == {} {
      ScoresOfNone();
      NothingBagged(score);
    } else {
      var c :| c in docs;
      var e := MemSlot(c, score(c));
      ScoresOfDocs(score, docs - {c});
      ScoresOfOne(e);
      ScoresOfBoth(multiset(SlotsFor(score, docs - {c})), ScoreBag(score, docs - {c}), multiset{e}, multiset{e.score});
      ScoreBagRemove(score, docs, c);
      SlotsAdd(score, docs - {c}, c);
      assert docs - {c} + {c} == docs;
    }
  }

  lemma {:induction false} ScoresOfTerm(t: MemTerm, n: nat, tenantId: nat)
    requires n <= |t.postings|
    ensures ScoresOfSlots(TermSlots(t, n, tenantId), TermScores(t, n, tenantId))
  {
    hide ScoresOfSlots, MemWeight, MemPasses;
    ScoresOfNone();
    if n > 0 {
      var p := t.postings[n - 1];
      var e := MemSlot(p.ctid, MemWeight(t, p));
      ScoresOfTerm(t, n - 1, tenantId);
      ScoresOfOne(e);
      var slots, scores := TermSlots(t, n - 1, tenantId), TermScores(t, n - 1, tenantId);
      if MemPasses(t, p, tenantId) {
        ScoresOfBoth(slots, scores, multiset{e}, multiset{e.score});
      } else {
        assert slots + multiset{} == slots && scores + multiset{} == scores;
      }
    }
  }

  // ---------- segments ----------

  ghost function DocsBelow(docs: set<nat>, n: nat): set<nat> {
    set d | d in docs && d < n
  }

  lemma CandidatesAdd(q: seq<TermList>, rootBlock: nat, docs: set<nat>, n: nat)
    requires rootBlock < INVALID_BLOCK_NUMBER && n in docs
    ensures multiset(Candidates(q, rootBlock, DocsBelow(docs, n + 1))) ==
            multiset(Candidates(q, rootBlock, DocsBelow(docs, n))) + multiset{SlotFor(rootBlock, n, FullScore(q, n))}
  {
    hide FullScore;
    var e := SlotFor(rootBlock, n, FullScore(q, n));
    assert DocsBelow(docs, n + 1) == DocsBelow(docs, n) + {n};
    assert Candidates(q, rootBlock, DocsBelow(docs, n + 1)) == Candidates(q, rootBlock, DocsBelow(docs, n)) + {e};
    assert e !in Candidates(q, rootBlock, DocsBelow(docs, n));
  }

  lemma {:induction false} ScoresOfCandidates(q: seq<TermList>, rootBlock: nat, docs: set<nat>, n: nat)
    requires rootBlock < INVALID_BLOCK_NUMBER
    ensures ScoresOfSlots(multiset(Candidates(q, rootBlock, DocsBelow(docs, n))), Bag(q, docs, n))
  {
    hide ScoresOfSlots, FullScore;
    if n == 0 {
      ScoresOfNone();
      var none: multiset<RawEntry> := multiset(Candidates(q, rootBlock, DocsBelow(docs, 0)));
      assert none == multiset{};
    } else {
      ScoresOfCandidates(q, rootBlock, docs, n - 1);
      if n - 1 in docs {
        var e := SlotFor(rootBlock, n - 1, FullScore(q, n - 1));
        CandidatesAdd(q, rootBlock, docs, n - 1);
        ScoresOfOne(e);
        ScoresOfBoth(multiset(Candidates(q, rootBlock, DocsBelow(docs, n - 1))), Bag(q, docs, n - 1), multiset{e},
            multiset{e.score});
      } else {
        assert DocsBelow(docs, n) == DocsBelow(docs, n - 1);
        assert Bag(q, docs, n - 1) + multiset{} == Bag(q, docs, n - 1);
      }
    }
  }

  lemma ScoresOfSegment(g: MultiSegment, tenantId: nat)
    requires g.rootBlock < INVALID_BLOCK_NUMBER
    ensures ScoresOfSlots(SegmentSlots(tenantId)(g), SegmentScores(tenantId)(g))
  {
    hide ScoresOfSlots, FullScore, Bag, HasAny, Matches;
    var docs := SegmentDocs(g, tenantId);
    assert DocsBelow(docs, UINT32_MAX) == docs;
    ScoresOfCandidates(InputLists(g.view), g.rootBlock, docs, UINT32_MAX);
  }

  lemma {:induction false} ScoresOfBlock(ps: seq<BlockPosting>, weigh: (nat, nat) -> real, f: Filter, rootBlock: nat)
    requires rootBlock < INVALID_BLOCK_NUMBER
    ensures ScoresOfSlots(BlockSlots(ps, weigh, f, rootBlock), BlockScores(ps, weigh, f))
  {
    hide ScoresOfSlots, Passes;
    ScoresOfNone();
    if ps != [] {
      var m, p := |ps| - 1, ps[|ps| - 1];
      var e := SlotFor(rootBlock, p.docId, weigh(p.frequency, p.fieldnorm));
      ScoresOfBlock(ps[..m], weigh, f, rootBlock);
      ScoresOfOne(e);
      var slots: multiset<RawEntry>, scores := BlockSlots(ps[..m], weigh, f, rootBlock), BlockScores(ps[..m], weigh, f);
      if Passes(f, p.docId) {
        ScoresOfBoth(slots, scores, multiset{e}, multiset{e.score});
      } else {
        assert slots + multiset{} == slots && scores + multiset{} == scores;
      }
    }
  }

  lemma {:induction false} ScoresOfList(blocks: seq<seq<BlockPosting>>, weigh: (nat, nat) -> real, f: Filter,
                                        rootBlock: nat)
    requires rootBlock < INVALID_BLOCK_NUMBER
    ensures ScoresOfSlots(ListSlots(blocks, weigh, f, rootBlock), ListScores(blocks, weigh, f))
  {
    hide ScoresOfSlots, BlockSlots, BlockScores;
    if blocks == [] {
      ScoresOfNone();
    } else {
      var m := |blocks| - 1;
      ScoresOfList(blocks[..m], weigh, f, rootBlock);
      ScoresOfBlock(blocks[m], weigh, f, rootBlock);
      ScoresOfBoth(ListSlots(blocks[..m], weigh, f, rootBlock), ListScores(blocks[..m], weigh, f),
                   BlockSlots(blocks[m], weigh, f, rootBlock), BlockScores(blocks[m], weigh, f));
    }
  }

  lemma ScoresOfTermSegment(g: TermSegment, tenantId: nat)
    requires g.rootBlock < INVALID_BLOCK_NUMBER
    ensures ScoresOfSlots(TermSegmentSlots(tenantId)(g), TermSegmentScores(tenantId)(g))
  {
    hide ScoresOfSlots, ListSlots, ListScores;
    ScoresOfNone();
    ScoresOfList(g.view.blocks, g.view.weigh, WholeSegment(g, tenantId), g.rootBlock);
  }

  // ---------- whole searches ----------

  /** The scores of a search for several terms are those of its candidates. */
  lemma ScoresOfIndex(terms: seq<MemTerm>, levels: seq<seq<MultiSegment>>, tenantId: nat)
    requires ValidLevels(levels)
    ensures ScoresOfSlots(IndexSlots(terms, levels, tenantId), IndexScores(terms, levels, tenantId))
  {
    hide ScoresOfSlots, SegmentSlots, SegmentScores, DocScore, ValidInputs;
    ScoresOfDocs(DocScoreOf(terms, tenantId), MemDocs(terms, tenantId));
    forall l | 0 <= l < |levels|
      ensures ScoresOfSlots(ChainSlots(tenantId)(levels[l]), ChainScores(tenantId)(levels[l]))
    {
      forall i | 0 <= i < |levels[l]|
        ensures ScoresOfSlots(SegmentSlots(tenantId)(levels[l][i]), SegmentScores(tenantId)(levels[l][i]))
      {
        assert ValidChain(levels[l]) && ValidMulti(levels[l][i]);
        ScoresOfSegment(levels[l][i], tenantId);
      }
      ScoresOfUnion(levels[l], SegmentSlots(tenantId), SegmentScores(tenantId));
    }
    ScoresOfUnion(levels, ChainSlots(tenantId), ChainScores(tenantId));
    ScoresOfBoth(MemtableSlots(terms, tenantId), MemtableScores(terms, tenantId),
                 UnionOver(levels, ChainSlots(tenantId)), UnionOver(levels, ChainScores(tenantId)));
  }

  /** ... and so are those of a search for one term. */
  lemma ScoresOfTermIndex(t: MemTerm, levels: seq<seq<TermSegment>>, tenantId: nat)
    requires ValidTermLevels(levels)
    ensures ScoresOfSlots(AllTermSlots(t, levels, tenantId), AllTermScores(t, levels, tenantId))
  {
    hide ScoresOfSlots, TermSegmentSlots, TermSegmentScores, TermSlots, TermScores, ValidList, ScoresBounded;
    ScoresOfTerm(t, |t.postings|, tenantId);
    forall l | 0 <= l < |levels|
      ensures ScoresOfSlots(TermChainSlots(tenantId)(levels[l]), TermChainScores(tenantId)(levels[l]))
    {
      forall i | 0 <= i < |levels[l]|
        ensures ScoresOfSlots(TermSegmentSlots(tenantId)(levels[l][i]), TermSegmentScores(tenantId)(levels[l][i]))
      {
        assert ValidTermChain(levels[l]) && ValidTermSegment(levels[l][i]);
        ScoresOfTermSegment(levels[l][i], tenantId);
      }
      ScoresOfUnion(levels[l], TermSegmentSlots(tenantId), TermSegmentScores(tenantId));
    }
    ScoresOfUnion(levels, TermChainSlots(tenantId), TermChainScores(tenantId));
    ScoresOfBoth(TermSlots(t, |t.postings|, tenantId), TermScores(t, |t.postings|, tenantId),
                 UnionOver(levels, TermChainSlots(tenantId)), UnionOver(levels, TermChainScores(tenantId)));
  }

  // ---------- what is left out ----------

  /** The hit is returned, or there are k hits and none of them scores less. */
  ghost predicate ReturnedOrBeaten(h: Hit, hits: seq<Hit>, k: nat) {
    h in hits || (|hits| == k && forall g :: g in hits ==> h.score <= g.score)
  }

  lemma {:induction false} InSomeOrder(m: multiset<RawEntry>) returns (s: seq<RawEntry>)
    ensures multiset(s) == m
    decreases |m|
  {
    if m == multiset{} {
      s := [];
    } else {
      var x := Member(m);
      s := InSomeOrder(m - multiset{x});
      s := s + [x];
      assert m == m - multiset{x} + multiset{x};
    }
  }

  lemma Member(m: multiset<RawEntry>) returns (x: RawEntry)
    requires m != multiset{}
    ensures x in m
  {
    assert |m| > 0;
    x :| x in m;
  }

  /** What the entries that became hits leave of the scores. */
  lemma ScoresLeft(slots: multiset<RawEntry>, scores: multiset<real>, entries: seq<RawEntry>, e: RawEntry)
    requires ScoresOfSlots(slots, scores) && multiset(entries) <= slots && e in slots - multiset(entries)
    ensures multiset(Map(entries, ScoreOf())) <= scores && e.score in scores - multiset(Map(entries, ScoreOf()))
    ensures |scores| > |entries|
  {
    var all: seq<RawEntry> :| multiset(all) == slots && multiset(Map(all, ScoreOf())) == scores;
    var rest := InSomeOrder(slots - multiset(entries));
    assert multiset(entries + rest) == multiset(all);
    MapPermutation(entries + rest, all, ScoreOf());
    MapConcat(entries, rest, ScoreOf());
    assert e in multiset(rest);
    var i :| 0 <= i < |rest| && rest[i] == e;
    assert Map(rest, ScoreOf())[i] == e.score;
    assert e.score in multiset(Map(rest, ScoreOf()));
    assert scores == multiset(Map(entries, ScoreOf())) + multiset(Map(rest, ScoreOf()));
  }

  lemma HitScores(hits: seq<Hit>, entries: seq<RawEntry>, columns: Columns)
    requires HitsOf(hits, entries, columns)
    ensures multiset(ScoresOfHits(hits)) == multiset(Map(entries, ScoreOf())) && |hits| == |entries|
  {
    hide Resolved;
    var all := Map(entries, HitOf(columns));
    HitScoresPermuted(hits, all);
    assert ScoresOfHits(all) == Map(entries, ScoreOf());
    assert |hits| == |multiset(hits)| == |multiset(all)| == |all|;
  }

  /** A candidate of a search is a hit, or every hit is at least as good and there are k of them. */
  lemma LeftOutNoBetter(hits: seq<Hit>, scores: multiset<real>, slots: multiset<RawEntry>, columns: Columns, k: nat,
                        e: RawEntry)
    requires SearchResult(hits, scores, slots, columns, k) && ScoresOfSlots(slots, scores) && e in slots
    ensures ReturnedOrBeaten(Hit(Resolved(e, columns), e.score), hits, k)
  {
    hide ScoresOfSlots, BestFirst, Resolved;
    var entries: seq<RawEntry> :| multiset(entries) <= slots && HitsOf(hits, entries, columns);
    HitScores(hits, entries, columns);
    if e in entries {
      var i :| 0 <= i < |entries| && entries[i] == e;
      assert Map(entries, HitOf(columns))[i] == Hit(Resolved(e, columns), e.score);
      assert Hit(Resolved(e, columns), e.score) in multiset(hits);
    } else {
      assert e !in multiset(entries);
      ScoresLeft(slots, scores, entries, e);
      NoneBelow(hits, scores, k, e.score);
    }
  }

  lemma NoneBelow(hits: seq<Hit>, scores: multiset<real>, k: nat, x: real)
    requires IsTopK(multiset(ScoresOfHits(hits)), scores, k) && x in scores - multiset(ScoresOfHits(hits)) &&
             |scores| > |hits|
    ensures |hits| == k && forall g :: g in hits ==> x <= g.score
  {
    var top := ScoresOfHits(hits);
    assert |multiset(top)| == |hits|;
    forall g | g in hits
      ensures x <= g.score
    {
      var i :| 0 <= i < |hits| && hits[i] == g;
      assert top[i] == g.score && g.score in multiset(top);
    }
  }

  lemma {:induction false} UnionHas<A, T>(xs: seq<A>, f: A -> multiset<T>, i: nat, y: T)
    requires i < |xs| && y in f(xs[i])
    ensures y in UnionOver(xs, f)
  {
    if i < |xs| - 1 { UnionHas(xs[..|xs| - 1], f, i, y); }
  }
}
