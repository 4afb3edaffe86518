/**
 * The N-way merge of segment dictionaries (src/segment/merge.c): the union of the terms in
 * order, and for each of them the segments that contain it.
 */
module MergeTerms {
  import opened Terms

  /** TpMergeSource: the current term is terms[currentIdx] until the source is exhausted. */
  datatype TermSource = TermSource(terms: seq<string>, currentIdx: nat, exhausted: bool)

  /** Where a term occurs: a source and the index of the term in its dictionary. */
  datatype Ref = Ref(segmentIdx: nat, termIdx: nat)

  datatype MergedTerm = MergedTerm(term: string, refs: seq<Ref>)

  ghost predicate ValidSource(s: TermSource) {
    AscendingTerms(s.terms) && if s.exhausted then s.currentIdx == |s.terms| else s.currentIdx < |s.terms|
  }

  ghost predicate ValidSources(srcs: seq<TermSource>) {
    forall i :: 0 <= i < |srcs| ==> ValidSource(srcs[i])
  }

  /** merge_source_init on a segment with at least one term. */
  function InitSource(terms: seq<string>): TermSource
    requires terms != []
  {
    TermSource(terms, 0, false)
  }

  /** merge_source_advance. */
  function Advance(s: TermSource): TermSource {
    if s.exhausted then s
    else TermSource(s.terms, s.currentIdx + 1, s.currentIdx + 1 >= |s.terms|)
  }

  /** merge_find_min_source: the first source with the least current term, -1 if all are exhausted. */
  method FindMinSource(sources: array<TermSource>) returns (minIdx: int)
    requires ValidSources(sources[..])
    ensures -1 <= minIdx < sources.Length
    ensures minIdx < 0 <==> forall i :: 0 <= i < sources.Length ==> sources[i].exhausted
    ensures minIdx >= 0 ==> !sources[minIdx].exhausted
    ensures minIdx >= 0 ==> NoneBelow(sources[..], sources[minIdx].terms[sources[minIdx].currentIdx])
  {
    minIdx := -1;
    for i := 0 to sources.Length
      invariant -1 <= minIdx < i
      invariant minIdx < 0 ==> forall j :: 0 <= j < i ==> sources[j].exhausted
      invariant minIdx >= 0 ==> !sources[minIdx].exhausted
      invariant minIdx >= 0 ==> NoneBelow(sources[..i], sources[minIdx].terms[sources[minIdx].currentIdx])
    {
      assert ValidSource(sources[..][i]);
      assert sources[..i + 1] == sources[..i] + [sources[i]];
      if sources[i].exhausted { continue; }
      var term := sources[i].terms[sources[i].currentIdx];
      Trichotomy(term, term);
      if minIdx < 0 || StrCmp(term, sources[minIdx].terms[sources[minIdx].currentIdx]) < 0 {
        if minIdx >= 0 { StillNoneBelow(sources[..i], sources[minIdx].terms[sources[minIdx].currentIdx], term); }
        minIdx := i;
      }
    }
    assert sources[..sources.Length] == sources[..];
  }

  /** No unexhausted source stands at a term below `w`. */
  ghost predicate NoneBelow(srcs: seq<TermSource>, w: string) {
    forall i :: 0 <= i < |srcs| && !srcs[i].exhausted && srcs[i].currentIdx < |srcs[i].terms| ==>
                  !Less(srcs[i].terms[srcs[i].currentIdx], w)
  }

  lemma StillNoneBelow(srcs: seq<TermSource>, w: string, v: string)
    requires NoneBelow(srcs, w) && Less(v, w)
    ensures NoneBelow(srcs, v)
  {
    forall i | 0 <= i < |srcs| && !srcs[i].exhausted && srcs[i].currentIdx < |srcs[i].terms|
      ensures !Less(srcs[i].terms[srcs[i].currentIdx], v)
    {
      if Less(srcs[i].terms[srcs[i].currentIdx], v) {
        LessTransitive(srcs[i].terms[srcs[i].currentIdx], v, w);
      }
    }
  }

  // ---------- the merge ----------

  /** `refs` lists exactly the occurrences of term `w` among the first n dictionaries, one per source, in order. */
  ghost predicate RefsTo(dicts: seq<seq<string>>, w: string, refs: seq<Ref>, n: nat) {
    && (forall r :: r in refs <==> r.segmentIdx < n && Occurs(dicts, w, r))
    && (forall j, k :: 0 <= j < k < |refs| ==> refs[j].segmentIdx < refs[k].segmentIdx)
  }

  predicate Occurs(dicts: seq<seq<string>>, w: string, r: Ref) {
    r.segmentIdx < |dicts| && r.termIdx < |dicts[r.segmentIdx]| && dicts[r.segmentIdx][r.termIdx] == w
  }

  ghost predicate RefsExact(dicts: seq<seq<string>>, m: MergedTerm) {
    RefsTo(dicts, m.term, m.refs, |dicts|)
  }

  ghost predicate AscendingMerged(merged: seq<MergedTerm>) {
    forall j, k :: 0 <= j < k < |merged| ==> Less(merged[j].term, merged[k].term)
  }

  ghost predicate Covered(merged: seq<MergedTerm>, w: string) {
    exists k :: 0 <= k < |merged| && merged[k].term == w
  }

  /** The sources read the given dictionaries. */
  ghost predicate Reading(dicts: seq<seq<string>>, srcs: seq<TermSource>) {
    && |srcs| == |dicts| && ValidSources(srcs)
    && forall i :: 0 <= i < |srcs| ==> srcs[i].terms == dicts[i]
  }

  /** Every term before a cursor has been merged. */
  ghost predicate BehindCovered(srcs: seq<TermSource>, merged: seq<MergedTerm>) {
    forall i, t :: 0 <= i < |srcs| && 0 <= t < srcs[i].currentIdx && t < |srcs[i].terms| ==>
                     Covered(merged, srcs[i].terms[t])
  }

  /** Every merged term lies before every cursor. */
  ghost predicate MergedBehind(srcs: seq<TermSource>, merged: seq<MergedTerm>) {
    forall k, i :: 0 <= k < |merged| && 0 <= i < |srcs| && srcs[i].currentIdx < |srcs[i].terms| ==>
                     Less(merged[k].term, srcs[i].terms[srcs[i].currentIdx])
  }

  ghost predicate MergeState(dicts: seq<seq<string>>, srcs: seq<TermSource>, merged: seq<MergedTerm>) {
    && Reading(dicts, srcs) && AscendingMerged(merged)
    && (forall k :: 0 <= k < |merged| ==> RefsExact(dicts, merged[k]))
    && BehindCovered(srcs, merged) && MergedBehind(srcs, merged)
  }

  /** What the merge produces: the union of the dictionaries, ascending, with exact references. */
  ghost predicate IsMerge(dicts: seq<seq<string>>, merged: seq<MergedTerm>) {
    && AscendingMerged(merged)
    && (forall k :: 0 <= k < |merged| ==> RefsExact(dicts, merged[k]) && merged[k].refs != [])
    && (forall i, t :: 0 <= i < |dicts| && 0 <= t < |dicts[i]| ==> Covered(merged, dicts[i][t]))
  }

  /** In the middle of collecting term w: the first n sources have been asked and stand behind it. */
  ghost predicate Collecting(dicts: seq<seq<string>>, srcs: seq<TermSource>, start: seq<TermSource>, w: string,
                             refs: seq<Ref>, n: nat)
  {
    Reading(dicts, srcs) && RefsTo(dicts, w, refs, n) && Stepped(srcs, start, w, n)
  }

  /** The first n sources have been advanced past w if they stood at it, the others not yet asked. */
  ghost predicate Stepped(srcs: seq<TermSource>, start: seq<TermSource>, w: string, n: nat) {
    && n <= |srcs| == |start|
    && (forall i :: 0 <= i < n ==> srcs[i] == StepOver(start[i], w))
    && (forall i :: n <= i < |srcs| ==> srcs[i] == start[i])
  }

  function StepOver(s: TermSource, w: string): TermSource {
    if AtTerm(s, w) then Advance(s) else s
  }

  predicate AtTerm(s: TermSource, w: string) {
    !s.exhausted && s.currentIdx < |s.terms| && s.terms[s.currentIdx] == w
  }

  /** Where term w can occur in a dictionary whose cursor is not past it. */
  lemma OnlyAtCursor(s: TermSource, w: string, t: nat)
    requires ValidSource(s) && t < |s.terms| && s.terms[t] == w
    requires forall u :: 0 <= u < s.currentIdx ==> Less(s.terms[u], w)
    requires !s.exhausted ==> !Less(s.terms[s.currentIdx], w)
    ensures AtTerm(s, w) && t == s.currentIdx
  {
    Trichotomy(w, w);
  }

  ghost predicate BeforeAll(start: seq<TermSource>, w: string) {
    && NoneBelow(start, w)
    && forall i, u :: 0 <= i < |start| && 0 <= u < start[i].currentIdx && u < |start[i].terms| ==>
         Less(start[i].terms[u], w)
  }

  lemma AdvanceValid(s: TermSource)
    requires ValidSource(s)
    ensures ValidSource(Advance(s)) && Advance(s).terms == s.terms
  {
  }

  lemma CollectStep(dicts: seq<seq<string>>, srcs: seq<TermSource>, start: seq<TermSource>, w: string,
                    refs: seq<Ref>, n: nat)
    requires Collecting(dicts, srcs, start, w, refs, n) && n < |srcs| && BeforeAll(start, w)
    ensures var s := srcs[n];
            if AtTerm(s, w)
            then Collecting(dicts, srcs[n := Advance(s)], start, w, refs + [Ref(n, s.currentIdx)], n + 1)
            else Collecting(dicts, srcs, start, w, refs, n + 1)
  {
    hide RefsTo, ValidSource, BeforeAll, AtTerm, Advance;
    var s := srcs[n];
    ReadingStep(dicts, srcs, n);
    OnlyAtCursors(start, dicts[n], w, n);
    RefsStep(dicts, w, refs, n, s);
  }

  lemma ReadingStep(dicts: seq<seq<string>>, srcs: seq<TermSource>, n: nat)
    requires Reading(dicts, srcs) && n < |srcs|
    ensures ValidSource(srcs[n]) && Reading(dicts, srcs[n := Advance(srcs[n])])
  {
    AdvanceValid(srcs[n]);
    hide ValidSource, Advance;
  }

  lemma OnlyAtCursors(start: seq<TermSource>, dict: seq<string>, w: string, n: nat)
    requires BeforeAll(start, w) && n < |start| && ValidSource(start[n]) && start[n].terms == dict
    ensures forall t: nat :: t < |dict| && dict[t] == w ==> AtTerm(start[n], w) && t == start[n].currentIdx
  {
    forall t: nat | t < |dict| && dict[t] == w
      ensures AtTerm(start[n], w) && t == start[n].currentIdx
    {
      OnlyAtCursor(start[n], w, t);
    }
  }

  lemma RefsStep(dicts: seq<seq<string>>, w: string, refs: seq<Ref>, n: nat, s: TermSource)
    requires RefsTo(dicts, w, refs, n) && n < |dicts| && s.terms == dicts[n]
    requires forall t: nat :: t < |dicts[n]| && dicts[n][t] == w ==> AtTerm(s, w) && t == s.currentIdx
    ensures RefsTo(dicts, w, if AtTerm(s, w) then refs + [Ref(n, s.currentIdx)] else refs, n + 1)
  {
    forall k | 0 <= k < |refs|
      ensures refs[k].segmentIdx < n
    {
      assert refs[k] in refs;
    }
    forall r: Ref | r.segmentIdx == n && Occurs(dicts, w, r)
      ensures AtTerm(s, w) && r == Ref(n, s.currentIdx)
    {
    }
  }

  /** Record every source that stands at the term, and advance it. */
  method CollectRefs(sources: array<TermSource>, term: string, ghost dicts: seq<seq<string>>) returns (refs: seq<Ref>)
    requires Reading(dicts, sources[..]) && BeforeAll(sources[..], term)
    modifies sources
    ensures Collecting(dicts, sources[..], old(sources[..]), term, refs, sources.Length)
  {
    ghost var start := sources[..];
    refs := [];
    NothingCollected(dicts, start, term);
    hide Collecting, BeforeAll;
    for i := 0 to sources.Length
      invariant Collecting(dicts, sources[..], start, term, refs, i)
    {
      CollectStep(dicts, sources[..], start, term, refs, i);
      CursorIn(dicts, sources[..], start, term, refs, i);
      if sources[i].exhausted { continue; }
      if StrCmp(sources[i].terms[sources[i].currentIdx], term) == 0 {
        StrCmpZero(sources[i].terms[sources[i].currentIdx], term);
        refs := refs + [Ref(i, sources[i].currentIdx)];
        ghost var before := sources[..];
        sources[i] := Advance(sources[i]);
        assert sources[..] == before[i := Advance(before[i])];
      } else {
        StrCmpZero(sources[i].terms[sources[i].currentIdx], term);
      }
    }
  }

  lemma CursorIn(dicts: seq<seq<string>>, srcs: seq<TermSource>, start: seq<TermSource>, w: string, refs: seq<Ref>,
                 n: nat)
    requires Collecting(dicts, srcs, start, w, refs, n) && n < |srcs|
    ensures !srcs[n].exhausted ==> srcs[n].currentIdx < |srcs[n].terms|
  {
    assert ValidSource(srcs[n]);
  }

  lemma NothingCollected(dicts: seq<seq<string>>, start: seq<TermSource>, w: string)
    requires Reading(dicts, start)
    ensures Collecting(dicts, start, start, w, [], 0)
  {
  }

  // ---------- one round ----------

  lemma WordBehind(dicts: seq<seq<string>>, start: seq<TermSource>, merged: seq<MergedTerm>, m: nat, w: string)
    requires MergeState(dicts, start, merged) && m < |start| && AtTerm(start[m], w) && NoneBelow(start, w)
    ensures BeforeAll(start, w) && forall k :: 0 <= k < |merged| ==> Less(merged[k].term, w)
  {
    hide RefsExact, AscendingMerged, ValidSources;
    forall i, u | 0 <= i < |start| && 0 <= u < start[i].currentIdx && u < |start[i].terms|
      ensures Less(start[i].terms[u], w)
    {
      assert Covered(merged, start[i].terms[u]);
    }
  }

  lemma SteppedSource(s: TermSource, w: string, t: nat)
    requires ValidSource(s) && t < StepOver(s, w).currentIdx && t < |s.terms|
    ensures t < s.currentIdx || s.terms[t] == w
  {
  }

  lemma SteppedCursor(s: TermSource, v: string, w: string)
    requires ValidSource(s) && !s.exhausted ==> !Less(s.terms[s.currentIdx], w)
    requires ValidSource(s) && (Less(v, w) || v == w)
    ensures var s' := StepOver(s, w); s'.currentIdx < |s'.terms| ==> Less(v, s'.terms[s'.currentIdx])
  {
    var s' := StepOver(s, w);
    if s'.currentIdx < |s'.terms| {
      var x := s'.terms[s'.currentIdx];
      if AtTerm(s, w) {
        assert Less(s.terms[s.currentIdx], x);
      } else {
        Trichotomy(x, w);
      }
      if v != w { LessTransitive(v, w, x); }
    }
  }

  lemma RoundBehind(srcs: seq<TermSource>, start: seq<TermSource>, merged: seq<MergedTerm>, w: string, refs: seq<Ref>)
    requires ValidSources(start) && Stepped(srcs, start, w, |srcs|) && NoneBelow(start, w)
    requires BehindCovered(start, merged) && forall k :: 0 <= k < |merged| ==> Less(merged[k].term, w)
    ensures BehindCovered(srcs, merged + [MergedTerm(w, refs)]) && MergedBehind(srcs, merged + [MergedTerm(w, refs)])
  {
    hide ValidSource, StepOver, Less;
    var more := merged + [MergedTerm(w, refs)];
    assert more[|merged|].term == w;
    forall i, t | 0 <= i < |srcs| && 0 <= t < srcs[i].currentIdx && t < |srcs[i].terms|
      ensures Covered(more, srcs[i].terms[t])
    {
      KeepsTerms(start[i], w);
      SteppedSource(start[i], w, t);
      if t < start[i].currentIdx {
        assert Covered(merged, start[i].terms[t]);
        var k :| 0 <= k < |merged| && merged[k].term == start[i].terms[t];
        assert more[k].term == start[i].terms[t];
      }
    }
    forall k, i | 0 <= k < |more| && 0 <= i < |srcs| && srcs[i].currentIdx < |srcs[i].terms|
      ensures Less(more[k].term, srcs[i].terms[srcs[i].currentIdx])
    {
      SourceCursor(start[i]);
      SteppedCursor(start[i], more[k].term, w);
    }
  }

  lemma SourceCursor(s: TermSource)
    requires ValidSource(s)
    ensures !s.exhausted ==> s.currentIdx < |s.terms|
  {
  }

  lemma KeepsTerms(s: TermSource, w: string)
    ensures StepOver(s, w).terms == s.terms
  {
  }

  lemma RoundStep(dicts: seq<seq<string>>, start: seq<TermSource>, srcs: seq<TermSource>, merged: seq<MergedTerm>,
                  m: nat, w: string, refs: seq<Ref>)
    requires MergeState(dicts, start, merged) && m < |start| && AtTerm(start[m], w) && NoneBelow(start, w)
    requires Collecting(dicts, srcs, start, w, refs, |srcs|)
    ensures MergeState(dicts, srcs, merged + [MergedTerm(w, refs)]) && refs != []
  {
    WordBehind(dicts, start, merged, m, w);
    RoundBehind(srcs, start, merged, w, refs);
    hide ValidSource, BehindCovered, MergedBehind, NoneBelow, StepOver, Less;
    assert Occurs(dicts, w, Ref(m, start[m].currentIdx));
    assert Ref(m, start[m].currentIdx) in refs;
  }

  // ---------- termination ----------

  ghost function Left(srcs: seq<TermSource>): nat {
    if srcs == [] then 0
    else (if srcs[0].currentIdx <= |srcs[0].terms| then |srcs[0].terms| - srcs[0].currentIdx else 0) + Left(srcs[1..])
  }

  lemma {:induction false} LeftDrops(srcs: seq<TermSource>, start: seq<TermSource>, w: string)
    requires |srcs| == |start| && ValidSources(start)
    requires forall i :: 0 <= i < |srcs| ==> srcs[i] == StepOver(start[i], w)
    ensures Left(srcs) <= Left(start)
    ensures (exists i :: 0 <= i < |start| && AtTerm(start[i], w)) ==> Left(srcs) < Left(start)
  {
    if srcs != [] {
      assert forall i :: 0 <= i < |srcs| - 1 ==> srcs[1..][i] == srcs[i + 1] && start[1..][i] == start[i + 1];
      assert ValidSource(start[0]);
      LeftDrops(srcs[1..], start[1..], w);
      if i :| 0 <= i < |start| && AtTerm(start[i], w) {
        if i > 0 { assert start[1..][i - 1] == start[i]; }
      }
    }
  }

  lemma NothingMerged(dicts: seq<seq<string>>, srcs: seq<TermSource>)
    requires |srcs| == |dicts|
    requires forall i :: 0 <= i < |dicts| ==>
               dicts[i] != [] && AscendingTerms(dicts[i]) && srcs[i] == InitSource(dicts[i])
    ensures MergeState(dicts, srcs, [])
  {
    forall i | 0 <= i < |srcs|
      ensures ValidSource(srcs[i])
    {
      assert dicts[i] != [] && srcs[i] == InitSource(dicts[i]);
    }
  }

  lemma AllMerged(dicts: seq<seq<string>>, srcs: seq<TermSource>, merged: seq<MergedTerm>)
    requires MergeState(dicts, srcs, merged) && forall i :: 0 <= i < |srcs| ==> srcs[i].exhausted
    requires forall k :: 0 <= k < |merged| ==> merged[k].refs != []
    ensures IsMerge(dicts, merged)
  {
    hide RefsExact;
    forall i, t | 0 <= i < |dicts| && 0 <= t < |dicts[i]|
      ensures Covered(merged, dicts[i][t])
    {
      assert ValidSource(srcs[i]);
      assert srcs[i].terms[t] == dicts[i][t];
    }
  }

  /**
   * The term loop of tp_merge_level_segments: the union of the dictionaries in strcmp order,
   * each term with every source that has it.
   */
  method MergeDictionaries(dicts: seq<seq<string>>) returns (merged: seq<MergedTerm>)
    requires forall i :: 0 <= i < |dicts| ==> dicts[i] != [] && AscendingTerms(dicts[i])
    ensures IsMerge(dicts, merged)
    ensures forall j, k :: 0 <= j < k < |merged| ==> Alphabetical(merged[j].term, merged[k].term)
  {
    var sources := new TermSource[|dicts|](i requires 0 <= i < |dicts| => InitSource(dicts[i]));
    merged := [];
    NothingMerged(dicts, sources[..]);
    hide ValidSource, RefsExact, BehindCovered, MergedBehind, StepOver, IsMerge, NoneBelow;
    while true
      invariant MergeState(dicts, sources[..], merged)
      invariant forall k :: 0 <= k < |merged| ==> merged[k].refs != []
      decreases Left(sources[..])
    {
      ghost var start := sources[..];
      var minIdx := FindMinSource(sources);
      if minIdx < 0 { break; }
      SourceCursor(start[minIdx]);
      var term := sources[minIdx].terms[sources[minIdx].currentIdx];
      WordBehind(dicts, start, merged, minIdx, term);
      var refs := CollectRefs(sources, term, dicts);
      RoundStep(dicts, start, sources[..], merged, minIdx, term, refs);
      LeftDrops(sources[..], start, term);
      merged := merged + [MergedTerm(term, refs)];
    }
    AllMerged(dicts, sources[..], merged);
    MergedAlphabetically(dicts, merged);
  }

  lemma MergedAlphabetically(dicts: seq<seq<string>>, merged: seq<MergedTerm>)
    requires IsMerge(dicts, merged)
    ensures forall j, k :: 0 <= j < k < |merged| ==> Alphabetical(merged[j].term, merged[k].term)
  {
    hide Less, Alphabetical, RefsExact, Covered;
    forall j, k | 0 <= j < k < |merged|
      ensures Alphabetical(merged[j].term, merged[k].term)
    {
      LessIff(merged[j].term, merged[k].term);
    }
  }

  /** The merge is determined: there is one strictly ascending list of exactly the dictionaries' terms. */
  lemma {:induction false} MergeIsUnion(dicts: seq<seq<string>>, merged: seq<MergedTerm>, w: string)
    requires IsMerge(dicts, merged)
    ensures Covered(merged, w) <==> exists r :: Occurs(dicts, w, r)
  {
    if Covered(merged, w) {
      var k :| 0 <= k < |merged| && merged[k].term == w;
      assert RefsExact(dicts, merged[k]);
      assert merged[k].refs[0] in merged[k].refs;
    }
  }
}
