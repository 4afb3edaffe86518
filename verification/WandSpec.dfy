/**
 * The facts the multi-term traversal rests on, about the array of term cursors taken as a
 * sequence: full document scores, documents already passed by a cursor, and score bounds.
 */
module WandSpec {
  import opened ItemPointers
  import opened Postings
  import opened Sums

  ghost function ListOf(): TermState -> TermList {
    (t: TermState) => t.list
  }

  /** The posting lists of the query, in the current order of the cursors. */
  ghost function Lists(ts: seq<TermState>): seq<TermList> {
    Map(ts, ListOf())
  }

  ghost predicate SameTerms(ts: seq<TermState>, us: seq<TermState>) {
    multiset(Lists(ts)) == multiset(Lists(us))
  }

  ghost function WeightOf(d: nat): TermList -> real {
    (l: TermList) => Weight(l, d)
  }

  /** The exhaustive score of document d: every query term's contribution, added up. */
  ghost function FullScore(q: seq<TermList>, d: nat): real {
    Sum(q, WeightOf(d))
  }

  /** The hypothesis on score bounds: they dominate the (positive) scores in their block. */
  ghost predicate BoundsDominate(l: TermList) {
    && |l.blockMax| == |l.blocks| && 0 < l.queryFreq && 0.0 <= l.maxScore
    && (forall b, j :: 0 <= b < |l.blocks| && 0 <= j < |l.blocks[b]| ==>
                         0.0 < l.weigh(l.blocks[b][j].frequency, l.blocks[b][j].fieldnorm) <= l.blockMax[b])
    && (forall b :: 0 <= b < |l.blockMax| ==> 0.0 <= l.blockMax[b])
    && (forall b :: 0 <= b < |l.blockMax| ==> Scale(l.blockMax[b], l.queryFreq) <= l.maxScore)
  }

  ghost predicate ValidTerm(t: TermState) {
    ValidCursor(t) && BoundsDominate(t.list)
  }

  ghost predicate AllValid(ts: seq<TermState>) {
    forall i :: 0 <= i < |ts| ==> ValidTerm(ts[i])
  }

  /** The little of AllValid that ordering and bound sums need. */
  ghost predicate Bounded(ts: seq<TermState>) {
    forall i :: 0 <= i < |ts| ==> Cur(ts[i]) <= UINT32_MAX && 0.0 <= ts[i].list.maxScore
  }

  lemma ValidIsBounded(ts: seq<TermState>)
    requires AllValid(ts)
    ensures Bounded(ts)
  {
    forall i | 0 <= i < |ts|
      ensures Cur(ts[i]) <= UINT32_MAX
    {
      CurFacts(ts[i]);
    }
  }

  ghost predicate SortedByDoc(ts: seq<TermState>) {
    forall i, j :: 0 <= i <= j < |ts| ==> Cur(ts[i]) <= Cur(ts[j])
  }

  ghost predicate PassedBy(t: TermState, d: nat) {
    Has(t.list, d) && d < Cur(t)
  }

  /** Some cursor whose term occurs in d already stands beyond d. */
  ghost predicate Passed(ts: seq<TermState>, d: nat) {
    exists i :: 0 <= i < |ts| && PassedBy(ts[i], d)
  }

  // Functions summed over the cursors.

  ghost function ListWeight(d: nat): TermState -> real {
    (t: TermState) => Weight(t.list, d)
  }

  ghost function MaxOf(): TermState -> real {
    (t: TermState) => t.list.maxScore
  }

  ghost function MaxBelow(p: nat): TermState -> real {
    (t: TermState) => if Cur(t) < p then t.list.maxScore else 0.0
  }

  ghost function BlockBound(): TermState -> real {
    (t: TermState) => CurrentBlockBound(t)
  }

  function CurrentBlockBound(t: TermState): real {
    if t.list.found && !t.finished && t.currentBlock < |t.list.blockMax|
    then Scale(t.list.blockMax[t.currentBlock], t.list.queryFreq) else 0.0
  }

  ghost function DistanceOf(): TermState -> int {
    (t: TermState) => UINT32_MAX - Cur(t)
  }

  ghost function OneIfActive(): TermState -> int {
    (t: TermState) => if Active(t) then 1 else 0
  }

  /** How far the cursors are from exhaustion: the termination measure of the traversal. */
  ghost function Distance(ts: seq<TermState>): int {
    Total(ts, DistanceOf())
  }

  ghost function ActiveCount(ts: seq<TermState>): int {
    Total(ts, OneIfActive())
  }

  // ---------- weights and bounds of one term ----------

  lemma ScaleBound(w: real, m: real, n: nat)
    requires 0.0 < w <= m && 0 < n
    ensures 0.0 < Scale(w, n) <= Scale(m, n)
  {
  }

  lemma WeightBounds(l: TermList, d: nat)
    requires ValidList(l) && BoundsDominate(l)
    ensures Has(l, d) ==> 0.0 < Weight(l, d) <= l.maxScore
    ensures !Has(l, d) ==> Weight(l, d) == 0.0
    ensures 0.0 <= Weight(l, d) <= l.maxScore
  {
    if Has(l, d) {
      var b: nat, j: nat :| At(l, d, b, j);
      WeightAt(l, d, b, j);
      ScaleBound(l.weigh(l.blocks[b][j].frequency, l.blocks[b][j].fieldnorm), l.blockMax[b], l.queryFreq);
    }
  }

  /** A document not behind the cursor and not beyond the current block is bounded by the block. */
  lemma WeightInBlock(t: TermState, d: nat)
    requires ValidTerm(t) && Active(t) && !PassedBy(t, d) && d <= t.skip.lastDocId
    ensures Weight(t.list, d) <= CurrentBlockBound(t)
  {
    var l := t.list;
    var bound := l.blockMax[t.currentBlock];
    assert 0.0 <= Scale(bound, l.queryFreq);
    if Has(l, d) {
      var b: nat, j: nat :| At(l, d, b, j);
      PositionOrder(l, b, j, t.currentBlock, t.currentInBlock);
      var last := |l.blocks[t.currentBlock]| - 1;
      PositionOrder(l, t.currentBlock, last, b, j);
      assert b == t.currentBlock;
      WeightAt(l, d, b, j);
      ScaleBound(l.weigh(l.blocks[b][j].frequency, l.blocks[b][j].fieldnorm), bound, l.queryFreq);
    }
  }

  // ---------- a repeated query term ----------

  /** In plain terms: the posting's score as often as the query repeats the term. */
  lemma WeightOfPosting(l: TermList, d: nat, b: nat, j: nat)
    requires ValidList(l) && l.found && At(l, d, b, j)
    ensures Weight(l, d) == l.weigh(l.blocks[b][j].frequency, l.blocks[b][j].fieldnorm) * l.queryFreq as real
  {
    WeightAt(l, d, b, j);
  }

  /** The term n times, each time asked for once. */
  ghost function Copies(l: TermList, n: nat): seq<TermList> {
    if n == 0 then [] else [l.(queryFreq := 1)] + Copies(l, n - 1)
  }

  /** The query with every repetition of a term written out. */
  ghost function WrittenOut(q: seq<TermList>): seq<TermList> {
    if q == [] then [] else Copies(q[0], q[0].queryFreq) + WrittenOut(q[1..])
  }

  lemma OneMoreCopy(l: TermList, n: nat, d: nat)
    requires ValidList(l) && 0 < n
    ensures Weight(l.(queryFreq := n), d) == Weight(l.(queryFreq := 1), d) + Weight(l.(queryFreq := n - 1), d)
  {
    hide Weight, ValidList, Has;
    if Has(l, d) {
      var b, j := PlaceOf(l, d);
      WeightAskedFor(l, n, d, b, j);
      WeightAskedFor(l, 1, d, b, j);
      WeightAskedFor(l, n - 1, d, b, j);
      OneMoreTime(l.weigh(l.blocks[b][j].frequency, l.blocks[b][j].fieldnorm), n);
    } else {
      NoWeightAskedFor(l, n, d);
      NoWeightAskedFor(l, 1, d);
      NoWeightAskedFor(l, n - 1, d);
    }
  }

  lemma PlaceOf(l: TermList, d: nat) returns (b: nat, j: nat)
    requires Has(l, d)
    ensures l.found && At(l, d, b, j)
  {
    b, j :| At(l, d, b, j);
  }

  lemma WeightAskedFor(l: TermList, n: nat, d: nat, b: nat, j: nat)
    requires ValidList(l) && l.found && At(l, d, b, j)
    ensures Weight(l.(queryFreq := n), d) == l.weigh(l.blocks[b][j].frequency, l.blocks[b][j].fieldnorm) * n as real
  {
    SameLayout(l, n);
    hide ValidList, Weight;
    assert At(l.(queryFreq := n), d, b, j);
    WeightOfPosting(l.(queryFreq := n), d, b, j);
  }

  lemma SameLayout(l: TermList, n: nat)
    requires ValidList(l)
    ensures ValidList(l.(queryFreq := n))
  {
  }

  lemma NoWeightAskedFor(l: TermList, n: nat, d: nat)
    requires !Has(l, d)
    ensures Weight(l.(queryFreq := n), d) == 0.0
  {
    SameDocs(l, n, d);
  }

  lemma SameDocs(l: TermList, n: nat, d: nat)
    ensures Has(l.(queryFreq := n), d) ==> Has(l, d)
  {
    var m := l.(queryFreq := n);
    if Has(m, d) {
      var b: nat, j: nat :| At(m, d, b, j);
      assert At(l, d, b, j);
    }
  }

  lemma {:induction false} CopiesScore(l: TermList, n: nat, d: nat)
    requires ValidList(l)
    ensures FullScore(Copies(l, n), d) == Weight(l.(queryFreq := n), d)
  {
    hide Weight, ValidList;
    if n == 0 {
      NeverAskedFor(l, d);
    } else {
      CopiesScore(l, n - 1, d);
      OneMoreCopy(l, n, d);
      SumConcat([l.(queryFreq := 1)], Copies(l, n - 1), WeightOf(d));
      SumOfOne(l.(queryFreq := 1), WeightOf(d));
    }
  }

  lemma NeverAskedFor(l: TermList, d: nat)
    requires ValidList(l)
    ensures Weight(l.(queryFreq := 0), d) == 0.0
  {
    hide Weight, ValidList, Has;
    if Has(l, d) {
      var b, j := PlaceOf(l, d);
      WeightAskedFor(l, 0, d, b, j);
    } else {
      NoWeightAskedFor(l, 0, d);
    }
  }

  /** A term that the query repeats n times counts as n terms that it names once. */
  lemma {:induction false} RepetitionScore(q: seq<TermList>, d: nat)
    requires forall i :: 0 <= i < |q| ==> ValidList(q[i])
    ensures FullScore(q, d) == FullScore(WrittenOut(q), d)
  {
    hide Weight, ValidList;
    if q != [] {
      RepetitionScore(q[1..], d);
      CopiesScore(q[0], q[0].queryFreq, d);
      assert q[0].(queryFreq := q[0].queryFreq) == q[0];
      SumConcat(Copies(q[0], q[0].queryFreq), WrittenOut(q[1..]), WeightOf(d));
    }
  }

  // ---------- reordering and moving cursors ----------

  lemma {:induction false} ScoreByCursor(ts: seq<TermState>, d: nat)
    ensures FullScore(Lists(ts), d) == Sum(ts, ListWeight(d))
  {
    if ts != [] {
      assert Lists(ts)[1..] == Lists(ts[1..]);
      ScoreByCursor(ts[1..], d);
    }
  }

  lemma SameTermsScore(ts: seq<TermState>, us: seq<TermState>, d: nat)
    requires SameTerms(ts, us)
    ensures FullScore(Lists(ts), d) == FullScore(Lists(us), d)
  {
    SumPermutation(Lists(ts), Lists(us), WeightOf(d));
  }

  ghost predicate AllFrom(ts: seq<TermState>, d: nat) {
    forall i :: 0 <= i < |ts| ==> d <= Cur(ts[i])
  }

  ghost predicate SamePassed(ts: seq<TermState>, us: seq<TermState>) {
    forall d: nat :: Passed(ts, d) <==> Passed(us, d)
  }

  /** Reordering the cursors changes none of the quantities used by the traversal. */
  lemma Reordered(ts: seq<TermState>, us: seq<TermState>)
    requires multiset(ts) == multiset(us)
    ensures SameTerms(ts, us) && |ts| == |us| && SamePassed(ts, us)
    ensures Distance(ts) == Distance(us) && ActiveCount(ts) == ActiveCount(us)
    ensures AllValid(ts) ==> AllValid(us)
    ensures forall d: nat :: AllFrom(ts, d) ==> AllFrom(us, d)
  {
    assert |ts| == |multiset(ts)| == |us|;
    MapPermutation(ts, us, ListOf());
    TotalPermutation(ts, us, DistanceOf());
    TotalPermutation(ts, us, OneIfActive());
    SameElements(ts, us);
    SameElements(us, ts);
    PassedMonotone(ts, us);
    PassedMonotone(us, ts);
  }

  ghost predicate Included(ts: seq<TermState>, us: seq<TermState>) {
    forall t :: t in ts ==> t in us
  }

  lemma SameElements(ts: seq<TermState>, us: seq<TermState>)
    requires multiset(ts) == multiset(us)
    ensures Included(ts, us)
  {
    forall t | t in ts
      ensures t in us
    {
      assert t in multiset(ts);
    }
  }

  lemma PassedMonotone(ts: seq<TermState>, us: seq<TermState>)
    requires Included(ts, us)
    ensures forall d: nat :: Passed(ts, d) ==> Passed(us, d)
    ensures AllValid(us) ==> AllValid(ts)
    ensures forall d: nat :: AllFrom(us, d) ==> AllFrom(ts, d)
  {
    forall i | 0 <= i < |ts|
      ensures exists j :: 0 <= j < |us| && us[j] == ts[i]
    {
      assert ts[i] in us;
    }
    forall d: nat | Passed(ts, d)
      ensures Passed(us, d)
    {
      var i :| 0 <= i < |ts| && PassedBy(ts[i], d);
      var j :| 0 <= j < |us| && us[j] == ts[i];
      assert PassedBy(us[j], d);
    }
  }

  /** A cursor replaced by the same cursor further on. */
  ghost predicate Moved(ts: seq<TermState>, i: nat, t': TermState) {
    && i < |ts| && t'.list == ts[i].list && ValidTerm(t') && Cur(ts[i]) <= Cur(t')
  }

  lemma AfterMove(ts: seq<TermState>, i: nat, t': TermState)
    requires AllValid(ts) && Moved(ts, i, t')
    ensures AllValid(ts[i := t']) && SameTerms(ts[i := t'], ts)
    ensures Distance(ts[i := t']) == Distance(ts) - (Cur(t') - Cur(ts[i]))
    ensures ActiveCount(ts[i := t']) == ActiveCount(ts) - (if Active(ts[i]) && !Active(t') then 1 else 0)
  {
    CurFacts(ts[i]);
    CurFacts(t');
    TotalUpdate(ts, i, t', DistanceOf());
    TotalUpdate(ts, i, t', OneIfActive());
    assert Lists(ts[i := t']) == Lists(ts);
  }

  lemma PassedAfterMove(ts: seq<TermState>, i: nat, t': TermState)
    requires Moved(ts, i, t')
    ensures forall d: nat :: Passed(ts[i := t'], d) <==>
                               Passed(ts, d) || (Has(t'.list, d) && Cur(ts[i]) <= d < Cur(t'))
  {
    var us := ts[i := t'];
    forall d: nat
      ensures Passed(us, d) <==> Passed(ts, d) || (Has(t'.list, d) && Cur(ts[i]) <= d < Cur(t'))
    {
      if Passed(us, d) {
        var k :| 0 <= k < |us| && PassedBy(us[k], d);
        if k != i || d < Cur(ts[i]) {
          assert PassedBy(ts[k], d);
        }
      }
      if Passed(ts, d) {
        var k :| 0 <= k < |ts| && PassedBy(ts[k], d);
        assert PassedBy(us[k], d);
      }
      if Has(t'.list, d) && d < Cur(t') {
        assert PassedBy(us[i], d);
      }
    }
  }

  lemma DistanceNonNegative(ts: seq<TermState>)
    requires AllValid(ts)
    ensures 0 <= Distance(ts)
  {
    forall t | t in ts
      ensures Cur(t) <= UINT32_MAX
    {
      CurFacts(t);
    }
    TotalNonNegative(ts, DistanceOf());
  }

  // ---------- what can be skipped ----------

  /** A document no cursor has passed, below p: bounded by the terms standing below p. */
  lemma UnpassedBound(ts: seq<TermState>, d: nat, p: nat)
    requires AllValid(ts) && !Passed(ts, d) && d < p
    ensures FullScore(Lists(ts), d) <= Sum(ts, MaxBelow(p))
  {
    ScoreByCursor(ts, d);
    forall t | t in ts
      ensures ListWeight(d)(t) <= MaxBelow(p)(t)
    {
      var i :| 0 <= i < |ts| && ts[i] == t;
      assert !PassedBy(ts[i], d);
      WeightBounds(t.list, d);
    }
    SumLe(ts, ListWeight(d), MaxBelow(p));
  }

  /** Cursors at or beyond `from` that have not passed d < from do not contain d. */
  lemma {:induction false} NoWeight(ts: seq<TermState>, d: nat)
    requires AllValid(ts) && !Passed(ts, d)
    requires forall i :: 0 <= i < |ts| ==> d < Cur(ts[i])
    ensures Sum(ts, ListWeight(d)) == 0.0
  {
    if ts != [] {
      assert !PassedBy(ts[0], d);
      WeightBounds(ts[0].list, d);
      forall i | 0 <= i < |ts[1..]|
        ensures !PassedBy(ts[1..][i], d) && d < Cur(ts[1..][i])
      {
        assert ts[1..][i] == ts[i + 1] && !PassedBy(ts[i + 1], d);
      }
      NoWeight(ts[1..], d);
    }
  }

  lemma NotPassedParts(ts: seq<TermState>, n: nat, d: nat)
    requires n <= |ts| && !Passed(ts, d)
    ensures !Passed(ts[..n], d) && !Passed(ts[n..], d)
  {
    forall i | 0 <= i < |ts|
      ensures !PassedBy(ts[i], d)
    {
    }
  }

  /**
   * The block-max refinement: with every pivot cursor active, a document no cursor has passed,
   * inside all their current blocks and before the first other cursor, scores at most the
   * sum of the current block bounds.
   */
  lemma BlockBoundHolds(ts: seq<TermState>, n: nat, d: nat)
    requires AllValid(ts) && n <= |ts| && !Passed(ts, d)
    requires forall i :: 0 <= i < n ==> Active(ts[i]) && d <= ts[i].skip.lastDocId
    requires forall i :: n <= i < |ts| ==> d < Cur(ts[i])
    ensures FullScore(Lists(ts), d) <= Sum(ts[..n], BlockBound())
  {
    ScoreByCursor(ts, d);
    assert ts == ts[..n] + ts[n..];
    SumConcat(ts[..n], ts[n..], ListWeight(d));
    NotPassedParts(ts, n, d);
    NoWeight(ts[n..], d);
    forall t | t in ts[..n]
      ensures ListWeight(d)(t) <= BlockBound()(t)
    {
      var i :| 0 <= i < n && ts[i] == t;
      assert !PassedBy(ts[i], d);
      WeightInBlock(t, d);
    }
    SumLe(ts[..n], ListWeight(d), BlockBound());
  }

  lemma PivotAndRest(ts: seq<TermState>, n: nat, d: nat)
    requires AllValid(ts) && 0 < n <= |ts|
    requires forall i :: 0 <= i < n ==> Cur(ts[i]) == d
    requires forall i :: n <= i < |ts| ==> d < Cur(ts[i])
    ensures AllValid(ts[..n]) && AllValid(ts[n..]) && Cur(ts[..n][0]) == d
    ensures forall i :: 0 <= i < |ts[n..]| ==> d < Cur(ts[n..][i])
  {
    hide ValidTerm, Cur;
  }

  /** Scoring an aligned pivot adds up its full score, unless some cursor has passed it. */
  lemma {:induction false} PivotScore(ts: seq<TermState>, n: nat, d: nat)
    requires AllValid(ts) && 0 < n <= |ts|
    requires forall i :: 0 <= i < n ==> Cur(ts[i]) == d
    requires forall i :: n <= i < |ts| ==> d < Cur(ts[i])
    requires d < UINT32_MAX
    ensures 0.0 < Sum(ts[..n], ListWeight(d)) <= FullScore(Lists(ts), d)
    ensures !Passed(ts, d) ==> Sum(ts[..n], ListWeight(d)) == FullScore(Lists(ts), d)
    ensures Passed(ts, d) ==> Sum(ts[..n], ListWeight(d)) < FullScore(Lists(ts), d)
  {
    PivotAndRest(ts, n, d);
    PassedByRest(ts, n, d);
    hide FullScore, Passed, ListWeight, AllValid, Cur, Sum;
    ScoreByCursor(ts, d);
    SumConcat(ts[..n], ts[n..], ListWeight(d));
    assert ts == ts[..n] + ts[n..];
    RestScore(ts[n..], d);
    FirstScore(ts[..n], d);
  }

  /** The pivot terms weigh something. */
  lemma FirstScore(ts: seq<TermState>, d: nat)
    requires AllValid(ts) && 0 < |ts| && Cur(ts[0]) == d < UINT32_MAX
    ensures 0.0 < Sum(ts, ListWeight(d))
  {
    NonNegativeWeights(ts[1..], d);
    CurFacts(ts[0]);
    WeightBounds(ts[0].list, d);
  }

  /** Only the cursors beyond the pivot can have passed it. */
  lemma PassedByRest(ts: seq<TermState>, n: nat, d: nat)
    requires n <= |ts| && forall i :: 0 <= i < n ==> Cur(ts[i]) == d
    ensures Passed(ts, d) <==> Passed(ts[n..], d)
  {
    if Passed(ts, d) {
      var i :| 0 <= i < |ts| && PassedBy(ts[i], d);
      assert ts[n..][i - n] == ts[i];
    }
  }

  /** The terms beyond the pivot weigh something exactly when one of them has passed it. */
  lemma RestScore(ts: seq<TermState>, d: nat)
    requires AllValid(ts) && forall i :: 0 <= i < |ts| ==> d < Cur(ts[i])
    ensures 0.0 <= Sum(ts, ListWeight(d))
    ensures Passed(ts, d) <==> 0.0 < Sum(ts, ListWeight(d))
  {
    NonNegativeWeights(ts, d);
    if Passed(ts, d) {
      var i :| 0 <= i < |ts| && PassedBy(ts[i], d);
      PassedWeighs(ts, i, d);
    } else {
      NoWeight(ts, d);
    }
  }

  lemma PassedWeighs(ts: seq<TermState>, i: nat, d: nat)
    requires AllValid(ts) && i < |ts| && PassedBy(ts[i], d)
    ensures 0.0 < Sum(ts, ListWeight(d))
  {
    SumSplit(ts, i, ListWeight(d));
    NonNegativeWeights(ts[..i], d);
    NonNegativeWeights(ts[i + 1..], d);
    WeightBounds(ts[i].list, d);
  }

  lemma {:induction false} NonNegativeWeights(ts: seq<TermState>, d: nat)
    requires AllValid(ts)
    ensures 0.0 <= Sum(ts, ListWeight(d))
  {
    if ts != [] {
      WeightBounds(ts[0].list, d);
      NonNegativeWeights(ts[1..], d);
    }
  }

  // ---------- keeping the cursors sorted ----------

  /** memmove: the element at `ord` slides right to `dest`, those between shift left by one. */
  ghost function Rotate<T>(xs: seq<T>, ord: nat, dest: nat): seq<T>
    requires ord <= dest < |xs|
  {
    xs[..ord] + xs[ord + 1..dest + 1] + [xs[ord]] + xs[dest + 1..]
  }

  lemma RotateIsReordering<T>(xs: seq<T>, ord: nat, dest: nat)
    requires ord <= dest < |xs|
    ensures multiset(Rotate(xs, ord, dest)) == multiset(xs)
  {
    assert xs == xs[..ord] + [xs[ord]] + xs[ord + 1..dest + 1] + xs[dest + 1..];
  }

  /** Sorted, except that the cursor at `ord` may have moved too far to the right for its place. */
  ghost predicate SortedButFor(ts: seq<TermState>, ord: nat) {
    && (forall i, j :: 0 <= i <= j < |ts| && i != ord && j != ord ==> Cur(ts[i]) <= Cur(ts[j]))
    && (forall i :: 0 <= i < ord < |ts| ==> Cur(ts[i]) <= Cur(ts[ord]))
  }

  /** `dest` is where the linear insertion stops. */
  ghost predicate InsertionPoint(ts: seq<TermState>, ord: nat, dest: nat) {
    && ord <= dest < |ts|
    && (forall k :: ord < k <= dest ==> Cur(ts[k]) < Cur(ts[ord]))
    && (dest + 1 < |ts| ==> Cur(ts[ord]) <= Cur(ts[dest + 1]))
  }

  lemma RotateSorts(ts: seq<TermState>, ord: nat, dest: nat)
    requires SortedButFor(ts, ord) && InsertionPoint(ts, ord, dest)
    ensures SortedByDoc(Rotate(ts, ord, dest))
  {
    var us := Rotate(ts, ord, dest);
    forall i | 0 <= i < |us| - 1
      ensures Cur(us[i]) <= Cur(us[i + 1])
    {
    }
    SortedByNeighbours(us, |us|);
  }

  lemma {:induction false} SortedByNeighbours(ts: seq<TermState>, n: nat)
    requires n <= |ts|
    requires forall i :: 0 <= i < |ts| - 1 ==> Cur(ts[i]) <= Cur(ts[i + 1])
    ensures forall i, j :: 0 <= i <= j < n ==> Cur(ts[i]) <= Cur(ts[j])
  {
    if n > 1 {
      SortedByNeighbours(ts, n - 1);
      assert Cur(ts[n - 2]) <= Cur(ts[n - 2 + 1]);
    }
  }
}
