/**
 * The levels of the index (tp_maybe_compact_level and the metapage part of
 * tp_merge_level_segments in src/segment/merge.c; the spill steps of src/am/build.c and
 * src/state/state.c): a base-B counter whose digits are chains of segments.
 */
module Lsm {
  import opened Constants
  import opened ItemPointers
  import opened Merge
  import opened MergeDocs
  import opened MergePostings
  import opened Sequences
  import opened Sums
  import opened Wrappers

  /** A segment on disk: its header's next_segment and its contents. */
  datatype Stored = Stored(next: Option<nat>, data: SegmentData)

  // ---------- chains ----------

  /** Following next_segment from `head` visits exactly `chain`. */
  ghost predicate Linked(store: map<nat, Stored>, head: Option<nat>, chain: seq<nat>)
    decreases |chain|
  {
    if chain == [] then head == None
    else head == Some(chain[0]) && chain[0] in store && Linked(store, store[chain[0]].next, chain[1..])
  }

  lemma {:induction false} LinkedFrame(store: map<nat, Stored>, store': map<nat, Stored>, head: Option<nat>,
                                       chain: seq<nat>)
    requires Linked(store, head, chain)
    requires forall b :: b in chain && b in store ==> b in store' && store'[b] == store[b]
    ensures Linked(store', head, chain)
    decreases |chain|
  {
    if chain != [] {
      assert forall b :: b in chain[1..] ==> b in chain;
      LinkedFrame(store, store', store[chain[0]].next, chain[1..]);
    }
  }

  lemma {:induction false} LinkedInStore(store: map<nat, Stored>, head: Option<nat>, chain: seq<nat>)
    requires Linked(store, head, chain)
    ensures forall b :: b in chain ==> b in store
    decreases |chain|
  {
    if chain != [] { LinkedInStore(store, store[chain[0]].next, chain[1..]); }
  }

  /** The segments of a chain. */
  ghost function DataOf(store: map<nat, Stored>, chain: seq<nat>): seq<SegmentData>
    requires forall b :: b in chain ==> b in store
  {
    seq(|chain|, i requires 0 <= i < |chain| => store[chain[i]].data)
  }

  ghost function SafeData(store: map<nat, Stored>, chain: seq<nat>): seq<SegmentData> {
    if forall b :: b in chain ==> b in store then DataOf(store, chain) else []
  }

  /** What a chain of segments means for a term. */
  ghost function ChainMeaning(store: map<nat, Stored>, w: string): seq<nat> -> multiset<Occurrence> {
    (chain: seq<nat>) => UnionOver(SafeData(store, chain), MeaningOf(w))
  }

  /** What the whole index means for a term. */
  ghost function IndexMeaning(store: map<nat, Stored>, chains: seq<seq<nat>>, w: string): multiset<Occurrence> {
    UnionOver(chains, ChainMeaning(store, w))
  }

  ghost function RowSet(s: SegmentData): set<ItemPointer> {
    set c | c in s.docs.ctids
  }

  /** The rows of the index. */
  ghost function IndexRows(store: map<nat, Stored>): set<ItemPointer> {
    set b, c | b in store && c in RowSet(store[b].data) :: c
  }

  /** Segments are valid and no row is in two of them, or twice in one. */
  ghost predicate RowsDisjoint(store: map<nat, Stored>) {
    && (forall b :: b in store ==> ValidSegment(store[b].data) && Distinct(store[b].data.docs.ctids))
    && (forall a, b :: a in store && b in store && a != b ==> RowSet(store[a].data) !! RowSet(store[b].data))
  }

  // ---------- the counter ----------

  /** The number written in base B with the given digits, least significant first. */
  ghost function Counter(digits: seq<nat>, base: nat): nat {
    if digits == [] then 0 else digits[0] + base * Counter(digits[1..], base)
  }

  ghost function Lengths(chains: seq<seq<nat>>): seq<nat> {
    seq(|chains|, l requires 0 <= l < |chains| => |chains[l]|)
  }

  lemma Distribute(b: nat, x: nat)
    ensures b * (x + 1) == b * x + b
  {
  }

  lemma {:induction false} CounterAdd(digits: seq<nat>, base: nat)
    requires digits != []
    ensures Counter(digits[0 := digits[0] + 1], base) == Counter(digits, base) + 1
  {
    assert digits[0 := digits[0] + 1][1..] == digits[1..];
  }

  /** A full digit carried into the next one leaves the number alone. */
  lemma {:induction false} CounterCarry(digits: seq<nat>, l: nat, base: nat)
    requires l + 1 < |digits| && digits[l] == base
    ensures Counter(digits[l := 0][l + 1 := digits[l + 1] + 1], base) == Counter(digits, base)
  {
    var carried := digits[l := 0][l + 1 := digits[l + 1] + 1];
    if l == 0 {
      assert carried[1..] == digits[1..][0 := digits[1..][0] + 1];
      CounterAdd(digits[1..], base);
      Distribute(base, Counter(digits[1..], base));
    } else {
      assert carried[1..] == digits[1..][l - 1 := 0][l := digits[1..][l] + 1];
      CounterCarry(digits[1..], l - 1, base);
    }
  }

  ghost function Pow(base: nat, k: nat): nat {
    if k == 0 then 1 else base * Pow(base, k - 1)
  }

  lemma MulLe(a: nat, b: nat, m: nat)
    requires a <= b
    ensures m * a <= m * b
  {
  }

  lemma Reassociate(a: nat, b: nat, c: nat)
    ensures a * (b * c) == b * (a * c)
  {
  }

  /** One digit more below does not change how the numbers compare. */
  lemma CompareScaled(base: nat, digit: nat, c: nat, m: nat)
    requires digit < base
    ensures c < m <==> digit + base * c < base * m
  {
    if c < m {
      MulLe(c + 1, m, base);
      Distribute(base, c);
    } else {
      MulLe(m, c, base);
    }
  }

  /** With the lower digits below the base, the last digit is the quotient by base^(n-1). */
  lemma {:induction false} LastDigit(digits: seq<nat>, base: nat, limit: nat)
    requires digits != [] && 0 < base && forall l :: 0 <= l < |digits| - 1 ==> digits[l] < base
    ensures digits[|digits| - 1] < limit <==> Counter(digits, base) < limit * Pow(base, |digits| - 1)
  {
    if |digits| == 1 {
      assert Counter(digits[1..], base) == 0;
    } else {
      var rest := digits[1..];
      LastDigit(rest, base, limit);
      var p, c := Pow(base, |rest| - 1), Counter(rest, base);
      Reassociate(limit, base, p);
      CompareScaled(base, digits[0], c, limit * p);
    }
  }

  // ---------- the levels as a whole ----------

  ghost predicate ApartChains(chains: seq<seq<nat>>) {
    forall l, m, b :: 0 <= l < m < |chains| && b in chains[l] ==> b !in chains[m]
  }

  ghost predicate AllDistinct(chains: seq<seq<nat>>) {
    forall l :: 0 <= l < |chains| ==> Distinct(chains[l])
  }

  /** Every head starts its chain, every count is the chain's length in a uint16, and no block is shared. */
  ghost predicate LevelsHold(heads: seq<Option<nat>>, counts: seq<nat>, store: map<nat, Stored>, chains: seq<seq<nat>>) {
    && |heads| == |counts| == |chains| == TP_MAX_LEVELS && ApartChains(chains) && AllDistinct(chains)
    && (forall l :: 0 <= l < |chains| ==>
                      Linked(store, heads[l], chains[l]) && counts[l] == |chains[l]| % 0x1_0000)
    && (forall b :: b in store <==> InChains(chains, b))
  }

  ghost predicate InChains(chains: seq<seq<nat>>, b: nat) {
    exists l :: 0 <= l < |chains| && b in chains[l]
  }

  /** Putting a new segment at the head of level l. */
  lemma LinkHead(heads: seq<Option<nat>>, counts: seq<nat>, store: map<nat, Stored>, chains: seq<seq<nat>>,
                 l: nat, b: nat, data: SegmentData)
    requires LevelsHold(heads, counts, store, chains) && l < TP_MAX_LEVELS && b !in store
    ensures LevelsHold(heads[l := Some(b)], counts[l := (counts[l] + 1) % 0x1_0000],
                       store[b := Stored(heads[l], data)], chains[l := [b] + chains[l]])
  {
    hide Linked, InChains, ApartChains, AllDistinct;
    var store', chains' := store[b := Stored(heads[l], data)], chains[l := [b] + chains[l]];
    assert !InChains(chains, b);
    forall m | 0 <= m < TP_MAX_LEVELS
      ensures Linked(store', heads[l := Some(b)][m], chains'[m])
    {
      LinkedInStore(store, heads[m], chains[m]);
      LinkedFrame(store, store', heads[m], chains[m]);
      if m == l { LinkedCons(store', heads[l], b, chains[l]); }
    }
    forall x
      ensures x in store' <==> InChains(chains', x)
    {
      BlocksAfterLink(chains, l, b, x);
    }
    StillApart(chains, l, b);
  }

  lemma StillApart(chains: seq<seq<nat>>, l: nat, b: nat)
    requires ApartChains(chains) && l < |chains| && !InChains(chains, b)
    requires AllDistinct(chains)
    ensures ApartChains(chains[l := [b] + chains[l]]) && AllDistinct(chains[l := [b] + chains[l]])
  {
    forall m | 0 <= m < |chains|
      ensures b !in chains[m]
    {
    }
    forall i, j | 0 <= i < j < |[b] + chains[l]|
      ensures ([b] + chains[l])[i] != ([b] + chains[l])[j]
    {
      assert chains[l][j - 1] in chains[l];
    }
  }

  lemma LinkedCons(store: map<nat, Stored>, head: Option<nat>, b: nat, chain: seq<nat>)
    requires Linked(store, head, chain) && b in store && store[b].next == head
    ensures Linked(store, Some(b), [b] + chain)
  {
    assert ([b] + chain)[1..] == chain;
  }

  lemma BlocksAfterLink(chains: seq<seq<nat>>, l: nat, b: nat, x: nat)
    requires l < |chains|
    ensures InChains(chains[l := [b] + chains[l]], x) <==> InChains(chains, x) || x == b
  {
    var chains' := chains[l := [b] + chains[l]];
    if x == b {
      assert x in chains'[l];
    } else if m :| 0 <= m < |chains| && x in chains[m] {
      assert x in chains'[m];
    }
  }

  /** Emptying level l and freeing its segments. */
  lemma ClearLevel(heads: seq<Option<nat>>, counts: seq<nat>, store: map<nat, Stored>, chains: seq<seq<nat>>, l: nat)
    requires LevelsHold(heads, counts, store, chains) && l < TP_MAX_LEVELS
    ensures LevelsHold(heads[l := None], counts[l := 0], store - (set b | b in chains[l]), chains[l := []])
  {
    hide Linked;
    var store', chains' := store - (set b | b in chains[l]), chains[l := []];
    forall m | 0 <= m < TP_MAX_LEVELS
      ensures Linked(store', heads[l := None][m], chains'[m])
    {
      if m != l {
        assert forall b :: b in chains[m] ==> b !in chains[l];
        LinkedFrame(store, store', heads[m], chains[m]);
      } else {
        LinkedNone(store');
      }
    }
    forall x
      ensures x in store' <==> InChains(chains', x)
    {
      if m :| 0 <= m < |chains'| && x in chains'[m] {
        assert m != l && x in chains[m] && x in store;
      }
      if x in store' {
        assert InChains(chains, x);
        var m :| 0 <= m < |chains| && x in chains[m];
        assert x in chains'[m];
      }
    }
  }

  lemma LinkedNone(store: map<nat, Stored>)
    ensures Linked(store, None, [])
  {
  }

  lemma InStore(heads: seq<Option<nat>>, counts: seq<nat>, store: map<nat, Stored>, chains: seq<seq<nat>>, l: nat)
    requires LevelsHold(heads, counts, store, chains) && l < TP_MAX_LEVELS
    ensures forall b :: b in chains[l] ==> b in store
    ensures SafeData(store, chains[l]) == DataOf(store, chains[l])
  {
    LinkedInStore(store, heads[l], chains[l]);
  }

  // ---------- meaning and rows of the levels ----------

  /** Levels other than those changed mean the same in the new store. */
  lemma SameMeaning(store: map<nat, Stored>, store': map<nat, Stored>, chain: seq<nat>, w: string)
    requires forall b :: b in chain ==> b in store && b in store' && store'[b] == store[b]
    ensures ChainMeaning(store', w)(chain) == ChainMeaning(store, w)(chain)
  {
    assert forall k :: 0 <= k < |chain| ==> chain[k] in chain;
    assert DataOf(store', chain) == DataOf(store, chain);
  }

  lemma HeadMeaning(store: map<nat, Stored>, b: nat, chain: seq<nat>, w: string)
    requires b in store && forall x :: x in chain ==> x in store
    ensures ChainMeaning(store, w)([b] + chain) == Meaning(store[b].data, w) + ChainMeaning(store, w)(chain)
  {
    hide Meaning;
    assert DataOf(store, [b] + chain) == [store[b].data] + DataOf(store, chain);
    UnionPrepend(store[b].data, DataOf(store, chain), MeaningOf(w));
  }

  lemma MeaningAfterLink(heads: seq<Option<nat>>, counts: seq<nat>, store: map<nat, Stored>, chains: seq<seq<nat>>,
                         l: nat, b: nat, data: SegmentData, w: string)
    requires LevelsHold(heads, counts, store, chains) && l < TP_MAX_LEVELS && b !in store
    ensures IndexMeaning(store[b := Stored(heads[l], data)], chains[l := [b] + chains[l]], w) ==
            IndexMeaning(store, chains, w) + Meaning(data, w)
  {
    var store' := store[b := Stored(heads[l], data)];
    forall m | 0 <= m < |chains|
      ensures ChainMeaning(store', w)(chains[m]) == ChainMeaning(store, w)(chains[m])
    {
      InStore(heads, counts, store, chains, m);
      SameMeaning(store, store', chains[m], w);
    }
    InStore(heads, counts, store, chains, l);
    HeadMeaning(store', b, chains[l], w);
    hide ChainMeaning, Meaning, LevelsHold;
    UnionSame(chains, ChainMeaning(store', w), ChainMeaning(store, w));
    UnionUpdate(chains, l, [b] + chains[l], ChainMeaning(store', w));
    GoneFromBoth(UnionOver(chains[l := [b] + chains[l]], ChainMeaning(store', w)),
                 UnionOver(chains, ChainMeaning(store', w)),
                 ChainMeaning(store', w)(chains[l]), Meaning(data, w));
  }

  lemma GoneFromBoth<T>(now: multiset<T>, was: multiset<T>, gone: multiset<T>, more: multiset<T>)
    requires now + gone == was + (more + gone)
    ensures now == was + more
  {
    assert was + (more + gone) == was + more + gone;
    CancelAdd(now, was + more, gone);
  }

  lemma MeaningAfterClear(heads: seq<Option<nat>>, counts: seq<nat>, store: map<nat, Stored>, chains: seq<seq<nat>>,
                          l: nat, w: string)
    requires LevelsHold(heads, counts, store, chains) && l < TP_MAX_LEVELS
    ensures IndexMeaning(store - (set b | b in chains[l]), chains[l := []], w) + ChainMeaning(store, w)(chains[l]) ==
            IndexMeaning(store, chains, w)
  {
    LevelCount(heads, counts, store, chains);
    hide ChainMeaning, LevelsHold, Meaning;
    var store', chains' := store - (set b | b in chains[l]), chains[l := []];
    forall m | 0 <= m < |chains'|
      ensures ChainMeaning(store', w)(chains'[m]) == ChainMeaning(store, w)(chains'[m])
    {
      ClearedLevel(heads, counts, store, chains, l, m, w);
    }
    UnionSame(chains', ChainMeaning(store', w), ChainMeaning(store, w));
    UnionUpdate(chains, l, [], ChainMeaning(store, w));
    NoChain(store, w);
  }

  lemma NoChain(store: map<nat, Stored>, w: string)
    ensures ChainMeaning(store, w)([]) == multiset{}
  {
  }

  lemma ClearedLevel(heads: seq<Option<nat>>, counts: seq<nat>, store: map<nat, Stored>, chains: seq<seq<nat>>,
                     l: nat, m: nat, w: string)
    requires LevelsHold(heads, counts, store, chains) && l < TP_MAX_LEVELS && m < TP_MAX_LEVELS
    ensures |chains| == TP_MAX_LEVELS
    ensures var store', chain := store - (set b | b in chains[l]), chains[l := []][m];
            ChainMeaning(store', w)(chain) == ChainMeaning(store, w)(chain)
  {
    hide ChainMeaning, Linked;
    InStore(heads, counts, store, chains, m);
    assert m != l ==> forall b :: b in chains[m] ==> b !in chains[l];
    SameMeaning(store, store - (set b | b in chains[l]), chains[l := []][m], w);
  }

  lemma MergedRows(segs: seq<SegmentData>, m: SegmentData)
    requires IsCompaction(segs, m) && DisjointDocs(TablesOf(segs))
    ensures Distinct(m.docs.ctids)
    ensures forall c :: c in RowSet(m) <==> exists i :: 0 <= i < |segs| && c in RowSet(segs[i])
  {
    hide Meaning;
    var tables := TablesOf(segs);
    var oldToNew :| DocsMerged(tables, m.docs, oldToNew);
    hide IsCompaction, DocsOrdered;
    forall n, k | 0 <= n < k < |m.docs.ctids|
      ensures m.docs.ctids[n] != m.docs.ctids[k]
    {
      assert Reached(tables, oldToNew, n) && Reached(tables, oldToNew, k);
      var r :| IsDoc(tables, r) && NewId(oldToNew, r) == n;
      var q :| IsDoc(tables, q) && NewId(oldToNew, q) == k;
      assert DocKept(tables, r, m.docs, n) && DocKept(tables, q, m.docs, k);
    }
    forall c
      ensures c in RowSet(m) <==> exists i :: 0 <= i < |segs| && c in RowSet(segs[i])
    {
      RowOfMerged(segs, m, oldToNew, c);
    }
  }

  lemma RowOfMerged(segs: seq<SegmentData>, m: SegmentData, oldToNew: seq<seq<nat>>, c: ItemPointer)
    requires DocsMerged(TablesOf(segs), m.docs, oldToNew)
    ensures c in RowSet(m) <==> exists i :: 0 <= i < |segs| && c in RowSet(segs[i])
  {
    hide DocsOrdered, ValidDocs;
    var tables := TablesOf(segs);
    if c in RowSet(m) {
      var n :| 0 <= n < |m.docs.ctids| && m.docs.ctids[n] == c;
      assert Reached(tables, oldToNew, n);
      var r :| IsDoc(tables, r) && NewId(oldToNew, r) == n;
      assert DocKept(tables, r, m.docs, n) && segs[r.source].docs.ctids[r.id] == c;
      assert c in RowSet(segs[r.source]);
    }
    if i :| 0 <= i < |segs| && c in RowSet(segs[i]) {
      var d: nat :| d < |segs[i].docs.ctids| && segs[i].docs.ctids[d] == c;
      var r := DocRef(i, d);
      assert IsDoc(tables, r) && DocKept(tables, r, m.docs, NewId(oldToNew, r));
      assert m.docs.ctids[NewId(oldToNew, r)] == c;
    }
  }

  /** The segments of one chain are disjoint, as compaction requires. */
  lemma ChainIsDisjoint(store: map<nat, Stored>, chain: seq<nat>)
    requires RowsDisjoint(store) && Distinct(chain) && forall b :: b in chain ==> b in store
    ensures ValidSegments(DataOf(store, chain)) && DisjointDocs(TablesOf(DataOf(store, chain)))
  {
    hide ValidSegment;
    var segs := DataOf(store, chain);
    assert forall k :: 0 <= k < |chain| ==> chain[k] in chain;
    forall r, q | IsDoc(TablesOf(segs), r) && IsDoc(TablesOf(segs), q) &&
        CtidAt(TablesOf(segs), r) == CtidAt(TablesOf(segs), q)
      ensures r == q
    {
      var a, b := chain[r.source], chain[q.source];
      assert a in store && b in store;
      assert segs[r.source].docs.ctids[r.id] in RowSet(store[a].data);
      assert segs[q.source].docs.ctids[q.id] in RowSet(store[b].data);
      assert a == b && r.source == q.source;
    }
  }

  lemma RowsAfterLink(store: map<nat, Stored>, b: nat, s: Stored)
    requires RowsDisjoint(store) && b !in store && ValidSegment(s.data) && Distinct(s.data.docs.ctids)
    requires RowSet(s.data) !! IndexRows(store)
    ensures RowsDisjoint(store[b := s]) && IndexRows(store[b := s]) == IndexRows(store) + RowSet(s.data)
  {
    hide ValidSegment;
    var store' := store[b := s];
    forall x | x in store
      ensures RowSet(store[x].data) !! RowSet(s.data)
    {
      assert forall c :: c in RowSet(store[x].data) ==> c in IndexRows(store);
    }
    forall c
      ensures c in IndexRows(store') <==> c in IndexRows(store) || c in RowSet(s.data)
    {
      if c in RowSet(s.data) { assert b in store' && c in RowSet(store'[b].data); }
      if c in IndexRows(store) {
        var x :| x in store && c in RowSet(store[x].data);
        assert x in store' && c in RowSet(store'[x].data);
      }
    }
  }

  /** The rows of the segments in a chain. */
  ghost function ChainRows(store: map<nat, Stored>, chain: seq<nat>): set<ItemPointer> {
    set b, c | b in chain && b in store && c in RowSet(store[b].data) :: c
  }

  lemma RowsAfterClear(store: map<nat, Stored>, chain: seq<nat>)
    requires RowsDisjoint(store) && forall b :: b in chain ==> b in store
    ensures var store' := store - (set b | b in chain);
            && RowsDisjoint(store') && IndexRows(store') !! ChainRows(store, chain)
            && IndexRows(store') + ChainRows(store, chain) == IndexRows(store)
  {
    hide ValidSegment;
    var store' := store - (set b | b in chain);
    forall c
      ensures c in IndexRows(store) <==> c in IndexRows(store') || c in ChainRows(store, chain)
    {
      if c in IndexRows(store) {
        var x :| x in store && c in RowSet(store[x].data);
        if x !in chain { assert x in store' && c in RowSet(store'[x].data); }
      }
      if c in IndexRows(store') {
        var x :| x in store' && c in RowSet(store'[x].data);
        assert x in store && c in RowSet(store[x].data);
      }
    }
    forall c | c in IndexRows(store')
      ensures c !in ChainRows(store, chain)
    {
      var x :| x in store' && c in RowSet(store'[x].data);
      forall y | y in chain && y in store
        ensures c !in RowSet(store[y].data)
      {
        assert x in store && x != y;
      }
    }
  }

  lemma RowsOfChain(store: map<nat, Stored>, chain: seq<nat>, m: SegmentData)
    requires forall b :: b in chain ==> b in store
    requires forall c :: c in RowSet(m) <==>
               exists i :: 0 <= i < |DataOf(store, chain)| && c in RowSet(DataOf(store, chain)[i])
    ensures RowSet(m) == ChainRows(store, chain)
  {
    forall c
      ensures c in RowSet(m) <==> c in ChainRows(store, chain)
    {
      if c in RowSet(m) {
        var i :| 0 <= i < |DataOf(store, chain)| && c in RowSet(DataOf(store, chain)[i]);
        assert chain[i] in chain && c in RowSet(store[chain[i]].data);
      }
      if c in ChainRows(store, chain) {
        var b :| b in chain && b in store && c in RowSet(store[b].data);
        var i :| 0 <= i < |chain| && chain[i] == b;
        assert c in RowSet(DataOf(store, chain)[i]);
      }
    }
  }

  // ---------- there is room in one segment ----------

  lemma {:induction false} DistinctCard(s: seq<ItemPointer>)
    requires Distinct(s)
    ensures |set c | c in s| == |s|
  {
    if s != [] {
      var n := |s| - 1;
      DistinctCard(s[..n]);
      assert s == s[..n] + [s[n]];
      assert (set c | c in s) == (set c | c in s[..n]) + {s[n]};
      assert s[n] !in s[..n];
    }
  }

  lemma RowsStep(store: map<nat, Stored>, before: seq<nat>, b: nat)
    requires RowsDisjoint(store) && b in store && b !in before
    ensures ChainRows(store, before + [b]) == ChainRows(store, before) + RowSet(store[b].data)
    ensures ChainRows(store, before) !! RowSet(store[b].data)
  {
    hide ValidSegment, Distinct;
    forall c | c in ChainRows(store, before)
      ensures c !in RowSet(store[b].data)
    {
      var a :| a in before && a in store && c in RowSet(store[a].data);
      assert a != b;
    }
  }

  lemma DisjointCard<T>(a: set<T>, b: set<T>)
    requires a !! b
    ensures |a + b| == |a| + |b|
  {
  }

  lemma {:induction false} TotalIsRows(store: map<nat, Stored>, chain: seq<nat>, n: nat)
    requires RowsDisjoint(store) && Distinct(chain) && n <= |chain| && forall b :: b in chain ==> b in store
    ensures TotalDocs(TablesOf(DataOf(store, chain)), n) == |ChainRows(store, chain[..n])|
  {
    hide ChainRows, RowSet, TotalDocs, RowsDisjoint;
    if n == 0 {
      NoRows(store, chain[..0]);
      NoDocs(TablesOf(DataOf(store, chain)));
    } else {
      TotalIsRows(store, chain, n - 1);
      var b, before := chain[n - 1], chain[..n - 1];
      assert b in chain && b !in before;
      assert chain[..n] == before + [b];
      RowsStep(store, before, b);
      RowCount(store, b);
      TotalStep(store, chain, n - 1);
      DisjointCard(ChainRows(store, before), RowSet(store[b].data));
    }
  }

  lemma NoDocs(tables: seq<DocTable>)
    ensures TotalDocs(tables, 0) == 0
  {
  }

  lemma TotalStep(store: map<nat, Stored>, chain: seq<nat>, n: nat)
    requires n < |chain| && forall b :: b in chain ==> b in store
    ensures chain[n] in store
    ensures TotalDocs(TablesOf(DataOf(store, chain)), n + 1) ==
            TotalDocs(TablesOf(DataOf(store, chain)), n) + |store[chain[n]].data.docs.ctids|
    ensures TotalDocs(TablesOf(DataOf(store, chain)), 0) == 0
  {
  }

  lemma NoRows(store: map<nat, Stored>, chain: seq<nat>)
    requires chain == []
    ensures ChainRows(store, chain) == {}
  {
  }

  lemma RowCount(store: map<nat, Stored>, b: nat)
    requires RowsDisjoint(store) && b in store
    ensures |RowSet(store[b].data)| == |store[b].data.docs.ctids|
  {
    DistinctCard(store[b].data.docs.ctids);
  }

  lemma {:induction false} SubsetCard<T>(a: set<T>, b: set<T>)
    requires a <= b
    ensures |a| <= |b|
  {
    assert a + (b - a) == b;
  }

  // ---------- states and steps ----------

  /** The metapage's level arrays, the segments on disk, and the chains they form. */
  datatype State = State(heads: seq<Option<nat>>, counts: seq<nat>, store: map<nat, Stored>, nextBlock: nat,
                         chains: seq<seq<nat>>)

  ghost predicate Sound(s: State) {
    && LevelsHold(s.heads, s.counts, s.store, s.chains) && RowsDisjoint(s.store)
    && forall b :: b in s.store ==> b < s.nextBlock
  }

  ghost function Rows(s: State): set<ItemPointer> {
    IndexRows(s.store)
  }

  ghost function Means(s: State, w: string): multiset<Occurrence> {
    IndexMeaning(s.store, s.chains, w)
  }

  /** A new segment at the head of level l. */
  ghost function AfterLink(s: State, l: nat, data: SegmentData): State
    requires l < |s.heads| && l < |s.counts| && l < |s.chains|
  {
    State(s.heads[l := Some(s.nextBlock)], s.counts[l := (s.counts[l] + 1) % 0x1_0000],
          s.store[s.nextBlock := Stored(s.heads[l], data)], s.nextBlock + 1, s.chains[l := [s.nextBlock] + s.chains[l]])
  }

  /** Level l forgotten and its segments freed. */
  ghost function AfterClear(s: State, l: nat): State
    requires l < |s.heads| && l < |s.counts| && l < |s.chains|
  {
    State(s.heads[l := None], s.counts[l := 0], s.store - (set b | b in s.chains[l]), s.nextBlock, s.chains[l := []])
  }

  lemma Sizes(s: State)
    requires Sound(s)
    ensures |s.heads| == |s.counts| == |s.chains| == TP_MAX_LEVELS
    ensures forall l :: 0 <= l < TP_MAX_LEVELS ==> s.counts[l] == |s.chains[l]| % 0x1_0000
  {
  }

  lemma LinkIsSound(s: State, l: nat, data: SegmentData)
    requires Sound(s) && l < TP_MAX_LEVELS && ValidSegment(data) && Distinct(data.docs.ctids)
    requires RowSet(data) !! Rows(s) && |s.heads| == |s.counts| == |s.chains| == TP_MAX_LEVELS
    ensures Sound(AfterLink(s, l, data)) && Rows(AfterLink(s, l, data)) == Rows(s) + RowSet(data)
  {
    hide LevelsHold, RowsDisjoint, ValidSegment, Distinct;
    LinkHead(s.heads, s.counts, s.store, s.chains, l, s.nextBlock, data);
    RowsAfterLink(s.store, s.nextBlock, Stored(s.heads[l], data));
  }

  lemma LinkMeans(s: State, l: nat, data: SegmentData, w: string)
    requires Sound(s) && l < TP_MAX_LEVELS && |s.heads| == |s.counts| == |s.chains| == TP_MAX_LEVELS
    ensures Means(AfterLink(s, l, data), w) == Means(s, w) + Meaning(data, w)
  {
    hide LevelsHold, RowsDisjoint, IndexMeaning, Meaning;
    MeaningAfterLink(s.heads, s.counts, s.store, s.chains, l, s.nextBlock, data, w);
  }

  lemma ClearIsSound(s: State, l: nat)
    requires Sound(s) && l < TP_MAX_LEVELS && |s.heads| == |s.counts| == |s.chains| == TP_MAX_LEVELS
    ensures Sound(AfterClear(s, l)) && Rows(AfterClear(s, l)) !! ChainRows(s.store, s.chains[l])
    ensures Rows(AfterClear(s, l)) + ChainRows(s.store, s.chains[l]) == Rows(s)
  {
    hide LevelsHold, RowsDisjoint, ChainRows, IndexRows;
    ClearLevel(s.heads, s.counts, s.store, s.chains, l);
    InStore(s.heads, s.counts, s.store, s.chains, l);
    RowsAfterClear(s.store, s.chains[l]);
  }

  lemma ClearMeans(s: State, l: nat, w: string)
    requires Sound(s) && l < TP_MAX_LEVELS && |s.heads| == |s.counts| == |s.chains| == TP_MAX_LEVELS
    ensures Means(AfterClear(s, l), w) + ChainMeaning(s.store, w)(s.chains[l]) == Means(s, w)
  {
    hide LevelsHold, RowsDisjoint, IndexMeaning, ChainMeaning;
    MeaningAfterClear(s.heads, s.counts, s.store, s.chains, l, w);
  }

  /** The segments of level l. */
  ghost function LevelData(s: State, l: nat): seq<SegmentData>
    requires l < |s.chains|
  {
    SafeData(s.store, s.chains[l])
  }

  lemma LevelIsDisjoint(s: State, l: nat)
    requires Sound(s) && l < |s.chains|
    ensures forall b :: b in s.chains[l] ==> b in s.store
    ensures LevelData(s, l) == DataOf(s.store, s.chains[l]) && |LevelData(s, l)| == |s.chains[l]|
    ensures ValidSegments(LevelData(s, l)) && DisjointDocs(TablesOf(LevelData(s, l)))
    ensures TotalDocs(TablesOf(LevelData(s, l)), |LevelData(s, l)|) <= |Rows(s)|
  {
    hide LevelsHold, RowsDisjoint, IndexRows, ChainRows, ValidSegments, DisjointDocs, Distinct, TotalDocs, RowSet, DataOf;
    ChainOf(s, l);
    DataLength(s.store, s.chains[l]);
    ChainIsDisjoint(s.store, s.chains[l]);
    TotalIsRows(s.store, s.chains[l], |s.chains[l]|);
    assert s.chains[l][..|s.chains[l]|] == s.chains[l];
    ChainRowsWithin(s.store, s.chains[l]);
    SubsetCard(ChainRows(s.store, s.chains[l]), IndexRows(s.store));
  }

  /** What soundness says about one chain. */
  lemma ChainOf(s: State, l: nat)
    requires Sound(s) && l < |s.chains|
    ensures |s.heads| == |s.counts| == |s.chains| == TP_MAX_LEVELS && Distinct(s.chains[l])
    ensures forall b :: b in s.chains[l] ==> b in s.store
    ensures LevelData(s, l) == DataOf(s.store, s.chains[l])
    ensures Linked(s.store, s.heads[l], s.chains[l]) && s.counts[l] == |s.chains[l]| % 0x1_0000
  {
    hide RowsDisjoint, Linked, DataOf;
    InStore(s.heads, s.counts, s.store, s.chains, l);
  }

  lemma DataLength(store: map<nat, Stored>, chain: seq<nat>)
    requires forall b :: b in chain ==> b in store
    ensures |DataOf(store, chain)| == |chain|
  {
  }

  lemma ChainRowsWithin(store: map<nat, Stored>, chain: seq<nat>)
    ensures ChainRows(store, chain) <= IndexRows(store)
  {
  }

  /** Compacting level l: its segments are replaced by one at the head of level l + 1. */
  ghost function AfterMerge(s: State, l: nat, merged: SegmentData): State
    requires |s.heads| == |s.counts| == |s.chains| == TP_MAX_LEVELS && l + 1 < TP_MAX_LEVELS
  {
    AfterLink(AfterClear(s, l), l + 1, merged)
  }

  /** Compaction changes neither the rows of the index nor what any term means. */
  lemma MergeKeepsIndex(s: State, l: nat, merged: SegmentData)
    requires Sound(s) && l + 1 < TP_MAX_LEVELS && |s.heads| == |s.counts| == |s.chains| == TP_MAX_LEVELS
    requires ValidSegment(merged) && IsCompaction(LevelData(s, l), merged)
    ensures Sound(AfterMerge(s, l, merged)) && Rows(AfterMerge(s, l, merged)) == Rows(s)
    ensures forall w :: Means(AfterMerge(s, l, merged), w) == Means(s, w)
  {
    LevelIsDisjoint(s, l);
    MergedRows(LevelData(s, l), merged);
    RowsOfLevel(s, l, merged);
    ClearIsSound(s, l);
    LinkIsSound(AfterClear(s, l), l + 1, merged);
    forall w
      ensures Means(AfterMerge(s, l, merged), w) == Means(s, w)
    {
      MergeMeans(s, l, merged, w);
    }
  }

  lemma RowsOfLevel(s: State, l: nat, merged: SegmentData)
    requires Sound(s) && l < |s.chains| && LevelData(s, l) == DataOf(s.store, s.chains[l])
    requires forall c :: c in RowSet(merged) <==>
               exists i :: 0 <= i < |LevelData(s, l)| && c in RowSet(LevelData(s, l)[i])
    ensures RowSet(merged) == ChainRows(s.store, s.chains[l])
  {
    InStore(s.heads, s.counts, s.store, s.chains, l);
    RowsOfChain(s.store, s.chains[l], merged);
  }

  lemma MergeMeans(s: State, l: nat, merged: SegmentData, w: string)
    requires Sound(s) && Sound(Cleared(s, l)) && l + 1 < TP_MAX_LEVELS
    requires |s.heads| == |s.counts| == |s.chains| == TP_MAX_LEVELS && IsCompaction(LevelData(s, l), merged)
    ensures Means(AfterMerge(s, l, merged), w) == Means(s, w)
  {
    ClearMeans(s, l, w);
    LinkMeans(AfterClear(s, l), l + 1, merged, w);
    hide Sound, IsCompaction, Means, Meaning;
    CompactionMeaning(LevelData(s, l), merged, w);
  }

  ghost function Cleared(s: State, l: nat): State {
    if l < |s.heads| && l < |s.counts| && l < |s.chains| then AfterClear(s, l) else s
  }

  lemma CompactionMeaning(segs: seq<SegmentData>, merged: SegmentData, w: string)
    requires IsCompaction(segs, merged)
    ensures Meaning(merged, w) == UnionOver(segs, MeaningOf(w))
  {
  }

  // ---------- the counter of levels ----------

  lemma LinkLengths(s: State, l: nat, data: SegmentData)
    requires |s.heads| == |s.counts| == |s.chains| == TP_MAX_LEVELS && l < TP_MAX_LEVELS
    ensures Lengths(AfterLink(s, l, data).chains) == Lengths(s.chains)[l := |s.chains[l]| + 1]
  {
  }

  lemma MergeLengths(s: State, l: nat, merged: SegmentData)
    requires |s.heads| == |s.counts| == |s.chains| == TP_MAX_LEVELS && l + 1 < TP_MAX_LEVELS
    ensures Lengths(AfterMerge(s, l, merged).chains) == Lengths(s.chains)[l := 0][l + 1 := |s.chains[l + 1]| + 1]
  {
  }

  /** Sound, and the levels spell the number of spills in base B. */
  ghost predicate Counts(s: State, base: nat, spills: nat) {
    2 <= base <= 64 && Sound(s) && |Rows(s)| < UINT32_MAX && Counter(Lengths(s.chains), base) == spills
  }

  /** Every level below the last holds fewer than B segments, except that level l may hold exactly B. */
  ghost predicate SizesBut(s: State, base: nat, l: nat) {
    && |s.chains| == TP_MAX_LEVELS
    && forall m :: 0 <= m < TP_MAX_LEVELS - 1 ==> |s.chains[m]| < base || (m == l && |s.chains[m]| == base)
  }

  /** The index holds the same rows and every term means the same. */
  ghost predicate SameIndex(s: State, t: State) {
    Rows(t) == Rows(s) && forall w :: Means(t, w) == Means(s, w)
  }

  /** The index holds one segment's rows and meaning more. */
  ghost predicate GrownBy(s: State, t: State, data: SegmentData) {
    Rows(t) == Rows(s) + RowSet(data) && forall w :: Means(t, w) == Means(s, w) + Meaning(data, w)
  }

  lemma SameAfterSame(s: State, t: State, u: State)
    requires SameIndex(s, t) && SameIndex(t, u)
    ensures SameIndex(s, u)
  {
  }

  lemma SameAfterGrown(s: State, t: State, u: State, data: SegmentData)
    requires GrownBy(s, t, data) && SameIndex(t, u)
    ensures GrownBy(s, u, data)
  {
  }

  // ---------- the index ----------

  class LsmIndex {
    const segmentsPerLevel: nat
    var levelHeads: seq<Option<nat>>
    var levelCounts: seq<nat>
    var store: map<nat, Stored>
    var nextBlock: nat
    ghost var chains: seq<seq<nat>>
    ghost var spills: nat

    ghost function Now(): State
      reads this
    {
      State(levelHeads, levelCounts, store, nextBlock, chains)
    }

    ghost predicate Valid()
      reads this
    {
      Counts(Now(), segmentsPerLevel, spills) && SizesBut(Now(), segmentsPerLevel, TP_MAX_LEVELS)
    }

    constructor (segmentsPerLevel: nat)
      requires 2 <= segmentsPerLevel <= 64
      ensures Valid() && spills == 0 && Rows(Now()) == {} && this.segmentsPerLevel == segmentsPerLevel
      ensures forall w :: Means(Now(), w) == multiset{}
    {
      this.segmentsPerLevel := segmentsPerLevel;
      levelHeads := seq(TP_MAX_LEVELS, _ => None);
      levelCounts := seq(TP_MAX_LEVELS, _ => 0);
      store, nextBlock := map[], 1;
      chains, spills := seq(TP_MAX_LEVELS, _ => []), 0;
      new;
      EmptyIndex(Now(), segmentsPerLevel);
    }

    /** A new segment becomes the head of a level. */
    method LinkAtHead(l: nat, data: SegmentData)
      requires |levelHeads| == |levelCounts| == |chains| == TP_MAX_LEVELS && l < TP_MAX_LEVELS
      modifies `levelHeads, `levelCounts, `store, `nextBlock, `chains
      ensures Now() == AfterLink(old(Now()), l, data)
    {
      var b := nextBlock;
      nextBlock := nextBlock + 1;
      store := store[b := Stored(levelHeads[l], data)];
      levelHeads := levelHeads[l := Some(b)];
      levelCounts := levelCounts[l := (levelCounts[l] + 1) % 0x1_0000];
      chains := chains[l := [b] + chains[l]];
    }

    /** Open the segments of a level, following next_segment, at most `count` of them. */
    method OpenChain(l: nat) returns (blocks: seq<nat>, segs: seq<SegmentData>)
      requires l < TP_MAX_LEVELS && Sound(Now()) && |chains| == TP_MAX_LEVELS && |chains[l]| < 0x1_0000
      ensures blocks == chains[l] && segs == LevelData(Now(), l)
    {
      hide Sound, Linked, LevelData, DataOf;
      ChainOf(Now(), l);
      blocks, segs := FollowChain(levelHeads[l], levelCounts[l], chains[l]);
    }

    method FollowChain(head: Option<nat>, segmentCount: nat, ghost chain: seq<nat>)
      returns (blocks: seq<nat>, segs: seq<SegmentData>)
      requires Linked(store, head, chain) && segmentCount == |chain| && forall b :: b in chain ==> b in store
      ensures blocks == chain && segs == DataOf(store, chain)
    {
      blocks, segs := [], [];
      var current := head;
      assert chain[0..] == chain;
      while current.Some? && |segs| < segmentCount
        invariant |blocks| <= |chain| && Linked(store, current, chain[|blocks|..])
        invariant blocks == chain[..|blocks|] && |segs| == |blocks|
        invariant forall k :: 0 <= k < |segs| ==> chain[k] in store && segs[k] == store[chain[k]].data
        decreases |chain| - |blocks|
      {
        ghost var i := |blocks|;
        assert chain[i] in chain && chain[i..][1..] == chain[i + 1..];
        blocks, segs := blocks + [current.value], segs + [store[current.value].data];
        current := store[current.value].next;
      }
      assert chain[..|chain|] == chain;
    }

    /**
     * tp_merge_level_segments. False when nothing was merged: the last level, or an empty one.
     */
    method MergeLevel(level: nat) returns (merged: bool)
      requires Sound(Now()) && |Rows(Now())| < UINT32_MAX && level < TP_MAX_LEVELS
      requires |chains| == TP_MAX_LEVELS && |chains[level]| < 0x1_0000
      modifies `levelHeads, `levelCounts, `store, `nextBlock, `chains
      ensures merged <==> level + 1 < TP_MAX_LEVELS && old(chains[level]) != []
      ensures !merged ==> Now() == old(Now())
      ensures merged ==> exists m :: ValidSegment(m) && IsCompaction(LevelData(old(Now()), level), m)
                                     && |old(levelHeads)| == |old(levelCounts)| == TP_MAX_LEVELS
                                     && Now() == AfterMerge(old(Now()), level, m)
    {
      if level >= TP_MAX_LEVELS - 1 { return false; }
      hide Sound, ValidSegment, ValidSegments, IsCompaction, AfterMerge, Rows, Counter, LevelData, DisjointDocs,
          TotalDocs;
      Sizes(Now());
      LevelIsDisjoint(Now(), level);
      var blocks, segs := OpenChain(level);
      if |segs| == 0 { return false; }
      var data := MergeSegments(segs);
      Replace(level, blocks, data.value);
      return true;
    }

    /** The metapage update: clear the source level, link the new segment into the target level. */
    method Replace(level: nat, blocks: seq<nat>, data: SegmentData)
      requires |levelHeads| == |levelCounts| == |chains| == TP_MAX_LEVELS && level + 1 < TP_MAX_LEVELS
      requires blocks == chains[level]
      modifies `levelHeads, `levelCounts, `store, `nextBlock, `chains
      ensures |old(levelHeads)| == |old(levelCounts)| == |old(chains)| == TP_MAX_LEVELS
      ensures Now() == AfterMerge(old(Now()), level, data)
    {
      ghost var before := Now();
      store := store - (set b | b in blocks);
      levelHeads, levelCounts := levelHeads[level := None], levelCounts[level := 0];
      chains := chains[level := []];
      assert Now() == AfterClear(before, level);
      hide AfterLink, AfterClear;
      LinkAtHead(level + 1, data);
    }

    /**
     * tp_maybe_compact_level: merge a full level into the next one, and go on there. What the
     * index holds and means stays the same, and so does the number its levels spell.
     */
    method MaybeCompactLevel(level: nat)
      requires Counts(Now(), segmentsPerLevel, spills) && level < TP_MAX_LEVELS &&
               SizesBut(Now(), segmentsPerLevel, level)
      modifies `levelHeads, `levelCounts, `store, `nextBlock, `chains
      ensures Valid() && SameIndex(old(Now()), Now())
      decreases TP_MAX_LEVELS - level
    {
      hide Counts, SizesBut, SameIndex, AfterMerge, IsCompaction, ValidSegment, LevelData, Sound, Rows;
      ghost var before := Now();
      LevelFacts(before, segmentsPerLevel, spills, level);
      if level >= TP_MAX_LEVELS - 1 { return; }
      var levelCount := levelCounts[level];
      if levelCount < segmentsPerLevel { return; }
      var merged := MergeLevel(level);
      AfterCompaction(before, Now(), level, segmentsPerLevel, spills);
      ghost var mid := Now();
      MaybeCompactLevel(level + 1);
      SameAfterSame(before, mid, Now());
    }

    /** A memtable written out as a segment, linked at the head of level 0, and compaction triggered. */
    method Spill(data: SegmentData)
      requires Valid() && ValidSegment(data) && Distinct(data.docs.ctids)
      requires RowSet(data) !! Rows(Now()) && |Rows(Now()) + RowSet(data)| < UINT32_MAX
      modifies this
      ensures Valid() && spills == old(spills) + 1 && GrownBy(old(Now()), Now(), data)
    {
      hide Counts, SizesBut, SameIndex, GrownBy, Rows, RowSet, ValidSegment, Distinct, AfterLink;
      ghost var before := Now();
      LevelFacts(before, segmentsPerLevel, spills, TP_MAX_LEVELS - 1);
      AfterSpill(before, data, segmentsPerLevel, spills);
      LinkAtHead(0, data);
      spills := spills + 1;
      ghost var mid := Now();
      MaybeCompactLevel(0);
      SameAfterGrown(before, mid, Now(), data);
    }
  }

  lemma LevelFacts(s: State, base: nat, spills: nat, level: nat)
    requires Counts(s, base, spills) && level < TP_MAX_LEVELS
    ensures Sound(s) && |Rows(s)| < UINT32_MAX && |s.heads| == |s.counts| == |s.chains| == TP_MAX_LEVELS
    ensures SizesBut(s, base, level) && level < TP_MAX_LEVELS - 1 ==>
              |s.chains[level]| <= base <= 64 && s.counts[level] == |s.chains[level]| && 2 <= base
    ensures SizesBut(s, base, TP_MAX_LEVELS - 1) ==> SizesBut(s, base, TP_MAX_LEVELS)
    ensures SizesBut(s, base, level) && level < TP_MAX_LEVELS - 1 && s.counts[level] < base ==>
              SizesBut(s, base, TP_MAX_LEVELS)
    ensures SameIndex(s, s)
  {
    hide Rows, Means, Counter, Sound, Lengths;
    Sizes(s);
  }

  lemma AfterCompaction(s: State, t: State, level: nat, base: nat, spills: nat)
    requires Counts(s, base, spills) && SizesBut(s, base, level) && level + 1 < TP_MAX_LEVELS
    requires |s.heads| == |s.counts| == |s.chains| == TP_MAX_LEVELS && |s.chains[level]| == base
    requires exists m :: ValidSegment(m) && IsCompaction(LevelData(s, level), m) && t == AfterMerge(s, level, m)
    ensures Counts(t, base, spills) && SizesBut(t, base, level + 1) && SameIndex(s, t)
  {
    hide Sound, Rows, Means, Counter, LevelData, ValidSegment, IsCompaction;
    var m :| ValidSegment(m) && IsCompaction(LevelData(s, level), m) && t == AfterMerge(s, level, m);
    MergeKeepsIndex(s, level, m);
    MergeLengths(s, level, m);
    CounterCarry(Lengths(s.chains), level, base);
    SizesAfterMerge(s, t, level, base);
  }

  lemma SizesAfterMerge(s: State, t: State, level: nat, base: nat)
    requires SizesBut(s, base, level) && level + 1 < TP_MAX_LEVELS && 0 < base
    requires |s.chains| == TP_MAX_LEVELS &&
             Lengths(t.chains) == Lengths(s.chains)[level := 0][level + 1 := |s.chains[level + 1]| + 1]
    ensures SizesBut(t, base, level + 1)
  {
    assert |t.chains| == |Lengths(t.chains)| == TP_MAX_LEVELS;
    forall m | 0 <= m < TP_MAX_LEVELS - 1
      ensures |t.chains[m]| < base || (m == level + 1 && |t.chains[m]| == base)
    {
      assert |t.chains[m]| == Lengths(t.chains)[m];
      assert Lengths(s.chains)[m] == |s.chains[m]|;
    }
  }

  lemma AfterSpill(s: State, data: SegmentData, base: nat, spills: nat)
    requires Counts(s, base, spills) && SizesBut(s, base, TP_MAX_LEVELS)
    requires |s.heads| == |s.counts| == |s.chains| == TP_MAX_LEVELS
    requires ValidSegment(data) && Distinct(data.docs.ctids) && RowSet(data) !! Rows(s)
    requires |Rows(s) + RowSet(data)| < UINT32_MAX
    ensures var t := AfterLink(s, 0, data);
            Counts(t, base, spills + 1) && SizesBut(t, base, 0) && GrownBy(s, t, data)
  {
    hide Sound, Rows, RowSet, Means, Counter, ValidSegment, Distinct, Meaning;
    LinkIsSound(s, 0, data);
    forall w
      ensures Means(AfterLink(s, 0, data), w) == Means(s, w) + Meaning(data, w)
    {
      LinkMeans(s, 0, data, w);
    }
    LinkLengths(s, 0, data);
    CounterAdd(Lengths(s.chains), base);
  }

  // ---------- the stored counts ----------

  lemma {:induction false} LastDigitCounts(digits: seq<nat>, x: nat, base: nat)
    requires digits != [] && 0 < base && x < digits[|digits| - 1]
    ensures Counter(digits[|digits| - 1 := x], base) < Counter(digits, base)
  {
    if |digits| > 1 {
      var rest := digits[1..];
      assert digits[|digits| - 1 := x][1..] == rest[|rest| - 1 := x];
      LastDigitCounts(rest, x, base);
      MulLe(Counter(rest[|rest| - 1 := x], base) + 1, Counter(rest, base), base);
      Distribute(base, Counter(rest[|rest| - 1 := x], base));
    } else {
      assert digits[0 := x][1..] == digits[1..];
    }
  }

  /** Counts stored in 16 bits spell the same number exactly while the last one fits. */
  lemma StoredCounts(lengths: seq<nat>, counts: seq<nat>, base: nat)
    requires |lengths| == |counts| == TP_MAX_LEVELS && 0 < base <= 64
    requires forall l :: 0 <= l < TP_MAX_LEVELS ==> counts[l] == lengths[l] % 0x1_0000
    requires forall l :: 0 <= l < TP_MAX_LEVELS - 1 ==> lengths[l] < base
    ensures Counter(counts, base) == Counter(lengths, base) <==> lengths[TP_MAX_LEVELS - 1] < 0x1_0000
  {
    hide Counter;
    var last := TP_MAX_LEVELS - 1;
    assert counts == lengths[last := lengths[last] % 0x1_0000];
    if lengths[last] < 0x1_0000 {
      assert counts == lengths;
    } else {
      LastDigitCounts(lengths, lengths[last] % 0x1_0000, base);
    }
  }

  /**
   * The counts in the metapage are 16 bits wide, and the last level is never merged: they spell
   * the number of spills exactly as long as there were fewer than 65536 * B^7 of them.
   */
  lemma CountsSpellSpillsIff(s: State, base: nat, spills: nat)
    requires Counts(s, base, spills) && SizesBut(s, base, TP_MAX_LEVELS)
    ensures Counter(s.counts, base) == spills <==> spills < 0x1_0000 * Pow(base, TP_MAX_LEVELS - 1)
  {
    hide Counter, Pow, Rows;
    Sizes(s);
    hide Sound;
    StoredCounts(Lengths(s.chains), s.counts, base);
    LastDigit(Lengths(s.chains), base, 0x1_0000);
  }

  /** The rows of the first n of a sequence of segments. */
  ghost function RowsOf(segs: seq<SegmentData>, n: nat): set<ItemPointer>
    requires n <= |segs|
  {
    if n == 0 then {} else RowsOf(segs, n - 1) + RowSet(segs[n - 1])
  }

  /** Batch i can be spilled after the ones before it: it is a valid segment of new rows. */
  ghost predicate SpillableAt(batches: seq<SegmentData>, i: nat)
    requires i < |batches|
  {
    && ValidSegment(batches[i]) && Distinct(batches[i].docs.ctids)
    && RowSet(batches[i]) !! RowsOf(batches, i) && |RowsOf(batches, i + 1)| < UINT32_MAX
  }

  /** The index holds and means exactly the first n batches. */
  ghost predicate HoldsBatches(s: State, batches: seq<SegmentData>, n: nat)
    requires n <= |batches|
  {
    Rows(s) == RowsOf(batches, n) && forall w :: Means(s, w) == UnionOver(batches[..n], MeaningOf(w))
  }

  lemma HoldsNext(s: State, t: State, batches: seq<SegmentData>, i: nat)
    requires i < |batches| && HoldsBatches(s, batches, i) && GrownBy(s, t, batches[i])
    ensures HoldsBatches(t, batches, i + 1)
  {
    hide Rows, RowSet, Means, Meaning;
    forall w
      ensures Means(t, w) == UnionOver(batches[..i + 1], MeaningOf(w))
    {
      UnionOneMore(batches, i, MeaningOf(w));
    }
  }

  lemma HoldsNone(s: State, batches: seq<SegmentData>)
    requires Rows(s) == {} && forall w :: Means(s, w) == multiset{}
    ensures HoldsBatches(s, batches, 0)
  {
    hide Rows, Means, Meaning;
    assert batches[..0] == [];
  }

  /**
   * Any run of spills from an empty index, whatever compactions they trigger: the levels count
   * the spills, and the index holds and means exactly what was spilled.
   */
  method SpillAll(batches: seq<SegmentData>, segmentsPerLevel: nat) returns (index: LsmIndex)
    requires 2 <= segmentsPerLevel <= 64 && forall i :: 0 <= i < |batches| ==> SpillableAt(batches, i)
    ensures index.Valid() && index.spills == |batches| && index.segmentsPerLevel == segmentsPerLevel
    ensures HoldsBatches(index.Now(), batches, |batches|)
  {
    hide SpillableAt, HoldsBatches, GrownBy, Counts, SizesBut, Rows, Means, RowSet;
    index := new LsmIndex(segmentsPerLevel);
    HoldsNone(index.Now(), batches);
    var i := 0;
    while i < |batches|
      invariant 0 <= i <= |batches| && fresh(index) && index.Valid() && index.spills == i
      invariant index.segmentsPerLevel == segmentsPerLevel && HoldsBatches(index.Now(), batches, i)
    {
      ghost var before := index.Now();
      NextIsNew(before, batches, i);
      index.Spill(batches[i]);
      HoldsNext(before, index.Now(), batches, i);
      i := i + 1;
    }
  }

  lemma NextIsNew(s: State, batches: seq<SegmentData>, i: nat)
    requires i < |batches| && HoldsBatches(s, batches, i) && SpillableAt(batches, i)
    ensures ValidSegment(batches[i]) && Distinct(batches[i].docs.ctids)
    ensures RowSet(batches[i]) !! Rows(s) && |Rows(s) + RowSet(batches[i])| < UINT32_MAX
  {
    hide Rows, RowSet, Means, ValidSegment;
  }

  lemma EmptyIndex(s: State, base: nat)
    requires |s.heads| == |s.counts| == |s.chains| == TP_MAX_LEVELS && s.store == map[]
    requires forall l :: 0 <= l < TP_MAX_LEVELS ==> s.heads[l] == None && s.counts[l] == 0 && s.chains[l] == []
    ensures Sound(s) && Rows(s) == {} && Counter(Lengths(s.chains), base) == 0
    ensures forall w :: Means(s, w) == multiset{}
  {
    ZeroCounter(Lengths(s.chains), base);
    forall w
      ensures Means(s, w) == multiset{}
    {
      EmptyUnion(s.chains, ChainMeaning(s.store, w));
    }
  }

  lemma {:induction false} ZeroCounter(digits: seq<nat>, base: nat)
    requires forall l :: 0 <= l < |digits| ==> digits[l] == 0
    ensures Counter(digits, base) == 0
  {
    if digits != [] { ZeroCounter(digits[1..], base); }
  }

  lemma LevelCount(heads: seq<Option<nat>>, counts: seq<nat>, store: map<nat, Stored>, chains: seq<seq<nat>>)
    requires LevelsHold(heads, counts, store, chains)
    ensures |heads| == |counts| == |chains| == TP_MAX_LEVELS
    ensures forall l :: 0 <= l < |chains| ==> counts[l] == |chains[l]| % 0x1_0000
  {
  }
}
