/** The bounded min-heap that collects the best scores of a query (src/query/bmw.c, bmw.h). */
module TopK {
  import opened HeapOrder
  import opened ItemPointers
  import opened TopKSpec
  import opened Wrappers

  /** One heap slot: the four parallel arrays read at one index. */
  datatype RawEntry = RawEntry(ctid: ItemPointer, segBlock: nat, docId: nat, score: real)

  /** Memtable entries carry a CTID; segment entries carry (segment, doc id) and no CTID yet. */
  predicate WellFormed(e: RawEntry) {
    if IsValid(e.ctid) then e.segBlock == INVALID_BLOCK_NUMBER && e.docId == 0
    else e.ctid == INVALID_POINTER && e.segBlock < INVALID_BLOCK_NUMBER
  }

  type Entry = e: RawEntry | WellFormed(e) witness RawEntry(INVALID_POINTER, 0, 0, 0.0)

  /** The slot of a segment document. */
  function SlotFor(segBlock: nat, docId: nat, score: real): Entry
    requires segBlock < INVALID_BLOCK_NUMBER
  {
    RawEntry(INVALID_POINTER, segBlock, docId, score)
  }

  /** Is `a` the weaker result? Lower score; then higher CTID, or higher doc id and segment. */
  predicate HeapLess(a: Entry, b: Entry) {
    if a.score < b.score then true
    else if a.score > b.score then false
    else if IsValid(a.ctid) && IsValid(b.ctid) then Before(b.ctid, a.ctid)
    else if a.docId != b.docId then a.docId > b.docId
    else a.segBlock > b.segBlock
  }

  /** A strict total order, although it compares memtable and segment entries by different keys. */
  lemma HeapLessIsStrictTotalOrder(a: Entry, b: Entry, c: Entry)
    ensures !HeapLess(a, a)
    ensures HeapLess(a, b) && HeapLess(b, c) ==> HeapLess(a, c)
    ensures a != b ==> HeapLess(a, b) || HeapLess(b, a)
  {
  }

  lemma HeapLessIsWeakOrder()
    ensures WeakOrder(HeapLess)
  {
  }

  ghost function ScoresOf(s: seq<RawEntry>): seq<real> {
    seq(|s|, i requires 0 <= i < |s| => s[i].score)
  }

  ghost predicate SameContents(s: seq<Entry>, t: seq<Entry>) {
    multiset(s) == multiset(t) && multiset(ScoresOf(s)) == multiset(ScoresOf(t))
  }

  lemma SwapKeepsContents(s: seq<Entry>, i: nat, j: nat)
    requires i < |s| && j < |s|
    ensures SameContents(Swap(s, i, j), s)
  {
    assert ScoresOf(Swap(s, i, j)) == Swap(ScoresOf(s), i, j);
  }

  lemma EntrySiftUp(s: seq<Entry>, i: nat)
    requires 0 < i < |s| && OrderedButForParentOf(s, HeapLess, i) && HeapLess(s[i], s[Parent(i)])
    ensures OrderedButForParentOf(Swap(s, i, Parent(i)), HeapLess, Parent(i))
    ensures SameContents(Swap(s, i, Parent(i)), s)
  {
    HeapLessIsWeakOrder();
    SiftUpStep(s, HeapLess, i);
    SwapKeepsContents(s, i, Parent(i));
  }

  /** `c` is the child of `i` that belongs nearest to the root, and it is weaker than `i`. */
  ghost predicate WeakestChild(s: seq<Entry>, i: nat, c: nat) {
    && 0 < c < |s| && Parent(c) == i && HeapLess(s[c], s[i])
    && forall j :: 0 < j < |s| && Parent(j) == i ==> !HeapLess(s[j], s[c])
  }

  lemma EntrySiftDown(s: seq<Entry>, i: nat, c: nat)
    requires WeakestChild(s, i, c) && OrderedButForChildrenOf(s, HeapLess, i)
    ensures OrderedButForChildrenOf(Swap(s, i, c), HeapLess, c)
    ensures SameContents(Swap(s, i, c), s)
  {
    HeapLessIsWeakOrder();
    SiftDownStep(s, HeapLess, i, c);
    SwapKeepsContents(s, i, c);
  }

  lemma SiftDownDone(s: seq<Entry>, i: nat)
    requires i < |s| && OrderedButForChildrenOf(s, HeapLess, i)
    requires forall j :: 0 < j < |s| && Parent(j) == i ==> !HeapLess(s[j], s[i])
    ensures Ordered(s, HeapLess)
  {
  }

  /** The two comparisons of a sift-down step find the weakest child. */
  lemma ChooseChild(s: seq<Entry>, i: nat, smallest: nat)
    requires i < |s| && (smallest == i || smallest == 2 * i + 1 || smallest == 2 * i + 2) && smallest < |s|
    requires smallest == i ==> 2 * i + 1 < |s| ==> !HeapLess(s[2 * i + 1], s[i])
    requires smallest != 2 * i + 2 ==> 2 * i + 2 < |s| ==> !HeapLess(s[2 * i + 2], s[smallest])
    requires smallest == 2 * i + 1 ==> HeapLess(s[smallest], s[i])
    requires smallest == 2 * i + 2 ==> HeapLess(s[smallest], s[i])
    requires smallest == 2 * i + 2 ==> !HeapLess(s[2 * i + 1], s[smallest])
    ensures smallest != i ==> WeakestChild(s, i, smallest)
    ensures smallest == i ==> forall j :: 0 < j < |s| && Parent(j) == i ==> !HeapLess(s[j], s[i])
  {
    assert forall j :: 0 < j && Parent(j) == i ==> j == 2 * i + 1 || j == 2 * i + 2;
    assert !HeapLess(s[smallest], s[smallest]);
  }

  /** May `e` take the place of the root? A tie is settled only between two entries of one kind. */
  predicate Admits(root: Entry, e: Entry) {
    if e.score != root.score then e.score > root.score
    else if IsValid(e.ctid) && IsValid(root.ctid) then Before(e.ctid, root.ctid)
    else !IsValid(e.ctid) && !IsValid(root.ctid) && e.docId < root.docId
  }

  /**
   * Only a stronger entry is admitted; a stronger one is refused exactly at a tie of a memtable
   * and a segment entry, or of two segments' entries with one doc id.
   */
  lemma AdmitsStronger(root: Entry, e: Entry)
    ensures Admits(root, e) ==> HeapLess(root, e)
    ensures HeapLess(root, e) && !Admits(root, e) <==>
            && e.score == root.score && HeapLess(root, e)
            && (IsValid(e.ctid) != IsValid(root.ctid) || (!IsValid(e.ctid) && e.docId == root.docId))
  {
  }

  ghost function Exchanged(s: seq<Entry>, e: Entry): multiset<Entry>
    requires 0 < |s|
  {
    multiset(s) - multiset{s[0]} + multiset{e}
  }

  /** What one offer does to the held entries: kept, exchanged for the root, or refused. */
  ghost predicate Offered(before: seq<Entry>, e: Entry, after: seq<Entry>, capacity: nat) {
    if |before| < capacity then multiset(after) == multiset(before) + multiset{e}
    else
      && 0 < |before|
      && if Admits(before[0], e) then multiset(after) == Exchanged(before, e) else after == before
  }

  // ---------- ties among entries of one kind ----------

  ghost predicate OfSegment(all: multiset<Entry>, segBlock: nat) {
    forall x :: x in all ==> !IsValid(x.ctid) && x.segBlock == segBlock
  }

  /** Memtable entries only, or entries of one segment only. */
  ghost predicate OneKind(all: multiset<Entry>) {
    (forall x :: x in all ==> IsValid(x.ctid)) || exists segBlock :: OfSegment(all, segBlock)
  }

  /** A higher score; at a tie the lower block or offset of the CTID, or the lower doc id. */
  predicate RanksAhead(a: Entry, b: Entry) {
    || a.score > b.score
    || (a.score == b.score &&
        if IsValid(a.ctid) then a.ctid.block < b.ctid.block ||
            (a.ctid.block == b.ctid.block && a.ctid.offset < b.ctid.offset)
        else a.docId < b.docId)
  }

  /** The k first of some entries: none left out ranks ahead of one that is held. */
  ghost predicate HoldsFirst(held: multiset<Entry>, all: multiset<Entry>, k: nat) {
    && held <= all && |held| == (if |all| <= k then |all| else k)
    && forall x, y :: x in held && y in all - held ==> !RanksAhead(y, x)
  }

  /** In a heap of one kind nothing that is held ranks behind the root. */
  lemma RootRanksLast(s: seq<Entry>, all: multiset<Entry>, x: Entry)
    requires Ordered(s, HeapLess) && s != [] && multiset(s) <= all && OneKind(all) && x in s
    ensures !RanksAhead(s[0], x)
  {
    HeapLessIsWeakOrder();
    var i :| 0 <= i < |s| && s[i] == x;
    RootIsLeast(s, HeapLess, i);
    assert s[0] in multiset(s) && x in multiset(s);
  }

  /**
   * Which entry goes when a better one comes: none with a lower score; at a tie of memtable entries none with
   * the higher CTID; at any other tie none with the higher doc id, or with the same and the higher segment.
   */
  lemma RootGoesFirst(s: seq<Entry>, x: Entry)
    requires Ordered(s, HeapLess) && s != [] && x in s
    ensures s[0].score <= x.score
    ensures s[0].score == x.score && IsValid(s[0].ctid) && IsValid(x.ctid) ==>
              s[0].ctid.block > x.ctid.block || (s[0].ctid.block == x.ctid.block && s[0].ctid.offset >= x.ctid.offset)
    ensures s[0].score == x.score && (!IsValid(s[0].ctid) || !IsValid(x.ctid)) ==>
              s[0].docId > x.docId || (s[0].docId == x.docId && s[0].segBlock >= x.segBlock)
  {
    HeapLessIsWeakOrder();
    var i :| 0 <= i < |s| && s[i] == x;
    RootIsLeast(s, HeapLess, i);
  }

  /** Among entries of one kind, admitting is ranking ahead, and ranking is a total order. */
  lemma AdmitsAhead(all: multiset<Entry>, a: Entry, b: Entry, c: Entry)
    requires OneKind(all) && a in all && b in all && c in all
    ensures Admits(a, b) <==> RanksAhead(b, a)
    ensures RanksAhead(a, b) && RanksAhead(b, c) ==> RanksAhead(a, c)
    ensures RanksAhead(a, b) && !RanksAhead(c, b) ==> RanksAhead(a, c)
    ensures !(RanksAhead(a, b) && RanksAhead(b, a))
  {
  }

  /** One offer to a heap that holds the first of one kind: it holds the first of those and the new entry. */
  lemma OfferKeepsFirst(before: seq<Entry>, e: Entry, after: seq<Entry>, capacity: nat, all: multiset<Entry>)
    requires Ordered(before, HeapLess) && |before| <= capacity && Offered(before, e, after, capacity)
    requires HoldsFirst(multiset(before), all, capacity) && OneKind(all + multiset{e})
    ensures HoldsFirst(multiset(after), all + multiset{e}, capacity)
  {
    hide RanksAhead, Admits, Ordered, OneKind;
    var held, held', all' := multiset(before), multiset(after), all + multiset{e};
    if |before| < capacity {
      SamePart(held, all);
      assert held' == all';
    } else {
      var root := before[0];
      assert root in held && root in all' && e in all';
      forall x | x in before
        ensures x in all' && !RanksAhead(root, x)
      {
        assert x in held;
        RootRanksLast(before, all', x);
      }
      if Admits(root, e) {
        ExchangeKeepsFirst(held, root, e, all);
      } else {
        RefusalKeepsFirst(held, root, e, all);
      }
    }
  }

  lemma SamePart(part: multiset<Entry>, whole: multiset<Entry>)
    requires part <= whole && |part| == |whole|
    ensures part == whole
  {
    assert whole == part + (whole - part);
  }

  lemma ExchangeKeepsFirst(held: multiset<Entry>, root: Entry, e: Entry, all: multiset<Entry>)
    requires HoldsFirst(held, all, |held|) && root in held && Admits(root, e) && OneKind(all + multiset{e})
    requires forall x :: x in held ==> !RanksAhead(root, x)
    ensures HoldsFirst(held - multiset{root} + multiset{e}, all + multiset{e}, |held|)
  {
    hide RanksAhead, Admits, OneKind;
    var held', all' := held - multiset{root} + multiset{e}, all + multiset{e};
    assert all' - held' == (all - held) + multiset{root};
    assert |all'| == |all| + 1 && |held'| == |held|;
    forall x, y | x in held' && y in all' - held'
      ensures !RanksAhead(y, x)
    {
      assert x in held || x == e;
      assert y in all - held || y == root;
      AdmitsAhead(all', root, e, y);
      AdmitsAhead(all', y, e, root);
    }
  }

  lemma RefusalKeepsFirst(held: multiset<Entry>, root: Entry, e: Entry, all: multiset<Entry>)
    requires HoldsFirst(held, all, |held|) && root in held && !Admits(root, e) && OneKind(all + multiset{e})
    requires forall x :: x in held ==> !RanksAhead(root, x)
    ensures HoldsFirst(held, all + multiset{e}, |held|)
  {
    hide RanksAhead, Admits, OneKind;
    var all' := all + multiset{e};
    assert all' - held == (all - held) + multiset{e};
    assert |all'| == |all| + 1;
    forall x, y | x in held && y in all' - held
      ensures !RanksAhead(y, x)
    {
      assert y in all - held || y == e;
      AdmitsAhead(all', root, e, x);
      AdmitsAhead(all', e, x, root);
    }
  }

  lemma AppendContents(s: seq<Entry>, e: Entry)
    requires Ordered(s, HeapLess)
    ensures OrderedButForParentOf(s + [e], HeapLess, |s|)
    ensures multiset(s + [e]) == multiset(s) + multiset{e}
    ensures multiset(ScoresOf(s + [e])) == multiset(ScoresOf(s)) + multiset{e.score}
  {
    assert ScoresOf(s + [e]) == ScoresOf(s) + [e.score];
  }

  lemma ReplaceContents(s: seq<Entry>, e: Entry)
    requires 0 < |s| && Ordered(s, HeapLess)
    ensures OrderedButForChildrenOf(s[0 := e], HeapLess, 0)
    ensures multiset(s[0 := e]) == multiset(s) - multiset{s[0]} + multiset{e}
    ensures multiset(ScoresOf(s[0 := e])) == multiset(ScoresOf(s)) - multiset{s[0].score} + multiset{e.score}
  {
    assert ScoresOf(s[0 := e]) == ScoresOf(s)[0 := e.score];
  }

  class TopKHeap {
    const ctids: array<ItemPointer>
    const segBlocks: array<nat>
    const docIds: array<nat>
    const scores: array<real>
    const capacity: nat
    var size: nat

    ghost const Repr: set<object> := {this, ctids, segBlocks, docIds, scores}

    constructor (k: nat)
      requires 0 < k
      ensures Valid() && capacity == k && Entries() == [] && fresh(Repr)
    {
      ctids := new ItemPointer[k](_ => INVALID_POINTER);
      segBlocks := new nat[k](_ => 0);
      docIds := new nat[k](_ => 0);
      scores := new real[k](_ => 0.0);
      capacity := k;
      size := 0;
    }

    ghost predicate Shape()
      reads Repr
    {
      && 0 < capacity && size <= capacity && segBlocks != docIds
      && ctids.Length == segBlocks.Length == docIds.Length == scores.Length == capacity
      && forall i :: 0 <= i < size ==> WellFormed(Slot(i))
    }

    ghost function Slot(i: nat): RawEntry
      requires i < ctids.Length && i < segBlocks.Length && i < docIds.Length && i < scores.Length
      reads Repr
    {
      RawEntry(ctids[i], segBlocks[i], docIds[i], scores[i])
    }

    ghost function EntriesBelow(n: nat): (s: seq<Entry>)
      requires Shape() && n <= size
      ensures |s| == n && forall i :: 0 <= i < n ==> s[i] == Slot(i)
      reads Repr
    {
      if n == 0 then [] else EntriesBelow(n - 1) + [Slot(n - 1)]
    }

    ghost function Entries(): (s: seq<Entry>)
      requires Shape()
      ensures |s| == size && forall i :: 0 <= i < size ==> s[i] == Slot(i)
      reads Repr
    {
      EntriesBelow(size)
    }

    ghost predicate Valid()
      reads Repr
    {
      Shape() && Ordered(Entries(), HeapLess)
    }

    /** The abstract value: the multiset of scores held. */
    ghost function Scores(): multiset<real>
      requires Shape()
      reads Repr
    {
      multiset(ScoresOf(Entries()))
    }

    ghost function Held(): multiset<Entry>
      requires Shape()
      reads Repr
    {
      multiset(Entries())
    }

    lemma RootScoreIsLeast()
      requires Valid() && 0 < size
      ensures scores[0] in Scores()
      ensures forall x :: x in Scores() ==> scores[0] <= x
    {
      var s := Entries();
      HeapLessIsWeakOrder();
      forall i | 0 <= i < |s|
        ensures s[0].score <= s[i].score
      {
        RootIsLeast(s, HeapLess, i);
      }
      assert ScoresOf(s)[0] == scores[0];
    }

    /** 0 until the heap is full, afterwards the least score held. */
    method Threshold() returns (t: real)
      requires Valid()
      ensures |Scores()| < capacity ==> t == 0.0
      ensures |Scores()| >= capacity ==> t in Scores() && Beats(Scores(), capacity, t)
    {
      SizeIsCard();
      if size >= capacity {
        RootScoreIsLeast();
        t := scores[0];
      } else {
        t := 0.0;
      }
    }

    /** Dominated: full, and strictly below everything held. */
    method Dominated(score: real) returns (d: bool)
      requires Valid()
      ensures d <==> size == capacity && forall x :: x in Scores() ==> score < x
    {
      if size > 0 { RootScoreIsLeast(); }
      d := size >= capacity && score < scores[0];
    }

    method HeapSwap(i: nat, j: nat)
      requires Shape() && i < size && j < size
      modifies ctids, segBlocks, docIds, scores
      ensures Shape() && Entries() == Swap(old(Entries()), i, j)
    {
      var ctid, segBlock, docId, score := ctids[i], segBlocks[i], docIds[i], scores[i];
      ctids[i], segBlocks[i], docIds[i], scores[i] := ctids[j], segBlocks[j], docIds[j], scores[j];
      ctids[j], segBlocks[j], docIds[j], scores[j] := ctid, segBlock, docId, score;
      assert forall k :: 0 <= k < size && k != i && k != j ==> Slot(k) == old(Slot(k));
      assert Slot(i) == old(Slot(j)) && Slot(j) == old(Slot(i));
    }

    method SlotLess(i: nat, j: nat) returns (less: bool)
      requires Shape() && i < size && j < size
      ensures less == HeapLess(Entries()[i], Entries()[j])
    {
      assert WellFormed(Slot(i)) && WellFormed(Slot(j));
      var a: Entry := RawEntry(ctids[i], segBlocks[i], docIds[i], scores[i]);
      var b: Entry := RawEntry(ctids[j], segBlocks[j], docIds[j], scores[j]);
      less := HeapLess(a, b);
    }

    method SwapWithParent(i: nat)
      requires Shape() && 0 < i < size && OrderedButForParentOf(Entries(), HeapLess, i)
      requires HeapLess(Entries()[i], Entries()[Parent(i)])
      modifies ctids, segBlocks, docIds, scores
      ensures Shape() && OrderedButForParentOf(Entries(), HeapLess, Parent(i))
      ensures SameContents(Entries(), old(Entries()))
    {
      EntrySiftUp(Entries(), i);
      HeapSwap(i, Parent(i));
    }

    method SiftUp(start: nat)
      requires Shape() && start < size && OrderedButForParentOf(Entries(), HeapLess, start)
      modifies ctids, segBlocks, docIds, scores
      ensures Valid() && SameContents(Entries(), old(Entries()))
    {
      var i := start;
      while i > 0
        invariant 0 <= i < size && Shape()
        invariant OrderedButForParentOf(Entries(), HeapLess, i)
        invariant SameContents(Entries(), old(Entries()))
      {
        var parent := (i - 1) / 2;
        var less := SlotLess(i, parent);
        if !less { break; }
        SwapWithParent(i);
        i := parent;
      }
    }

    method SmallestChild(i: nat) returns (smallest: nat)
      requires Shape() && i < size
      ensures smallest != i ==> WeakestChild(Entries(), i, smallest)
      ensures smallest == i ==>
                forall j :: 0 < j < size && Parent(j) == i ==> !HeapLess(Entries()[j], Entries()[i])
    {
      var left, right := 2 * i + 1, 2 * i + 2;
      smallest := i;
      if left < size {
        var less := SlotLess(left, smallest);
        if less { smallest := left; }
      }
      if right < size {
        var less := SlotLess(right, smallest);
        if less { smallest := right; }
      }
      ChooseChild(Entries(), i, smallest);
    }

    method SiftDown(start: nat)
      requires Shape() && start < size && OrderedButForChildrenOf(Entries(), HeapLess, start)
      modifies ctids, segBlocks, docIds, scores
      ensures Valid() && SameContents(Entries(), old(Entries()))
    {
      var i := start;
      while true
        invariant 0 <= i < size && Shape()
        invariant OrderedButForChildrenOf(Entries(), HeapLess, i)
        invariant SameContents(Entries(), old(Entries()))
        decreases size - i
      {
        var smallest := SmallestChild(i);
        if smallest == i {
          SiftDownDone(Entries(), i);
          break;
        }
        EntrySiftDown(Entries(), i, smallest);
        HeapSwap(i, smallest);
        i := smallest;
      }
    }

    /** heap_beats_root; `ctid` is None for a segment candidate (a NULL pointer in C). */
    method BeatsRoot(score: real, ctid: Option<ItemPointer>, docId: nat) returns (beats: bool)
      requires Valid() && 0 < size
      requires ctid.Some? ==> IsValid(ctid.value) && docId == 0
      ensures forall e: Entry ::
                e.score == score && e.docId == docId && e.ctid == (if ctid.Some? then ctid.value else INVALID_POINTER) ==>
                  (beats <==> Admits(Entries()[0], e))
    {
      if score > scores[0] { return true; }
      if score < scores[0] { return false; }
      if ctid.Some? && IsValid(ctid.value) && IsValid(ctids[0]) {
        return Before(ctid.value, ctids[0]);
      }
      if ctid.None? && !IsValid(ctids[0]) {
        return docId < docIds[0];
      }
      return false;
    }

    /** Write one slot, and count it when it is the first free one. */
    method StoreAt(i: nat, ctid: ItemPointer, segBlock: nat, docId: nat, score: real)
      requires Shape() && i <= size && i < capacity && WellFormed(RawEntry(ctid, segBlock, docId, score))
      modifies Repr
      ensures Shape() && size == if i == old(size) then old(size) + 1 else old(size)
      ensures Entries() == old(Entries())[..i] + [RawEntry(ctid, segBlock, docId, score)]
                           + old(Entries())[if i < old(size) then i + 1 else i..]
    {
      ctids[i], segBlocks[i], docIds[i], scores[i] := ctid, segBlock, docId, score;
      if i == size {
        size := size + 1;
      }
      assert forall k :: 0 <= k < old(size) && k != i ==> Slot(k) == old(Slot(k));
      assert WellFormed(Slot(i));
    }

    /** Room left: append at the end and sift up. */
    method Append(ctid: ItemPointer, segBlock: nat, docId: nat, score: real)
      requires Valid() && size < capacity && WellFormed(RawEntry(ctid, segBlock, docId, score))
      modifies Repr
      ensures Valid() && size == old(size) + 1
      ensures Offered(old(Entries()), RawEntry(ctid, segBlock, docId, score), Entries(), capacity)
      ensures Scores() == old(Scores()) + multiset{score}
    {
      ghost var before := Entries();
      ghost var e: Entry := RawEntry(ctid, segBlock, docId, score);
      var i := size;
      AppendContents(before, e);
      StoreAt(i, ctid, segBlock, docId, score);
      assert Entries() == before + [e];
      SiftUp(i);
    }

    /** No room and the root is weaker: overwrite the root and sift down. */
    method ReplaceRoot(ctid: ItemPointer, segBlock: nat, docId: nat, score: real)
      requires Valid() && 0 < size && WellFormed(RawEntry(ctid, segBlock, docId, score))
      modifies Repr
      ensures Valid() && size == old(size)
      ensures multiset(Entries()) == Exchanged(old(Entries()), RawEntry(ctid, segBlock, docId, score))
      ensures Scores() == old(Scores() - multiset{Entries()[0].score}) + multiset{score}
    {
      ghost var before := Entries();
      ghost var e: Entry := RawEntry(ctid, segBlock, docId, score);
      ReplaceContents(before, e);
      StoreAt(0, ctid, segBlock, docId, score);
      assert Entries() == before[0 := e];
      SiftDown(0);
    }

    lemma SizeIsCard()
      requires Valid()
      ensures |Scores()| == size
    {
    }

    lemma HasRoom()
      requires Valid()
      ensures 0 < capacity && |Scores()| <= capacity
    {
    }

    /** The part common to both adds: keep the entry if there is room or it beats the root. */
    method AddEntry(ctid: ItemPointer, segBlock: nat, docId: nat, score: real, key: Option<ItemPointer>)
      requires Valid() && WellFormed(RawEntry(ctid, segBlock, docId, score))
      requires key == if IsValid(ctid) then Some(ctid) else None
      modifies Repr
      ensures Valid() && size == if old(size) < capacity then old(size) + 1 else old(size)
      ensures Offered(old(Entries()), RawEntry(ctid, segBlock, docId, score), Entries(), capacity)
      ensures IsTopK(Scores(), old(Scores()) + multiset{score}, capacity)
    {
      SizeIsCard();
      if size < capacity {
        Append(ctid, segBlock, docId, score);
        SizeIsCard();
        TopKAll(Scores(), capacity);
      } else {
        var beats := BeatsRoot(score, key, docId);
        RootScoreIsLeast();
        TopKAll(Scores(), capacity);
        ghost var e: Entry := RawEntry(ctid, segBlock, docId, score);
        assert beats <==> Admits(Entries()[0], e);
        if beats {
          ReplaceRoot(ctid, segBlock, docId, score);
          TopKReplace(old(Scores()), old(Scores()), old(scores[0]), score, capacity);
          RootScoreIsLeast();
        } else {
          TopKIgnoreBeaten(Scores(), Scores(), multiset{score}, capacity);
        }
      }
    }

    /** tp_topk_add_memtable. */
    method AddMemtable(ctid: ItemPointer, score: real)
      requires Valid() && IsValid(ctid)
      modifies Repr
      ensures Valid() && size == if old(size) < capacity then old(size) + 1 else old(size)
      ensures Offered(old(Entries()), RawEntry(ctid, INVALID_BLOCK_NUMBER, 0, score), Entries(), capacity)
      ensures Held() <= old(Held()) + multiset{RawEntry(ctid, INVALID_BLOCK_NUMBER, 0, score)}
      ensures IsTopK(Scores(), old(Scores()) + multiset{score}, capacity)
    {
      AddEntry(ctid, INVALID_BLOCK_NUMBER, 0, score, Some(ctid));
    }

    /** tp_topk_add_segment: the CTID stays unresolved until extraction. */
    method AddSegment(segBlock: nat, docId: nat, score: real)
      requires Valid() && segBlock < INVALID_BLOCK_NUMBER
      modifies Repr
      ensures Valid() && size == if old(size) < capacity then old(size) + 1 else old(size)
      ensures Offered(old(Entries()), RawEntry(INVALID_POINTER, segBlock, docId, score), Entries(), capacity)
      ensures Held() <= old(Held()) + multiset{SlotFor(segBlock, docId, score)}
      ensures IsTopK(Scores(), old(Scores()) + multiset{score}, capacity)
    {
      AddEntry(INVALID_POINTER, segBlock, docId, score, None);
    }
  }
}
