/** The score/index min-heap of the Rust side (rust/src/topk.rs). Scores are exact reals. */
module RustTopK {
  import opened HeapOrder
  import opened QSort
  import opened Sums
  import opened TopKSpec

  datatype Item = Item(score: real, index: nat)

  predicate Weaker(a: Item, b: Item) {
    a.score < b.score
  }

  const scoreOf: Item -> real := (x: Item) => x.score

  ghost function ScoresOf(s: seq<Item>): multiset<real> {
    multiset(Map(s, scoreOf))
  }

  lemma WeakerIsWeakOrder()
    ensures WeakOrder(Weaker)
  {
  }

  lemma ScoresPermuted(s: seq<Item>, t: seq<Item>)
    requires multiset(s) == multiset(t)
    ensures ScoresOf(s) == ScoresOf(t)
  {
    MapPermutation(s, t, scoreOf);
  }

  lemma ScoresAppend(s: seq<Item>, x: Item)
    ensures ScoresOf(s + [x]) == ScoresOf(s) + multiset{x.score}
  {
    assert Map(s + [x], scoreOf) == Map(s, scoreOf) + [x.score];
  }

  lemma ScoresReplaceRoot(s: seq<Item>, x: Item)
    requires s != []
    ensures ScoresOf(s[0 := x]) == ScoresOf(s) - multiset{s[0].score} + multiset{x.score}
  {
    assert Map(s[0 := x], scoreOf) == Map(s, scoreOf)[0 := x.score];
  }

  lemma RootScoreIsLeast(s: seq<Item>)
    requires Ordered(s, Weaker) && s != []
    ensures s[0].score in ScoresOf(s) && forall x :: x in ScoresOf(s) ==> s[0].score <= x
  {
    WeakerIsWeakOrder();
    forall i | 0 <= i < |s|
      ensures s[0].score <= s[i].score
    {
      RootIsLeast(s, Weaker, i);
    }
    assert Map(s, scoreOf)[0] == s[0].score;
  }

  lemma SwapKeeps(s: seq<Item>, i: nat, j: nat)
    requires i < |s| && j < |s|
    ensures multiset(Swap(s, i, j)) == multiset(s)
  {
  }

  lemma ItemSiftUp(s: seq<Item>, i: nat)
    requires 0 < i < |s| && OrderedButForParentOf(s, Weaker, i) && Weaker(s[i], s[Parent(i)])
    ensures OrderedButForParentOf(Swap(s, i, Parent(i)), Weaker, Parent(i))
    ensures multiset(Swap(s, i, Parent(i))) == multiset(s)
  {
    WeakerIsWeakOrder();
    SiftUpStep(s, Weaker, i);
    SwapKeeps(s, i, Parent(i));
  }

  lemma SiftUpDone(s: seq<Item>, i: nat)
    requires i < |s| && OrderedButForParentOf(s, Weaker, i) && (i == 0 || !Weaker(s[i], s[Parent(i)]))
    ensures Ordered(s, Weaker)
  {
  }

  /** The place sift_down moves to: the weakest child of i if it is weaker than i, else i itself. */
  ghost predicate Smallest(s: seq<Item>, i: nat, c: nat) {
    && c < |s| && (c != i ==> 0 < c && Parent(c) == i && Weaker(s[c], s[i]))
    && forall j :: 0 < j < |s| && Parent(j) == i ==> !Weaker(s[j], s[c])
  }

  lemma ItemSiftDown(s: seq<Item>, i: nat, c: nat)
    requires i < |s| && OrderedButForChildrenOf(s, Weaker, i) && Smallest(s, i, c)
    ensures c == i ==> Ordered(s, Weaker)
    ensures c != i ==> OrderedButForChildrenOf(Swap(s, i, c), Weaker, c) && multiset(Swap(s, i, c)) == multiset(s)
  {
    if c != i {
      WeakerIsWeakOrder();
      SiftDownStep(s, Weaker, i, c);
      SwapKeeps(s, i, c);
    }
  }

  lemma AppendOrder(s: seq<Item>, x: Item)
    requires Ordered(s, Weaker)
    ensures OrderedButForParentOf(s + [x], Weaker, |s|)
  {
  }

  lemma ReplaceOrder(s: seq<Item>, x: Item)
    requires Ordered(s, Weaker) && s != []
    ensures OrderedButForChildrenOf(s[0 := x], Weaker, 0)
  {
  }

  /** What one add does: room left, the weakest entry replaced, or the entry refused. */
  ghost predicate Added(before: seq<Item>, x: Item, after: seq<Item>, capacity: nat, added: bool) {
    if |before| < capacity then added && multiset(after) == multiset(before) + multiset{x}
    else
      && before != []
      && (added <==> before[0].score < x.score)
      && if added then multiset(after) == multiset(before) - multiset{before[0]} + multiset{x} else after == before
  }

  /** One add selects the best scores. */
  lemma AddSelects(before: seq<Item>, x: Item, after: seq<Item>, capacity: nat, added: bool)
    requires Ordered(before, Weaker) && |before| <= capacity && Added(before, x, after, capacity, added)
    ensures IsTopK(ScoresOf(after), ScoresOf(before) + multiset{x.score}, capacity)
  {
    hide Ordered, Map;
    SizeOfScores(before);
    if |before| < capacity {
      ScoresPermuted(after, before + [x]);
      ScoresAppend(before, x);
      TopKAll(ScoresOf(before) + multiset{x.score}, capacity);
    } else {
      RootScoreIsLeast(before);
      TopKAll(ScoresOf(before), capacity);
      if added {
        ScoresPermuted(after, before[0 := x]);
        ScoresReplaceRoot(before, x);
        TopKReplace(ScoresOf(before), ScoresOf(before), before[0].score, x.score, capacity);
      } else {
        TopKIgnoreBeaten(ScoresOf(before), ScoresOf(before), multiset{x.score}, capacity);
      }
    }
  }

  lemma SizeOfScores(s: seq<Item>)
    ensures |ScoresOf(s)| == |s|
  {
  }

  /** The order of extraction: higher score first, at a tie the lower index. */
  predicate ItemLeq(a: Item, b: Item) {
    a.score > b.score || (a.score == b.score && a.index <= b.index)
  }

  lemma ItemLeqIsTotal()
    ensures TotalPreorder(ItemLeq)
  {
  }

  lemma SortedFalls(s: seq<Item>)
    requires SortedBy(s, ItemLeq)
    ensures forall i, j :: 0 <= i < j < |s| ==>
              s[i].score > s[j].score || (s[i].score == s[j].score && s[i].index <= s[j].index)
  {
  }

  /** Two parallel arrays read together. */
  function Zipped(scores: array<real>, indices: array<nat>, count: nat): (s: seq<Item>)
    requires count <= scores.Length && count <= indices.Length
    reads scores, indices
  {
    seq(count, i requires 0 <= i < count <= scores.Length && count <= indices.Length reads scores, indices =>
                 Item(scores[i], indices[i]))
  }

  /** Items written to the first places of the output arrays. */
  method WriteOut(entries: seq<Item>, outIndices: array<nat>, outScores: array<real>)
    requires |entries| <= outIndices.Length && |entries| <= outScores.Length
    modifies outIndices, outScores
    ensures forall j :: 0 <= j < |entries| ==> outScores[j] == entries[j].score && outIndices[j] == entries[j].index
    ensures outIndices[|entries|..] == old(outIndices[|entries|..]) &&
            outScores[|entries|..] == old(outScores[|entries|..])
  {
    var count, i := |entries|, 0;
    while i < count
      invariant 0 <= i <= count
      invariant forall j :: 0 <= j < i ==> outScores[j] == entries[j].score && outIndices[j] == entries[j].index
      invariant outIndices[count..] == old(outIndices[count..]) && outScores[count..] == old(outScores[count..])
    {
      outScores[i] := entries[i].score;
      outIndices[i] := entries[i].index;
      i := i + 1;
    }
  }

  class TopKHeap {
    const scores: array<real>
    const indices: array<nat>
    const capacity: nat
    var size: nat

    ghost const Repr: set<object> := {this, scores, indices}

    constructor (capacity: nat)
      requires 0 < capacity
      ensures Valid() && this.capacity == capacity && Items() == [] && fresh(Repr)
    {
      scores := new real[capacity](_ => 0.0);
      indices := new nat[capacity](_ => 0);
      this.capacity := capacity;
      size := 0;
    }

    ghost predicate Shape()
      reads this
    {
      0 < capacity && size <= capacity && scores.Length == indices.Length == capacity
    }

    function Items(): (s: seq<Item>)
      requires Shape()
      reads Repr
      ensures |s| == size && forall i :: 0 <= i < size ==> s[i] == Item(scores[i], indices[i])
    {
      Zipped(scores, indices, size)
    }

    ghost predicate Valid()
      reads Repr
    {
      Shape() && Ordered(Items(), Weaker)
    }

    method Threshold() returns (t: real)
      requires Valid()
      ensures size < capacity ==> t == 0.0
      ensures size == capacity ==> t in ScoresOf(Items()) && Beats(ScoresOf(Items()), capacity, t)
    {
      SizeOfScores(Items());
      if size >= capacity {
        RootScoreIsLeast(Items());
        t := scores[0];
      } else {
        t := 0.0;
      }
    }

    method Dominated(score: real) returns (d: bool)
      requires Valid()
      ensures d <==> size == capacity && forall x :: x in ScoresOf(Items()) ==> score < x
    {
      if size > 0 { RootScoreIsLeast(Items()); }
      d := size >= capacity && score < scores[0];
    }

    method SwapItems(i: nat, j: nat)
      requires Shape() && i < size && j < size
      modifies scores, indices
      ensures Items() == Swap(old(Items()), i, j)
    {
      scores[i], scores[j] := scores[j], scores[i];
      indices[i], indices[j] := indices[j], indices[i];
    }

    method SiftUp(start: nat)
      requires Shape() && start < size && OrderedButForParentOf(Items(), Weaker, start)
      modifies scores, indices
      ensures Valid() && multiset(Items()) == old(multiset(Items()))
    {
      hide Ordered, OrderedButForParentOf, Swap;
      var i := start;
      while i > 0
        invariant 0 <= i < size && OrderedButForParentOf(Items(), Weaker, i)
        invariant multiset(Items()) == old(multiset(Items()))
      {
        var parent := (i - 1) / 2;
        if scores[i] >= scores[parent] { break; }
        ItemSiftUp(Items(), i);
        SwapItems(i, parent);
        i := parent;
      }
      SiftUpDone(Items(), i);
    }

    method SmallestChild(i: nat) returns (smallest: nat)
      requires Shape() && i < size
      ensures Smallest(Items(), i, smallest)
    {
      var left, right := 2 * i + 1, 2 * i + 2;
      smallest := i;
      if left < size && scores[left] < scores[smallest] { smallest := left; }
      if right < size && scores[right] < scores[smallest] { smallest := right; }
      assert forall j :: 0 < j && Parent(j) == i ==> j == left || j == right;
    }

    method SiftDown(start: nat)
      requires Shape() && start < size && OrderedButForChildrenOf(Items(), Weaker, start)
      modifies scores, indices
      ensures Valid() && multiset(Items()) == old(multiset(Items()))
    {
      hide Ordered, OrderedButForChildrenOf, Swap;
      var i := start;
      while true
        invariant 0 <= i < size && OrderedButForChildrenOf(Items(), Weaker, i)
        invariant multiset(Items()) == old(multiset(Items()))
        decreases size - i
      {
        var smallest := SmallestChild(i);
        ItemSiftDown(Items(), i, smallest);
        if smallest == i { break; }
        SwapItems(i, smallest);
        i := smallest;
      }
    }

    method Add(index: nat, score: real) returns (added: bool)
      requires Valid()
      modifies Repr
      ensures Valid() && Added(old(Items()), Item(score, index), Items(), capacity, added)
      ensures IsTopK(ScoresOf(Items()), ScoresOf(old(Items())) + multiset{score}, capacity)
    {
      ghost var before, x := Items(), Item(score, index);
      hide Ordered, ScoresOf, IsTopK, Map;
      if size < capacity {
        var pos := size;
        scores[pos] := score;
        indices[pos] := index;
        size := size + 1;
        AppendOrder(before, x);
        assert Items() == before + [x];
        SiftUp(pos);
        added := true;
      } else if score > scores[0] {
        scores[0] := score;
        indices[0] := index;
        ReplaceOrder(before, x);
        assert Items() == before[0 := x];
        SiftDown(0);
        added := true;
      } else {
        added := false;
      }
      AddSelects(before, x, Items(), capacity, added);
    }

    /** The items, best first, in the first places of the output arrays; the heap is empty afterwards. */
    method ExtractSorted(outIndices: array<nat>, outScores: array<real>) returns (count: nat)
      requires Valid() && outIndices.Length >= capacity && outScores.Length >= capacity
      requires outIndices !in Repr && outScores !in Repr
      modifies this`size, outIndices, outScores
      ensures Valid() && size == 0 && count == |old(Items())|
      ensures multiset(Zipped(outScores, outIndices, count)) == multiset(old(Items()))
      ensures forall i, j :: 0 <= i < j < count ==>
                outScores[i] > outScores[j] || (outScores[i] == outScores[j] && outIndices[i] <= outIndices[j])
      ensures outIndices[count..] == old(outIndices[count..]) && outScores[count..] == old(outScores[count..])
    {
      count := size;
      if count == 0 { return; }
      var entries := Sort(Items(), ItemLeq);
      ItemLeqIsTotal();
      SortSorts(Items(), ItemLeq);
      SortKeeps(Items(), ItemLeq);
      SortedFalls(entries);
      hide Ordered, SortedBy, ItemLeq, Map;
      WriteOut(entries, outIndices, outScores);
      size := 0;
      assert Zipped(outScores, outIndices, count) == entries;
    }
  }
}
