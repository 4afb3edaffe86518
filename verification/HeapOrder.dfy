/** The array layout of a binary min-heap, over any weak order given by its strict part `less`. */
module HeapOrder {

  ghost predicate WeakOrder<T(!new)>(less: (T, T) -> bool) {
    && (forall a, b :: less(a, b) ==> !less(b, a))
    && (forall a, b, c :: !less(b, a) && !less(c, b) ==> !less(c, a))
  }

  function Parent(i: int): int
    requires 0 < i
  {
    (i - 1) / 2
  }

  function Swap<T>(s: seq<T>, i: nat, j: nat): seq<T>
    requires i < |s| && j < |s|
  {
    s[i := s[j]][j := s[i]]
  }

  ghost predicate Ordered<T>(s: seq<T>, less: (T, T) -> bool) {
    forall j :: 0 < j < |s| ==> !less(s[j], s[Parent(j)])
  }

  /** Heap order everywhere except that s[i] may be too small for its parent. */
  ghost predicate OrderedButForParentOf<T>(s: seq<T>, less: (T, T) -> bool, i: nat) {
    && (forall j :: 0 < j < |s| && j != i ==> !less(s[j], s[Parent(j)]))
    && (forall j :: 0 < j < |s| && Parent(j) == i && 0 < i < |s| ==> !less(s[j], s[Parent(i)]))
  }

  /** Heap order everywhere except that s[i] may be too large for its children. */
  ghost predicate OrderedButForChildrenOf<T>(s: seq<T>, less: (T, T) -> bool, i: nat) {
    && (forall j :: 0 < j < |s| && Parent(j) != i ==> !less(s[j], s[Parent(j)]))
    && (forall j :: 0 < j < |s| && Parent(j) == i && 0 < i < |s| ==> !less(s[j], s[Parent(i)]))
  }

  lemma SiftUpStep<T(!new)>(s: seq<T>, less: (T, T) -> bool, i: nat)
    requires WeakOrder(less) && 0 < i < |s|
    requires OrderedButForParentOf(s, less, i) && less(s[i], s[Parent(i)])
    ensures OrderedButForParentOf(Swap(s, i, Parent(i)), less, Parent(i))
  {
    var p := Parent(i);
    var s' := Swap(s, i, p);
    forall j | 0 < j < |s'| && j != p
      ensures !less(s'[j], s'[Parent(j)])
    {
      assert !less(s[p], s[i]);
      assert j != i ==> !less(s[j], s[Parent(j)]);
    }
    forall j | 0 < j < |s'| && Parent(j) == p && 0 < p
      ensures !less(s'[j], s'[Parent(p)])
    {
      assert !less(s[p], s[Parent(p)]);
      assert j != i ==> !less(s[j], s[Parent(j)]);
    }
  }

  lemma SiftDownStep<T(!new)>(s: seq<T>, less: (T, T) -> bool, i: nat, c: nat)
    requires WeakOrder(less) && 0 < c < |s| && Parent(c) == i
    requires OrderedButForChildrenOf(s, less, i) && less(s[c], s[i])
    requires forall j :: 0 < j < |s| && Parent(j) == i ==> !less(s[j], s[c])
    ensures OrderedButForChildrenOf(Swap(s, i, c), less, c)
  {
    var s' := Swap(s, i, c);
    forall j | 0 < j < |s'| && Parent(j) != c
      ensures !less(s'[j], s'[Parent(j)])
    {
      if j == c {
        assert !less(s[i], s[c]);
      }
    }
    forall j | 0 < j < |s'| && Parent(j) == c
      ensures !less(s'[j], s'[Parent(c)])
    {
      assert !less(s[j], s[Parent(j)]);
    }
  }

  lemma {:induction false} RootIsLeast<T(!new)>(s: seq<T>, less: (T, T) -> bool, i: nat)
    requires WeakOrder(less) && Ordered(s, less) && i < |s|
    ensures !less(s[i], s[0])
  {
    if i > 0 {
      RootIsLeast(s, less, Parent(i));
      assert !less(s[i], s[Parent(i)]);
    }
  }
}
