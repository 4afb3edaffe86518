/**
 * Picking the best documents of the exhaustive scoring path (src/query/score.c): an in-place
 * quicksort that sorts only the first k places.
 */
module Selection {
  import opened ItemPointers
  import opened TopKSpec
  import opened HeapOrder
  import opened Sums

  datatype DocumentScoreEntry = DocumentScoreEntry(ctid: ItemPointer, score: real, docLength: real)

  type Doc = DocumentScoreEntry

  /** doc_score_greater: does `a` come before `b`? Higher score, at a tie the lower CTID. */
  predicate Precedes(a: Doc, b: Doc) {
    if a.score != b.score then a.score > b.score else Before(a.ctid, b.ctid)
  }

  /** A strict weak order, in which only entries for the same CTID tie. */
  lemma PrecedesIsStrictWeakOrder(a: Doc, b: Doc, c: Doc)
    ensures !(Precedes(a, b) && Precedes(b, a))
    ensures Precedes(a, b) && Precedes(b, c) ==> Precedes(a, c)
    ensures !Precedes(b, a) && !Precedes(c, b) ==> !Precedes(c, a)
    ensures !Precedes(a, b) && !Precedes(b, a) ==> a.ctid == b.ctid && a.score == b.score
  {
  }

  // ---------- rearranging a window ----------

  /** `t` is `s` with the places lo..hi rearranged. */
  ghost predicate Permuted(s: seq<Doc>, t: seq<Doc>, lo: nat, hi: nat) {
    && lo <= hi <= |s| == |t|
    && (forall i :: 0 <= i < |s| && !(lo <= i < hi) ==> t[i] == s[i])
    && multiset(t[lo..hi]) == multiset(s[lo..hi])
  }

  lemma PermutedRefl(s: seq<Doc>, lo: nat, hi: nat)
    requires lo <= hi <= |s|
    ensures Permuted(s, s, lo, hi)
  {
  }

  lemma PermutedTrans(s: seq<Doc>, t: seq<Doc>, u: seq<Doc>, lo: nat, hi: nat)
    requires Permuted(s, t, lo, hi) && Permuted(t, u, lo, hi)
    ensures Permuted(s, u, lo, hi)
  {
  }

  lemma PermutedWiden(s: seq<Doc>, t: seq<Doc>, lo: nat, hi: nat, lo': nat, hi': nat)
    requires Permuted(s, t, lo, hi) && lo' <= lo && hi <= hi' <= |s|
    ensures Permuted(s, t, lo', hi')
  {
    assert s[lo'..hi'] == s[lo'..lo] + s[lo..hi] + s[hi..hi'];
    assert t[lo'..hi'] == t[lo'..lo] + t[lo..hi] + t[hi..hi'];
    assert s[lo'..lo] == t[lo'..lo] && s[hi..hi'] == t[hi..hi'];
  }

  lemma SwapPermutes(s: seq<Doc>, i: nat, j: nat, lo: nat, hi: nat)
    requires lo <= i < hi <= |s| && lo <= j < hi
    ensures Permuted(s, Swap(s, i, j), lo, hi)
  {
    var t := Swap(s, i, j);
    assert t[lo..hi] == Swap(s[lo..hi], i - lo, j - lo);
  }

  /** Every entry of a rearranged window was in the window before. */
  lemma CameFrom(s: seq<Doc>, t: seq<Doc>, lo: nat, hi: nat, i: nat) returns (j: nat)
    requires Permuted(s, t, lo, hi) && lo <= i < hi
    ensures lo <= j < hi && t[i] == s[j]
  {
    assert t[lo..hi][i - lo] == t[i];
    assert t[i] in multiset(t[lo..hi]);
    assert t[i] in s[lo..hi];
    var k :| 0 <= k < |s[lo..hi]| && s[lo..hi][k] == t[i];
    j := lo + k;
  }

  // ---------- insertion sort ----------

  ghost predicate SortedIn(s: seq<Doc>, lo: nat, hi: nat) {
    hi <= |s| && forall p, q :: lo <= p < q < hi ==> !Precedes(s[q], s[p])
  }

  /** Sorted, except that s[m] may have to move down. */
  ghost predicate SortedButAt(s: seq<Doc>, lo: nat, hi: nat, m: nat) {
    hi <= |s| && forall p, q :: lo <= p < q < hi && q != m ==> !Precedes(s[q], s[p])
  }

  lemma InsertStep(s: seq<Doc>, lo: nat, hi: nat, m: nat)
    requires SortedButAt(s, lo, hi, m) && lo < m < hi && Precedes(s[m], s[m - 1])
    ensures SortedButAt(Swap(s, m, m - 1), lo, hi, m - 1)
  {
  }

  lemma InsertDone(s: seq<Doc>, lo: nat, hi: nat, m: nat)
    requires SortedButAt(s, lo, hi, m) && lo <= m < hi && (m == lo || !Precedes(s[m], s[m - 1]))
    ensures SortedIn(s, lo, hi)
  {
    forall p, q | lo <= p < q < hi
      ensures !Precedes(s[q], s[p])
    {
      if q == m && p < m - 1 {
        assert !Precedes(s[m - 1], s[p]);
      }
    }
  }

  /** While `key` is on its way down: with `key` in the gap at j + 1, only it may be out of place. */
  ghost predicate Inserting(was: seq<Doc>, s: seq<Doc>, key: Doc, lo: nat, hi: nat, j: int) {
    && |s| == |was| && lo - 1 <= j < hi - 1 < |s|
    && Permuted(was, s[j + 1 := key], lo, hi) && SortedButAt(s[j + 1 := key], lo, hi, j + 1)
  }

  lemma InsertBegins(s: seq<Doc>, lo: nat, i: nat)
    requires lo <= i < |s| && SortedIn(s, lo, i)
    ensures Inserting(s, s, s[i], lo, i + 1, i - 1)
  {
    hide Precedes;
    assert s[i := s[i]] == s;
  }

  lemma InsertShift(was: seq<Doc>, s: seq<Doc>, key: Doc, lo: nat, hi: nat, j: int)
    requires Inserting(was, s, key, lo, hi, j) && lo <= j && Precedes(key, s[j])
    ensures Inserting(was, s[j + 1 := s[j]], key, lo, hi, j - 1)
  {
    hide Precedes, SortedButAt, Permuted;
    var now := s[j + 1 := key];
    InsertStep(now, lo, hi, j + 1);
    SwapPermutes(now, j + 1, j, lo, hi);
    PermutedTrans(was, now, Swap(now, j + 1, j), lo, hi);
    assert Swap(now, j + 1, j) == s[j + 1 := s[j]][j := key];
  }

  lemma InsertEnds(was: seq<Doc>, s: seq<Doc>, key: Doc, lo: nat, hi: nat, j: int)
    requires Inserting(was, s, key, lo, hi, j) && (j < lo || !Precedes(key, s[j]))
    ensures Permuted(was, s[j + 1 := key], lo, hi) && SortedIn(s[j + 1 := key], lo, hi)
  {
    hide Precedes, SortedButAt, SortedIn, Permuted;
    InsertDone(s[j + 1 := key], lo, hi, j + 1);
  }

  /** Puts a[i] in its place among the sorted entries from `lo`, moving the later ones up. */
  method Insert(a: array<Doc>, lo: nat, i: nat)
    requires lo <= i < a.Length && SortedIn(a[..], lo, i)
    modifies a
    ensures Permuted(old(a[..]), a[..], lo, i + 1) && SortedIn(a[..], lo, i + 1)
  {
    hide *;
    var key := a[i];
    var j := i - 1;
    ghost var was := a[..];
    InsertBegins(was, lo, i);
    while j >= lo && Precedes(key, a[j])
      invariant lo - 1 <= j < i && Inserting(was, a[..], key, lo, i + 1, j)
    {
      ghost var s := a[..];
      InsertShift(was, s, key, lo, i + 1, j);
      a[j + 1] := a[j];
      assert a[..] == s[j + 1 := s[j]];
      j := j - 1;
    }
    ghost var s := a[..];
    InsertEnds(was, s, key, lo, i + 1, j);
    a[j + 1] := key;
    assert a[..] == s[j + 1 := key];
  }

  /** insertion_sort_docs on the n entries from `lo`. */
  method InsertionSort(a: array<Doc>, lo: nat, n: nat)
    requires lo + n <= a.Length
    modifies a
    ensures Permuted(old(a[..]), a[..], lo, lo + n) && SortedIn(a[..], lo, lo + n)
  {
    hide Permuted, Precedes;
    ghost var was := a[..];
    PermutedRefl(was, lo, lo + n);
    if n == 0 { return; }
    var i := 1;
    while i < n
      invariant 1 <= i <= n
      invariant Permuted(was, a[..], lo, lo + n) && SortedIn(a[..], lo, lo + i)
    {
      ghost var before := a[..];
      Insert(a, lo, lo + i);
      PermutedWiden(before, a[..], lo, lo + i + 1, lo, lo + n);
      PermutedTrans(was, before, a[..], lo, lo + n);
      i := i + 1;
    }
  }

  // ---------- partition ----------

  ghost predicate AllPrecede(s: seq<Doc>, lo: nat, hi: nat, pivot: Doc) {
    hi <= |s| && forall i :: lo <= i < hi ==> Precedes(s[i], pivot)
  }

  ghost predicate NonePrecedes(s: seq<Doc>, lo: nat, hi: nat, pivot: Doc) {
    hi <= |s| && forall i :: lo <= i < hi ==> !Precedes(s[i], pivot)
  }

  /** The entries of lo..hi are split around place p. */
  ghost predicate Split(s: seq<Doc>, lo: nat, hi: nat, p: nat) {
    lo <= p < hi <= |s| && AllPrecede(s, lo, p, s[p]) && NonePrecedes(s, p + 1, hi, s[p])
  }

  method SwapDocs(a: array<Doc>, i: nat, j: nat, ghost lo: nat, ghost hi: nat)
    requires lo <= i < hi <= a.Length && lo <= j < hi
    modifies a
    ensures a[..] == Swap(old(a[..]), i, j) && Permuted(old(a[..]), a[..], lo, hi)
    ensures forall k :: 0 <= k < a.Length && !(lo <= k < hi) ==> a[k] == old(a[k])
  {
    SwapPermutes(a[..], i, j, lo, hi);
    hide Permuted;
    a[i], a[j] := a[j], a[i];
  }

  /** left..store come before the pivot, store..i do not. */
  ghost predicate Parting(was: seq<Doc>, s: seq<Doc>, left: nat, right: nat, store: nat, i: nat) {
    && left <= store <= i <= right < |s| && Permuted(was, s, left, right + 1)
    && AllPrecede(s, left, store, s[right]) && NonePrecedes(s, store, i, s[right])
  }

  lemma PartitionStart(was: seq<Doc>, s: seq<Doc>, left: nat, right: nat)
    requires Permuted(was, s, left, right + 1) && left <= right < |s|
    ensures Parting(was, s, left, right, left, left)
  {
    hide Permuted;
  }

  lemma PartitionKeep(was: seq<Doc>, s: seq<Doc>, left: nat, right: nat, store: nat, i: nat)
    requires Parting(was, s, left, right, store, i) && i < right && !Precedes(s[i], s[right])
    ensures Parting(was, s, left, right, store, i + 1)
  {
    hide Permuted, Precedes;
  }

  lemma MovePart(s: seq<Doc>, left: nat, right: nat, store: nat, i: nat)
    requires left <= store <= i < right < |s| && Precedes(s[i], s[right])
    requires AllPrecede(s, left, store, s[right]) && NonePrecedes(s, store, i, s[right])
    ensures var t := Swap(s, store, i);
            AllPrecede(t, left, store + 1, t[right]) && NonePrecedes(t, store + 1, i + 1, t[right])
  {
    hide Precedes;
  }

  lemma PartitionMove(was: seq<Doc>, s: seq<Doc>, left: nat, right: nat, store: nat, i: nat)
    requires Parting(was, s, left, right, store, i) && i < right && Precedes(s[i], s[right])
    ensures Parting(was, Swap(s, store, i), left, right, store + 1, i + 1)
  {
    hide Permuted, Precedes, AllPrecede, NonePrecedes;
    MovePart(s, left, right, store, i);
    SwapPermutes(s, store, i, left, right + 1);
    PermutedTrans(was, s, Swap(s, store, i), left, right + 1);
  }

  lemma SplitPart(s: seq<Doc>, left: nat, right: nat, store: nat)
    requires left <= store <= right < |s|
    requires AllPrecede(s, left, store, s[right]) && NonePrecedes(s, store, right, s[right])
    ensures Split(Swap(s, store, right), left, right + 1, store)
  {
    hide Precedes;
  }

  lemma PartitionDone(was: seq<Doc>, s: seq<Doc>, left: nat, right: nat, store: nat)
    requires Parting(was, s, left, right, store, right)
    ensures Permuted(was, Swap(s, store, right), left, right + 1) && Split(Swap(s, store, right), left, right + 1, store)
  {
    hide Permuted, Precedes, AllPrecede, NonePrecedes, Split;
    SplitPart(s, left, right, store);
    SwapPermutes(s, store, right, left, right + 1);
    PermutedTrans(was, s, Swap(s, store, right), left, right + 1);
  }

  function InOrder(s: seq<Doc>, i: nat, j: nat): seq<Doc>
    requires i < |s| && j < |s|
  {
    if Precedes(s[j], s[i]) then Swap(s, i, j) else s
  }

  /** Three exchanges leave the first of three entries in l, the second in r and the last in m. */
  lemma MedianLast(s: seq<Doc>, l: nat, m: nat, r: nat)
    requires l < m < r < |s|
    ensures var t := InOrder(InOrder(InOrder(s, l, m), l, r), r, m);
            !Precedes(t[r], t[l]) && !Precedes(t[m], t[r])
  {
    var t := InOrder(s, l, m);
    var u := InOrder(t, l, r);
    assert !Precedes(t[m], t[l]) && !Precedes(u[r], u[l]) && !Precedes(u[m], u[l]);
  }

  /** Exchanges two entries if the second comes before the first. */
  method Order(a: array<Doc>, i: nat, j: nat, ghost lo: nat, ghost hi: nat)
    requires lo <= i < hi <= a.Length && lo <= j < hi
    modifies a
    ensures Permuted(old(a[..]), a[..], lo, hi) && a[..] == InOrder(old(a[..]), i, j)
  {
    PermutedRefl(a[..], lo, hi);
    hide Permuted, Swap, Precedes;
    if Precedes(a[j], a[i]) { SwapDocs(a, i, j, lo, hi); }
  }

  /** Moves the pivot, the median of the first, middle and last entry, to a[right]. */
  method ChoosePivot(a: array<Doc>, left: nat, right: nat)
    requires left <= right < a.Length
    modifies a
    ensures Permuted(old(a[..]), a[..], left, right + 1)
    ensures var mid := left + (right - left) / 2;
            left < mid ==> !Precedes(a[right], a[left]) && !Precedes(a[mid], a[right])
  {
    hide *;
    var mid := left + (right - left) / 2;
    ghost var was := a[..];
    if left < mid { MedianLast(was, left, mid, right); }
    Order(a, left, mid, left, right + 1);
    ghost var once := a[..];
    Order(a, left, right, left, right + 1);
    PermutedTrans(was, once, a[..], left, right + 1);
    ghost var twice := a[..];
    Order(a, right, mid, left, right + 1);
    PermutedTrans(was, twice, a[..], left, right + 1);
    assert a[..][left] == a[left] && a[..][mid] == a[mid] && a[..][right] == a[right];
  }

  /** partition_docs */
  method Partition(a: array<Doc>, left: nat, right: nat) returns (store: nat)
    requires left <= right < a.Length
    modifies a
    ensures Permuted(old(a[..]), a[..], left, right + 1) && Split(a[..], left, right + 1, store)
  {
    hide *;
    ghost var was := a[..];
    ChoosePivot(a, left, right);
    var pivot := a[right];
    store := left;
    PartitionStart(was, a[..], left, right);
    var i := left;
    while i < right
      invariant left <= store <= i <= right && a[right] == pivot
      invariant Parting(was, a[..], left, right, store, i)
    {
      ghost var s := a[..];
      if Precedes(a[i], pivot) {
        PartitionMove(was, s, left, right, store, i);
        SwapDocs(a, store, i, left, right);
        store := store + 1;
      } else {
        PartitionKeep(was, s, left, right, store, i);
      }
      i := i + 1;
    }
    PartitionDone(was, a[..], left, right, store);
    SwapDocs(a, store, right, left, right + 1);
  }

  // ---------- partial quicksort ----------

  /** Within lo..hi, no entry that lies after one of the first k places should come before it. */
  ghost predicate TopSorted(s: seq<Doc>, lo: nat, hi: nat, k: int) {
    hi <= |s| && forall i, j :: lo <= i < j < hi && i < k ==> !Precedes(s[j], s[i])
  }

  /** Places lo..left are settled as far as hi, and what lies behind `right` need not come forward. */
  ghost predicate Settled(s: seq<Doc>, lo: nat, hi: nat, left: nat, right: int, k: int) {
    && lo <= left <= right + 1 <= hi <= |s|
    && (forall i, j :: lo <= i < left && i < j < hi && i < k ==> !Precedes(s[j], s[i]))
    && (forall i, j :: left <= i <= right < j < hi ==> !Precedes(s[j], s[i]))
    && (right + 1 < hi ==> k <= right + 1)
  }

  /** Rearranging the part still to be sorted leaves the rest settled. */
  lemma SettledPermuted(s: seq<Doc>, t: seq<Doc>, lo: nat, hi: nat, left: nat, right: int, k: int)
    requires Settled(s, lo, hi, left, right, k) && Permuted(s, t, left, right + 1)
    ensures Settled(t, lo, hi, left, right, k)
  {
    hide Precedes;
    forall i, j | lo <= i < left && i < j < hi && i < k
      ensures !Precedes(t[j], t[i])
    {
      if left <= j <= right {
        var j' := CameFrom(s, t, left, right + 1, j);
      }
    }
    forall i, j | left <= i <= right < j < hi
      ensures !Precedes(t[j], t[i])
    {
      var i' := CameFrom(s, t, left, right + 1, i);
    }
  }

  lemma SplitParts(s: seq<Doc>, lo: nat, hi: nat, p: nat, i: nat, j: nat)
    requires Split(s, lo, hi, p) && lo <= i <= p <= j < hi
    ensures !Precedes(s[j], s[i])
  {
  }

  /** The pivot lies behind the places that matter: only its left side is left to sort. */
  lemma GoLeft(s: seq<Doc>, lo: nat, hi: nat, left: nat, right: nat, k: int, p: nat)
    requires Settled(s, lo, hi, left, right, k) && Split(s, left, right + 1, p) && k <= p
    ensures Settled(s, lo, hi, left, p - 1, k)
  {
    hide Precedes, Split;
    assert left <= p <= right by { SplitBounds(s, left, right + 1, p); }
    forall i, j | left <= i <= p - 1 < j < hi
      ensures !Precedes(s[j], s[i])
    {
      if j <= right { SplitParts(s, left, right + 1, p, i, j); }
    }
  }

  lemma SplitBounds(s: seq<Doc>, lo: nat, hi: nat, p: nat)
    requires Split(s, lo, hi, p)
    ensures lo <= p < hi
  {
  }

  /** The left side is sorted (or empty): only the right side is left. */
  lemma GoRight(s: seq<Doc>, lo: nat, hi: nat, left: nat, right: nat, k: int, p: nat)
    requires Settled(s, lo, hi, left, right, k) && Split(s, left, right + 1, p) && p < k && TopSorted(s, left, p, k)
    ensures Settled(s, lo, hi, p + 1, right, k)
  {
    hide Precedes, Split;
    SplitBounds(s, left, right + 1, p);
    forall i, j | lo <= i < p + 1 && i < j < hi && i < k
      ensures !Precedes(s[j], s[i])
    {
      if i >= left && p <= j <= right { SplitParts(s, left, right + 1, p, i, j); }
    }
  }

  /** Sorting the left side keeps the split. */
  lemma SplitPermuted(s: seq<Doc>, t: seq<Doc>, lo: nat, hi: nat, p: nat)
    requires Split(s, lo, hi, p) && Permuted(s, t, lo, p)
    ensures Split(t, lo, hi, p)
  {
    hide Precedes;
    forall i | lo <= i < p
      ensures Precedes(t[i], t[p])
    {
      var i' := CameFrom(s, t, lo, p, i);
    }
  }

  lemma SettledStart(s: seq<Doc>, left: nat, right: int, k: int)
    requires left <= right + 1 <= |s|
    ensures Settled(s, left, right + 1, left, right, k)
  {
  }

  lemma SettledDone(s: seq<Doc>, lo: nat, hi: nat, left: nat, right: int, k: int)
    requires Settled(s, lo, hi, left, right, k) && (SortedIn(s, left, right + 1) || right <= left)
    ensures TopSorted(s, lo, hi, k)
  {
    hide Precedes;
  }

  lemma SettledBounds(s: seq<Doc>, lo: nat, hi: nat, left: nat, right: int, k: int)
    requires Settled(s, lo, hi, left, right, k)
    ensures lo <= left <= right + 1 <= hi <= |s|
  {
  }

  /** The recursive call on the left of the pivot, as seen from the whole window. */
  lemma LeftSideSorted(s: seq<Doc>, t: seq<Doc>, lo: nat, hi: nat, left: nat, right: nat, k: int, p: nat)
    requires Settled(s, lo, hi, left, right, k) && Split(s, left, right + 1, p) && p < k
    requires Permuted(s, t, left, p) && TopSorted(t, left, p, k)
    ensures Permuted(s, t, lo, hi) && Settled(t, lo, hi, p + 1, right, k)
  {
    hide Precedes, Permuted, Settled, Split, TopSorted;
    SettledBounds(s, lo, hi, left, right, k);
    SplitBounds(s, left, right + 1, p);
    PermutedWiden(s, t, left, p, left, right + 1);
    PermutedWiden(s, t, left, p, lo, hi);
    SettledPermuted(s, t, lo, hi, left, right, k);
    SplitPermuted(s, t, left, right + 1, p);
    GoRight(t, lo, hi, left, right, k, p);
  }

  lemma NothingToSort(s: seq<Doc>, left: nat, k: int)
    requires left <= |s|
    ensures Permuted(s, s, left, left) && TopSorted(s, left, left, k)
  {
  }

  /** partial_quicksort_docs: the recursion is on the left side only, the right side is the loop's. */
  method PartialQuicksort(a: array<Doc>, left0: nat, right0: int, k: int)
    requires left0 <= right0 + 1 <= a.Length
    modifies a
    ensures Permuted(old(a[..]), a[..], left0, right0 + 1) && TopSorted(a[..], left0, right0 + 1, k)
    decreases right0 + 1 - left0
  {
    hide Permuted, Precedes, Split, Settled, TopSorted, SortedIn;
    var left, right := left0, right0;
    ghost var was, lo, hi := a[..], left0, right0 + 1;
    PermutedRefl(was, lo, hi);
    SettledStart(was, left, right, k);
    while left < right
      invariant lo <= left <= right + 1 <= hi
      invariant Permuted(was, a[..], lo, hi) && Settled(a[..], lo, hi, left, right, k)
      decreases right - left
    {
      ghost var before := a[..];
      if right - left < 16 {
        InsertionSort(a, left, right - left + 1);
        SettledPermuted(before, a[..], lo, hi, left, right, k);
        PermutedWiden(before, a[..], left, right + 1, lo, hi);
        PermutedTrans(was, before, a[..], lo, hi);
        SettledDone(a[..], lo, hi, left, right, k);
        return;
      }
      var pivot := Partition(a, left, right);
      SettledPermuted(before, a[..], lo, hi, left, right, k);
      PermutedWiden(before, a[..], left, right + 1, lo, hi);
      PermutedTrans(was, before, a[..], lo, hi);
      SplitBounds(a[..], left, right + 1, pivot);
      ghost var parted := a[..];
      if pivot >= k {
        GoLeft(parted, lo, hi, left, right, k, pivot);
        right := pivot - 1;
      } else {
        NothingToSort(parted, left, k);
        if pivot > left {
          PartialQuicksort(a, left, pivot - 1, k);
        }
        LeftSideSorted(parted, a[..], lo, hi, left, right, k, pivot);
        PermutedTrans(was, parted, a[..], lo, hi);
        left := pivot + 1;
      }
    }
    SettledDone(a[..], lo, hi, left, right, k);
  }

  lemma TopSortedTrivial(s: seq<Doc>, n: nat, k: int)
    requires n <= |s| && (n <= 1 || k <= 0)
    ensures TopSorted(s, 0, n, k)
  {
  }

  lemma TopSortedMore(s: seq<Doc>, n: nat, k: int)
    requires TopSorted(s, 0, n, n) && n <= k
    ensures TopSorted(s, 0, n, k)
  {
  }

  /** sort_top_k_docs */
  method SortTopK(a: array<Doc>, n: nat, k: int)
    requires n <= a.Length
    modifies a
    ensures Permuted(old(a[..]), a[..], 0, n) && TopSorted(a[..], 0, n, k)
  {
    hide Permuted, TopSorted;
    PermutedRefl(a[..], 0, n);
    if n <= 1 || k <= 0 {
      TopSortedTrivial(a[..], n, k);
      return;
    }
    var places := if k >= n then n else k;
    PartialQuicksort(a, 0, n - 1, places);
    if k >= n { TopSortedMore(a[..], n, k); }
  }

  // ---------- the ranking ----------

  /** `r` lists the k first entries of `all`, in order. */
  ghost predicate IsRanking(r: seq<Doc>, all: multiset<Doc>, k: nat) {
    && multiset(r) <= all
    && |r| == (if |all| <= k then |all| else k)
    && SortedIn(r, 0, |r|)
    && forall x, y :: x in r && y in all - multiset(r) ==> !Precedes(y, x)
  }

  /** No two entries are for the same CTID, the key of the score table. */
  ghost predicate OnePerCtid(all: multiset<Doc>) {
    forall x, y :: x in all && y in all && x.ctid == y.ctid ==> x == y
  }

  /** A higher score, or the same score and not the higher block, nor the higher offset in the same block. */
  predicate NoLater(x: Doc, y: Doc) {
    || x.score > y.score
    || (x.score == y.score &&
        (x.ctid.block < y.ctid.block || (x.ctid.block == y.ctid.block && x.ctid.offset <= y.ctid.offset)))
  }

  /** In plain terms: the ranking falls in score, CTIDs rise at a tie, and nothing left out comes before a part of it. */
  lemma RankingFalls(r: seq<Doc>, all: multiset<Doc>, k: nat)
    requires IsRanking(r, all, k)
    ensures forall i, j :: 0 <= i < j < |r| ==> NoLater(r[i], r[j])
    ensures forall x, y :: x in r && y in all - multiset(r) ==> NoLater(x, y)
  {
  }

  lemma FirstIsFirst(r: seq<Doc>, all: multiset<Doc>, k: nat, x: Doc)
    requires IsRanking(r, all, k) && x in all && r != []
    ensures !Precedes(x, r[0])
  {
    hide Precedes;
    if x in multiset(r) {
      var j :| 0 <= j < |r| && r[j] == x;
    } else {
      assert r[0] in r && x in all - multiset(r);
    }
    PrecedesIsStrictWeakOrder(x, x, x);
  }

  lemma RankingTail(r: seq<Doc>, all: multiset<Doc>, k: nat)
    requires IsRanking(r, all, k) && r != []
    ensures r[0] in all && k > 0 && IsRanking(r[1..], all - multiset{r[0]}, k - 1)
  {
    hide Precedes;
    var rest := all - multiset{r[0]};
    assert r == [r[0]] + r[1..];
    assert multiset(r) == multiset{r[0]} + multiset(r[1..]);
    assert rest - multiset(r[1..]) == all - multiset(r);
    assert forall x :: x in r[1..] ==> x in r;
  }

  lemma RankingsStartAlike(r: seq<Doc>, t: seq<Doc>, all: multiset<Doc>, k: nat)
    requires IsRanking(r, all, k) && IsRanking(t, all, k) && OnePerCtid(all) && r != [] && t != []
    requires r[0] in all && t[0] in all
    ensures r[0] == t[0]
  {
    FirstIsFirst(r, all, k, t[0]);
    FirstIsFirst(t, all, k, r[0]);
    hide IsRanking;
  }

  lemma RankingLength(r: seq<Doc>, all: multiset<Doc>, k: nat)
    requires IsRanking(r, all, k)
    ensures |r| == if |all| <= k then |all| else k
  {
  }

  lemma OnePerCtidLess(all: multiset<Doc>, x: Doc)
    requires OnePerCtid(all)
    ensures OnePerCtid(all - multiset{x})
  {
  }

  /** Whatever pivots were chosen, the ranking is the same. */
  lemma {:induction false} RankingUnique(r: seq<Doc>, t: seq<Doc>, all: multiset<Doc>, k: nat)
    requires IsRanking(r, all, k) && IsRanking(t, all, k) && OnePerCtid(all)
    ensures r == t
    decreases |r|
  {
    hide IsRanking, OnePerCtid;
    RankingLength(r, all, k);
    RankingLength(t, all, k);
    if r != [] {
      RankingTail(r, all, k);
      RankingTail(t, all, k);
      RankingsStartAlike(r, t, all, k);
      OnePerCtidLess(all, r[0]);
      RankingUnique(r[1..], t[1..], all - multiset{r[0]}, k - 1);
      assert r == [r[0]] + r[1..] && t == [t[0]] + t[1..];
    }
  }

  lemma TakeAway<T>(s: seq<T>, m: nat)
    requires m <= |s|
    ensures multiset(s[..m]) <= multiset(s) && multiset(s) - multiset(s[..m]) == multiset(s[m..])
  {
    assert s == s[..m] + s[m..];
  }

  lemma Position<T>(s: seq<T>, lo: nat, hi: nat, x: T) returns (i: nat)
    requires lo <= hi <= |s| && x in multiset(s[lo..hi])
    ensures lo <= i < hi && s[i] == x
  {
    assert x in s[lo..hi];
    var j :| 0 <= j < hi - lo && s[lo..hi][j] == x;
    i := lo + j;
  }

  lemma FirstPlacesSorted(s: seq<Doc>, k: nat, m: nat)
    requires TopSorted(s, 0, |s|, k) && m <= |s| && m <= k
    ensures SortedIn(s[..m], 0, m)
  {
    hide Precedes;
  }

  lemma LaterDoesNotPrecede(s: seq<Doc>, k: nat, i: nat, j: nat)
    requires TopSorted(s, 0, |s|, k) && i < j < |s| && i < k
    ensures !Precedes(s[j], s[i])
  {
    hide Precedes;
  }

  /** The first places of a partially sorted array are the ranking of the whole. */
  lemma {:induction false} TopSortedRanks(s: seq<Doc>, k: nat)
    requires TopSorted(s, 0, |s|, k)
    ensures IsRanking(s[..if |s| <= k then |s| else k], multiset(s), k)
  {
    hide Precedes, TopSorted, SortedIn;
    var m := if |s| <= k then |s| else k;
    TakeAway(s, m);
    FirstPlacesSorted(s, k, m);
    assert s[..m] == s[0..m] && s[m..] == s[m..|s|];
    forall x, y | x in multiset(s[..m]) && y in multiset(s[m..])
      ensures !Precedes(y, x)
    {
      var i := Position(s, 0, m, x);
      var j := Position(s, m, |s|, y);
      LaterDoesNotPrecede(s, k, i, j);
    }
  }

  const scoreOf: Doc -> real := (d: Doc) => d.score

  lemma MapTake(s: seq<Doc>, m: nat)
    requires m <= |s|
    ensures |Map(s, scoreOf)| == |s| && Map(s[..m], scoreOf) == Map(s, scoreOf)[..m]
  {
  }

  lemma LaterScoresNoBetter(s: seq<Doc>, k: nat, i: nat, j: nat)
    requires TopSorted(s, 0, |s|, k) && i < j < |s| && i < k
    ensures |Map(s, scoreOf)| == |s| && Map(s, scoreOf)[j] <= Map(s, scoreOf)[i]
  {
    assert !Precedes(s[j], s[i]);
  }

  /** A ranking has the k best scores. */
  lemma TopSortedScores(s: seq<Doc>, k: nat)
    requires TopSorted(s, 0, |s|, k)
    ensures IsTopK(multiset(Map(s[..if |s| <= k then |s| else k], scoreOf)), multiset(Map(s, scoreOf)), k)
  {
    hide Map, TopSorted, Precedes;
    var m := if |s| <= k then |s| else k;
    var all := Map(s, scoreOf);
    MapTake(s, m);
    TakeAway(all, m);
    assert all[..m] == all[0..m] && all[m..] == all[m..|s|];
    forall x, y | x in multiset(all[..m]) && y in multiset(all[m..])
      ensures y <= x
    {
      var i := Position(all, 0, m, x);
      var j := Position(all, m, |s|, y);
      LaterScoresNoBetter(s, k, i, j);
    }
  }

  /** tp_extract_and_sort_documents, on the entries of the score table in the order of its scan. */
  method ExtractAndSort(entries: seq<Doc>, maxResults: nat) returns (sorted: seq<Doc>)
    ensures IsRanking(sorted, multiset(entries), maxResults)
    ensures IsTopK(multiset(Map(sorted, scoreOf)), multiset(Map(entries, scoreOf)), maxResults)
    ensures forall i, j :: 0 <= i < j < |sorted| ==> NoLater(sorted[i], sorted[j])
    ensures forall x, y :: x in sorted && y in multiset(entries) - multiset(sorted) ==> NoLater(x, y)
  {
    hide IsTopK, TopSorted, IsRanking, Map;
    var total := |entries|;
    var all := new Doc[total](i requires 0 <= i < total => entries[i]);
    assert all[..] == entries;
    var count := if total < maxResults then total else maxResults;
    SortTopK(all, total, count);
    sorted := all[..count];
    assert all[..][..count] == all[..count];
    ScanOrderForgotten(entries, all[..], count, maxResults);
    RankingFalls(sorted, multiset(entries), maxResults);
  }

  lemma ScanOrderForgotten(entries: seq<Doc>, s: seq<Doc>, count: nat, k: nat)
    requires Permuted(entries, s, 0, |entries|) && TopSorted(s, 0, |entries|, count)
    requires count == if |entries| < k then |entries| else k
    ensures IsRanking(s[..count], multiset(entries), k)
    ensures IsTopK(multiset(Map(s[..count], scoreOf)), multiset(Map(entries, scoreOf)), k)
  {
    hide IsTopK, IsRanking, Map, Precedes;
    assert s[0..|s|] == s && entries[0..|s|] == entries;
    assert TopSorted(s, 0, |s|, k);
    TopSortedRanks(s, k);
    TopSortedScores(s, k);
    MapPermutation(s, entries, scoreOf);
  }
}
