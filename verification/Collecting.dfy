/** Bookkeeping for heaps that several sources are offered to one after another. */
module Collecting {
  import opened TopK
  import opened TopKSpec

  /**
   * The heap holds the best of the prior and the offered scores, and every slot it holds was
   * there at the start or is one of the offered slots.
   */
  ghost predicate Collected(heap: TopKHeap, prior: multiset<real>, start: multiset<RawEntry>,
                            scores: multiset<real>, slots: multiset<RawEntry>)
    reads heap.Repr
  {
    heap.Valid() && IsTopK(heap.Scores(), prior + scores, heap.capacity) && heap.Held() <= start + slots
  }

  lemma CollectedNothing(heap: TopKHeap)
    requires heap.Valid()
    ensures Collected(heap, heap.Scores(), heap.Held(), multiset{}, multiset{})
  {
    heap.SizeIsCard();
    TopKAll(heap.Scores(), heap.capacity);
    assert heap.Scores() + multiset{} == heap.Scores();
  }

  lemma CollectedMore(heap: TopKHeap, before: multiset<real>, held: multiset<RawEntry>,
                      prior: multiset<real>, start: multiset<RawEntry>,
                      scores: multiset<real>, slots: multiset<RawEntry>,
                      more: multiset<real>, moreSlots: multiset<RawEntry>)
    requires IsTopK(before, prior + scores, heap.capacity) && held <= start + slots
    requires heap.Valid() && IsTopK(heap.Scores(), before + more, heap.capacity) && heap.Held() <= held + moreSlots
    ensures Collected(heap, prior, start, scores + more, slots + moreSlots)
  {
    hide IsTopK;
    TopKCompose(before, prior + scores, heap.Scores(), more, heap.capacity);
    assert prior + (scores + more) == prior + scores + more;
  }

  lemma CollectedMeans(heap: TopKHeap, prior: multiset<real>, start: multiset<RawEntry>,
                       scores: multiset<real>, slots: multiset<RawEntry>)
    requires Collected(heap, prior, start, scores, slots)
    ensures heap.Valid() && IsTopK(heap.Scores(), prior + scores, heap.capacity) && heap.Held() <= start + slots
  {
  }
}
