/** Looking a term up in a segment (tp_segment_posting_iterator_init, src/segment/scan.c). */
module Dictionary {
  import opened Merge
  import opened MergeBlocks
  import opened Terms
  import opened Wrappers

  /** Where a term can still be when the search has narrowed the dictionary to left..right. */
  ghost predicate NarrowedTo(terms: seq<string>, term: string, left: int, right: int) {
    && 0 <= left <= right + 1 <= |terms|
    && (forall i :: 0 <= i < left ==> Less(terms[i], term))
    && (forall i :: right < i < |terms| ==> Less(term, terms[i]))
  }

  lemma NarrowedStart(terms: seq<string>, term: string)
    ensures NarrowedTo(terms, term, 0, |terms| - 1)
  {
  }

  /** One comparison settles one half of the dictionary. */
  lemma Narrow(terms: seq<string>, term: string, left: int, right: int, mid: int)
    requires AscendingTerms(terms) && NarrowedTo(terms, term, left, right) && left <= mid <= right
    ensures StrCmp(term, terms[mid]) == 0 <==> terms[mid] == term
    ensures StrCmp(term, terms[mid]) < 0 ==> NarrowedTo(terms, term, left, mid - 1)
    ensures StrCmp(term, terms[mid]) > 0 ==> NarrowedTo(terms, term, mid + 1, right)
  {
    hide StrCmp;
    StrCmpZero(term, terms[mid]);
    StrCmpFlips(terms[mid], term);
    if StrCmp(term, terms[mid]) < 0 {
      forall i | mid - 1 < i < |terms|
        ensures Less(term, terms[i])
      {
        if i != mid { LessTransitive(term, terms[mid], terms[i]); }
      }
    } else if StrCmp(term, terms[mid]) > 0 {
      forall i | 0 <= i < mid + 1
        ensures Less(terms[i], term)
      {
        if i != mid { LessTransitive(terms[i], terms[mid], term); }
      }
    }
  }

  lemma NarrowedToNothing(terms: seq<string>, term: string, left: int, right: int)
    requires NarrowedTo(terms, term, left, right) && left > right
    ensures term !in terms
  {
    hide StrCmp;
    Trichotomy(term, term);
  }

  /** The binary search of the dictionary. */
  method FindTerm(terms: seq<string>, term: string) returns (entry: Option<nat>)
    requires AscendingTerms(terms)
    ensures entry.Some? ==> entry.value < |terms| && terms[entry.value] == term
    ensures entry.None? ==> term !in terms
  {
    hide StrCmp, NarrowedTo, AscendingTerms;
    if |terms| == 0 { return None; }
    var left, right := 0, |terms| - 1;
    NarrowedStart(terms, term);
    while left <= right
      invariant 0 <= left <= right + 1 <= |terms| && NarrowedTo(terms, term, left, right)
      decreases right - left
    {
      var mid := left + (right - left) / 2;
      var cmp := StrCmp(term, terms[mid]);
      Narrow(terms, term, left, right, mid);
      if cmp == 0 {
        return Some(mid);
      } else if cmp < 0 {
        right := mid - 1;
      } else {
        left := mid + 1;
      }
    }
    NarrowedToNothing(terms, term, left, right);
    entry := None;
  }

  /** Opening a term finds the posting list that holds exactly what the segment says about the term. */
  method OpenTerm(s: SegmentData, term: string) returns (list: Option<PostingList>)
    requires AscendingTerms(s.terms) && |s.lists| == |s.terms|
    ensures list.Some? <==> term in s.terms
    ensures list.Some? ==> ListMeaning(list.value, s.docs) == Meaning(s, term)
    ensures list.None? ==> Meaning(s, term) == multiset{}
  {
    hide AscendingTerms, ListMeaning, Meaning;
    var entry := FindTerm(s.terms, term);
    match entry
    case Some(k) =>
      MeaningAt(s, term, k);
      list := Some(s.lists[k]);
    case None =>
      NoMeaning(s, term);
      list := None;
  }
}
