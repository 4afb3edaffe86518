# pg_textsearch: verified model of the search engine

This project models, in Dafny, the engine inside the BM25 index of pg_textsearch: the code that decides
which postings are read, skipped, moved and re-encoded. It proves what that code is for. PostgreSQL's
services (buffers, locks, shared memory, hash tables) are taken as values; scores are exact reals.

Check it with `dafny verify dfyconfig.toml`. Every induction is written out, so that it verifies with
`--manual-lemma-induction`, too.

## The parts

| files | what they model | main results |
|---|---|---|
| `TopK`, `TopKSpec`, `HeapOrder`, `RustTopK`, `Extraction` | the bounded heaps of results, in C and in Rust | after any adds the heap holds exactly the k best scores offered; results come out sorted |
| `Postings`, `WandSpec`, `Wand`, `WandSearch`, `WandSegment` | the Block-Max WAND traversal of a segment for several terms | `WandLoop`: with block bounds that hold, the pruned traversal selects exactly what scoring every document would; it terminates |
| `SingleTerm`, `MemtableScoring`, `Search`, `SearchSingle`, `Completeness`, `QueryIndex`, `Collecting` | the one-term path, the memtable, and whole queries | `ScoreMultiTermBmw`, `ScoreSingleTermBmw`: with bounds that hold, a query returns the k best scores of the whole index, sorted; `SearchIndex`: over spilled segments no row comes twice, each with its own score, and none is left out for a worse one |
| `Fieldnorm`, `Scoring` | length bytes, BM25 and the per-block bound | Galois connection; the value of a BM25 score; exactly when a block bound holds |
| `Exactness`, `Bm25` | what bounds that are too low do to pruning | `SearchExactIff`, `CompactedSearchExactIff`: the single-term search is exact if and only if every posting that passes is safe, with its length cut to 16 bits |
| `Radix`, `Compression` | delta coding and bit packing of posting blocks | `RoundTrip`: decompressing undoes compressing |
| `Paging`, `BlockStore` | a segment's bytes on pages, the page index, patched entries, and a posting block on its whole way | `StoreAndRead`: what is written is what is read; `StoreAndLoad`: exactly when a stored block can be loaded, and then it is the block written |
| `DocMap`, `Terms`, `MergeTerms`, `MergePostings`, `MergeDocs`, `MergeBlocks`, `Merge`, `Dictionary` | document ids, compaction of segments, dictionary lookup | `MergeSegments`: a merged segment means what its sources mean together |
| `Lsm` | spills and the compaction of levels | `SpillAll`: any run of spills leaves an index that means exactly what was spilled; levels count in base B |
| `ParallelBuild`, `ParallelProgress` | the workers and the leader of a parallel build, interleaved freely | `RunKeepsInv`: no document lost or doubled at any step; `ExitCompleteIff`: exactly when the index is complete at the end; `MergesIffEnough`, `StuckForever`: exactly when a build whose workers wait goes on |
| `Selection` | the partial quicksort of the exhaustive path | `ExtractAndSort`: the k first entries of the ranking, which is unique |
| `ItemPointers`, `Constants`, `Wrappers`, `Sequences`, `Sums`, `QSort` | CTIDs, shared sizes, optional values, sequences without repetition, sums, a stand-in for library sorts | |

Where the code and its documentation disagree, the model follows the code:

- The skip entries store the largest length byte of a block (`src/segment/merge.c:1063`), while
  `block_max_score` is documented for the shortest document (`rust/src/scoring.rs:50`). The WAND theorems
  take "a block bound dominates the scores in its block" as a hypothesis. `Scoring.DocumentedBoundHolds`
  proves it for the documented byte, `Scoring.StoredBoundHoldsIff` says exactly when it holds for the stored
  one, and `Scoring.StoredBoundFails` is a block of two postings on which it does not. For the single-term search
  of a compacted segment `Bm25.CompactedSearchExactIff` gives the exact condition under which it selects the k best
  from every heap, and `Bm25.SkippedBlockCanWin` is a search that does not. For several terms the condition is
  exact for what the search requires (`Bm25.CompactedInputValidIff`) and for each single skip
  (`Exactness.DocumentSkipRightIff`, with `Bm25.SkippedDocumentCanWin` as a wrong skip after which the best score
  cannot be found); that a whole search for several terms goes wrong whenever the requirement fails is not claimed.
- Single-term scoring takes a document's length through a uint16 (`src/segment/scan.c:350`); multi-term scoring
  and the block bounds do not. The two lengths agree exactly for codes below 136, documents shorter than 65,560
  words (`SingleTerm.LengthCastExactIff`). So the condition of the single-term search is stated with the cut length.
  It is the stronger one (`Bm25.UnfilteredSafeIff`): with b > 0, a posting with its block's largest frequency and a
  code from 136 on never meets it (`Bm25.LongDocumentIsLost`, `Bm25.SafeIsNotEnough`).
- A compressed block is loaded by reading 898 bytes from its start, however short it is
  (`src/segment/scan.c:194-200`), and reading past the last page is an error. `BlockStore.StoreAndLoad` says
  exactly when a stored block can be loaded, `BlockStore.LoadableIff` says it in lengths, and
  `BlockStore.UnreadableBlock` stores a posting on a segment of one page and cannot load it.
- The loop that rebuilds the page map need not stop: `Paging.LoadNeverStops` is a page index on which it does not,
  and `Paging.LoadStops` says that it stops wherever no index page is empty.
- The leader of a parallel build is meant to merge what is left once all workers are done, but it samples the
  buffers before it reads the counter of finished workers (`src/am/build_parallel.c:2065-2085`).
  `ParallelBuild.LeaderMissesBuffer` is a run that loses a document this way, and
  `ParallelBuild.ExitCompleteIff` says exactly when a run does not.
- The leader merges once it finds as many ready buffers as there are workers, so that it "can still make progress"
  with a worker that has filled both buffers (`src/am/build_parallel.c:2093-2096`). When the other workers have
  nothing more to do, there need not be so many: `ParallelProgress.MergesIffEnough` is the exact condition,
  `ParallelProgress.StuckForever` says that nothing moves without it, `ParallelProgress.TwoWorkersGetStuck` is a run with
  two workers that gets there, and `ParallelProgress.OneWorkerGoesOn` says that one worker alone never does.
- Doc ids in a merged segment follow (tenant, CTID), not CTID alone as `src/segment/merge.c:604-605` says.

## Model

| member | source | states |
|---|---|---|
| TopKSpec.TopKUnique | src/query/bmw.h:57-72 | the k best scores are determined as a multiset, whichever entry is kept at a tie |
| TopKSpec.TopKCompose | src/query/bmw.c:621-728 | selecting the best from source after source is selecting once from all of them |
| TopKSpec.TopKIgnoreBeaten | src/query/bmw.c:1584-1586 | scores that none of a full heap's scores is below may be left out |
| TopKSpec.BeatsForever | src/query/bmw.h:57-61 | the threshold never falls: what is beaten stays beaten, whatever is offered later |
| TopKSpec.RunSelects | src/query/bmw.c:196-249 | after any run of adds, memtable and segment ones mixed, the heap holds the k best of all scores offered |
| TopKSpec.ThresholdNeverFalls | src/query/bmw.h:57-72 | a score beaten at some point of a run is beaten at every later point |
| TopKSpec.BeatenChangesNothing | src/query/bmw.h:68-72 | offering a dominated score leaves the held scores as they are, so skipping the offer is safe |
| TopKSpec.SkipIsRightIff | src/query/bmw.c:530-536 | leaving scores out whenever a bound is too low for the heap is right for every full heap exactly when none of them is above the bound; for `<` and for `<=` |
| HeapOrder.SiftUpStep | src/query/bmw.c:124-135 | one exchange with the parent moves the only violation of heap order one level up |
| HeapOrder.SiftDownStep | src/query/bmw.c:141-161 | one exchange with the weakest child moves the only violation one level down |
| HeapOrder.RootIsLeast | src/query/bmw.c:170-190 | in heap order nothing is weaker than the root |
| TopK.HeapLessIsStrictTotalOrder | src/query/bmw.c:101-118 | heap_less is a strict total order on distinct entries, although it compares mixed pairs by other keys |
| TopK.AdmitsStronger | src/query/bmw.c:170-190 | only stronger entries are admitted, and a stronger one is refused exactly at a mixed tie or at a tie of two segments with one doc id |
| TopK.TopKHeap.constructor | src/query/bmw.c:27-40 | an empty heap of capacity k |
| TopK.TopKHeap.RootScoreIsLeast | src/query/bmw.c:170-190 | the root's score is held and is the least one held |
| TopK.TopKHeap.Threshold | src/query/bmw.h:57-61 | 0 until full; then a held score that no held score is below |
| TopK.TopKHeap.Dominated | src/query/bmw.h:68-72 | true exactly when the heap is full and every held score is larger |
| TopK.TopKHeap.SiftUp | src/query/bmw.c:124-135 | restores heap order upwards, keeping entries and scores as multisets |
| TopK.TopKHeap.SiftDown | src/query/bmw.c:141-161 | restores heap order downwards, keeping entries and scores as multisets |
| TopK.TopKHeap.BeatsRoot | src/query/bmw.c:170-190 | yes exactly for a higher score, or at a tie of two memtable entries for the lower CTID, of two segment entries for the lower doc id; a mixed tie is refused |
| TopK.TopKHeap.AddMemtable | src/query/bmw.c:196-219 | heap order kept; the scores held are the k best of those held before and the one offered; with the heap full the entry takes the root's place exactly by the rule above |
| TopK.TopKHeap.AddSegment | src/query/bmw.c:225-249 | the same for a segment entry without a CTID |
| TopK.RootGoesFirst | src/query/bmw.c:62-103 | the entry that goes when a better one comes: none has a lower score, and at a tie none the higher CTID, or between entries of other kinds the higher doc id or segment |
| TopK.OfferKeepsFirst | src/query/bmw.c:62-103 | among entries of one kind, memtable rows or documents of one segment, an offer to a heap that holds the first of them keeps it so, ties included: lower CTID or lower doc id first |
| ItemPointers.BeforeIsNumeric | src/query/bmw.c:297-317 | CTIDs are ordered as the numbers block * 65536 + offset |
| Extraction.ResolveCtids | src/query/bmw.c:256-291 | every slot gets the CTID its segment's column gives its doc id; memtable slots keep theirs |
| Extraction.Extract | src/query/bmw.c:297-350 | all entries come out once, no hit scoring below a later one and, at a tie, none with the lower block or the lower offset in the same block behind; the heap is empty |
| Extraction.ReadOut | src/query/bmw.c:256-353 | both steps: one hit for each held entry, with exactly the heap's scores, in that order |
| RustTopK.TopKHeap.Threshold | rust/src/topk.rs:42-48 | 0 until full; then the least score held |
| RustTopK.TopKHeap.Dominated | rust/src/topk.rs:52-54 | true exactly when the heap is full and every held score is larger |
| RustTopK.TopKHeap.Add | rust/src/topk.rs:60-78 | added exactly when there is room or the root scores less; the scores held are the k best of those held before and the new one |
| RustTopK.TopKHeap.SiftUp | rust/src/topk.rs:125-134 | heap order restored, items kept |
| RustTopK.TopKHeap.SiftDown | rust/src/topk.rs:136-157 | heap order restored, items kept |
| RustTopK.TopKHeap.ExtractSorted | rust/src/topk.rs:83-111 | the held items in the first places of the outputs, scores falling and, at a tie, indices rising; the heap empty |
| Postings.AdvanceTermIterator | src/query/bmw.c:883-900 | moves to the list's next document, or to exhaustion when there is none |
| Postings.FindBlock | src/query/bmw.c:911-1007 | the binary search on last doc ids lands on the first block that can hold the target |
| Postings.ScanBlock | src/query/bmw.c:911-1007 | the scan inside a block, with its fall-over into the next one, finds the first posting at or after the target |
| Postings.SeekTermToDoc | src/query/bmw.c:911-1007 | stops at the first document of the list at or after both cursor and target, never moves back, and reports exhaustion exactly when there is none |
| WandSpec.ScoreByCursor | src/query/bmw.c:1383-1416 | a document's full score is the sum over the cursors, in whatever order they stand |
| WandSpec.BlockBoundHolds | src/query/bmw.c:1209-1231 | for a document no cursor has passed, the block bounds of the pivot terms bound its full score |
| WandSpec.PivotScore | src/query/bmw.c:1383-1416 | the aligned pivot terms add up to the pivot's full score, and to less exactly when a cursor has passed it |
| WandSpec.WeightOfPosting | src/query/bmw.c:1404-1411 | a posting counts its BM25 score times the term's query frequency |
| WandSpec.RepetitionScore | src/query/bmw.c:1404-1411 | a query that repeats a term n times scores every document like one that names it n times with frequency 1 |
| WandSpec.RotateSorts | src/query/bmw.c:1125-1147 | inserting a cursor that moved right restores the order of the term array |
| Wand.RestoreOrdering | src/query/bmw.c:1125-1147 | the array is the old one with that element slid to its insertion point |
| Wand.FindWandPivot | src/query/bmw.c:1161-1199 | with a pivot: bounds of the cursors below it do not exceed the threshold, those up to it do; without: no document left can |
| Wand.SeekToPivot | src/query/bmw.c:1320-1355 | skips only documents that cannot beat the threshold, keeps order, terms and active count; on success every cursor is at or beyond the pivot |
| Wand.ComputeBlockMaxAtPivot | src/query/bmw.c:1209-1231 | the sum of the current block bounds of the pivot terms |
| Wand.ChooseSkip | src/query/bmw.c:1243-1313 | the term with the largest bound, and a target inside every pivot term's block and before other cursors, strictly beyond an aligned pivot |
| Wand.BlockMaxSkipAdvance | src/query/bmw.c:1243-1313 | skips only documents whose full score is at most the threshold; from an aligned pivot it strictly progresses |
| Wand.VerifyPivotAlignment | src/query/bmw.c:1362-1373 | true exactly when every pivot term stands at the pivot |
| Wand.ScorePivotDocument | src/query/bmw.c:1383-1416 | the sum of the scores of the pivot terms standing at the pivot, each as often as the query repeats it; what that comes to is in `WandSpec.PivotScore` and `WandSpec.WeightOfPosting` |
| Wand.AdvancePivotTerms | src/query/bmw.c:1591-1604 | moves every pivot term beyond the pivot, passing no other document, and counts exhausted cursors |
| Wand.SkipWrongTenant | src/query/bmw.c:1528-1578 | passes only the pivot and documents of other tenants, by 16-bit block marks or posting by posting |
| WandSearch.OfferNew | src/query/bmw.c:1581-1586 | an eligible pivot not offered before is offered with its full score, unless some cursor has passed it, and then it cannot enter |
| WandSearch.LeavePivot | src/query/bmw.c:1591-1604 | leaving the pivot keeps the loop invariant and shortens the remaining distance |
| WandSearch.LeaveWrongTenant | src/query/bmw.c:1528-1578 | skipping another tenant's pivot keeps the loop invariant and shortens the distance |
| WandSearch.RoundAtPivot | src/query/bmw.c:1507-1604 | steps 3 to 7 keep the invariant; progress is certain when the pivot terms were aligned |
| WandSearch.NoSeekMeansAligned | src/query/bmw.c:1320-1355 | when nothing had to be sought, all pivot terms already stand at the pivot |
| WandSearch.RoundFromPivot | src/query/bmw.c:1502-1604 | every path through one iteration keeps the invariant and strictly shortens the total distance of the cursors |
| WandSearch.ChoosePivot | src/query/bmw.c:1491-1500 | stopping for want of a pivot or past the doc range loses no competitive document |
| WandSearch.WandLoop | src/query/bmw.c:1482-1605 | for any block bounds that dominate, the loop terminates and the heap's scores are the k best of its earlier ones and the full scores of every eligible document |
| WandSegment.InitSegmentTermStates | src/query/bmw.c:1014-1070 | every cursor on its first posting, active cursors counted |
| WandSegment.SortTermsByDocId | src/query/bmw.c:1095-1118 | the cursors sorted by current document, none lost |
| WandSegment.SeekAllToMin | src/query/bmw.c:1459-1476 | every cursor at or beyond the start of the range, passing only documents before it |
| WandSegment.ScoreSegmentMultiTermBmw | src/query/bmw.c:1430-1608 | one segment scanned: the k best of the earlier scores and the full scores of all documents in range with the tenant; new entries are such documents with their full scores |
| SingleTerm.Next | src/segment/scan.c:269-355 | hands out the next posting, loading the next block by itself at the end of one |
| SingleTerm.NextInBlock | src/segment/scan.c:269-355 | as the scoring loop uses it: leaves a block exactly when all its postings were handed out |
| SingleTerm.ScoreBlock | src/query/bmw.c:564-611 | every posting of the block that passes the filter is offered exactly once, despite the iterator's move into the next block |
| SingleTerm.VisitBlock | src/query/bmw.c:516-612 | whatever the bounds are worth: a block below the threshold leaves the scores as they were, any other is selected from, also when its range or 16-bit tenant mark lets the code skip it |
| SingleTerm.BoundedBlockSelects | src/query/bmw.c:530-536 | with a bound that holds, skipping a block below the threshold selects the same scores as scoring it |
| SingleTerm.ScoreSegmentSingleTermBmw | src/query/bmw.c:472-619 | the scores held are those of visiting block after block; with bounds that hold they are the k best of the earlier scores and of all passing postings' scores |
| SingleTerm.LengthCastExactIff | src/segment/scan.c:350 | the uint16 length agrees with the decoded one exactly for codes below 136 |
| SingleTerm.LengthCast | src/segment/scan.c:350 | the uint16 length is less than 65536 and differs from the decoded one by a multiple of that |
| MemtableScoring.ScoreMemtableSingleTerm | src/query/bmw.c:407-467 | every posting of the tenant is taken into account, and no other (`MemtableScoring.TermSlotsAreTenants`) |
| MemtableScoring.Accumulate | src/query/bmw.c:770-877 | the accumulator has exactly the tenant's documents with a query term (`MemtableScoring.MemDocsAreTenants`), each with its summed score |
| MemtableScoring.ScoreMemtableMultiTerm | src/query/bmw.c:770-877 | every memtable document of the tenant (`MemtableScoring.MemtableSlotsAreTenants`) is offered once, with its full score |
| MemtableScoring.TermSlotsAreTenants | src/query/bmw.c:437-462 | what a single-term search takes from the memtable: exactly the postings of the tenant if one is asked for and the source has tenants, each with its BM25 score, a missing length counting as 1 |
| MemtableScoring.TermScoresAreTenants | src/query/bmw.c:437-462 | the same for the scores |
| MemtableScoring.MemDocsAreTenants | src/query/bmw.c:806-830 | the memtable documents of a search for several terms are exactly the rows of such postings of some query term |
| MemtableScoring.MemtableSlotsAreTenants | src/query/bmw.c:770-877 | its candidates are exactly those rows, each with its full score |
| MemtableScoring.TenantsScore | src/query/bmw.c:806-858 | a tenant's search scores a row as a search for all tenants would over the tenant's postings alone |
| MemtableScoring.OnePostingScore | src/query/bmw.c:830-858 | a row with one posting scores its BM25 score times the query frequency |
| MemtableScoring.ScoresAddUp | src/query/bmw.c:840-858 | scores add up over the terms of a query and over the postings of a term |
| MemtableScoring.MemRepetitionScore | src/query/bmw.c:837-838 | a query that repeats a term n times scores every memtable row like one that names it n times |
| Search.SegmentRange | src/query/bmw.c:1613-1734 | the doc range given to a segment admits exactly the tenant's documents, and none is admitted only if there is none |
| Search.SegmentSlotsAreTenants | src/query/bmw.c:1502-1586 | a segment's candidates are exactly its documents with a query term and, if one is asked for, that tenant, each with its full score |
| Search.SearchSegment | src/query/bmw.c:1613-1734 | one segment of a query: the full scores of all the tenant's documents with a query term are selected from |
| Search.ScoreMultiTermBmw | src/query/bmw.c:1613-1734 | a multi-term query returns the k best scores over memtable and all levels, best first and ties by CTID, its hits being those of different candidates, each with its full score |
| Search.NoDocumentTwice | src/query/bmw.c:1613-1734 | when the candidates are different documents, no document is returned twice, not even at a tie |
| SearchSingle.SearchTermSegment | src/query/bmw.c:621-728 | one segment of a single-term query: all the tenant's postings are selected from |
| SearchSingle.TermSegmentSlotsAreTenants | src/query/bmw.c:564-611 | a segment's candidates for one term are exactly its postings of the tenant, if one is asked for, each with its score |
| SearchSingle.ScoreSingleTermBmw | src/query/bmw.c:621-728 | a single-term query returns the k best scores over memtable and all levels, best first and ties by CTID, its hits being those of different candidates |
| Completeness.ScoresOfIndex | src/query/bmw.c:1613-1734 | the scores a multi-term query selects from are those of its candidates, one for each |
| Completeness.ScoresOfTermIndex | src/query/bmw.c:621-728 | the same for one term |
| Completeness.LeftOutNoBetter | src/query/bmw.c:1613-1734 | a candidate of a query is a hit, or there are k hits and none of them scores less |
| QueryIndex.SameRowSameSlot | src/query/bmw.c:256-291 | two candidates from the segments of an index that name the same row are the same candidate |
| QueryIndex.CandidatesDiffer | src/query/bmw.c:1613-1734 | over an index of spilled segments and a memtable whose rows are in none of them, the candidates are different documents, all in their segments' columns |
| QueryIndex.HitNamesRow | src/query/bmw.c:256-291 | every hit is a memtable row or the row that its segment's column has for a document with a query term, with that document's full score |
| QueryIndex.HitNamesPosting | src/query/bmw.c:256-291 | for one term: every hit is the row of a posting of the tenant, with that posting's score |
| QueryIndex.RowsKept | src/query/bmw.c:1613-1734 | no row of the memtable or of a segment that has a query term, and the tenant if one is asked for, is left out for a worse one |
| QueryIndex.PostingsKept | src/query/bmw.c:621-728 | for one term: no posting is left out for a worse one |
| QueryIndex.SearchIndex | src/query/bmw.c:1613-1734 | a multi-term query over such an index returns the k best scores, best first, no row twice, each hit the row its score belongs to, and no row left out for a worse one |
| QueryIndex.SearchIndexSingle | src/query/bmw.c:621-728 | a single-term query over such an index: the same |
| Fieldnorm.RowIsComputed | rust/src/fieldnorm.rs:24-85 | every row of the literal table is eight evenly spaced entries from a computed start |
| Fieldnorm.TableValue | rust/src/fieldnorm.rs:24-85 | the table is the identity below 40 and 24 plus a 4-bit float above |
| Fieldnorm.TableAscends | rust/src/fieldnorm.rs:24-85 | the table is strictly ascending |
| Fieldnorm.EncodeFieldnorm | rust/src/fieldnorm.rs:91-104 | the binary search finds the last entry not above the length |
| Fieldnorm.GaloisConnection | rust/src/fieldnorm.rs:91-109 | encode(l) >= n exactly when decode(n) <= l |
| Fieldnorm.CodeIsMonotone | rust/src/fieldnorm.rs:91-104 | longer documents never get a smaller code, and a length has one code |
| Fieldnorm.RequantizeIsStable | src/segment/merge.c:670-682 | decoding and encoding again gives the same byte, so merges never degrade it |
| Fieldnorm.QuantizationLoss | rust/src/fieldnorm.rs:91-109 | exact below 40; above, the loss is under an eighth of the length exactly below 2300875364 |
| Scoring.ScorePositive | rust/src/scoring.rs:40-46 | a real posting with positive IDF scores above 0 |
| Scoring.Bm25Value | rust/src/scoring.rs:40-46 | with every division cleared: the score times tf * avgdl + k1 * ((1 - b) * avgdl + b * dl) is idf * tf * (k1 + 1) * avgdl |
| Scoring.AverageDocument | rust/src/scoring.rs:40-46 | a document of average length scores idf * tf * (k1 + 1) / (tf + k1) whatever b is, and its IDF for one occurrence |
| Scoring.BlockMaxValue | rust/src/scoring.rs:50-66 | the same equation for a block bound, with the stored frequency and the length its byte decodes to |
| Scoring.ScoreOrderIff | rust/src/scoring.rs:40-46 | with a positive IDF one (frequency, length) pair scores no more than another exactly when a comparison of two products holds; the value of a score is in `Scoring.Bm25Value` |
| Scoring.LongerScoresLess | rust/src/scoring.rs:40-46 | with positive IDF and b, a longer document scores strictly less for the same frequency |
| Scoring.BoundHoldsIff | rust/src/scoring.rs:40-66 | when a stored (frequency, length byte) bounds one posting's score, as a comparison of two products |
| Scoring.ShortestNormBounds | rust/src/scoring.rs:40-66 | a frequency at least, and a length byte at most, the posting's give an upper bound |
| Scoring.BlockStats | src/segment/merge.c:1053-1065 | the writers' loop finds the largest frequency and the largest length byte of the block |
| Scoring.DocumentedBoundHolds | rust/src/scoring.rs:48-66 | with the smallest length byte of the block the bound holds for every posting |
| Scoring.StoredBoundHoldsIff | src/segment/merge.c:1062-1071 | exactly when the stored statistics bound every posting of the block |
| Scoring.StoredBoundFails | src/segment/segment.c:1292 | a block of two postings on which the stored statistics bound too low |
| Scoring.StoredBoundWithoutNormalization | src/segment/segment.c:1292 | with b = 0 the stored statistics are always safe |
| Exactness.BlockSkipRightIff | src/query/bmw.c:530-536 | skipping a block below the threshold is right for every full heap exactly when its bound holds for every posting that passes the filter |
| Exactness.SkippedNeverHeld | src/query/bmw.c:517-612 | from a full heap that a block's bound cannot beat, none of the block's scores is ever held |
| Exactness.UnboundedIsLost | src/query/bmw.c:472-619 | for any posting above its block's bound there is a heap from which the search does not end with the k best |
| Exactness.SearchExactIff | src/query/bmw.c:472-619 | the single-term search of a segment selects the k best from every heap of any capacity if and only if every block bound holds for the postings that pass |
| Exactness.DocumentSkipRightIff | src/query/bmw.c:1511-1519 | passing a set of documents because the current block bounds of the pivot terms add up to at most the threshold is right for every full heap exactly when none of their full scores is above that sum |
| Bm25.LengthBoundedIff | src/query/bmw.c:373-394 | the bound from the stored statistics holds for a frequency and a length exactly when a comparison of two products does |
| Bm25.PostingBoundedIff | src/query/bmw.c:373-394 | one posting is bounded by the stored statistics exactly when its frequency does not outweigh how much shorter its document is than the block's longest: its decoded length for several terms, its 16-bit length for one |
| Bm25.SafeCast | src/segment/scan.c:350 | what is safe with the 16-bit length is safe with the decoded one, and below length code 136 the two agree |
| Bm25.BlockBoundedIff | src/query/bmw.c:373-394 | the bound computed from a block's stored statistics holds for all its postings exactly when all are safe in that sense |
| Bm25.CompactedInputValidIff | src/query/bmw.c:1014-1070 | what a multi-term search requires of a compacted list holds exactly when every posting is safe |
| Bm25.CompactedSkipRightIff | src/query/bmw.c:530-536 | with the 16-bit lengths this path scores, skipping a block of a compacted list below the threshold is right for every full heap exactly when its passing postings are safe in 16 bits |
| Bm25.CompactedSearchExactIff | src/query/bmw.c:472-619 | the single-term search of a compacted segment, scoring 16-bit lengths, selects the k best from every heap if and only if every passing posting is safe in 16 bits |
| Bm25.UnfilteredSafeIff | src/query/bmw.c:472-619 | without a filter that condition implies the one for several terms, and is the same when every length code is below 136 |
| Bm25.SafeWithoutNormalization | src/query/bmw.c:373-379 | with b = 0 every compacted list is safe to prune for several terms |
| Bm25.PassingSafeWithoutNormalization | src/query/bmw.c:472-619 | with b = 0 the single-term search meets its condition on every compacted list, under every filter |
| Bm25.LongDocumentIsUnsafe | src/segment/scan.c:350 | with b > 0 a posting with its block's largest frequency and a length code from 136 on is never safe in 16 bits |
| Bm25.LongDocumentIsLost | src/query/bmw.c:472-619 | a compacted list with such a posting that passes the filter has a heap from which the single-term search does not select the k best |
| Bm25.SafeIsNotEnough | src/query/bmw.c:594-600 | one document of 65,560 words: a list that is safe for several terms and not searched exactly for one |
| Bm25.SkippedBlockCanWin | src/query/bmw.c:530-536 | a stored list and a full heap from which the single-term search skips the only block and does not end with the best score |
| Bm25.SkippedDocumentCanWin | src/query/bmw.c:1491-1519 | a stored list of two blocks whose bound is above the threshold, so that it is traversed, and whose first block bound is not, so that its documents are passed; nothing selected from the heap and the rest is then the best score |
| Radix.OrDisjoint | rust/src/compression.rs:28-56 | OR-ing in bits above all set ones is addition |
| Radix.AndMask | rust/src/compression.rs:28-80 | AND with a mask keeps the low bits |
| Radix.DigitsUnique | rust/src/compression.rs:59-80 | a number determines its low digits, whatever lies above them |
| Compression.ComputeBitWidth | rust/src/compression.rs:15-24 | the least width that holds the value, at least 1 |
| Compression.BitpackEncode | rust/src/compression.rs:28-56 | the bytes written spell the little-endian number with the masked values as base-2^bits digits, in exactly ceil(n*bits/8) bytes; others untouched |
| Compression.BitpackDecode | rust/src/compression.rs:59-80 | the outputs are the base-2^bits digits of the first ceil(n*bits/8) bytes, and no byte beyond is read |
| Compression.UnpackUndoesPack | rust/src/compression.rs:28-80 | unpacking finds the packed values again, whatever bytes follow |
| Compression.SplitBlock | rust/src/compression.rs:91-142 | wrapping deltas, frequencies, and their maxima |
| Compression.CompressBlock | rust/src/compression.rs:91-142 | header, three sections with least widths, at most 898 bytes, and exactly compressed_block_size of them |
| Compression.BlockSizeBound | rust/src/compression.rs:202-215 | a header of legal widths asks for at most 7 bytes a posting and 2 more, 898 for 128 postings |
| Compression.BlockSizeExact | rust/src/compression.rs:202-215 | no posting takes no byte; otherwise a block takes its header and the bits of its values, with at most 7 bits of padding in each of two sections |
| Compression.DecompressBlock | rust/src/compression.rs:148-199 | running sums from the base, frequencies and length bytes as the sections spell them; other outputs untouched |
| Compression.CompressedIsDecodable | rust/src/compression.rs:148-199 | every compressed block is accepted, whatever bytes follow it |
| Compression.RoundTrip | rust/src/compression.rs:91-199 | every block comes back with its ids moved by the base, in wrapping arithmetic |
| Compression.RoundTripFromZero | rust/src/compression.rs:91-199 | with base 0 the block comes back exactly if and only if its reserved bytes were 0 |
| Compression.DeltaExactIff | rust/src/compression.rs:91-142 | a stored delta is the plain difference exactly where the ids do not descend |
| Paging.Relation.AllocatePage | src/segment/segment.c:646-672 | a block not in use before, and blocks in use keep their contents |
| Paging.Relation.FreePages | src/segment/segment.c:1809-1821 | the given blocks stop being in use, up to block 0, where it fails |
| Paging.SegmentWriter.Write | src/segment/segment.c:2254-2296 | appends exactly the data, across pages and ending on a page boundary too; terminates although a page turn copies nothing; blocks of others untouched |
| Paging.SegmentWriter.WriteSome | src/segment/segment.c:2254-2296 | one iteration copies some bytes or turns a full page, which makes room |
| Paging.SegmentWriter.Flush | src/segment/segment.c:2298-2327 | afterwards the pages hold everything written so far |
| Paging.SegmentWriter.TurnPage | src/segment/segment.c:705-739 | a fresh page behind a full one, contents unchanged |
| Paging.WritePageIndex | src/segment/segment.c:745-822 | a chain of distinct fresh pages that lists the segment's pages in order |
| Paging.LoadPageMap | src/segment/segment.c:213-299 | on any blocks and any chain on which the loop stops: the first num_pages entries of the pages visited, or the error exactly for a block that is no index page, an entry outside the relation, or too few entries |
| Paging.LoadStops | src/segment/segment.c:213-278 | the loop stops on every chain, circular ones too, if no index page is empty |
| Paging.LoadNeverStops | src/segment/segment.c:213-278 | it does not stop on an empty index page chained to itself |
| Paging.WrittenIndexLoads | src/segment/segment.c:742-830 | on what write_page_index leaves the loop stops, and the map is the segment's pages in order |
| Paging.WrittenIndexLoadsIff | src/segment/segment.c:249-275 | on such a chain opening fails exactly when a page is outside the relation |
| Paging.SegmentReader.ReadPart | src/segment/segment.c:464-549 | one iteration yields the right bytes of one page, cached or not; fails exactly past the end |
| Paging.SegmentReader.Read | src/segment/segment.c:464-549 | exactly the logical bytes asked for, or the error exactly when they reach past the end |
| Paging.PatchEntry | src/segment/segment.c:1587-1663 | an entry on one page or across two: exactly its bytes change; fails exactly past the allocated pages |
| Paging.PatchEntries | src/segment/segment.c:1567-1672 | all dictionary entries: exactly their bytes change |
| Paging.CollectPages | src/segment/segment.c:1734-1803 | on any chain that ends: the data pages and then the chain, up to its end or to the first page that is no index page, that one included; the error exactly when it leaves the relation |
| Paging.StoreSegment | src/segment/segment.c:2188-2346 | any sequence of writes and the page index: the pages hold the writes, as many pages as the bytes need, other segments' blocks are untouched |
| Paging.StoreAndRead | src/segment/segment.c:464-549 | any range of any sequence of writes, read through the map rebuilt from the page index, is exactly those bytes |
| BlockStore.LoadBlock | src/segment/scan.c:189-217 | loading a block at its offset yields the block that was compressed there, or the error exactly when 898 bytes from there reach past the last page |
| BlockStore.StoreAndLoad | src/segment/scan.c:162-262 | compress, write, patch the dictionary, reopen through the page index: the dictionary reads as patched, the segment has the pages its bytes need, and the block is the one written exactly when 898 bytes from its start lie on them |
| BlockStore.LoadableIff | src/segment/scan.c:194-200 | that condition in lengths, also for a last page that is exactly full: the block, what follows it and the slack of the last page have room for 898 bytes |
| BlockStore.UnreadableBlock | src/segment/scan.c:194-200 | storing any posting behind 7300 bytes and before 700: one page, the dictionary as patched, and the block cannot be loaded |
| DocMap.DocMapBuilder.Add | src/segment/docmap.c:78-114 | a known CTID keeps its id, a new one gets the next; refused exactly at the size limit |
| DocMap.DocMapBuilder.Lookup | src/segment/docmap.c:116-128 | the id, and UINT32_MAX exactly for unknown CTIDs |
| DocMap.DocMapBuilder.Finalize | src/segment/docmap.c:165-301 | ids become an order isomorphism from (tenant, CTID) onto 0 .. n-1, and the output arrays agree |
| DocMap.KeyIsNumeric | src/segment/docmap.c:165-301 | documents are ordered as the numbers of tenant, 32-bit block and 16-bit offset |
| DocMap.ComputeRanges | src/segment/docmap.c:253-297 | the tenant ranges are the maximal runs of each tenant, ascending |
| DocMap.RangesCompleteIff | src/segment/docmap.c:270 | every non-zero tenant has its range exactly when none is the sentinel UINT32_MAX |
| DocMap.TenantDocRange | src/segment/scan.c:1292-1349 | the binary search returns exactly the tenant's documents, or none exactly when it has none |
| Terms.Trichotomy | src/segment/merge.c:323-343 | strcmp orders terms totally; which order it is, is in `Terms.LessIff` |
| Terms.LessIff | src/segment/merge.c:323-343 | strcmp is negative exactly if the terms agree up to a position at which the first one ends or has the smaller character |
| Terms.FirstDifference | src/segment/merge.c:323-343 | a proper prefix comes before its extensions; otherwise the first different character decides |
| Dictionary.Narrow | src/segment/scan.c:121-148 | one comparison settles one half of the dictionary |
| Dictionary.FindTerm | src/segment/scan.c:78-152 | the binary search finds the term exactly when the dictionary has it |
| Dictionary.OpenTerm | src/segment/scan.c:40-153 | opening a term yields the posting list that holds exactly what the segment says about it |
| MergeTerms.FindMinSource | src/segment/merge.c:323-343 | a source at the least current term, -1 exactly when all are exhausted |
| MergeTerms.CollectRefs | src/segment/merge.c:1760-1774 | records exactly the sources standing at the term and moves them past it |
| MergeTerms.MergeDictionaries | src/segment/merge.c:1714-1778 | the merged dictionary ascends alphabetically by the first differing position, covers every term, and each entry's references are exactly the term's occurrences |
| MergeTerms.MergeIsUnion | src/segment/merge.c:1714-1778 | a term is merged exactly when some source has it |
| MergePostings.AdvancePosting | src/segment/merge.c:531-557 | drops exactly the first remaining posting, across block ends |
| MergePostings.FindMinPosting | src/segment/merge.c:563-588 | a source with the least current CTID, -1 exactly when all are exhausted |
| MergePostings.CollectPostings | src/segment/merge.c:774-839 | every posting of every source is collected exactly once, and in CTID order if the sources are |
| MergeDocs.BuildMergedDocmap | src/segment/merge.c:607-738 | every source document has one place in the merged table, with its CTID, length byte and tenant, in (tenant, CTID) order, and nothing else; refused exactly when there are too many |
| MergeBlocks.LastDocId | src/segment/merge.c:1057-1061 | the loop's maximum is the block's last doc id |
| MergeBlocks.TenantMark | src/segment/merge.c:1078-1104 | the mark is none exactly for a block without tenants, single with its low 16 bits for one tenant, mixed for several |
| MergeBlocks.MarkIsUnique | src/segment/merge.c:1078-1104 | the tenants of its documents determine the mark of a block |
| MergeBlocks.BuildSkip | src/segment/merge.c:1052-1104 | count, last doc id, statistics and tenant mark describe the block |
| MergeBlocks.WriteBlocks | src/segment/merge.c:1046-1139 | the blocks cut the postings into runs of 128, nothing lost, every skip entry right |
| MergeBlocks.WrittenListIsValid | src/segment/merge.c:1046-1139 | lists written this way satisfy everything the search cursors require |
| Merge.RenumberKeeps | src/segment/merge.c:1023-1035 | a posting with its new id names the same row, frequency and length byte |
| Merge.MergeTerm | src/segment/merge.c:996-1148 | a merged list has exactly the sources' postings, renumbered, in strictly ascending doc id |
| Merge.RefsMeanSources | src/segment/merge.c:1760-1774 | a term's references together mean what the sources mean for it |
| Merge.MeaningPostings | src/segment/merge.c:1023-1035 | what a segment means for a term are the row, frequency and length byte of each of its postings, and nothing else |
| Merge.MergeSegments | src/segment/merge.c:880-1575 | the merged segment is valid and alphabetical; every term means the union of its sources' occurrences, and the documents are theirs |
| Merge.CompactedListIsSearchable | src/segment/merge.c:996-1148 | compacted lists have the layout and the truthful tenant marks that WAND relies on |
| Lsm.CounterCarry | src/segment/merge.c:1847-1869 | replacing B segments of a level by one at the next keeps the number the levels spell |
| Lsm.MergeKeepsIndex | src/segment/merge.c:1839-1885 | compaction changes neither the rows of the index nor what any term means |
| Lsm.LsmIndex.LinkAtHead | src/am/build.c:106-129 | the new segment heads its level's chain, the old chain behind it, the uint16 count one up |
| Lsm.LsmIndex.OpenChain | src/segment/merge.c:1648-1695 | following next_segment for level_counts steps visits exactly the level's segments |
| Lsm.LsmIndex.MergeLevel | src/segment/merge.c:1580-1914 | merges exactly when there is a next level and something to merge, and then the level is replaced by one compaction of it |
| Lsm.LsmIndex.MaybeCompactLevel | src/segment/merge.c:1919-1949 | cascading compaction leaves every level below the last under B, chains equal to counts, and the index's meaning unchanged |
| Lsm.LsmIndex.Spill | src/state/state.c:1502-1558 | a spill adds exactly its documents to the index and one to the number the levels spell |
| Lsm.CountsSpellSpillsIff | src/segment/merge.c:1869 | the stored uint16 counts spell the number of spills exactly below 65536 * B^7 |
| Lsm.SpillAll | src/am/build.c:91-154 | after any run of spills the index holds and means exactly the spilled segments, and its levels are the base-B digits of their number |
| ParallelBuild.WorkerTouchesOwn | src/am/build_parallel.c:524-599 | a worker's step changes only its own buffers, and none that is ready |
| ParallelBuild.LeaderTouchesReady | src/am/build_parallel.c:2189-2195 | the leader's step changes only ready buffers, by emptying them |
| ParallelBuild.BufferOwnership | src/am/build_parallel.c:524-599 | a filling buffer is changed only by its worker, a ready one only by the leader |
| ParallelBuild.HeldTakeAll | src/am/build_parallel.c:2109-2110 | merging the listed buffers takes exactly their documents, each once |
| ParallelBuild.WorkerKeepsInv | src/am/build_parallel.c:498-622 | every worker step keeps: documents lie once in segments or unwritten buffers, empty buffers hold none, the counter counts finished workers |
| ParallelBuild.LeaderKeepsInv | src/am/build_parallel.c:2053-2226 | every leader step keeps the same |
| ParallelBuild.RunKeepsInv | src/am/build_parallel.c:498-622 | at every state of every interleaving no document is lost or doubled |
| ParallelBuild.RunKeepsBounded | src/am/build_parallel.c:524-599 | at every state of every interleaving no buffer has taken a document after its postings reached the threshold |
| ParallelBuild.HandedOverFull | src/am/build_parallel.c:524-622 | a worker hands a buffer over only when it has reached the threshold, or at the end of the heap if it is not empty |
| ParallelBuild.RunMergesEnough | src/am/build_parallel.c:2065-2110 | a round of merging has a buffer for every worker unless all workers were done when the leader checked |
| ParallelBuild.EnoughIsMerged | src/am/build_parallel.c:2065-2110 | a leader that finds that many ready buffers, or any after all workers are done, merges them |
| ParallelBuild.LeaderLeaves | src/am/build_parallel.c:2083-2085 | a leader that leaves has read before that all workers are done |
| ParallelBuild.ExitCompleteIff | src/am/build_parallel.c:2065-2097 | when the leader leaves, the segments hold every document of the heap exactly if every buffer with documents was on its list at the last check |
| ParallelBuild.LeaderMissesBuffer | src/am/build_parallel.c:2065-2085 | a run with one worker and one document that ends with no segment |
| ParallelProgress.BlockedIff | src/am/build_parallel.c:541-571 | a worker cannot take a step exactly when it is done or waits for a buffer that is full and not emptied |
| ParallelProgress.StuckForever | src/am/build_parallel.c:2053-2226 | when no worker can move, one waits and there are fewer ready buffers than workers, no step of any run changes a buffer, a worker or a segment |
| ParallelProgress.MergesIffEnough | src/am/build_parallel.c:2083-2097 | when no worker can move and one waits, a leader that starts to look will merge if and only if there are at least as many ready buffers as workers |
| ParallelProgress.OneWorkerGoesOn | src/am/build_parallel.c:2083-2097 | with one worker that state does not occur |
| ParallelProgress.TwoWorkersGetStuck | src/am/build_parallel.c:2053-2226 | a run with two workers and four documents that ends in it, two documents never written |
| Selection.PrecedesIsStrictWeakOrder | src/query/score.c:76-84 | score falling, then CTID rising; only entries for the same CTID tie |
| Selection.Insert | src/query/score.c:105-119 | the shifting inner loop puts one entry in its place, losing none |
| Selection.InsertionSort | src/query/score.c:103-120 | the range is a sorted rearrangement, everything else unchanged |
| Selection.ChoosePivot | src/query/score.c:129-140 | a rearrangement after which the last entry is the median of first, middle and last |
| Selection.Partition | src/query/score.c:127-157 | a rearrangement in which all before the returned place precede its entry, and none after does |
| Selection.PartialQuicksort | src/query/score.c:164-201 | terminates; a rearrangement in which no entry after one of the first k places should come before it |
| Selection.SortTopK | src/query/score.c:208-218 | the same for the whole array and any k, also k <= 0 and k > n |
| Selection.RankingUnique | src/query/score.c:86-157 | with one entry per CTID the ranking does not depend on the pivots |
| Selection.RankingFalls | src/query/score.c:76-84 | a ranking falls in score and rises in CTID at a tie, and no entry left out has the higher score or, at a tie, the lower CTID |
| Selection.TopSortedRanks | src/query/score.c:203-218 | the first k places are the ranking of all entries |
| Selection.ExtractAndSort | src/query/score.c:223-289 | the results are the k first of the table's entries, scores falling and CTIDs rising at a tie, and have the k best scores |

## Left out

- PostgreSQL's buffer manager, shared memory, locks, memory contexts, catalogs, progress reports and crash recovery: services around the engine; allocation returns blocks not in use, hash tables are maps, qsort and Rust's sort are some sorting permutation (`QSort.Sort`).
- Floating point: scores are exact reals and IDF is a given number, so ties produced by rounding and NaN are not modelled.
- The IDF that the exhaustive path lets grow from segment to segment (`src/segment/scan.c:892`): a query's weights are fixed numbers here.
- Which documents are returned at a tie of scores: the results are determined as scores; two segments may hold entries that neither replaces (`src/query/bmw.c:188`).
- Term cursors are values in an array that methods overwrite, not structs reached through pointers; reordering copies them.
- query_freq of the single-term path: that path has one term and does not use it.
- Tenant UINT32_MAX: it collides with the end sentinel of the range loop (`src/segment/docmap.c:270`), so searches exclude it.
- The cast of block_count to uint16: searches require at most 65535 blocks in a list.
- The cast of doc_count in a skip entry to uint8 and of a posting's frequency to uint16: blocks have at most 128 postings, and frequencies are taken as stored.
- Byte layouts of headers, skip entries and page-index pages: a page-index page is a record with its entries and the next page.
- Paging.LoadPageMap: it is about runs that end; on the others (`Paging.LoadNeverStops`) the code has no result.
- Paging.CollectPages: it is about chains that end; a page with the magic number of a page index and another page type counts as no index page, while the code follows it (`src/segment/segment.c:1789`).
- Uncompressed blocks and direct access to page buffers: every block is stored compressed.
- CTID and tenant columns read through pages: the arrays of a segment are sequences, and `Paging.StoreAndRead` covers the bytes.
- Segments without terms, and the failure paths of compaction that close sources and return: sources have at least one term.
- Lsm.LsmIndex.MergeLevel: the metapage update and the freeing of the merged pages are one step, and total_tokens is not modelled, since each spill stores the cumulative corpus length (`src/segment/segment.c:1125`).
- Lsm.LsmIndex.Spill: clearing the memtable, docid pages and corpus statistics differ between the spill paths and are not modelled; the segment is given.
- QueryIndex.SearchIndex: that the memtable's rows are in no segment is a hypothesis, since the clearing of the memtable at a spill is not modelled.
- QueryIndex.SearchIndexSingle: the same, and that a memtable list names a row once.
- ParallelBuild.RunKeepsInv: waiting is a step that cannot be taken; condition variables and lost wake-ups are not modelled, and that every step is taken at last is not claimed.
- The N-way merge inside the parallel build (`src/am/build_parallel.c:1152-1915`): it repeats the merge of segments over buffers, so a merged segment is its documents here.
- Tenants in parallel builds: the worker's document-length entry does not set one (`src/am/build_parallel.c:2551-2560`).
- Tenant statistics, document frequencies per tenant, the serial build, vacuum, inserts and the final truncation of the file: they would add easy members.
- Planner hooks, cost estimates, SQL types, text parsing, dumps, query send and receive: user interface around the engine.
- Capacity 0 of the heaps: the callers give at least 1; the Rust heap would panic.
- Exits that cannot be reached on valid lists are proved unreachable where they stand: an exhausted pivot in `Wand.SeekToPivot`, a block without a posting at or after the target in `Postings.ScanBlock`, and the missing best term in `Wand.ChooseSkip`.
