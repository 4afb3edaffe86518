/**
 * The byte stream of a segment laid over pages of a relation (src/segment/segment.c): the
 * writer's page buffer, the page-index chain, reads through the rebuilt page map, in-place
 * patches of dictionary entries, and the collection of a segment's pages.
 */
module Paging {
  import opened Constants
  import opened Sequences
  import opened Wrappers

  const BLCKSZ: nat := 8192
  const PAGE_HEADER: nat := 24
  const DATA_PER_PAGE: nat := 8168

  /** What is left of a page beside its header and the aligned 16-byte special area, in 4-byte entries. */
  const ENTRIES_PER_PAGE: nat := 2038

  /** A block is its header and data; an index page is header, as many entries as fit, and the special area. */
  lemma PageLayout()
    ensures PAGE_HEADER + DATA_PER_PAGE == BLCKSZ
    ensures PAGE_HEADER + 4 * ENTRIES_PER_PAGE + 16 <= BLCKSZ < PAGE_HEADER + 4 * (ENTRIES_PER_PAGE + 1) + 16
  {
  }

  /** The contents of one block: segment data, or one page of a page index. None is InvalidBlockNumber. */
  datatype Page = Data(bytes: seq<byte>) | Index(nextPage: Option<nat>, entries: seq<nat>)

  ghost function InUse(blocks: seq<Page>, free: set<nat>): set<nat> {
    set b: nat | b < |blocks| && b !in free
  }

  /** The blocks of `owned` hold what they held. */
  ghost predicate Kept(now: seq<Page>, was: seq<Page>, owned: set<nat>) {
    |was| <= |now| && forall b :: b in owned && b < |was| ==> now[b] == was[b]
  }

  lemma KeptTransitive(now: seq<Page>, mid: seq<Page>, was: seq<Page>, owned: set<nat>)
    requires Kept(now, mid, owned) && Kept(mid, was, owned)
    ensures Kept(now, was, owned)
  {
  }

  ghost function Members(pages: seq<nat>): set<nat> {
    set p | p in pages
  }

  lemma MembersStep(pages: seq<nat>, i: nat)
    requires i < |pages|
    ensures Members(pages[..i + 1]) == Members(pages[..i]) + {pages[i]}
  {
    assert pages[..i + 1] == pages[..i] + [pages[i]];
  }

  /** An index relation and its free space map. */
  class Relation {
    var blocks: seq<Page>
    var free: set<nat>

    ghost predicate Valid()
      reads this
    {
      forall b :: b in free ==> b < |blocks|
    }

    ghost function Used(): set<nat>
      reads this
    {
      InUse(blocks, free)
    }

    constructor ()
      ensures Valid() && Used() == {}
    {
      blocks, free := [], {};
    }

    /** allocate_segment_page: a recycled block if there is one, otherwise a new one at the end. */
    method AllocatePage() returns (b: nat)
      requires Valid()
      modifies this
      ensures Valid() && b !in old(Used()) && Used() == old(Used()) + {b}
      ensures b < |blocks| && blocks[b].Data? && |blocks[b].bytes| == DATA_PER_PAGE
      ensures if old(free) != {} then b in old(free) && |blocks| == old(|blocks|) else b == old(|blocks|)
      ensures Kept(blocks, old(blocks), old(Used()))
    {
      var empty := Data(seq(DATA_PER_PAGE, _ => 0));
      if free != {} {
        b :| b in free;
        free := free - {b};
        blocks := blocks[b := empty];
      } else {
        b := |blocks|;
        blocks := blocks + [empty];
      }
    }

    /** tp_segment_free_pages: give blocks back to the free space map, up to block 0, which is an error. */
    method FreePages(pages: seq<nat>) returns (ok: bool, ghost freed: nat)
      requires Valid() && forall p :: p in pages ==> p < |blocks|
      modifies `free
      ensures Valid() && freed <= |pages| && 0 !in pages[..freed]
      ensures Used() == old(Used()) - Members(pages[..freed])
      ensures ok <==> 0 !in pages
      ensures if ok then freed == |pages| else freed < |pages| && pages[freed] == 0
    {
      freed := 0;
      for i := 0 to |pages|
        invariant Valid() && freed == i && 0 !in pages[..i]
        invariant Used() == old(Used()) - Members(pages[..i])
      {
        if pages[i] == 0 { return false, i; }
        ghost var before := Used();
        free := free + {pages[i]};
        assert Used() == before - {pages[i]};
        assert pages[i] in pages && pages[..i + 1] == pages[..i] + [pages[i]];
        MembersStep(pages, i);
        freed := i + 1;
      }
      assert pages[..|pages|] == pages;
      ok := true;
    }
  }

  // ---------- pages as one byte stream ----------

  ghost predicate DataPage(blocks: seq<Page>, b: nat) {
    b < |blocks| && blocks[b].Data? && |blocks[b].bytes| == DATA_PER_PAGE
  }

  ghost predicate DataPages(blocks: seq<Page>, pages: seq<nat>) {
    forall i :: 0 <= i < |pages| ==> DataPage(blocks, pages[i])
  }

  /** The logical bytes of a segment: its pages' data areas, one after another. */
  ghost function Logical(blocks: seq<Page>, pages: seq<nat>): (r: seq<byte>)
    requires DataPages(blocks, pages)
    ensures |r| == DATA_PER_PAGE * |pages|
  {
    if pages == [] then []
    else
      var n := |pages| - 1;
      assert forall i :: 0 <= i < n ==> pages[..n][i] == pages[i];
      assert DataPage(blocks, pages[n]);
      Logical(blocks, pages[..n]) + blocks[pages[n]].bytes
  }

  lemma {:induction false} LogicalPage(blocks: seq<Page>, pages: seq<nat>, p: nat)
    requires DataPages(blocks, pages) && p < |pages|
    ensures DataPage(blocks, pages[p]) && DATA_PER_PAGE * p + DATA_PER_PAGE <= |Logical(blocks, pages)|
    ensures Logical(blocks, pages)[DATA_PER_PAGE * p..DATA_PER_PAGE * p + DATA_PER_PAGE] == blocks[pages[p]].bytes
  {
    var n := |pages| - 1;
    assert forall i :: 0 <= i < n ==> pages[..n][i] == pages[i];
    assert DataPage(blocks, pages[p]);
    var before := Logical(blocks, pages[..n]);
    if p < n {
      LogicalPage(blocks, pages[..n], p);
      assert Logical(blocks, pages)[DATA_PER_PAGE * p..DATA_PER_PAGE * p + DATA_PER_PAGE] ==
             before[DATA_PER_PAGE * p..DATA_PER_PAGE * p + DATA_PER_PAGE];
    }
  }

  /** The first n pages hold the first n pages' worth of `contents`. */
  ghost predicate OnDisk(blocks: seq<Page>, pages: seq<nat>, contents: seq<byte>, n: nat) {
    && n <= |pages| && DATA_PER_PAGE * n <= |contents|
    && forall p :: 0 <= p < n ==> pages[p] < |blocks| && blocks[pages[p]] == Data(PageOf(contents, p))
  }

  ghost function PageOf(contents: seq<byte>, p: nat): seq<byte> {
    if DATA_PER_PAGE * p + DATA_PER_PAGE <= |contents|
    then contents[DATA_PER_PAGE * p..DATA_PER_PAGE * p + DATA_PER_PAGE] else []
  }

  // ---------- the writer ----------

  /** The writer's pages, its buffered page and the disk together hold everything written. */
  ghost predicate WriterState(blocks: seq<Page>, used: set<nat>, pages: seq<nat>, contents: seq<byte>,
                              buffer: seq<byte>, bufferPage: nat, bufferPos: nat)
  {
    && |buffer| == BLCKSZ && PAGE_HEADER <= bufferPos <= BLCKSZ && |pages| == bufferPage + 1
    && Distinct(pages) && (forall p :: p in pages ==> p in used) && DataPages(blocks, pages)
    && |contents| == DATA_PER_PAGE * bufferPage + bufferPos - PAGE_HEADER
    && OnDisk(blocks, pages, contents, bufferPage)
    && buffer[PAGE_HEADER..bufferPos] == contents[DATA_PER_PAGE * bufferPage..]
  }

  lemma CopyStep(blocks: seq<Page>, used: set<nat>, pages: seq<nat>, contents: seq<byte>, buffer: seq<byte>,
                 bufferPage: nat, bufferPos: nat, chunk: seq<byte>, buffer': seq<byte>)
    requires WriterState(blocks, used, pages, contents, buffer, bufferPage, bufferPos)
    requires bufferPos + |chunk| <= BLCKSZ
    requires buffer' == buffer[..bufferPos] + chunk + buffer[bufferPos + |chunk|..]
    ensures WriterState(blocks, used, pages, contents + chunk, buffer', bufferPage, bufferPos + |chunk|)
  {
    forall p | 0 <= p < bufferPage
      ensures PageOf(contents + chunk, p) == PageOf(contents, p)
    {
    }
    assert (contents + chunk)[DATA_PER_PAGE * bufferPage..] == contents[DATA_PER_PAGE * bufferPage..] + chunk;
    assert buffer'[PAGE_HEADER..bufferPos + |chunk|] == buffer[PAGE_HEADER..bufferPos] + chunk;
  }

  /** Writing the buffered page out. */
  lemma FlushStep(blocks: seq<Page>, used: set<nat>, pages: seq<nat>, contents: seq<byte>, buffer: seq<byte>,
                  bufferPage: nat, bufferPos: nat)
    requires WriterState(blocks, used, pages, contents, buffer, bufferPage, bufferPos)
    ensures pages[bufferPage] < |blocks|
    ensures var blocks' := blocks[pages[bufferPage] := Data(buffer[PAGE_HEADER..])];
            && WriterState(blocks', used, pages, contents, buffer, bufferPage, bufferPos)
            && (bufferPos == BLCKSZ ==> OnDisk(blocks', pages, contents, bufferPage + 1))
            && contents <= Logical(blocks', pages)
  {
    assert DataPage(blocks, pages[bufferPage]);
    var blocks' := blocks[pages[bufferPage] := Data(buffer[PAGE_HEADER..])];
    forall i | 0 <= i < |pages|
      ensures DataPage(blocks', pages[i])
    {
      assert DataPage(blocks, pages[i]);
    }
    assert WriterState(blocks', used, pages, contents, buffer, bufferPage, bufferPos);
    PrefixOfLogical(blocks', used, pages, contents, buffer, bufferPage, bufferPos);
  }

  /** When the buffered page is on disk too, the logical bytes start with the contents. */
  lemma PrefixOfLogical(blocks: seq<Page>, used: set<nat>, pages: seq<nat>, contents: seq<byte>, buffer: seq<byte>,
                        bufferPage: nat, bufferPos: nat)
    requires WriterState(blocks, used, pages, contents, buffer, bufferPage, bufferPos)
    requires blocks[pages[bufferPage]] == Data(buffer[PAGE_HEADER..])
    ensures contents <= Logical(blocks, pages)
  {
    forall o | 0 <= o < |contents|
      ensures contents[o] == Logical(blocks, pages)[o]
    {
      ByteOfLogical(blocks, used, pages, contents, buffer, bufferPage, bufferPos, o);
    }
  }

  lemma ByteOfLogical(blocks: seq<Page>, used: set<nat>, pages: seq<nat>, contents: seq<byte>, buffer: seq<byte>,
                      bufferPage: nat, bufferPos: nat, o: nat)
    requires WriterState(blocks, used, pages, contents, buffer, bufferPage, bufferPos)
    requires blocks[pages[bufferPage]] == Data(buffer[PAGE_HEADER..]) && o < |contents|
    ensures contents[o] == Logical(blocks, pages)[o]
  {
    hide Logical;
    var p, r := o / DATA_PER_PAGE, o % DATA_PER_PAGE;
    LogicalPage(blocks, pages, p);
    var base := DATA_PER_PAGE * p;
    assert o == base + r && r < DATA_PER_PAGE && p <= bufferPage;
    assert Logical(blocks, pages)[o] == Logical(blocks, pages)[base..base + DATA_PER_PAGE][r];
    if p < bufferPage {
      assert contents[o] == PageOf(contents, p)[r];
    } else {
      assert contents[o] == contents[base..][r] == buffer[PAGE_HEADER..bufferPos][r] == buffer[PAGE_HEADER..][r];
    }
  }

  /** A fresh page behind a full one. */
  lemma TurnStep(blocks: seq<Page>, used: set<nat>, pages: seq<nat>, contents: seq<byte>, buffer: seq<byte>,
                 bufferPage: nat, blocks': seq<Page>, b: nat, buffer': seq<byte>)
    requires WriterState(blocks, used, pages, contents, buffer, bufferPage, BLCKSZ)
    requires OnDisk(blocks, pages, contents, bufferPage + 1)
    requires Kept(blocks', blocks, used) && b !in used && DataPage(blocks', b) && |buffer'| == BLCKSZ
    ensures WriterState(blocks', used + {b}, pages + [b], contents, buffer', bufferPage + 1, PAGE_HEADER)
  {
    forall i | 0 <= i < |pages|
      ensures DataPage(blocks', pages[i]) && blocks'[pages[i]] == blocks[pages[i]] && pages[i] != b
    {
      assert DataPage(blocks, pages[i]) && pages[i] in pages;
    }
  }

  /** How many pages n bytes take; the first page is allocated before anything is written. */
  function PagesFor(n: nat): nat {
    if n == 0 then 1 else (n - 1) / DATA_PER_PAGE + 1
  }

  class SegmentWriter {
    const relation: Relation
    const buffer: array<byte>
    var pages: seq<nat>
    var bufferPage: nat
    var bufferPos: nat
    var currentOffset: nat
    ghost var contents: seq<byte>
    ghost const Repr: set<object> := {this, relation, buffer}

    ghost predicate Valid()
      reads Repr
    {
      && relation.Valid() && buffer.Length == BLCKSZ && currentOffset == |contents|
      && WriterState(relation.blocks, relation.Used(), pages, contents, buffer[..], bufferPage, bufferPos)
    }

    /** Nothing but this segment's pages has changed since `was`. */
    ghost predicate Elsewhere(was: seq<Page>, used: set<nat>, mine: seq<nat>)
      reads Repr
    {
      && Kept(relation.blocks, was, used - set p | p in mine)
      && (used - set p | p in mine) <= relation.Used() - set p | p in pages
    }

    /** A page behind the first one is there because something was written to it. */
    ghost predicate NoEmptyPage()
      reads this
    {
      bufferPage == 0 || PAGE_HEADER < bufferPos
    }

    /** tp_segment_writer_init: one page allocated, an empty buffer. */
    constructor (relation: Relation)
      requires relation.Valid()
      modifies relation
      ensures Valid() && contents == [] && NoEmptyPage() && this.relation == relation && fresh(buffer)
      ensures Elsewhere(old(relation.blocks), old(relation.Used()), [])
    {
      this.relation := relation;
      buffer := new byte[BLCKSZ](_ => 0);
      bufferPage, bufferPos, currentOffset, contents, pages := 0, PAGE_HEADER, 0, [], [];
      new;
      var b := relation.AllocatePage();
      pages := [b];
      assert relation.blocks[b].Data?;
    }

    /** memcpy into the page buffer. */
    method CopyIn(chunk: seq<byte>)
      requires buffer.Length == BLCKSZ && bufferPos + |chunk| <= BLCKSZ
      modifies buffer
      ensures buffer[..] == old(buffer[..bufferPos]) + chunk + old(buffer[bufferPos + |chunk|..])
    {
      for i := 0 to |chunk|
        invariant buffer[..bufferPos] == old(buffer[..bufferPos])
        invariant buffer[bufferPos..bufferPos + i] == chunk[..i]
        invariant buffer[bufferPos + |chunk|..] == old(buffer[bufferPos + |chunk|..])
      {
        buffer[bufferPos + i] := chunk[i];
        assert buffer[bufferPos..bufferPos + i + 1] == buffer[bufferPos..bufferPos + i] + [chunk[i]];
      }
      assert buffer[..] == buffer[..bufferPos] + buffer[bufferPos..bufferPos + |chunk|] + buffer[bufferPos + |chunk|..];
      assert chunk[..|chunk|] == chunk;
    }

    /** tp_segment_writer_flush: write the data area of the buffered page. */
    method Flush()
      requires Valid()
      modifies relation
      ensures Valid() && relation.Used() == old(relation.Used())
      ensures bufferPos == BLCKSZ ==> OnDisk(relation.blocks, pages, contents, bufferPage + 1)
      ensures DataPages(relation.blocks, pages) && contents <= Logical(relation.blocks, pages)
      ensures Elsewhere(old(relation.blocks), old(relation.Used()), pages)
    {
      if bufferPage >= |pages| { return; }
      FlushStep(relation.blocks, relation.Used(), pages, contents, buffer[..], bufferPage, bufferPos);
      hide WriterState, DataPages, OnDisk, Logical;
      var block := pages[bufferPage];
      relation.blocks := relation.blocks[block := Data(buffer[PAGE_HEADER..])];
      assert buffer[..][PAGE_HEADER..] == buffer[PAGE_HEADER..];
      assert block in pages;
    }

    /** Behind a full and flushed page: allocate and initialize the next one. */
    method TurnPage()
      requires Valid() && bufferPos == BLCKSZ && OnDisk(relation.blocks, pages, contents, bufferPage + 1)
      modifies Repr
      ensures Valid() && bufferPos == PAGE_HEADER && contents == old(contents) && old(pages) <= pages
      ensures Elsewhere(old(relation.blocks), old(relation.Used()), old(pages))
    {
      ghost var blocks, used, was := relation.blocks, relation.Used(), buffer[..];
      hide WriterState, OnDisk;
      WriterPages(blocks, used, pages, contents, was, bufferPage, bufferPos);
      bufferPage := bufferPage + 1;
      if bufferPage >= |pages| {
        var b := relation.AllocatePage();
        pages := pages + [b];
        forall i | 0 <= i < buffer.Length { buffer[i] := 0; }
        TurnStep(blocks, used, old(pages), contents, was, bufferPage - 1, relation.blocks, b, buffer[..]);
      } else {
        assert false;
      }
      bufferPos := PAGE_HEADER;
    }

    /**
     * tp_segment_writer_write. A write that ends exactly on a page boundary leaves the page
     * full; the next write then starts with an iteration that copies no byte and turns the page.
     */
    method Write(data: seq<byte>)
      requires Valid()
      modifies Repr
      ensures Valid() && contents == old(contents) + data && old(pages) <= pages
      ensures old(NoEmptyPage()) ==> NoEmptyPage()
      ensures Elsewhere(old(relation.blocks), old(relation.Used()), old(pages))
    {
      hide WriterState, OnDisk;
      WriterPages(relation.blocks, relation.Used(), pages, contents, buffer[..], bufferPage, bufferPos);
      var bytesWritten := 0;
      assert old(contents) + data[..0] == old(contents);
      while bytesWritten < |data|
        invariant 0 <= bytesWritten <= |data| && Valid() && contents == old(contents) + data[..bytesWritten]
        invariant old(pages) <= pages && Elsewhere(old(relation.blocks), old(relation.Used()), old(pages))
        invariant bufferPos <= BLCKSZ && (bytesWritten == |data| ==> old(NoEmptyPage()) ==> NoEmptyPage())
        decreases |data| - bytesWritten, bufferPos
      {
        bytesWritten := WriteSome(data, bytesWritten);
      }
      assert data[..|data|] == data;
    }

    /** One iteration of the copy loop. */
    method WriteSome(data: seq<byte>, bytesWritten: nat) returns (written: nat)
      requires Valid() && bytesWritten < |data| && bufferPos <= BLCKSZ
      modifies Repr
      ensures Valid() && bytesWritten <= written <= |data| && bufferPos <= BLCKSZ
      ensures contents == old(contents) + data[bytesWritten..written]
      ensures written == bytesWritten ==> bufferPos < old(bufferPos)
      ensures written == |data| ==> NoEmptyPage()
      ensures old(pages) <= pages && Elsewhere(old(relation.blocks), old(relation.Used()), old(pages))
    {
      hide WriterState, OnDisk;
      WriterPages(relation.blocks, relation.Used(), pages, contents, buffer[..], bufferPage, bufferPos);
      var pageSpace := BLCKSZ - bufferPos;
      var toWrite := if pageSpace < |data| - bytesWritten then pageSpace else |data| - bytesWritten;
      var chunk := data[bytesWritten..bytesWritten + toWrite];
      CopyStep(relation.blocks, relation.Used(), pages, contents, buffer[..], bufferPage, bufferPos, chunk,
               buffer[..bufferPos] + chunk + buffer[bufferPos + |chunk|..]);
      CopyIn(chunk);
      bufferPos, currentOffset, written := bufferPos + toWrite, currentOffset + toWrite, bytesWritten + toWrite;
      contents := contents + chunk;
      if bufferPos >= BLCKSZ {
        Flush();
        if written < |data| {
          TurnPage();
        }
      }
    }
  }

  lemma WriterPages(blocks: seq<Page>, used: set<nat>, pages: seq<nat>, contents: seq<byte>, buffer: seq<byte>,
                    bufferPage: nat, bufferPos: nat)
    requires WriterState(blocks, used, pages, contents, buffer, bufferPage, bufferPos)
    ensures |pages| == bufferPage + 1 && |buffer| == BLCKSZ && PAGE_HEADER <= bufferPos <= BLCKSZ
    ensures (forall p :: p in pages ==> p in used) && Distinct(pages)
    ensures DATA_PER_PAGE * (|pages| - 1) <= |contents| <= DATA_PER_PAGE * |pages|
    ensures bufferPage == 0 || PAGE_HEADER < bufferPos ==> |pages| == PagesFor(|contents|)
  {
  }

  // ---------- the page index ----------

  /** The entries of index page i. */
  ghost function EntriesOf(pages: seq<nat>, i: nat): seq<nat> {
    var lo := ENTRIES_PER_PAGE * i;
    var hi := if lo + ENTRIES_PER_PAGE <= |pages| then lo + ENTRIES_PER_PAGE else |pages|;
    if lo <= hi then pages[lo..hi] else []
  }

  ghost function NextOf(ids: seq<nat>, i: nat): Option<nat> {
    if i + 1 < |ids| then Some(ids[i + 1]) else None
  }

  /** Index pages from i on are written and chained. */
  ghost predicate IndexFrom(blocks: seq<Page>, ids: seq<nat>, pages: seq<nat>, i: nat) {
    forall k :: i <= k < |ids| ==> ids[k] < |blocks| && blocks[ids[k]] == Index(NextOf(ids, k), EntriesOf(pages, k))
  }

  /** `ids` is the chain of index pages that lists `pages`, starting at `root`. */
  ghost predicate PageIndex(blocks: seq<Page>, root: Option<nat>, ids: seq<nat>, pages: seq<nat>) {
    && IndexFrom(blocks, ids, pages, 0) && Distinct(ids)
    && |ids| == (|pages| + ENTRIES_PER_PAGE - 1) / ENTRIES_PER_PAGE
    && root == if ids == [] then None else Some(ids[0])
  }

  /** What allocating index pages leaves alone. */
  ghost predicate Allocated(relation: Relation, was: seq<Page>, used: set<nat>, ids: seq<nat>)
    reads relation
  {
    && relation.Valid() && Kept(relation.blocks, was, used) && Distinct(ids)
    && (forall k :: 0 <= k < |ids| ==> ids[k] !in used && ids[k] < |relation.blocks|)
    && relation.Used() == used + set b | b in ids
  }

  method AllocateIndexPages(relation: Relation, n: nat) returns (ids: seq<nat>)
    requires relation.Valid()
    modifies relation
    ensures |ids| == n && Allocated(relation, old(relation.blocks), old(relation.Used()), ids)
  {
    ids := [];
    for i := 0 to n
      invariant |ids| == i && Allocated(relation, old(relation.blocks), old(relation.Used()), ids)
    {
      ghost var before := relation.blocks;
      var b := relation.AllocatePage();
      assert forall k :: 0 <= k < i ==> ids[k] in ids;
      ids := ids + [b];
    }
  }

  lemma WriteIndexStep(blocks: seq<Page>, ids: seq<nat>, pages: seq<nat>, i: nat)
    requires i < |ids| && ids[i] < |blocks| && Distinct(ids) && IndexFrom(blocks, ids, pages, i + 1)
    ensures IndexFrom(blocks[ids[i] := Index(NextOf(ids, i), EntriesOf(pages, i))], ids, pages, i)
  {
    hide EntriesOf, NextOf;
  }

  /** Fill index page i, chained to the page after it. */
  method WriteIndexPage(relation: Relation, indexPages: seq<nat>, pages: seq<nat>, i: nat, prevBlock: Option<nat>,
                        ghost was: seq<Page>, ghost used: set<nat>)
    requires Allocated(relation, was, used, indexPages) && IndexFrom(relation.blocks, indexPages, pages, i + 1)
    requires i < |indexPages| == IndexPageCount(pages) && prevBlock == NextOf(indexPages, i)
    modifies relation
    ensures Allocated(relation, was, used, indexPages) && IndexFrom(relation.blocks, indexPages, pages, i)
  {
    hide EntriesOf, NextOf;
    var startIdx := i * ENTRIES_PER_PAGE;
    EntriesAre(pages, i);
    var entriesToWrite := if ENTRIES_PER_PAGE <= |pages| - startIdx then ENTRIES_PER_PAGE else |pages| - startIdx;
    WriteIndexStep(relation.blocks, indexPages, pages, i);
    relation.blocks := relation.blocks[indexPages[i] := Index(prevBlock, pages[startIdx..startIdx + entriesToWrite])];
  }

  function IndexPageCount(pages: seq<nat>): nat {
    (|pages| + ENTRIES_PER_PAGE - 1) / ENTRIES_PER_PAGE
  }

  lemma NoIndexPageYet(blocks: seq<Page>, ids: seq<nat>, pages: seq<nat>)
    ensures IndexFrom(blocks, ids, pages, |ids|)
    ensures ids != [] ==> NextOf(ids, |ids| - 1) == None
  {
  }

  /** write_page_index: allocate the index pages, then write them last to first, chaining as it goes. */
  method WritePageIndex(relation: Relation, pages: seq<nat>) returns (root: Option<nat>, ghost ids: seq<nat>)
    requires relation.Valid()
    modifies relation
    ensures PageIndex(relation.blocks, root, ids, pages)
    ensures Allocated(relation, old(relation.blocks), old(relation.Used()), ids)
  {
    hide *;
    ghost var was, used := relation.blocks, relation.Used();
    var indexPages := AllocateIndexPages(relation, IndexPageCount(pages));
    NoIndexPageYet(relation.blocks, indexPages, pages);
    ids := indexPages;
    root := None;
    var prevBlock: Option<nat> := None;
    var i := |indexPages| - 1;
    while i >= 0
      invariant -1 <= i < |indexPages|
      invariant Allocated(relation, was, used, ids) && IndexFrom(relation.blocks, ids, pages, i + 1)
      invariant i >= 0 ==> prevBlock == NextOf(ids, i)
      invariant root == if i < 0 && ids != [] then Some(ids[0]) else None
    {
      WriteIndexPage(relation, indexPages, pages, i, prevBlock, was, used);
      if i > 0 { NextIs(ids, i - 1); }
      prevBlock := Some(indexPages[i]);
      if i == 0 {
        root := Some(indexPages[0]);
      }
      i := i - 1;
    }
    IndexComplete(relation, was, used, root, ids, pages);
  }

  lemma IndexComplete(relation: Relation, was: seq<Page>, used: set<nat>, root: Option<nat>, ids: seq<nat>,
                      pages: seq<nat>)
    requires Allocated(relation, was, used, ids) && IndexFrom(relation.blocks, ids, pages, 0)
    requires |ids| == IndexPageCount(pages) && root == if ids != [] then Some(ids[0]) else None
    ensures PageIndex(relation.blocks, root, ids, pages)
  {
  }

  lemma NextIs(ids: seq<nat>, i: nat)
    requires i < |ids|
    ensures NextOf(ids, i) == if i + 1 < |ids| then Some(ids[i + 1]) else None
  {
  }

  lemma EntriesAre(pages: seq<nat>, i: nat)
    requires i < IndexPageCount(pages)
    ensures var lo := i * ENTRIES_PER_PAGE;
            var n := if ENTRIES_PER_PAGE <= |pages| - lo then ENTRIES_PER_PAGE else |pages| - lo;
            0 <= lo && 0 < n && lo + n <= |pages| && EntriesOf(pages, i) == pages[lo..lo + n]
  {
  }

  // ---------- opening: the page map ----------

  ghost predicate InRelation(pages: seq<nat>, n: nat) {
    forall p :: p in pages ==> p < n
  }

  /** A block of the relation that is an index page. */
  ghost predicate IndexAt(blocks: seq<Page>, b: nat) {
    b < |blocks| && blocks[b].Index?
  }

  /** The entries of the index pages of a path, one page after another. */
  ghost function EntriesOn(blocks: seq<Page>, path: seq<nat>): seq<nat>
    decreases |path|
  {
    if path == [] || !IndexAt(blocks, path[0]) then [] else blocks[path[0]].entries + EntriesOn(blocks, path[1..])
  }

  /** What a page adds to a map that still lacks `left` entries. */
  function Taken(entries: seq<nat>, left: nat): seq<nat> {
    if |entries| <= left then entries else entries[..left]
  }

  /** From `block` on, with `left` entries missing, the loop that builds the page map visits `path` and stops. */
  ghost predicate LoadRun(blocks: seq<Page>, block: Option<nat>, left: nat, path: seq<nat>)
    decreases |path|
  {
    if block.None? || left == 0 then path == []
    else
      && path != [] && path[0] == block.value
      && if IndexAt(blocks, path[0]) && InRelation(Taken(blocks[path[0]].entries, left), |blocks|)
         then LoadRun(blocks, blocks[path[0]].nextPage, left - |Taken(blocks[path[0]].entries, left)|, path[1..])
         else |path| == 1
  }

  /** Every block of the path is an index page, and it has n entries, all within the relation. */
  ghost predicate Loads(blocks: seq<Page>, path: seq<nat>, n: nat) {
    && (forall b :: b in path ==> IndexAt(blocks, b))
    && n <= |EntriesOn(blocks, path)| && InRelation(EntriesOn(blocks, path)[..n], |blocks|)
  }

  /** The first n entries on the path; None for a bad page, a bad entry or too few entries. */
  ghost function MapOn(blocks: seq<Page>, path: seq<nat>, n: nat): Option<seq<nat>> {
    if Loads(blocks, path, n) then Some(EntriesOn(blocks, path)[..n]) else None
  }

  ghost function Prepend(part: seq<nat>, rest: Option<seq<nat>>): Option<seq<nat>> {
    match rest
    case Some(more) => Some(part + more)
    case None => None
  }

  lemma PathParts(blocks: seq<Page>, path: seq<nat>)
    requires path != [] && IndexAt(blocks, path[0])
    ensures (forall b :: b in path ==> IndexAt(blocks, b)) <==> forall b :: b in path[1..] ==> IndexAt(blocks, b)
    ensures EntriesOn(blocks, path) == blocks[path[0]].entries + EntriesOn(blocks, path[1..])
  {
    assert path == [path[0]] + path[1..];
  }

  lemma InParts(part: seq<nat>, more: seq<nat>, left: nat, n: nat)
    requires |part| <= left
    ensures left <= |part + more| ==> (part + more)[..left] == part + more[..left - |part|]
    ensures left <= |part + more| ==>
              (InRelation((part + more)[..left], n) <==> InRelation(part, n) && InRelation(more[..left - |part|], n))
  {
    if left <= |part + more| {
      var first := more[..left - |part|];
      assert (part + more)[..left] == part + first;
      assert forall p :: p in part + first <==> p in part || p in first;
    }
  }

  /** A page whose entries all go into the map. */
  lemma TakeWhole(blocks: seq<Page>, path: seq<nat>, left: nat)
    requires path != [] && IndexAt(blocks, path[0]) && |blocks[path[0]].entries| <= left
    ensures var entries := blocks[path[0]].entries;
            MapOn(blocks, path, left) ==
            if InRelation(entries, |blocks|) then Prepend(entries, MapOn(blocks, path[1..], left - |entries|)) else None
  {
    hide InRelation, EntriesOn;
    PathParts(blocks, path);
    InParts(blocks[path[0]].entries, EntriesOn(blocks, path[1..]), left, |blocks|);
  }

  /** A page with more entries than the map lacks. */
  lemma TakePart(blocks: seq<Page>, path: seq<nat>, left: nat)
    requires |path| == 1 && IndexAt(blocks, path[0]) && left < |blocks[path[0]].entries|
    ensures var part := blocks[path[0]].entries[..left];
            MapOn(blocks, path, left) == if InRelation(part, |blocks|) then Prepend(part, MapOn(blocks, [], 0)) else None
  {
    hide InRelation;
    PathParts(blocks, path);
    var part := blocks[path[0]].entries[..left];
    assert path[1..] == [] && part + [] == part && EntriesOn(blocks, [])[..0] == [];
    assert EntriesOn(blocks, path)[..left] == part;
    NothingOutside(|blocks|);
  }

  /** One page of a run: taken over, or the end of it. */
  lemma LoadStep(blocks: seq<Page>, block: Option<nat>, left: nat, path: seq<nat>)
    requires block.Some? && 0 < left && LoadRun(blocks, block, left, path)
    ensures path != [] && path[0] == block.value
    ensures !IndexAt(blocks, block.value) ==> MapOn(blocks, path, left) == None
    ensures IndexAt(blocks, block.value) ==>
              var page := blocks[block.value];
              var taken := Taken(page.entries, left);
              if InRelation(taken, |blocks|) then
                && LoadRun(blocks, page.nextPage, left - |taken|, path[1..])
                && MapOn(blocks, path, left) == Prepend(taken, MapOn(blocks, path[1..], left - |taken|))
              else MapOn(blocks, path, left) == None
  {
    hide InRelation, MapOn;
    if !IndexAt(blocks, block.value) {
      NoMap(blocks, path, left);
    } else if |blocks[block.value].entries| <= left {
      TakeWhole(blocks, path, left);
    } else {
      TakePart(blocks, path, left);
      assert path[1..] == [];
    }
  }

  lemma NoMap(blocks: seq<Page>, path: seq<nat>, left: nat)
    requires path != [] && !IndexAt(blocks, path[0])
    ensures MapOn(blocks, path, left) == None
  {
    assert path[0] in path;
  }

  lemma NothingOutside(n: nat)
    ensures InRelation([], n)
  {
  }

  lemma PrependTwice(a: seq<nat>, b: seq<nat>, rest: Option<seq<nat>>)
    ensures Prepend(a, Prepend(b, rest)) == Prepend(a + b, rest)
  {
    if rest.Some? { assert a + (b + rest.value) == a + b + rest.value; }
  }

  /** Copy one index page's entries to the map, as far as it has room, checking each against the relation's size. */
  method CopyEntries(relation: Relation, entries: seq<nat>, loaded0: seq<nat>, numPages: nat)
    returns (ok: bool, loaded: seq<nat>)
    requires |loaded0| <= numPages
    ensures ok <==> InRelation(Taken(entries, numPages - |loaded0|), |relation.blocks|)
    ensures ok ==> loaded == loaded0 + Taken(entries, numPages - |loaded0|)
  {
    loaded := loaded0;
    ghost var taken := Taken(entries, numPages - |loaded0|);
    var i := 0;
    while i < |entries| && |loaded| < numPages
      invariant 0 <= i <= |taken| && loaded == loaded0 + taken[..i] && InRelation(taken[..i], |relation.blocks|)
    {
      var pageBlock := entries[i];
      assert pageBlock == taken[i] && pageBlock in taken;
      if pageBlock >= |relation.blocks| { return false, loaded; }
      loaded := loaded + [pageBlock];
      assert taken[..i + 1] == taken[..i] + [pageBlock];
      i := i + 1;
    }
    assert taken[..|taken|] == taken;
    return true, loaded;
  }

  /**
   * The page-map part of tp_segment_open_ex, on whatever the blocks hold. It must stop: `path` is what
   * it visits. None is its error: a block outside the relation or without the magic number of an index
   * page, an entry outside the relation, or a chain with too few entries.
   */
  method LoadPageMap(relation: Relation, root: Option<nat>, numPages: nat, ghost path: seq<nat>)
    returns (pageMap: Option<seq<nat>>)
    requires LoadRun(relation.blocks, root, numPages, path)
    ensures pageMap == MapOn(relation.blocks, path, numPages)
  {
    hide MapOn, LoadRun, InRelation, Taken;
    var loaded: seq<nat> := [];
    var block := root;
    ghost var rest := path;
    EmptyPrefix(MapOn(relation.blocks, path, numPages));
    while block.Some? && |loaded| < numPages
      invariant |loaded| <= numPages && LoadRun(relation.blocks, block, numPages - |loaded|, rest)
      invariant MapOn(relation.blocks, path, numPages) ==
                Prepend(loaded, MapOn(relation.blocks, rest, numPages - |loaded|))
      decreases |rest|
    {
      LoadStep(relation.blocks, block, numPages - |loaded|, rest);
      if block.value >= |relation.blocks| { return None; }
      var page := relation.blocks[block.value];
      if !page.Index? { return None; }
      var ok, more := CopyEntries(relation, page.entries, loaded, numPages);
      if !ok { return None; }
      TakenLength(page.entries, numPages - |loaded|);
      PrependTwice(loaded, Taken(page.entries, numPages - |loaded|),
                   MapOn(relation.blocks, rest[1..], numPages - |more|));
      loaded := more;
      block := page.nextPage;
      rest := rest[1..];
    }
    LoadEnds(relation.blocks, block, numPages - |loaded|, rest);
    if |loaded| != numPages { return None; }
    assert loaded + [] == loaded;
    return Some(loaded);
  }

  lemma EmptyPrefix(m: Option<seq<nat>>)
    ensures Prepend([], m) == m
  {
    if m.Some? { assert [] + m.value == m.value; }
  }

  lemma TakenLength(entries: seq<nat>, left: nat)
    ensures |Taken(entries, left)| <= left
  {
  }

  lemma LoadEnds(blocks: seq<Page>, block: Option<nat>, left: nat, path: seq<nat>)
    requires (block.None? || left == 0) && LoadRun(blocks, block, left, path)
    ensures MapOn(blocks, path, left) == if left == 0 then Some([]) else None
  {
    if left == 0 { assert EntriesOn(blocks, path)[..0] == []; }
  }

  /** The loop stops on every chain, also a circular one, if no index page is empty. */
  lemma {:induction false} LoadStops(blocks: seq<Page>, block: Option<nat>, left: nat) returns (path: seq<nat>)
    requires forall b :: 0 <= b < |blocks| && blocks[b].Index? ==> blocks[b].entries != []
    ensures LoadRun(blocks, block, left, path) && |path| <= left
    decreases left
  {
    if block.None? || left == 0 {
      path := [];
    } else if IndexAt(blocks, block.value) && InRelation(Taken(blocks[block.value].entries, left), |blocks|) {
      var page := blocks[block.value];
      var rest := LoadStops(blocks, page.nextPage, left - |Taken(page.entries, left)|);
      path := [block.value] + rest;
      assert path[1..] == rest;
    } else {
      path := [block.value];
    }
  }

  /** On an empty index page chained to itself it does not stop. */
  lemma {:induction false} LoadNeverStops(blocks: seq<Page>, b: nat, left: nat, path: seq<nat>)
    requires b < |blocks| && blocks[b] == Index(Some(b), []) && 0 < left
    ensures !LoadRun(blocks, Some(b), left, path)
    decreases |path|
  {
    if path != [] { LoadNeverStops(blocks, b, left, path[1..]); }
  }

  // ---------- a written page index ----------

  /** Following next_page from `block` visits `ids`: to the end of the chain or to a block that is no index page. */
  ghost predicate Chain(blocks: seq<Page>, block: Option<nat>, ids: seq<nat>)
    decreases |ids|
  {
    if block.None? then ids == []
    else
      && ids != [] && ids[0] == block.value
      && if IndexAt(blocks, ids[0]) then Chain(blocks, blocks[ids[0]].nextPage, ids[1..]) else |ids| == 1
  }

  ghost function From(ids: seq<nat>, i: nat): Option<nat> {
    if i < |ids| then Some(ids[i]) else None
  }

  /** How much of the page list the index pages from i on hold. */
  ghost function ListedFrom(pages: seq<nat>, i: nat): seq<nat> {
    if ENTRIES_PER_PAGE * i <= |pages| then pages[ENTRIES_PER_PAGE * i..] else []
  }

  lemma ListedStep(pages: seq<nat>, i: nat)
    requires i < IndexPageCount(pages)
    ensures ListedFrom(pages, i) == EntriesOf(pages, i) + ListedFrom(pages, i + 1)
    ensures 0 < |EntriesOf(pages, i)|
  {
    EntriesAre(pages, i);
  }

  lemma IndexPageAt(blocks: seq<Page>, root: Option<nat>, ids: seq<nat>, pages: seq<nat>, i: nat)
    requires PageIndex(blocks, root, ids, pages) && i < |ids|
    ensures IndexAt(blocks, ids[i]) && blocks[ids[i]] == Index(From(ids, i + 1), EntriesOf(pages, i))
    ensures |ids| == IndexPageCount(pages)
  {
  }

  /** What write_page_index leaves is a chain of index pages with the segment's pages as entries. */
  lemma {:induction false} WrittenFrom(blocks: seq<Page>, root: Option<nat>, ids: seq<nat>, pages: seq<nat>, i: nat)
    requires PageIndex(blocks, root, ids, pages) && i <= |ids|
    ensures Chain(blocks, From(ids, i), ids[i..]) && EntriesOn(blocks, ids[i..]) == ListedFrom(pages, i)
    ensures InRelation(pages, |blocks|) ==> LoadRun(blocks, From(ids, i), |ListedFrom(pages, i)|, ids[i..])
    ensures forall b :: b in ids[i..] ==> IndexAt(blocks, b)
    decreases |ids| - i
  {
    hide PageIndex, EntriesOf, ListedFrom, IndexPageCount;
    if i == |ids| {
      NothingListed(blocks, root, ids, pages);
    } else {
      IndexPageAt(blocks, root, ids, pages, i);
      ListedStep(pages, i);
      WrittenFrom(blocks, root, ids, pages, i + 1);
      assert ids[i..] == [ids[i]] + ids[i + 1..];
      ListedWithin(pages, i, |blocks|);
    }
  }

  lemma NothingListed(blocks: seq<Page>, root: Option<nat>, ids: seq<nat>, pages: seq<nat>)
    requires PageIndex(blocks, root, ids, pages)
    ensures ListedFrom(pages, |ids|) == []
  {
  }

  lemma ListedWithin(pages: seq<nat>, i: nat, n: nat)
    requires i < IndexPageCount(pages)
    ensures InRelation(pages, n) ==> InRelation(EntriesOf(pages, i), n)
  {
    EntriesAre(pages, i);
    forall p | p in EntriesOf(pages, i)
      ensures p in pages
    {
    }
  }

  lemma WholeIndex(blocks: seq<Page>, root: Option<nat>, ids: seq<nat>, pages: seq<nat>)
    requires PageIndex(blocks, root, ids, pages)
    ensures root == From(ids, 0) && ListedFrom(pages, 0) == pages && ids[0..] == ids
  {
  }

  /** Opening a written segment whose pages are in the relation finds them, in order. */
  lemma WrittenIndexLoads(blocks: seq<Page>, root: Option<nat>, ids: seq<nat>, pages: seq<nat>)
    requires PageIndex(blocks, root, ids, pages) && InRelation(pages, |blocks|)
    ensures LoadRun(blocks, root, |pages|, ids) && MapOn(blocks, ids, |pages|) == Some(pages)
    ensures Chain(blocks, root, ids)
  {
    hide PageIndex, ListedFrom, LoadRun, Chain, InRelation, IndexAt, EntriesOn;
    WholeIndex(blocks, root, ids, pages);
    WrittenFrom(blocks, root, ids, pages, 0);
    assert pages[..|pages|] == pages;
  }

  lemma {:induction false} RunUnique(blocks: seq<Page>, block: Option<nat>, left: nat, path: seq<nat>, other: seq<nat>)
    requires LoadRun(blocks, block, left, path) && LoadRun(blocks, block, left, other)
    ensures path == other
    decreases |path|
  {
    hide InRelation, Taken;
    if block.Some? && left != 0 {
      assert path == [block.value] + path[1..] && other == [block.value] + other[1..];
      if IndexAt(blocks, block.value) && InRelation(Taken(blocks[block.value].entries, left), |blocks|) {
        var page := blocks[block.value];
        TakenLength(page.entries, left);
        RunUnique(blocks, page.nextPage, left - |Taken(page.entries, left)|, path[1..], other[1..]);
      }
    }
  }

  /** A run along a chain reads a prefix of the chain's entries. */
  lemma {:induction false} RunInChain(blocks: seq<Page>, block: Option<nat>, left: nat, path: seq<nat>, ids: seq<nat>)
    requires LoadRun(blocks, block, left, path) && Chain(blocks, block, ids)
    ensures EntriesOn(blocks, path) <= EntriesOn(blocks, ids)
    decreases |path|
  {
    hide InRelation, Taken;
    if block.Some? && left != 0 && IndexAt(blocks, block.value) {
      if InRelation(Taken(blocks[block.value].entries, left), |blocks|) {
        var page := blocks[block.value];
        TakenLength(page.entries, left);
        RunInChain(blocks, page.nextPage, left - |Taken(page.entries, left)|, path[1..], ids[1..]);
      } else {
        assert EntriesOn(blocks, path[1..]) == [];
      }
    }
  }

  /** Opening a written segment finds its pages, in order, or fails exactly when one is outside the relation. */
  lemma WrittenIndexLoadsIff(blocks: seq<Page>, root: Option<nat>, ids: seq<nat>, pages: seq<nat>, path: seq<nat>)
    requires PageIndex(blocks, root, ids, pages) && LoadRun(blocks, root, |pages|, path)
    ensures MapOn(blocks, path, |pages|) == if InRelation(pages, |blocks|) then Some(pages) else None
  {
    hide PageIndex, LoadRun, Chain, InRelation, EntriesOn, ListedFrom, IndexAt;
    if InRelation(pages, |blocks|) {
      WrittenIndexLoads(blocks, root, ids, pages);
      RunUnique(blocks, root, |pages|, path, ids);
    } else {
      WholeIndex(blocks, root, ids, pages);
      WrittenFrom(blocks, root, ids, pages, 0);
      RunInChain(blocks, root, |pages|, path, ids);
      var found := EntriesOn(blocks, path);
      if |pages| <= |found| { assert found[..|pages|] == pages; }
    }
  }

  // ---------- the reader ----------

  /** tp_segment_read with its cached page. */
  class SegmentReader {
    const relation: Relation
    const pageMap: seq<nat>
    var currentLogicalPage: Option<nat>
    var currentBuffer: nat

    ghost predicate Valid()
      reads this, relation
    {
      && DataPages(relation.blocks, pageMap)
      && (currentLogicalPage.Some? ==>
            currentLogicalPage.value < |pageMap| && currentBuffer == pageMap[currentLogicalPage.value])
    }

    constructor (relation: Relation, pageMap: seq<nat>)
      requires DataPages(relation.blocks, pageMap)
      ensures Valid() && this.relation == relation && this.pageMap == pageMap
    {
      this.relation, this.pageMap := relation, pageMap;
      currentLogicalPage, currentBuffer := None, 0;
    }

    /** One iteration: bytes from one page, through the cached page if it is the right one. */
    method ReadPart(logicalOffset: nat, left: nat) returns (part: Option<seq<byte>>)
      requires Valid() && 0 < left
      modifies this
      ensures Valid() && (part.None? <==> logicalOffset >= DATA_PER_PAGE * |pageMap|)
      ensures part.Some? ==>
                && 0 < |part.value| <= left && logicalOffset + |part.value| <= DATA_PER_PAGE * |pageMap|
                && part.value == Logical(relation.blocks, pageMap)[logicalOffset..logicalOffset + |part.value|]
    {
      hide DataPages, Logical;
      var logicalPage, pageOffset := logicalOffset / DATA_PER_PAGE, logicalOffset % DATA_PER_PAGE;
      var toRead := if left < DATA_PER_PAGE - pageOffset then left else DATA_PER_PAGE - pageOffset;
      if currentLogicalPage != Some(logicalPage) {
        if logicalPage >= |pageMap| { return None; }
        currentBuffer := pageMap[logicalPage];
        currentLogicalPage := Some(logicalPage);
      }
      LogicalPage(relation.blocks, pageMap, logicalPage);
      PageSlice(Logical(relation.blocks, pageMap), relation.blocks[currentBuffer].bytes, logicalPage, pageOffset, toRead);
      return Some(relation.blocks[currentBuffer].bytes[pageOffset..pageOffset + toRead]);
    }

    /** The bytes at [offset, offset + len); None is the invalid-page error, raised exactly past the end. */
    method Read(offset: nat, len: nat) returns (r: Option<seq<byte>>)
      requires Valid()
      modifies this
      ensures Valid() && (r.None? <==> len > 0 && offset + len > DATA_PER_PAGE * |pageMap|)
      ensures r.Some? && len > 0 ==> r.value == Logical(relation.blocks, pageMap)[offset..offset + len]
      ensures len == 0 ==> r == Some([])
    {
      hide DataPages, Logical;
      var dest: seq<byte> := [];
      while |dest| < len
        invariant |dest| <= len && Valid()
        invariant |dest| > 0 ==> offset + |dest| <= DATA_PER_PAGE * |pageMap|
        invariant |dest| > 0 ==> dest == Logical(relation.blocks, pageMap)[offset..offset + |dest|]
        decreases len - |dest|
      {
        var part := ReadPart(offset + |dest|, len - |dest|);
        if part.None? { return None; }
        Extend(Logical(relation.blocks, pageMap), offset, offset + |dest|, |part.value|);
        dest := dest + part.value;
      }
      return Some(dest);
    }
  }

  /** A slice inside one page is a slice of the whole. */
  lemma PageSlice(all: seq<byte>, page: seq<byte>, p: nat, from: nat, n: nat)
    requires |page| == DATA_PER_PAGE && DATA_PER_PAGE * p + DATA_PER_PAGE <= |all| && from + n <= DATA_PER_PAGE
    requires all[DATA_PER_PAGE * p..DATA_PER_PAGE * p + DATA_PER_PAGE] == page
    ensures page[from..from + n] == all[DATA_PER_PAGE * p + from..DATA_PER_PAGE * p + from + n]
  {
    SliceOfSlice(all, DATA_PER_PAGE * p, DATA_PER_PAGE * p + DATA_PER_PAGE, from, from + n);
  }

  lemma SliceOfSlice<T>(s: seq<T>, a: nat, b: nat, c: nat, d: nat)
    requires a <= b <= |s| && c <= d <= b - a
    ensures s[a..b][c..d] == s[a + c..a + d]
  {
    forall i | 0 <= i < d - c
      ensures s[a..b][c..d][i] == s[a + c..a + d][i]
    {
      assert s[a..b][c + i] == s[a + c + i];
    }
  }

  lemma Extend(all: seq<byte>, from: nat, mid: nat, n: nat)
    requires from <= mid && mid + n <= |all|
    ensures all[from..mid] + all[mid..mid + n] == all[from..mid + n]
  {
  }

  // ---------- dictionary entries patched in place ----------

  const ENTRY_SIZE: nat := 12

  /** `s` with the bytes at `at` replaced. */
  ghost function Spliced(s: seq<byte>, at: nat, part: seq<byte>): seq<byte>
    requires at + |part| <= |s|
  {
    s[..at] + part + s[at + |part|..]
  }

  lemma LogicalUpdate(blocks: seq<Page>, pages: seq<nat>, p: nat, from: nat, part: seq<byte>)
    requires DataPages(blocks, pages) && Distinct(pages) && p < |pages| && from + |part| <= DATA_PER_PAGE
    ensures DataPage(blocks, pages[p])
    ensures var blocks' := blocks[pages[p] := Data(Spliced(blocks[pages[p]].bytes, from, part))];
            && DataPages(blocks', pages) && DATA_PER_PAGE * p + from + |part| <= |Logical(blocks, pages)|
            && Logical(blocks', pages) == Spliced(Logical(blocks, pages), DATA_PER_PAGE * p + from, part)
  {
    assert DataPage(blocks, pages[p]);
    var blocks' := blocks[pages[p] := Data(Spliced(blocks[pages[p]].bytes, from, part))];
    forall i | 0 <= i < |pages|
      ensures DataPage(blocks', pages[i])
    {
      assert DataPage(blocks, pages[i]);
    }
    var now, was := Logical(blocks', pages), Logical(blocks, pages);
    var want := Spliced(was, DATA_PER_PAGE * p + from, part);
    forall o | 0 <= o < |was|
      ensures now[o] == want[o]
    {
      UpdatedByte(blocks, blocks', pages, p, from, part, o);
    }
  }

  lemma ByteAt(blocks: seq<Page>, pages: seq<nat>, o: nat)
    requires DataPages(blocks, pages) && o < DATA_PER_PAGE * |pages|
    ensures DataPage(blocks, pages[o / DATA_PER_PAGE])
    ensures Logical(blocks, pages)[o] == blocks[pages[o / DATA_PER_PAGE]].bytes[o % DATA_PER_PAGE]
  {
    var p, r := o / DATA_PER_PAGE, o % DATA_PER_PAGE;
    LogicalPage(blocks, pages, p);
    hide Logical;
    var base := DATA_PER_PAGE * p;
    assert Logical(blocks, pages)[base..base + DATA_PER_PAGE][r] == Logical(blocks, pages)[o];
  }

  lemma UpdatedByte(blocks: seq<Page>, blocks': seq<Page>, pages: seq<nat>, p: nat, from: nat, part: seq<byte>, o: nat)
    requires DataPages(blocks, pages) && DataPages(blocks', pages) && Distinct(pages)
    requires p < |pages| && from + |part| <= DATA_PER_PAGE && DataPage(blocks, pages[p]) && o < DATA_PER_PAGE * |pages|
    requires blocks' == blocks[pages[p] := Data(Spliced(blocks[pages[p]].bytes, from, part))]
    ensures DATA_PER_PAGE * p + from + |part| <= |Logical(blocks, pages)|
    ensures Logical(blocks', pages)[o] == Spliced(Logical(blocks, pages), DATA_PER_PAGE * p + from, part)[o]
  {
    hide Logical, DataPages;
    ByteAt(blocks, pages, o);
    ByteAt(blocks', pages, o);
    var q := o / DATA_PER_PAGE;
    if q != p {
      assert pages[q] != pages[p];
    }
  }

  /** Overwrite `part` inside one page. */
  method PatchPage(relation: Relation, pages: seq<nat>, p: nat, from: nat, part: seq<byte>)
    requires DataPages(relation.blocks, pages) && Distinct(pages) && p < |pages| && from + |part| <= DATA_PER_PAGE
    modifies relation`blocks
    ensures DataPages(relation.blocks, pages) && |relation.blocks| == |old(relation.blocks)|
    ensures DATA_PER_PAGE * p + from + |part| <= |Logical(old(relation.blocks), pages)|
    ensures Logical(relation.blocks, pages) ==
            Spliced(old(Logical(relation.blocks, pages)), DATA_PER_PAGE * p + from, part)
    ensures forall b :: 0 <= b < |relation.blocks| && b !in pages ==> relation.blocks[b] == old(relation.blocks[b])
  {
    LogicalUpdate(relation.blocks, pages, p, from, part);
    var bytes := relation.blocks[pages[p]].bytes;
    relation.blocks := relation.blocks[pages[p] := Data(bytes[..from] + part + bytes[from + |part|..])];
  }

  lemma SpliceTwice(s: seq<byte>, at: nat, a: seq<byte>, b: seq<byte>)
    requires at + |a| + |b| <= |s|
    ensures Spliced(Spliced(s, at, a), at + |a|, b) == Spliced(s, at, a + b)
  {
  }

  /**
   * Write one dictionary entry at a logical offset, on one page or across two. `ok` is false
   * when the entry reaches beyond the allocated pages, the source's internal error.
   */
  method PatchEntry(relation: Relation, pages: seq<nat>, entryOffset: nat, entry: seq<byte>) returns (ok: bool)
    requires DataPages(relation.blocks, pages) && Distinct(pages) && |entry| == ENTRY_SIZE
    modifies relation`blocks
    ensures DataPages(relation.blocks, pages) && |relation.blocks| == |old(relation.blocks)|
    ensures ok <==> entryOffset + ENTRY_SIZE <= DATA_PER_PAGE * |pages|
    ensures ok ==> Logical(relation.blocks, pages) == Spliced(old(Logical(relation.blocks, pages)), entryOffset, entry)
    ensures forall b :: 0 <= b < |relation.blocks| && b !in pages ==> relation.blocks[b] == old(relation.blocks[b])
  {
    hide DataPages, Distinct, Logical, Spliced;
    ghost var was := Logical(relation.blocks, pages);
    var logicalPage, pageOffset := entryOffset / DATA_PER_PAGE, entryOffset % DATA_PER_PAGE;
    if logicalPage >= |pages| { return false; }
    var bytesOnThisPage := DATA_PER_PAGE - pageOffset;
    if bytesOnThisPage >= ENTRY_SIZE {
      PatchPage(relation, pages, logicalPage, pageOffset, entry);
    } else {
      PatchPage(relation, pages, logicalPage, pageOffset, entry[..bytesOnThisPage]);
      if logicalPage + 1 >= |pages| { return false; }
      PatchPage(relation, pages, logicalPage + 1, 0, entry[bytesOnThisPage..]);
      SpliceTwice(was, entryOffset, entry[..bytesOnThisPage], entry[bytesOnThisPage..]);
      assert entry[..bytesOnThisPage] + entry[bytesOnThisPage..] == entry;
    }
    return true;
  }

  ghost function Joined(entries: seq<seq<byte>>): seq<byte> {
    if entries == [] then [] else Joined(entries[..|entries| - 1]) + entries[|entries| - 1]
  }

  lemma {:induction false} JoinedLength(entries: seq<seq<byte>>)
    requires forall i :: 0 <= i < |entries| ==> |entries[i]| == ENTRY_SIZE
    ensures |Joined(entries)| == ENTRY_SIZE * |entries|
  {
    if entries != [] { JoinedLength(entries[..|entries| - 1]); }
  }

  lemma JoinOneMore(entries: seq<seq<byte>>, i: nat)
    requires i < |entries| && forall j :: 0 <= j < |entries| ==> |entries[j]| == ENTRY_SIZE
    ensures Joined(entries[..i + 1]) == Joined(entries[..i]) + entries[i] && |Joined(entries[..i])| == ENTRY_SIZE * i
    ensures entries[..|entries|] == entries
  {
    assert entries[..i + 1][..i] == entries[..i];
    JoinedLength(entries[..i]);
  }

  lemma NothingJoined(entries: seq<seq<byte>>, s: seq<byte>, at: nat)
    requires at <= |s|
    ensures Joined(entries[..0]) == [] && Spliced(s, at, []) == s
  {
  }

  /** All dictionary entries of a segment, one after another: exactly their bytes change. */
  method PatchEntries(relation: Relation, pages: seq<nat>, entriesOffset: nat, entries: seq<seq<byte>>) returns (ok: bool)
    requires DataPages(relation.blocks, pages) && Distinct(pages)
    requires forall i :: 0 <= i < |entries| ==> |entries[i]| == ENTRY_SIZE
    modifies relation`blocks
    ensures DataPages(relation.blocks, pages) && |relation.blocks| == |old(relation.blocks)|
    ensures ok <==> entries == [] || entriesOffset + ENTRY_SIZE * |entries| <= DATA_PER_PAGE * |pages|
    ensures ok && entries != [] ==>
              && |Joined(entries)| == ENTRY_SIZE * |entries|
              && Logical(relation.blocks, pages) ==
                 Spliced(old(Logical(relation.blocks, pages)), entriesOffset, Joined(entries))
    ensures forall b :: 0 <= b < |relation.blocks| && b !in pages ==> relation.blocks[b] == old(relation.blocks[b])
  {
    hide DataPages, Distinct, Logical, Joined, Spliced;
    ghost var was := Logical(relation.blocks, pages);
    if |entries| == 0 { return true; }
    var i := 0;
    while i < |entries|
      invariant 0 <= i <= |entries| && DataPages(relation.blocks, pages)
      invariant |relation.blocks| == |old(relation.blocks)|
      invariant i > 0 ==> entriesOffset + ENTRY_SIZE * i <= DATA_PER_PAGE * |pages|
      invariant i > 0 ==> |Joined(entries[..i])| == ENTRY_SIZE * i
      invariant i > 0 ==> Logical(relation.blocks, pages) == Spliced(was, entriesOffset, Joined(entries[..i]))
      invariant i == 0 ==> Logical(relation.blocks, pages) == was
      invariant forall b :: 0 <= b < |relation.blocks| && b !in pages ==> relation.blocks[b] == old(relation.blocks[b])
    {
      ghost var before := relation.blocks;
      var patched := PatchEntry(relation, pages, entriesOffset + i * ENTRY_SIZE, entries[i]);
      if !patched { return false; }
      JoinOneMore(entries, i);
      if i > 0 {
        SpliceTwice(was, entriesOffset, Joined(entries[..i]), entries[i]);
      } else {
        NothingJoined(entries, was, entriesOffset);
        assert Joined(entries[..i]) + entries[i] == entries[i];
      }
      i := i + 1;
    }
    JoinOneMore(entries, i - 1);
    return true;
  }

  // ---------- a whole segment ----------

  /**
   * tp_segment_collect_pages: the data pages, then the index chain up to its end or to the first
   * page that is no index page, that one included. None is the error of reading a block outside
   * the relation.
   */
  method CollectPages(relation: Relation, pageMap: seq<nat>, root: Option<nat>, ghost ids: seq<nat>)
    returns (all: Option<seq<nat>>)
    requires Chain(relation.blocks, root, ids)
    ensures all == if InRelation(ids, |relation.blocks|) then Some(pageMap + ids) else None
  {
    var chain: seq<nat> := [];
    var block := root;
    ghost var rest := ids;
    while block.Some?
      invariant chain + rest == ids && Chain(relation.blocks, block, rest) && InRelation(chain, |relation.blocks|)
      decreases |rest|
    {
      assert rest == [block.value] + rest[1..] && block.value in ids;
      if block.value >= |relation.blocks| { return None; }
      chain := chain + [block.value];
      rest := rest[1..];
      var page := relation.blocks[block.value];
      if !page.Index? { break; }
      block := page.nextPage;
    }
    assert rest == [] && chain == ids;
    return Some(pageMap + chain);
  }

  lemma {:induction false} LogicalKept(now: seq<Page>, was: seq<Page>, pages: seq<nat>, used: set<nat>)
    requires Kept(now, was, used) && DataPages(was, pages) && forall p :: p in pages ==> p in used
    ensures DataPages(now, pages) && Logical(now, pages) == Logical(was, pages)
  {
    assert forall i :: 0 <= i < |pages| ==> pages[i] in pages && DataPage(was, pages[i]);
    if pages != [] {
      var n := |pages| - 1;
      assert forall i :: 0 <= i < n ==> pages[..n][i] == pages[i];
      LogicalKept(now, was, pages[..n], used);
    }
  }

  ghost function Concat(chunks: seq<seq<byte>>): seq<byte> {
    if chunks == [] then [] else Concat(chunks[..|chunks| - 1]) + chunks[|chunks| - 1]
  }

  lemma ConcatOneMore(chunks: seq<seq<byte>>, i: nat)
    requires i < |chunks|
    ensures Concat(chunks[..i + 1]) == Concat(chunks[..i]) + chunks[i]
  {
    assert chunks[..i + 1][..i] == chunks[..i];
  }

  ghost predicate NoneIn(ids: seq<nat>, pages: seq<nat>) {
    forall i :: i in ids ==> i !in pages
  }

  lemma FreshIndexPages(relation: Relation, was: seq<Page>, used: set<nat>, ids: seq<nat>, pages: seq<nat>)
    requires Allocated(relation, was, used, ids) && forall p :: p in pages ==> p in used
    ensures NoneIn(ids, pages)
  {
  }

  /** All writes of a segment, one after another. */
  method WriteChunks(relation: Relation, chunks: seq<seq<byte>>) returns (writer: SegmentWriter)
    requires relation.Valid()
    modifies relation
    ensures writer.Valid() && writer.contents == Concat(chunks) && writer.NoEmptyPage()
    ensures fresh(writer.Repr - {relation}) && writer.relation == relation
    ensures Kept(relation.blocks, old(relation.blocks), old(relation.Used())) && old(relation.Used()) <= relation.Used()
    ensures old(relation.Used()) !! set p | p in writer.pages
  {
    ghost var was, used := relation.blocks, relation.Used();
    writer := new SegmentWriter(relation);
    hide WriterState, OnDisk, DataPages;
    ElsewhereKeeps(relation.blocks, was, was, used, relation.Used(), used, [], writer.pages);
    assert chunks[..0] == [];
    var i := 0;
    while i < |chunks|
      invariant 0 <= i <= |chunks| && writer.Valid() && writer.contents == Concat(chunks[..i])
      invariant fresh(writer.Repr - {relation}) && writer.relation == relation && writer.NoEmptyPage()
      invariant Kept(relation.blocks, was, used) && used !! set p | p in writer.pages
      invariant used <= relation.Used()
    {
      WriteChunk(writer, chunks[i], was, used);
      ConcatOneMore(chunks, i);
      i := i + 1;
    }
    assert chunks[..|chunks|] == chunks;
  }

  /** Write chunk after chunk, flush, and write the page index; blocks of other segments stay as they are. */
  method StoreSegment(relation: Relation, chunks: seq<seq<byte>>)
    returns (pages: seq<nat>, root: Option<nat>, ghost ids: seq<nat>)
    requires relation.Valid()
    modifies relation
    ensures relation.Valid() && PageIndex(relation.blocks, root, ids, pages) && InRelation(pages, |relation.blocks|)
    ensures DataPages(relation.blocks, pages) && Concat(chunks) <= Logical(relation.blocks, pages)
    ensures Distinct(pages) && NoneIn(ids, pages)
    ensures |pages| == PagesFor(|Concat(chunks)|)
    ensures Kept(relation.blocks, old(relation.blocks), old(relation.Used()))
  {
    ghost var was, used := relation.blocks, relation.Used();
    var writer := WriteChunks(relation, chunks);
    hide WriterState, OnDisk, PageIndex, DataPages, Logical, Concat;
    FlushLast(writer, was, used);
    pages := writer.pages;
    ghost var before, held := relation.blocks, relation.Used();
    WriterPages(before, held, pages, writer.contents, writer.buffer[..], writer.bufferPage, writer.bufferPos);
    root, ids := WritePageIndex(relation, pages);
    FreshIndexPages(relation, before, held, ids, pages);
    LogicalKept(relation.blocks, before, pages, held);
    KeptFewer(relation.blocks, before, held, used);
    KeptTransitive(relation.blocks, before, was, used);
    PagesInRelation(relation.blocks, pages);
  }

  lemma KeptFewer(now: seq<Page>, was: seq<Page>, owned: set<nat>, fewer: set<nat>)
    requires Kept(now, was, owned) && fewer <= owned
    ensures Kept(now, was, fewer)
  {
  }

  lemma PagesInRelation(blocks: seq<Page>, pages: seq<nat>)
    requires DataPages(blocks, pages)
    ensures InRelation(pages, |blocks|)
  {
    forall p | p in pages
      ensures p < |blocks|
    {
      var i :| 0 <= i < |pages| && pages[i] == p;
      assert DataPage(blocks, pages[i]);
    }
  }

  lemma ElsewhereKeeps(now: seq<Page>, mid: seq<Page>, was: seq<Page>, usedThen: set<nat>, usedNow: set<nat>,
                       used: set<nat>, mine: seq<nat>, mineNow: seq<nat>)
    requires Kept(now, mid, usedThen - set p | p in mine) && Kept(mid, was, used)
    requires usedThen - (set p | p in mine) <= usedNow - set p | p in mineNow
    requires used <= usedThen && used !! set p | p in mine
    ensures Kept(now, was, used) && used <= usedNow && used !! set p | p in mineNow
  {
    assert used <= usedThen - set p | p in mine;
  }

  /** One write, with everything that was in use before the segment left alone. */
  method WriteChunk(writer: SegmentWriter, chunk: seq<byte>, ghost was: seq<Page>, ghost used: set<nat>)
    requires writer.Valid() && Kept(writer.relation.blocks, was, used)
    requires used <= writer.relation.Used() && used !! set p | p in writer.pages
    modifies writer.Repr
    ensures writer.Valid() && writer.contents == old(writer.contents) + chunk
    ensures old(writer.NoEmptyPage()) ==> writer.NoEmptyPage()
    ensures Kept(writer.relation.blocks, was, used) && used <= writer.relation.Used() && used !! set p | p in writer.pages
  {
    hide WriterState, Kept;
    ghost var mid, usedThen, mine := writer.relation.blocks, writer.relation.Used(), writer.pages;
    writer.Write(chunk);
    ElsewhereKeeps(writer.relation.blocks, mid, was, usedThen, writer.relation.Used(), used, mine, writer.pages);
  }

  method FlushLast(writer: SegmentWriter, ghost was: seq<Page>, ghost used: set<nat>)
    requires writer.Valid() && Kept(writer.relation.blocks, was, used)
    requires used <= writer.relation.Used() && used !! set p | p in writer.pages
    modifies writer.relation
    ensures writer.Valid() && Kept(writer.relation.blocks, was, used) && used <= writer.relation.Used()
    ensures DataPages(writer.relation.blocks, writer.pages)
    ensures writer.contents <= Logical(writer.relation.blocks, writer.pages)
  {
    hide WriterState, Kept, OnDisk, DataPages, Logical;
    ghost var mid, usedThen, mine := writer.relation.blocks, writer.relation.Used(), writer.pages;
    writer.Flush();
    ElsewhereKeeps(writer.relation.blocks, mid, was, usedThen, writer.relation.Used(), used, mine, writer.pages);
  }

  /**
   * Writing a segment in any chunks, opening it through its page index and reading any written
   * range gives exactly the bytes written.
   */
  method StoreAndRead(relation: Relation, chunks: seq<seq<byte>>, offset: nat, len: nat) returns (r: Option<seq<byte>>)
    requires relation.Valid() && offset + len <= |Concat(chunks)|
    modifies relation
    ensures r == Some(Concat(chunks)[offset..offset + len])
  {
    ghost var ids;
    var pages, root;
    pages, root, ids := StoreSegment(relation, chunks);
    hide DataPages, Logical, Concat, PageIndex, InRelation;
    WrittenIndexLoads(relation.blocks, root, ids, pages);
    var pageMap := LoadPageMap(relation, root, |pages|, ids);
    var reader := new SegmentReader(relation, pageMap.value);
    var all := reader.Read(offset, len);
    LogicalLength(relation.blocks, pages);
    PrefixSlice(Concat(chunks), Logical(relation.blocks, pages), offset, len);
    return all;
  }

  lemma PrefixSlice(s: seq<byte>, t: seq<byte>, offset: nat, len: nat)
    requires s <= t && offset + len <= |s|
    ensures t[offset..offset + len] == s[offset..offset + len]
  {
  }

  lemma LogicalLength(blocks: seq<Page>, pages: seq<nat>)
    requires DataPages(blocks, pages)
    ensures |Logical(blocks, pages)| == DATA_PER_PAGE * |pages|
  {
  }
}
