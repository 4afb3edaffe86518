/** Heap tuple identifiers (CTIDs) and the order PostgreSQL puts on them. */
module ItemPointers {

  const INVALID_BLOCK_NUMBER: nat := 0xFFFF_FFFF
  const UINT32_MAX: nat := 0xFFFF_FFFF

  datatype ItemPointer = ItemPointer(block: nat, offset: nat)

  const INVALID_POINTER := ItemPointer(INVALID_BLOCK_NUMBER, 0)

  predicate IsValid(p: ItemPointer) {
    p.offset != 0
  }

  /** True exactly when ItemPointerCompare(a, b) is negative: block first, then offset. */
  predicate Before(a: ItemPointer, b: ItemPointer) {
    a.block < b.block || (a.block == b.block && a.offset < b.offset)
  }

  /** A CTID as one number, the 16-bit offset below the block. */
  function Number(p: ItemPointer): nat {
    p.block * 0x1_0000 + p.offset
  }

  /** The order of CTIDs is the order of these numbers. */
  lemma BeforeIsNumeric(a: ItemPointer, b: ItemPointer)
    requires a.offset < 0x1_0000 && b.offset < 0x1_0000
    ensures Before(a, b) <==> Number(a) < Number(b)
    ensures a == b <==> Number(a) == Number(b)
  {
  }
}
