/**
 * Posting block compression: delta coding and bit packing (rust/src/compression.rs). Packing
 * rewrites base-2^bits digits as bytes, unpacking rewrites bytes as base-2^bits digits; both
 * spell the same number.
 */
module Compression {
  import opened Constants
  import opened Radix

  type uint32 = x: nat | x < 0x1_0000_0000
  type uint16 = x: nat | x < 0x1_0000

  datatype TpBlockPosting = TpBlockPosting(docId: uint32, frequency: uint16, fieldnorm: byte, reserved: byte)

  const TP_MAX_COMPRESSED_BLOCK_SIZE: nat := 898
  const HEADER_SIZE: nat := 2

  function DivCeil8(x: nat): nat {
    (x + 7) / 8
  }

  /** `x << k` in a u64. */
  function Shl64(x: nat, k: nat): nat {
    LowBits(ShiftLeft(x, k), 64)
  }

  /** The mask of the low `bits` bits of a u32. */
  function Mask(bits: nat): nat {
    if bits == 32 then 0xFFFF_FFFF else ShiftLeft(1, bits) - 1
  }

  lemma MaskKeeps(x: nat, bits: nat)
    ensures BitAnd(x, Mask(bits)) == LowBits(x, bits)
  {
    Pow2Anchors();
    Pow2Shift(0, bits);
    AndMask(x, bits);
  }

  lemma ShiftOne(bits: nat)
    ensures ShiftLeft(1, bits) == Pow2(bits)
  {
    Pow2Shift(0, bits);
  }

  /** The least number of bits a value fits in, but at least 1. */
  ghost predicate IsBitWidth(value: nat, bits: nat) {
    1 <= bits && value < Pow2(bits) && (bits > 1 ==> Pow2(bits - 1) <= value)
  }

  /** compute_bit_width. */
  method ComputeBitWidth(maxValue: uint32) returns (bits: nat)
    ensures IsBitWidth(maxValue, bits) && bits <= 32
  {
    Pow2Anchors();
    if maxValue == 0 { return 1; }
    bits := 1;
    hide Pow2, ShiftLeft;
    while bits < 32 && ShiftLeft(1, bits) <= maxValue
      invariant 1 <= bits <= 32
      invariant bits > 1 ==> Pow2(bits - 1) <= maxValue
    {
      ShiftOne(bits);
      bits := bits + 1;
    }
    ShiftOne(bits);
  }

  // ---------- packing ----------

  /** `written` bytes and a buffer above them spell the number `total`. */
  ghost predicate Spells(written: seq<nat>, buffer: nat, bufBits: nat, total: nat) {
    total == Value(written, 8) + ShiftLeft(buffer, Span(|written|, 8)) && buffer < Pow2(bufBits)
  }

  /** Moving the low byte from the buffer to the output. */
  lemma SpellByte(written: seq<nat>, buffer: nat, bufBits: nat, total: nat)
    requires Spells(written, buffer, bufBits, total) && 8 <= bufBits
    ensures LowBits(buffer, 8) < 256
    ensures Spells(written + [LowBits(buffer, 8)], ShiftRight(buffer, 8), bufBits - 8, total)
  {
    hide Value, ShiftLeft, Pow2, LowBits, ShiftRight;
    var low, high := LowBits(buffer, 8), ShiftRight(buffer, 8);
    CutAt(buffer, 8);
    Pow2Anchors();
    ShiftedFits(buffer, bufBits - 8, 8);
    ValueAppend(written, low, 8);
    ShiftAdd(low, ShiftLeft(high, 8), Span(|written|, 8));
    ShiftTwice(high, 8, Span(|written|, 8));
  }

  /** A buffer of at most eight bits is written as one byte, or not at all. */
  lemma SpellLast(written: seq<nat>, buffer: nat, bufBits: nat, total: nat)
    requires Spells(written, buffer, bufBits, total) && bufBits < 8
    ensures bufBits == 0 ==> Value(written, 8) == total
    ensures LowBits(buffer, 8) < 256 && Value(written + [LowBits(buffer, 8)], 8) == total
  {
    Pow2Monotone(bufBits, 8);
    Pow2Anchors();
    ShiftZero(Span(|written|, 8));
    LowOfSmall(buffer, 8);
    ValueAppend(written, buffer, 8);
  }

  /** OR-ing digits in above the buffer's bits. */
  lemma BufferGrows(buffer: nat, bufBits: nat, v: nat, bits: nat)
    requires buffer < Pow2(bufBits) && v < Pow2(bits) && bufBits + bits <= 64
    ensures BitOr(buffer, Shl64(v, bufBits)) == buffer + ShiftLeft(v, bufBits) < Pow2(bufBits + bits)
  {
    ShiftFits(buffer, bufBits, v, bits);
    Pow2Monotone(bufBits + bits, 64);
    LowOfSmall(ShiftLeft(v, bufBits), 64);
    OrDisjoint(buffer, v, bufBits);
  }

  /** Taking the next value into the buffer appends it as the most significant digit. */
  lemma SpellValue(written: seq<nat>, buffer: nat, bufBits: nat, done: seq<nat>, v: nat, bits: nat)
    requires Spells(written, buffer, bufBits, Value(done, bits)) && v < Pow2(bits) && bufBits + bits <= 64
    requires Span(|done|, bits) == Span(|written|, 8) + bufBits
    ensures Spells(written, BitOr(buffer, Shl64(v, bufBits)), bufBits + bits, Value(done + [v], bits))
  {
    hide Value, ShiftLeft, BitOr, Pow2, Shl64, Span, LowBits;
    BufferGrows(buffer, bufBits, v, bits);
    ValueAppend(done, v, bits);
    ShiftAdd(buffer, ShiftLeft(v, bufBits), Span(|written|, 8));
    ShiftTwice(v, bufBits, Span(|written|, 8));
  }

  /** The values as the mask leaves them. */
  ghost function Masked(values: seq<nat>, bits: nat): (r: seq<nat>)
    ensures |r| == |values| && Digits(r, bits)
  {
    forall i | 0 <= i < |values|
      ensures LowBits(values[i], bits) < Pow2(bits)
    {
      CutAt(values[i], bits);
    }
    seq(|values|, i requires 0 <= i < |values| => LowBits(values[i], bits))
  }

  lemma MaskedIsSame(values: seq<nat>, bits: nat)
    requires Digits(values, bits)
    ensures Masked(values, bits) == values
  {
    forall i | 0 <= i < |values|
      ensures LowBits(values[i], bits) == values[i]
    {
      LowOfSmall(values[i], bits);
    }
  }

  /** Bytes outside [from, to) are as they were. */
  ghost predicate OnlyBetween(now: seq<byte>, was: seq<byte>, from: nat, to: nat) {
    && |now| == |was| && from <= to <= |now|
    && now[..from] == was[..from] && now[to..] == was[to..]
  }

  /** Write whole bytes while the buffer has them. */
  method Flush(out: array<byte>, start: nat, pos0: nat, buffer0: nat, bufBits0: nat, ghost total: nat)
    returns (pos: nat, buffer: nat, bufBits: nat)
    requires start + pos0 + bufBits0 / 8 <= out.Length && Spells(out[start..start + pos0], buffer0, bufBits0, total)
    modifies out
    ensures start + pos <= out.Length && Spells(out[start..start + pos], buffer, bufBits, total)
    ensures bufBits < 8 && 8 * pos + bufBits == 8 * pos0 + bufBits0
    ensures OnlyBetween(out[..], old(out[..]), start + pos0, start + pos) && pos0 <= pos
  {
    hide Spells;
    pos, buffer, bufBits := pos0, buffer0, bufBits0;
    while bufBits >= 8
      invariant start + pos + bufBits / 8 <= out.Length && pos0 <= pos
      invariant Spells(out[start..start + pos], buffer, bufBits, total)
      invariant 8 * pos + bufBits == 8 * pos0 + bufBits0
      invariant OnlyBetween(out[..], old(out[..]), start + pos0, start + pos)
    {
      ghost var was := out[start..start + pos];
      SpellByte(was, buffer, bufBits, total);
      MaskKeeps(buffer, 8);
      out[start + pos] := LowBits(buffer, 8);
      pos := pos + 1;
      assert out[start..start + pos] == was + [LowBits(buffer, 8)];
      buffer, bufBits := ShiftRight(buffer, 8), bufBits - 8;
    }
  }

  /**
   * bitpack_encode: n values become exactly ceil(n * bits / 8) bytes, which spell in base 256
   * the number the masked values spell in base 2^bits.
   */
  method BitpackEncode(values: seq<uint32>, bits: nat, out: array<byte>, start: nat) returns (written: nat)
    requires 1 <= bits <= 32 && start + DivCeil8(Span(|values|, bits)) <= out.Length
    modifies out
    ensures written == DivCeil8(Span(|values|, bits))
    ensures OnlyBetween(out[..], old(out[..]), start, start + written)
    ensures Value(out[start..start + written], 8) == Value(Masked(values, bits), bits)
  {
    hide Spells, Value, Masked, OnlyBetween, Span, BitOr, BitAnd, Shl64, Pow2, ShiftLeft, Mask, LowBits;
    ghost var ms := Masked(values, bits);
    var buffer: nat, bufBits: nat, pos: nat := 0, 0, 0;
    PackNothing(out[..], start, ms, bits);
    var i := 0;
    while i < |values|
      invariant 0 <= i <= |values| && start + pos <= out.Length && bufBits < 8
      invariant Span(i, bits) == 8 * pos + bufBits
      invariant Spells(out[start..start + pos], buffer, bufBits, Value(ms[..i], bits))
      invariant OnlyBetween(out[..], old(out[..]), start, start + pos)
    {
      var val := BitAnd(values[i], Mask(bits));
      MaskedAt(values, bits, i);
      SpanOfBytes(pos);
      SpellValue(out[start..start + pos], buffer, bufBits, ms[..i], val, bits);
      assert ms[..i + 1] == ms[..i] + [val];
      buffer := BitOr(buffer, Shl64(val, bufBits));
      bufBits := bufBits + bits;
      StillFits(i, |values|, bits, pos, bufBits);
      ghost var before := out[..];
      ghost var pos0 := pos;
      pos, buffer, bufBits := Flush(out, start, pos, buffer, bufBits, Value(ms[..i + 1], bits));
      OnlyBetweenJoin(out[..], before, old(out[..]), start, start + pos0, start + pos);
      i := i + 1;
    }
    assert ms[..|values|] == ms;
    SpellLast(out[start..start + pos], buffer, bufBits, Value(ms, bits));
    if bufBits > 0 {
      ghost var before := out[..];
      MaskKeeps(buffer, 8);
      out[start + pos] := LowBits(buffer, 8);
      assert out[start..start + pos + 1] == before[start..start + pos] + [LowBits(buffer, 8)];
      OneByteWritten(out[..], before, start + pos);
      OnlyBetweenJoin(out[..], before, old(out[..]), start, start + pos, start + pos + 1);
      pos := pos + 1;
    }
    return pos;
  }

  lemma PackNothing(bytes: seq<byte>, start: nat, ms: seq<nat>, bits: nat)
    requires start <= |bytes|
    ensures Spells(bytes[start..start], 0, 0, Value(ms[..0], bits)) && OnlyBetween(bytes, bytes, start, start)
    ensures Span(0, bits) == 0
  {
  }

  lemma MaskedAt(values: seq<nat>, bits: nat, i: nat)
    requires i < |values|
    ensures Masked(values, bits)[i] == BitAnd(values[i], Mask(bits)) == LowBits(values[i], bits) < Pow2(bits)
  {
    MaskKeeps(values[i], bits);
    CutAt(values[i], bits);
  }

  lemma StillFits(i: nat, n: nat, bits: nat, pos: nat, bufBits: nat)
    requires i < n && Span(i, bits) + bits == 8 * pos + bufBits
    ensures Span(i + 1, bits) == 8 * pos + bufBits
    ensures pos + bufBits / 8 <= DivCeil8(Span(n, bits))
  {
    SpanMonotone(i + 1, n, bits);
  }

  lemma OnlyBetweenJoin(now: seq<byte>, mid: seq<byte>, was: seq<byte>, from: nat, at: nat, to: nat)
    requires OnlyBetween(mid, was, from, at) && OnlyBetween(now, mid, at, to)
    ensures OnlyBetween(now, was, from, to)
  {
    assert now[..from] == now[..at][..from] && mid[..from] == mid[..at][..from];
    assert mid[to..] == mid[at..][to - at..] && was[to..] == was[at..][to - at..];
  }

  lemma OneByteWritten(now: seq<byte>, was: seq<byte>, at: nat)
    requires at < |was| && |now| == |was| && now == was[at := now[at]]
    ensures OnlyBetween(now, was, at, at + 1)
  {
  }

  // ---------- unpacking ----------

  /** The bytes read so far spell the items taken out of them and the buffer above those. */
  ghost predicate Reads(read: seq<nat>, items: seq<nat>, bits: nat, buffer: nat, bufBits: nat) {
    && Value(read, 8) == Value(items, bits) + ShiftLeft(buffer, Span(|items|, bits))
    && buffer < Pow2(bufBits) && Digits(items, bits)
    && Span(|read|, 8) == Span(|items|, bits) + bufBits
  }

  lemma ByteFits()
    ensures Pow2(8) == 256
  {
    Pow2Anchors();
  }

  lemma OneMoreByte(n: nat)
    ensures Span(n + 1, 8) == Span(n, 8) + 8
  {
  }

  lemma ReadByte(read: seq<nat>, items: seq<nat>, bits: nat, buffer: nat, bufBits: nat, b: nat)
    requires Reads(read, items, bits, buffer, bufBits) && b < 256 && bufBits + 8 <= 64
    ensures Reads(read + [b], items, bits, BitOr(buffer, Shl64(b, bufBits)), bufBits + 8)
  {
    ByteFits();
    OneMoreByte(|read|);
    hide Value, ShiftLeft, BitOr, Pow2, Shl64, Span, LowBits;
    BufferGrows(buffer, bufBits, b, 8);
    ValueAppend(read, b, 8);
    ShiftAdd(buffer, ShiftLeft(b, bufBits), Span(|items|, bits));
    ShiftTwice(b, bufBits, Span(|items|, bits));
  }

  lemma TakeItem(read: seq<nat>, items: seq<nat>, bits: nat, buffer: nat, bufBits: nat)
    requires Reads(read, items, bits, buffer, bufBits) && bits <= bufBits
    ensures Reads(read, items + [LowBits(buffer, bits)], bits, ShiftRight(buffer, bits), bufBits - bits)
  {
    assert Span(|items| + 1, bits) == Span(|items|, bits) + bits;
    hide Value, ShiftLeft, Pow2, LowBits, ShiftRight, Span;
    var low, high := LowBits(buffer, bits), ShiftRight(buffer, bits);
    CutAt(buffer, bits);
    ShiftedFits(buffer, bufBits - bits, bits);
    ValueAppend(items, low, bits);
    ShiftAdd(low, ShiftLeft(high, bits), Span(|items|, bits));
    ShiftTwice(high, bits, Span(|items|, bits));
  }

  /** Cutting a word to 32 bits first does not matter to a mask of at most 32 bits. */
  lemma {:induction false} LowOfLow(x: nat, k: nat, bits: nat)
    requires bits <= k
    ensures LowBits(LowBits(x, k), bits) == LowBits(x, bits)
  {
    if bits > 0 {
      LowOfLow(x / 2, k - 1, bits - 1);
      assert LowBits(x, k) / 2 == LowBits(x / 2, k - 1) && LowBits(x, k) % 2 == x % 2;
    }
  }

  /** The items are the base-2^bits digits of the number the first ceil(n * bits / 8) bytes spell. */
  ghost predicate Unpacked(input: seq<byte>, items: seq<nat>, bits: nat) {
    var n := DivCeil8(Span(|items|, bits));
    && n <= |input| && Digits(items, bits)
    && exists rest: nat :: Value(input[..n], 8) == Value(items, bits) + ShiftLeft(rest, Span(|items|, bits))
  }

  lemma ReadsEnd(input: seq<byte>, pos: nat, items: seq<nat>, bits: nat, buffer: nat, bufBits: nat)
    requires pos <= |input| && Reads(input[..pos], items, bits, buffer, bufBits) && bufBits < 8
    ensures Unpacked(input, items, bits)
  {
    SpanOfBytes(pos);
    assert pos == DivCeil8(Span(|items|, bits));
  }

  lemma ReadsStart(input: seq<byte>, bits: nat)
    ensures Reads(input[..0], [], bits, 0, 0)
  {
    ShiftZero(0);
  }

  /** There is another byte to read as long as an item is still missing. */
  lemma MoreToRead(pos: nat, i: nat, count: nat, bits: nat, bufBits: nat)
    requires i < count && Span(pos, 8) == Span(i, bits) + bufBits && bufBits < bits
    ensures pos < DivCeil8(Span(count, bits))
  {
    SpanOfBytes(pos);
    SpanMonotone(i + 1, count, bits);
  }

  lemma ReadsSpan(read: seq<nat>, items: seq<nat>, bits: nat, buffer: nat, bufBits: nat)
    requires Reads(read, items, bits, buffer, bufBits)
    ensures Span(|read|, 8) == Span(|items|, bits) + bufBits
  {
  }

  /** Fill the buffer until it holds one item. */
  method Refill(input: seq<byte>, bits: nat, pos0: nat, buffer0: nat, bufBits0: nat,
                ghost items: seq<nat>, ghost count: nat)
    returns (pos: nat, buffer: nat, bufBits: nat)
    requires 1 <= bits <= 32 && |items| < count && bufBits0 < 8 && pos0 <= DivCeil8(Span(count, bits)) <= |input|
    requires Reads(input[..pos0], items, bits, buffer0, bufBits0)
    ensures pos <= DivCeil8(Span(count, bits)) && bits <= bufBits < bits + 8
    ensures Reads(input[..pos], items, bits, buffer, bufBits)
  {
    hide Reads, Shl64, BitOr, Span;
    pos, buffer, bufBits := pos0, buffer0, bufBits0;
    while bufBits < bits
      invariant pos <= DivCeil8(Span(count, bits)) && bufBits < bits + 8
      invariant Reads(input[..pos], items, bits, buffer, bufBits)
      decreases bits + 8 - bufBits
    {
      ReadsSpan(input[..pos], items, bits, buffer, bufBits);
      MoreToRead(pos, |items|, count, bits, bufBits);
      ReadByte(input[..pos], items, bits, buffer, bufBits, input[pos]);
      assert input[..pos + 1] == input[..pos] + [input[pos]];
      buffer := BitOr(buffer, Shl64(input[pos], bufBits));
      pos, bufBits := pos + 1, bufBits + 8;
    }
  }

  /** bitpack_decode: reads ceil(count * bits / 8) bytes and no more. */
  method BitpackDecode(input: seq<byte>, count: nat, bits: nat, out: array<nat>)
    requires 1 <= bits <= 32 && count <= out.Length && DivCeil8(Span(count, bits)) <= |input|
    modifies out
    ensures Unpacked(input, out[..count], bits)
  {
    hide Reads, Span, Unpacked, ShiftRight, LowBits, BitAnd, Mask;
    var buffer: nat, bufBits: nat, pos: nat := 0, 0, 0;
    ReadsStart(input, bits);
    assert out[..0] == [];
    for i := 0 to count
      invariant pos <= DivCeil8(Span(count, bits)) && bufBits < 8
      invariant Reads(input[..pos], out[..i], bits, buffer, bufBits)
    {
      ghost var items := out[..i];
      pos, buffer, bufBits := Refill(input, bits, pos, buffer, bufBits, items, count);
      out[i] := BitAnd(LowBits(buffer, 32), Mask(bits));
      MaskKeeps(LowBits(buffer, 32), bits);
      LowOfLow(buffer, 32, bits);
      TakeItem(input[..pos], items, bits, buffer, bufBits);
      assert out[..i + 1] == items + [LowBits(buffer, bits)];
      buffer, bufBits := ShiftRight(buffer, bits), bufBits - bits;
    }
    ReadsEnd(input, pos, out[..count], bits, buffer, bufBits);
  }

  /** Unpacking finds the packed values again, whatever bytes follow. */
  lemma UnpackUndoesPack(input: seq<byte>, values: seq<nat>, items: seq<nat>, bits: nat)
    requires Digits(values, bits) && |items| == |values| && Unpacked(input, items, bits)
    requires Value(input[..DivCeil8(Span(|values|, bits))], 8) == Value(values, bits)
    ensures items == values
  {
    var n := DivCeil8(Span(|items|, bits));
    var rest: nat :| Value(input[..n], 8) == Value(items, bits) + ShiftLeft(rest, Span(|items|, bits));
    ShiftZero(Span(|values|, bits));
    DigitsUnique(items, values, bits, rest, 0);
  }

  // ---------- blocks ----------

  /** u32 arithmetic. */
  function Wrap(x: int): uint32 {
    x % 0x1_0000_0000
  }

  function Delta(ps: seq<TpBlockPosting>, i: nat): uint32
    requires i < |ps|
  {
    Wrap(ps[i].docId - if i == 0 then 0 else ps[i - 1].docId)
  }

  ghost function Deltas(ps: seq<TpBlockPosting>): seq<uint32> {
    seq(|ps|, i requires 0 <= i < |ps| => Delta(ps, i))
  }

  ghost function Frequencies(ps: seq<TpBlockPosting>): seq<uint16> {
    seq(|ps|, i requires 0 <= i < |ps| => ps[i].frequency)
  }

  ghost function Fieldnorms(ps: seq<TpBlockPosting>): seq<byte> {
    seq(|ps|, i requires 0 <= i < |ps| => ps[i].fieldnorm)
  }

  /** All values fit in `bits` bits, and no smaller width holds all of them. */
  ghost predicate WidthOf(values: seq<nat>, bits: nat) {
    && 1 <= bits && Digits(values, bits)
    && (bits > 1 ==> exists i :: 0 <= i < |values| && Pow2(bits - 1) <= values[i])
  }

  /** Where the sections of a block of n postings lie. */
  function FreqStart(n: nat, docIdBits: nat): nat {
    HEADER_SIZE + DivCeil8(n * docIdBits)
  }

  function NormStart(n: nat, docIdBits: nat, freqBits: nat): nat {
    FreqStart(n, docIdBits) + DivCeil8(n * freqBits)
  }

  /** compressed_block_size, from the two header bytes. */
  function CompressedBlockSize(docIdBits: nat, freqBits: nat, n: nat): nat {
    if n == 0 then 0 else NormStart(n, docIdBits, freqBits) + n
  }

  /** A section of bytes spells the values it packs. */
  ghost predicate Packs(section: seq<byte>, values: seq<nat>, bits: nat) {
    |section| == DivCeil8(|values| * bits) && Value(section, 8) == Value(values, bits)
  }

  /** The layout of a compressed block. */
  ghost predicate Compressed(bytes: seq<byte>, ps: seq<TpBlockPosting>) {
    if ps == [] then bytes == []
    else
      && |bytes| >= 2
      && var n, d, f := |ps|, bytes[0], bytes[1];
         && d <= 32 && f <= 16 && WidthOf(Deltas(ps), d) && WidthOf(Frequencies(ps), f)
         && |bytes| == CompressedBlockSize(d, f, n)
         && Packs(bytes[HEADER_SIZE..FreqStart(n, d)], Deltas(ps), d)
         && Packs(bytes[FreqStart(n, d)..NormStart(n, d, f)], Frequencies(ps), f)
         && bytes[NormStart(n, d, f)..] == Fieldnorms(ps)
  }

  /** A posting takes at most 7 bytes, so a block never outgrows the buffer callers provide. */
  lemma BlockSizeBound(d: nat, f: nat, n: nat)
    requires d <= 32 && f <= 16
    ensures CompressedBlockSize(d, f, n) <= HEADER_SIZE + 7 * n
    ensures n <= TP_BLOCK_SIZE ==> CompressedBlockSize(d, f, n) <= TP_MAX_COMPRESSED_BLOCK_SIZE
  {
    assert n * d <= n * 32;
    assert n * f <= n * 16;
  }

  /** No posting takes no byte; otherwise the header, the bits of all values, and at most 7 bits of padding in two sections. */
  lemma BlockSizeExact(d: nat, f: nat, n: nat)
    ensures CompressedBlockSize(d, f, 0) == 0
    ensures 0 < n ==> var bits := 8 * HEADER_SIZE + n * d + n * f + n * 8;
                      bits <= 8 * CompressedBlockSize(d, f, n) <= bits + 14
  {
  }

  lemma CompressedSizeBound(bytes: seq<byte>, ps: seq<TpBlockPosting>)
    requires Compressed(bytes, ps)
    ensures |bytes| <= HEADER_SIZE + 7 * |ps|
  {
    hide Packs, WidthOf, CompressedBlockSize;
    if ps != [] { BlockSizeBound(bytes[0], bytes[1], |ps|); }
  }

  ghost predicate IsMax(values: seq<nat>, m: nat) {
    && (forall i :: 0 <= i < |values| ==> values[i] <= m)
    && (m == 0 || exists i :: 0 <= i < |values| && values[i] == m)
  }

  lemma MaxGivesWidth(values: seq<nat>, m: nat, bits: nat)
    requires IsMax(values, m) && IsBitWidth(m, bits)
    ensures WidthOf(values, bits)
  {
  }

  lemma MaxGrows(values: seq<nat>, i: nat, m: nat)
    requires i < |values| && IsMax(values[..i], m)
    ensures IsMax(values[..i + 1], if values[i] > m then values[i] else m)
  {
    var m' := if values[i] > m then values[i] else m;
    assert values[..i + 1] == values[..i] + [values[i]];
    if m' != 0 {
      if values[i] > m {
        assert values[..i + 1][i] == m';
      } else {
        var j :| 0 <= j < i && values[..i][j] == m;
        assert values[..i + 1][j] == m';
      }
    }
  }

  /** The pass that computes deltas, frequencies and their maxima. */
  method SplitBlock(ps: seq<TpBlockPosting>)
    returns (docDeltas: seq<uint32>, frequencies: seq<uint16>, maxDelta: uint32, maxFreq: uint16)
    ensures docDeltas == Deltas(ps) && frequencies == Frequencies(ps)
    ensures IsMax(docDeltas, maxDelta) && IsMax(frequencies, maxFreq)
  {
    hide IsMax;
    docDeltas, frequencies, maxDelta, maxFreq := [], [], 0, 0;
    NoMax();
    var prevDoc: uint32 := 0;
    assert Deltas(ps)[..0] == [] && Frequencies(ps)[..0] == [];
    for i := 0 to |ps|
      invariant docDeltas == Deltas(ps)[..i] && frequencies == Frequencies(ps)[..i]
      invariant prevDoc == if i == 0 then 0 else ps[i - 1].docId
      invariant IsMax(docDeltas, maxDelta) && IsMax(frequencies, maxFreq)
    {
      var delta := Wrap(ps[i].docId - prevDoc);
      MaxGrows(Deltas(ps), i, maxDelta);
      MaxGrows(Frequencies(ps), i, maxFreq);
      docDeltas, frequencies := docDeltas + [delta], frequencies + [ps[i].frequency];
      if delta > maxDelta { maxDelta := delta; }
      if ps[i].frequency > maxFreq { maxFreq := ps[i].frequency; }
      prevDoc := ps[i].docId;
    }
  }

  lemma NoMax()
    ensures IsMax([], 0)
  {
  }

  lemma WidthOfFrequencies(maxFreq: uint16, bits: nat)
    requires IsBitWidth(maxFreq, bits)
    ensures bits <= 16
  {
    Pow2Anchors();
    if bits > 16 { Pow2Monotone(16, bits - 1); }
  }

  lemma SpanSize(n: nat, bits: nat)
    ensures DivCeil8(Span(n, bits)) == DivCeil8(n * bits)
  {
    SpanIsProduct(n, bits);
  }

  /** Pack one section of the block. */
  method PackSection(values: seq<uint32>, bits: nat, out: array<byte>, start: nat) returns (end: nat)
    requires WidthOf(values, bits) && bits <= 32 && start + DivCeil8(|values| * bits) <= out.Length
    modifies out
    ensures end == start + DivCeil8(|values| * bits) && OnlyBetween(out[..], old(out[..]), start, end)
    ensures Packs(out[start..end], values, bits)
  {
    SpanSize(|values|, bits);
    MaskedIsSame(values, bits);
    var written := BitpackEncode(values, bits, out, start);
    end := start + written;
  }

  method CopyFieldnorms(ps: seq<TpBlockPosting>, out: array<byte>, start: nat) returns (end: nat)
    requires start + |ps| <= out.Length
    modifies out
    ensures end == start + |ps| && out[start..end] == Fieldnorms(ps) && OnlyBetween(out[..], old(out[..]), start, end)
  {
    end := start;
    for i := 0 to |ps|
      invariant end == start + i && OnlyBetween(out[..], old(out[..]), start, end)
      invariant out[start..end] == Fieldnorms(ps)[..i]
    {
      ghost var before := out[..];
      out[end] := ps[i].fieldnorm;
      OneByteWritten(out[..], before, end);
      OnlyBetweenJoin(out[..], before, old(out[..]), start, end, end + 1);
      assert out[start..end + 1] == before[start..end] + [ps[i].fieldnorm];
      end := end + 1;
    }
  }

  /** Later writes leave earlier sections alone. */
  lemma Earlier(now: seq<byte>, was: seq<byte>, from: nat, to: nat, a: nat, b: nat)
    requires OnlyBetween(now, was, from, to) && a <= b <= from
    ensures now[a..b] == was[a..b]
  {
    assert now[a..b] == now[..from][a..b] && was[a..b] == was[..from][a..b];
  }

  lemma Assemble(bytes: seq<byte>, ps: seq<TpBlockPosting>, d: nat, f: nat)
    requires ps != [] && d <= 32 && f <= 16 && WidthOf(Deltas(ps), d) && WidthOf(Frequencies(ps), f)
    requires CompressedBlockSize(d, f, |ps|) <= |bytes| && bytes[0..1] == [d] && bytes[1..2] == [f]
    requires var n := |ps|;
             && Packs(bytes[HEADER_SIZE..FreqStart(n, d)], Deltas(ps), d)
             && Packs(bytes[FreqStart(n, d)..NormStart(n, d, f)], Frequencies(ps), f)
             && bytes[NormStart(n, d, f)..NormStart(n, d, f) + n] == Fieldnorms(ps)
    ensures Compressed(bytes[..CompressedBlockSize(d, f, |ps|)], ps)
  {
    hide Packs, WidthOf;
    var n, size := |ps|, CompressedBlockSize(d, f, |ps|);
    var block := bytes[..size];
    assert block[0] == bytes[0..1][0] && block[1] == bytes[1..2][0];
    assert block[HEADER_SIZE..FreqStart(n, d)] == bytes[HEADER_SIZE..FreqStart(n, d)];
    assert block[FreqStart(n, d)..NormStart(n, d, f)] == bytes[FreqStart(n, d)..NormStart(n, d, f)];
    assert block[NormStart(n, d, f)..] == bytes[NormStart(n, d, f)..NormStart(n, d, f) + n];
  }

  lemma HeaderOnly(now: seq<byte>, was: seq<byte>)
    requires |now| == |was| >= HEADER_SIZE && now[HEADER_SIZE..] == was[HEADER_SIZE..]
    ensures OnlyBetween(now, was, 0, HEADER_SIZE)
  {
  }

  /** Write header and sections one after another. */
  method WriteBlock(ps: seq<TpBlockPosting>, docDeltas: seq<uint32>, frequencies: seq<uint16>, d: nat, f: nat,
                    out: array<byte>)
    returns (size: nat)
    requires ps != [] && docDeltas == Deltas(ps) && frequencies == Frequencies(ps) && d <= 32 && f <= 16
    requires WidthOf(docDeltas, d) && WidthOf(frequencies, f) && CompressedBlockSize(d, f, |ps|) <= out.Length
    modifies out
    ensures size == CompressedBlockSize(d, f, |ps|) && Compressed(out[..size], ps)
    ensures OnlyBetween(out[..], old(out[..]), 0, size)
  {
    ghost var n, s0 := |ps|, out[..];
    assert |docDeltas| == n && |frequencies| == n;
    hide WidthOf, Packs, OnlyBetween, Compressed, DivCeil8, Deltas, Frequencies, Fieldnorms;
    out[0], out[1] := d, f;
    ghost var s1 := out[..];
    assert s1[0..1] == [d] && s1[1..2] == [f];
    HeaderOnly(s1, s0);
    var freqStart := PackSection(docDeltas, d, out, HEADER_SIZE);
    ghost var s2 := out[..];
    Earlier(s2, s1, HEADER_SIZE, freqStart, 0, 1);
    Earlier(s2, s1, HEADER_SIZE, freqStart, 1, 2);
    var normStart := PackSection(frequencies, f, out, freqStart);
    ghost var s3 := out[..];
    Earlier(s3, s2, freqStart, normStart, 0, 1);
    Earlier(s3, s2, freqStart, normStart, 1, 2);
    Earlier(s3, s2, freqStart, normStart, HEADER_SIZE, freqStart);
    size := CopyFieldnorms(ps, out, normStart);
    ghost var s4 := out[..];
    Earlier(s4, s3, normStart, size, 0, 1);
    Earlier(s4, s3, normStart, size, 1, 2);
    Earlier(s4, s3, normStart, size, HEADER_SIZE, freqStart);
    Earlier(s4, s3, normStart, size, freqStart, normStart);
    Assemble(s4, ps, d, f);
    OnlyBetweenJoin(s2, s1, s0, 0, HEADER_SIZE, freqStart);
    OnlyBetweenJoin(s3, s2, s0, 0, freqStart, normStart);
    OnlyBetweenJoin(s4, s3, s0, 0, normStart, size);
    assert s4[..size] == out[..size];
  }

  /** compress_block: at most 898 bytes, and nothing beyond them is written. */
  method CompressBlock(ps: seq<TpBlockPosting>, out: array<byte>) returns (size: nat)
    requires |ps| <= TP_BLOCK_SIZE && out.Length >= TP_MAX_COMPRESSED_BLOCK_SIZE
    modifies out
    ensures size <= TP_MAX_COMPRESSED_BLOCK_SIZE && Compressed(out[..size], ps)
    ensures OnlyBetween(out[..], old(out[..]), 0, size)
    ensures ps != [] ==> size == CompressedBlockSize(out[0], out[1], |ps|)
  {
    if |ps| == 0 { return 0; }
    hide WidthOf, IsMax, IsBitWidth, OnlyBetween;
    var docDeltas, frequencies, maxDelta, maxFreq := SplitBlock(ps);
    var docIdBits := ComputeBitWidth(maxDelta);
    var freqBits := ComputeBitWidth(maxFreq);
    WidthOfFrequencies(maxFreq, freqBits);
    MaxGivesWidth(docDeltas, maxDelta, docIdBits);
    MaxGivesWidth(frequencies, maxFreq, freqBits);
    BlockSizeBound(docIdBits, freqBits, |ps|);
    size := WriteBlock(ps, docDeltas, frequencies, docIdBits, freqBits, out);
    assert out[..size][0] == out[0] && out[..size][1] == out[1];
  }

  /** The document id after i + 1 deltas from the base. */
  function DocAt(base: uint32, deltas: seq<nat>, i: nat): uint32
    requires i < |deltas|
  {
    Wrap((if i == 0 then base else DocAt(base, deltas, i - 1)) + deltas[i])
  }

  ghost predicate DecodedFrom(c: seq<byte>, qs: seq<TpBlockPosting>, base: uint32, deltas: seq<nat>, freqs: seq<nat>) {
    && |deltas| == |freqs| == |qs| && |c| >= HEADER_SIZE
    && var n, d, f := |qs|, c[0], c[1];
       && CompressedBlockSize(d, f, n) <= |c|
       && Unpacked(c[HEADER_SIZE..], deltas, d) && Unpacked(c[FreqStart(n, d)..], freqs, f)
       && forall i :: 0 <= i < n ==>
            qs[i] == TpBlockPosting(DocAt(base, deltas, i), freqs[i] % 0x1_0000, c[NormStart(n, d, f) + i], 0)
  }

  /** What decompressing a block yields. */
  ghost predicate Decompressed(c: seq<byte>, qs: seq<TpBlockPosting>, base: uint32) {
    qs == [] || exists deltas, freqs :: DecodedFrom(c, qs, base, deltas, freqs)
  }

  /** A header decompress_block accepts, and enough bytes for it. */
  ghost predicate Decodable(c: seq<byte>, count: nat) {
    count > 0 ==>
      && |c| >= HEADER_SIZE && 1 <= c[0] <= 32 && 1 <= c[1] <= 16
      && CompressedBlockSize(c[0], c[1], count) <= |c|
  }

  ghost predicate Rebuilt(c: seq<byte>, qs: seq<TpBlockPosting>, base: uint32, deltas: seq<nat>, freqs: seq<nat>,
                          normStart: nat, n: nat)
  {
    && n <= |qs| && n <= |deltas| && n <= |freqs| && normStart + n <= |c|
    && forall i :: 0 <= i < n ==>
         qs[i] == TpBlockPosting(DocAt(base, deltas, i), freqs[i] % 0x1_0000, c[normStart + i], 0)
  }

  /** The loop that turns deltas back into postings. */
  method Rebuild(c: seq<byte>, count: nat, base: uint32, deltas: seq<nat>, freqs: seq<nat>, normStart: nat,
                 out: array<TpBlockPosting>)
    requires |deltas| == |freqs| == count <= out.Length && normStart + count <= |c|
    modifies out
    ensures Rebuilt(c, out[..], base, deltas, freqs, normStart, count) && out[count..] == old(out[count..])
  {
    var prevDoc := base;
    for i := 0 to count
      invariant prevDoc == if i == 0 then base else DocAt(base, deltas, i - 1)
      invariant Rebuilt(c, out[..], base, deltas, freqs, normStart, i)
      invariant out[count..] == old(out[count..])
    {
      var docId := Wrap(prevDoc + deltas[i]);
      out[i] := TpBlockPosting(docId, freqs[i] % 0x1_0000, c[normStart + i], 0);
      prevDoc := docId;
    }
  }

  lemma DecodedWhenRebuilt(c: seq<byte>, qs: seq<TpBlockPosting>, count: nat, base: uint32, deltas: seq<nat>,
                           freqs: seq<nat>)
    requires Decodable(c, count) && 0 < count == |deltas| == |freqs| <= |qs|
    requires Unpacked(c[HEADER_SIZE..], deltas, c[0]) && Unpacked(c[FreqStart(count, c[0])..], freqs, c[1])
    requires Rebuilt(c, qs, base, deltas, freqs, NormStart(count, c[0], c[1]), count)
    ensures Decompressed(c, qs[..count], base)
  {
    hide Unpacked, DivCeil8;
    assert DecodedFrom(c, qs[..count], base, deltas, freqs);
  }

  lemma SectionsFit(c: seq<byte>, count: nat)
    requires Decodable(c, count) && count > 0
    ensures HEADER_SIZE <= FreqStart(count, c[0]) <= NormStart(count, c[0], c[1]) <= |c| - count
    ensures DivCeil8(Span(count, c[0])) <= |c[HEADER_SIZE..]|
    ensures DivCeil8(Span(count, c[1])) <= |c[FreqStart(count, c[0])..]|
  {
    SpanSize(count, c[0]);
    SpanSize(count, c[1]);
  }

  /** decompress_block. */
  method DecompressBlock(c: seq<byte>, count: nat, base: uint32, out: array<TpBlockPosting>)
    requires count <= TP_BLOCK_SIZE && count <= out.Length && Decodable(c, count)
    modifies out
    ensures Decompressed(c, out[..count], base) && out[count..] == old(out[count..])
  {
    if count == 0 { return; }
    SectionsFit(c, count);
    var docIdBits: nat, freqBits: nat := c[0], c[1];
    assert 1 <= docIdBits <= 32 && 1 <= freqBits <= 16;
    hide Unpacked, FreqStart, NormStart, Decodable, Decompressed, Rebuilt, Span, DivCeil8;
    var freqStart, normStart := FreqStart(count, docIdBits), NormStart(count, docIdBits, freqBits);
    var docDeltas := new nat[count](_ => 0);
    var frequencies := new nat[count](_ => 0);
    BitpackDecode(c[HEADER_SIZE..], count, docIdBits, docDeltas);
    BitpackDecode(c[freqStart..], count, freqBits, frequencies);
    var deltas, freqs := docDeltas[..count], frequencies[..count];
    Rebuild(c, count, base, deltas, freqs, normStart, out);
    DecodedWhenRebuilt(c, out[..], count, base, deltas, freqs);
    assert out[..][..count] == out[..count];
  }

  lemma WrapSum(a: int, b: int)
    ensures Wrap(Wrap(a) + Wrap(b)) == Wrap(a + b)
  {
  }

  /** Running sums of the deltas are the ids again, moved by the base. */
  lemma {:induction false} DocAtDeltas(ps: seq<TpBlockPosting>, base: uint32, i: nat)
    requires i < |ps|
    ensures DocAt(base, Deltas(ps), i) == Wrap(base + ps[i].docId)
  {
    hide Wrap;
    if i > 0 {
      DocAtDeltas(ps, base, i - 1);
      WrapSum(base + ps[i - 1].docId, ps[i].docId - ps[i - 1].docId);
    } else {
      WrapSum(base, ps[0].docId);
      WrapSmall(base);
    }
    WrapSmall(Wrap(base + ps[i].docId));
  }

  lemma WrapSmall(x: uint32)
    ensures Wrap(x) == x
  {
  }

  /** A section of a compressed block, read from the bytes that follow its start. */
  lemma SectionRoundTrip(c: seq<byte>, start: nat, size: nat, values: seq<nat>, items: seq<nat>, bits: nat)
    requires start + size <= |c| && WidthOf(values, bits) && Packs(c[start..start + size], values, bits)
    requires |items| == |values| && Unpacked(c[start..], items, bits)
    ensures items == values
  {
    SpanSize(|values|, bits);
    assert c[start..][..size] == c[start..start + size];
    UnpackUndoesPack(c[start..], values, items, bits);
  }

  /** Compressed blocks are decodable from the header alone, whatever follows them. */
  lemma CompressedIsDecodable(c: seq<byte>, size: nat, ps: seq<TpBlockPosting>)
    requires size <= |c| && Compressed(c[..size], ps)
    ensures Decodable(c, |ps|)
  {
  }

  /** The sections of a compressed block, found in a longer run of bytes. */
  lemma Sections(c: seq<byte>, size: nat, ps: seq<TpBlockPosting>)
    requires size <= |c| && Compressed(c[..size], ps) && ps != []
    ensures size == CompressedBlockSize(c[0], c[1], |ps|)
    ensures WidthOf(Deltas(ps), c[0]) && WidthOf(Frequencies(ps), c[1]) && c[1] <= 16
    ensures var n := |ps|;
            && HEADER_SIZE <= FreqStart(n, c[0]) <= NormStart(n, c[0], c[1]) <= size - n
            && Packs(c[HEADER_SIZE..FreqStart(n, c[0])], Deltas(ps), c[0])
            && Packs(c[FreqStart(n, c[0])..NormStart(n, c[0], c[1])], Frequencies(ps), c[1])
            && c[NormStart(n, c[0], c[1])..size] == Fieldnorms(ps)
  {
    hide Packs, WidthOf, Deltas, Frequencies;
    var n, d, f := |ps|, c[0], c[1];
    assert c[..size][0] == d && c[..size][1] == f;
    var fs, ns := FreqStart(n, d), NormStart(n, d, f);
    assert c[..size][HEADER_SIZE..fs] == c[HEADER_SIZE..fs];
    assert c[..size][fs..ns] == c[fs..ns];
    assert c[..size][ns..] == c[ns..size];
  }

  lemma DecodedSections(c: seq<byte>, size: nat, ps: seq<TpBlockPosting>, qs: seq<TpBlockPosting>, base: uint32,
                        deltas: seq<nat>, freqs: seq<nat>)
    requires size <= |c| && Compressed(c[..size], ps) && ps != [] && |qs| == |ps|
    requires DecodedFrom(c, qs, base, deltas, freqs)
    ensures deltas == Deltas(ps) && freqs == Frequencies(ps)
  {
    Sections(c, size, ps);
    hide Packs, WidthOf, Unpacked, DivCeil8, Compressed, Digits;
    var n, d, f := |ps|, c[0], c[1];
    var fs, ns := FreqStart(n, d), NormStart(n, d, f);
    SectionRoundTrip(c, HEADER_SIZE, fs - HEADER_SIZE, Deltas(ps), deltas, d);
    SectionRoundTrip(c, fs, ns - fs, Frequencies(ps), freqs, f);
  }

  lemma RoundTripAt(c: seq<byte>, size: nat, ps: seq<TpBlockPosting>, qs: seq<TpBlockPosting>, base: uint32, i: nat)
    requires DecodedFrom(c, qs, base, Deltas(ps), Frequencies(ps)) && i < |ps|
    requires NormStart(|ps|, c[0], c[1]) <= size <= |c| && c[NormStart(|ps|, c[0], c[1])..size] == Fieldnorms(ps)
    ensures qs[i] == TpBlockPosting(Wrap(base + ps[i].docId), ps[i].frequency, ps[i].fieldnorm, 0)
  {
    hide Unpacked, Wrap, Deltas, DocAt, FreqStart, NormStart, CompressedBlockSize;
    DocAtDeltas(ps, base, i);
    assert c[NormStart(|ps|, c[0], c[1])..size][i] == Fieldnorms(ps)[i];
  }

  /**
   * Decompressing undoes compressing, for every block of postings and whatever bytes follow:
   * ids come back moved by the base, frequencies and norms as they were, the reserved byte as 0.
   */
  lemma RoundTrip(c: seq<byte>, size: nat, ps: seq<TpBlockPosting>, qs: seq<TpBlockPosting>, base: uint32)
    requires size <= |c| && Compressed(c[..size], ps) && |qs| == |ps| && Decompressed(c, qs, base)
    ensures forall i :: 0 <= i < |ps| ==>
              qs[i] == TpBlockPosting(Wrap(base + ps[i].docId), ps[i].frequency, ps[i].fieldnorm, 0)
  {
    if ps != [] {
      var deltas, freqs :| DecodedFrom(c, qs, base, deltas, freqs);
      DecodedSections(c, size, ps, qs, base, deltas, freqs);
      Sections(c, size, ps);
      forall i | 0 <= i < |ps|
        ensures qs[i] == TpBlockPosting(Wrap(base + ps[i].docId), ps[i].frequency, ps[i].fieldnorm, 0)
      {
        RoundTripAt(c, size, ps, qs, base, i);
      }
    }
  }

  /** With base 0 the block comes back exactly when its reserved bytes were 0, as writers set them. */
  lemma RoundTripFromZero(c: seq<byte>, size: nat, ps: seq<TpBlockPosting>, qs: seq<TpBlockPosting>)
    requires size <= |c| && Compressed(c[..size], ps) && |qs| == |ps| && Decompressed(c, qs, 0)
    ensures qs == ps <==> forall i :: 0 <= i < |ps| ==> ps[i].reserved == 0
  {
    RoundTrip(c, size, ps, qs, 0);
    forall i | 0 <= i < |ps|
      ensures qs[i] == ps[i].(reserved := 0)
    {
      WrapSmall(ps[i].docId);
    }
  }

  /** A delta is the plain difference exactly when the ids do not descend there. */
  lemma DeltaExactIff(ps: seq<TpBlockPosting>, i: nat)
    requires 0 < i < |ps|
    ensures Delta(ps, i) == ps[i].docId - ps[i - 1].docId <==> ps[i - 1].docId <= ps[i].docId
  {
  }
}
