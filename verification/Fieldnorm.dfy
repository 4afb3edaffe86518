/** Document length quantization to one byte (rust/src/fieldnorm.rs). */
module Fieldnorm {

  /** FIELDNORM_DECODE_TABLE, eight entries to a row. */
  const DECODE_ROWS: seq<seq<nat>> := [
    [0, 1, 2, 3, 4, 5, 6, 7],
    [8, 9, 10, 11, 12, 13, 14, 15],
    [16, 17, 18, 19, 20, 21, 22, 23],
    [24, 25, 26, 27, 28, 29, 30, 31],
    [32, 33, 34, 35, 36, 37, 38, 39],
    [40, 42, 44, 46, 48, 50, 52, 54],
    [56, 60, 64, 68, 72, 76, 80, 84],
    [88, 96, 104, 112, 120, 128, 136, 144],
    [152, 168, 184, 200, 216, 232, 248, 264],
    [280, 312, 344, 376, 408, 440, 472, 504],
    [536, 600, 664, 728, 792, 856, 920, 984],
    [1048, 1176, 1304, 1432, 1560, 1688, 1816, 1944],
    [2072, 2328, 2584, 2840, 3096, 3352, 3608, 3864],
    [4120, 4632, 5144, 5656, 6168, 6680, 7192, 7704],
    [8216, 9240, 10264, 11288, 12312, 13336, 14360, 15384],
    [16408, 18456, 20504, 22552, 24600, 26648, 28696, 30744],
    [32792, 36888, 40984, 45080, 49176, 53272, 57368, 61464],
    [65560, 73752, 81944, 90136, 98328, 106520, 114712, 122904],
    [131096, 147480, 163864, 180248, 196632, 213016, 229400, 245784],
    [262168, 294936, 327704, 360472, 393240, 426008, 458776, 491544],
    [524312, 589848, 655384, 720920, 786456, 851992, 917528, 983064],
    [1048600, 1179672, 1310744, 1441816, 1572888, 1703960, 1835032, 1966104],
    [2097176, 2359320, 2621464, 2883608, 3145752, 3407896, 3670040, 3932184],
    [4194328, 4718616, 5242904, 5767192, 6291480, 6815768, 7340056, 7864344],
    [8388632, 9437208, 10485784, 11534360, 12582936, 13631512, 14680088, 15728664],
    [16777240, 18874392, 20971544, 23068696, 25165848, 27263000, 29360152, 31457304],
    [33554456, 37748760, 41943064, 46137368, 50331672, 54525976, 58720280, 62914584],
    [67108888, 75497496, 83886104, 92274712, 100663320, 109051928, 117440536, 125829144],
    [134217752, 150994968, 167772184, 184549400, 201326616, 218103832, 234881048, 251658264],
    [268435480, 301989912, 335544344, 369098776, 402653208, 436207640, 469762072, 503316504],
    [536870936, 603979800, 671088664, 738197528, 805306392, 872415256, 939524120, 1006632984],
    [1073741848, 1207959576, 1342177304, 1476395032, 1610612760, 1744830488, 1879048216, 2013265944]
  ]

  /** decode_fieldnorm: a table lookup. */
  function DecodeFieldnorm(n: nat): nat
    requires n < 256
  {
    RowIsComputed(n / 8);
    DECODE_ROWS[n / 8][n % 8]
  }

  // ---------- the table in closed form ----------

  /** The distance between neighbouring entries of a row; it doubles with each row from row 5 on. */
  function Step(r: nat): (p: nat)
    ensures 0 < p
  {
    if r <= 4 then 1 else 2 * Step(r - 1)
  }

  /** Eight evenly spaced entries; the first ones continue the row before. */
  function RowFor(r: nat): seq<nat> {
    var start, step := if r <= 4 then 8 * r else 24 + 8 * Step(r), Step(r);
    [start, start + step, start + 2 * step, start + 3 * step,
     start + 4 * step, start + 5 * step, start + 6 * step, start + 7 * step]
  }

  lemma StepAnchors()
    ensures Step(0) == Step(4) == 1 && Step(8) == 16 && Step(12) == 256 && Step(16) == 4096
    ensures Step(20) == 65536 && Step(24) == 1048576 && Step(28) == 16777216 && Step(31) == 134217728
  {
    assert Step(6) == 4 && Step(8) == 16;
    assert Step(10) == 64 && Step(12) == 256;
    assert Step(14) == 1024 && Step(16) == 4096;
    assert Step(18) == 16384 && Step(20) == 65536;
    assert Step(22) == 262144 && Step(24) == 1048576;
    assert Step(26) == 4194304 && Step(28) == 16777216;
    assert Step(30) == 67108864;
  }

  /** The whole table, row by row. */
  lemma RowIsComputed(r: nat)
    requires r < 32
    ensures |DECODE_ROWS| == 32 && DECODE_ROWS[r] == RowFor(r)
  {
    StepAnchors();
  }

  lemma RowForAt(r: nat, c: nat)
    requires c < 8
    ensures |RowFor(r)| == 8 && RowFor(r)[c] == (if r <= 4 then 8 * r else 24 + 8 * Step(r)) + c * Step(r)
  {
  }

  lemma RowEntry(r: nat, c: nat)
    requires r < 32 && c < 8
    ensures |DECODE_ROWS| == 32 && |DECODE_ROWS[r]| == 8
    ensures DECODE_ROWS[r][c] == (if r <= 4 then 8 * r else 24 + 8 * Step(r)) + c * Step(r)
  {
    hide DECODE_ROWS, RowFor;
    RowIsComputed(r);
    RowForAt(r, c);
  }

  /** Small lengths are their own code; above, three mantissa bits scaled by a power of two. */
  lemma TableValue(n: nat)
    requires n < 256
    ensures DecodeFieldnorm(n) == if n < 40 then n else 24 + (8 + n % 8) * Step(n / 8)
  {
    hide RowFor;
    RowEntry(n / 8, n % 8);
    if n < 40 {
      assert Step(n / 8) == 1;
    }
  }

  lemma NextStep(r: nat)
    ensures r >= 4 ==> Step(r + 1) == 2 * Step(r)
    ensures r <= 4 ==> Step(r) == 1
  {
  }

  function Affine(c: nat, step: nat): nat {
    24 + (8 + c) * step
  }

  lemma AffineNext(c: nat, step: nat)
    ensures Affine(c + 1, step) == Affine(c, step) + step
    ensures Affine(0, 2 * step) == Affine(7, step) + step
  {
  }

  lemma TableAffine(r: nat, c: nat)
    requires 4 <= r < 32 && c < 8
    ensures DecodeFieldnorm(8 * r + c) == Affine(c, Step(r))
  {
    hide DecodeFieldnorm, Step;
    assert (8 * r + c) / 8 == r && (8 * r + c) % 8 == c;
    TableValue(8 * r + c);
    NextStep(r);
  }

  lemma NextEntry(n: nat)
    requires n < 255
    ensures DecodeFieldnorm(n + 1) == DecodeFieldnorm(n) + Step(n / 8)
  {
    hide DecodeFieldnorm, Step, Affine;
    var r, c := n / 8, n % 8;
    NextStep(r);
    if n < 39 {
      TableValue(n);
      TableValue(n + 1);
    } else {
      TableAffine(r, c);
      AffineNext(c, Step(r));
      if c == 7 {
        TableAffine(r + 1, 0);
      } else {
        TableAffine(r, c + 1);
      }
    }
  }

  lemma {:induction false} TableAscends(n: nat, m: nat)
    requires n < m < 256
    ensures DecodeFieldnorm(n) < DecodeFieldnorm(m)
  {
    hide DecodeFieldnorm;
    NextEntry(m - 1);
    if n < m - 1 {
      TableAscends(n, m - 1);
    }
  }

  // ---------- encoding ----------

  /** n is the code of `length`: the last entry not above it. */
  ghost predicate IsCode(length: nat, n: nat) {
    && n < 256 && DecodeFieldnorm(n) <= length
    && (n < 255 ==> length < DecodeFieldnorm(n + 1))
  }

  /** encode_fieldnorm: binary search for the last entry not above the length. */
  method EncodeFieldnorm(length: nat) returns (n: nat)
    ensures IsCode(length, n)
  {
    hide DecodeFieldnorm;
    TableValue(0);
    var lo, hi := 0, 255;
    while lo < hi
      invariant 0 <= lo <= hi <= 255
      invariant DecodeFieldnorm(lo) <= length
      invariant hi < 255 ==> length < DecodeFieldnorm(hi + 1)
    {
      var mid := lo + (hi - lo + 1) / 2;
      if DecodeFieldnorm(mid) <= length {
        lo := mid;
      } else {
        hi := mid - 1;
      }
    }
    return lo;
  }

  /** A Galois connection: a code is reached exactly by the lengths at or above its value. */
  lemma GaloisConnection(length: nat, code: nat, n: nat)
    requires IsCode(length, code) && n < 256
    ensures code >= n <==> DecodeFieldnorm(n) <= length
  {
    hide DecodeFieldnorm;
    if n < code { TableAscends(n, code); }
    if code < n && code + 1 < n { TableAscends(code + 1, n); }
  }

  /** Every length has exactly one code, and codes do not decrease with the length. */
  lemma CodeIsMonotone(length: nat, code: nat, length': nat, code': nat)
    requires IsCode(length, code) && IsCode(length', code') && length <= length'
    ensures code <= code' && (length == length' ==> code == code')
  {
    hide DecodeFieldnorm;
    GaloisConnection(length', code', code);
    GaloisConnection(length, code, code');
  }

  /** Decoding and encoding again gives the same byte, so merging segments never degrades a norm. */
  lemma RequantizeIsStable(n: nat, code: nat)
    requires n < 256 && IsCode(DecodeFieldnorm(n), code)
    ensures code == n
  {
    hide DecodeFieldnorm;
    GaloisConnection(DecodeFieldnorm(n), code, n);
    if n < code { TableAscends(n, code); }
  }

  /** Above 2300875364 the last table entry is too far away for the relative bound. */
  const LOSS_BOUND_LIMIT: nat := 2300875365

  /** Lengths below 40 are exact; above, less than an eighth of the length is lost, up to the limit. */
  lemma QuantizationLoss(length: nat, code: nat)
    requires IsCode(length, code)
    ensures length < 40 ==> DecodeFieldnorm(code) == length
    ensures length >= 40 ==> (8 * (length - DecodeFieldnorm(code)) < length <==> length < LOSS_BOUND_LIMIT)
  {
    hide DecodeFieldnorm;
    TableValue(code);
    if length < 40 {
      TableValue(length);
      GaloisConnection(length, code, length);
    } else {
      TableValue(40);
      GaloisConnection(length, code, 40);
      RowScale(code);
      TableValue(255);
      StepAnchors();
      if code < 255 {
        NextEntry(code);
        if length >= LOSS_BOUND_LIMIT {
          GaloisConnection(length, code, 255);
        }
      }
    }
  }

  lemma RowScale(n: nat)
    requires 40 <= n < 256
    ensures DecodeFieldnorm(n) >= 24 + 8 * Step(n / 8)
  {
    hide DecodeFieldnorm;
    TableValue(n);
  }
}
