/** BM25 contributions and the per-block bound used for pruning (rust/src/scoring.rs), over the reals. */
module Scoring {
  import opened Fieldnorm
  import opened Postings

  /** The parameters of one query term: IDF, and the index's k1, b and average document length. */
  datatype Params = Params(idf: real, k1: real, b: real, avgdl: real)

  ghost predicate ValidParams(p: Params) {
    0.0 <= p.idf && 0.0 < p.k1 && 0.0 <= p.b <= 1.0 && 0.0 < p.avgdl
  }

  /** 1 - b + b * dl / avgdl. */
  function LengthNorm(p: Params, dl: nat): real
    requires p.avgdl != 0.0
  {
    1.0 - p.b + p.b * (dl as real / p.avgdl)
  }

  /** The saturating part of BM25 for a frequency and a length norm. */
  function Saturation(k1: real, tf: real, norm: real): real
    requires tf + k1 * norm != 0.0
  {
    (tf * (k1 + 1.0)) / (tf + k1 * norm)
  }

  lemma LengthNormBounds(p: Params, dl: nat, dl': nat)
    requires ValidParams(p) && dl <= dl'
    ensures 0.0 <= LengthNorm(p, dl) <= LengthNorm(p, dl')
  {
    var x, x' := dl as real / p.avgdl, dl' as real / p.avgdl;
    DivideMonotone(dl as real, dl' as real, p.avgdl);
    MulMonotone(p.b, x, x');
  }

  /** With length normalization a longer document has a larger norm. */
  lemma LongerNormIsLarger(p: Params, n: nat, n': nat)
    requires ValidParams(p) && 0.0 < p.b && n < n'
    ensures LengthNorm(p, n) < LengthNorm(p, n')
  {
    var x, y := n as real / p.avgdl, (n' - n) as real / p.avgdl;
    FractionPositive((n' - n) as real, p.avgdl);
    ProductPositive(p.b, y);
    SumOfFractions(n as real, (n' - n) as real, p.avgdl);
    Distribute(p.b, x, y);
  }

  lemma SumOfFractions(x: real, y: real, a: real)
    requires 0.0 < a
    ensures (x + y) / a == x / a + y / a
  {
  }

  lemma DivideMonotone(x: real, y: real, d: real)
    requires 0.0 <= x <= y && 0.0 < d
    ensures 0.0 <= x / d <= y / d
  {
  }

  lemma MulMonotone(a: real, x: real, y: real)
    requires 0.0 <= a && 0.0 <= x <= y
    ensures 0.0 <= a * x <= a * y
  {
  }

  lemma DenominatorPositive(k1: real, tf: real, norm: real)
    requires 0.0 < k1 && 0.0 < tf && 0.0 <= norm
    ensures 0.0 < tf + k1 * norm
  {
    MulMonotone(k1, 0.0, norm);
  }

  /** bm25_score. */
  function Bm25Score(p: Params, tf: nat, dl: nat): real
    requires ValidParams(p) && 0 < tf
  {
    LengthNormBounds(p, dl, dl);
    DenominatorPositive(p.k1, tf as real, LengthNorm(p, dl));
    p.idf * Saturation(p.k1, tf as real, LengthNorm(p, dl))
  }

  /** block_max_score: the score of an imagined posting with the stored frequency and norm. */
  function BlockMaxScore(p: Params, maxTf: nat, maxNorm: nat): real
    requires ValidParams(p) && 0 < maxTf && maxNorm < 256
  {
    Bm25Score(p, maxTf, DecodeFieldnorm(maxNorm))
  }

  /** Comparing two saturations is comparing cross products. */
  lemma SaturationOrder(k1: real, t: real, m: real, t': real, m': real)
    requires 0.0 < k1 && 0.0 < t && 0.0 < t' && 0.0 <= m && 0.0 <= m'
    ensures t + k1 * m > 0.0 && t' + k1 * m' > 0.0
    ensures Saturation(k1, t, m) <= Saturation(k1, t', m') <==> t * m' <= t' * m
  {
    DenominatorPositive(k1, t, m);
    DenominatorPositive(k1, t', m');
    FractionOrder(t * (k1 + 1.0), t + k1 * m, t' * (k1 + 1.0), t' + k1 * m');
    CrossOrder(k1 + 1.0, k1, t, m, t', m');
  }

  lemma CrossOrder(c: real, k: real, t: real, m: real, t': real, m': real)
    requires 0.0 < c && 0.0 < k
    ensures (t * c) * (t' + k * m') <= (t' * c) * (t + k * m) <==> t * m' <= t' * m
  {
    CrossDifference(c, k, t, m, t', m');
    ProductPositive(c, k);
    SignOfProduct(c * k, t * m' - t' * m);
  }

  lemma CrossDifference(c: real, k: real, t: real, m: real, t': real, m': real)
    ensures (t * c) * (t' + k * m') - (t' * c) * (t + k * m) == (c * k) * (t * m' - t' * m)
  {
    Distribute(t * c, t', k * m');
    Distribute(t' * c, t, k * m);
    assert (t * c) * t' == (t' * c) * t;
    assert (t * c) * (k * m') == (c * k) * (t * m');
    assert (t' * c) * (k * m) == (c * k) * (t' * m);
    Distribute(c * k, t * m', -(t' * m));
    assert (c * k) * -(t' * m) == -((c * k) * (t' * m));
  }

  lemma ProductMonotone(a: real, a': real, b: real, b': real)
    requires 0.0 <= a <= a' && 0.0 <= b <= b'
    ensures a * b <= a' * b'
  {
    MulMonotone(a, b, b');
    MulMonotone(a' - a, 0.0, b');
    assert a' * b' == a * b' + (a' - a) * b';
  }

  lemma Distribute(a: real, x: real, y: real)
    ensures a * (x + y) == a * x + a * y
  {
  }

  lemma FractionOrder(a: real, b: real, c: real, d: real)
    requires 0.0 < b && 0.0 < d
    ensures a / b <= c / d <==> a * d <= c * b
  {
    var x, y := a / b, c / d;
    assert a == x * b && c == y * d;
    assert a * d == x * (b * d) && c * b == y * (b * d);
    SignOfProduct(b * d, x - y);
    assert x * (b * d) - y * (b * d) == (b * d) * (x - y);
  }

  lemma SignOfProduct(a: real, x: real)
    requires 0.0 < a
    ensures a * x <= 0.0 <==> x <= 0.0
  {
  }

  /** Comparing the scores of two (frequency, length) pairs is comparing cross products. */
  lemma ScoreOrderIff(p: Params, tf: nat, dl: nat, tf': nat, dl': nat)
    requires ValidParams(p) && 0 < tf && 0 < tf'
    ensures Bm25Score(p, tf, dl) <= Bm25Score(p, tf', dl') <==>
            p.idf == 0.0 || tf as real * LengthNorm(p, dl') <= tf' as real * LengthNorm(p, dl)
  {
    hide LengthNorm, Saturation;
    var m, m' := LengthNorm(p, dl), LengthNorm(p, dl');
    LengthNormBounds(p, dl, dl);
    LengthNormBounds(p, dl', dl');
    SaturationOrder(p.k1, tf as real, m, tf' as real, m');
    var s, s' := Saturation(p.k1, tf as real, m), Saturation(p.k1, tf' as real, m');
    if p.idf != 0.0 {
      assert p.idf * s - p.idf * s' == p.idf * (s - s');
      SignOfProduct(p.idf, s - s');
    }
  }

  /** Exactly when the stored (frequency, norm) bounds a posting's score. */
  lemma BoundHoldsIff(p: Params, tf: nat, norm: nat, maxTf: nat, maxNorm: nat)
    requires ValidParams(p) && 0 < tf && 0 < maxTf && norm < 256 && maxNorm < 256
    ensures Bm25Score(p, tf, DecodeFieldnorm(norm)) <= BlockMaxScore(p, maxTf, maxNorm) <==>
            p.idf == 0.0 ||
            tf as real * LengthNorm(p, DecodeFieldnorm(maxNorm)) <= maxTf as real * LengthNorm(p, DecodeFieldnorm(norm))
  {
    hide Bm25Score, LengthNorm, DecodeFieldnorm;
    ScoreOrderIff(p, tf, DecodeFieldnorm(norm), maxTf, DecodeFieldnorm(maxNorm));
  }

  /** The documented bound: largest frequency with the shortest document's norm. */
  lemma ShortestNormBounds(p: Params, tf: nat, norm: nat, maxTf: nat, minNorm: nat)
    requires ValidParams(p) && 0 < tf <= maxTf && minNorm <= norm < 256
    ensures Bm25Score(p, tf, DecodeFieldnorm(norm)) <= BlockMaxScore(p, maxTf, minNorm)
  {
    hide LengthNorm, DecodeFieldnorm, Bm25Score, BlockMaxScore;
    if minNorm < norm { TableAscends(minNorm, norm); }
    LengthNormBounds(p, DecodeFieldnorm(minNorm), DecodeFieldnorm(norm));
    var m, m' := LengthNorm(p, DecodeFieldnorm(norm)), LengthNorm(p, DecodeFieldnorm(minNorm));
    ProductMonotone(tf as real, maxTf as real, m', m);
    BoundHoldsIff(p, tf, norm, maxTf, minNorm);
  }

  lemma ScorePositive(p: Params, tf: nat, dl: nat)
    requires ValidParams(p) && 0.0 < p.idf && 0 < tf
    ensures 0.0 < Bm25Score(p, tf, dl)
  {
    hide LengthNorm;
    var m := LengthNorm(p, dl);
    LengthNormBounds(p, dl, dl);
    DenominatorPositive(p.k1, tf as real, m);
    var n, d := tf as real * (p.k1 + 1.0), tf as real + p.k1 * m;
    ProductPositive(tf as real, p.k1 + 1.0);
    FractionPositive(n, d);
    ProductPositive(p.idf, n / d);
  }

  /** ... and, with the same frequency, a smaller score. */
  lemma LongerScoresLess(p: Params, tf: nat, n: nat, n': nat)
    requires ValidParams(p) && 0.0 < p.idf && 0.0 < p.b && 0 < tf && n < n'
    ensures Bm25Score(p, tf, n') < Bm25Score(p, tf, n)
  {
    hide Bm25Score, LengthNorm;
    ScoreOrderIff(p, tf, n, tf, n');
    LongerNormIsLarger(p, n, n');
    var m, m' := LengthNorm(p, n), LengthNorm(p, n');
    ProductPositive(tf as real, m' - m);
    assert tf as real * m' == tf as real * m + tf as real * (m' - m);
  }

  // ---------- the value of a score ----------

  /**
   * BM25 with every division cleared: the score times tf * avgdl + k1 * ((1 - b) * avgdl + b * dl)
   * is idf * tf * (k1 + 1) * avgdl.
   */
  lemma Bm25Value(p: Params, tf: nat, dl: nat)
    requires ValidParams(p) && 0 < tf
    ensures Bm25Score(p, tf, dl) * (tf as real * p.avgdl + p.k1 * ((1.0 - p.b) * p.avgdl + p.b * dl as real)) ==
            p.idf * (tf as real * (p.k1 + 1.0)) * p.avgdl
  {
    hide LengthNorm, Saturation;
    var t, m := tf as real, LengthNorm(p, dl);
    LengthNormBounds(p, dl, dl);
    DenominatorPositive(p.k1, t, m);
    NormCleared(p, dl);
    SaturationCleared(p.k1, t, m);
    DenominatorCleared(p, t, m, dl);
    var s, d := Saturation(p.k1, t, m), t + p.k1 * m;
    Regroup(p.idf, s, d, p.avgdl);
    assert Bm25Score(p, tf, dl) == p.idf * s;
  }

  /** A block bound is the score of its largest frequency in a document of its stored length. */
  lemma BlockMaxValue(p: Params, maxTf: nat, maxNorm: nat)
    requires ValidParams(p) && 0 < maxTf && maxNorm < 256
    ensures var dl := DecodeFieldnorm(maxNorm) as real;
            BlockMaxScore(p, maxTf, maxNorm) * (maxTf as real * p.avgdl + p.k1 * ((1.0 - p.b) * p.avgdl + p.b * dl)) ==
            p.idf * (maxTf as real * (p.k1 + 1.0)) * p.avgdl
  {
    hide DecodeFieldnorm, Bm25Score;
    Bm25Value(p, maxTf, DecodeFieldnorm(maxNorm));
  }

  lemma NormCleared(p: Params, dl: nat)
    requires ValidParams(p)
    ensures LengthNorm(p, dl) * p.avgdl == (1.0 - p.b) * p.avgdl + p.b * dl as real
  {
    var x := dl as real / p.avgdl;
    assert x * p.avgdl == dl as real;
    Regroup(p.b, x, p.avgdl, 1.0);
    Distribute(p.avgdl, 1.0 - p.b, p.b * x);
  }

  lemma SaturationCleared(k1: real, t: real, m: real)
    requires t + k1 * m != 0.0
    ensures Saturation(k1, t, m) * (t + k1 * m) == t * (k1 + 1.0)
  {
  }

  lemma DenominatorCleared(p: Params, t: real, m: real, dl: nat)
    requires m * p.avgdl == (1.0 - p.b) * p.avgdl + p.b * dl as real
    ensures (t + p.k1 * m) * p.avgdl == t * p.avgdl + p.k1 * ((1.0 - p.b) * p.avgdl + p.b * dl as real)
  {
    Distribute(p.avgdl, t, p.k1 * m);
    Regroup(p.k1, m, p.avgdl, 1.0);
  }

  lemma Regroup(a: real, b: real, c: real, d: real)
    ensures (a * b) * (c * d) == a * (b * c) * d
  {
  }

  /** A document of average length scores idf * tf * (k1 + 1) / (tf + k1), whatever b is, and its IDF for one occurrence. */
  lemma AverageDocument(p: Params, tf: nat, dl: nat)
    requires ValidParams(p) && 0 < tf && dl as real == p.avgdl
    ensures Bm25Score(p, tf, dl) == p.idf * (tf as real * (p.k1 + 1.0)) / (tf as real + p.k1)
    ensures Bm25Score(p, 1, dl) == p.idf
  {
    hide Bm25Score;
    Bm25Value(p, tf, dl);
    Bm25Value(p, 1, dl);
    AverageCleared(p, tf as real, Bm25Score(p, tf, dl));
    AverageCleared(p, 1.0, Bm25Score(p, 1, dl));
    OneOccurrence(p.idf, p.k1);
  }

  lemma AverageCleared(p: Params, t: real, score: real)
    requires ValidParams(p) && 0.0 < t
    requires score * (t * p.avgdl + p.k1 * ((1.0 - p.b) * p.avgdl + p.b * p.avgdl)) ==
             p.idf * (t * (p.k1 + 1.0)) * p.avgdl
    ensures score == p.idf * (t * (p.k1 + 1.0)) / (t + p.k1)
  {
    var a, d, n := p.avgdl, t + p.k1, p.idf * (t * (p.k1 + 1.0));
    Distribute(a, 1.0 - p.b, p.b);
    assert (1.0 - p.b) * a + p.b * a == a;
    Distribute(a, t, p.k1);
    Regroup(score, d, a, 1.0);
    CancelFactor(score * d, n, a);
    Quotient(score, d, n);
  }

  lemma CancelFactor(x: real, y: real, a: real)
    requires a != 0.0 && x * a == y * a
    ensures x == y
  {
  }

  lemma Quotient(x: real, d: real, n: real)
    requires d != 0.0 && x * d == n
    ensures x == n / d
  {
  }

  lemma OneOccurrence(idf: real, k1: real)
    requires 0.0 < k1
    ensures idf * (1.0 * (k1 + 1.0)) / (1.0 + k1) == idf
  {
  }

  lemma ProductPositive(a: real, b: real)
    requires 0.0 < a && 0.0 < b
    ensures 0.0 < a * b
  {
  }

  lemma FractionPositive(a: real, b: real)
    requires 0.0 < a && 0.0 < b
    ensures 0.0 < a / b
  {
  }

  // ---------- what the segment writers store ----------

  /** The block statistics loop of the writers: largest frequency and largest fieldnorm of the block. */
  method BlockStats(block: seq<BlockPosting>) returns (maxTf: nat, maxNorm: nat)
    ensures forall i :: 0 <= i < |block| ==> block[i].frequency <= maxTf && block[i].fieldnorm <= maxNorm
    ensures block == [] ==> maxTf == 0 && maxNorm == 0
    ensures block != [] ==> exists i :: 0 <= i < |block| && block[i].frequency == maxTf
    ensures block != [] ==> exists i :: 0 <= i < |block| && block[i].fieldnorm == maxNorm
  {
    maxTf, maxNorm := 0, 0;
    ghost var u, v := 0, 0;
    var j := 0;
    while j < |block|
      invariant 0 <= j <= |block|
      invariant forall i :: 0 <= i < j ==> block[i].frequency <= maxTf && block[i].fieldnorm <= maxNorm
      invariant j == 0 ==> maxTf == 0 && maxNorm == 0
      invariant 0 < j ==> u < j && block[u].frequency == maxTf
      invariant 0 < j ==> v < j && block[v].fieldnorm == maxNorm
    {
      if j == 0 || block[j].frequency > maxTf { u := j; }
      if j == 0 || block[j].fieldnorm > maxNorm { v := j; }
      if block[j].frequency > maxTf {
        maxTf := block[j].frequency;
      }
      if block[j].fieldnorm > maxNorm {
        maxNorm := block[j].fieldnorm;
      }
      j := j + 1;
    }
  }

  ghost predicate ValidBlock(block: seq<BlockPosting>) {
    block != [] && forall i :: 0 <= i < |block| ==> 0 < block[i].frequency && block[i].fieldnorm < 256
  }

  ghost predicate IsBlockStats(block: seq<BlockPosting>, maxTf: nat, maxNorm: nat) {
    && (forall i :: 0 <= i < |block| ==> block[i].frequency <= maxTf && block[i].fieldnorm <= maxNorm)
    && (exists i :: 0 <= i < |block| && block[i].frequency == maxTf)
    && (exists i :: 0 <= i < |block| && block[i].fieldnorm == maxNorm)
  }

  /** The bound that pruning relies on: no posting of the block scores above the stored statistics. */
  ghost predicate BlockIsBounded(p: Params, block: seq<BlockPosting>, maxTf: nat, norm: nat)
    requires ValidParams(p) && ValidBlock(block) && 0 < maxTf && norm < 256
  {
    forall i :: 0 <= i < |block| ==>
      Bm25Score(p, block[i].frequency, DecodeFieldnorm(block[i].fieldnorm)) <= BlockMaxScore(p, maxTf, norm)
  }

  /** With the smallest fieldnorm of the block, as documented, the bound always holds. */
  lemma DocumentedBoundHolds(p: Params, block: seq<BlockPosting>, maxTf: nat, minNorm: nat)
    requires ValidParams(p) && ValidBlock(block) && 0 < maxTf && minNorm < 256
    requires forall i :: 0 <= i < |block| ==> block[i].frequency <= maxTf && minNorm <= block[i].fieldnorm
    ensures BlockIsBounded(p, block, maxTf, minNorm)
  {
    forall i | 0 <= i < |block|
      ensures Bm25Score(p, block[i].frequency, DecodeFieldnorm(block[i].fieldnorm)) <= BlockMaxScore(p, maxTf, minNorm)
    {
      ShortestNormBounds(p, block[i].frequency, block[i].fieldnorm, maxTf, minNorm);
    }
  }

  /**
   * With the largest fieldnorm, as the writers store it, the bound holds exactly when no
   * document is short enough for its frequency to make up for the difference in length.
   */
  lemma StoredBoundHoldsIff(p: Params, block: seq<BlockPosting>, maxTf: nat, maxNorm: nat)
    requires ValidParams(p) && ValidBlock(block) && IsBlockStats(block, maxTf, maxNorm) && 0 < maxTf && maxNorm < 256
    ensures BlockIsBounded(p, block, maxTf, maxNorm) <==>
            p.idf == 0.0 ||
            forall i :: 0 <= i < |block| ==>
              block[i].frequency as real * LengthNorm(p, DecodeFieldnorm(maxNorm))
                <= maxTf as real * LengthNorm(p, DecodeFieldnorm(block[i].fieldnorm))
  {
    hide Bm25Score, BlockMaxScore, LengthNorm, DecodeFieldnorm;
    forall i | 0 <= i < |block|
      ensures Bm25Score(p, block[i].frequency, DecodeFieldnorm(block[i].fieldnorm)) <=
              BlockMaxScore(p, maxTf, maxNorm) <==>
              p.idf == 0.0 ||
              block[i].frequency as real * LengthNorm(p, DecodeFieldnorm(maxNorm))
                <= maxTf as real * LengthNorm(p, DecodeFieldnorm(block[i].fieldnorm))
    {
      BoundHoldsIff(p, block[i].frequency, block[i].fieldnorm, maxTf, maxNorm);
    }
  }

  /** A block on which the stored bound fails: one occurrence in a short and in a long document. */
  lemma StoredBoundFails(p: Params)
    requires ValidParams(p) && 0.0 < p.idf && 0.0 < p.b
    ensures var block := [BlockPosting(0, 1, 1), BlockPosting(1, 1, 2)];
            ValidBlock(block) && IsBlockStats(block, 1, 2) && !BlockIsBounded(p, block, 1, 2)
  {
    var block := [BlockPosting(0, 1, 1), BlockPosting(1, 1, 2)];
    assert block[0].frequency == 1 && block[1].fieldnorm == 2;
    StoredBoundHoldsIff(p, block, 1, 2);
    TableValue(1);
    TableValue(2);
    LongerNormIsLarger(p, 1, 2);
  }

  /** Without length normalization (b = 0) the writers' bound is safe. */
  lemma StoredBoundWithoutNormalization(p: Params, block: seq<BlockPosting>, maxTf: nat, maxNorm: nat)
    requires ValidParams(p) && p.b == 0.0
    requires ValidBlock(block) && IsBlockStats(block, maxTf, maxNorm) && 0 < maxTf && maxNorm < 256
    ensures BlockIsBounded(p, block, maxTf, maxNorm)
  {
    hide BlockIsBounded, DecodeFieldnorm;
    StoredBoundHoldsIff(p, block, maxTf, maxNorm);
    forall n: nat
      ensures LengthNorm(p, n) == 1.0
    {
    }
  }
}
