/**
 * Powers of two, the machine's bitwise operations on naturals, and numbers written in a
 * power-of-two radix. Multiplication by 2^k is the left shift throughout.
 */
module Radix {

  function Pow2(k: nat): (p: nat)
    ensures 0 < p
  {
    if k == 0 then 1 else 2 * Pow2(k - 1)
  }

  /** `x << k`, before it is cut to the width of a word. */
  function ShiftLeft(x: nat, k: nat): (r: nat)
    ensures x <= r
  {
    if k == 0 then x else 2 * ShiftLeft(x, k - 1)
  }

  function ShiftRight(x: nat, k: nat): nat {
    if k == 0 then x else ShiftRight(x / 2, k - 1)
  }

  /** The k low bits of x. */
  function LowBits(x: nat, k: nat): nat {
    if k == 0 then 0 else 2 * LowBits(x / 2, k - 1) + x % 2
  }

  function BitOr(a: nat, b: nat): nat {
    if a == 0 && b == 0 then 0
    else 2 * BitOr(a / 2, b / 2) + if a % 2 == 1 || b % 2 == 1 then 1 else 0
  }

  function BitAnd(a: nat, b: nat): nat {
    if a == 0 || b == 0 then 0
    else 2 * BitAnd(a / 2, b / 2) + if a % 2 == 1 && b % 2 == 1 then 1 else 0
  }

  lemma {:induction false} Pow2Shift(a: nat, b: nat)
    ensures ShiftLeft(Pow2(a), b) == Pow2(a + b)
  {
    if b > 0 { Pow2Shift(a, b - 1); }
  }

  lemma {:induction false} Pow2Monotone(a: nat, b: nat)
    requires a <= b
    ensures Pow2(a) <= Pow2(b)
  {
    if a < b { Pow2Monotone(a, b - 1); }
  }

  lemma Pow2Anchors()
    ensures Pow2(8) == 0x100 && Pow2(16) == 0x1_0000 && Pow2(32) == 0x1_0000_0000 && Pow2(64) == 0x1_0000_0000_0000_0000
  {
    assert Pow2(4) == 16 && Pow2(8) == 0x100;
    assert Pow2(12) == 0x1000 && Pow2(16) == 0x1_0000;
    assert Pow2(20) == 0x10_0000 && Pow2(24) == 0x100_0000 && Pow2(28) == 0x1000_0000 && Pow2(32) == 0x1_0000_0000;
    assert Pow2(36) == 0x10_0000_0000 && Pow2(40) == 0x100_0000_0000 && Pow2(44) == 0x1000_0000_0000;
    assert Pow2(48) == 0x1_0000_0000_0000 && Pow2(52) == 0x10_0000_0000_0000 && Pow2(56) == 0x100_0000_0000_0000;
    assert Pow2(60) == 0x1000_0000_0000_0000;
  }

  lemma {:induction false} ShiftAdd(a: nat, b: nat, k: nat)
    ensures ShiftLeft(a + b, k) == ShiftLeft(a, k) + ShiftLeft(b, k)
  {
    if k > 0 { ShiftAdd(a, b, k - 1); }
  }

  lemma {:induction false} ShiftTwice(x: nat, j: nat, k: nat)
    ensures ShiftLeft(ShiftLeft(x, j), k) == ShiftLeft(x, j + k)
  {
    if k > 0 { ShiftTwice(x, j, k - 1); }
  }

  lemma {:induction false} ShiftMonotone(a: nat, b: nat, k: nat)
    requires a <= b
    ensures ShiftLeft(a, k) <= ShiftLeft(b, k)
  {
    if k > 0 { ShiftMonotone(a, b, k - 1); }
  }

  /** A shift cuts a number in two: the part shifted out and the part kept. */
  lemma {:induction false} CutAt(x: nat, k: nat)
    ensures LowBits(x, k) < Pow2(k) && x == LowBits(x, k) + ShiftLeft(ShiftRight(x, k), k)
  {
    if k > 0 { CutAt(x / 2, k - 1); }
  }

  /** There is only one way to cut a number at bit k. */
  lemma {:induction false} CutUnique(x: nat, u: nat, y: nat, v: nat, k: nat)
    requires x < Pow2(k) && y < Pow2(k) && x + ShiftLeft(u, k) == y + ShiftLeft(v, k)
    ensures x == y && u == v
  {
    if k > 0 {
      assert x % 2 == y % 2;
      CutUnique(x / 2, u, y / 2, v, k - 1);
    }
  }

  lemma {:induction false} LowOfSmall(x: nat, k: nat)
    requires x < Pow2(k)
    ensures LowBits(x, k) == x
  {
    if k > 0 { LowOfSmall(x / 2, k - 1); }
  }

  lemma {:induction false} OrZero(b: nat)
    ensures BitOr(0, b) == b
  {
    if b > 0 { OrZero(b / 2); }
  }

  /** OR of numbers that share no bit position is their sum. */
  lemma {:induction false} OrDisjoint(a: nat, b: nat, k: nat)
    requires a < Pow2(k)
    ensures BitOr(a, ShiftLeft(b, k)) == a + ShiftLeft(b, k)
  {
    if k == 0 {
      OrZero(b);
    } else {
      OrDisjoint(a / 2, b, k - 1);
    }
  }

  /** AND with 2^k - 1 keeps the low k bits. */
  lemma {:induction false} AndMask(x: nat, k: nat)
    ensures BitAnd(x, Pow2(k) - 1) == LowBits(x, k)
  {
    if x == 0 {
      LowOfSmall(0, k);
    } else if k > 0 {
      AndMask(x / 2, k - 1);
      assert (Pow2(k) - 1) / 2 == Pow2(k - 1) - 1 && (Pow2(k) - 1) % 2 == 1;
    }
  }

  /** Putting a number of b bits above one of a bits gives a number of a + b bits. */
  lemma ShiftFits(x: nat, a: nat, v: nat, b: nat)
    requires x < Pow2(a) && v < Pow2(b)
    ensures x + ShiftLeft(v, a) < Pow2(a + b)
  {
    ShiftMonotone(v + 1, Pow2(b), a);
    ShiftAdd(v, 1, a);
    Pow2Shift(b, a);
    Pow2Shift(0, a);
  }

  /** Shifting b bits out of a number of a + b bits leaves a bits. */
  lemma ShiftedFits(x: nat, a: nat, b: nat)
    requires x < Pow2(a + b)
    ensures ShiftRight(x, b) < Pow2(a)
  {
    CutAt(x, b);
    if Pow2(a) <= ShiftRight(x, b) {
      ShiftMonotone(Pow2(a), ShiftRight(x, b), b);
      Pow2Shift(a, b);
    }
  }

  // ---------- radix 2^bits, least significant digit first ----------

  ghost function Value(digits: seq<nat>, bits: nat): nat {
    if digits == [] then 0 else digits[0] + ShiftLeft(Value(digits[1..], bits), bits)
  }

  ghost predicate Digits(digits: seq<nat>, bits: nat) {
    forall i :: 0 <= i < |digits| ==> digits[i] < Pow2(bits)
  }

  /** The number of bits n digits take. */
  function Span(n: nat, bits: nat): nat {
    if n == 0 then 0 else Span(n - 1, bits) + bits
  }

  lemma {:induction false} SpanIsProduct(n: nat, bits: nat)
    ensures Span(n, bits) == n * bits
  {
    if n > 0 { SpanIsProduct(n - 1, bits); }
  }

  lemma {:induction false} SpanOfBytes(n: nat)
    ensures Span(n, 8) == 8 * n
  {
    if n > 0 { SpanOfBytes(n - 1); }
  }

  lemma {:induction false} SpanMonotone(m: nat, n: nat, bits: nat)
    requires m <= n
    ensures Span(m, bits) <= Span(n, bits)
  {
    if m < n { SpanMonotone(m, n - 1, bits); }
  }

  /** Appending a most significant digit. */
  lemma {:induction false} ValueAppend(digits: seq<nat>, d: nat, bits: nat)
    ensures Value(digits + [d], bits) == Value(digits, bits) + ShiftLeft(d, Span(|digits|, bits))
  {
    if digits == [] {
      assert (digits + [d])[1..] == [];
      ShiftZero(bits);
    } else {
      var rest := digits[1..];
      assert (digits + [d])[1..] == rest + [d];
      ValueAppend(rest, d, bits);
      ShiftAdd(Value(rest, bits), ShiftLeft(d, Span(|rest|, bits)), bits);
      ShiftTwice(d, Span(|rest|, bits), bits);
    }
  }

  lemma {:induction false} ShiftZero(k: nat)
    ensures ShiftLeft(0, k) == 0
  {
    if k > 0 { ShiftZero(k - 1); }
  }

  /** A number determines its low digits, whatever follows above them. */
  lemma {:induction false} DigitsUnique(a: seq<nat>, b: seq<nat>, bits: nat, r: nat, s: nat)
    requires |a| == |b| && Digits(a, bits) && Digits(b, bits)
    requires Value(a, bits) + ShiftLeft(r, Span(|a|, bits)) == Value(b, bits) + ShiftLeft(s, Span(|b|, bits))
    ensures a == b && r == s
  {
    if a != [] {
      RestAbove(a, bits, r);
      RestAbove(b, bits, s);
      var n := |a| - 1;
      var above, above' := ShiftLeft(r, Span(n, bits)), ShiftLeft(s, Span(n, bits));
      CutUnique(a[0], Value(a[1..], bits) + above, b[0], Value(b[1..], bits) + above', bits);
      assert forall i :: 0 <= i < n ==> a[1..][i] == a[i + 1] && b[1..][i] == b[i + 1];
      DigitsUnique(a[1..], b[1..], bits, r, s);
      assert a == [a[0]] + a[1..] && b == [b[0]] + b[1..];
    }
  }

  lemma RestAbove(a: seq<nat>, bits: nat, r: nat)
    requires a != []
    ensures Value(a, bits) + ShiftLeft(r, Span(|a|, bits)) ==
            a[0] + ShiftLeft(Value(a[1..], bits) + ShiftLeft(r, Span(|a| - 1, bits)), bits)
  {
    hide ShiftLeft;
    ShiftTwice(r, Span(|a| - 1, bits), bits);
    ShiftAdd(Value(a[1..], bits), ShiftLeft(r, Span(|a| - 1, bits)), bits);
  }
}
