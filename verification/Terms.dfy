/** The order of terms in a segment dictionary: strcmp. */
module Terms {

  /** The sign of strcmp. */
  function StrCmp(a: string, b: string): int {
    if a == [] then (if b == [] then 0 else -1)
    else if b == [] then 1
    else if a[0] < b[0] then -1
    else if b[0] < a[0] then 1
    else StrCmp(a[1..], b[1..])
  }

  predicate Less(a: string, b: string) {
    StrCmp(a, b) < 0
  }

  lemma {:induction false} StrCmpZero(a: string, b: string)
    ensures StrCmp(a, b) == 0 <==> a == b
  {
    if a != [] && b != [] && a[0] == b[0] {
      StrCmpZero(a[1..], b[1..]);
      assert a == [a[0]] + a[1..] && b == [b[0]] + b[1..];
    }
  }

  lemma {:induction false} StrCmpFlips(a: string, b: string)
    ensures StrCmp(a, b) < 0 <==> StrCmp(b, a) > 0
  {
    if a != [] && b != [] && a[0] == b[0] {
      StrCmpFlips(a[1..], b[1..]);
    }
  }

  lemma {:induction false} LessTransitive(a: string, b: string, c: string)
    requires Less(a, b) && Less(b, c)
    ensures Less(a, c)
  {
    if a != [] && a[0] == b[0] == c[0] {
      LessTransitive(a[1..], b[1..], c[1..]);
    }
  }

  /** strcmp orders terms totally. */
  lemma Trichotomy(a: string, b: string)
    ensures Less(a, b) || a == b || Less(b, a)
    ensures !(Less(a, b) && Less(b, a)) && !Less(a, a)
  {
    StrCmpZero(a, b);
    StrCmpZero(a, a);
    StrCmpFlips(a, b);
    StrCmpFlips(b, a);
  }

  // ---------- which order it is ----------

  /** `a` and `b` agree up to n, and there `a` ends or has the smaller character. */
  predicate DiffersAt(a: string, b: string, n: nat) {
    n <= |a| && n < |b| && a[..n] == b[..n] && (n == |a| || a[n] < b[n])
  }

  /** The order of a dictionary: by the first differing position, a proper prefix before its extensions. */
  ghost predicate Alphabetical(a: string, b: string) {
    exists n: nat :: DiffersAt(a, b, n)
  }

  lemma DiffersLater(a: string, b: string, n: nat)
    requires a != [] && b != [] && a[0] == b[0]
    ensures DiffersAt(a[1..], b[1..], n) <==> DiffersAt(a, b, n + 1)
    ensures !DiffersAt(a, b, 0)
  {
    if n < |a| && n < |b| {
      assert a[..n + 1] == [a[0]] + a[1..][..n] && b[..n + 1] == [b[0]] + b[1..][..n];
      assert a[..n + 1][1..] == a[1..][..n] && b[..n + 1][1..] == b[1..][..n];
    }
  }

  /** strcmp is negative exactly for terms in alphabetical order. */
  lemma {:induction false} LessIff(a: string, b: string)
    ensures Less(a, b) <==> Alphabetical(a, b)
  {
    if a != [] && b != [] && a[0] == b[0] {
      LessIff(a[1..], b[1..]);
      if Alphabetical(a[1..], b[1..]) {
        var n: nat :| DiffersAt(a[1..], b[1..], n);
        DiffersLater(a, b, n);
      }
      if Alphabetical(a, b) {
        var n: nat :| DiffersAt(a, b, n);
        DiffersLater(a, b, if n == 0 then 0 else n - 1);
        assert DiffersAt(a[1..], b[1..], n - 1);
      }
    } else {
      FirstDecides(a, b);
    }
  }

  lemma FirstDecides(a: string, b: string)
    requires a == [] || b == [] || a[0] != b[0]
    ensures Alphabetical(a, b) <==> b != [] && (a == [] || a[0] < b[0])
  {
    if b != [] && (a == [] || a[0] < b[0]) {
      assert DiffersAt(a, b, 0);
    }
    if Alphabetical(a, b) {
      var n: nat :| DiffersAt(a, b, n);
      FirstAgree(a, b, n);
    }
  }

  lemma FirstAgree(a: string, b: string, n: nat)
    ensures DiffersAt(a, b, n) && 0 < n ==> a != [] && b != [] && a[0] == b[0]
  {
    if DiffersAt(a, b, n) && 0 < n { assert a[..n][0] == a[0] && b[..n][0] == b[0]; }
  }

  /** A proper prefix comes before its extensions; otherwise the first different character decides. */
  lemma {:induction false} FirstDifference(p: string, s: string, t: string)
    ensures Less(p, p + s) <==> s != []
    ensures !Less(p + s, p)
    ensures s != [] && t != [] && s[0] != t[0] ==> (Less(p + s, p + t) <==> s[0] < t[0])
  {
    if p == [] {
      assert p + s == s && p + t == t;
    } else {
      FirstDifference(p[1..], s, t);
      assert (p + s)[1..] == p[1..] + s && (p + t)[1..] == p[1..] + t;
    }
  }

  ghost predicate AscendingTerms(terms: seq<string>) {
    forall i, j :: 0 <= i < j < |terms| ==> Less(terms[i], terms[j])
  }

  lemma AscendingIsAlphabetical(terms: seq<string>)
    ensures AscendingTerms(terms) <==> forall i, j :: 0 <= i < j < |terms| ==> Alphabetical(terms[i], terms[j])
  {
    hide Less, Alphabetical;
    forall i, j | 0 <= i < j < |terms|
      ensures Less(terms[i], terms[j]) <==> Alphabetical(terms[i], terms[j])
    {
      LessIff(terms[i], terms[j]);
    }
  }
}
