/** The stripe locks of a hash table. */
module Stripes {
  import opened HashEntry
  import opened HashTables

  const MAX_STRIPES: nat := 1024
  /** The slots a write may touch, from a neighborhood below its bucket. */
  const WRITE_REACH: nat := HOP_RANGE + SEARCH_END

  function CeilDiv(a: nat, b: nat): nat
    requires b > 0
  {
    (a + b - 1) / b
  }

  /** Halve the number of stripes until one covers a write's whole reach. */
  method SizeStripes(total: nat) returns (stripes: nat, per: nat)
    requires total > 0
    ensures Sized(total, stripes, per) && stripes <= MAX_STRIPES
  {
    stripes := MAX_STRIPES;
    while stripes > 1 && CeilDiv(total, stripes) < WRITE_REACH
      invariant 1 <= stripes <= MAX_STRIPES
    {
      stripes := stripes / 2;
    }
    per := CeilDiv(total, stripes);
    Ceiling(total, stripes);
  }

  /** Stripes of `per` slots cover the table, and each is as long as a write reaches, or alone. */
  ghost predicate Sized(total: nat, stripes: nat, per: nat) {
    stripes >= 1 && per >= 1 && stripes * per >= total && (stripes == 1 || per >= WRITE_REACH)
  }

  lemma Ceiling(a: nat, b: nat)
    requires a > 0 && b > 0
    ensures CeilDiv(a, b) >= 1 && b * CeilDiv(a, b) >= a
  {
    var q := CeilDiv(a, b);
    assert a + b - 1 == q * b + (a + b - 1) % b;
    assert b * q == q * b;
  }

  function Lowest(bucket: nat): nat {
    if bucket > HOP_RANGE then bucket - HOP_RANGE else 0
  }

  function Highest(bucket: nat, total: nat): nat
    requires bucket < total
  {
    (if bucket + SEARCH_END < total then bucket + SEARCH_END else total) - 1
  }

  function StripeOf(slot: nat, per: nat): nat
    requires per > 0
  {
    slot / per
  }

  /** The stripes lock_for takes, in ascending order. */
  function LocksFor(bucket: nat, total: nat, per: nat): (s: (nat, nat))
    requires bucket < total && per > 0
  {
    (StripeOf(Lowest(bucket), per), StripeOf(Highest(bucket, total), per))
  }

  lemma Smaller(x: int, y: int, d: nat)
    requires d > 0 && x * d < y * d
    ensures x < y
  {
    assert (y - x) * d > 0;
  }

  lemma DivMonotone(a: nat, b: nat, d: nat)
    requires a <= b && d > 0
    ensures a / d <= b / d
  {
    assert a / d * d <= a && b < b / d * d + d == (b / d + 1) * d;
    Smaller(a / d, b / d + 1, d);
  }

  lemma DivBelow(a: nat, d: nat, n: nat)
    requires d > 0 && a < n * d
    ensures a / d < n
  {
    assert a / d * d <= a;
    Smaller(a / d, n, d);
  }

  lemma DivStep(a: nat, b: nat, d: nat)
    requires d > 0 && a <= b < a + d
    ensures b / d <= a / d + 1
  {
    assert b / d * d <= b && a < a / d * d + d && a / d * d + d + d == (a / d + 2) * d;
    Smaller(b / d, a / d + 2, d);
  }

  /** Every write takes one stripe, or two adjacent ones in ascending order. */
  lemma AtMostTwoLocks(bucket: nat, total: nat, stripes: nat, per: nat)
    requires bucket < total && Sized(total, stripes, per)
    ensures var s := LocksFor(bucket, total, per); s.0 <= s.1 <= s.0 + 1 && s.1 < stripes
  {
    var lo, hi := Lowest(bucket), Highest(bucket, total);
    DivMonotone(lo, hi, per);
    DivBelow(hi, per, stripes);
    if stripes > 1 {
      DivStep(lo, hi, per);
    }
  }

  /** A slot a write for `bucket` can touch: its window and the neighborhood below it. */
  predicate Touches(bucket: nat, total: nat, i: nat) {
    bucket <= i + HOP_RANGE && i < bucket + SEARCH_END && i < total
  }

  lemma TouchedIsLocked(bucket: nat, total: nat, stripes: nat, per: nat, i: nat)
    requires bucket < total && Sized(total, stripes, per) && Touches(bucket, total, i)
    ensures var s := LocksFor(bucket, total, per); i / per == s.0 || i / per == s.1
  {
    AtMostTwoLocks(bucket, total, stripes, per);
    DivMonotone(Lowest(bucket), i, per);
    DivMonotone(i, Highest(bucket, total), per);
  }

  /** Two writes that can touch a common slot hold a common stripe, whatever the table's size. */
  lemma ConflictsShareALock(b1: nat, b2: nat, total: nat, stripes: nat, per: nat, i: nat)
    requires b1 < total && b2 < total && Sized(total, stripes, per)
    requires Touches(b1, total, i) && Touches(b2, total, i)
    ensures var s1, s2 := LocksFor(b1, total, per), LocksFor(b2, total, per);
            (i / per == s1.0 || i / per == s1.1) && (i / per == s2.0 || i / per == s2.1)
  {
    TouchedIsLocked(b1, total, stripes, per, i);
    TouchedIsLocked(b2, total, stripes, per, i);
  }
}
