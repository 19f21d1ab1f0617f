/** Record versions as the store packs them into 64 bits. */
module Versions {
  import opened Common

  /** The 64-bit word of all ones stands for any version. */
  function AnyVersion(): nat {
    Pow2(64) - 1
  }

  /** std::bit_width: the bits it takes to write `n`. */
  function BitWidth(n: nat): (b: nat)
    ensures n < Pow2(b) && (n > 0 ==> b > 0 && Pow2(b - 1) <= n)
  {
    if n == 0 then 0 else BitWidth(n / 2) + 1
  }

  /** Timestamp shifted past the offset's bits; the offset is below them, so `|` is addition. */
  function Packed(segSize: nat, ts: nat, off: nat): nat {
    ts * Pow2(BitWidth(segSize)) + off
  }

  /** Versions order as (timestamp, grain) pairs do, so no two pairs share one. */
  lemma PackedOrders(segSize: nat, ts: nat, off: nat, ts': nat, off': nat)
    requires off < segSize && off' < segSize
    ensures Packed(segSize, ts, off) < Packed(segSize, ts', off') <==> ts < ts' || (ts == ts' && off < off')
    ensures Packed(segSize, ts, off) == Packed(segSize, ts', off') <==> ts == ts' && off == off'
  {
    var p := Pow2(BitWidth(segSize));
    if ts < ts' {
      NextMultiple(ts, ts', p);
    } else if ts' < ts {
      NextMultiple(ts', ts, p);
    }
  }

  /** While timestamps leave room, a version fits 64 bits and is never the one for "any". */
  lemma PackedIsAVersion(segSize: nat, ts: nat, off: nat)
    requires off < segSize && BitWidth(segSize) <= 64 && ts + 1 < Pow2(64 - BitWidth(segSize))
    ensures Packed(segSize, ts, off) < AnyVersion()
  {
    var b := BitWidth(segSize);
    Pow2Sum(b, 64 - b);
    BelowProduct(ts, off, Pow2(b), Pow2(64 - b));
  }

  lemma BelowProduct(ts: nat, off: nat, p: nat, q: nat)
    requires off < p && ts + 1 < q
    ensures ts * p + off + 1 < p * q
  {
    NextMultiple(ts, ts + 1, p);
    NextMultiple(ts + 1, q, p);
  }

  lemma TwiceProduct(x: nat, y: nat)
    ensures 2 * x * y == 2 * (x * y)
  {
  }

  lemma {:induction false} Pow2Sum(a: nat, b: nat)
    ensures Pow2(a) * Pow2(b) == Pow2(a + b)
  {
    if a > 0 {
      Pow2Sum(a - 1, b);
      TwiceProduct(Pow2(a - 1), Pow2(b));
      assert Pow2(a + b) == 2 * Pow2(a - 1 + b);
    }
  }
}
