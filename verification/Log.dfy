/** The log: physical addresses, records, and the order crash recovery uses. */
module Log {

  type Key(==, !new)
  type Val(==, !new)

  /** A physical block address: a segment and a grain inside it. */
  datatype Pba = Pba(seg: nat, off: nat)

  /** A valid record of a segment life; `len` is its size in grains. */
  datatype Rec = Rec(key: Key, tomb: bool, val: Val, len: nat)

  function TsOf(ts: seq<nat>, seg: nat): nat {
    if seg < |ts| then ts[seg] else 0
  }

  /** Data at `p` is newer than data at `q`: segment timestamp, then grain. */
  predicate Newer(ts: seq<nat>, p: Pba, q: Pba) {
    if p.seg != q.seg then TsOf(ts, q.seg) < TsOf(ts, p.seg) else q.off < p.off
  }

  predicate AtLeast(ts: seq<nat>, p: Pba, q: Pba) {
    p == q || Newer(ts, p, q)
  }

  /** Segments of distinct timestamps: what makes `Newer` a total order on their records. */
  ghost predicate DistinctTs(ts: seq<nat>, live: seq<bool>) {
    |live| == |ts| &&
    forall i, j :: 0 <= i < |ts| && 0 <= j < |ts| && i != j && live[i] && live[j] ==> ts[i] != ts[j]
  }

  ghost predicate Has(disk: map<Pba, Rec>, index: set<Pba>, k: Key) {
    exists q :: q in index && q in disk && disk[q].key == k
  }

  /** `index` holds, for every key with a record in `disk`, its newest record and nothing else. */
  ghost predicate NewestOfEach(ts: seq<nat>, disk: map<Pba, Rec>, index: set<Pba>) {
    && index <= disk.Keys
    && (forall p :: p in disk ==> Has(disk, index, disk[p].key))
    && (forall p, q :: p in disk && q in index && disk[p].key == disk[q].key ==> AtLeast(ts, q, p))
  }

  lemma NewerTransitive(ts: seq<nat>, p: Pba, q: Pba, r: Pba)
    requires AtLeast(ts, p, q) && AtLeast(ts, q, r)
    ensures AtLeast(ts, p, r)
  {
  }

  lemma NewerTotal(ts: seq<nat>, live: seq<bool>, p: Pba, q: Pba)
    requires DistinctTs(ts, live)
    requires p.seg < |ts| && q.seg < |ts| && live[p.seg] && live[q.seg]
    ensures AtLeast(ts, p, q) || AtLeast(ts, q, p)
    ensures p != q ==> !(Newer(ts, p, q) && Newer(ts, q, p))
  {
  }
}
