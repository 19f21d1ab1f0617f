/** The valid counts a restored index starts from: the grains of the records its entries point to. */
module RestoreCounts {
  import opened Common
  import opened Log
  import opened LogProtocol
  import opened LogProofs
  import opened LogLayout
  import opened Recovery

  /** An entry's grains: its size, or for a deleted one those of the tombstone its address should hold. */
  function Grains(tombs: map<Pba, nat>, e: Entry): Option<nat> {
    if e.kv > 0 then Some(e.kv) else if e.pba in tombs then Some(tombs[e.pba]) else None
  }

  /** The entry points into a data segment, at a record that ends before the metadata. */
  predicate Accountable(data: nat, live: seq<bool>, tombs: map<Pba, nat>, e: Entry) {
    && e.pba.seg < |live| && live[e.pba.seg]
    && Grains(tombs, e).Some? && e.pba.off + Grains(tombs, e).value <= data
  }

  /** The grains of the entries that lie in segment `i`. */
  function GrainsIn(tombs: map<Pba, nat>, entries: seq<Entry>, i: nat): nat {
    if entries == [] then 0
    else
      var e := entries[|entries| - 1];
      GrainsIn(tombs, entries[..|entries| - 1], i) +
      if e.pba.seg == i && Grains(tombs, e).Some? then Grains(tombs, e).value else 0
  }

  /** Add up the entries of the restored tables; one that cannot be accounted for spoils the index. */
  method CountGrains(data: nat, live: seq<bool>, tombs: map<Pba, nat>, entries: seq<Entry>)
    returns (ok: bool, valid: seq<nat>)
    ensures ok <==> forall e :: e in entries ==> Accountable(data, live, tombs, e)
    ensures ok ==> |valid| == |live| && forall i :: 0 <= i < |valid| ==> valid[i] == GrainsIn(tombs, entries, i)
  {
    valid := seq(|live|, _ => 0);
    for k := 0 to |entries|
      invariant |valid| == |live|
      invariant forall e :: e in entries[..k] ==> Accountable(data, live, tombs, e)
      invariant forall i :: 0 <= i < |valid| ==> valid[i] == GrainsIn(tombs, entries[..k], i)
    {
      var e := entries[k];
      assert e in entries;
      if !Accountable(data, live, tombs, e) {
        return false, valid;
      }
      assert entries[..k + 1] == entries[..k] + [e];
      assert entries[..k + 1][..k] == entries[..k];
      valid := valid[e.pba.seg := valid[e.pba.seg] + Grains(tombs, e).value];
    }
    assert entries[..|entries|] == entries;
    ok := true;
  }

  /** The tables hold one entry for each location of the directory, as a commit leaves it. */
  ghost predicate EntriesOf(disk: map<Pba, Rec>, index: set<Pba>, entries: seq<Entry>) {
    && (forall p :: p in index <==> exists k :: 0 <= k < |entries| && entries[k].pba == p)
    && (forall a, b :: 0 <= a < b < |entries| ==> entries[a].pba != entries[b].pba)
    && (forall k :: 0 <= k < |entries| ==> entries[k].pba in disk && entries[k].kv == Kv(disk[entries[k].pba]))
  }

  /** The tombstones read back from the device. */
  ghost predicate TombsOf(disk: map<Pba, Rec>, tombs: map<Pba, nat>) {
    forall p :: p in disk && disk[p].tomb ==> p in tombs && tombs[p] == disk[p].len
  }

  ghost function Points(entries: seq<Entry>, n: nat): set<Pba>
    requires n <= |entries|
  {
    set k | 0 <= k < n :: entries[k].pba
  }

  lemma OneMorePoint(entries: seq<Entry>, n: nat)
    requires 0 < n <= |entries|
    requires forall a, b :: 0 <= a < b < |entries| ==> entries[a].pba != entries[b].pba
    ensures Points(entries, n) == Points(entries, n - 1) + {entries[n - 1].pba}
    ensures entries[n - 1].pba !in Points(entries, n - 1)
  {
  }

  lemma OneMoreCharge(disk: map<Pba, Rec>, index: set<Pba>, p: Pba, i: nat)
    requires p !in index && p in disk
    ensures SumIn(LedgerOf(disk, index + {p}), i) ==
            SumIn(LedgerOf(disk, index), i) + if p.seg == i then disk[p].len else 0
  {
    var ledger, ch := LedgerOf(disk, index), Charge(disk[p].len, Indexed);
    assert LedgerOf(disk, index + {p}) == ledger[p := ch];
    SumAdd(ledger, p, ch, i);
  }

  lemma OneMoreGrains(disk: map<Pba, Rec>, tombs: map<Pba, nat>, entries: seq<Entry>, n: nat, i: nat)
    requires 0 < n <= |entries| && TombsOf(disk, tombs)
    requires var e := entries[n - 1]; e.pba in disk && e.kv == Kv(disk[e.pba]) && disk[e.pba].len >= 1
    ensures GrainsIn(tombs, entries[..n], i) == GrainsIn(tombs, entries[..n - 1], i) +
            if entries[n - 1].pba.seg == i then disk[entries[n - 1].pba].len else 0
  {
    assert entries[..n][..n - 1] == entries[..n - 1];
  }

  lemma {:induction false} GrainsAreLedger(disk: map<Pba, Rec>, tombs: map<Pba, nat>, entries: seq<Entry>,
                                           n: nat, i: nat)
    requires n <= |entries| && TombsOf(disk, tombs)
    requires forall a, b :: 0 <= a < b < |entries| ==> entries[a].pba != entries[b].pba
    requires forall k :: 0 <= k < |entries| ==>
               entries[k].pba in disk && entries[k].kv == Kv(disk[entries[k].pba]) && disk[entries[k].pba].len >= 1
    ensures GrainsIn(tombs, entries[..n], i) == SumIn(LedgerOf(disk, Points(entries, n)), i)
  {
    if n == 0 {
      assert LedgerOf(disk, Points(entries, 0)) == map[];
    } else {
      GrainsAreLedger(disk, tombs, entries, n - 1, i);
      OneMoreGrains(disk, tombs, entries, n, i);
      OneMorePoint(entries, n);
      OneMoreCharge(disk, Points(entries, n - 1), entries[n - 1].pba, i);
    }
  }

  /** The index a reachable store closed with can be accounted for, and gives the counts it is reopened with. */
  lemma RestoredCounts(c: Config, s: State, tables: set<nat>, maxTs: nat, tombs: map<Pba, nat>, entries: seq<Entry>)
    requires Inv(c, s) && Laid(c, s) && EntriesOf(s.disk, s.index, entries) && TombsOf(s.disk, tombs)
    ensures forall e :: e in entries ==> Accountable(c.data, s.live, tombs, e)
    ensures forall i :: 0 <= i < |s.ts| ==>
              Reopened(c, s, tables, maxTs).valid[i] == GrainsIn(tombs, entries, i)
  {
    AllAccountable(c, s, tombs, entries);
    assert entries[..|entries|] == entries;
    assert Points(entries, |entries|) == s.index;
    forall i | 0 <= i < |s.ts| ensures SumIn(LedgerOf(s.disk, s.index), i) == GrainsIn(tombs, entries, i) {
      GrainsAreLedger(s.disk, tombs, entries, |entries|, i);
    }
  }

  lemma AllAccountable(c: Config, s: State, tombs: map<Pba, nat>, entries: seq<Entry>)
    requires EntriesOf(s.disk, s.index, entries) && TombsOf(s.disk, tombs)
    requires OnDisk(s.disk, s.live, s.phase, s.cursor) && Inside(c, s.disk, s.charge, s.cursor, s.phase)
    ensures forall e :: e in entries ==> Accountable(c.data, s.live, tombs, e)
  {
    forall e | e in entries ensures Accountable(c.data, s.live, tombs, e) {
      assert Taken(s.disk, s.charge, e.pba);
    }
  }
}
