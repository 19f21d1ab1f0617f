/** The device a reachable store leaves behind, read back by crash recovery. */
module LogDevice {
  import opened Common
  import opened Log
  import opened LogProtocol
  import opened LogTheorems
  import opened LogLayout
  import opened Recovery

  /** `recs` are the records of one segment. */
  ghost predicate RecordsOf(disk: map<Pba, Rec>, seg: nat, recs: map<nat, Rec>) {
    && (forall o :: o in recs ==> Pba(seg, o) in disk && disk[Pba(seg, o)] == recs[o])
    && (forall p :: p in disk && p.seg == seg ==> p.off in recs)
  }

  /** What one segment's grains pass for: its records where they start, and nothing outside them. */
  ghost predicate Shows(c: Config, grains: seq<Option<Rec>>, recs: map<nat, Rec>) {
    && |grains| == c.data
    && (forall o :: o in recs && o < |grains| ==> grains[o] == Some(recs[o]))
    && (forall g: nat :: g < |grains| && !Covered(recs, g) ==> grains[g].None?)
  }

  ghost predicate MdOf(s: State, images: seq<Image>) {
    |images| == |s.ts| == |s.live| &&
    forall i :: 0 <= i < |images| ==> images[i].md == if s.live[i] then Some(s.ts[i]) else None
  }

  ghost predicate RecordsOfAll(s: State, recs: seq<map<nat, Rec>>) {
    |recs| == |s.live| && forall i :: 0 <= i < |recs| && s.live[i] ==> RecordsOf(s.disk, i, recs[i])
  }

  /**
    What recovery reads of a store that lost power in `s`. Grains inside a record may look like
    anything; only recoverable segments have metadata.
   */
  ghost predicate IsImage(c: Config, s: State, images: seq<Image>, recs: seq<map<nat, Rec>>) {
    && MdOf(s, images) && RecordsOfAll(s, recs)
    && forall i :: 0 <= i < |images| && s.live[i] ==> Shows(c, images[i].grains, recs[i])
  }

  lemma LaysOut(c: Config, disk: map<Pba, Rec>, charge: map<Pba, Charge>, cursor: seq<nat>, phase: seq<Phase>,
                seg: nat, grains: seq<Option<Rec>>, recs: map<nat, Rec>)
    requires Apart(disk, charge) && Inside(c, disk, charge, cursor, phase)
    requires (forall p :: p in disk ==> disk[p].len >= 1)
    requires RecordsOf(disk, seg, recs) && Shows(c, grains, recs)
    ensures Layout(grains, recs)
  {
    forall o | o in recs ensures recs[o].len >= 1 && o + recs[o].len <= |grains| && grains[o] == Some(recs[o]) {
      assert Taken(disk, charge, Pba(seg, o));
    }
    forall o, o2 | o in recs && o2 in recs && o < o2 ensures o + recs[o].len <= o2 {
      assert Taken(disk, charge, Pba(seg, o)) && Taken(disk, charge, Pba(seg, o2));
    }
  }

  /** The image of a reachable store is one recovery can read. */
  lemma ImageIsReadable(c: Config, s: State, images: seq<Image>, recs: seq<map<nat, Rec>>)
    requires Laid(c, s) && IsImage(c, s, images, recs)
    requires Stamped(s.ts, s.live, s.phase, s.nextTs) && OnDisk(s.disk, s.live, s.phase, s.cursor)
    ensures DistinctLives(images) && Readable(c.tombLen, images, recs)
  {
    forall i | 0 <= i < |images| && images[i].md.Some? ensures Layout(images[i].grains, recs[i]) {
      LaysOut(c, s.disk, s.charge, s.cursor, s.phase, i, images[i].grains, recs[i]);
    }
    forall i, o | 0 <= i < |images| && images[i].md.Some? && o in recs[i] ensures Recoverable(c.tombLen, recs[i][o]) {
      assert Pba(i, o) in s.disk;
    }
  }

  /** What recovery found on the device is what was on it. */
  lemma SameDevice(s: State, images: seq<Image>, recs: seq<map<nat, Rec>>, disk: map<Pba, Rec>)
    requires MdOf(s, images) && RecordsOfAll(s, recs) && OnDevice(images, recs, |images|, disk)
    requires forall p :: p in s.disk ==> p.seg < |s.live| && s.live[p.seg]
    ensures disk == s.disk
  {
    forall p | p in disk ensures p in s.disk && s.disk[p] == disk[p] {
      RecordIsThere(s.disk, p, recs[p.seg]);
    }
    forall p | p in s.disk ensures p in disk {
      RecordIsListed(s.disk, p, recs[p.seg]);
      assert p == Pba(p.seg, p.off);
    }
  }

  lemma RecordIsThere(disk: map<Pba, Rec>, p: Pba, recs: map<nat, Rec>)
    requires RecordsOf(disk, p.seg, recs) && p.off in recs
    ensures p in disk && disk[p] == recs[p.off]
  {
    assert p == Pba(p.seg, p.off);
  }

  lemma RecordIsListed(disk: map<Pba, Rec>, p: Pba, recs: map<nat, Rec>)
    requires RecordsOf(disk, p.seg, recs) && p in disk
    ensures p.off in recs
  {
  }

  /** Timestamps of segments without records do not matter. */
  lemma SameNewest(ts: seq<nat>, ts': seq<nat>, disk: map<Pba, Rec>, index: set<Pba>)
    requires NewestOfEach(ts, disk, index) && forall p :: p in disk ==> TsOf(ts, p.seg) == TsOf(ts', p.seg)
    ensures NewestOfEach(ts', disk, index)
  {
    forall p, q | p in disk && q in index && disk[p].key == disk[q].key ensures AtLeast(ts', q, p) {
      assert AtLeast(ts, q, p);
    }
  }

  lemma SameMax(ts: seq<nat>, ts': seq<nat>, live: seq<bool>, maxTs: nat)
    requires IsMaxTs(ts, live, maxTs) && |ts| == |ts'| == |live|
    requires forall i :: 0 <= i < |ts| && live[i] ==> ts[i] == ts'[i]
    ensures IsMaxTs(ts', live, maxTs)
  {
    if maxTs != 0 {
      var i :| 0 <= i < |ts| && live[i] && ts[i] == maxTs;
      assert live[i] && ts'[i] == maxTs;
    }
  }

  lemma SameOrder(s: State, images: seq<Image>, ts: seq<nat>, live: seq<bool>, index: set<Pba>, maxTs: nat)
    requires MdOf(s, images) && MdRead(images, |images|, ts, live)
    requires forall p :: p in s.disk ==> p.seg < |s.live| && s.live[p.seg]
    requires NewestOfEach(ts, s.disk, index) && IsMaxTs(ts, live, maxTs)
    ensures CanCrash(s, index, maxTs)
  {
    assert live == s.live;
    SameNewest(ts, s.ts, s.disk, index);
    SameMax(ts, s.ts, live, maxTs);
  }

  /** Recovery of a reachable store's device builds exactly the directory, counts and timestamp of its crash step. */
  method RecoverDevice(c: Config, ghost s: State, images: seq<Image>, ghost recs: seq<map<nat, Rec>>, maxCapacity: nat)
    returns (opens: bool, entries: map<Key, Entry>, valid: seq<nat>, maxTs: nat)
    requires Inv(c, s) && Laid(c, s) && IsImage(c, s, images, recs)
    ensures CanCrash(s, IndexSet(entries), maxTs)
    ensures |valid| == |s.ts|
    ensures forall i :: 0 <= i < |valid| ==> Recovered(c, s, IndexSet(entries), maxTs).valid[i] == valid[i]
  {
    ImageIsReadable(c, s, images, recs);
    ghost var disk;
    var ts, live;
    opens, entries, valid, maxTs, ts, live, disk := CrashRecovery(c.tombLen, images, recs, maxCapacity);
    SameDevice(s, images, recs, disk);
    SameOrder(s, images, ts, live, IndexSet(entries), maxTs);
  }

  /** A crash has one outcome: the one recovery computes. */
  lemma CrashIsDetermined(c: Config, s: State, a: set<Pba>, m: nat, b: set<Pba>, n: nat)
    requires Inv(c, s) && CanCrash(s, a, m) && CanCrash(s, b, n)
    ensures a == b && m == n
  {
    RecoveryIsDetermined(s.ts, s.live, s.disk, a, b);
  }
}
