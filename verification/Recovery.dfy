/** Crash recovery: walking the segments of the log and indexing the newest record of each key. */
module Recovery {
  import opened Common
  import opened Log
  import opened LogProtocol
  import opened LogProofs

  /**
    A segment as recovery reads it. `md` is the timestamp of its data metadata, if it has valid
    ones; `grains[g]` the record that the header and checksum found at grain `g` describe, if
    they pass as a record of this life.
   */
  datatype Image = Image(md: Option<nat>, grains: seq<Option<Rec>>)

  /** The records a segment life really holds: disjoint, and nothing else passes outside them. */
  ghost predicate Layout(grains: seq<Option<Rec>>, recs: map<nat, Rec>) {
    && (forall o :: o in recs ==>
          recs[o].len >= 1 && o + recs[o].len <= |grains| && grains[o] == Some(recs[o]))
    && (forall o, o2 :: o in recs && o2 in recs && o < o2 ==> o + recs[o].len <= o2)
    && (forall g: nat :: g < |grains| && !Covered(recs, g) ==>
          grains[g].None? || grains[g].value.len == 0 || g + grains[g].value.len > |grains|)
  }

  /** Grain `g` lies inside a record; what it looks like there is up to the record's bytes. */
  ghost predicate Covered(recs: map<nat, Rec>, g: nat) {
    exists o :: o in recs && o <= g < o + recs[o].len
  }

  /** No record crosses from below `g` to above it. */
  ghost predicate Boundary(recs: map<nat, Rec>, g: nat) {
    forall o :: o in recs && o < g ==> o + recs[o].len <= g
  }

  /** `seen'` is `seen` and the segment's records that start below `g`. */
  ghost predicate Walked(seen: map<Pba, Rec>, seen': map<Pba, Rec>, seg: nat, recs: map<nat, Rec>, g: nat) {
    && (forall p :: p in seen ==> p in seen' && seen'[p] == seen[p])
    && (forall p :: p in seen' && p !in seen ==> p.seg == seg && p.off in recs && p.off < g && seen'[p] == recs[p.off])
    && (forall o :: o in recs && o < g ==> Pba(seg, o) in seen')
  }

  /** A record starts at a boundary exactly when the grain there passes for one that fits. */
  lemma BoundaryDecides(grains: seq<Option<Rec>>, recs: map<nat, Rec>, g: nat)
    requires Layout(grains, recs) && Boundary(recs, g) && g < |grains|
    ensures g in recs <==> grains[g].Some? && grains[g].value.len >= 1 && g + grains[g].value.len <= |grains|
    ensures g in recs ==> grains[g].value == recs[g] && Boundary(recs, g + recs[g].len)
    ensures g !in recs ==> Boundary(recs, g + 1)
  {
    StartsOrBare(recs, g);
    BoundaryMoves(grains, recs, g);
  }

  lemma BoundaryMoves(grains: seq<Option<Rec>>, recs: map<nat, Rec>, g: nat)
    requires Layout(grains, recs) && Boundary(recs, g) && g < |grains|
    ensures Boundary(recs, if g in recs then g + recs[g].len else g + 1)
  {
  }

  /** At a boundary a record starts, or no record lies. */
  lemma StartsOrBare(recs: map<nat, Rec>, g: nat)
    requires Boundary(recs, g)
    ensures g !in recs ==> !Covered(recs, g)
  {
  }

  /** A directory entry; `kv` is 0 for a deleted key, whose tombstone is at `pba`. */
  datatype Entry = Entry(pba: Pba, kv: nat)

  ghost function IndexSet(entries: map<Key, Entry>): set<Pba> {
    set k | k in entries :: entries[k].pba
  }

  ghost predicate IsNewest(ts: seq<nat>, seen: map<Pba, Rec>, entries: map<Key, Entry>) {
    && (forall k :: k in entries ==>
          var e := entries[k];
          e.pba in seen && seen[e.pba].key == k && e.kv == (if seen[e.pba].tomb then 0 else seen[e.pba].len))
    && (forall p :: p in seen ==> seen[p].key in entries && AtLeast(ts, entries[seen[p].key].pba, p))
  }

  ghost predicate Tallied(ledger: map<Pba, Charge>, valid: seq<nat>) {
    forall i :: 0 <= i < |valid| ==> valid[i] == SumIn(ledger, i)
  }

  /** Records are non-empty, and a tombstone is as long as its key makes it. */
  ghost predicate WellSized(tombLen: Key -> nat, seen: map<Pba, Rec>, n: nat) {
    forall p :: p in seen ==>
      p.seg < n && seen[p].len >= 1 && (seen[p].tomb ==> seen[p].len == tombLen(seen[p].key))
  }

  ghost predicate Alive(live: seq<bool>, seen: map<Pba, Rec>) {
    forall p :: p in seen ==> p.seg < |live| && live[p.seg]
  }

  /** The ledger of exactly the records the directory points to. */
  ghost predicate IsLedger(seen: map<Pba, Rec>, entries: map<Key, Entry>, ledger: map<Pba, Charge>) {
    && (forall p :: p in ledger ==> p in seen && seen[p].key in entries && entries[seen[p].key].pba == p)
    && (forall p :: p in seen && seen[p].key in entries && entries[seen[p].key].pba == p ==>
          p in ledger && ledger[p] == Charge(seen[p].len, Indexed))
  }

  lemma LedgerIsLedgerOf(ts: seq<nat>, seen: map<Pba, Rec>, entries: map<Key, Entry>, ledger: map<Pba, Charge>)
    requires IsNewest(ts, seen, entries) && IsLedger(seen, entries, ledger)
    ensures ledger == LedgerOf(seen, IndexSet(entries))
  {
    forall p | p in ledger ensures p in IndexSet(entries) {
      assert entries[seen[p].key].pba == p;
    }
  }

  lemma NewestIsIndex(ts: seq<nat>, seen: map<Pba, Rec>, entries: map<Key, Entry>)
    requires IsNewest(ts, seen, entries)
    ensures NewestOfEach(ts, seen, IndexSet(entries))
  {
    forall p | p in seen ensures Has(seen, IndexSet(entries), seen[p].key) {
      assert entries[seen[p].key].pba in IndexSet(entries);
    }
  }

  lemma LedgerAdd(seen: map<Pba, Rec>, entries: map<Key, Entry>, ledger: map<Pba, Charge>, p: Pba, r: Rec)
    requires p !in seen && r.key !in entries && IsLedger(seen, entries, ledger)
    ensures IsLedger(seen[p := r], entries[r.key := Entry(p, Kv(r))], ledger[p := Charge(r.len, Indexed)])
    ensures p !in ledger
  {
  }

  lemma LedgerReplace(seen: map<Pba, Rec>, entries: map<Key, Entry>, ledger: map<Pba, Charge>, p: Pba, r: Rec)
    requires p !in seen && r.key in entries && IsLedger(seen, entries, ledger)
    requires forall k :: k in entries ==> entries[k].pba in seen && seen[entries[k].pba].key == k
    ensures IsLedger(seen[p := r], entries[r.key := Entry(p, Kv(r))],
                     (ledger - {entries[r.key].pba})[p := Charge(r.len, Indexed)])
    ensures p !in ledger
  {
  }

  lemma LedgerSame(seen: map<Pba, Rec>, entries: map<Key, Entry>, ledger: map<Pba, Charge>, p: Pba, r: Rec)
    requires p !in seen && IsLedger(seen, entries, ledger) && r.key in entries && entries[r.key].pba != p
    ensures IsLedger(seen[p := r], entries, ledger)
  {
  }

  /** The directory rebuilt so far indexes the newest record of each key met, and the tallies agree. */
  ghost predicate Rebuilt(tombLen: Key -> nat, ts: seq<nat>, live: seq<bool>, seen: map<Pba, Rec>,
                          entries: map<Key, Entry>, ledger: map<Pba, Charge>, valid: seq<nat>)
  {
    && |live| == |ts| == |valid| && DistinctTs(ts, live)
    && WellSized(tombLen, seen, |ts|)
    && Alive(live, seen)
    && IsNewest(ts, seen, entries)
    && IsLedger(seen, entries, ledger) && Tallied(ledger, valid)
  }

  predicate Recoverable(tombLen: Key -> nat, r: Rec) {
    r.len >= 1 && (r.tomb ==> r.len == tombLen(r.key))
  }

  function Kv(r: Rec): nat {
    if r.tomb then 0 else r.len
  }

  lemma FirstRecord(tombLen: Key -> nat, ts: seq<nat>, live: seq<bool>, seen: map<Pba, Rec>,
                    entries: map<Key, Entry>, ledger: map<Pba, Charge>, valid: seq<nat>, p: Pba, r: Rec)
    requires Rebuilt(tombLen, ts, live, seen, entries, ledger, valid)
    requires p !in seen && p.seg < |ts| && live[p.seg] && Recoverable(tombLen, r) && r.key !in entries
    ensures Rebuilt(tombLen, ts, live, seen[p := r], entries[r.key := Entry(p, Kv(r))],
                    ledger[p := Charge(r.len, Indexed)], valid[p.seg := valid[p.seg] + r.len])
  {
    LedgerAdd(seen, entries, ledger, p, r);
    TallyAdd(ledger, p, r.len, valid);
    Begins(ts, seen, entries, p, r);
    SizesGrow(tombLen, seen, live, p, r);
  }

  lemma SizesGrow(tombLen: Key -> nat, seen: map<Pba, Rec>, live: seq<bool>, p: Pba, r: Rec)
    requires WellSized(tombLen, seen, |live|) && Alive(live, seen)
    requires p.seg < |live| && live[p.seg] && Recoverable(tombLen, r)
    ensures WellSized(tombLen, seen[p := r], |live|) && Alive(live, seen[p := r])
  {
  }

  lemma OlderRecord(tombLen: Key -> nat, ts: seq<nat>, live: seq<bool>, seen: map<Pba, Rec>,
                    entries: map<Key, Entry>, ledger: map<Pba, Charge>, valid: seq<nat>, p: Pba, r: Rec)
    requires Rebuilt(tombLen, ts, live, seen, entries, ledger, valid)
    requires p !in seen && p.seg < |ts| && live[p.seg] && Recoverable(tombLen, r)
    requires r.key in entries && !Newer(ts, p, entries[r.key].pba)
    ensures Rebuilt(tombLen, ts, live, seen[p := r], entries, ledger, valid)
  {
    LedgerSame(seen, entries, ledger, p, r);
    NewerTotal(ts, live, p, entries[r.key].pba);
  }

  /** The replaced record's grains as the store computes them: its entry's size, or its key's tombstone. */
  function MatchGrains(tombLen: Key -> nat, k: Key, e: Entry): nat {
    if e.kv == 0 then tombLen(k) else e.kv
  }

  lemma ReplacedIsTallied(tombLen: Key -> nat, ts: seq<nat>, live: seq<bool>, seen: map<Pba, Rec>,
                          entries: map<Key, Entry>, ledger: map<Pba, Charge>, valid: seq<nat>, k: Key)
    requires Rebuilt(tombLen, ts, live, seen, entries, ledger, valid) && k in entries
    ensures var m := entries[k];
            && m.pba.seg < |valid| && valid[m.pba.seg] >= MatchGrains(tombLen, k, m)
            && Tallied(ledger - {m.pba}, valid[m.pba.seg := valid[m.pba.seg] - MatchGrains(tombLen, k, m)])
  {
    var m := entries[k];
    assert m.pba in ledger && ledger[m.pba].len == MatchGrains(tombLen, k, m);
    TallyRemove(ledger, m.pba, valid);
  }

  lemma NewerRecord(tombLen: Key -> nat, ts: seq<nat>, live: seq<bool>, seen: map<Pba, Rec>,
                    entries: map<Key, Entry>, ledger: map<Pba, Charge>, valid: seq<nat>, less: seq<nat>, p: Pba, r: Rec)
    requires Rebuilt(tombLen, ts, live, seen, entries, ledger, valid)
    requires p !in seen && p.seg < |ts| && live[p.seg] && Recoverable(tombLen, r)
    requires r.key in entries && Newer(ts, p, entries[r.key].pba)
    requires |less| == |valid| && Tallied(ledger - {entries[r.key].pba}, less)
    ensures Rebuilt(tombLen, ts, live, seen[p := r], entries[r.key := Entry(p, Kv(r))],
                    (ledger - {entries[r.key].pba})[p := Charge(r.len, Indexed)], less[p.seg := less[p.seg] + r.len])
  {
    var m := entries[r.key].pba;
    LedgerReplace(seen, entries, ledger, p, r);
    TallyAdd(ledger - {m}, p, r.len, less);
    Overtakes(ts, seen, entries, p, r);
    SizesGrow(tombLen, seen, live, p, r);
  }

  /** The tallies once the record at `m` no longer counts and one of `len` grains in `seg` does. */
  function Moved(valid: seq<nat>, m: Pba, grains: nat, seg: nat, len: nat): (r: seq<nat>)
    requires m.seg < |valid| && grains <= valid[m.seg] && seg < |valid|
    ensures |r| == |valid|
  {
    var less: seq<nat> := valid[m.seg := valid[m.seg] - grains];
    less[seg := less[seg] + len]
  }

  lemma UpdateRebuilds(tombLen: Key -> nat, ts: seq<nat>, live: seq<bool>, seen: map<Pba, Rec>,
                       entries: map<Key, Entry>, ledger: map<Pba, Charge>, valid: seq<nat>, p: Pba, r: Rec)
    requires Rebuilt(tombLen, ts, live, seen, entries, ledger, valid)
    requires p !in seen && p.seg < |ts| && live[p.seg] && Recoverable(tombLen, r)
    requires r.key in entries && Newer(ts, p, entries[r.key].pba)
    ensures var m := entries[r.key];
            && m.pba.seg < |valid| && MatchGrains(tombLen, r.key, m) <= valid[m.pba.seg]
            && Rebuilt(tombLen, ts, live, seen[p := r], entries[r.key := Entry(p, Kv(r))],
                       (ledger - {m.pba})[p := Charge(r.len, Indexed)],
                       Moved(valid, m.pba, MatchGrains(tombLen, r.key, m), p.seg, r.len))
  {
    var m := entries[r.key];
    ReplacedIsTallied(tombLen, ts, live, seen, entries, ledger, valid, r.key);
    NewerRecord(tombLen, ts, live, seen, entries, ledger, valid,
                valid[m.pba.seg := valid[m.pba.seg] - MatchGrains(tombLen, r.key, m)], p, r);
  }

  /** The directory once the record at `p` was met: it becomes its key's entry unless that is newer. */
  function WithRecord(ts: seq<nat>, entries: map<Key, Entry>, p: Pba, r: Rec): map<Key, Entry> {
    if r.key !in entries || Newer(ts, p, entries[r.key].pba) then entries[r.key := Entry(p, Kv(r))] else entries
  }

  /**
    Index one record found in the log: the newer of two records of a key wins, and the tallies
    of valid grains follow. `seen` is the log read so far, `ledger` what the directory is charged.
   */
  method RecoverRecord(tombLen: Key -> nat, ts: seq<nat>, ghost live: seq<bool>, entries: map<Key, Entry>,
                       valid: seq<nat>, p: Pba, r: Rec, ghost seen: map<Pba, Rec>, ghost ledger: map<Pba, Charge>)
    returns (updated: map<Key, Entry>, tally: seq<nat>, ghost books: map<Pba, Charge>)
    requires Rebuilt(tombLen, ts, live, seen, entries, ledger, valid)
    requires p !in seen && p.seg < |ts| && live[p.seg] && Recoverable(tombLen, r)
    ensures Rebuilt(tombLen, ts, live, seen[p := r], updated, books, tally)
    ensures updated == WithRecord(ts, entries, p, r)
  {
    if r.key !in entries {
      FirstRecord(tombLen, ts, live, seen, entries, ledger, valid, p, r);
      updated := entries[r.key := Entry(p, Kv(r))];
      tally := valid[p.seg := valid[p.seg] + r.len];
      books := ledger[p := Charge(r.len, Indexed)];
    } else if Newer(ts, p, entries[r.key].pba) {
      var m := entries[r.key];
      UpdateRebuilds(tombLen, ts, live, seen, entries, ledger, valid, p, r);
      updated := entries[r.key := Entry(p, Kv(r))];
      tally := Moved(valid, m.pba, MatchGrains(tombLen, r.key, m), p.seg, r.len);
      books := (ledger - {m.pba})[p := Charge(r.len, Indexed)];
    } else {
      OlderRecord(tombLen, ts, live, seen, entries, ledger, valid, p, r);
      updated, tally, books := entries, valid, ledger;
    }
  }

  /** Walk one segment, indexing each of its records, and those alone. */
  method RecoverSegment(tombLen: Key -> nat, ts: seq<nat>, ghost live: seq<bool>, entries: map<Key, Entry>,
                        valid: seq<nat>, seg: nat, grains: seq<Option<Rec>>, ghost recs: map<nat, Rec>,
                        ghost seen: map<Pba, Rec>, ghost ledger: map<Pba, Charge>)
    returns (updated: map<Key, Entry>, tally: seq<nat>, ghost walked: map<Pba, Rec>, ghost books: map<Pba, Charge>)
    requires Rebuilt(tombLen, ts, live, seen, entries, ledger, valid)
    requires seg < |ts| && live[seg] && Layout(grains, recs)
    requires forall p :: p in seen ==> p.seg != seg
    requires forall o :: o in recs ==> Recoverable(tombLen, recs[o])
    ensures Rebuilt(tombLen, ts, live, walked, updated, books, tally)
    ensures Walked(seen, walked, seg, recs, |grains|)
  {
    updated, tally, walked, books := entries, valid, seen, ledger;
    var grain := 0;
    while grain < |grains|
      invariant 0 <= grain <= |grains| && Boundary(recs, grain)
      invariant Walked(seen, walked, seg, recs, grain)
      invariant Rebuilt(tombLen, ts, live, walked, updated, books, tally)
      decreases |grains| - grain
    {
      BoundaryDecides(grains, recs, grain);
      if grains[grain].None? || grains[grain].value.len == 0 || grain + grains[grain].value.len > |grains| {
        WalkSkips(seen, walked, seg, recs, grain);
        grain := grain + 1;
      } else {
        var r := grains[grain].value;
        WalkTakes(seen, walked, seg, recs, grain);
        updated, tally, books :=
          RecoverRecord(tombLen, ts, live, updated, tally, Pba(seg, grain), r, walked, books);
        walked := walked[Pba(seg, grain) := r];
        grain := grain + r.len;
      }
    }
  }

  lemma WalkSkips(seen: map<Pba, Rec>, seen': map<Pba, Rec>, seg: nat, recs: map<nat, Rec>, g: nat)
    requires Walked(seen, seen', seg, recs, g) && g !in recs
    ensures Walked(seen, seen', seg, recs, g + 1)
  {
  }

  lemma WalkTakes(seen: map<Pba, Rec>, seen': map<Pba, Rec>, seg: nat, recs: map<nat, Rec>, g: nat)
    requires Walked(seen, seen', seg, recs, g) && g in recs && recs[g].len >= 1
    requires forall o, o2 :: o in recs && o2 in recs && o < o2 ==> o + recs[o].len <= o2
    requires forall p :: p in seen ==> p.seg != seg
    ensures Pba(seg, g) !in seen'
    ensures Walked(seen, seen'[Pba(seg, g) := recs[g]], seg, recs, g + recs[g].len)
  {
  }

  lemma Restamped(tombLen: Key -> nat, ts: seq<nat>, live: seq<bool>, seen: map<Pba, Rec>,
                  entries: map<Key, Entry>, ledger: map<Pba, Charge>, valid: seq<nat>, seg: nat, t: nat)
    requires Rebuilt(tombLen, ts, live, seen, entries, ledger, valid)
    requires seg < |ts| && !live[seg] && forall i :: 0 <= i < |ts| && live[i] ==> ts[i] != t
    ensures Rebuilt(tombLen, ts[seg := t], live[seg := true], seen, entries, ledger, valid)
  {
  }

  lemma MaxGrows(ts: seq<nat>, live: seq<bool>, maxTs: nat, seg: nat, t: nat)
    requires IsMaxTs(ts, live, maxTs) && seg < |ts| == |live| && !live[seg]
    ensures IsMaxTs(ts[seg := t], live[seg := true], if t > maxTs then t else maxTs)
  {
    var ts', live' := ts[seg := t], live[seg := true];
    assert live'[seg] && ts'[seg] == t;
    if t <= maxTs && maxTs != 0 {
      var i :| 0 <= i < |ts| && live[i] && ts[i] == maxTs;
      assert live'[i] && ts'[i] == maxTs;
    }
  }

  lemma TallyAdd(ledger: map<Pba, Charge>, p: Pba, len: nat, valid: seq<nat>)
    requires p !in ledger && p.seg < |valid| && Tallied(ledger, valid)
    ensures Tallied(ledger[p := Charge(len, Indexed)], valid[p.seg := valid[p.seg] + len])
  {
    var valid' := valid[p.seg := valid[p.seg] + len];
    forall i | 0 <= i < |valid'| ensures valid'[i] == SumIn(ledger[p := Charge(len, Indexed)], i) {
      SumAdd(ledger, p, Charge(len, Indexed), i);
    }
  }

  /** The count a replaced record is taken from covers it: the tally cannot underflow. */
  lemma TallyRemove(ledger: map<Pba, Charge>, p: Pba, valid: seq<nat>)
    requires p in ledger && p.seg < |valid| && Tallied(ledger, valid)
    ensures valid[p.seg] >= ledger[p].len
    ensures Tallied(ledger - {p}, valid[p.seg := valid[p.seg] - ledger[p].len])
  {
    SumRemove(ledger, p, p.seg);
    var valid' := valid[p.seg := valid[p.seg] - ledger[p].len];
    forall i | 0 <= i < |valid'| ensures valid'[i] == SumIn(ledger - {p}, i) {
      SumRemove(ledger, p, i);
    }
  }

  lemma Begins(ts: seq<nat>, seen: map<Pba, Rec>, entries: map<Key, Entry>, p: Pba, r: Rec)
    requires IsNewest(ts, seen, entries) && p !in seen && r.key !in entries
    ensures IsNewest(ts, seen[p := r], entries[r.key := Entry(p, Kv(r))])
  {
  }

  lemma Overtakes(ts: seq<nat>, seen: map<Pba, Rec>, entries: map<Key, Entry>, p: Pba, r: Rec)
    requires IsNewest(ts, seen, entries) && p !in seen && r.key in entries && Newer(ts, p, entries[r.key].pba)
    ensures IsNewest(ts, seen[p := r], entries[r.key := Entry(p, Kv(r))])
  {
    forall q | q in seen && seen[q].key == r.key ensures AtLeast(ts, p, q) {
      NewerTransitive(ts, p, entries[r.key].pba, q);
    }
  }

  /** The records of the first `n` segments with data metadata, and nothing else. */
  ghost predicate OnDevice(images: seq<Image>, recs: seq<map<nat, Rec>>, n: nat, disk: map<Pba, Rec>) {
    && n <= |images| == |recs|
    && (forall p :: p in disk ==>
        p.seg < n && images[p.seg].md.Some? && p.off in recs[p.seg] && disk[p] == recs[p.seg][p.off])
    && (forall i, o :: 0 <= i < n && images[i].md.Some? && o in recs[i] ==> Pba(i, o) in disk)
  }

  /** Segment metadata as `Stage` leaves them: no two lives share a timestamp. */
  ghost predicate DistinctLives(images: seq<Image>) {
    forall i, j :: 0 <= i < j < |images| && images[i].md.Some? && images[j].md.Some? ==>
      images[i].md.value != images[j].md.value
  }

  ghost predicate Readable(tombLen: Key -> nat, images: seq<Image>, recs: seq<map<nat, Rec>>) {
    && |recs| == |images|
    && (forall i :: 0 <= i < |images| && images[i].md.Some? ==> Layout(images[i].grains, recs[i]))
    && (forall i, o :: 0 <= i < |images| && images[i].md.Some? && o in recs[i] ==> Recoverable(tombLen, recs[i][o]))
  }

  /** Timestamps and liveness once the metadata of the first `n` segments are read. */
  ghost predicate MdRead(images: seq<Image>, n: nat, ts: seq<nat>, live: seq<bool>) {
    && n <= |images| == |ts| == |live|
    && (forall i :: 0 <= i < |images| ==> (live[i] <==> i < n && images[i].md.Some?))
    && (forall i :: 0 <= i < n && images[i].md.Some? ==> ts[i] == images[i].md.value)
  }

  lemma WalkedDevice(images: seq<Image>, recs: seq<map<nat, Rec>>, n: nat, seen: map<Pba, Rec>, seen': map<Pba, Rec>)
    requires OnDevice(images, recs, n, seen) && n < |images| && images[n].md.Some?
    requires Layout(images[n].grains, recs[n]) && Walked(seen, seen', n, recs[n], |images[n].grains|)
    ensures OnDevice(images, recs, n + 1, seen')
  {
  }

  /**
    Scan every segment and rebuild the directory: it ends up holding exactly the newest record
    of each key in the log, and each segment's tally is the grains of the records it points to.
    The store opens only if those fit the capacity user writes get.
   */
  method CrashRecovery(tombLen: Key -> nat, images: seq<Image>, ghost recs: seq<map<nat, Rec>>, maxCapacity: nat)
    returns (opens: bool, entries: map<Key, Entry>, valid: seq<nat>, maxTs: nat,
             ts: seq<nat>, live: seq<bool>, ghost disk: map<Pba, Rec>)
    requires DistinctLives(images) && Readable(tombLen, images, recs)
    ensures OnDevice(images, recs, |images|, disk) && MdRead(images, |images|, ts, live)
    ensures NewestOfEach(ts, disk, IndexSet(entries)) && IsMaxTs(ts, live, maxTs)
    ensures |valid| == |images| && Tallied(LedgerOf(disk, IndexSet(entries)), valid)
    ensures opens <==> Total(valid) <= maxCapacity
  {
    ghost var ledger;
    entries, valid, maxTs, ts, live, disk, ledger := ScanSegments(tombLen, images, recs);
    NewestIsIndex(ts, disk, entries);
    LedgerIsLedgerOf(ts, disk, entries, ledger);
    var total := SumUp(valid);
    opens := total <= maxCapacity;
  }

  lemma NextMd(images: seq<Image>, n: nat, ts: seq<nat>, live: seq<bool>)
    requires MdRead(images, n, ts, live) && n < |images| && images[n].md.Some? && DistinctLives(images)
    ensures MdRead(images, n + 1, ts[n := images[n].md.value], live[n := true])
    ensures !live[n] && forall i :: 0 <= i < |ts| && live[i] ==> ts[i] != images[n].md.value
  {
  }

  lemma NoMd(images: seq<Image>, recs: seq<map<nat, Rec>>, n: nat, ts: seq<nat>, live: seq<bool>, disk: map<Pba, Rec>)
    requires MdRead(images, n, ts, live) && OnDevice(images, recs, n, disk) && n < |images| && images[n].md.None?
    ensures MdRead(images, n + 1, ts, live) && OnDevice(images, recs, n + 1, disk)
  {
  }

  /** What one segment adds to the directory rebuilt from those before it. */
  method ScanSegment(tombLen: Key -> nat, images: seq<Image>, ghost recs: seq<map<nat, Rec>>, i: nat,
                     ts: seq<nat>, ghost live: seq<bool>, entries: map<Key, Entry>, valid: seq<nat>,
                     ghost disk: map<Pba, Rec>, ghost ledger: map<Pba, Charge>)
    returns (updated: map<Key, Entry>, tally: seq<nat>, ghost walked: map<Pba, Rec>, ghost books: map<Pba, Charge>)
    requires Readable(tombLen, images, recs) && i < |images| && images[i].md.Some?
    requires MdRead(images, i + 1, ts, live) && OnDevice(images, recs, i, disk)
    requires Rebuilt(tombLen, ts, live, disk, entries, ledger, valid)
    ensures OnDevice(images, recs, i + 1, walked)
    ensures Rebuilt(tombLen, ts, live, walked, updated, books, tally)
  {
    updated, tally, walked, books :=
      RecoverSegment(tombLen, ts, live, entries, valid, i, images[i].grains, recs[i], disk, ledger);
    WalkedDevice(images, recs, i, disk, walked);
  }

  /** Every segment in turn: its metadata, then its records. */
  method ScanSegments(tombLen: Key -> nat, images: seq<Image>, ghost recs: seq<map<nat, Rec>>)
    returns (entries: map<Key, Entry>, valid: seq<nat>, maxTs: nat, ts: seq<nat>, live: seq<bool>,
             ghost disk: map<Pba, Rec>, ghost ledger: map<Pba, Charge>)
    requires DistinctLives(images) && Readable(tombLen, images, recs)
    ensures OnDevice(images, recs, |images|, disk) && MdRead(images, |images|, ts, live)
    ensures IsMaxTs(ts, live, maxTs) && Rebuilt(tombLen, ts, live, disk, entries, ledger, valid)
  {
    ts, live := seq(|images|, i => 0), seq(|images|, i => false);
    entries, valid, maxTs := map[], seq(|images|, i => 0), 0;
    disk, ledger := map[], map[];
    var i := 0;
    while i < |images|
      invariant 0 <= i <= |images|
      invariant MdRead(images, i, ts, live) && IsMaxTs(ts, live, maxTs)
      invariant OnDevice(images, recs, i, disk)
      invariant Rebuilt(tombLen, ts, live, disk, entries, ledger, valid)
    {
      if images[i].md.Some? {
        var t := images[i].md.value;
        NextMd(images, i, ts, live);
        Restamped(tombLen, ts, live, disk, entries, ledger, valid, i, t);
        MaxGrows(ts, live, maxTs, i, t);
        ts, live := ts[i := t], live[i := true];
        if t > maxTs {
          maxTs := t;
        }
        entries, valid, disk, ledger := ScanSegment(tombLen, images, recs, i, ts, live, entries, valid, disk, ledger);
      } else {
        NoMd(images, recs, i, ts, live, disk);
      }
      i := i + 1;
    }
  }

  function Total(valid: seq<nat>): nat {
    if valid == [] then 0 else Total(valid[..|valid| - 1]) + valid[|valid| - 1]
  }

  method SumUp(valid: seq<nat>) returns (total: nat)
    ensures total == Total(valid)
  {
    total := 0;
    for i := 0 to |valid|
      invariant total == Total(valid[..i])
    {
      assert valid[..i + 1][..i] == valid[..i];
      total := total + valid[i];
    }
    assert valid[..|valid|] == valid;
  }

  /** Only one directory holds the newest record of each key: the order of the scan is immaterial. */
  lemma RecoveryIsDetermined(ts: seq<nat>, live: seq<bool>, disk: map<Pba, Rec>, a: set<Pba>, b: set<Pba>)
    requires DistinctTs(ts, live) && forall p :: p in disk ==> p.seg < |live| && live[p.seg]
    requires NewestOfEach(ts, disk, a) && NewestOfEach(ts, disk, b)
    ensures a == b
  {
    NewestAgree(ts, live, disk, a, b);
    NewestAgree(ts, live, disk, b, a);
  }

  lemma NewestAgree(ts: seq<nat>, live: seq<bool>, disk: map<Pba, Rec>, a: set<Pba>, b: set<Pba>)
    requires DistinctTs(ts, live) && forall p :: p in disk ==> p.seg < |live| && live[p.seg]
    requires NewestOfEach(ts, disk, a) && NewestOfEach(ts, disk, b)
    ensures a <= b
  {
    forall p | p in a ensures p in b {
      assert Has(disk, b, disk[p].key);
      var q :| q in b && q in disk && disk[q].key == disk[p].key;
      assert AtLeast(ts, q, p) && AtLeast(ts, p, q);
      NewerTotal(ts, live, p, q);
    }
  }
}
