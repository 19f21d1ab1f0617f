/**
  What a crash can show. Of the records that were never ranked, those of operations never
  acknowledged may appear, and the copy of a relocation under way is its entry's own record; but the
  stray copy of a relocation that failed may undo a later, acknowledged operation of its key.
 */
module LogCrash {
  import opened Common
  import opened Log
  import opened LogProtocol
  import opened LogProofs
  import opened LogTheorems
  import opened LogRefinement
  import opened LogHistory

  /** A copy under way holds the record of its key's entry. */
  ghost predicate InFlight(s: State, q: Pba) {
    && IsCopy(s.gc, q) && q in s.disk
    && var e := CopyOf(s.gc).value.src; e in s.index && e in s.disk && s.disk[q] == s.disk[e]
  }

  /** A tombstone of a key without an entry. */
  ghost predicate LeftTomb(s: State, q: Pba) {
    q in s.disk && s.disk[q].tomb && !Has(s.disk, s.index, s.disk[q].key)
  }

  /** The operation whose record is at `q` is the last one acknowledged on its key. */
  ghost predicate IsLast(s: State, h: History, q: Pba) {
    LeftTomb(s, q) ||
    exists e :: e in s.index && e in s.disk && q in s.disk && s.disk[e].key == s.disk[q].key &&
                BornAt(h, e) == BornAt(h, q)
  }

  /** The record at `q`, shown by a recovery, brings an acknowledged operation back that a later one had undone. */
  ghost predicate RollsBack(s: State, h: History, q: Pba) {
    BornAt(h, q) in h.acked && !IsLast(s, h, q)
  }

  function Shows(rec: Rec): Option<Val> {
    if rec.tomb then None else Some(rec.val)
  }

  // ---------------------------------------------------------------- one crash

  lemma RankedWinner(s: State, index: set<Pba>, q: Pba)
    requires NewestOfEach(s.ts, s.disk, index) && q in index && q in s.ranked
    requires Stamped(s.ts, s.live, s.phase, s.nextTs) && OnDisk(s.disk, s.live, s.phase, s.cursor)
    requires Newest(s.ranked, s.index, s.disk, s.ts)
    requires Burials(s.ranked, s.index, s.disk, s.graves, s.ts, s.live, s.phase)
    ensures q in s.index || LeftTomb(s, q)
  {
    if e :| e in s.index && e in s.disk && s.disk[e].key == s.disk[q].key {
      assert AtLeast(s.ts, q, e) && AtLeast(s.ts, e, q);
      NewerTotal(s.ts, s.live, q, e);
    } else {
      assert Buried(q, s.disk, s.ranked, s.graves, s.ts, s.live, s.phase);
      var t := s.graves[s.disk[q].key];
      assert AtLeast(s.ts, q, t);
    }
  }

  lemma WinnerIs(c: Config, s: State, h: History, index: set<Pba>, q: Pba)
    requires Inv(c, s) && Placed(s.disk, s.index, s.ranked, s.gc, h)
    requires NewestOfEach(s.ts, s.disk, index) && q in index
    ensures q in s.index || LeftTomb(s, q) || InFlight(s, q) || q in h.strays || BornAt(h, q) !in h.acked
  {
    if q in s.ranked {
      RankedWinner(s, index, q);
    }
  }

  lemma WinnerRollsBack(c: Config, s: State, h: History, index: set<Pba>, q: Pba)
    requires Inv(c, s) && Placed(s.disk, s.index, s.ranked, s.gc, h)
    requires NewestOfEach(s.ts, s.disk, index) && q in index
    ensures RollsBack(s, h, q) <==> q in h.strays && !IsLast(s, h, q)
  {
    WinnerIs(c, s, h, index, q);
  }

  lemma SameOperationSameRecord(s: State, h: History, p: Pba, q: Pba)
    requires Inscribed(s.disk, s.ops, h) && p in s.disk && q in s.disk && BornAt(h, p) == BornAt(h, q)
    ensures s.disk[p] == s.disk[q] == h.recs[BornAt(h, q)]
  {
  }

  lemma LastValue(s: State, h: History, q: Pba)
    requires Unique(s.index, s.disk) && Inscribed(s.disk, s.ops, h) && q in s.disk && IsLast(s, h, q)
    ensures Value(s.disk, s.index, s.disk[q].key) == Shows(s.disk[q])
  {
    if !LeftTomb(s, q) {
      var e :| e in s.index && e in s.disk && s.disk[e].key == s.disk[q].key && BornAt(h, e) == BornAt(h, q);
      SameOperationSameRecord(s, h, e, q);
      ValueAt(s.disk, s.index, e);
    }
  }

  lemma ShownValue(s: State, h: History, index: set<Pba>, q: Pba)
    requires NewestOfEach(s.ts, s.disk, index) && q in index && Inscribed(s.disk, s.ops, h)
    requires Stamped(s.ts, s.live, s.phase, s.nextTs) && OnDisk(s.disk, s.live, s.phase, s.cursor)
    ensures Value(s.disk, index, s.disk[q].key) == Shows(s.disk[q])
  {
    RecoveredOrder(s, index);
    ValueAt(s.disk, index, q);
  }

  lemma WinnerValue(c: Config, s: State, h: History, index: set<Pba>, q: Pba)
    requires Inv(c, s) && Inscribed(s.disk, s.ops, h)
    requires NewestOfEach(s.ts, s.disk, index) && q in index
    ensures BornAt(h, q) < |h.recs| && h.recs[BornAt(h, q)] == s.disk[q]
    ensures Value(s.disk, index, s.disk[q].key) == Shows(h.recs[BornAt(h, q)])
    ensures IsLast(s, h, q) ==> Value(s.disk, s.index, s.disk[q].key) == Value(s.disk, index, s.disk[q].key)
  {
    SameOperationSameRecord(s, h, q, q);
    ShownValue(s, h, index, q);
    if IsLast(s, h, q) {
      LastValue(s, h, q);
    }
  }

  /** The record of `k` that a recovery with directory `index` shows is of an operation never acknowledged. */
  ghost predicate ShowsUnacked(s: State, h: History, index: set<Pba>, k: Key) {
    exists q :: q in index && q in s.disk && s.disk[q].key == k && BornAt(h, q) !in h.acked
  }

  /** It is a stray copy that undoes a later operation. */
  ghost predicate ShowsStray(s: State, h: History, index: set<Pba>, k: Key) {
    exists q :: q in index && q in h.strays && q in s.disk && s.disk[q].key == k && !IsLast(s, h, q)
  }

  lemma AbsentStays(s: State, index: set<Pba>, k: Key)
    requires NewestOfEach(s.ts, s.disk, index) && !Has(s.disk, index, k)
    ensures Value(s.disk, index, k) == None && Value(s.disk, s.index, k) == None
  {
    assert forall p :: p in s.disk && s.disk[p].key == k ==> Has(s.disk, index, k);
  }

  lemma WinnerShows(c: Config, s: State, h: History, index: set<Pba>, q: Pba)
    requires Inv(c, s) && Placed(s.disk, s.index, s.ranked, s.gc, h) && Inscribed(s.disk, s.ops, h)
    requires NewestOfEach(s.ts, s.disk, index) && q in index
    ensures var k := s.disk[q].key;
            Value(s.disk, index, k) == Value(s.disk, s.index, k) || ShowsUnacked(s, h, index, k) ||
            ShowsStray(s, h, index, k)
  {
    WinnerValue(c, s, h, index, q);
    WinnerRollsBack(c, s, h, index, q);
  }

  // ---------------------------------------------------------------- every run

  /**
    Whatever a crash shows of a key is its entry, a tombstone of a key without one, the copy under way
    of its entry, a stray copy, or the record of an operation that was never acknowledged.
   */
  lemma CrashWinner(c: Config, r: Run, i: nat, index: set<Pba>, maxTs: nat, q: Pba)
    requires IsRun(c, r) && i < |r.states| && CanCrash(r.states[i], index, maxTs) && q in index
    ensures var s, h := r.states[i], HistoryOf(r, i);
            q in s.index || LeftTomb(s, q) || InFlight(s, q) || q in h.strays || BornAt(h, q) !in h.acked
  {
    RunKeeps(c, r, i);
    RunTraced(c, r, i);
    WinnerIs(c, r.states[i], HistoryOf(r, i), index, q);
  }

  /**
    A crash undoes an acknowledged operation exactly if the newest record of its key is a stray
    copy of an operation that is not the key's last.
   */
  lemma RollsBackExactly(c: Config, r: Run, i: nat, index: set<Pba>, maxTs: nat, q: Pba)
    requires IsRun(c, r) && i < |r.states| && CanCrash(r.states[i], index, maxTs) && q in index
    ensures var s, h := r.states[i], HistoryOf(r, i);
            && (RollsBack(s, h, q) <==> q in h.strays && !IsLast(s, h, q))
            && BornAt(h, q) < |h.recs| && Value(s.disk, index, s.disk[q].key) == Shows(h.recs[BornAt(h, q)])
  {
    RunKeeps(c, r, i);
    RunTraced(c, r, i);
    WinnerRollsBack(c, r.states[i], HistoryOf(r, i), index, q);
    WinnerValue(c, r.states[i], HistoryOf(r, i), index, q);
  }

  /** A crash keeps every key's value, unless an unacknowledged record or an outdated stray copy is its newest. */
  lemma CrashKeepsValues(c: Config, r: Run, i: nat, index: set<Pba>, maxTs: nat, k: Key)
    requires IsRun(c, r) && i < |r.states| && CanCrash(r.states[i], index, maxTs)
    ensures var s, h := r.states[i], HistoryOf(r, i);
            Value(s.disk, index, k) == Value(s.disk, s.index, k) || ShowsUnacked(s, h, index, k) ||
            ShowsStray(s, h, index, k)
  {
    var s := r.states[i];
    if q :| q in index && q in s.disk && s.disk[q].key == k {
      RunKeeps(c, r, i);
      RunTraced(c, r, i);
      WinnerShows(c, s, HistoryOf(r, i), index, q);
    } else {
      AbsentStays(s, index, k);
    }
  }

  // ---------------------------------------------------------------- runs without stray copies

  /** No relocation before state `i` has failed with its copy on the device. */
  ghost predicate CopiesSucceed(r: Run, i: nat)
    requires i <= |r.steps| && i < |r.states|
  {
    forall j :: 0 <= j < i && r.steps[j].GcFailStep? ==> !WrittenCopy(r.states[j].gc)
  }

  lemma {:induction false} NoStrays(r: Run, i: nat)
    requires i <= |r.steps| && i < |r.states| && CopiesSucceed(r, i)
    ensures HistoryOf(r, i).strays == {}
  {
    if i > 0 {
      NoStrays(r, i - 1);
    }
  }

  /** If no relocation failed with its copy on the device, no crash undoes an acknowledged operation. */
  lemma NoCrashRollsBack(c: Config, r: Run, i: nat, index: set<Pba>, maxTs: nat, k: Key)
    requires IsRun(c, r) && i < |r.states| && CanCrash(r.states[i], index, maxTs) && CopiesSucceed(r, i)
    ensures var s, h := r.states[i], HistoryOf(r, i);
            && (forall q :: q in index ==> !RollsBack(s, h, q))
            && (Value(s.disk, index, k) == Value(s.disk, s.index, k) || ShowsUnacked(s, h, index, k))
  {
    var s, h := r.states[i], HistoryOf(r, i);
    NoStrays(r, i);
    forall q | q in index ensures !RollsBack(s, h, q) {
      RollsBackExactly(c, r, i, index, maxTs, q);
    }
    CrashKeepsValues(c, r, i, index, maxTs, k);
  }
}
