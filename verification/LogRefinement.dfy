/**
  The store seen from outside: every step is a put, a delete or nothing at all on a plain map
  from keys to values, reads inside a section are of intact records, and a version names one
  stored value for as long as the store stays open.
 */
module LogRefinement {
  import opened Common
  import opened Log
  import opened LogProtocol
  import opened LogProofs
  import opened LogTheorems

  /** A key's value: that of the record its entry points to, unless it is a tombstone. */
  ghost function Value(disk: map<Pba, Rec>, index: set<Pba>, k: Key): Option<Val> {
    if exists p :: p in index && p in disk && disk[p].key == k && !disk[p].tomb then
      var p :| p in index && p in disk && disk[p].key == k && !disk[p].tomb;
      Some(disk[p].val)
    else
      None
  }

  lemma ValueAt(disk: map<Pba, Rec>, index: set<Pba>, p: Pba)
    requires Unique(index, disk) && p in index && p in disk
    ensures Value(disk, index, disk[p].key) == if disk[p].tomb then None else Some(disk[p].val)
  {
  }

  // ---------------------------------------------------------------- what steps leave alone

  predicate Reuses(st: Step, seg: nat) {
    (st.StageStep? || st.StageIndexStep?) && st.seg == seg
  }

  lemma OpKeepsRecords(c: Config, s: State, st: Step, s': State, p: Pba)
    requires NextOp(c, s, st, s') && p in s.disk
    requires OpsHold(s.ops, s.charge, s.ranked, s.disk) && Forms(s.ops, s.phase)
    ensures p in s'.disk && s'.disk[p] == s.disk[p]
  {
    if st.WriteStep? {
      assert Form(s.ops[st.o], s.phase) && Holds(st.o, s.ops[st.o], s.charge, s.ranked, s.disk);
    } else {
      OpKeepsDisk(c, s, st, s');
    }
  }

  lemma OpKeepsDisk(c: Config, s: State, st: Step, s': State)
    requires NextOp(c, s, st, s') && !st.WriteStep?
    ensures s'.disk == s.disk
  {
  }

  lemma SegmentKeepsRecords(c: Config, s: State, st: Step, s': State, p: Pba)
    requires NextSegment(c, s, st, s') && p in s.disk && !Reuses(st, p.seg)
    ensures p in s'.disk && s'.disk[p] == s.disk[p]
  {
  }

  lemma GcKeepsRecords(c: Config, s: State, st: Step, s': State, p: Pba)
    requires NextGc(c, s, st, s') && p in s.disk
    requires Copying(s.gc, s.ts, s.phase, s.index, s.disk, s.ranked, s.charge)
    ensures p in s'.disk && s'.disk[p] == s.disk[p]
  {
  }

  /** Records stay as they were written until their segment is reused. */
  lemma RecordsStay(c: Config, s: State, st: Step, s': State, p: Pba)
    requires Next(c, s, st, s') && p in s.disk && !Reuses(st, p.seg)
    requires OpsHold(s.ops, s.charge, s.ranked, s.disk) && Forms(s.ops, s.phase)
    requires Copying(s.gc, s.ts, s.phase, s.index, s.disk, s.ranked, s.charge)
    ensures p in s'.disk && s'.disk[p] == s.disk[p]
  {
    if NextOp(c, s, st, s') {
      OpKeepsRecords(c, s, st, s', p);
    } else if NextSegment(c, s, st, s') {
      SegmentKeepsRecords(c, s, st, s', p);
    } else if NextGc(c, s, st, s') {
      GcKeepsRecords(c, s, st, s', p);
    }
  }

  predicate ChangesIndex(st: Step) {
    st.CommitPutStep? || st.CommitDelStep? || st.GcDropStep? || st.GcRepointStep? || st.CrashStep?
  }

  lemma IndexStays(c: Config, s: State, st: Step, s': State)
    requires Next(c, s, st, s') && !ChangesIndex(st)
    ensures s'.index == s.index
  {
    if NextOp(c, s, st, s') {
      OpIndexStays(c, s, st, s');
    }
  }

  lemma OpIndexStays(c: Config, s: State, st: Step, s': State)
    requires NextOp(c, s, st, s') && !ChangesIndex(st)
    ensures s'.index == s.index
  {
  }

  lemma ReusedWasFree(c: Config, s: State, st: Step, s': State, seg: nat)
    requires Next(c, s, st, s') && Reuses(st, seg)
    ensures At(s.phase, seg, Free)
  {
  }

  lemma IndexedStay(c: Config, s: State, st: Step, s': State)
    requires Inv(c, s) && Next(c, s, st, s')
    ensures forall p :: p in s.index ==> p in s.disk && p in s'.disk && s'.disk[p] == s.disk[p]
  {
    forall p | p in s.index ensures p in s.disk && p in s'.disk && s'.disk[p] == s.disk[p] {
      if Reuses(st, p.seg) {
        ReusedWasFree(c, s, st, s', p.seg);
        Unreferenced(s, p.seg);
      }
      RecordsStay(c, s, st, s', p);
    }
  }

  // ---------------------------------------------------------------- refinement

  ghost predicate SameValues(s: State, s': State) {
    forall k :: Value(s'.disk, s'.index, k) == Value(s.disk, s.index, k)
  }

  /** One key changes, to `v`; every other keeps its value. */
  ghost predicate OnlyChanges(s: State, s': State, key: Key, v: Option<Val>) {
    forall k :: Value(s'.disk, s'.index, k) == if k == key then v else Value(s.disk, s.index, k)
  }

  lemma QuietValues(disk: map<Pba, Rec>, disk': map<Pba, Rec>, index: set<Pba>, k: Key)
    requires Unique(index, disk)
    requires forall p :: p in index ==> p in disk && p in disk' && disk'[p] == disk[p]
    ensures Value(disk', index, k) == Value(disk, index, k)
  {
    if p :| p in index && disk[p].key == k {
      ValueAt(disk, index, p);
      ValueAt(disk', index, p);
    }
  }

  /** Installing a record in place of the key's entry. */
  lemma InstallValues(disk: map<Pba, Rec>, index: set<Pba>, prev: Option<Pba>, g: Pba, k: Key)
    requires Unique(index, disk) && Unique(Replaced(index, prev, g), disk)
    requires index <= disk.Keys && g in disk
    requires prev.Some? ==> prev.value in index && disk[prev.value].key == disk[g].key
    requires prev.None? ==> !Has(disk, index, disk[g].key)
    ensures Value(disk, Replaced(index, prev, g), k) ==
            if k == disk[g].key then (if disk[g].tomb then None else Some(disk[g].val)) else Value(disk, index, k)
  {
    var index' := Replaced(index, prev, g);
    if k == disk[g].key {
      ValueAt(disk, index', g);
    } else if p :| p in index && disk[p].key == k {
      assert p in index';
      ValueAt(disk, index, p);
      ValueAt(disk, index', p);
    }
  }

  lemma PublishValues(s: State, o: nat, prev: Option<Pba>)
    requires o in s.ops && s.ops[o].grain.Some?
    requires Succeeds(s, prev, s.ops[o].grain.value) && s.disk[s.ops[o].grain.value] == s.ops[o].rec
    requires Unique(s.index, s.disk) && s.index <= s.disk.Keys
    requires Newest(s.ranked, s.index, s.disk, s.ts) && OnDisk(s.disk, s.live, s.phase, s.cursor)
    requires Burials(s.ranked, s.index, s.disk, s.graves, s.ts, s.live, s.phase)
    ensures var rec := s.ops[o].rec;
            OnlyChanges(s, Publish(s, o, prev), rec.key, if rec.tomb then None else Some(rec.val))
  {
    var g := s.ops[o].grain.value;
    InstallNewest(s, prev, g);
    forall k {
      InstallValues(s.disk, s.index, prev, g, k);
    }
  }

  lemma ReadySucceeds(c: Config, s: State, o: nat, prev: Option<Pba>)
    requires Inv(c, s) && ReadyToCommit(s, o) && Justified(s, s.ops[o], prev)
    ensures Succeeds(s, prev, s.ops[o].grain.value) && s.disk[s.ops[o].grain.value] == s.ops[o].rec
  {
    assert Form(s.ops[o], s.phase) && Holds(o, s.ops[o], s.charge, s.ranked, s.disk);
  }

  /** A successful put is a put, whatever goes on around it. */
  lemma PutRefines(c: Config, s: State, o: nat, mode: PutMode, ifVersion: Option<(nat, nat)>)
    requires Inv(c, s) && CanCommitPut(c, s, o, mode, ifVersion)
    ensures OnlyChanges(s, Publish(s, o, DecidePut(c, s, s.ops[o], mode, ifVersion).prev),
                        s.ops[o].rec.key, Some(s.ops[o].rec.val))
  {
    PutJustified(c, s, o, mode, ifVersion);
    ReadySucceeds(c, s, o, DecidePut(c, s, s.ops[o], mode, ifVersion).prev);
    PublishValues(s, o, DecidePut(c, s, s.ops[o], mode, ifVersion).prev);
  }

  lemma DelRefines(c: Config, s: State, o: nat, ifVersion: Option<(nat, nat)>)
    requires Inv(c, s) && CanCommitDel(c, s, o, ifVersion)
    ensures OnlyChanges(s, Publish(s, o, DecideDel(c, s, s.ops[o], ifVersion).prev), s.ops[o].rec.key, None)
  {
    DelJustified(c, s, o, ifVersion);
    ReadySucceeds(c, s, o, DecideDel(c, s, s.ops[o], ifVersion).prev);
    PublishValues(s, o, DecideDel(c, s, s.ops[o], ifVersion).prev);
  }

  /** Relocating a record changes no value. */
  lemma RepointRefines(c: Config, s: State)
    requires Inv(c, s) && CanRepoint(s)
    ensures SameValues(s, GcRepoint(s))
  {
    GcRepointKeeps(c, s);
    RepointValues(s);
  }

  lemma RepointValues(s: State)
    requires CanRepoint(s) && Backed(s.index, s.disk, s.ranked, s.charge)
    requires Unique(s.index, s.disk) && Unique(GcRepoint(s).index, s.disk)
    requires Copying(s.gc, s.ts, s.phase, s.index, s.disk, s.ranked, s.charge)
    ensures SameValues(s, GcRepoint(s))
  {
    var s', r := GcRepoint(s), s.gc.value.copy.value;
    ValueAt(s.disk, s.index, r.src);
    forall k ensures Value(s'.disk, s'.index, k) == Value(s.disk, s.index, k) {
      InstallValues(s.disk, s.index, Some(r.src), r.dst, k);
    }
  }

  /** Dropping a tombstone changes no value. */
  lemma DropRefines(c: Config, s: State, p: Pba)
    requires Inv(c, s) && CanDrop(s, p)
    ensures SameValues(s, GcDrop(s, p))
  {
    forall k ensures Value(s.disk, s.index - {p}, k) == Value(s.disk, s.index, k) {
      DropValue(s.disk, s.index, p, k);
    }
  }

  lemma DropValue(disk: map<Pba, Rec>, index: set<Pba>, p: Pba, k: Key)
    requires Unique(index, disk) && p in index && p in disk && disk[p].tomb
    ensures Value(disk, index - {p}, k) == Value(disk, index, k)
  {
    if q :| q in index && q in disk && disk[q].key == k {
      ValueAt(disk, index, q);
      if q != p {
        ValueAt(disk, index - {p}, q);
      }
    }
  }

  /** Every other step but a crash changes no value. */
  lemma QuietRefines(c: Config, s: State, st: Step, s': State)
    requires Inv(c, s) && Next(c, s, st, s') && !ChangesIndex(st)
    ensures SameValues(s, s')
  {
    IndexStays(c, s, st, s');
    IndexedStay(c, s, st, s');
    forall k ensures Value(s'.disk, s'.index, k) == Value(s.disk, s.index, k) {
      QuietValues(s.disk, s'.disk, s.index, k);
    }
  }

  /** What one step does to the map the store implements. */
  ghost predicate Effect(s: State, st: Step, s': State) {
    match st
    case CommitPutStep(o, _, _) => o in s.ops && OnlyChanges(s, s', s.ops[o].rec.key, Some(s.ops[o].rec.val))
    case CommitDelStep(o, _) => o in s.ops && OnlyChanges(s, s', s.ops[o].rec.key, None)
    case CrashStep(index, _) => EntriesSurvive(s, index)
    case _ => SameValues(s, s')
  }

  /** The store refines a map: commits put and delete, GC and reuse change nothing. */
  lemma StoreRefinesMap(c: Config, r: Run, i: nat)
    requires IsRun(c, r) && i < |r.steps|
    ensures Effect(r.states[i], r.steps[i], r.states[i + 1])
  {
    RunKeeps(c, r, i);
    assert StepAt(c, r, i);
    StepRefines(c, r.states[i], r.steps[i], r.states[i + 1]);
  }

  lemma StepRefines(c: Config, s: State, st: Step, s': State)
    requires Inv(c, s) && Next(c, s, st, s')
    ensures Effect(s, st, s')
  {
    if st.CommitPutStep? || st.CommitDelStep? {
      CommitRefines(c, s, st, s');
    } else if st.GcRepointStep? || st.GcDropStep? {
      GcRefines(c, s, st, s');
    } else if st.CrashStep? {
      CrashIsSafe(c, s, st.index, st.maxTs);
    } else {
      QuietRefines(c, s, st, s');
    }
  }

  lemma CommitRefines(c: Config, s: State, st: Step, s': State)
    requires Inv(c, s) && NextOp(c, s, st, s') && (st.CommitPutStep? || st.CommitDelStep?)
    ensures Effect(s, st, s')
  {
    if st.CommitPutStep? {
      PutRefines(c, s, st.o, st.mode, st.ifVersion);
    } else {
      DelRefines(c, s, st.o, st.ifVersion);
    }
  }

  lemma GcRefines(c: Config, s: State, st: Step, s': State)
    requires Inv(c, s) && NextGc(c, s, st, s') && (st.GcRepointStep? || st.GcDropStep?)
    ensures SameValues(s, s')
  {
    if st.GcRepointStep? {
      RepointRefines(c, s);
    } else {
      DropRefines(c, s, st.p);
    }
  }

  // ---------------------------------------------------------------- reads

  /**
    A section stays open through steps `i..j`: every location the directory held at its
    start, or came to hold during it, still has the record it had.
   */
  lemma {:induction false} SectionReadsIntact(c: Config, r: Run, i: nat, j: nat, x: nat, p: Pba)
    requires IsRun(c, r) && i <= j < |r.states|
    requires forall k :: i <= k <= j ==> x in r.states[k].views
    requires p in r.states[i].views[x]
    ensures p in r.states[i].disk && p in r.states[j].disk && r.states[j].disk[p] == r.states[i].disk[p]
    ensures p in r.states[j].views[x]
    decreases j
  {
    if i == j {
      ViewIsOnDisk(c, r, i, x, p);
    } else {
      SectionReadsIntact(c, r, i, j - 1, x, p);
      RunViewStays(c, r, j - 1, x, p);
    }
  }

  lemma ViewIsOnDisk(c: Config, r: Run, i: nat, x: nat, p: Pba)
    requires IsRun(c, r) && i < |r.states| && x in r.states[i].views && p in r.states[i].views[x]
    ensures p in r.states[i].disk
  {
    RunKeeps(c, r, i);
  }

  lemma RunViewStays(c: Config, r: Run, i: nat, x: nat, p: Pba)
    requires IsRun(c, r) && i < |r.steps|
    requires x in r.states[i].views && x in r.states[i + 1].views && p in r.states[i].views[x]
    ensures var s, s' := r.states[i], r.states[i + 1];
            p in s.disk && p in s'.disk && s'.disk[p] == s.disk[p] && p in s'.views[x]
  {
    RunKeeps(c, r, i);
    assert StepAt(c, r, i);
    ViewStays(c, r.states[i], r.steps[i], r.states[i + 1], x, p);
  }

  lemma ViewStays(c: Config, s: State, st: Step, s': State, x: nat, p: Pba)
    requires Inv(c, s) && Next(c, s, st, s') && x in s.views && x in s'.views && p in s.views[x]
    ensures p in s.disk && p in s'.disk && s'.disk[p] == s.disk[p] && p in s'.views[x]
  {
    if Reuses(st, p.seg) {
      ReusedWasFree(c, s, st, s', p.seg);
      Unreferenced(s, p.seg);
    }
    RecordsStay(c, s, st, s', p);
    ViewsGrow(c, s, st, s', x, p);
  }

  lemma ViewsGrow(c: Config, s: State, st: Step, s': State, x: nat, p: Pba)
    requires Next(c, s, st, s') && x in s.views && x in s'.views && p in s.views[x]
    requires forall y :: y in s.views ==> y < s.nextSect
    ensures p in s'.views[x]
  {
    if NextOp(c, s, st, s') {
      OpViewsGrow(c, s, st, s', x, p);
    } else if NextSegment(c, s, st, s') {
      assert s'.views == s.views;
    }
  }

  lemma OpViewsGrow(c: Config, s: State, st: Step, s': State, x: nat, p: Pba)
    requires NextOp(c, s, st, s') && x in s.views && x in s'.views && p in s.views[x]
    requires forall y :: y in s.views ==> y < s.nextSect
    ensures p in s'.views[x]
  {
    if st.CommitPutStep? || st.CommitDelStep? {
      CommitViewsGrow(c, s, st, s', x, p);
    }
  }

  lemma CommitViewsGrow(c: Config, s: State, st: Step, s': State, x: nat, p: Pba)
    requires NextOp(c, s, st, s') && (st.CommitPutStep? || st.CommitDelStep?)
    requires x in s.views && p in s.views[x]
    ensures x in s'.views && p in s'.views[x]
  {
    if st.CommitPutStep? {
      assert s'.views == Extend(s.views, s.ops[st.o].grain.value);
    } else {
      assert s'.views == Extend(s.views, s.ops[st.o].grain.value);
    }
  }

  // ---------------------------------------------------------------- what a get returns

  /** A location new in a section's view is in the directory. */
  lemma NewInView(c: Config, s: State, st: Step, s': State, x: nat, p: Pba)
    requires Next(c, s, st, s') && x in s'.views && p in s'.views[x] && !(x in s.views && p in s.views[x])
    ensures p in s'.index
  {
    if NextOp(c, s, st, s') {
      OpNewInView(c, s, st, s', x, p);
    }
  }

  lemma OpNewInView(c: Config, s: State, st: Step, s': State, x: nat, p: Pba)
    requires NextOp(c, s, st, s') && x in s'.views && p in s'.views[x] && !(x in s.views && p in s.views[x])
    ensures p in s'.index
  {
    if st.CommitPutStep? || st.CommitDelStep? {
      CommitNewInView(c, s, st, s', x, p);
    }
  }

  lemma CommitNewInView(c: Config, s: State, st: Step, s': State, x: nat, p: Pba)
    requires NextOp(c, s, st, s') && (st.CommitPutStep? || st.CommitDelStep?)
    requires x in s'.views && p in s'.views[x] && !(x in s.views && p in s.views[x])
    ensures p in s'.index
  {
    assert s'.views == Extend(s.views, s.ops[st.o].grain.value);
  }

  /** Whatever a section can be given was in the directory at some moment of it. */
  lemma {:induction false} ViewWasIndexed(c: Config, r: Run, j: nat, x: nat, p: Pba) returns (k: nat)
    requires IsRun(c, r) && j < |r.states| && x in r.states[j].views && p in r.states[j].views[x]
    ensures k <= j && p in r.states[k].index
    ensures forall m :: k <= m <= j ==> x in r.states[m].views
    ensures p in r.states[k].views[x]
  {
    assert StepAt(c, r, j - 1);
    if x in r.states[j - 1].views && p in r.states[j - 1].views[x] {
      k := ViewWasIndexed(c, r, j - 1, x, p);
    } else {
      NewInView(c, r.states[j - 1], r.steps[j - 1], r.states[j], x, p);
      k := j;
    }
  }

  /**
    The record a get reads, in state `j`, at a location its lookup gave it: it was the key's value
    (or, being a tombstone, the key was absent) at some moment `k` since the get's read section
    began.
   */
  lemma GetReadsAValueOfItsTime(c: Config, r: Run, j: nat, x: nat, p: Pba) returns (k: nat)
    requires IsRun(c, r) && j < |r.states| && x in r.states[j].views && p in r.states[j].views[x]
    ensures k <= j && forall m :: k <= m <= j ==> x in r.states[m].views
    ensures var s, t := r.states[k], r.states[j];
            p in t.disk &&
            Value(s.disk, s.index, t.disk[p].key) == if t.disk[p].tomb then None else Some(t.disk[p].val)
  {
    k := ViewWasIndexed(c, r, j, x, p);
    SectionReadsIntact(c, r, k, j, x, p);
    RunKeeps(c, r, k);
    ValueAt(r.states[k].disk, r.states[k].index, p);
  }

  // ---------------------------------------------------------------- versions

  /** Lives of segments begun in `s` that still last in `s'` have kept their records. */
  ghost predicate Evolves(s: State, s': State) {
    && s.nextTs <= s'.nextTs && |s'.ts| == |s.ts| && |s.live| == |s.ts| && |s'.live| == |s.ts|
    && (forall i :: 0 <= i < |s.ts| && s'.live[i] && s'.ts[i] <= s.nextTs ==> s.live[i] && s.ts[i] == s'.ts[i])
    && (forall p :: p in s.disk && p.seg < |s.ts| && s'.live[p.seg] && s'.ts[p.seg] <= s.nextTs ==>
          p in s'.disk && s'.disk[p] == s.disk[p])
  }

  lemma StampsEvolve(c: Config, s: State, st: Step, s': State)
    requires Next(c, s, st, s') && !Restarts(st) && |s.live| == |s.ts|
    ensures s.nextTs <= s'.nextTs && |s'.ts| == |s.ts| && |s'.live| == |s.ts|
    ensures forall i :: 0 <= i < |s.ts| && s'.live[i] && s'.ts[i] <= s.nextTs ==> s.live[i] && s.ts[i] == s'.ts[i]
    ensures forall i :: 0 <= i < |s.ts| && Reuses(st, i) ==> !(s'.live[i] && s'.ts[i] <= s.nextTs)
  {
    if NextOp(c, s, st, s') {
      OpKeepsStamps(c, s, st, s');
    } else if NextGc(c, s, st, s') {
      GcKeepsStamps(c, s, st, s');
    }
  }

  lemma OpKeepsStamps(c: Config, s: State, st: Step, s': State)
    requires NextOp(c, s, st, s')
    ensures s'.nextTs == s.nextTs && s'.ts == s.ts && s'.live == s.live
  {
  }

  lemma GcKeepsStamps(c: Config, s: State, st: Step, s': State)
    requires NextGc(c, s, st, s')
    ensures s'.nextTs == s.nextTs && s'.ts == s.ts && s'.live == s.live
  {
  }

  lemma StepEvolves(c: Config, s: State, st: Step, s': State)
    requires Inv(c, s) && Next(c, s, st, s') && !Restarts(st)
    ensures Evolves(s, s')
  {
    StampsEvolve(c, s, st, s');
    forall p | p in s.disk && p.seg < |s.ts| && s'.live[p.seg] && s'.ts[p.seg] <= s.nextTs
      ensures p in s'.disk && s'.disk[p] == s.disk[p]
    {
      RecordsStay(c, s, st, s', p);
    }
  }

  predicate Restarts(st: Step) {
    st.CrashStep? || st.ReopenStep?
  }

  /** The store stays open between two states of a run. */
  ghost predicate StaysOpen(r: Run, i: nat, j: nat) {
    forall k :: i <= k < j && k < |r.steps| ==> !Restarts(r.steps[k])
  }

  lemma {:induction false} RunEvolves(c: Config, r: Run, i: nat, j: nat)
    requires IsRun(c, r) && i <= j < |r.states| && StaysOpen(r, i, j)
    ensures Evolves(r.states[i], r.states[j])
    decreases j
  {
    if i == j {
      EvolvesFromItself(c, r, i);
    } else {
      RunEvolves(c, r, i, j - 1);
      RunStepEvolves(c, r, j - 1);
      EvolvesOn(r.states[i], r.states[j - 1], r.states[j]);
    }
  }

  lemma EvolvesFromItself(c: Config, r: Run, i: nat)
    requires IsRun(c, r) && i < |r.states|
    ensures Evolves(r.states[i], r.states[i])
  {
    RunKeeps(c, r, i);
  }

  lemma RunStepEvolves(c: Config, r: Run, i: nat)
    requires IsRun(c, r) && i < |r.steps| && !Restarts(r.steps[i])
    ensures Evolves(r.states[i], r.states[i + 1])
  {
    RunKeeps(c, r, i);
    assert StepAt(c, r, i);
    StepEvolves(c, r.states[i], r.steps[i], r.states[i + 1]);
  }

  lemma EvolvesOn(s: State, t: State, u: State)
    requires Evolves(s, t) && Evolves(t, u)
    ensures Evolves(s, u)
  {
  }

  /** A version names one record for as long as the store stays open. */
  lemma VersionsNeverRepeat(c: Config, r: Run, i: nat, j: nat, p: Pba, q: Pba)
    requires IsRun(c, r) && i <= j < |r.states| && StaysOpen(r, i, j)
    requires p in r.states[i].disk && q in r.states[j].disk
    requires VersionOf(r.states[i], p) == VersionOf(r.states[j], q)
    ensures p == q && r.states[j].disk[q] == r.states[i].disk[p]
  {
    RunKeeps(c, r, i);
    RunKeeps(c, r, j);
    RunEvolves(c, r, i, j);
  }

  /**
    A version-checked put replaces exactly the value its client read: if the client read the
    record at `p` in state `i` and its put commits at step `j`, the key still had that value.
   */
  lemma CheckedPutReplacesWhatWasRead(c: Config, r: Run, i: nat, j: nat, p: Pba)
    requires IsRun(c, r) && i <= j < |r.steps| && StaysOpen(r, i, j)
    requires r.steps[j].CommitPutStep? && r.steps[j].ifVersion.Some?
    requires p in r.states[i].disk && VersionOf(r.states[i], p) == r.steps[j].ifVersion.value
    ensures var s, o := r.states[j], r.steps[j].o;
            o in s.ops && Value(s.disk, s.index, s.ops[o].rec.key) == Some(r.states[i].disk[p].val)
  {
    var s, st := r.states[j], r.steps[j];
    RunKeeps(c, r, j);
    assert StepAt(c, r, j);
    var m := CheckedMatch(c, s, st.o, st.mode, st.ifVersion);
    VersionsNeverRepeat(c, r, i, j, p, m);
  }

  lemma CheckedMatch(c: Config, s: State, o: nat, mode: PutMode, ifVersion: Option<(nat, nat)>) returns (m: Pba)
    requires Probes(s.ops, s.views, s.disk) && Sections(s.ops, s.views.Keys, s.nextSect)
    requires Backed(s.index, s.disk, s.ranked, s.charge) && Unique(s.index, s.disk)
    requires CanCommitPut(c, s, o, mode, ifVersion) && ifVersion.Some?
    ensures m in s.index && m in s.disk && VersionOf(s, m) == ifVersion.value
    ensures Value(s.disk, s.index, s.ops[o].rec.key) == Some(s.disk[m].val)
  {
    MatchIsTheEntry(c, s, o);
    m := Match(c, s, s.ops[o]).value;
    ValueAt(s.disk, s.index, m);
  }
}
