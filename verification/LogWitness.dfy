/** Runs that do something: what the theorems say of every run is not said of none. */
module LogWitness {
  import opened Common
  import opened Log
  import opened LogProtocol
  import opened LogTheorems
  import opened LogRefinement

  /** A store of one free segment. */
  function Fresh(c: Config): State {
    State([0], [false], [Free], [c.data], [0], 0, map[], {}, {}, map[], map[], 0, None, map[], map[])
  }

  const AT: Pba := Pba(0, 0)

  function Staged(c: Config): State {
    Stage(c, Fresh(c), 0)
  }

  function Begun(c: Config, rec: Rec): State {
    Begin(Staged(c), 0, rec)
  }

  function Allocated(c: Config, rec: Rec): State {
    Allocate(Begun(c, rec), 0, 0)
  }

  function Written(c: Config, rec: Rec): State {
    Write(Allocated(c, rec), 0)
  }

  lemma StagedIs(c: Config)
    ensures Staged(c).index == {} && Staged(c).disk == map[] && Staged(c).phase == [Open] && Staged(c).cursor == [0]
    ensures Staged(c).ops == map[] && Staged(c).gc == None
  {
  }

  lemma WrittenIs(c: Config, rec: Rec)
    requires rec.len <= c.data
    ensures CanAllocate(c, Begun(c, rec), 0, 0)
    ensures Written(c, rec).index == {} && Written(c, rec).disk == map[AT := rec]
    ensures ReadyToCommit(Written(c, rec), 0)
    ensures Written(c, rec).ops[0].rec == rec && Written(c, rec).ops[0].grain == Some(AT)
  {
    StagedIs(c);
  }

  lemma CommitDecides(c: Config, rec: Rec)
    requires rec.len <= c.data && !rec.tomb
    ensures var s := Written(c, rec); ReadyToCommit(s, 0) && DecidePut(c, s, s.ops[0], Upsert, None) == Install(None)
  {
    WrittenIs(c, rec);
  }

  lemma StepsLead(c: Config, rec: Rec)
    requires 1 <= rec.len <= c.data && !rec.tomb
    ensures Next(c, Fresh(c), StageStep(0), Staged(c))
    ensures Next(c, Staged(c), BeginStep(0, rec), Begun(c, rec))
    ensures Next(c, Begun(c, rec), AllocateStep(0, 0), Allocated(c, rec))
    ensures Next(c, Allocated(c, rec), WriteStep(0), Written(c, rec))
  {
    StagedIs(c);
    WrittenIs(c, rec);
  }

  lemma CommitNext(c: Config, rec: Rec)
    requires rec.len <= c.data && !rec.tomb
    ensures Written(c, rec).ops.Keys == {0}
    ensures Written(c, rec).ops[0].rec == rec && Written(c, rec).ops[0].grain == Some(AT)
    ensures Next(c, Written(c, rec), CommitPutStep(0, Upsert, None), Publish(Written(c, rec), 0, None))
  {
    WrittenIs(c, rec);
    CommitDecides(c, rec);
  }

  /** One more step makes a longer run. */
  lemma Longer(c: Config, r: Run, st: Step, s': State)
    requires IsRun(c, r) && Next(c, r.states[|r.steps|], st, s')
    ensures IsRun(c, Run(r.states + [s'], r.steps + [st]))
  {
    var r' := Run(r.states + [s'], r.steps + [st]);
    forall i: nat | i < |r'.steps| ensures StepAt(c, r', i) {
      if i < |r.steps| {
        assert StepAt(c, r, i);
      }
    }
  }

  /** A put can be acknowledged, and is then read back. */
  lemma PutsCanCommit(c: Config, rec: Rec) returns (r: Run)
    requires 1 <= rec.len <= c.data && !rec.tomb
    ensures IsRun(c, r) && |r.steps| == 5 && r.steps[4].CommitPutStep?
    ensures Value(r.states[5].disk, r.states[5].index, rec.key) == Some(rec.val)
  {
    r := UpToWrite(c, rec);
    CommitNext(c, rec);
    var s' := Publish(Written(c, rec), 0, None);
    Longer(c, r, CommitPutStep(0, Upsert, None), s');
    r := Run(r.states + [s'], r.steps + [CommitPutStep(0, Upsert, None)]);
    StoreRefinesMap(c, r, 4);
  }

  lemma UpToWrite(c: Config, rec: Rec) returns (r: Run)
    requires 1 <= rec.len <= c.data && !rec.tomb
    ensures IsRun(c, r) && |r.steps| == 4 && r.states[4] == Written(c, rec)
  {
    StepsLead(c, rec);
    var r0 := Run([Fresh(c)], []);
    Longer(c, r0, StageStep(0), Staged(c));
    var r1 := Run(r0.states + [Staged(c)], r0.steps + [StageStep(0)]);
    Longer(c, r1, BeginStep(0, rec), Begun(c, rec));
    var r2 := Run(r1.states + [Begun(c, rec)], r1.steps + [BeginStep(0, rec)]);
    Longer(c, r2, AllocateStep(0, 0), Allocated(c, rec));
    var r3 := Run(r2.states + [Allocated(c, rec)], r2.steps + [AllocateStep(0, 0)]);
    Longer(c, r3, WriteStep(0), Written(c, rec));
    r := Run(r3.states + [Written(c, rec)], r3.steps + [WriteStep(0)]);
  }

  // ---------------------------------------------------------------- a delete, its tombstone dropped, a crash

  ghost predicate Deletes(c: Config, put: Rec, tomb: Rec) {
    && put.len >= 1 && tomb.len >= 1 && put.len + tomb.len <= c.data
    && !put.tomb && tomb.tomb && tomb.key == put.key && tomb.len == c.tombLen(tomb.key)
  }

  function TombAt(put: Rec): Pba {
    Pba(0, put.len)
  }

  ghost function Last(r: Run): State
    requires r.states != []
  {
    r.states[|r.states| - 1]
  }

  /** One put is on the device and in the directory. */
  function HasPut(c: Config, put: Rec): State {
    State([1], [true], [Open], [put.len], [c.data], 1, map[AT := put], {AT}, {AT}, map[], map[], 1, None,
          map[AT := Charge(put.len, Indexed)], map[])
  }

  /** Its key has been deleted. */
  function HasTomb(c: Config, put: Rec, tomb: Rec): State {
    State([1], [true], [Open], [put.len + tomb.len], [c.data - put.len], 1, map[AT := put, TombAt(put) := tomb],
          {AT, TombAt(put)}, {TombAt(put)}, map[], map[], 2, None, map[TombAt(put) := Charge(tomb.len, Indexed)], map[])
  }

  /** GC has dropped the tombstone and the segment is free; the device still holds both records. */
  function Dropped(c: Config, put: Rec, tomb: Rec): State {
    HasTomb(c, put, tomb).(phase := [Free], cursor := [c.data], valid := [0], index := {}, charge := map[],
                           graves := map[put.key := TombAt(put)])
  }

  /** A run goes on from its last state. */
  lemma Then(c: Config, r: Run, st: Step, s': State) returns (r': Run)
    requires IsRun(c, r) && Next(c, Last(r), st, s')
    ensures IsRun(c, r') && Last(r') == s' && r'.steps == r.steps + [st] && r.states <= r'.states
  {
    Longer(c, r, st, s');
    r' := Run(r.states + [s'], r.steps + [st]);
  }

  function Acked(c: Config, put: Rec): State {
    Publish(Written(c, put), 0, None)
  }

  lemma PutNext(c: Config, put: Rec)
    requires 1 <= put.len <= c.data && !put.tomb
    ensures Next(c, Written(c, put), CommitPutStep(0, Upsert, None), Acked(c, put))
    ensures Next(c, Acked(c, put), EndStep(0), HasPut(c, put))
  {
    CommitNext(c, put);
    AckedIs(c, put);
    assert End(Acked(c, put), 0) == HasPut(c, put);
  }

  lemma AckedIs(c: Config, put: Rec)
    requires 1 <= put.len <= c.data && !put.tomb
    ensures var s := Acked(c, put);
            && s == HasPut(c, put).(ops := s.ops, views := s.views)
            && s.ops.Keys == {0} && s.ops[0].done && s.ops[0].owed.None? && s.ops[0].sect == Some(0)
            && s.views.Keys == {0}
  {
    StagedIs(c);
    assert Staged(c) ==
           State([1], [true], [Open], [0], [c.data], 1, map[], {}, {}, map[], map[], 0, None, map[], map[]);
  }

  // The delete: its operation, number 1, in read section 1.

  function DelOp(tomb: Rec, seen: map<Pba, bool>, reading: Option<Pba>, grain: Option<Pba>, written: bool): Op {
    Op(tomb, Some(1), seen, reading, grain, written, None, false, false)
  }

  function Deleting(c: Config, put: Rec, op: Op): State {
    HasPut(c, put).(ops := map[1 := op], views := map[1 := {AT}], nextSect := 2)
  }

  function Probed(c: Config, put: Rec, tomb: Rec): State {
    Deleting(c, put, DelOp(tomb, map[AT := true], None, None, false))
  }

  lemma ProbeNext(c: Config, put: Rec, tomb: Rec)
    requires Deletes(c, put, tomb)
    ensures Next(c, HasPut(c, put), BeginStep(1, tomb), Deleting(c, put, DelOp(tomb, map[], None, None, false)))
    ensures Next(c, Deleting(c, put, DelOp(tomb, map[], None, None, false)), LookupStep(1, AT),
                  Deleting(c, put, DelOp(tomb, map[], Some(AT), None, false)))
    ensures Next(c, Deleting(c, put, DelOp(tomb, map[], Some(AT), None, false)), VerifyStep(1, true),
                  Probed(c, put, tomb))
  {
  }

  function TombAllocated(c: Config, put: Rec, tomb: Rec): State {
    Deleting(c, put, DelOp(tomb, map[AT := true], None, Some(TombAt(put)), false)).(
      cursor := [put.len + tomb.len],
      charge := map[AT := Charge(put.len, Indexed), TombAt(put) := Charge(tomb.len, Held(1))])
  }

  function TombWritten(c: Config, put: Rec, tomb: Rec): State {
    TombAllocated(c, put, tomb).(
      ops := map[1 := DelOp(tomb, map[AT := true], None, Some(TombAt(put)), true)],
      disk := map[AT := put, TombAt(put) := tomb])
  }

  lemma TombNext(c: Config, put: Rec, tomb: Rec)
    requires Deletes(c, put, tomb)
    ensures Next(c, Probed(c, put, tomb), AllocateStep(1, 0), TombAllocated(c, put, tomb))
    ensures Next(c, TombAllocated(c, put, tomb), WriteStep(1), TombWritten(c, put, tomb))
  {
  }

  function TombAcked(c: Config, put: Rec, tomb: Rec): State {
    Publish(TombWritten(c, put, tomb), 1, Some(AT))
  }

  lemma DelDecides(c: Config, put: Rec, tomb: Rec)
    requires Deletes(c, put, tomb)
    ensures var s := TombWritten(c, put, tomb);
            ReadyToCommit(s, 1) && DecideDel(c, s, s.ops[1], None) == Install(Some(AT))
  {
    var s := TombWritten(c, put, tomb);
    assert IsMatch(c, s, s.ops[1], AT);
  }

  lemma DelNext(c: Config, put: Rec, tomb: Rec)
    requires Deletes(c, put, tomb)
    ensures Next(c, TombWritten(c, put, tomb), CommitDelStep(1, None), TombAcked(c, put, tomb))
  {
    DelDecides(c, put, tomb);
  }

  function TombPaid(c: Config, put: Rec, tomb: Rec): State
    requires Deletes(c, put, tomb)
  {
    Invalidate(TombAcked(c, put, tomb), 1)
  }

  lemma PaidIs(c: Config, put: Rec, tomb: Rec)
    requires Deletes(c, put, tomb)
    ensures var s := TombPaid(c, put, tomb);
            && s == HasTomb(c, put, tomb).(ops := s.ops, views := s.views)
            && s.ops.Keys == {1} && s.ops[1].done && s.ops[1].owed.None? && s.ops[1].sect == Some(1)
            && s.views.Keys == {1}
  {
    var s := TombPaid(c, put, tomb);
    assert s.charge == map[TombAt(put) := Charge(tomb.len, Indexed)];
    assert s.ranked == {AT, TombAt(put)} && s.index == {TombAt(put)};
  }

  lemma PayNext(c: Config, put: Rec, tomb: Rec)
    requires Deletes(c, put, tomb)
    ensures Next(c, TombAcked(c, put, tomb), InvalidateStep(1), TombPaid(c, put, tomb))
    ensures Next(c, TombPaid(c, put, tomb), EndStep(1), HasTomb(c, put, tomb))
  {
    PaidIs(c, put, tomb);
    assert End(TombPaid(c, put, tomb), 1) == HasTomb(c, put, tomb);
  }

  // The segment is filled up, sealed, collected and freed.

  function Full(c: Config, put: Rec, tomb: Rec, phase: Phase): State {
    HasTomb(c, put, tomb).(phase := [phase], cursor := [c.data], valid := [tomb.len as int])
  }

  lemma FillNext(c: Config, put: Rec, tomb: Rec)
    requires Deletes(c, put, tomb)
    ensures Next(c, HasTomb(c, put, tomb), WasteStep(0, c.data - put.len - tomb.len), Full(c, put, tomb, Open))
    ensures Next(c, Full(c, put, tomb, Open), SealStep(0), Full(c, put, tomb, Sealed))
  {
  }

  function Visiting(c: Config, put: Rec, tomb: Rec, todo: set<Pba>): State {
    Full(c, put, tomb, Victim).(gc := Some(Gc(0, true, todo, None)))
  }

  function Purged(c: Config, put: Rec, tomb: Rec): State {
    Dropped(c, put, tomb).(phase := [Victim], gc := Some(Gc(0, true, {}, None)))
  }

  lemma PickNext(c: Config, put: Rec, tomb: Rec)
    requires Deletes(c, put, tomb)
    ensures Next(c, Full(c, put, tomb, Sealed), GcPickStep(0), Visiting(c, put, tomb, {AT, TombAt(put)}))
  {
    var s := Full(c, put, tomb, Sealed);
    assert (set p | p in s.disk && p.seg == 0) == {AT, TombAt(put)};
    assert MayDrop(s.ts, s.live, 0);
    assert GcPick(s, 0) == Visiting(c, put, tomb, {AT, TombAt(put)});
  }

  lemma SkipNext(c: Config, put: Rec, tomb: Rec)
    requires Deletes(c, put, tomb)
    ensures Next(c, Visiting(c, put, tomb, {AT, TombAt(put)}), GcSkipStep(AT), Visiting(c, put, tomb, {TombAt(put)}))
  {
    assert {AT, TombAt(put)} - {AT} == {TombAt(put)};
  }

  lemma DropNext(c: Config, put: Rec, tomb: Rec)
    requires Deletes(c, put, tomb)
    ensures Next(c, Visiting(c, put, tomb, {TombAt(put)}), GcDropStep(TombAt(put)), Purged(c, put, tomb))
  {
    var s := Visiting(c, put, tomb, {TombAt(put)});
    var p := TombAt(put);
    assert CanDrop(s, p);
    assert s.index - {p} == {} && s.charge - {p} == map[] && {p} - {p} == {};
    assert GcDrop(s, p) == Purged(c, put, tomb);
  }

  lemma FreeNext(c: Config, put: Rec, tomb: Rec)
    requires Deletes(c, put, tomb)
    ensures Next(c, Purged(c, put, tomb), GcDoneStep, Dropped(c, put, tomb).(phase := [Draining({})]))
    ensures Next(c, Dropped(c, put, tomb).(phase := [Draining({})]), FreeStep(0), Dropped(c, put, tomb))
  {
    assert Purged(c, put, tomb).views.Keys == {};
    assert GcDone(Purged(c, put, tomb)) == Dropped(c, put, tomb).(phase := [Draining({})]);
  }

  lemma CrashNext(c: Config, put: Rec, tomb: Rec)
    requires Deletes(c, put, tomb)
    ensures var s := Dropped(c, put, tomb);
            Next(c, s, CrashStep({TombAt(put)}, 1), Recovered(c, s, {TombAt(put)}, 1))
  {
    var s := Dropped(c, put, tomb);
    assert Has(s.disk, {TombAt(put)}, put.key) by {
      assert TombAt(put) in {TombAt(put)} && TombAt(put) in s.disk;
    }
    assert s.live[0] && s.ts[0] == 1;
  }

  // ---------------------------------------------------------------- the run

  lemma UpToPut(c: Config, put: Rec) returns (r: Run)
    requires 1 <= put.len <= c.data && !put.tomb
    ensures IsRun(c, r) && Last(r) == HasPut(c, put)
  {
    r := UpToWrite(c, put);
    PutNext(c, put);
    r := Then(c, r, CommitPutStep(0, Upsert, None), Acked(c, put));
    r := Then(c, r, EndStep(0), HasPut(c, put));
  }

  lemma UpToTomb(c: Config, put: Rec, tomb: Rec, r0: Run) returns (r: Run)
    requires Deletes(c, put, tomb) && IsRun(c, r0) && Last(r0) == HasPut(c, put)
    ensures IsRun(c, r) && Last(r) == TombWritten(c, put, tomb)
  {
    ProbeNext(c, put, tomb);
    TombNext(c, put, tomb);
    r := Then(c, r0, BeginStep(1, tomb), Deleting(c, put, DelOp(tomb, map[], None, None, false)));
    r := Then(c, r, LookupStep(1, AT), Deleting(c, put, DelOp(tomb, map[], Some(AT), None, false)));
    r := Then(c, r, VerifyStep(1, true), Probed(c, put, tomb));
    r := Then(c, r, AllocateStep(1, 0), TombAllocated(c, put, tomb));
    r := Then(c, r, WriteStep(1), TombWritten(c, put, tomb));
  }

  lemma UpToFull(c: Config, put: Rec, tomb: Rec, r0: Run) returns (r: Run)
    requires Deletes(c, put, tomb) && IsRun(c, r0) && Last(r0) == TombWritten(c, put, tomb)
    ensures IsRun(c, r) && Last(r) == Full(c, put, tomb, Sealed) && CommitDelStep(1, None) in r.steps
  {
    DelNext(c, put, tomb);
    PayNext(c, put, tomb);
    FillNext(c, put, tomb);
    r := Then(c, r0, CommitDelStep(1, None), TombAcked(c, put, tomb));
    r := Then(c, r, InvalidateStep(1), TombPaid(c, put, tomb));
    r := Then(c, r, EndStep(1), HasTomb(c, put, tomb));
    r := Then(c, r, WasteStep(0, c.data - put.len - tomb.len), Full(c, put, tomb, Open));
    r := Then(c, r, SealStep(0), Full(c, put, tomb, Sealed));
  }

  lemma UpToDrop(c: Config, put: Rec, tomb: Rec, r0: Run) returns (r: Run)
    requires Deletes(c, put, tomb) && IsRun(c, r0) && Last(r0) == Full(c, put, tomb, Sealed)
    ensures IsRun(c, r) && Last(r) == Dropped(c, put, tomb) && r0.steps <= r.steps && GcDropStep(TombAt(put)) in r.steps
  {
    PickNext(c, put, tomb);
    SkipNext(c, put, tomb);
    DropNext(c, put, tomb);
    FreeNext(c, put, tomb);
    r := Then(c, r0, GcPickStep(0), Visiting(c, put, tomb, {AT, TombAt(put)}));
    r := Then(c, r, GcSkipStep(AT), Visiting(c, put, tomb, {TombAt(put)}));
    r := Then(c, r, GcDropStep(TombAt(put)), Purged(c, put, tomb));
    r := Then(c, r, GcDoneStep, Dropped(c, put, tomb).(phase := [Draining({})]));
    r := Then(c, r, FreeStep(0), Dropped(c, put, tomb));
  }

  /**
    A key is put and deleted, GC drops its tombstone and frees the segment, and power is lost:
    both records are still on the device, recovery finds the tombstone, and the key stays absent.
   */
  lemma DroppedTombstonesCanMeetACrash(c: Config, put: Rec, tomb: Rec) returns (r: Run)
    requires Deletes(c, put, tomb)
    ensures IsRun(c, r) && r.steps != [] && r.steps[|r.steps| - 1].CrashStep?
    ensures CommitDelStep(1, None) in r.steps && GcDropStep(TombAt(put)) in r.steps
    ensures var s := Last(r);
            && put in s.disk.Values && s.index == {TombAt(put)}
            && Value(s.disk, s.index, put.key) == None
  {
    r := UpToPut(c, put);
    r := UpToTomb(c, put, tomb, r);
    r := UpToFull(c, put, tomb, r);
    r := UpToDrop(c, put, tomb, r);
    CrashNext(c, put, tomb);
    var s := Dropped(c, put, tomb);
    r := Then(c, r, CrashStep({TombAt(put)}, 1), Recovered(c, s, {TombAt(put)}, 1));
    assert s.disk[AT] == put;
  }
}
