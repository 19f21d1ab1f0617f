/**
  A run in which a crash undoes an acknowledged put or delete: a relocation fails after writing its
  copy, the key is then overwritten or deleted in a segment older than that copy, and recovery
  takes the copy for the key's newest record.
 */
module LogStray {
  import opened Common
  import opened Log
  import opened LogProtocol
  import opened LogTheorems
  import opened LogRefinement
  import opened LogHistory
  import opened LogCrash
  import opened LogWitness

  /** Segments of one grain; `first` is put, then `later` put or deleted under the same key. */
  ghost predicate Story(c: Config, first: Rec, later: Rec) {
    && c.data == 1 && first.len == 1 && later.len == 1 && !first.tomb && later.key == first.key
    && (later.tomb ==> c.tombLen(later.key) == 1)
  }

  const HOME: Pba := Pba(0, 0)
  const NEXT: Pba := Pba(1, 0)
  const COPY: Pba := Pba(2, 0)

  function Blank(): State {
    State([0, 0, 0], [false, false, false], [Free, Free, Free], [1, 1, 1], [0, 0, 0], 0, map[], {}, {}, map[], map[], 0,
          None, map[], map[])
  }

  // ---------------------------------------------------------------- the first put

  function OneOpen(): State {
    Blank().(ts := [1, 0, 0], live := [true, false, false], phase := [Open, Free, Free], cursor := [0, 1, 1],
             valid := [1, 0, 0], nextTs := 1)
  }

  function PutOp(first: Rec, grain: Option<Pba>, written: bool): Op {
    Op(first, Some(0), map[], None, grain, written, None, false, false)
  }

  function Putting(first: Rec): State {
    OneOpen().(ops := map[0 := PutOp(first, None, false)], views := map[0 := {}], nextSect := 1)
  }

  function PutHeld(first: Rec): State {
    Putting(first).(cursor := [1, 1, 1], charge := map[HOME := Charge(1, Held(0))],
                    ops := map[0 := PutOp(first, Some(HOME), false)])
  }

  function PutWritten(first: Rec): State {
    PutHeld(first).(disk := map[HOME := first], ops := map[0 := PutOp(first, Some(HOME), true)])
  }

  function PutDone(first: Rec): State {
    PutWritten(first).(index := {HOME}, ranked := {HOME}, views := map[0 := {HOME}],
                       charge := map[HOME := Charge(1, Indexed)],
                       ops := map[0 := PutOp(first, Some(HOME), true).(done := true)])
  }

  function Put1(first: Rec): State {
    PutDone(first).(ops := map[], views := map[])
  }

  lemma OpenNext(c: Config, first: Rec, later: Rec)
    requires Story(c, first, later)
    ensures Init(c, Blank()) && Next(c, Blank(), StageStep(0), OneOpen())
    ensures Next(c, OneOpen(), BeginStep(0, first), Putting(first))
  {
    assert Stage(c, Blank(), 0) == OneOpen();
  }

  lemma HeldNext(c: Config, first: Rec, later: Rec)
    requires Story(c, first, later)
    ensures Next(c, Putting(first), AllocateStep(0, 0), PutHeld(first))
    ensures Next(c, PutHeld(first), WriteStep(0), PutWritten(first))
  {
    assert Allocate(Putting(first), 0, 0) == PutHeld(first);
  }

  lemma PutDecides(c: Config, first: Rec, later: Rec)
    requires Story(c, first, later)
    ensures var s := PutWritten(first);
            ReadyToCommit(s, 0) && !s.ops[0].rec.tomb && DecidePut(c, s, s.ops[0], Upsert, None) == Install(None)
  {
    var s := PutWritten(first);
    assert s.ops[0].grain == Some(HOME) && s.index == {};
    assert Match(c, s, s.ops[0]).None?;
  }

  lemma PublishIs(first: Rec)
    ensures Publish(PutWritten(first), 0, None) == PutDone(first)
  {
    var s, s' := PutWritten(first), PutDone(first);
    assert s.index + {HOME} == s'.index && s.ranked + {HOME} == s'.ranked;
    assert Extend(s.views, HOME) == s'.views;
    assert Assign(s.charge, HOME, Indexed) == s'.charge;
  }

  lemma DoneNext(c: Config, first: Rec, later: Rec)
    requires Story(c, first, later)
    ensures Next(c, PutWritten(first), CommitPutStep(0, Upsert, None), PutDone(first))
  {
    PutDecides(c, first, later);
    PublishIs(first);
  }

  lemma EndNext(c: Config, first: Rec, later: Rec)
    requires Story(c, first, later)
    ensures Next(c, PutDone(first), EndStep(0), Put1(first))
  {
    var s := PutDone(first);
    assert s.ops - {0} == map[] && s.views - {0} == map[];
    assert End(s, 0) == Put1(first);
  }

  // ---------------------------------------------------------------- the relocation that fails

  function ThreeUsed(first: Rec): State {
    Put1(first).(ts := [1, 2, 3], live := [true, true, true], phase := [Sealed, Open, Open], cursor := [1, 0, 0],
                 valid := [1, 1, 1], nextTs := 3)
  }

  function TwoUsed(first: Rec): State {
    Put1(first).(ts := [1, 2, 0], live := [true, true, false], phase := [Sealed, Open, Free], cursor := [1, 0, 1],
                 valid := [1, 1, 0], nextTs := 2)
  }

  function OneSealed(first: Rec): State {
    Put1(first).(phase := [Sealed, Free, Free])
  }

  lemma SealNext(c: Config, first: Rec, later: Rec)
    requires Story(c, first, later)
    ensures Next(c, Put1(first), SealStep(0), OneSealed(first))
  {
    assert CanSeal(c, Put1(first), 0);
  }

  lemma RestageNext(c: Config, first: Rec, later: Rec)
    requires Story(c, first, later)
    ensures Next(c, OneSealed(first), StageStep(1), TwoUsed(first))
  {
    var s := OneSealed(first);
    assert Without(s.disk, 1) == s.disk && Outside(s.ranked, 1) == s.ranked;
    assert Stage(c, s, 1) == TwoUsed(first);
  }

  lemma StageNext(c: Config, first: Rec, later: Rec)
    requires Story(c, first, later)
    ensures Next(c, TwoUsed(first), StageStep(2), ThreeUsed(first))
  {
    var s := TwoUsed(first);
    assert Without(s.disk, 2) == s.disk && Outside(s.ranked, 2) == s.ranked;
    assert Stage(c, s, 2) == ThreeUsed(first);
  }

  function Picked(first: Rec): State {
    ThreeUsed(first).(phase := [Victim, Open, Open], gc := Some(Gc(0, true, {HOME}, None)))
  }

  function CopyHeld(first: Rec): State {
    Picked(first).(cursor := [1, 0, 1], charge := map[HOME := Charge(1, Indexed), COPY := Charge(1, Copied)],
                   gc := Some(Gc(0, true, {HOME}, Some(Relocation(HOME, COPY, false)))))
  }

  function CopyWritten(first: Rec): State {
    CopyHeld(first).(disk := map[HOME := first, COPY := first],
                     gc := Some(Gc(0, true, {HOME}, Some(Relocation(HOME, COPY, true)))))
  }

  /** The relocation failed; its copy stays on the device. */
  function Strayed(first: Rec): State {
    ThreeUsed(first).(disk := map[HOME := first, COPY := first], cursor := [1, 0, 1], valid := [1, 1, 0])
  }

  lemma PickNext(c: Config, first: Rec, later: Rec)
    requires Story(c, first, later)
    ensures Next(c, ThreeUsed(first), GcPickStep(0), Picked(first))
  {
    var s := ThreeUsed(first);
    assert (set p | p in s.disk && p.seg == 0) == {HOME};
    assert MayDrop(s.ts, s.live, 0);
    assert GcPick(s, 0) == Picked(first);
  }

  lemma CopyNext(c: Config, first: Rec, later: Rec)
    requires Story(c, first, later)
    ensures Next(c, Picked(first), GcLockStep(HOME, 2), CopyHeld(first))
  {
    assert GcLock(Picked(first), HOME, 2) == CopyHeld(first);
  }

  lemma CopiedNext(c: Config, first: Rec, later: Rec)
    requires Story(c, first, later)
    ensures Next(c, CopyHeld(first), GcWriteStep, CopyWritten(first))
  {
  }

  lemma FailNext(c: Config, first: Rec, later: Rec)
    requires Story(c, first, later)
    ensures Next(c, CopyWritten(first), GcFailStep, Strayed(first))
  {
    var s := CopyWritten(first);
    assert s.charge - {COPY} == map[HOME := Charge(1, Indexed)];
    assert GcFail(s) == Strayed(first);
  }

  // ---------------------------------------------------------------- the operation that is undone

  function LaterOp(later: Rec, seen: map<Pba, bool>, reading: Option<Pba>, grain: Option<Pba>, written: bool): Op {
    Op(later, Some(1), seen, reading, grain, written, None, false, false)
  }

  function Going(first: Rec, op: Op): State {
    Strayed(first).(ops := map[1 := op], views := map[1 := {HOME}], nextSect := 2)
  }

  function Seen(later: Rec, grain: Option<Pba>, written: bool): Op {
    LaterOp(later, map[HOME := true], None, grain, written)
  }

  function LaterHeld(first: Rec, later: Rec): State {
    Going(first, Seen(later, Some(NEXT), false)).(
      cursor := [1, 1, 1], charge := map[HOME := Charge(1, Indexed), NEXT := Charge(1, Held(1))])
  }

  function LaterWritten(first: Rec, later: Rec): State {
    LaterHeld(first, later).(disk := map[HOME := first, COPY := first, NEXT := later],
                             ops := map[1 := Seen(later, Some(NEXT), true)])
  }

  function LaterDone(first: Rec, later: Rec): State {
    Publish(LaterWritten(first, later), 1, Some(HOME))
  }

  lemma GoingNext(c: Config, first: Rec, later: Rec)
    requires Story(c, first, later)
    ensures Next(c, Strayed(first), BeginStep(1, later), Going(first, LaterOp(later, map[], None, None, false)))
  {
    assert Begin(Strayed(first), 1, later) == Going(first, LaterOp(later, map[], None, None, false));
  }

  lemma SeenNext(c: Config, first: Rec, later: Rec)
    requires Story(c, first, later)
    ensures Next(c, Going(first, LaterOp(later, map[], None, None, false)), LookupStep(1, HOME),
                 Going(first, LaterOp(later, map[], Some(HOME), None, false)))
  {
  }

  lemma VerifiedNext(c: Config, first: Rec, later: Rec)
    requires Story(c, first, later)
    ensures Next(c, Going(first, LaterOp(later, map[], Some(HOME), None, false)), VerifyStep(1, true),
                 Going(first, Seen(later, None, false)))
  {
  }

  lemma LaterNext(c: Config, first: Rec, later: Rec)
    requires Story(c, first, later)
    ensures Next(c, Going(first, Seen(later, None, false)), AllocateStep(1, 1), LaterHeld(first, later))
  {
    assert Allocate(Going(first, Seen(later, None, false)), 1, 1) == LaterHeld(first, later);
  }

  lemma StoredNext(c: Config, first: Rec, later: Rec)
    requires Story(c, first, later)
    ensures Next(c, LaterHeld(first, later), WriteStep(1), LaterWritten(first, later))
  {
    assert Write(LaterHeld(first, later), 1) == LaterWritten(first, later);
  }

  function Commit(later: Rec): Step {
    if later.tomb then CommitDelStep(1, None) else CommitPutStep(1, Upsert, None)
  }

  lemma LaterDecides(c: Config, first: Rec, later: Rec)
    requires Story(c, first, later)
    ensures var s := LaterWritten(first, later);
            && ReadyToCommit(s, 1) && s.ops[1].rec == later && s.ops[1].grain == Some(NEXT)
            && Settled(c, s, s.ops[1]) && Match(c, s, s.ops[1]) == Some(HOME) && !s.disk[HOME].tomb
            && Newer(s.ts, NEXT, HOME)
  {
    var s := LaterWritten(first, later);
    assert IsMatch(c, s, s.ops[1], HOME);
  }

  lemma PutAgainNext(c: Config, first: Rec, later: Rec)
    requires Story(c, first, later) && !later.tomb
    ensures Next(c, LaterWritten(first, later), CommitPutStep(1, Upsert, None), LaterDone(first, later))
  {
    LaterDecides(c, first, later);
  }

  lemma DeleteNext(c: Config, first: Rec, later: Rec)
    requires Story(c, first, later) && later.tomb
    ensures Next(c, LaterWritten(first, later), CommitDelStep(1, None), LaterDone(first, later))
  {
    LaterDecides(c, first, later);
  }

  lemma CommitNext(c: Config, first: Rec, later: Rec)
    requires Story(c, first, later)
    ensures Next(c, LaterWritten(first, later), Commit(later), LaterDone(first, later))
  {
    if later.tomb {
      DeleteNext(c, first, later);
    } else {
      PutAgainNext(c, first, later);
    }
  }

  predicate IsDone(s: State, first: Rec, later: Rec) {
    && s.index == {NEXT} && s.disk == map[HOME := first, COPY := first, NEXT := later]
    && s.ts == [1, 2, 3] && s.live == [true, true, true]
  }

  lemma DoneIs(c: Config, first: Rec, later: Rec)
    requires Story(c, first, later)
    ensures IsDone(LaterDone(first, later), first, later)
  {
  }

  // ---------------------------------------------------------------- the crash

  lemma CopyWins(c: Config, first: Rec, later: Rec, s: State)
    requires Story(c, first, later) && IsDone(s, first, later)
    ensures CanCrash(s, {COPY}, 3)
  {
    assert Has(s.disk, {COPY}, first.key) by {
      assert COPY in {COPY} && COPY in s.disk;
    }
    assert s.live[2] && s.ts[2] == 3;
  }

  lemma Values(c: Config, first: Rec, later: Rec, s: State)
    requires Story(c, first, later) && IsDone(s, first, later)
    ensures Value(s.disk, s.index, first.key) == Shows(later)
    ensures Value(s.disk, {COPY}, first.key) == Some(first.val)
  {
    ValueAt(s.disk, s.index, NEXT);
    ValueAt(s.disk, {COPY}, COPY);
  }

  // ---------------------------------------------------------------- the run

  lemma UpToFirst(c: Config, first: Rec, later: Rec) returns (r: Run)
    requires Story(c, first, later)
    ensures IsRun(c, r) && Last(r) == Put1(first) && CommitPutStep(0, Upsert, None) in r.steps
  {
    OpenNext(c, first, later);
    HeldNext(c, first, later);
    DoneNext(c, first, later);
    EndNext(c, first, later);
    r := Run([Blank()], []);
    r := Then(c, r, StageStep(0), OneOpen());
    r := Then(c, r, BeginStep(0, first), Putting(first));
    r := Then(c, r, AllocateStep(0, 0), PutHeld(first));
    r := Then(c, r, WriteStep(0), PutWritten(first));
    r := Then(c, r, CommitPutStep(0, Upsert, None), PutDone(first));
    r := Then(c, r, EndStep(0), Put1(first));
  }

  lemma UpToStray(c: Config, first: Rec, later: Rec, r0: Run) returns (r: Run)
    requires Story(c, first, later) && IsRun(c, r0) && Last(r0) == Put1(first)
    ensures IsRun(c, r) && Last(r) == Strayed(first) && r0.steps <= r.steps && GcFailStep in r.steps
  {
    SealNext(c, first, later);
    RestageNext(c, first, later);
    StageNext(c, first, later);
    PickNext(c, first, later);
    CopyNext(c, first, later);
    CopiedNext(c, first, later);
    FailNext(c, first, later);
    r := Then(c, r0, SealStep(0), OneSealed(first));
    r := Then(c, r, StageStep(1), TwoUsed(first));
    r := Then(c, r, StageStep(2), ThreeUsed(first));
    r := Then(c, r, GcPickStep(0), Picked(first));
    r := Then(c, r, GcLockStep(HOME, 2), CopyHeld(first));
    r := Then(c, r, GcWriteStep, CopyWritten(first));
    r := Then(c, r, GcFailStep, Strayed(first));
  }

  lemma UpToLater(c: Config, first: Rec, later: Rec, r0: Run) returns (r: Run)
    requires Story(c, first, later) && IsRun(c, r0) && Last(r0) == Strayed(first)
    ensures IsRun(c, r) && Last(r) == LaterDone(first, later) && r0.steps <= r.steps
    ensures r.steps != [] && r.steps[|r.steps| - 1] == Commit(later)
  {
    GoingNext(c, first, later);
    SeenNext(c, first, later);
    VerifiedNext(c, first, later);
    LaterNext(c, first, later);
    StoredNext(c, first, later);
    CommitNext(c, first, later);
    r := Then(c, r0, BeginStep(1, later), Going(first, LaterOp(later, map[], None, None, false)));
    r := Then(c, r, LookupStep(1, HOME), Going(first, LaterOp(later, map[], Some(HOME), None, false)));
    r := Then(c, r, VerifyStep(1, true), Going(first, Seen(later, None, false)));
    r := Then(c, r, AllocateStep(1, 1), LaterHeld(first, later));
    r := Then(c, r, WriteStep(1), LaterWritten(first, later));
    r := Then(c, r, Commit(later), LaterDone(first, later));
  }

  lemma UpToCommit(c: Config, first: Rec, later: Rec) returns (r: Run, s: State)
    requires Story(c, first, later)
    ensures IsRun(c, r) && CommitPutStep(0, Upsert, None) in r.steps && GcFailStep in r.steps
    ensures r.steps != [] && r.steps[|r.steps| - 1] == Commit(later)
    ensures Last(r) == s && IsDone(s, first, later)
  {
    s := LaterDone(first, later);
    DoneIs(c, first, later);
    r := UpToFirst(c, first, later);
    r := UpToStray(c, first, later, r);
    r := UpToLater(c, first, later, r);
  }

  lemma ThenCrash(c: Config, r0: Run, s: State, index: set<Pba>, maxTs: nat) returns (r: Run)
    requires IsRun(c, r0) && Last(r0) == s && CanCrash(s, index, maxTs)
    ensures IsRun(c, r) && r.steps == r0.steps + [CrashStep(index, maxTs)]
    ensures |r.states| >= 2 && r.states[|r.states| - 2] == s
    ensures Last(r).disk == s.disk && Last(r).index == index
  {
    r := Then(c, r0, CrashStep(index, maxTs), Recovered(c, s, index, maxTs));
  }

  /**
    A put is acknowledged, a relocation of its record fails after the copy was written, a later put
    or delete of the key is acknowledged, and power is lost: the key has its first value again.
   */
  lemma StrayUndoesAnOperation(c: Config, first: Rec, later: Rec) returns (r: Run)
    requires Story(c, first, later)
    ensures IsRun(c, r) && CommitPutStep(0, Upsert, None) in r.steps && GcFailStep in r.steps
    ensures |r.steps| >= 2 && r.steps[|r.steps| - 2] == Commit(later) && r.steps[|r.steps| - 1].CrashStep?
    ensures var s, s' := r.states[|r.states| - 2], Last(r);
            && Value(s.disk, s.index, first.key) == Shows(later)
            && Value(s'.disk, s'.index, first.key) == Some(first.val)
  {
    var r0, s := UpToCommit(c, first, later);
    CopyWins(c, first, later, s);
    Values(c, first, later, s);
    r := ThenCrash(c, r0, s, {COPY}, 3);
  }
}
