/** Where records lie in their segments: apart from each other, inside the segment, of their right sizes. */
module LogLayout {
  import opened Common
  import opened Log
  import opened LogProtocol
  import opened LogProofs
  import opened LogTheorems

  /** A location holds a record, or is allocated for one. */
  predicate Taken(disk: map<Pba, Rec>, charge: map<Pba, Charge>, p: Pba) {
    p in disk || p in charge
  }

  function End(disk: map<Pba, Rec>, charge: map<Pba, Charge>, p: Pba): nat {
    p.off + if p in disk then disk[p].len else if p in charge then charge[p].len else 0
  }

  ghost predicate Agree(disk: map<Pba, Rec>, charge: map<Pba, Charge>) {
    forall p :: p in disk && p in charge ==> charge[p].len == disk[p].len
  }

  ghost predicate Apart(disk: map<Pba, Rec>, charge: map<Pba, Charge>) {
    forall p, q :: Taken(disk, charge, p) && Taken(disk, charge, q) && p.seg == q.seg && p.off < q.off ==>
      End(disk, charge, p) <= q.off
  }

  ghost predicate Inside(c: Config, disk: map<Pba, Rec>, charge: map<Pba, Charge>, cursor: seq<nat>,
                         phase: seq<Phase>)
  {
    forall p :: Taken(disk, charge, p) ==>
      && End(disk, charge, p) <= c.data
      && (At(phase, p.seg, Open) && p.seg < |cursor| ==> End(disk, charge, p) <= cursor[p.seg])
  }

  /** Tombstones are as long as their keys make them. */
  ghost predicate Sized(c: Config, disk: map<Pba, Rec>, ops: map<nat, Op>) {
    && (forall p :: p in disk && disk[p].tomb ==> disk[p].len == c.tombLen(disk[p].key))
    && (forall o :: o in ops && ops[o].rec.tomb ==> ops[o].rec.len == c.tombLen(ops[o].rec.key))
  }

  ghost predicate Laid(c: Config, s: State) {
    && Agree(s.disk, s.charge) && Apart(s.disk, s.charge)
    && Inside(c, s.disk, s.charge, s.cursor, s.phase)
    && Sized(c, s.disk, s.ops)
  }

  // ---------------------------------------------------------------- changes of the ledger and the device

  /** Nothing is taken that was not, and what is taken ends where it did. */
  ghost predicate Fewer(disk: map<Pba, Rec>, charge: map<Pba, Charge>, disk': map<Pba, Rec>,
                        charge': map<Pba, Charge>)
  {
    forall p :: Taken(disk', charge', p) ==> Taken(disk, charge, p) && End(disk', charge', p) == End(disk, charge, p)
  }

  lemma FewerApart(disk: map<Pba, Rec>, charge: map<Pba, Charge>, disk': map<Pba, Rec>, charge': map<Pba, Charge>)
    requires Apart(disk, charge) && Fewer(disk, charge, disk', charge')
    ensures Apart(disk', charge')
  {
  }

  /** What is inside stays inside when segments close or their cursors move up. */
  lemma FewerInside(c: Config, disk: map<Pba, Rec>, charge: map<Pba, Charge>, cursor: seq<nat>, phase: seq<Phase>,
                    disk': map<Pba, Rec>, charge': map<Pba, Charge>, cursor': seq<nat>, phase': seq<Phase>)
    requires Inside(c, disk, charge, cursor, phase) && Fewer(disk, charge, disk', charge')
    requires forall p :: Taken(disk', charge', p) && At(phase', p.seg, Open) && p.seg < |cursor'| ==>
               At(phase, p.seg, Open) && p.seg < |cursor| && cursor[p.seg] <= cursor'[p.seg]
    ensures Inside(c, disk', charge', cursor', phase')
  {
  }

  /** Grains are given back, or change owners. */
  ghost predicate Within(charge: map<Pba, Charge>, charge': map<Pba, Charge>) {
    forall p :: p in charge' ==> p in charge && charge'[p].len == charge[p].len
  }

  lemma GiveBack(disk: map<Pba, Rec>, charge: map<Pba, Charge>, charge': map<Pba, Charge>)
    requires Agree(disk, charge) && Within(charge, charge')
    ensures Agree(disk, charge') && Fewer(disk, charge, disk, charge')
  {
  }

  /** A record is written where it was allocated. */
  lemma PutDown(disk: map<Pba, Rec>, charge: map<Pba, Charge>, g: Pba, r: Rec)
    requires Agree(disk, charge) && g !in disk && g in charge && charge[g].len == r.len
    ensures Agree(disk[g := r], charge) && Fewer(disk, charge, disk[g := r], charge)
  {
  }

  lemma Erase(disk: map<Pba, Rec>, charge: map<Pba, Charge>, seg: nat)
    requires Agree(disk, charge) && forall p :: p in charge ==> p.seg != seg
    ensures Agree(Without(disk, seg), charge) && Fewer(disk, charge, Without(disk, seg), charge)
    ensures forall p :: Taken(Without(disk, seg), charge, p) ==> p.seg != seg
  {
    var disk' := Without(disk, seg);
    forall p | Taken(disk', charge, p) ensures Taken(disk, charge, p) && End(disk', charge, p) == End(disk, charge, p) {
    }
  }

  /** Grains are allocated past everything in an open segment. */
  lemma Take(c: Config, disk: map<Pba, Rec>, charge: map<Pba, Charge>, cursor: seq<nat>, phase: seq<Phase>, seg: nat,
             ch: Charge)
    requires Agree(disk, charge) && Apart(disk, charge) && Inside(c, disk, charge, cursor, phase)
    requires At(phase, seg, Open) && seg < |cursor| && ch.len >= 1 && cursor[seg] + ch.len <= c.data
    requires forall p :: Taken(disk, charge, p) ==> End(disk, charge, p) > p.off
    ensures var g := Pba(seg, cursor[seg]);
            var charge' := charge[g := ch];
            && Agree(disk, charge') && Apart(disk, charge')
            && Inside(c, disk, charge', cursor[seg := cursor[seg] + ch.len], phase)
  {
    assert !Taken(disk, charge, Pba(seg, cursor[seg]));
  }

  // ---------------------------------------------------------------- every step keeps it

  lemma FewerLaid(c: Config, s: State, s': State)
    requires Laid(c, s) && Fewer(s.disk, s.charge, s'.disk, s'.charge) && Agree(s'.disk, s'.charge)
    requires Sized(c, s'.disk, s'.ops)
    requires forall p :: Taken(s'.disk, s'.charge, p) && At(s'.phase, p.seg, Open) && p.seg < |s'.cursor| ==>
               At(s.phase, p.seg, Open) && p.seg < |s.cursor| && s.cursor[p.seg] <= s'.cursor[p.seg]
    ensures Laid(c, s')
  {
    FewerApart(s.disk, s.charge, s'.disk, s'.charge);
    FewerInside(c, s.disk, s.charge, s.cursor, s.phase, s'.disk, s'.charge, s'.cursor, s'.phase);
  }

  lemma NothingEmpty(s: State)
    requires OnDisk(s.disk, s.live, s.phase, s.cursor) && Below(s.charge, s.cursor)
    ensures forall p :: Taken(s.disk, s.charge, p) ==> End(s.disk, s.charge, p) > p.off
  {
  }

  lemma AllocateLaid(c: Config, s: State, o: nat, seg: nat)
    requires Laid(c, s) && CanAllocate(c, s, o, seg) && Forms(s.ops, s.phase)
    requires OnDisk(s.disk, s.live, s.phase, s.cursor) && Below(s.charge, s.cursor)
    ensures Laid(c, Allocate(s, o, seg))
  {
    assert Form(s.ops[o], s.phase);
    NothingEmpty(s);
    Take(c, s.disk, s.charge, s.cursor, s.phase, seg, Charge(s.ops[o].rec.len, Held(o)));
  }

  lemma WriteLaid(c: Config, s: State, o: nat)
    requires Laid(c, s) && CanWrite(s, o) && OpsHold(s.ops, s.charge, s.ranked, s.disk) && Forms(s.ops, s.phase)
    ensures Laid(c, Write(s, o))
  {
    assert Form(s.ops[o], s.phase) && Holds(o, s.ops[o], s.charge, s.ranked, s.disk);
    PutDown(s.disk, s.charge, s.ops[o].grain.value, s.ops[o].rec);
    FewerLaid(c, s, Write(s, o));
  }

  /** Other steps of operations leave the device alone and allocate nothing. */
  lemma OpFrame(c: Config, s: State, st: Step, s': State)
    requires NextOp(c, s, st, s') && !st.AllocateStep? && !st.WriteStep?
    ensures s'.disk == s.disk && s'.cursor == s.cursor && s'.phase == s.phase && Within(s.charge, s'.charge)
  {
  }

  predicate RightSize(c: Config, r: Rec) {
    r.tomb ==> r.len == c.tombLen(r.key)
  }

  lemma EndsKeepRec(c: Config, s: State, st: Step, s': State, o: nat)
    requires NextOp(c, s, st, s') && o in s'.ops && o in s.ops
    requires st.CommitPutStep? || st.CommitDelStep? || st.InvalidateStep? || st.RejectStep? || st.RewriteStep?
    ensures s'.ops[o].rec == s.ops[o].rec && s'.ops.Keys == s.ops.Keys
  {
  }

  lemma WorkKeepsRec(c: Config, s: State, st: Step, s': State, o: nat)
    requires NextOp(c, s, st, s') && o in s'.ops && o in s.ops
    requires st.LeaveStep? || st.EnterStep? || st.AllocateStep? || st.WriteStep?
    ensures s'.ops[o].rec == s.ops[o].rec && s'.ops.Keys == s.ops.Keys
  {
  }

  lemma ProbeKeepsRec(c: Config, s: State, st: Step, s': State, o: nat)
    requires NextOp(c, s, st, s') && o in s'.ops && o in s.ops
    requires st.LookupStep? || st.VerifyStep? || st.ForgetStep?
    ensures s'.ops[o].rec == s.ops[o].rec && s'.ops.Keys == s.ops.Keys
  {
  }

  lemma BoundKeepsRec(c: Config, s: State, st: Step, s': State, o: nat)
    requires NextOp(c, s, st, s') && o in s'.ops && (st.BeginStep? || st.EndStep?)
    ensures (o in s.ops && s'.ops[o].rec == s.ops[o].rec) || RightSize(c, s'.ops[o].rec)
  {
  }

  lemma KeepsOps(c: Config, s: State, st: Step, s': State)
    requires NextOp(c, s, st, s') && !st.BeginStep? && !st.EndStep?
    ensures s'.ops.Keys == s.ops.Keys
  {
  }

  /** Between its beginning and its end an operation keeps its record. */
  lemma SameRec(c: Config, s: State, st: Step, s': State, o: nat)
    requires NextOp(c, s, st, s') && !st.BeginStep? && !st.EndStep? && o in s.ops && o in s'.ops
    ensures s'.ops[o].rec == s.ops[o].rec
  {
    if st.LookupStep? || st.VerifyStep? || st.ForgetStep? {
      ProbeKeepsRec(c, s, st, s', o);
    } else if st.LeaveStep? || st.EnterStep? || st.AllocateStep? || st.WriteStep? {
      WorkKeepsRec(c, s, st, s', o);
    } else {
      EndsKeepRec(c, s, st, s', o);
    }
  }

  lemma OpKeepsRec(c: Config, s: State, st: Step, s': State, o: nat)
    requires NextOp(c, s, st, s') && o in s'.ops
    ensures (o in s.ops && s'.ops[o].rec == s.ops[o].rec) || RightSize(c, s'.ops[o].rec)
  {
    if st.BeginStep? || st.EndStep? {
      BoundKeepsRec(c, s, st, s', o);
    } else {
      KeepsOps(c, s, st, s');
      SameRec(c, s, st, s', o);
    }
  }

  lemma OpSized(c: Config, s: State, st: Step, s': State)
    requires NextOp(c, s, st, s') && Sized(c, s.disk, s.ops)
    ensures Sized(c, s.disk, s'.ops)
  {
    forall o | o in s'.ops ensures RightSize(c, s'.ops[o].rec) {
      OpKeepsRec(c, s, st, s', o);
    }
  }

  lemma OpLaid(c: Config, s: State, st: Step, s': State)
    requires Laid(c, s) && NextOp(c, s, st, s') && !st.AllocateStep? && !st.WriteStep?
    ensures Laid(c, s')
  {
    OpFrame(c, s, st, s');
    OpSized(c, s, st, s');
    GiveBack(s.disk, s.charge, s'.charge);
    FewerLaid(c, s, s');
  }

  lemma ReuseLaid(c: Config, s: State, seg: nat, s': State)
    requires Laid(c, s) && At(s.phase, seg, Free) && (forall p :: p in s.charge ==> p.seg != seg)
    requires s'.disk == Without(s.disk, seg) && s'.charge == s.charge && s'.ops == s.ops
    requires |s.cursor| == |s'.cursor| && forall i :: 0 <= i < |s.cursor| && i != seg ==> s'.cursor[i] == s.cursor[i]
    requires forall i :: i != seg ==> (At(s'.phase, i, Open) <==> At(s.phase, i, Open))
    ensures Laid(c, s')
  {
    Erase(s.disk, s.charge, seg);
    FewerLaid(c, s, s');
  }

  lemma SegmentLaid(c: Config, s: State, st: Step, s': State)
    requires Laid(c, s) && NextSegment(c, s, st, s') && |s.phase| == |s.cursor|
    requires At(s.phase, st.seg, Free) ==> forall p :: p in s.charge ==> p.seg != st.seg
    ensures Laid(c, s')
  {
    if st.StageStep? || st.StageIndexStep? {
      ReuseLaid(c, s, st.seg, s');
    } else {
      assert s'.disk == s.disk && s'.charge == s.charge && s'.ops == s.ops;
      FewerLaid(c, s, s');
    }
  }

  lemma GcLockLaid(c: Config, s: State, p: Pba, seg: nat)
    requires Laid(c, s) && CanLock(c, s, p, seg)
    requires OnDisk(s.disk, s.live, s.phase, s.cursor) && Below(s.charge, s.cursor)
    ensures Laid(c, GcLock(s, p, seg))
  {
    NothingEmpty(s);
    Take(c, s.disk, s.charge, s.cursor, s.phase, seg, Charge(s.disk[p].len, Copied));
  }

  lemma GcWriteLaid(c: Config, s: State)
    requires Laid(c, s) && CanGcWrite(s)
    requires Copying(s.gc, s.ts, s.phase, s.index, s.disk, s.ranked, s.charge)
    ensures Laid(c, GcWrite(s))
  {
    var r := s.gc.value.copy.value;
    PutDown(s.disk, s.charge, r.dst, s.disk[r.src]);
    FewerLaid(c, s, GcWrite(s));
  }

  lemma GcFrame(c: Config, s: State, st: Step, s': State)
    requires NextGc(c, s, st, s') && !st.GcLockStep? && !st.GcWriteStep?
    ensures s'.disk == s.disk && s'.cursor == s.cursor && s'.ops == s.ops && Within(s.charge, s'.charge)
    ensures forall i :: At(s'.phase, i, Open) ==> At(s.phase, i, Open)
  {
  }

  lemma GcLaid(c: Config, s: State, st: Step, s': State)
    requires Laid(c, s) && NextGc(c, s, st, s') && !st.GcLockStep? && !st.GcWriteStep?
    ensures Laid(c, s')
  {
    GcFrame(c, s, st, s');
    GiveBack(s.disk, s.charge, s'.charge);
    FewerLaid(c, s, s');
  }

  lemma RestartLaid(c: Config, s: State, index: set<Pba>, maxTs: nat, phase: seq<Phase>, ranked: set<Pba>,
                    graves: map<Key, Pba>)
    requires Laid(c, s) && AtRest(phase, index, s.disk)
    ensures Laid(c, Restarted(c, s, index, maxTs, phase, ranked, graves))
  {
    FewerLaid(c, s, Restarted(c, s, index, maxTs, phase, ranked, graves));
  }

  lemma OpStepLaid(c: Config, s: State, st: Step, s': State)
    requires Laid(c, s) && NextOp(c, s, st, s')
    requires OpsHold(s.ops, s.charge, s.ranked, s.disk) && Forms(s.ops, s.phase)
    requires OnDisk(s.disk, s.live, s.phase, s.cursor) && Below(s.charge, s.cursor)
    ensures Laid(c, s')
  {
    if st.AllocateStep? {
      AllocateLaid(c, s, st.o, st.seg);
    } else if st.WriteStep? {
      WriteLaid(c, s, st.o);
    } else {
      OpLaid(c, s, st, s');
    }
  }

  lemma GcStepLaid(c: Config, s: State, st: Step, s': State)
    requires Laid(c, s) && NextGc(c, s, st, s')
    requires OnDisk(s.disk, s.live, s.phase, s.cursor) && Below(s.charge, s.cursor)
    requires Copying(s.gc, s.ts, s.phase, s.index, s.disk, s.ranked, s.charge)
    ensures Laid(c, s')
  {
    if st.GcLockStep? {
      GcLockLaid(c, s, st.p, st.seg);
    } else if st.GcWriteStep? {
      GcWriteLaid(c, s);
    } else {
      GcLaid(c, s, st, s');
    }
  }

  lemma RestartStepLaid(c: Config, s: State, st: Step, s': State)
    requires Inv(c, s) && Laid(c, s) && NextRestart(c, s, st, s')
    ensures Laid(c, s')
  {
    match st
    case CrashStep(index, maxTs) =>
      PhasesAtRest(s, index, {});
      RestartLaid(c, s, index, maxTs, PhasesAfter(|s.ts|, index, {}), s.disk.Keys, map[]);
    case ReopenStep(tables, maxTs) =>
      PhasesAtRest(s, s.index, tables);
      RestartLaid(c, s, s.index, maxTs, PhasesAfter(|s.ts|, s.index, tables), s.ranked, s.graves);
  }

  lemma NextLaid(c: Config, s: State, st: Step, s': State)
    requires Inv(c, s) && Laid(c, s) && Next(c, s, st, s')
    ensures Laid(c, s')
  {
    if NextOp(c, s, st, s') {
      OpStepLaid(c, s, st, s');
    } else if NextSegment(c, s, st, s') {
      if At(s.phase, st.seg, Free) {
        Unreferenced(s, st.seg);
      }
      SegmentLaid(c, s, st, s');
    } else if NextGc(c, s, st, s') {
      GcStepLaid(c, s, st, s');
    } else {
      RestartStepLaid(c, s, st, s');
    }
  }

  /** In every state of every run, records of a segment lie apart and inside it, and have their right sizes. */
  lemma {:induction false} RunLaid(c: Config, r: Run, i: nat)
    requires IsRun(c, r) && i < |r.states|
    ensures Laid(c, r.states[i])
  {
    if i > 0 {
      RunLaid(c, r, i - 1);
      RunStepLaid(c, r, i - 1);
    }
  }

  lemma RunStepLaid(c: Config, r: Run, i: nat)
    requires IsRun(c, r) && i < |r.steps| && Laid(c, r.states[i])
    ensures Laid(c, r.states[i + 1])
  {
    RunKeeps(c, r, i);
    assert StepAt(c, r, i);
    NextLaid(c, r.states[i], r.steps[i], r.states[i + 1]);
  }
}
