/** Every step of the store's protocol keeps its invariant. */
module LogProofs {
  import opened Common
  import opened Log
  import opened LogProtocol

  // ---------------------------------------------------------------- ledger sums

  lemma {:induction false} SumRemove(charge: map<Pba, Charge>, p: Pba, seg: nat)
    requires p in charge
    ensures SumIn(charge, seg) == (if p.seg == seg then charge[p].len else 0) + SumIn(charge - {p}, seg)
    decreases |charge|
  {
    var q :| q in charge && SumIn(charge, seg) == (if q.seg == seg then charge[q].len
        else 0) + SumIn(charge - {q}, seg);
    if q != p {
      SumRemove(charge - {q}, p, seg);
      SumRemove(charge - {p}, q, seg);
      assert charge - {q} - {p} == charge - {p} - {q};
    }
  }

  lemma SumAdd(charge: map<Pba, Charge>, p: Pba, ch: Charge, seg: nat)
    requires p !in charge
    ensures SumIn(charge[p := ch], seg) == (if p.seg == seg then ch.len else 0) + SumIn(charge, seg)
  {
    SumRemove(charge[p := ch], p, seg);
    assert charge[p := ch] - {p} == charge;
  }

  lemma SumAssign(charge: map<Pba, Charge>, p: Pba, owner: Owner, seg: nat)
    ensures SumIn(Assign(charge, p, owner), seg) == SumIn(charge, seg)
  {
    if p in charge {
      SumRemove(charge, p, seg);
      SumRemove(Assign(charge, p, owner), p, seg);
      assert Assign(charge, p, owner) - {p} == charge - {p};
    }
  }

  lemma {:induction false} SumNone(charge: map<Pba, Charge>, seg: nat)
    requires forall p :: p in charge ==> p.seg != seg
    ensures SumIn(charge, seg) == 0
    decreases |charge|
  {
    if charge != map[] {
      var q :| q in charge && SumIn(charge, seg) == SumIn(charge - {q}, seg);
      SumNone(charge - {q}, seg);
    }
  }

  lemma CountRemove(c: Config, valid: seq<int>, cursor: seq<nat>, charge: map<Pba, Charge>, p: Pba)
    requires Counted(c, valid, cursor, charge) && p in charge
    ensures Counted(c, Sub(valid, p.seg, charge[p].len), cursor, charge - {p})
  {
    var valid' := Sub(valid, p.seg, charge[p].len);
    forall i | 0 <= i < |valid'| && i < |cursor|
      ensures valid'[i] == c.data - cursor[i] + SumIn(charge - {p}, i)
    {
      SumRemove(charge, p, i);
    }
  }

  lemma CountTake(c: Config, valid: seq<int>, cursor: seq<nat>, charge: map<Pba, Charge>, p: Pba, ch: Charge)
    requires Counted(c, valid, cursor, charge) && p !in charge
    requires p.seg < |cursor| && |valid| == |cursor|
    ensures Counted(c, valid, cursor[p.seg := cursor[p.seg] + ch.len], charge[p := ch])
  {
    var cursor' := cursor[p.seg := cursor[p.seg] + ch.len];
    forall i | 0 <= i < |valid| && i < |cursor'|
      ensures valid[i] == c.data - cursor'[i] + SumIn(charge[p := ch], i)
    {
      SumAdd(charge, p, ch, i);
    }
  }

  lemma CountAssign(c: Config, valid: seq<int>, cursor: seq<nat>, charge: map<Pba, Charge>, p: Pba, owner: Owner)
    requires Counted(c, valid, cursor, charge)
    ensures Counted(c, valid, cursor, Assign(charge, p, owner))
  {
    forall i | 0 <= i < |valid| && i < |cursor|
      ensures valid[i] == c.data - cursor[i] + SumIn(Assign(charge, p, owner), i)
    {
      SumAssign(charge, p, owner, i);
    }
  }

  // ---------------------------------------------------------------- one operation changes

  /** An operation keeps its allocation and its debt. */
  lemma SetOp(s: State, o: nat, op: Op)
    requires HeldOk(s.charge, s.ops, s.phase) && OwedOk(s.charge, s.ops, s.phase)
    requires o in s.ops ==>
               && op.grain == s.ops[o].grain && op.done == s.ops[o].done && op.owed == s.ops[o].owed
               && (op.owed.Some? ==> op.sect == s.ops[o].sect)
    ensures HeldOk(s.charge, s.ops[o := op], s.phase) && OwedOk(s.charge, s.ops[o := op], s.phase)
  {
  }

  lemma SetOpOwn(s: State, o: nat, op: Op)
    requires OpsHold(s.ops, s.charge, s.ranked, s.disk) && OpsOwe(s.ops, s.charge, s.disk) && Forms(s.ops, s.phase)
    requires Holds(o, op, s.charge, s.ranked, s.disk) && Owes(o, op, s.charge, s.disk) && Form(op, s.phase)
    ensures OpsHold(s.ops[o := op], s.charge, s.ranked, s.disk)
    ensures OpsOwe(s.ops[o := op], s.charge, s.disk) && Forms(s.ops[o := op], s.phase)
  {
  }

  lemma SectionsSame(ops: map<nat, Op>, open: set<nat>, next: nat, o: nat, op: Op)
    requires Sections(ops, open, next) && o in ops && op.sect == ops[o].sect
    ensures Sections(ops[o := op], open, next)
  {
  }

  lemma SectionsOpened(ops: map<nat, Op>, open: set<nat>, next: nat, o: nat, op: Op)
    requires Sections(ops, open, next) && op.sect == Some(next)
    ensures Sections(ops[o := op], open + {next}, next + 1)
  {
  }

  lemma SectionsClosed(ops: map<nat, Op>, open: set<nat>, next: nat, o: nat, op: Op)
    requires Sections(ops, open, next) && o in ops && ops[o].sect.Some? && op.sect.None?
    ensures Sections(ops[o := op], open - {ops[o].sect.value}, next)
  {
  }

  lemma SectionsRemoved(ops: map<nat, Op>, open: set<nat>, next: nat, o: nat)
    requires Sections(ops, open, next) && o in ops
    ensures Sections(ops - {o}, if ops[o].sect.Some? then open - {ops[o].sect.value} else open, next)
  {
  }

  lemma ProbesOpened(ops: map<nat, Op>, views: map<nat, set<Pba>>, disk: map<Pba, Rec>, next: nat, o: nat, op: Op,
                     index: set<Pba>)
    requires Probes(ops, views, disk) && Sections(ops, views.Keys, next)
    requires op.seen == map[] && op.reading == None
    ensures Probes(ops[o := op], views[next := index], disk)
  {
    var ops', views' := ops[o := op], views[next := index];
    forall o2 | o2 in ops' ensures ProbeTrue(ops'[o2], views', disk) {
      if o2 != o {
        assert ProbeTrue(ops[o2], views, disk);
      }
    }
  }

  lemma ProbesClosed(ops: map<nat, Op>, views: map<nat, set<Pba>>, disk: map<Pba, Rec>, next: nat, o: nat, x: nat)
    requires Probes(ops, views, disk) && Sections(ops, views.Keys, next)
    requires o in ops && ops[o].sect == Some(x)
    ensures Probes(ops - {o}, views - {x}, disk)
  {
    forall o2 | o2 in ops - {o} ensures ProbeTrue(ops[o2], views - {x}, disk) {
      assert ProbeTrue(ops[o2], views, disk);
      assert ops[o2].sect != Some(x);
    }
  }

  lemma ProbesSet(ops: map<nat, Op>, views: map<nat, set<Pba>>, disk: map<Pba, Rec>, o: nat, op: Op)
    requires Probes(ops - {o}, views, disk) && ProbeTrue(op, views, disk)
    ensures Probes(ops[o := op], views, disk)
  {
    var ops' := ops[o := op];
    forall o2 | o2 in ops' ensures ProbeTrue(ops'[o2], views, disk) {
      if o2 != o {
        assert o2 in ops - {o};
      }
    }
  }

  lemma BeginKeeps(c: Config, s: State, o: nat, rec: Rec)
    requires Inv(c, s) && CanBegin(c, s, o, rec)
    ensures Inv(c, Begin(s, o, rec))
  {
    var op := Op(rec, Some(s.nextSect), map[], None, None, false, None, false, false);
    SetOp(s, o, op);
    SetOpOwn(s, o, op);
    OpenSection(s, o, op);
  }

  lemma OpenSection(s: State, o: nat, op: Op)
    requires Sections(s.ops, s.views.Keys, s.nextSect) && Probes(s.ops, s.views, s.disk)
    requires Protected(s.views, s.disk, s.phase) && Visible(s.views, s.index)
    requires IndexedOk(s.charge, s.index, s.phase) && Backed(s.index, s.disk, s.ranked, s.charge)
    requires op.sect == Some(s.nextSect) && op.seen == map[] && op.reading == None
    ensures var views := s.views[s.nextSect := s.index];
            && Sections(s.ops[o := op], views.Keys, s.nextSect + 1) && Probes(s.ops[o := op], views, s.disk)
            && Protected(views, s.disk, s.phase) && Visible(views, s.index)
  {
    SectionsOpened(s.ops, s.views.Keys, s.nextSect, o, op);
    assert s.views[s.nextSect := s.index].Keys == s.views.Keys + {s.nextSect};
    ProbesOpened(s.ops, s.views, s.disk, s.nextSect, o, op, s.index);
  }

  lemma EnterKeeps(c: Config, s: State, o: nat)
    requires Inv(c, s) && CanEnter(s, o)
    ensures Inv(c, Enter(s, o))
  {
    var op := s.ops[o].(sect := Some(s.nextSect));
    assert Form(s.ops[o], s.phase) && Holds(o, s.ops[o], s.charge, s.ranked, s.disk) &&
        Owes(o, s.ops[o], s.charge, s.disk);
    SetOp(s, o, op);
    SetOpOwn(s, o, op);
    OpenSection(s, o, op);
  }

  lemma LeaveKeeps(c: Config, s: State, o: nat)
    requires Inv(c, s) && CanLeave(s, o)
    ensures Inv(c, Leave(s, o))
  {
    var op := s.ops[o].(sect := None, seen := map[], reading := None);
    var x := s.ops[o].sect.value;
    assert Form(s.ops[o], s.phase) && Holds(o, s.ops[o], s.charge, s.ranked, s.disk) &&
        Owes(o, s.ops[o], s.charge, s.disk);
    SetOp(s, o, op);
    SetOpOwn(s, o, op);
    SectionsClosed(s.ops, s.views.Keys, s.nextSect, o, op);
    assert (s.views - {x}).Keys == s.views.Keys - {x};
    ProbesClosed(s.ops, s.views, s.disk, s.nextSect, o, x);
    ProbesSet(s.ops, s.views - {x}, s.disk, o, op);
    ShrinkViews(s, x);
  }

  lemma ShrinkViews(s: State, x: nat)
    requires Protected(s.views, s.disk, s.phase) && Visible(s.views, s.index)
    ensures Protected(s.views - {x}, s.disk, s.phase) && Visible(s.views - {x}, s.index)
  {
  }

  lemma EndKeeps(c: Config, s: State, o: nat)
    requires Inv(c, s) && CanEnd(s, o)
    ensures Inv(c, End(s, o))
  {
    RemoveOp(s, o);
    SectionsRemoved(s.ops, s.views.Keys, s.nextSect, o);
    if s.ops[o].sect.Some? {
      var x := s.ops[o].sect.value;
      assert (s.views - {x}).Keys == s.views.Keys - {x};
      ProbesClosed(s.ops, s.views, s.disk, s.nextSect, o, x);
      ShrinkViews(s, x);
    }
  }

  lemma RemoveOp(s: State, o: nat)
    requires HeldOk(s.charge, s.ops, s.phase) && OwedOk(s.charge, s.ops, s.phase)
    requires OpsHold(s.ops, s.charge, s.ranked, s.disk) && OpsOwe(s.ops, s.charge, s.disk) && Forms(s.ops, s.phase)
    requires Probes(s.ops, s.views, s.disk)
    requires CanEnd(s, o)
    ensures var ops := s.ops - {o};
            && HeldOk(s.charge, ops, s.phase) && OwedOk(s.charge, ops, s.phase)
            && OpsHold(ops, s.charge, s.ranked, s.disk) && OpsOwe(ops, s.charge, s.disk) && Forms(ops, s.phase)
            && Probes(ops, s.views, s.disk)
  {
  }

  /** The steps of a probe. */
  lemma ProbeKeeps(c: Config, s: State, o: nat, op: Op)
    requires Inv(c, s) && o in s.ops
    requires op == s.ops[o].(seen := op.seen, reading := op.reading)
    requires op.sect.None? ==> op.seen == map[] && op.reading == None
    requires ProbeTrue(op, s.views, s.disk)
    ensures Inv(c, s.(ops := s.ops[o := op]))
  {
    assert Form(s.ops[o], s.phase) && Holds(o, s.ops[o], s.charge, s.ranked, s.disk) &&
        Owes(o, s.ops[o], s.charge, s.disk);
    SetOp(s, o, op);
    SetOpOwn(s, o, op);
    SectionsSame(s.ops, s.views.Keys, s.nextSect, o, op);
    assert Probes(s.ops - {o}, s.views, s.disk);
    ProbesSet(s.ops, s.views, s.disk, o, op);
  }

  lemma LookupKeeps(c: Config, s: State, o: nat, p: Pba)
    requires Inv(c, s) && CanLookup(s, o, p)
    ensures Inv(c, Lookup(s, o, p))
  {
    assert ProbeTrue(s.ops[o], s.views, s.disk);
    ProbeKeeps(c, s, o, s.ops[o].(reading := Some(p)));
  }

  lemma ForgetKeeps(c: Config, s: State, o: nat)
    requires Inv(c, s) && o in s.ops
    ensures Inv(c, ForgetProbe(s, o))
  {
    assert ProbeTrue(s.ops[o], s.views, s.disk) && Form(s.ops[o], s.phase);
    ProbeKeeps(c, s, o, s.ops[o].(seen := map[]));
  }

  lemma VerifyKeeps(c: Config, s: State, o: nat, answer: bool)
    requires Inv(c, s) && CanVerify(s, o, answer)
    ensures Inv(c, Verify(s, o, answer))
  {
    var op := s.ops[o];
    assert ProbeTrue(op, s.views, s.disk) && Form(op, s.phase);
    var p := op.reading.value;
    assert op.sect.value in s.views;
    assert p in s.disk;
    ProbeKeeps(c, s, o, op.(seen := op.seen[p := answer], reading := None));
  }

  // ---------------------------------------------------------------- allocation

  lemma FreshAtCursor(s: State, seg: nat)
    requires OnDisk(s.disk, s.live, s.phase, s.cursor) && Below(s.charge, s.cursor)
    requires At(s.phase, seg, Open) && seg < |s.cursor|
    ensures Pba(seg, s.cursor[seg]) !in s.charge && Pba(seg, s.cursor[seg]) !in s.disk
  {
  }

  lemma TakeSpace(c: Config, s: State, seg: nat, ch: Charge)
    requires Shape(c, s.ts, s.live, s.phase, s.cursor, s.valid)
    requires OnDisk(s.disk, s.live, s.phase, s.cursor) && Below(s.charge, s.cursor)
    requires At(s.phase, seg, Open) && seg < |s.cursor| && s.cursor[seg] + ch.len <= c.data && ch.len >= 1
    ensures var cursor := s.cursor[seg := s.cursor[seg] + ch.len];
            && Shape(c, s.ts, s.live, s.phase, cursor, s.valid) && OnDisk(s.disk, s.live, s.phase, cursor)
            && Below(s.charge[Pba(seg, s.cursor[seg]) := ch], cursor)
  {
  }

  lemma TakeCharge(s: State, p: Pba, ch: Charge)
    requires p !in s.charge && ch.owner != Indexed && !ch.owner.Owed?
    requires IndexedOk(s.charge, s.index, s.phase) && OwedOk(s.charge, s.ops, s.phase)
    requires Backed(s.index, s.disk, s.ranked, s.charge)
    requires OpsHold(s.ops, s.charge, s.ranked, s.disk) && OpsOwe(s.ops, s.charge, s.disk)
    ensures var charge := s.charge[p := ch];
            && IndexedOk(charge, s.index, s.phase) && OwedOk(charge, s.ops, s.phase)
            && Backed(s.index, s.disk, s.ranked, charge)
            && OpsHold(s.ops, charge, s.ranked, s.disk) && OpsOwe(s.ops, charge, s.disk)
  {
    var charge := s.charge[p := ch];
    forall o | o in s.ops ensures Holds(o, s.ops[o], charge, s.ranked, s.disk) {
      assert Holds(o, s.ops[o], s.charge, s.ranked, s.disk);
    }
    forall o | o in s.ops ensures Owes(o, s.ops[o], charge, s.disk) {
      assert Owes(o, s.ops[o], s.charge, s.disk);
    }
  }

  lemma AllocateSpace(c: Config, s: State, o: nat, seg: nat)
    requires CanAllocate(c, s, o, seg) && s.ops[o].rec.len >= 1
    requires Shape(c, s.ts, s.live, s.phase, s.cursor, s.valid)
    requires OnDisk(s.disk, s.live, s.phase, s.cursor) && Below(s.charge, s.cursor)
    ensures var s' := Allocate(s, o, seg);
            && Shape(c, s.ts, s.live, s.phase, s'.cursor, s.valid)
            && OnDisk(s.disk, s.live, s.phase, s'.cursor) && Below(s'.charge, s'.cursor)
  {
    TakeSpace(c, s, seg, Charge(s.ops[o].rec.len, Held(o)));
  }

  lemma AllocateOps(c: Config, s: State, o: nat, seg: nat)
    requires CanAllocate(c, s, o, seg)
    requires Pba(seg, s.cursor[seg]) !in s.charge && Pba(seg, s.cursor[seg]) !in s.disk
    requires s.ranked <= s.disk.Keys
    requires IndexedOk(s.charge, s.index, s.phase) && OwedOk(s.charge, s.ops, s.phase)
    requires Backed(s.index, s.disk, s.ranked, s.charge)
    requires OpsHold(s.ops, s.charge, s.ranked, s.disk) && OpsOwe(s.ops, s.charge, s.disk) && Forms(s.ops, s.phase)
    requires Sections(s.ops, s.views.Keys, s.nextSect) && Probes(s.ops, s.views, s.disk)
    ensures var s' := Allocate(s, o, seg);
            && IndexedOk(s'.charge, s.index, s.phase) && OwedOk(s'.charge, s'.ops, s.phase)
            && Backed(s.index, s.disk, s.ranked, s'.charge)
            && OpsHold(s'.ops, s'.charge, s.ranked, s.disk) && OpsOwe(s'.ops, s'.charge, s.disk)
            && Forms(s'.ops, s.phase)
            && Sections(s'.ops, s.views.Keys, s.nextSect) && Probes(s'.ops, s.views, s.disk)
  {
    var p := Pba(seg, s.cursor[seg]);
    var op := s.ops[o].(grain := Some(p), written := false);
    var ch := Charge(op.rec.len, Held(o));
    assert Form(s.ops[o], s.phase) && Owes(o, s.ops[o], s.charge, s.disk) && ProbeTrue(s.ops[o], s.views, s.disk);
    TakeCharge(s, p, ch);
    var t := s.(charge := s.charge[p := ch]);
    SetOpOwn(t, o, op);
    SetOwed(t, o, op);
    SectionsSame(s.ops, s.views.Keys, s.nextSect, o, op);
    assert Probes(s.ops - {o}, s.views, s.disk);
    ProbesSet(s.ops, s.views, s.disk, o, op);
  }

  lemma AllocateKeeps(c: Config, s: State, o: nat, seg: nat)
    requires Inv(c, s) && CanAllocate(c, s, o, seg)
    ensures Inv(c, Allocate(s, o, seg))
  {
    assert Form(s.ops[o], s.phase);
    FreshAtCursor(s, seg);
    AllocateSpace(c, s, o, seg);
    CountTake(c, s.valid, s.cursor, s.charge, Pba(seg, s.cursor[seg]), Charge(s.ops[o].rec.len, Held(o)));
    AllocateOps(c, s, o, seg);
    AllocateHeld(s, o, seg);
  }

  lemma AllocateHeld(s: State, o: nat, seg: nat)
    requires o in s.ops && s.ops[o].grain.None? && !s.ops[o].done && At(s.phase, seg, Open) && seg < |s.cursor|
    requires Pba(seg, s.cursor[seg]) !in s.charge
    requires HeldOk(s.charge, s.ops, s.phase) && CopiedOk(s.charge, s.gc, s.phase)
    requires Copying(s.gc, s.ts, s.phase, s.index, s.disk, s.ranked, s.charge)
    ensures var s' := Allocate(s, o, seg);
            && HeldOk(s'.charge, s'.ops, s.phase) && CopiedOk(s'.charge, s.gc, s.phase)
            && Copying(s.gc, s.ts, s.phase, s.index, s.disk, s.ranked, s'.charge)
  {
  }

  lemma SetOwed(s: State, o: nat, op: Op)
    requires OwedOk(s.charge, s.ops, s.phase)
    requires o in s.ops && op.owed == s.ops[o].owed && op.sect == s.ops[o].sect
    ensures OwedOk(s.charge, s.ops[o := op], s.phase)
  {
  }

  lemma GcLockSpace(c: Config, s: State, p: Pba, seg: nat)
    requires CanLock(c, s, p, seg)
    requires Shape(c, s.ts, s.live, s.phase, s.cursor, s.valid)
    requires OnDisk(s.disk, s.live, s.phase, s.cursor) && Below(s.charge, s.cursor)
    ensures var s' := GcLock(s, p, seg);
            && Shape(c, s.ts, s.live, s.phase, s'.cursor, s.valid)
            && OnDisk(s.disk, s.live, s.phase, s'.cursor) && Below(s'.charge, s'.cursor)
  {
    TakeSpace(c, s, seg, Charge(s.disk[p].len, Copied));
  }

  lemma GcLockOwners(s: State, p: Pba, seg: nat)
    requires s.gc.Some? && p in s.disk && seg < |s.cursor|
    requires Pba(seg, s.cursor[seg]) !in s.charge
    requires IndexedOk(s.charge, s.index, s.phase) && OwedOk(s.charge, s.ops, s.phase)
    requires Backed(s.index, s.disk, s.ranked, s.charge)
    requires OpsHold(s.ops, s.charge, s.ranked, s.disk) && OpsOwe(s.ops, s.charge, s.disk)
    ensures var s' := GcLock(s, p, seg);
            && IndexedOk(s'.charge, s.index, s.phase) && OwedOk(s'.charge, s.ops, s.phase)
            && Backed(s.index, s.disk, s.ranked, s'.charge)
            && OpsHold(s.ops, s'.charge, s.ranked, s.disk) && OpsOwe(s.ops, s'.charge, s.disk)
  {
    TakeCharge(s, Pba(seg, s.cursor[seg]), Charge(s.disk[p].len, Copied));
  }

  lemma GcLockGc(c: Config, s: State, p: Pba, seg: nat)
    requires CanLock(c, s, p, seg)
    requires Pba(seg, s.cursor[seg]) !in s.charge && Pba(seg, s.cursor[seg]) !in s.disk && s.ranked <= s.disk.Keys
    requires HeldOk(s.charge, s.ops, s.phase) && CopiedOk(s.charge, s.gc, s.phase)
    requires Walking(s.gc, s.phase, s.index, s.disk) && DropsSafely(s.gc, s.ts, s.live)
    ensures var s' := GcLock(s, p, seg);
            && HeldOk(s'.charge, s.ops, s.phase) && CopiedOk(s'.charge, s'.gc, s.phase)
            && Copying(s'.gc, s.ts, s.phase, s.index, s.disk, s.ranked, s'.charge)
            && Walking(s'.gc, s.phase, s.index, s.disk) && DropsSafely(s'.gc, s.ts, s.live)
  {
  }

  lemma GcLockCount(c: Config, s: State, p: Pba, seg: nat)
    requires s.gc.Some? && p in s.disk && seg < |s.cursor| == |s.valid| && Pba(seg, s.cursor[seg]) !in s.charge
    requires Counted(c, s.valid, s.cursor, s.charge)
    ensures Counted(c, s.valid, GcLock(s, p, seg).cursor, GcLock(s, p, seg).charge)
  {
    CountTake(c, s.valid, s.cursor, s.charge, Pba(seg, s.cursor[seg]), Charge(s.disk[p].len, Copied));
  }

  lemma GcLockKeeps(c: Config, s: State, p: Pba, seg: nat)
    requires Inv(c, s) && CanLock(c, s, p, seg)
    ensures Inv(c, GcLock(s, p, seg))
  {
    FreshAtCursor(s, seg);
    GcLockSpace(c, s, p, seg);
    GcLockCount(c, s, p, seg);
    GcLockOwners(s, p, seg);
    GcLockGc(c, s, p, seg);
  }

  // ---------------------------------------------------------------- a record reaches the device

  lemma GrowDisk(s: State, p: Pba, r: Rec)
    requires p !in s.disk && p in s.charge && At(s.phase, p.seg, Open) && r.len >= 1
    requires Below(s.charge, s.cursor) && Stamped(s.ts, s.live, s.phase, s.nextTs) && |s.live| == |s.phase|
    requires OnDisk(s.disk, s.live, s.phase, s.cursor)
    requires Backed(s.index, s.disk, s.ranked, s.charge) && Unique(s.index, s.disk)
    requires Protected(s.views, s.disk, s.phase)
    requires Walking(s.gc, s.phase, s.index, s.disk)
    ensures var disk := s.disk[p := r];
            && OnDisk(disk, s.live, s.phase, s.cursor)
            && Backed(s.index, disk, s.ranked, s.charge) && Unique(s.index, disk)
            && Protected(s.views, disk, s.phase)
            && Walking(s.gc, s.phase, s.index, disk)
  {
  }

  lemma GrowDiskOps(s: State, p: Pba, r: Rec)
    requires p !in s.disk
    requires OpsOwe(s.ops, s.charge, s.disk) && Probes(s.ops, s.views, s.disk)
    ensures OpsOwe(s.ops, s.charge, s.disk[p := r]) && Probes(s.ops, s.views, s.disk[p := r])
  {
    var disk := s.disk[p := r];
    forall o | o in s.ops ensures Owes(o, s.ops[o], s.charge, disk) {
      assert Owes(o, s.ops[o], s.charge, s.disk);
    }
    forall o | o in s.ops ensures ProbeTrue(s.ops[o], s.views, disk) {
      assert ProbeTrue(s.ops[o], s.views, s.disk);
    }
  }

  lemma GrowDiskOrder(s: State, p: Pba, r: Rec)
    requires p !in s.disk && s.index <= s.disk.Keys
    requires Newest(s.ranked, s.index, s.disk, s.ts)
    requires Burials(s.ranked, s.index, s.disk, s.graves, s.ts, s.live, s.phase)
    ensures Newest(s.ranked, s.index, s.disk[p := r], s.ts)
    ensures Burials(s.ranked, s.index, s.disk[p := r], s.graves, s.ts, s.live, s.phase)
  {
    var disk := s.disk[p := r];
    forall q | q in s.ranked && q in disk && !Has(disk, s.index, disk[q].key)
      ensures Buried(q, disk, s.ranked, s.graves, s.ts, s.live, s.phase)
    {
      assert !Has(s.disk, s.index, s.disk[q].key);
    }
  }

  lemma WriteKeeps(c: Config, s: State, o: nat)
    requires Inv(c, s) && CanWrite(s, o)
    ensures Inv(c, Write(s, o))
  {
    var op := s.ops[o];
    var g := op.grain.value;
    assert Form(op, s.phase) && Holds(o, op, s.charge, s.ranked, s.disk) && Owes(o, op, s.charge, s.disk);
    assert !op.done;
    assert Fits(c, s.disk[g := op.rec]);
    GrowDisk(s, g, op.rec);
    GrowDiskOps(s, g, op.rec);
    GrowDiskOrder(s, g, op.rec);
    WriteHeld(s, o, op.(written := true));
    SetOp(s, o, op.(written := true));
    var t := s.(disk := s.disk[g := op.rec]);
    assert Owes(o, op, s.charge, t.disk);
    WriteForms(t, o);
    SectionsSame(s.ops, s.views.Keys, s.nextSect, o, op.(written := true));
    assert ProbeTrue(op, s.views, t.disk);
    assert Probes(s.ops - {o}, s.views, t.disk);
    ProbesSet(s.ops, s.views, t.disk, o, op.(written := true));
  }

  lemma WriteForms(s: State, o: nat)
    requires o in s.ops && OpsOwe(s.ops, s.charge, s.disk) && Forms(s.ops, s.phase)
    ensures OpsOwe(s.ops[o := s.ops[o].(written := true)], s.charge, s.disk)
    ensures Forms(s.ops[o := s.ops[o].(written := true)], s.phase)
  {
    assert Owes(o, s.ops[o], s.charge, s.disk) && Form(s.ops[o], s.phase);
  }

  /** Only one operation holds the grain being written. */
  lemma WriteHeld(s: State, o: nat, op: Op)
    requires o in s.ops && s.ops[o].grain.Some? && !s.ops[o].written && !s.ops[o].done &&
        op == s.ops[o].(written := true)
    requires OpsHold(s.ops, s.charge, s.ranked, s.disk)
    requires Copying(s.gc, s.ts, s.phase, s.index, s.disk, s.ranked, s.charge)
    ensures var disk := s.disk[op.grain.value := op.rec];
            && OpsHold(s.ops[o := op], s.charge, s.ranked, disk)
            && Copying(s.gc, s.ts, s.phase, s.index, disk, s.ranked, s.charge)
  {
    var g := op.grain.value;
    assert Holds(o, s.ops[o], s.charge, s.ranked, s.disk);
    var ops, disk := s.ops[o := op], s.disk[g := op.rec];
    forall o2 | o2 in ops ensures Holds(o2, ops[o2], s.charge, s.ranked, disk) {
      if o2 != o {
        assert Holds(o2, s.ops[o2], s.charge, s.ranked, s.disk);
      }
    }
  }

  lemma GcWriteKeeps(c: Config, s: State)
    requires Inv(c, s) && CanGcWrite(s)
    ensures Inv(c, GcWrite(s))
  {
    var r := s.gc.value.copy.value;
    assert Fits(c, s.disk[r.dst := s.disk[r.src]]);
    GrowDisk(s, r.dst, s.disk[r.src]);
    GrowDiskOps(s, r.dst, s.disk[r.src]);
    GrowDiskOrder(s, r.dst, s.disk[r.src]);
    GcWriteHeld(s);
  }

  lemma GcWriteHeld(s: State)
    requires CanGcWrite(s)
    requires OpsHold(s.ops, s.charge, s.ranked, s.disk) && CopiedOk(s.charge, s.gc, s.phase)
    requires Copying(s.gc, s.ts, s.phase, s.index, s.disk, s.ranked, s.charge)
    requires Walking(s.gc, s.phase, s.index, s.disk)
    ensures var s' := GcWrite(s);
            && OpsHold(s.ops, s.charge, s.ranked, s'.disk) && CopiedOk(s.charge, s'.gc, s.phase)
            && Copying(s'.gc, s.ts, s.phase, s.index, s'.disk, s.ranked, s.charge)
            && Walking(s'.gc, s.phase, s.index, s'.disk)
  {
    var disk := GcWrite(s).disk;
    forall o | o in s.ops ensures Holds(o, s.ops[o], s.charge, s.ranked, disk) {
      assert Holds(o, s.ops[o], s.charge, s.ranked, s.disk);
    }
  }

  // ---------------------------------------------------------------- grains given back

  lemma Uncharge(c: Config, s: State, p: Pba)
    requires p in s.charge && p !in s.index
    requires Shape(c, s.ts, s.live, s.phase, s.cursor, s.valid) && Counted(c, s.valid, s.cursor, s.charge)
    requires Below(s.charge, s.cursor) && IndexedOk(s.charge, s.index, s.phase)
    requires Backed(s.index, s.disk, s.ranked, s.charge)
    ensures var charge, valid := s.charge - {p}, Sub(s.valid, p.seg, s.charge[p].len);
            && Shape(c, s.ts, s.live, s.phase, s.cursor, valid) && Counted(c, valid, s.cursor, charge)
            && Below(charge, s.cursor) && IndexedOk(charge, s.index, s.phase)
            && Backed(s.index, s.disk, s.ranked, charge)
  {
    CountRemove(c, s.valid, s.cursor, s.charge, p);
  }

  /** Grains nobody else holds stop being charged. */
  lemma UnchargeOthers(s: State, p: Pba, o: nat)
    requires p in s.charge && s.charge[p].owner != Copied
    requires s.charge[p].owner == Held(o) || s.charge[p].owner == Owed(o) || s.charge[p].owner == Indexed
    requires CopiedOk(s.charge, s.gc, s.phase)
    requires OpsHold(s.ops, s.charge, s.ranked, s.disk) && OpsOwe(s.ops, s.charge, s.disk)
    requires Copying(s.gc, s.ts, s.phase, s.index, s.disk, s.ranked, s.charge)
    ensures var charge := s.charge - {p};
            && CopiedOk(charge, s.gc, s.phase)
            && Copying(s.gc, s.ts, s.phase, s.index, s.disk, s.ranked, charge)
            && (forall o2 :: o2 in s.ops && o2 != o ==>
                  Holds(o2, s.ops[o2], charge, s.ranked, s.disk) && Owes(o2, s.ops[o2], charge, s.disk))
  {
    var charge := s.charge - {p};
    forall o2 | o2 in s.ops && o2 != o
      ensures Holds(o2, s.ops[o2], charge, s.ranked, s.disk) && Owes(o2, s.ops[o2], charge, s.disk)
    {
      assert Holds(o2, s.ops[o2], s.charge, s.ranked, s.disk) && Owes(o2, s.ops[o2], s.charge, s.disk);
    }
  }

  lemma UnchargeOwn(s: State, o: nat, op: Op, charge: map<Pba, Charge>)
    requires o in s.ops
    requires forall o2 :: o2 in s.ops && o2 != o ==>
               Holds(o2, s.ops[o2], charge, s.ranked, s.disk) && Owes(o2, s.ops[o2], charge, s.disk)
    requires Holds(o, op, charge, s.ranked, s.disk) && Owes(o, op, charge, s.disk)
    requires Forms(s.ops, s.phase) && Form(op, s.phase)
    requires Probes(s.ops, s.views, s.disk) && Sections(s.ops, s.views.Keys, s.nextSect)
    requires op.sect == s.ops[o].sect && op.seen == s.ops[o].seen && op.reading == s.ops[o].reading &&
        op.rec == s.ops[o].rec
    ensures var ops := s.ops[o := op];
            && OpsHold(ops, charge, s.ranked, s.disk) && OpsOwe(ops, charge, s.disk) && Forms(ops, s.phase)
            && Probes(ops, s.views, s.disk) && Sections(ops, s.views.Keys, s.nextSect)
  {
    SectionsSame(s.ops, s.views.Keys, s.nextSect, o, op);
    assert ProbeTrue(s.ops[o], s.views, s.disk);
    assert Probes(s.ops - {o}, s.views, s.disk);
    ProbesSet(s.ops, s.views, s.disk, o, op);
  }

  lemma InvalidateOwners(s: State, o: nat)
    requires CanInvalidate(s, o)
    requires HeldOk(s.charge, s.ops, s.phase) && OwedOk(s.charge, s.ops, s.phase)
    ensures var s' := Invalidate(s, o);
            HeldOk(s'.charge, s'.ops, s.phase) && OwedOk(s'.charge, s'.ops, s.phase)
  {
  }

  lemma InvalidateKeeps(c: Config, s: State, o: nat)
    requires Inv(c, s) && CanInvalidate(s, o)
    ensures Inv(c, Invalidate(s, o))
  {
    var op := s.ops[o];
    var p := op.owed.value;
    assert Form(op, s.phase) && Holds(o, op, s.charge, s.ranked, s.disk) && Owes(o, op, s.charge, s.disk);
    assert p !in s.index;
    Uncharge(c, s, p);
    UnchargeOthers(s, p, o);
    InvalidateOwners(s, o);
    UnchargeOwn(s, o, op.(owed := None), s.charge - {p});
  }

  lemma GiveUpOwners(s: State, o: nat, dead: bool)
    requires CanReject(s, o)
    requires HeldOk(s.charge, s.ops, s.phase) && OwedOk(s.charge, s.ops, s.phase)
    ensures var s' := GiveUp(s, o, dead);
            HeldOk(s'.charge, s'.ops, s.phase) && OwedOk(s'.charge, s'.ops, s.phase)
  {
  }

  lemma GiveUpKeeps(c: Config, s: State, o: nat, dead: bool)
    requires Inv(c, s) && CanReject(s, o)
    ensures Inv(c, GiveUp(s, o, dead))
  {
    var op := s.ops[o];
    var p := op.grain.value;
    assert Form(op, s.phase) && Holds(o, op, s.charge, s.ranked, s.disk) && Owes(o, op, s.charge, s.disk);
    assert p !in s.index;
    Uncharge(c, s, p);
    UnchargeOthers(s, p, o);
    GiveUpOwners(s, o, dead);
    UnchargeOwn(s, o, op.(grain := None, written := false, dead := dead), s.charge - {p});
  }

  /** A record that is charged to nobody and not newer than its key's entry can be ranked. */
  lemma RankOps(s: State, g: Pba)
    requires g !in s.charge
    requires OpsHold(s.ops, s.charge, s.ranked, s.disk) && Backed(s.index, s.disk, s.ranked, s.charge)
    requires Copying(s.gc, s.ts, s.phase, s.index, s.disk, s.ranked, s.charge)
    ensures OpsHold(s.ops, s.charge, s.ranked + {g}, s.disk) && Backed(s.index, s.disk, s.ranked + {g}, s.charge)
    ensures Copying(s.gc, s.ts, s.phase, s.index, s.disk, s.ranked + {g}, s.charge)
  {
    forall o | o in s.ops ensures Holds(o, s.ops[o], s.charge, s.ranked + {g}, s.disk) {
      assert Holds(o, s.ops[o], s.charge, s.ranked, s.disk);
    }
  }

  lemma RankOrder(s: State, g: Pba, m: Pba)
    requires g in s.disk && m in s.index && m in s.disk && s.disk[m].key == s.disk[g].key && AtLeast(s.ts, m, g)
    requires Unique(s.index, s.disk) && Newest(s.ranked, s.index, s.disk, s.ts)
    requires Burials(s.ranked, s.index, s.disk, s.graves, s.ts, s.live, s.phase)
    ensures Newest(s.ranked + {g}, s.index, s.disk, s.ts)
    ensures Burials(s.ranked + {g}, s.index, s.disk, s.graves, s.ts, s.live, s.phase)
  {
    assert Has(s.disk, s.index, s.disk[g].key);
    forall p | p in s.ranked + {g} && p in s.disk && !Has(s.disk, s.index, s.disk[p].key)
      ensures Buried(p, s.disk, s.ranked + {g}, s.graves, s.ts, s.live, s.phase)
    {
      assert Buried(p, s.disk, s.ranked, s.graves, s.ts, s.live, s.phase);
    }
  }

  lemma RankKeeps(c: Config, s: State, g: Pba, m: Pba)
    requires Inv(c, s) && g !in s.charge && g in s.disk
    requires m in s.index && m in s.disk && s.disk[m].key == s.disk[g].key && AtLeast(s.ts, m, g)
    ensures Inv(c, s.(ranked := s.ranked + {g}))
  {
    RankOps(s, g);
    RankOrder(s, g, m);
  }

  // ---------------------------------------------------------------- phases of segments

  lemma WasteKeeps(c: Config, s: State, seg: nat, len: nat)
    requires Inv(c, s) && CanWaste(c, s, seg, len)
    ensures Inv(c, Waste(s, seg, len))
  {
    WasteSpace(c, s, seg, len);
  }

  lemma WasteSpace(c: Config, s: State, seg: nat, len: nat)
    requires CanWaste(c, s, seg, len)
    requires Shape(c, s.ts, s.live, s.phase, s.cursor, s.valid) && Counted(c, s.valid, s.cursor, s.charge)
    requires OnDisk(s.disk, s.live, s.phase, s.cursor) && Below(s.charge, s.cursor)
    ensures var s' := Waste(s, seg, len);
            && Shape(c, s.ts, s.live, s.phase, s'.cursor, s'.valid) && Counted(c, s'.valid, s'.cursor, s.charge)
            && OnDisk(s.disk, s.live, s.phase, s'.cursor) && Below(s.charge, s'.cursor)
  {
  }

  /** A segment not in use changes phase, without being opened or put to other use. */
  lemma MoveSpace(c: Config, s: State, seg: nat, ph: Phase)
    requires Shape(c, s.ts, s.live, s.phase, s.cursor, s.valid)
    requires Stamped(s.ts, s.live, s.phase, s.nextTs) && OnDisk(s.disk, s.live, s.phase, s.cursor)
    requires seg < |s.phase| && ph != Open && ph != IndexSeg && s.cursor[seg] == c.data
    requires Burials(s.ranked, s.index, s.disk, s.graves, s.ts, s.live, s.phase)
    ensures var phase := Set(s.phase, seg, ph);
            && Shape(c, s.ts, s.live, phase, s.cursor, s.valid)
            && Stamped(s.ts, s.live, phase, s.nextTs) && OnDisk(s.disk, s.live, phase, s.cursor)
            && Burials(s.ranked, s.index, s.disk, s.graves, s.ts, s.live, phase)
  {
  }

  /** Nothing unreleased in the segment: who holds what is not affected by its sealing. */
  lemma MoveUsed(s: State, seg: nat, ph: Phase)
    requires seg < |s.phase| && !Busy(s, seg) && (ph == Sealed || ph == Victim)
    requires IndexedOk(s.charge, s.index, s.phase) && HeldOk(s.charge, s.ops, s.phase)
    requires OwedOk(s.charge, s.ops, s.phase) && CopiedOk(s.charge, s.gc, s.phase) && Forms(s.ops, s.phase)
    requires Protected(s.views, s.disk, s.phase) && !s.phase[seg].Draining?
    requires Copying(s.gc, s.ts, s.phase, s.index, s.disk, s.ranked, s.charge)
    ensures var phase := Set(s.phase, seg, ph);
            && IndexedOk(s.charge, s.index, phase) && HeldOk(s.charge, s.ops, phase)
            && OwedOk(s.charge, s.ops, phase) && CopiedOk(s.charge, s.gc, phase) && Forms(s.ops, phase)
            && Protected(s.views, s.disk, phase)
            && Copying(s.gc, s.ts, phase, s.index, s.disk, s.ranked, s.charge)
  {
    var phase := Set(s.phase, seg, ph);
    assert forall i: nat :: i != seg ==>
        (Using(phase, i) == Using(s.phase, i)) && (At(phase, i, Open) == At(s.phase, i, Open));
    forall o | o in s.ops ensures Form(s.ops[o], phase) {
      assert Form(s.ops[o], s.phase);
    }
  }

  lemma SealKeeps(c: Config, s: State, seg: nat)
    requires Inv(c, s) && CanSeal(c, s, seg)
    ensures Inv(c, s.(phase := Set(s.phase, seg, Sealed)))
  {
    MoveSpace(c, s, seg, Sealed);
    MoveUsed(s, seg, Sealed);
    WalkElsewhere(s, seg, Sealed);
  }

  lemma WalkElsewhere(s: State, seg: nat, ph: Phase)
    requires Walking(s.gc, s.phase, s.index, s.disk)
    requires seg < |s.phase| && s.phase[seg] != Victim && ph != Victim
    ensures Walking(s.gc, Set(s.phase, seg, ph), s.index, s.disk)
  {
  }

  lemma NoneCharged(charge: map<Pba, Charge>, cursor: seq<nat>, seg: nat)
    requires Below(charge, cursor) && SumIn(charge, seg) == 0
    ensures forall p :: p in charge ==> p.seg != seg
  {
    forall p | p in charge ensures p.seg != seg {
      SumRemove(charge, p, seg);
    }
  }

  /** Nothing refers to the segment any more but operations whose sections are open. */
  lemma DrainUsed(s: State, seg: nat)
    requires seg < |s.phase| && s.phase[seg] != Open && !s.phase[seg].Draining?
    requires forall p :: p in s.index ==> p.seg != seg
    requires IndexedOk(s.charge, s.index, s.phase) && HeldOk(s.charge, s.ops, s.phase)
    requires OwedOk(s.charge, s.ops, s.phase) && CopiedOk(s.charge, s.gc, s.phase) && Forms(s.ops, s.phase)
    requires Sections(s.ops, s.views.Keys, s.nextSect)
    requires Protected(s.views, s.disk, s.phase)
    requires Copying(s.gc, s.ts, s.phase, s.index, s.disk, s.ranked, s.charge)
    ensures var phase := StartDrain(s, seg).phase;
            && IndexedOk(s.charge, s.index, phase) && HeldOk(s.charge, s.ops, phase)
            && OwedOk(s.charge, s.ops, phase) && CopiedOk(s.charge, s.gc, phase) && Forms(s.ops, phase)
            && Protected(s.views, s.disk, phase)
            && Copying(s.gc, s.ts, phase, s.index, s.disk, s.ranked, s.charge)
  {
    var phase := StartDrain(s, seg).phase;
    assert forall i: nat :: i != seg ==>
        (Using(phase, i) == Using(s.phase, i)) && (At(phase, i, Open) == At(s.phase, i, Open));
    forall o | o in s.ops ensures Form(s.ops[o], phase) {
      assert Form(s.ops[o], s.phase);
    }
  }

  lemma RecycleKeeps(c: Config, s: State, seg: nat)
    requires Inv(c, s) && CanRecycle(s, seg)
    ensures Inv(c, StartDrain(s, seg))
  {
    assert SumIn(s.charge, seg) == 0;
    NoneCharged(s.charge, s.cursor, seg);
    MoveSpace(c, s, seg, Draining(s.views.Keys));
    DrainUsed(s, seg);
    WalkElsewhere(s, seg, Draining(s.views.Keys));
  }

  lemma RetireIndexKeeps(c: Config, s: State, seg: nat)
    requires Inv(c, s) && At(s.phase, seg, IndexSeg)
    ensures Inv(c, StartDrain(s, seg))
  {
    MoveSpace(c, s, seg, Draining(s.views.Keys));
    DrainUsed(s, seg);
    WalkElsewhere(s, seg, Draining(s.views.Keys));
  }

  lemma FreeLedger(s: State, seg: nat)
    requires CanFree(s, seg) && Sections(s.ops, s.views.Keys, s.nextSect)
    requires IndexedOk(s.charge, s.index, s.phase) && HeldOk(s.charge, s.ops, s.phase)
    requires OwedOk(s.charge, s.ops, s.phase) && CopiedOk(s.charge, s.gc, s.phase)
    ensures var phase := Set(s.phase, seg, Free);
            && IndexedOk(s.charge, s.index, phase) && HeldOk(s.charge, s.ops, phase)
            && OwedOk(s.charge, s.ops, phase) && CopiedOk(s.charge, s.gc, phase)
  {
    var phase := Set(s.phase, seg, Free);
    assert forall i: nat :: i != seg ==>
        (Using(phase, i) == Using(s.phase, i)) && (At(phase, i, Open) == At(s.phase, i, Open));
  }

  lemma FreeUsed(s: State, seg: nat)
    requires CanFree(s, seg)
    requires Forms(s.ops, s.phase) && Protected(s.views, s.disk, s.phase)
    requires Copying(s.gc, s.ts, s.phase, s.index, s.disk, s.ranked, s.charge)
    ensures var phase := Set(s.phase, seg, Free);
            && Forms(s.ops, phase) && Protected(s.views, s.disk, phase)
            && Copying(s.gc, s.ts, phase, s.index, s.disk, s.ranked, s.charge)
  {
    var phase := Set(s.phase, seg, Free);
    assert forall i: nat :: i != seg ==>
        (Using(phase, i) == Using(s.phase, i)) && (At(phase, i, Open) == At(s.phase, i, Open));
    forall o | o in s.ops ensures Form(s.ops[o], phase) {
      assert Form(s.ops[o], s.phase);
    }
  }

  lemma FreeKeeps(c: Config, s: State, seg: nat)
    requires Inv(c, s) && CanFree(s, seg)
    ensures Inv(c, s.(phase := Set(s.phase, seg, Free)))
  {
    MoveSpace(c, s, seg, Free);
    FreeLedger(s, seg);
    FreeUsed(s, seg);
    WalkElsewhere(s, seg, Free);
  }

  // ---------------------------------------------------------------- garbage collection

  lemma GcPickGc(s: State, seg: nat)
    requires At(s.phase, seg, Sealed) && s.gc.None?
    requires IndexedOk(s.charge, s.index, s.phase) && Backed(s.index, s.disk, s.ranked, s.charge)
    requires CopiedOk(s.charge, s.gc, s.phase) && Walking(s.gc, s.phase, s.index, s.disk)
    requires Stamped(s.ts, s.live, s.phase, s.nextTs) && |s.phase| == |s.ts|
    ensures var s' := GcPick(s, seg);
            && CopiedOk(s.charge, s'.gc, s'.phase) && Walking(s'.gc, s'.phase, s.index, s.disk)
            && DropsSafely(s'.gc, s.ts, s.live)
            && Copying(s'.gc, s.ts, s'.phase, s.index, s.disk, s.ranked, s.charge)
  {
  }

  lemma GcPickKeeps(c: Config, s: State, seg: nat)
    requires Inv(c, s) && At(s.phase, seg, Sealed) && s.gc.None?
    ensures Inv(c, GcPick(s, seg))
  {
    forall o | o in s.ops ensures Form(s.ops[o], s.phase) {
    }
    assert !Busy(s, seg);
    MoveSpace(c, s, seg, Victim);
    MoveUsed(s, seg, Victim);
    GcPickGc(s, seg);
  }

  lemma VisitGc(s: State, p: Pba, index: set<Pba>, charge: map<Pba, Charge>)
    requires s.gc.Some? && p !in index && index <= s.index + {p}
    requires forall q :: q in charge ==> charge[q].owner != Copied
    requires Walking(s.gc, s.phase, s.index, s.disk) && DropsSafely(s.gc, s.ts, s.live)
    ensures var gc := Visited(s, p);
            && CopiedOk(charge, gc, s.phase) && Walking(gc, s.phase, index, s.disk) && DropsSafely(gc, s.ts, s.live)
            && Copying(gc, s.ts, s.phase, index, s.disk, s.ranked, charge)
  {
  }

  lemma GcSkipKeeps(c: Config, s: State, p: Pba)
    requires Inv(c, s) && CanVisit(s, p) && p !in s.index
    ensures Inv(c, s.(gc := Visited(s, p)))
  {
    VisitGc(s, p, s.index, s.charge);
    assert Copying(Visited(s, p), s.ts, s.phase, s.index, s.disk, s.ranked, s.charge);
  }

  /** A tombstone dropped in the oldest recoverable segment leaves its key's records buried. */
  lemma DropBuries(s: State, p: Pba)
    requires CanDrop(s, p)
    requires Newest(s.ranked, s.index, s.disk, s.ts) && DropsSafely(s.gc, s.ts, s.live)
    requires Walking(s.gc, s.phase, s.index, s.disk) && Unique(s.index, s.disk)
    requires OnDisk(s.disk, s.live, s.phase, s.cursor) && p in s.ranked
    requires Burials(s.ranked, s.index, s.disk, s.graves, s.ts, s.live, s.phase)
    ensures var s' := GcDrop(s, p);
            && Newest(s.ranked, s'.index, s.disk, s.ts) && Unique(s'.index, s.disk)
            && Burials(s.ranked, s'.index, s.disk, s'.graves, s.ts, s.live, s.phase)
  {
    var s' := GcDrop(s, p);
    forall q | q in s.ranked && q in s.disk && !Has(s.disk, s'.index, s.disk[q].key)
      ensures Buried(q, s.disk, s.ranked, s'.graves, s.ts, s.live, s.phase)
    {
      if s.disk[q].key != s.disk[p].key {
        assert !Has(s.disk, s.index, s.disk[q].key);
        assert Buried(q, s.disk, s.ranked, s.graves, s.ts, s.live, s.phase);
      } else {
        assert AtLeast(s.ts, p, q);
        assert q.seg == p.seg;
      }
    }
  }

  lemma DropCharge(c: Config, s: State, p: Pba)
    requires CanDrop(s, p)
    requires Shape(c, s.ts, s.live, s.phase, s.cursor, s.valid) && Counted(c, s.valid, s.cursor, s.charge)
    requires Below(s.charge, s.cursor) && IndexedOk(s.charge, s.index, s.phase)
    requires HeldOk(s.charge, s.ops, s.phase) && OwedOk(s.charge, s.ops, s.phase)
    requires Backed(s.index, s.disk, s.ranked, s.charge) && Visible(s.views, s.index)
    ensures var s' := GcDrop(s, p);
            && Shape(c, s.ts, s.live, s.phase, s.cursor, s'.valid) && Counted(c, s'.valid, s.cursor, s'.charge)
            && Below(s'.charge, s.cursor) && IndexedOk(s'.charge, s'.index, s.phase)
            && HeldOk(s'.charge, s.ops, s.phase) && OwedOk(s'.charge, s.ops, s.phase)
            && Backed(s'.index, s.disk, s.ranked, s'.charge) && Visible(s.views, s'.index)
  {
    CountRemove(c, s.valid, s.cursor, s.charge, p);
  }

  lemma DropOps(s: State, p: Pba)
    requires p in s.charge && s.charge[p].owner == Indexed
    requires OpsHold(s.ops, s.charge, s.ranked, s.disk) && OpsOwe(s.ops, s.charge, s.disk)
    ensures OpsHold(s.ops, s.charge - {p}, s.ranked, s.disk) && OpsOwe(s.ops, s.charge - {p}, s.disk)
  {
    forall o | o in s.ops ensures Holds(o, s.ops[o], s.charge - {p}, s.ranked, s.disk) {
      assert Holds(o, s.ops[o], s.charge, s.ranked, s.disk);
    }
    forall o | o in s.ops ensures Owes(o, s.ops[o], s.charge - {p}, s.disk) {
      assert Owes(o, s.ops[o], s.charge, s.disk);
    }
  }

  lemma GcDropKeeps(c: Config, s: State, p: Pba)
    requires Inv(c, s) && CanDrop(s, p)
    ensures Inv(c, GcDrop(s, p))
  {
    DropBuries(s, p);
    DropCharge(c, s, p);
    DropOps(s, p);
    VisitGc(s, p, s.index - {p}, s.charge - {p});
  }

  lemma GcFailOps(s: State, p: Pba)
    requires p in s.charge && s.charge[p].owner == Copied
    requires OpsHold(s.ops, s.charge, s.ranked, s.disk) && OpsOwe(s.ops, s.charge, s.disk)
    ensures OpsHold(s.ops, s.charge - {p}, s.ranked, s.disk) && OpsOwe(s.ops, s.charge - {p}, s.disk)
  {
    forall o | o in s.ops ensures Holds(o, s.ops[o], s.charge - {p}, s.ranked, s.disk) {
      assert Holds(o, s.ops[o], s.charge, s.ranked, s.disk);
    }
    forall o | o in s.ops ensures Owes(o, s.ops[o], s.charge - {p}, s.disk) {
      assert Owes(o, s.ops[o], s.charge, s.disk);
    }
  }

  lemma GcFailLedger(s: State, p: Pba)
    requires p in s.charge && s.charge[p].owner == Copied && Backed(s.index, s.disk, s.ranked, s.charge)
    requires Below(s.charge, s.cursor) && IndexedOk(s.charge, s.index, s.phase)
    requires HeldOk(s.charge, s.ops, s.phase) && OwedOk(s.charge, s.ops, s.phase)
    ensures Below(s.charge - {p}, s.cursor) && IndexedOk(s.charge - {p}, s.index, s.phase)
    ensures HeldOk(s.charge - {p}, s.ops, s.phase) && OwedOk(s.charge - {p}, s.ops, s.phase)
    ensures Backed(s.index, s.disk, s.ranked, s.charge - {p})
  {
  }

  lemma GcFailOwners(c: Config, s: State)
    requires s.gc.Some? && s.gc.value.copy.Some?
    requires Shape(c, s.ts, s.live, s.phase, s.cursor, s.valid) && Counted(c, s.valid, s.cursor, s.charge)
    requires Below(s.charge, s.cursor) && IndexedOk(s.charge, s.index, s.phase)
    requires HeldOk(s.charge, s.ops, s.phase) && OwedOk(s.charge, s.ops, s.phase)
    requires Backed(s.index, s.disk, s.ranked, s.charge)
    requires OpsHold(s.ops, s.charge, s.ranked, s.disk) && OpsOwe(s.ops, s.charge, s.disk)
    requires CopiedOk(s.charge, s.gc, s.phase)
    requires Copying(s.gc, s.ts, s.phase, s.index, s.disk, s.ranked, s.charge)
    ensures var s' := GcFail(s);
            && Shape(c, s.ts, s.live, s.phase, s.cursor, s'.valid) && Counted(c, s'.valid, s.cursor, s'.charge)
            && Below(s'.charge, s.cursor) && IndexedOk(s'.charge, s.index, s.phase)
            && HeldOk(s'.charge, s.ops, s.phase) && OwedOk(s'.charge, s.ops, s.phase)
            && Backed(s.index, s.disk, s.ranked, s'.charge)
            && OpsHold(s.ops, s'.charge, s.ranked, s.disk) && OpsOwe(s.ops, s'.charge, s.disk)
            && (forall p :: p in s'.charge ==> s'.charge[p].owner != Copied)
  {
    var p := s.gc.value.copy.value.dst;
    CountRemove(c, s.valid, s.cursor, s.charge, p);
    GcFailOps(s, p);
    GcFailLedger(s, p);
    assert GcFail(s).charge == s.charge - {p};
  }

  /** The victim goes back to the GC queues. */
  lemma GcFailPhase(s: State)
    requires s.gc.Some? && s.gc.value.copy.None? && Walking(s.gc, s.phase, s.index, s.disk)
    ensures var s' := GcFail(s);
            && CopiedOk(map[], s'.gc, s'.phase) && Walking(s'.gc, s'.phase, s.index, s.disk)
            && DropsSafely(s'.gc, s.ts, s.live)
            && Copying(s'.gc, s.ts, s'.phase, s.index, s.disk, s.ranked, s.charge)
  {
  }

  lemma GcFailIdle(c: Config, s: State)
    requires Inv(c, s) && s.gc.Some? && s.gc.value.copy.None?
    ensures Inv(c, GcFail(s))
  {
    var v := s.gc.value.victim;
    forall o | o in s.ops ensures Form(s.ops[o], s.phase) {
    }
    MoveSpace(c, s, v, Sealed);
    MoveUsed(s, v, Sealed);
    GcFailPhase(s);
  }

  lemma GcFailKeeps(c: Config, s: State)
    requires Inv(c, s) && s.gc.Some?
    ensures Inv(c, GcFail(s))
  {
    if s.gc.value.copy.None? {
      GcFailIdle(c, s);
    } else {
      GcFailOwners(c, s);
      var t := GcAbandon(s);
      GcAbandonGc(s);
      assert Inv(c, t);
      GcFailIdle(c, t);
      assert GcFail(t) == GcFail(s);
    }
  }

  /** The relocation alone is given up. */
  function GcAbandon(s: State): State
    requires s.gc.Some? && s.gc.value.copy.Some?
  {
    s.(gc := Some(s.gc.value.(copy := None)), valid := GcFail(s).valid, charge := GcFail(s).charge)
  }

  lemma GcAbandonGc(s: State)
    requires s.gc.Some? && s.gc.value.copy.Some?
    requires forall p :: p in GcFail(s).charge ==> GcFail(s).charge[p].owner != Copied
    requires Walking(s.gc, s.phase, s.index, s.disk) && DropsSafely(s.gc, s.ts, s.live)
    ensures var t := GcAbandon(s);
            && CopiedOk(t.charge, t.gc, t.phase) && Walking(t.gc, t.phase, t.index, t.disk)
            && DropsSafely(t.gc, t.ts, t.live)
            && Copying(t.gc, t.ts, t.phase, t.index, t.disk, t.ranked, t.charge)
  {
  }

  lemma GcDonePhase(s: State)
    requires CanFinishGc(s) && Walking(s.gc, s.phase, s.index, s.disk)
    requires CopiedOk(s.charge, s.gc, s.phase)
    ensures forall p :: p in s.index ==> p.seg != s.gc.value.victim
    ensures var s' := GcDone(s);
            && CopiedOk(s.charge, s'.gc, s'.phase) && Walking(s'.gc, s'.phase, s.index, s.disk)
            && DropsSafely(s'.gc, s.ts, s.live)
            && Copying(s'.gc, s.ts, s'.phase, s.index, s.disk, s.ranked, s.charge)
  {
  }

  lemma GcDoneKeeps(c: Config, s: State)
    requires Inv(c, s) && CanFinishGc(s)
    ensures Inv(c, GcDone(s))
  {
    var v := s.gc.value.victim;
    GcDonePhase(s);
    MoveSpace(c, s, v, Draining(s.views.Keys));
    DrainUsed(s, v);
  }

  // ---------------------------------------------------------------- commits

  /**
    A settled probe decides correctly: the entry it matches is the key's, and if it matches
    none the directory holds none, live or deleted.
   */
  lemma MatchIsTheEntry(c: Config, s: State, o: nat)
    requires o in s.ops && s.ops[o].sect.Some? && s.ops[o].sect.value in s.views
    requires Probes(s.ops, s.views, s.disk) && Backed(s.index, s.disk, s.ranked, s.charge)
    requires Settled(c, s, s.ops[o])
    ensures var m := Match(c, s, s.ops[o]);
            && (m.Some? ==> m.value in s.index && m.value in s.disk && s.disk[m.value].key == s.ops[o].rec.key)
            && (m.None? ==> !Has(s.disk, s.index, s.ops[o].rec.key))
  {
    var op := s.ops[o];
    assert ProbeTrue(op, s.views, s.disk);
    if Match(c, s, op).None? {
      forall e | e in s.index && e in s.disk ensures s.disk[e].key != op.rec.key {
        assert !IsMatch(c, s, op, e);
      }
    }
  }

  /** A write that is to be repeated has met an entry of its key at least as new. */
  lemma RewriteMeets(c: Config, s: State, o: nat, mode: PutMode, ifVersion: Option<(nat, nat)>) returns (m: Pba)
    requires CanRewrite(c, s, o, mode, ifVersion)
    requires Probes(s.ops, s.views, s.disk) && Backed(s.index, s.disk, s.ranked, s.charge)
    requires Sections(s.ops, s.views.Keys, s.nextSect) && OpsHold(s.ops, s.charge, s.ranked, s.disk)
    requires Stamped(s.ts, s.live, s.phase, s.nextTs) && OnDisk(s.disk, s.live, s.phase, s.cursor)
    ensures s.ops[o].grain.value in s.disk && s.disk[s.ops[o].grain.value] == s.ops[o].rec
    ensures m in s.index && m in s.disk && s.disk[m].key == s.ops[o].rec.key && AtLeast(s.ts, m, s.ops[o].grain.value)
  {
    assert Holds(o, s.ops[o], s.charge, s.ranked, s.disk);
    MatchIsTheEntry(c, s, o);
    m := Match(c, s, s.ops[o]).value;
    NewerTotal(s.ts, s.live, m, s.ops[o].grain.value);
  }

  lemma RewriteKeeps(c: Config, s: State, o: nat, mode: PutMode, ifVersion: Option<(nat, nat)>)
    requires Inv(c, s) && CanRewrite(c, s, o, mode, ifVersion)
    ensures Inv(c, Rewritten(s, o))
  {
    var m := RewriteMeets(c, s, o, mode, ifVersion);
    GiveUpKeeps(c, s, o, false);
    RankKeeps(c, GiveUp(s, o, false), s.ops[o].grain.value, m);
  }

  /** What a commit or a relocation asks of the record it installs in place of `prev`. */
  ghost predicate Succeeds(s: State, prev: Option<Pba>, g: Pba) {
    && g in s.disk && g.seg < |s.live| && s.live[g.seg] && At(s.phase, g.seg, Open)
    && (prev.Some? ==>
          prev.value in s.index && prev.value in s.disk && s.disk[prev.value].key == s.disk[g].key &&
          Newer(s.ts, g, prev.value))
    && (prev.None? ==> !Has(s.disk, s.index, s.disk[g].key))
  }

  function Replaced(index: set<Pba>, prev: Option<Pba>, g: Pba): set<Pba> {
    (if prev.Some? then index - {prev.value} else index) + {g}
  }

  lemma InstallNewest(s: State, prev: Option<Pba>, g: Pba)
    requires Succeeds(s, prev, g) && s.index <= s.disk.Keys
    requires Newest(s.ranked, s.index, s.disk, s.ts) && Unique(s.index, s.disk)
    requires Burials(s.ranked, s.index, s.disk, s.graves, s.ts, s.live, s.phase)
    requires OnDisk(s.disk, s.live, s.phase, s.cursor)
    ensures Newest(s.ranked + {g}, Replaced(s.index, prev, g), s.disk, s.ts)
    ensures Unique(Replaced(s.index, prev, g), s.disk)
  {
    var index := Replaced(s.index, prev, g);
    forall p | p in s.ranked && s.disk[p].key == s.disk[g].key ensures AtLeast(s.ts, g, p) {
      if prev.Some? {
        assert AtLeast(s.ts, prev.value, p);
        NewerTransitive(s.ts, g, prev.value, p);
      } else {
        assert Buried(p, s.disk, s.ranked, s.graves, s.ts, s.live, s.phase);
      }
    }
    forall q | q in index && q != g ensures q in s.index && s.disk[q].key != s.disk[g].key {
    }
  }

  lemma InstallBurials(s: State, prev: Option<Pba>, g: Pba)
    requires Succeeds(s, prev, g)
    requires Burials(s.ranked, s.index, s.disk, s.graves, s.ts, s.live, s.phase)
    ensures Burials(s.ranked + {g}, Replaced(s.index, prev, g), s.disk, s.graves, s.ts, s.live, s.phase)
  {
    var index := Replaced(s.index, prev, g);
    forall p | p in s.ranked + {g} && p in s.disk && !Has(s.disk, index, s.disk[p].key)
      ensures Buried(p, s.disk, s.ranked + {g}, s.graves, s.ts, s.live, s.phase)
    {
      assert g in index;
      assert s.disk[p].key != s.disk[g].key;
      forall e | e in s.index && e in s.disk ensures s.disk[e].key != s.disk[p].key {
        if e !in index {
          assert prev.Some? && e == prev.value;
        }
      }
      assert Buried(p, s.disk, s.ranked, s.graves, s.ts, s.live, s.phase);
    }
  }

  lemma InstallViews(s: State, prev: Option<Pba>, g: Pba)
    requires g in s.disk && At(s.phase, g.seg, Open)
    requires Protected(s.views, s.disk, s.phase) && Visible(s.views, s.index) && Probes(s.ops, s.views, s.disk)
    ensures var views := Extend(s.views, g);
            && Protected(views, s.disk, s.phase) && Visible(views, Replaced(s.index, prev, g))
            && Probes(s.ops, views, s.disk) && views.Keys == s.views.Keys
  {
    var views := Extend(s.views, g);
    forall o | o in s.ops ensures ProbeTrue(s.ops[o], views, s.disk) {
      assert ProbeTrue(s.ops[o], s.views, s.disk);
    }
  }

  lemma PublishCharge(s: State, o: nat, prev: Option<Pba>)
    requires o in s.ops && s.ops[o].grain.Some? && At(s.phase, s.ops[o].grain.value.seg, Open)
    requires Below(s.charge, s.cursor) && IndexedOk(s.charge, s.index, s.phase)
    ensures var s' := Publish(s, o, prev);
            Below(s'.charge, s.cursor) && IndexedOk(s'.charge, s'.index, s.phase)
  {
  }

  lemma PublishHeld(s: State, o: nat, prev: Option<Pba>)
    requires o in s.ops && s.ops[o].grain.Some? && s.ops[o].grain.value in s.charge
    requires HeldOk(s.charge, s.ops, s.phase)
    ensures var s' := Publish(s, o, prev); HeldOk(s'.charge, s'.ops, s.phase)
  {
  }

  lemma PublishOwed(s: State, o: nat, prev: Option<Pba>)
    requires o in s.ops && s.ops[o].grain.Some? && s.ops[o].sect.Some? && s.ops[o].owed.None?
    requires prev.Some? ==> prev.value in s.charge && s.charge[prev.value].owner == Indexed
    requires IndexedOk(s.charge, s.index, s.phase) && OwedOk(s.charge, s.ops, s.phase)
    ensures var s' := Publish(s, o, prev); OwedOk(s'.charge, s'.ops, s.phase)
  {
  }

  lemma PublishBacked(c: Config, s: State, o: nat, prev: Option<Pba>)
    requires o in s.ops && s.ops[o].grain.Some?
    requires var g := s.ops[o].grain.value;
             g in s.disk && g in s.charge && s.charge[g] == Charge(s.disk[g].len, Held(o))
    requires Counted(c, s.valid, s.cursor, s.charge) && CopiedOk(s.charge, s.gc, s.phase)
    requires Backed(s.index, s.disk, s.ranked, s.charge)
    ensures var s' := Publish(s, o, prev);
            && Counted(c, s.valid, s.cursor, s'.charge) && CopiedOk(s'.charge, s.gc, s.phase)
            && Backed(s'.index, s.disk, s'.ranked, s'.charge)
  {
    var charge := if prev.Some? then Assign(s.charge, prev.value, Owed(o)) else s.charge;
    if prev.Some? {
      CountAssign(c, s.valid, s.cursor, s.charge, prev.value, Owed(o));
    }
    CountAssign(c, s.valid, s.cursor, charge, s.ops[o].grain.value, Indexed);
  }

  lemma PublishOps(s: State, o: nat, prev: Option<Pba>)
    requires o in s.ops && s.ops[o].grain.Some? && !s.ops[o].done
    requires Holds(o, s.ops[o], s.charge, s.ranked, s.disk)
    requires prev.Some? ==>
               prev.value in s.disk && prev.value in s.charge &&
                   s.charge[prev.value] == Charge(s.disk[prev.value].len, Indexed)
    requires OpsHold(s.ops, s.charge, s.ranked, s.disk) && OpsOwe(s.ops, s.charge, s.disk)
    ensures var s' := Publish(s, o, prev);
            OpsHold(s'.ops, s'.charge, s'.ranked, s.disk) && OpsOwe(s'.ops, s'.charge, s.disk)
  {
    var s' := Publish(s, o, prev);
    forall o2 | o2 in s'.ops
      ensures Holds(o2, s'.ops[o2], s'.charge, s'.ranked, s.disk) && Owes(o2, s'.ops[o2], s'.charge, s.disk)
    {
      if o2 != o {
        assert Holds(o2, s.ops[o2], s.charge, s.ranked, s.disk) && Owes(o2, s.ops[o2], s.charge, s.disk);
      }
    }
  }

  lemma PublishGc(s: State, o: nat, prev: Option<Pba>)
    requires o in s.ops && s.ops[o].grain.Some?
    requires var g := s.ops[o].grain.value; At(s.phase, g.seg, Open) && g in s.charge && s.charge[g].owner == Held(o)
    requires prev.Some? ==>
               prev.value in s.disk && prev.value in s.charge && s.charge[prev.value].owner == Indexed &&
               !Locked(s, s.disk[prev.value].key)
    requires Walking(s.gc, s.phase, s.index, s.disk)
    requires Copying(s.gc, s.ts, s.phase, s.index, s.disk, s.ranked, s.charge)
    ensures var s' := Publish(s, o, prev);
            && Walking(s.gc, s.phase, s'.index, s.disk)
            && Copying(s.gc, s.ts, s.phase, s'.index, s.disk, s'.ranked, s'.charge)
  {
  }

  lemma PublishProbes(s: State, o: nat, prev: Option<Pba>)
    requires o in s.ops && s.ops[o].grain.Some? && s.ops[o].sect.Some? && s.ops[o].written
    requires Forms(s.ops, s.phase) && Sections(s.ops, s.views.Keys, s.nextSect)
    requires var g := s.ops[o].grain.value; g in s.disk && At(s.phase, g.seg, Open)
    requires Protected(s.views, s.disk, s.phase) && Visible(s.views, s.index) && Probes(s.ops, s.views, s.disk)
    ensures var s' := Publish(s, o, prev);
            && Forms(s'.ops, s.phase) && Sections(s'.ops, s'.views.Keys, s.nextSect)
            && Protected(s'.views, s.disk, s.phase) && Visible(s'.views, s'.index) && Probes(s'.ops, s'.views, s.disk)
  {
    var g := s.ops[o].grain.value;
    var op := s.ops[o].(done := true, owed := prev);
    var views := Extend(s.views, g);
    InstallViews(s, prev, g);
    SectionsSame(s.ops, s.views.Keys, s.nextSect, o, op);
    assert Form(s.ops[o], s.phase) && ProbeTrue(s.ops[o], views, s.disk);
    assert Probes(s.ops - {o}, views, s.disk);
    ProbesSet(s.ops, views, s.disk, o, op);
  }

  lemma PublishKeeps(c: Config, s: State, o: nat, prev: Option<Pba>)
    requires Inv(c, s) && ReadyToCommit(s, o)
    requires Justified(s, s.ops[o], prev)
    ensures Inv(c, Publish(s, o, prev))
  {
    var op := s.ops[o];
    assert Form(op, s.phase) && Holds(o, op, s.charge, s.ranked, s.disk) && Owes(o, op, s.charge, s.disk);
    assert Succeeds(s, prev, op.grain.value);
    InstallNewest(s, prev, op.grain.value);
    InstallBurials(s, prev, op.grain.value);
    PublishCharge(s, o, prev);
    PublishHeld(s, o, prev);
    PublishOwed(s, o, prev);
    PublishBacked(c, s, o, prev);
    PublishOps(s, o, prev);
    PublishGc(s, o, prev);
    PublishProbes(s, o, prev);
  }

  /** What a successful decision has established about the entry it replaces. */
  ghost predicate Justified(s: State, op: Op, prev: Option<Pba>) {
    && (prev.Some? ==>
          prev.value in s.index && prev.value in s.disk && s.disk[prev.value].key == op.rec.key &&
          op.grain.Some? && Newer(s.ts, op.grain.value, prev.value))
    && (prev.None? ==> !Has(s.disk, s.index, op.rec.key))
  }

  lemma PutJustified(c: Config, s: State, o: nat, mode: PutMode, ifVersion: Option<(nat, nat)>)
    requires CanCommitPut(c, s, o, mode, ifVersion) && s.ops[o].sect.value in s.views
    requires Probes(s.ops, s.views, s.disk) && Backed(s.index, s.disk, s.ranked, s.charge)
    ensures Justified(s, s.ops[o], DecidePut(c, s, s.ops[o], mode, ifVersion).prev)
  {
    MatchIsTheEntry(c, s, o);
  }

  lemma DelJustified(c: Config, s: State, o: nat, ifVersion: Option<(nat, nat)>)
    requires CanCommitDel(c, s, o, ifVersion) && s.ops[o].sect.value in s.views
    requires Probes(s.ops, s.views, s.disk) && Backed(s.index, s.disk, s.ranked, s.charge)
    ensures Justified(s, s.ops[o], DecideDel(c, s, s.ops[o], ifVersion).prev)
  {
    MatchIsTheEntry(c, s, o);
  }

  // ---------------------------------------------------------------- relocation

  lemma RepointCount(c: Config, s: State)
    requires CanRepoint(s)
    requires Shape(c, s.ts, s.live, s.phase, s.cursor, s.valid) && Counted(c, s.valid, s.cursor, s.charge)
    requires Backed(s.index, s.disk, s.ranked, s.charge)
    requires Copying(s.gc, s.ts, s.phase, s.index, s.disk, s.ranked, s.charge)
    ensures var s' := GcRepoint(s);
            Shape(c, s.ts, s.live, s.phase, s.cursor, s'.valid) && Counted(c, s'.valid, s.cursor, s'.charge)
  {
    var r := s.gc.value.copy.value;
    CountAssign(c, s.valid, s.cursor, s.charge, r.dst, Indexed);
    CountRemove(c, s.valid, s.cursor, Assign(s.charge, r.dst, Indexed), r.src);
  }

  lemma RepointCharge(c: Config, s: State)
    requires CanRepoint(s)
    requires Below(s.charge, s.cursor) && Backed(s.index, s.disk, s.ranked, s.charge)
    requires Copying(s.gc, s.ts, s.phase, s.index, s.disk, s.ranked, s.charge)
    ensures var s' := GcRepoint(s);
            Below(s'.charge, s.cursor) && Backed(s'.index, s.disk, s'.ranked, s'.charge)
  {
  }

  lemma RepointOwners(s: State)
    requires CanRepoint(s)
    requires IndexedOk(s.charge, s.index, s.phase) && CopiedOk(s.charge, s.gc, s.phase)
    requires HeldOk(s.charge, s.ops, s.phase) && OwedOk(s.charge, s.ops, s.phase)
    requires Copying(s.gc, s.ts, s.phase, s.index, s.disk, s.ranked, s.charge)
    ensures var s' := GcRepoint(s);
            && IndexedOk(s'.charge, s'.index, s.phase)
            && HeldOk(s'.charge, s.ops, s.phase) && OwedOk(s'.charge, s.ops, s.phase)
            && (forall p :: p in s'.charge ==> s'.charge[p].owner != Copied)
  {
  }

  lemma RepointOps(s: State)
    requires CanRepoint(s) && Backed(s.index, s.disk, s.ranked, s.charge)
    requires Copying(s.gc, s.ts, s.phase, s.index, s.disk, s.ranked, s.charge)
    requires OpsHold(s.ops, s.charge, s.ranked, s.disk) && OpsOwe(s.ops, s.charge, s.disk)
    ensures var s' := GcRepoint(s);
            OpsHold(s.ops, s'.charge, s'.ranked, s.disk) && OpsOwe(s.ops, s'.charge, s.disk)
  {
    var s' := GcRepoint(s);
    forall o | o in s.ops
      ensures Holds(o, s.ops[o], s'.charge, s'.ranked, s.disk) && Owes(o, s.ops[o], s'.charge, s.disk)
    {
      assert Holds(o, s.ops[o], s.charge, s.ranked, s.disk) && Owes(o, s.ops[o], s.charge, s.disk);
    }
  }

  lemma RepointGc(s: State)
    requires CanRepoint(s)
    requires forall p :: p in GcRepoint(s).charge ==> GcRepoint(s).charge[p].owner != Copied
    requires Copying(s.gc, s.ts, s.phase, s.index, s.disk, s.ranked, s.charge)
    requires Walking(s.gc, s.phase, s.index, s.disk) && DropsSafely(s.gc, s.ts, s.live)
    ensures var s' := GcRepoint(s);
            && CopiedOk(s'.charge, s'.gc, s.phase) && Walking(s'.gc, s.phase, s'.index, s.disk)
            && DropsSafely(s'.gc, s.ts, s.live)
            && Copying(s'.gc, s.ts, s.phase, s'.index, s.disk, s'.ranked, s'.charge)
  {
  }

  lemma GcRepointKeeps(c: Config, s: State)
    requires Inv(c, s) && CanRepoint(s)
    ensures Inv(c, GcRepoint(s))
  {
    var r := s.gc.value.copy.value;
    assert Newer(s.ts, r.dst, r.src);
    assert Succeeds(s, Some(r.src), r.dst);
    InstallNewest(s, Some(r.src), r.dst);
    InstallBurials(s, Some(r.src), r.dst);
    InstallViews(s, Some(r.src), r.dst);
    RepointCount(c, s);
    RepointCharge(c, s);
    RepointOwners(s);
    RepointOps(s);
    RepointGc(s);
  }

  // ---------------------------------------------------------------- reuse

  /** Nothing refers to a segment outside use. */
  lemma Unreferenced(s: State, seg: nat)
    requires At(s.phase, seg, Free)
    requires IndexedOk(s.charge, s.index, s.phase) && HeldOk(s.charge, s.ops, s.phase)
    requires OwedOk(s.charge, s.ops, s.phase) && CopiedOk(s.charge, s.gc, s.phase)
    requires Backed(s.index, s.disk, s.ranked, s.charge) && Walking(s.gc, s.phase, s.index, s.disk)
    requires Protected(s.views, s.disk, s.phase)
    ensures forall p :: p in s.charge ==> p.seg != seg
    ensures forall p :: p in s.index ==> p.seg != seg
    ensures forall x, p :: x in s.views && p in s.views[x] ==> p.seg != seg
    ensures s.gc.Some? ==> s.gc.value.victim != seg
  {
  }

  /** Wiping a segment nothing refers to. */
  lemma WipeIndex(s: State, seg: nat)
    requires forall p :: p in s.index ==> p.seg != seg
    requires s.gc.Some? ==> s.gc.value.victim != seg
    requires Backed(s.index, s.disk, s.ranked, s.charge) && Unique(s.index, s.disk)
    requires Walking(s.gc, s.phase, s.index, s.disk)
    ensures var disk, ranked := Without(s.disk, seg), Outside(s.ranked, seg);
            && Backed(s.index, disk, ranked, s.charge) && Unique(s.index, disk)
            && Walking(s.gc, s.phase, s.index, disk)
  {
  }

  lemma WipeOps(s: State, seg: nat)
    requires forall p :: p in s.charge ==> p.seg != seg
    requires forall x, p :: x in s.views && p in s.views[x] ==> p.seg != seg
    requires OpsHold(s.ops, s.charge, s.ranked, s.disk) && OpsOwe(s.ops, s.charge, s.disk)
    requires Sections(s.ops, s.views.Keys, s.nextSect) && Probes(s.ops, s.views, s.disk)
    requires Protected(s.views, s.disk, s.phase)
    ensures var disk, ranked := Without(s.disk, seg), Outside(s.ranked, seg);
            && OpsHold(s.ops, s.charge, ranked, disk) && OpsOwe(s.ops, s.charge, disk)
            && Probes(s.ops, s.views, disk) && Protected(s.views, disk, s.phase)
  {
    var disk, ranked := Without(s.disk, seg), Outside(s.ranked, seg);
    forall o | o in s.ops
      ensures Holds(o, s.ops[o], s.charge, ranked, disk) && Owes(o, s.ops[o], s.charge, disk)
    {
      assert Holds(o, s.ops[o], s.charge, s.ranked, s.disk) && Owes(o, s.ops[o], s.charge, s.disk);
    }
    forall o | o in s.ops ensures ProbeTrue(s.ops[o], s.views, disk) {
      assert ProbeTrue(s.ops[o], s.views, s.disk);
    }
  }

  lemma WipeCopy(s: State, seg: nat)
    requires forall p :: p in s.charge ==> p.seg != seg
    requires forall p :: p in s.index ==> p.seg != seg
    requires Copying(s.gc, s.ts, s.phase, s.index, s.disk, s.ranked, s.charge)
    ensures Copying(s.gc, s.ts, s.phase, s.index, Without(s.disk, seg), Outside(s.ranked, seg), s.charge)
  {
  }

  lemma WipeOrder(s: State, seg: nat)
    requires forall p :: p in s.index ==> p.seg != seg
    requires s.index <= s.disk.Keys
    requires Newest(s.ranked, s.index, s.disk, s.ts)
    requires Burials(s.ranked, s.index, s.disk, s.graves, s.ts, s.live, s.phase)
    ensures Newest(Outside(s.ranked, seg), s.index, Without(s.disk, seg), s.ts)
    ensures Burials(Outside(s.ranked, seg), s.index, Without(s.disk, seg), s.graves, s.ts, s.live, s.phase)
  {
    var disk, ranked := Without(s.disk, seg), Outside(s.ranked, seg);
    forall p | p in ranked && p in disk && !Has(disk, s.index, disk[p].key)
      ensures Buried(p, disk, ranked, s.graves, s.ts, s.live, s.phase)
    {
      forall e | e in s.index && e in s.disk ensures s.disk[e].key != s.disk[p].key {
        assert e in disk;
      }
      assert Buried(p, s.disk, s.ranked, s.graves, s.ts, s.live, s.phase);
    }
  }

  /** A free segment's records leave the device. */
  lemma WipeKeeps(c: Config, s: State, seg: nat)
    requires Inv(c, s) && At(s.phase, seg, Free)
    ensures Inv(c, Wipe(s, seg))
  {
    Unreferenced(s, seg);
    WipeIndex(s, seg);
    WipeOps(s, seg);
    WipeCopy(s, seg);
    WipeOrder(s, seg);
    assert OnDisk(Without(s.disk, seg), s.live, s.phase, s.cursor);
  }

  /** A free segment, which nothing refers to, is put to another use. */
  lemma ReusePhase(s: State, seg: nat, ph: Phase)
    requires At(s.phase, seg, Free) && (ph == Open || ph == Bad || ph == IndexSeg)
    requires forall p :: p in s.charge ==> p.seg != seg
    requires forall x, p :: x in s.views && p in s.views[x] ==> p.seg != seg
    requires IndexedOk(s.charge, s.index, s.phase) && HeldOk(s.charge, s.ops, s.phase)
    requires OwedOk(s.charge, s.ops, s.phase) && CopiedOk(s.charge, s.gc, s.phase)
    requires Forms(s.ops, s.phase) && Protected(s.views, s.disk, s.phase)
    ensures var phase := Set(s.phase, seg, ph);
            && IndexedOk(s.charge, s.index, phase) && HeldOk(s.charge, s.ops, phase)
            && OwedOk(s.charge, s.ops, phase) && CopiedOk(s.charge, s.gc, phase)
            && Forms(s.ops, phase) && Protected(s.views, s.disk, phase)
  {
    var phase := Set(s.phase, seg, ph);
    assert forall i: nat :: i != seg ==>
        (Using(phase, i) == Using(s.phase, i)) && (At(phase, i, Open) == At(s.phase, i, Open));
    forall o | o in s.ops ensures Form(s.ops[o], phase) {
      assert Form(s.ops[o], s.phase);
    }
  }

  lemma ReuseSpace(c: Config, s: State, seg: nat, ph: Phase)
    requires At(s.phase, seg, Free) && (ph == Open || ph == Bad)
    requires forall p :: p in s.charge ==> p.seg != seg
    requires Shape(c, s.ts, s.live, s.phase, s.cursor, s.valid) && Counted(c, s.valid, s.cursor, s.charge)
    requires Below(s.charge, s.cursor)
    ensures var phase, cursor, valid := Set(s.phase, seg, ph), Set(s.cursor, seg, 0), Set(s.valid, seg, c.data as int);
            && Shape(c, s.ts, s.live, phase, cursor, valid) && Counted(c, valid, cursor, s.charge)
            && Below(s.charge, cursor)
  {
    SumNone(s.charge, seg);
  }

  lemma StageFailKeeps(c: Config, s: State, seg: nat)
    requires Inv(c, s) && At(s.phase, seg, Free)
    ensures Inv(c, StageFail(c, s, seg))
  {
    Unreferenced(s, seg);
    ReusePhase(s, seg, Bad);
    ReuseSpace(c, s, seg, Bad);
    WalkElsewhere(s, seg, Bad);
    StillStamped(s, seg);
    ReuseOrder(s, seg, Bad);
  }

  /** A segment that only failed to be staged keeps its timestamp, flags and records. */
  lemma StillStamped(s: State, seg: nat)
    requires At(s.phase, seg, Free)
    requires Stamped(s.ts, s.live, s.phase, s.nextTs) && OnDisk(s.disk, s.live, s.phase, s.cursor)
    ensures Stamped(s.ts, s.live, Set(s.phase, seg, Bad), s.nextTs + 1)
    ensures OnDisk(s.disk, s.live, Set(s.phase, seg, Bad), Set(s.cursor, seg, 0))
  {
  }

  /** A segment without ranked records of forgotten keys, or that stays closed. */
  lemma ReuseOrder(s: State, seg: nat, ph: Phase)
    requires At(s.phase, seg, Free) && (ph == Open ==> forall p :: p in s.disk ==> p.seg != seg)
    requires Burials(s.ranked, s.index, s.disk, s.graves, s.ts, s.live, s.phase)
    requires Copying(s.gc, s.ts, s.phase, s.index, s.disk, s.ranked, s.charge)
    ensures var phase := Set(s.phase, seg, ph);
            && Burials(s.ranked, s.index, s.disk, s.graves, s.ts, s.live, phase)
            && Copying(s.gc, s.ts, phase, s.index, s.disk, s.ranked, s.charge)
  {
  }

  /** The newest timestamp of all goes to a segment holding nothing. */
  lemma RestampOrder(s: State, seg: nat, phase: seq<Phase>)
    requires seg < |s.ts| && |s.live| == |s.ts|
    requires forall p :: p in s.disk ==> p.seg != seg
    requires s.gc.Some? ==> s.gc.value.victim != seg && s.gc.value.victim < |s.ts|
    requires Stamped(s.ts, s.live, s.phase, s.nextTs) && OnDisk(s.disk, s.live, s.phase, s.cursor)
    requires Newest(s.ranked, s.index, s.disk, s.ts) && DropsSafely(s.gc, s.ts, s.live)
    requires Burials(s.ranked, s.index, s.disk, s.graves, s.ts, s.live, phase)
    ensures var ts, live := Set(s.ts, seg, s.nextTs + 1), Set(s.live, seg, true);
            && Newest(s.ranked, s.index, s.disk, ts) && DropsSafely(s.gc, ts, live)
            && Burials(s.ranked, s.index, s.disk, s.graves, ts, live, phase)
  {
    var ts, live := Set(s.ts, seg, s.nextTs + 1), Set(s.live, seg, true);
    assert forall i: nat :: i != seg ==> TsOf(ts, i) == TsOf(s.ts, i);
    forall v: nat | v != seg && v < |s.ts| && OldestLive(s.ts, s.live, v) ensures OldestLive(ts, live, v) {
    }
  }

  lemma RestampCopy(s: State, seg: nat, phase: seq<Phase>, ts: seq<nat>)
    requires s.gc.Some? ==> s.gc.value.victim != seg
    requires forall p :: p in s.charge ==> p.seg != seg
    requires forall i: nat :: i != seg ==> TsOf(ts, i) == TsOf(s.ts, i)
    requires Copying(s.gc, s.ts, phase, s.index, s.disk, s.ranked, s.charge)
    ensures Copying(s.gc, ts, phase, s.index, s.disk, s.ranked, s.charge)
  {
  }

  lemma RestampSpace(c: Config, s: State, seg: nat)
    requires seg < |s.ts| == |s.live| == |s.phase| == |s.cursor|
    requires forall p :: p in s.disk ==> p.seg != seg
    requires Stamped(s.ts, s.live, s.phase, s.nextTs) && OnDisk(s.disk, s.live, s.phase, s.cursor)
    ensures var s' := Restamp(c, s, seg);
            Stamped(s'.ts, s'.live, s'.phase, s'.nextTs) && OnDisk(s.disk, s'.live, s'.phase, s'.cursor)
  {
  }

  lemma RestampAllOrder(c: Config, s: State, seg: nat)
    requires seg < |s.ts| == |s.live| == |s.phase| && At(s.phase, seg, Free)
    requires forall p :: p in s.disk ==> p.seg != seg
    requires forall p :: p in s.charge ==> p.seg != seg
    requires s.gc.Some? ==> s.gc.value.victim != seg && s.gc.value.victim < |s.ts|
    requires Stamped(s.ts, s.live, s.phase, s.nextTs) && OnDisk(s.disk, s.live, s.phase, s.cursor)
    requires Newest(s.ranked, s.index, s.disk, s.ts) && DropsSafely(s.gc, s.ts, s.live)
    requires Burials(s.ranked, s.index, s.disk, s.graves, s.ts, s.live, s.phase)
    requires Copying(s.gc, s.ts, s.phase, s.index, s.disk, s.ranked, s.charge)
    ensures var s' := Restamp(c, s, seg);
            && Newest(s.ranked, s.index, s.disk, s'.ts) && DropsSafely(s.gc, s'.ts, s'.live)
            && Burials(s.ranked, s.index, s.disk, s.graves, s'.ts, s'.live, s'.phase)
            && Copying(s.gc, s'.ts, s'.phase, s.index, s.disk, s.ranked, s.charge)
  {
    var s' := Restamp(c, s, seg);
    ReuseOrder(s, seg, Open);
    RestampOrder(s, seg, s'.phase);
    RestampCopy(s, seg, s'.phase, s'.ts);
  }

  lemma RestampKeeps(c: Config, s: State, seg: nat)
    requires Inv(c, s) && At(s.phase, seg, Free)
    requires forall p :: p in s.disk ==> p.seg != seg
    ensures Inv(c, Restamp(c, s, seg))
  {
    Unreferenced(s, seg);
    ReusePhase(s, seg, Open);
    ReuseSpace(c, s, seg, Open);
    WalkElsewhere(s, seg, Open);
    RestampSpace(c, s, seg);
    RestampAllOrder(c, s, seg);
  }

  lemma StageKeeps(c: Config, s: State, seg: nat)
    requires Inv(c, s) && At(s.phase, seg, Free)
    ensures Inv(c, Stage(c, s, seg))
  {
    WipeKeeps(c, s, seg);
    RestampKeeps(c, Wipe(s, seg), seg);
  }

  lemma ForgetLive(s: State, seg: nat, phase: seq<Phase>)
    requires forall p :: p in s.disk ==> p.seg != seg
    requires s.gc.Some? ==> s.gc.value.victim != seg
    requires DropsSafely(s.gc, s.ts, s.live)
    requires Burials(s.ranked, s.index, s.disk, s.graves, s.ts, s.live, phase)
    ensures var live := Set(s.live, seg, false);
            DropsSafely(s.gc, s.ts, live) && Burials(s.ranked, s.index, s.disk, s.graves, s.ts, live, phase)
  {
  }

  lemma ToIndexSpace(c: Config, s: State, seg: nat)
    requires At(s.phase, seg, Free)
    requires forall p :: p in s.disk ==> p.seg != seg
    requires Shape(c, s.ts, s.live, s.phase, s.cursor, s.valid)
    requires Stamped(s.ts, s.live, s.phase, s.nextTs) && OnDisk(s.disk, s.live, s.phase, s.cursor)
    ensures var s' := ToIndex(s, seg);
            && Shape(c, s.ts, s'.live, s'.phase, s.cursor, s.valid)
            && Stamped(s.ts, s'.live, s'.phase, s.nextTs) && OnDisk(s.disk, s'.live, s'.phase, s.cursor)
  {
  }

  lemma ToIndexKeeps(c: Config, s: State, seg: nat)
    requires Inv(c, s) && At(s.phase, seg, Free)
    requires forall p :: p in s.disk ==> p.seg != seg
    ensures Inv(c, ToIndex(s, seg))
  {
    Unreferenced(s, seg);
    ReusePhase(s, seg, IndexSeg);
    WalkElsewhere(s, seg, IndexSeg);
    ToIndexSpace(c, s, seg);
    ReuseOrder(s, seg, IndexSeg);
    ForgetLive(s, seg, ToIndex(s, seg).phase);
  }

  lemma StageIndexKeeps(c: Config, s: State, seg: nat)
    requires Inv(c, s) && At(s.phase, seg, Free)
    ensures Inv(c, StageIndex(s, seg))
  {
    WipeKeeps(c, s, seg);
    ToIndexKeeps(c, Wipe(s, seg), seg);
  }

  // ---------------------------------------------------------------- crash

  lemma RecoveredOrder(s: State, index: set<Pba>)
    requires NewestOfEach(s.ts, s.disk, index) && Stamped(s.ts, s.live, s.phase, s.nextTs)
    requires OnDisk(s.disk, s.live, s.phase, s.cursor)
    ensures Newest(s.disk.Keys, index, s.disk, s.ts) && Unique(index, s.disk)
    ensures forall g, phase :: Burials(s.disk.Keys, index, s.disk, g, s.ts, s.live, phase)
  {
    forall p, q | p in index && q in index && p in s.disk && q in s.disk && s.disk[p].key == s.disk[q].key
      ensures p == q
    {
      assert AtLeast(s.ts, q, p) && AtLeast(s.ts, p, q);
      NewerTotal(s.ts, s.live, p, q);
    }
  }

  /** No segment is open or being collected; those the directory points into are sealed. */
  ghost predicate AtRest(phase: seq<Phase>, index: set<Pba>, disk: map<Pba, Rec>) {
    && (forall i :: 0 <= i < |phase| ==> phase[i].Free? || phase[i].Sealed? || phase[i].IndexSeg?)
    && (forall p :: p in index ==> At(phase, p.seg, Sealed))
    && (forall p :: p in disk ==> p.seg < |phase| && phase[p.seg] != IndexSeg)
  }

  lemma PhasesAtRest(s: State, index: set<Pba>, tables: set<nat>)
    requires |s.ts| == |s.live| == |s.phase| && index <= s.disk.Keys
    requires OnDisk(s.disk, s.live, s.phase, s.cursor) && forall i :: i in tables ==> At(s.phase, i, IndexSeg)
    ensures AtRest(PhasesAfter(|s.ts|, index, tables), index, s.disk)
  {
    forall p | p in index ensures PhaseAfter(index, tables, p.seg) == Sealed {
      assert p in index && p.seg == p.seg;
    }
  }

  lemma RestartLedger(c: Config, s: State, index: set<Pba>, maxTs: nat, phase: seq<Phase>, ranked: set<Pba>,
                      graves: map<Key, Pba>)
    requires |s.ts| == |s.live| == |phase| && index <= s.disk.Keys && index <= ranked && AtRest(phase, index, s.disk)
    requires OnDisk(s.disk, s.live, s.phase, s.cursor) && Fits(c, s.disk)
    ensures var s' := Restarted(c, s, index, maxTs, phase, ranked, graves);
            && Below(s'.charge, s'.cursor) && IndexedOk(s'.charge, index, phase)
            && HeldOk(s'.charge, map[], phase) && OwedOk(s'.charge, map[], phase)
            && CopiedOk(s'.charge, None, phase) && Backed(index, s.disk, s'.ranked, s'.charge)
  {
  }

  lemma RestartSpace(c: Config, s: State, index: set<Pba>, maxTs: nat, phase: seq<Phase>, ranked: set<Pba>,
                     graves: map<Key, Pba>)
    requires Shape(c, s.ts, s.live, s.phase, s.cursor, s.valid) && Stamped(s.ts, s.live, s.phase, s.nextTs)
    requires IsMaxTs(s.ts, s.live, maxTs) && OnDisk(s.disk, s.live, s.phase, s.cursor)
    requires |phase| == |s.ts| && AtRest(phase, index, s.disk)
    ensures var s' := Restarted(c, s, index, maxTs, phase, ranked, graves);
            && Shape(c, s'.ts, s'.live, phase, s'.cursor, s'.valid) && Stamped(s'.ts, s'.live, phase, s'.nextTs)
            && OnDisk(s.disk, s.live, phase, s'.cursor) && Counted(c, s'.valid, s'.cursor, s'.charge)
            && Walking(None, phase, index, s.disk)
  {
  }

  lemma CrashKeeps(c: Config, s: State, index: set<Pba>, maxTs: nat)
    requires Inv(c, s) && CanCrash(s, index, maxTs)
    ensures Inv(c, Recovered(c, s, index, maxTs))
  {
    var phase := PhasesAfter(|s.ts|, index, {});
    PhasesAtRest(s, index, {});
    RecoveredOrder(s, index);
    RestartLedger(c, s, index, maxTs, phase, s.disk.Keys, map[]);
    RestartSpace(c, s, index, maxTs, phase, s.disk.Keys, map[]);
  }

  /** What is buried stays buried while no segment is open. */
  lemma RestBurials(s: State, phase: seq<Phase>)
    requires Burials(s.ranked, s.index, s.disk, s.graves, s.ts, s.live, s.phase) && AtRest(phase, s.index, s.disk)
    ensures Burials(s.ranked, s.index, s.disk, s.graves, s.ts, s.live, phase)
  {
    forall p | p in s.ranked && p in s.disk && !Has(s.disk, s.index, s.disk[p].key)
      ensures Buried(p, s.disk, s.ranked, s.graves, s.ts, s.live, phase)
    {
      assert Buried(p, s.disk, s.ranked, s.graves, s.ts, s.live, s.phase);
    }
  }

  lemma ReopenKeeps(c: Config, s: State, tables: set<nat>, maxTs: nat)
    requires Inv(c, s) && CanReopen(s, tables, maxTs)
    ensures Inv(c, Reopened(c, s, tables, maxTs))
  {
    var phase := PhasesAfter(|s.ts|, s.index, tables);
    PhasesAtRest(s, s.index, tables);
    RestBurials(s, phase);
    RestartLedger(c, s, s.index, maxTs, phase, s.ranked, s.graves);
    RestartSpace(c, s, s.index, maxTs, phase, s.ranked, s.graves);
  }

  // ---------------------------------------------------------------- all steps

  lemma InitHolds(c: Config, s: State)
    requires Init(c, s)
    ensures Inv(c, s)
  {
  }

  lemma SectionStepKeeps(c: Config, s: State, st: Step, s': State)
    requires Inv(c, s) && NextOp(c, s, st, s')
    requires st.BeginStep? || st.EnterStep?
    ensures Inv(c, s')
  {
    match st
    case BeginStep(o, rec) => BeginKeeps(c, s, o, rec);
    case EnterStep(o) => EnterKeeps(c, s, o);
  }

  lemma LeaveStepKeeps(c: Config, s: State, st: Step, s': State)
    requires Inv(c, s) && NextOp(c, s, st, s')
    requires st.LeaveStep? || st.EndStep?
    ensures Inv(c, s')
  {
    match st
    case LeaveStep(o) => LeaveKeeps(c, s, o);
    case EndStep(o) => EndKeeps(c, s, o);
  }

  lemma ProbeStepKeeps(c: Config, s: State, st: Step, s': State)
    requires Inv(c, s) && NextOp(c, s, st, s')
    requires st.LookupStep? || st.VerifyStep?
    ensures Inv(c, s')
  {
    match st
    case LookupStep(o, p) => LookupKeeps(c, s, o, p);
    case VerifyStep(o, answer) => VerifyKeeps(c, s, o, answer);
  }

  lemma WriteStepKeeps(c: Config, s: State, st: Step, s': State)
    requires Inv(c, s) && NextOp(c, s, st, s')
    requires st.AllocateStep? || st.WriteStep?
    ensures Inv(c, s')
  {
    match st
    case AllocateStep(o, seg) => AllocateKeeps(c, s, o, seg);
    case WriteStep(o) => WriteKeeps(c, s, o);
  }

  lemma CommitStepKeeps(c: Config, s: State, st: Step, s': State)
    requires Inv(c, s) && NextOp(c, s, st, s')
    requires st.CommitPutStep? || st.CommitDelStep?
    ensures Inv(c, s')
  {
    match st
    case CommitPutStep(o, mode, ifVersion) =>
      PutJustified(c, s, o, mode, ifVersion);
      PublishKeeps(c, s, o, DecidePut(c, s, s.ops[o], mode, ifVersion).prev);
    case CommitDelStep(o, ifVersion) =>
      DelJustified(c, s, o, ifVersion);
      PublishKeeps(c, s, o, DecideDel(c, s, s.ops[o], ifVersion).prev);
  }

  lemma FinishStepKeeps(c: Config, s: State, st: Step, s': State)
    requires Inv(c, s) && NextOp(c, s, st, s')
    requires st.InvalidateStep? || st.RejectStep? || st.RewriteStep?
    ensures Inv(c, s')
  {
    match st
    case InvalidateStep(o) => InvalidateKeeps(c, s, o);
    case RejectStep(o) => GiveUpKeeps(c, s, o, true);
    case RewriteStep(o, mode, ifVersion) => RewriteKeeps(c, s, o, mode, ifVersion);
  }

  lemma ReuseStepKeeps(c: Config, s: State, st: Step, s': State)
    requires Inv(c, s) && NextSegment(c, s, st, s')
    requires st.StageStep? || st.StageFailStep?
    ensures Inv(c, s')
  {
    match st
    case StageStep(seg) => StageKeeps(c, s, seg);
    case StageFailStep(seg) => StageFailKeeps(c, s, seg);
  }

  lemma IndexStepKeeps(c: Config, s: State, st: Step, s': State)
    requires Inv(c, s) && NextSegment(c, s, st, s')
    requires st.StageIndexStep? || st.RetireIndexStep?
    ensures Inv(c, s')
  {
    match st
    case StageIndexStep(seg) => StageIndexKeeps(c, s, seg);
    case RetireIndexStep(seg) => RetireIndexKeeps(c, s, seg);
  }

  lemma FillStepKeeps(c: Config, s: State, st: Step, s': State)
    requires Inv(c, s) && NextSegment(c, s, st, s')
    requires st.WasteStep? || st.SealStep?
    ensures Inv(c, s')
  {
    match st
    case WasteStep(seg, len) => WasteKeeps(c, s, seg, len);
    case SealStep(seg) => SealKeeps(c, s, seg);
  }

  lemma FreeStepKeeps(c: Config, s: State, st: Step, s': State)
    requires Inv(c, s) && NextSegment(c, s, st, s')
    requires st.RecycleStep? || st.FreeStep?
    ensures Inv(c, s')
  {
    match st
    case RecycleStep(seg) => RecycleKeeps(c, s, seg);
    case FreeStep(seg) => FreeKeeps(c, s, seg);
  }

  lemma WalkStepKeeps(c: Config, s: State, st: Step, s': State)
    requires Inv(c, s) && NextGc(c, s, st, s')
    requires st.GcPickStep? || st.GcSkipStep? || st.GcDropStep?
    ensures Inv(c, s')
  {
    match st
    case GcPickStep(seg) => GcPickKeeps(c, s, seg);
    case GcSkipStep(p) => GcSkipKeeps(c, s, p);
    case GcDropStep(p) => GcDropKeeps(c, s, p);
  }

  lemma CopyStepKeeps(c: Config, s: State, st: Step, s': State)
    requires Inv(c, s) && NextGc(c, s, st, s')
    requires st.GcLockStep? || st.GcWriteStep? || st.GcRepointStep?
    ensures Inv(c, s')
  {
    match st
    case GcLockStep(p, seg) => GcLockKeeps(c, s, p, seg);
    case GcWriteStep => GcWriteKeeps(c, s);
    case GcRepointStep => GcRepointKeeps(c, s);
  }

  lemma GcEndStepKeeps(c: Config, s: State, st: Step, s': State)
    requires Inv(c, s) && NextGc(c, s, st, s')
    requires st.GcFailStep? || st.GcDoneStep?
    ensures Inv(c, s')
  {
    match st
    case GcFailStep => GcFailKeeps(c, s);
    case GcDoneStep => GcDoneKeeps(c, s);
  }

  lemma OpStepKeeps(c: Config, s: State, st: Step, s': State)
    requires Inv(c, s) && NextOp(c, s, st, s')
    ensures Inv(c, s')
  {
    if st.CommitPutStep? || st.CommitDelStep? {
      CommitStepKeeps(c, s, st, s');
    } else if st.AllocateStep? || st.WriteStep? {
      WriteStepKeeps(c, s, st, s');
    } else if st.InvalidateStep? || st.RejectStep? || st.RewriteStep? {
      FinishStepKeeps(c, s, st, s');
    } else {
      ReadStepKeeps(c, s, st, s');
    }
  }

  /** Steps that touch an operation's read section or probe alone. */
  lemma ReadStepKeeps(c: Config, s: State, st: Step, s': State)
    requires Inv(c, s) && NextOp(c, s, st, s')
    requires
      || st.BeginStep? || st.EnterStep? || st.LeaveStep? || st.EndStep?
      || st.LookupStep? || st.VerifyStep? || st.ForgetStep?
    ensures Inv(c, s')
  {
    if st.BeginStep? || st.EnterStep? {
      SectionStepKeeps(c, s, st, s');
    } else if st.LeaveStep? || st.EndStep? {
      LeaveStepKeeps(c, s, st, s');
    } else if st.LookupStep? || st.VerifyStep? {
      ProbeStepKeeps(c, s, st, s');
    } else {
      ForgetKeeps(c, s, st.o);
    }
  }

  lemma SegStepKeeps(c: Config, s: State, st: Step, s': State)
    requires Inv(c, s) && NextSegment(c, s, st, s')
    ensures Inv(c, s')
  {
    if st.StageStep? || st.StageFailStep? {
      ReuseStepKeeps(c, s, st, s');
    } else if st.StageIndexStep? || st.RetireIndexStep? {
      IndexStepKeeps(c, s, st, s');
    } else if st.WasteStep? || st.SealStep? {
      FillStepKeeps(c, s, st, s');
    } else {
      FreeStepKeeps(c, s, st, s');
    }
  }

  lemma GcStepKeeps(c: Config, s: State, st: Step, s': State)
    requires Inv(c, s) && NextGc(c, s, st, s')
    ensures Inv(c, s')
  {
    if st.GcPickStep? || st.GcSkipStep? || st.GcDropStep? {
      WalkStepKeeps(c, s, st, s');
    } else if st.GcLockStep? || st.GcWriteStep? || st.GcRepointStep? {
      CopyStepKeeps(c, s, st, s');
    } else {
      GcEndStepKeeps(c, s, st, s');
    }
  }

  lemma RestartStepKeeps(c: Config, s: State, st: Step, s': State)
    requires Inv(c, s) && NextRestart(c, s, st, s')
    ensures Inv(c, s')
  {
    match st
    case CrashStep(index, maxTs) => CrashKeeps(c, s, index, maxTs);
    case ReopenStep(tables, maxTs) => ReopenKeeps(c, s, tables, maxTs);
  }

  /** Every step keeps the invariant. */
  lemma NextKeeps(c: Config, s: State, st: Step, s': State)
    requires Inv(c, s) && Next(c, s, st, s')
    ensures Inv(c, s')
  {
    if NextOp(c, s, st, s') {
      OpStepKeeps(c, s, st, s');
    } else if NextSegment(c, s, st, s') {
      SegStepKeeps(c, s, st, s');
    } else if NextGc(c, s, st, s') {
      GcStepKeeps(c, s, st, s');
    } else {
      RestartStepKeeps(c, s, st, s');
    }
  }
}
