/**
  Whose record lies where. Operations are numbered in the order they begin; a record on the device
  bears the number of the operation that first wrote it, and so does every copy GC makes of it.
 */
module LogHistory {
  import opened Common
  import opened Log
  import opened LogProtocol
  import opened LogProofs
  import opened LogTheorems
  import opened LogRefinement
  import LogLayout

  /**
    `ids`: numbers of the running operations. `recs`: the record of each operation so far. `born`:
    whose record a location holds. `acked`: the operations that were acknowledged, or whose record a
    recovery has shown. `strays`: copies of relocations that failed after the copy had reached the
    device, until a recovery has ranked them.
   */
  datatype History = History(
    ids: map<nat, nat>,
    recs: seq<Rec>,
    born: map<Pba, nat>,
    acked: set<nat>,
    strays: set<Pba>)

  function Empty(): History {
    History(map[], [], map[], {}, {})
  }

  predicate WrittenCopy(gc: Option<Gc>) {
    CopyOf(gc).Some? && CopyOf(gc).value.written
  }

  /** `p` is where a relocation under way has written its copy. */
  predicate IsCopy(gc: Option<Gc>, p: Pba) {
    WrittenCopy(gc) && CopyOf(gc).value.dst == p
  }

  function IdOf(h: History, o: nat): nat {
    if o in h.ids then h.ids[o] else 0
  }

  function BornAt(h: History, p: Pba): nat {
    if p in h.born then h.born[p] else 0
  }

  function Elsewhere(born: map<Pba, nat>, seg: nat): map<Pba, nat> {
    map p | p in born && p.seg != seg :: born[p]
  }

  ghost function Shown(h: History, index: set<Pba>): set<nat> {
    set p | p in index && p in h.born :: h.born[p]
  }

  /** What a step adds to the history. */
  ghost function Recorded(h: History, s: State, st: Step): History {
    match st
    case BeginStep(o, rec) => h.(ids := h.ids[o := |h.recs|], recs := h.recs + [rec])
    case EndStep(o) => h.(ids := h.ids - {o})
    case WriteStep(o) =>
      if o in s.ops && s.ops[o].grain.Some? then h.(born := h.born[s.ops[o].grain.value := IdOf(h, o)]) else h
    case CommitPutStep(o, _, _) => h.(acked := h.acked + {IdOf(h, o)})
    case CommitDelStep(o, _) => h.(acked := h.acked + {IdOf(h, o)})
    case GcWriteStep =>
      if CopyOf(s.gc).Some? then h.(born := h.born[CopyOf(s.gc).value.dst := BornAt(h, CopyOf(s.gc).value.src)]) else h
    case GcFailStep => if WrittenCopy(s.gc) then h.(strays := h.strays + {CopyOf(s.gc).value.dst}) else h
    case StageStep(seg) => h.(born := Elsewhere(h.born, seg), strays := Outside(h.strays, seg))
    case StageIndexStep(seg) => h.(born := Elsewhere(h.born, seg), strays := Outside(h.strays, seg))
    case CrashStep(index, _) => h.(ids := map[], acked := h.acked + Shown(h, index), strays := {})
    case ReopenStep(_, _) => h.(ids := map[])
    case _ => h
  }

  // ---------------------------------------------------------------- invariant

  ghost predicate Named(ops: map<nat, Op>, h: History) {
    && h.ids.Keys == ops.Keys
    && (forall o :: o in h.ids ==> h.ids[o] < |h.recs|)
    && (forall o, p :: o in h.ids && p in h.ids && o != p ==> h.ids[o] != h.ids[p])
  }

  ghost predicate Numbered(h: History) {
    && (forall p :: p in h.born ==> h.born[p] < |h.recs|)
    && (forall x :: x in h.acked ==> x < |h.recs|)
  }

  ghost predicate EntriesAcked(index: set<Pba>, h: History) {
    forall p :: p in index ==> p in h.born && h.born[p] in h.acked
  }

  /** What a running operation has left on the device: its present record, and ranked ones it has written again. */
  ghost predicate OpTraced(o: nat, op: Op, ranked: set<Pba>, h: History)
    requires o in h.ids
  {
    && (op.dead ==> op.grain.None? && !op.done)
    && (!op.done ==> h.ids[o] !in h.acked)
    && (!op.done && op.grain.Some? && op.written ==> op.grain.value in h.born && h.born[op.grain.value] == h.ids[o])
    && (!op.done && !op.dead ==>
          forall p :: p in h.born && p !in ranked && h.born[p] == h.ids[o] ==> op.grain == Some(p) && op.written)
  }

  ghost predicate OpsTraced(ops: map<nat, Op>, ranked: set<Pba>, h: History) {
    forall o :: o in ops ==> o in h.ids && OpTraced(o, ops[o], ranked, h)
  }

  ghost predicate CopyTraced(gc: Option<Gc>, h: History) {
    CopyOf(gc).Some? ==>
      var r := CopyOf(gc).value;
      && r.dst !in h.strays
      && (r.written ==> r.dst in h.born && r.src in h.born && h.born[r.dst] == h.born[r.src])
  }

  ghost predicate StraysTraced(ranked: set<Pba>, h: History) {
    forall p :: p in h.strays ==> p in h.born && h.born[p] in h.acked && p !in ranked
  }

  /** A record that is neither ranked, nor stray, nor a copy under way, is of an operation never acknowledged. */
  ghost predicate OthersUnacked(ranked: set<Pba>, gc: Option<Gc>, h: History) {
    forall p :: p in h.born && p !in ranked && p !in h.strays && !IsCopy(gc, p) ==> h.born[p] !in h.acked
  }

  /** What the records on the device say of the operations they came from. */
  ghost predicate Placed(disk: map<Pba, Rec>, index: set<Pba>, ranked: set<Pba>, gc: Option<Gc>, h: History) {
    && h.born.Keys == disk.Keys && Numbered(h)
    && EntriesAcked(index, h) && CopyTraced(gc, h) && StraysTraced(ranked, h) && OthersUnacked(ranked, gc, h)
  }

  ghost predicate Traced(s: State, h: History) {
    Named(s.ops, h) && OpsTraced(s.ops, s.ranked, h) && Placed(s.disk, s.index, s.ranked, s.gc, h)
  }

  /** Wherever a record of an operation lies, it is the one the operation began with. */
  ghost predicate Inscribed(disk: map<Pba, Rec>, ops: map<nat, Op>, h: History) {
    && (forall p :: p in disk ==> p in h.born && h.born[p] < |h.recs| && disk[p] == h.recs[h.born[p]])
    && (forall o :: o in ops ==> o in h.ids && h.ids[o] < |h.recs| && ops[o].rec == h.recs[h.ids[o]])
  }

  /** The part of the protocol's invariant the history rests on. */
  ghost predicate Grounds(s: State) {
    && OpsHold(s.ops, s.charge, s.ranked, s.disk) && Forms(s.ops, s.phase)
    && Copying(s.gc, s.ts, s.phase, s.index, s.disk, s.ranked, s.charge)
    && IndexedOk(s.charge, s.index, s.phase) && Backed(s.index, s.disk, s.ranked, s.charge)
    && OnDisk(s.disk, s.live, s.phase, s.cursor)
  }

  // ---------------------------------------------------------------- operations keep it

  lemma BeginTraced(s: State, h: History, o: nat, rec: Rec)
    requires Traced(s, h) && o !in s.ops
    ensures Traced(Begin(s, o, rec), Recorded(h, s, BeginStep(o, rec)))
  {
    var s', h' := Begin(s, o, rec), Recorded(h, s, BeginStep(o, rec));
    forall x | x in s'.ops ensures x in h'.ids && OpTraced(x, s'.ops[x], s'.ranked, h') {
      if x != o {
        assert OpTraced(x, s.ops[x], s.ranked, h);
      }
    }
  }

  lemma EndTraced(s: State, h: History, o: nat)
    requires Traced(s, h) && CanEnd(s, o)
    ensures Traced(End(s, o), Recorded(h, s, EndStep(o)))
  {
    var s', h' := End(s, o), Recorded(h, s, EndStep(o));
    forall x | x in s'.ops ensures x in h'.ids && OpTraced(x, s'.ops[x], s'.ranked, h') {
      assert OpTraced(x, s.ops[x], s.ranked, h);
    }
  }

  /** An operation changes in ways that leave its record, and where it lies, alone. */
  lemma SameTraced(s: State, s': State, h: History, o: nat)
    requires Traced(s, h) && o in s.ops && o in s'.ops && s'.ops == s.ops[o := s'.ops[o]]
    requires s'.disk == s.disk && s'.ranked == s.ranked && s'.index == s.index && s'.gc == s.gc
    requires var op, op' := s.ops[o], s'.ops[o];
             op'.done == op.done && (op'.dead ==> op'.grain.None? && !op'.done) && (op.dead ==> op'.dead) &&
             (op'.dead || (op'.grain == op.grain && op'.written == op.written) || (op.grain.None? && !op'.written))
    ensures Traced(s', h)
  {
    forall x | x in s'.ops ensures x in h.ids && OpTraced(x, s'.ops[x], s'.ranked, h) {
      assert OpTraced(x, s.ops[x], s.ranked, h);
    }
  }

  /** A record of operation `o` appears at `g`. */
  lemma WriteOps(ops: map<nat, Op>, ranked: set<Pba>, h: History, o: nat, op: Op, g: Pba)
    requires OpsTraced(ops, ranked, h) && Named(ops, h) && g !in h.born && g !in ranked
    requires o in ops && ops[o].grain == Some(g) && !ops[o].done && op == ops[o].(written := true)
    ensures OpsTraced(ops[o := op], ranked, h.(born := h.born[g := h.ids[o]]))
  {
    var h', ops' := h.(born := h.born[g := h.ids[o]]), ops[o := op];
    forall x | x in ops' ensures x in h'.ids && OpTraced(x, ops'[x], ranked, h') {
      assert OpTraced(x, ops[x], ranked, h);
    }
  }

  lemma WritePlaced(disk: map<Pba, Rec>, index: set<Pba>, ranked: set<Pba>, gc: Option<Gc>, h: History, g: Pba,
                    rec: Rec, x: nat)
    requires Placed(disk, index, ranked, gc, h) && g !in disk && x < |h.recs| && x !in h.acked
    requires CopyOf(gc).Some? ==> CopyOf(gc).value.dst != g
    ensures Placed(disk[g := rec], index, ranked, gc, h.(born := h.born[g := x]))
  {
  }

  lemma WriteTraced(s: State, h: History, o: nat)
    requires Traced(s, h) && CanWrite(s, o) && OpsHold(s.ops, s.charge, s.ranked, s.disk) && Forms(s.ops, s.phase)
    requires Copying(s.gc, s.ts, s.phase, s.index, s.disk, s.ranked, s.charge)
    ensures Traced(Write(s, o), Recorded(h, s, WriteStep(o)))
  {
    var g := s.ops[o].grain.value;
    assert Form(s.ops[o], s.phase) && Holds(o, s.ops[o], s.charge, s.ranked, s.disk);
    assert OpTraced(o, s.ops[o], s.ranked, h);
    WriteOps(s.ops, s.ranked, h, o, Write(s, o).ops[o], g);
    WritePlaced(s.disk, s.index, s.ranked, s.gc, h, g, s.ops[o].rec, h.ids[o]);
  }

  lemma RewriteTraced(s: State, h: History, o: nat)
    requires Traced(s, h) && CanReject(s, o) && s.ops[o].written
    ensures Traced(Rewritten(s, o), h)
  {
    var s', g := Rewritten(s, o), s.ops[o].grain.value;
    assert OpTraced(o, s.ops[o], s.ranked, h);
    forall x | x in s'.ops ensures x in h.ids && OpTraced(x, s'.ops[x], s'.ranked, h) {
      assert OpTraced(x, s.ops[x], s.ranked, h);
    }
  }

  lemma AckOps(ops: map<nat, Op>, ranked: set<Pba>, ranked': set<Pba>, h: History, o: nat, op: Op)
    requires OpsTraced(ops, ranked, h) && Named(ops, h) && ranked <= ranked' && o in ops && op.done && !op.dead
    ensures OpsTraced(ops[o := op], ranked', h.(acked := h.acked + {h.ids[o]}))
  {
    var h', ops' := h.(acked := h.acked + {h.ids[o]}), ops[o := op];
    forall x | x in ops' ensures x in h'.ids && OpTraced(x, ops'[x], ranked', h') {
      assert OpTraced(x, ops[x], ranked, h);
    }
  }

  /** Operation number `x` is acknowledged with its record at `g`, the only one of it that is not ranked. */
  lemma AckPlaced(disk: map<Pba, Rec>, index: set<Pba>, ranked: set<Pba>, gc: Option<Gc>, h: History, g: Pba, x: nat,
                  index': set<Pba>)
    requires Placed(disk, index, ranked, gc, h) && g in h.born && h.born[g] == x && x < |h.recs|
    requires forall p :: p in h.born && p !in ranked && h.born[p] == x ==> p == g
    requires index' <= index + {g} && g !in h.strays
    ensures Placed(disk, index', ranked + {g}, gc, h.(acked := h.acked + {x}))
  {
  }

  predicate Commits(st: Step, o: nat) {
    (st.CommitPutStep? || st.CommitDelStep?) && st.o == o
  }

  lemma PublishOps(s: State, h: History, o: nat, prev: Option<Pba>, st: Step)
    requires Named(s.ops, h) && OpsTraced(s.ops, s.ranked, h) && ReadyToCommit(s, o) && Commits(st, o)
    ensures var s', h' := Publish(s, o, prev), Recorded(h, s, st);
            Named(s'.ops, h') && OpsTraced(s'.ops, s'.ranked, h')
  {
    assert OpTraced(o, s.ops[o], s.ranked, h);
    var op', h' := s.ops[o].(done := true, owed := prev), h.(acked := h.acked + {h.ids[o]});
    AckOps(s.ops, s.ranked, s.ranked + {s.ops[o].grain.value}, h, o, op');
    assert Recorded(h, s, st) == h' && Publish(s, o, prev).ops == s.ops[o := op'];
  }

  lemma PublishPlaced(s: State, h: History, o: nat, prev: Option<Pba>, st: Step)
    requires Named(s.ops, h) && OpsTraced(s.ops, s.ranked, h) && ReadyToCommit(s, o) && Commits(st, o)
    requires Placed(s.disk, s.index, s.ranked, s.gc, h)
    ensures var s' := Publish(s, o, prev); Placed(s'.disk, s'.index, s'.ranked, s'.gc, Recorded(h, s, st))
  {
    assert OpTraced(o, s.ops[o], s.ranked, h);
    AckPlaced(s.disk, s.index, s.ranked, s.gc, h, s.ops[o].grain.value, h.ids[o], Publish(s, o, prev).index);
    assert Recorded(h, s, st) == h.(acked := h.acked + {h.ids[o]});
  }

  lemma PublishTraced(s: State, h: History, o: nat, prev: Option<Pba>, st: Step)
    requires Traced(s, h) && ReadyToCommit(s, o) && Commits(st, o)
    ensures Traced(Publish(s, o, prev), Recorded(h, s, st))
  {
    PublishOps(s, h, o, prev, st);
    PublishPlaced(s, h, o, prev, st);
  }

  // ---------------------------------------------------------------- segments, GC and restarts keep it

  /** Records and strays of `seg` are gone, and nothing refers to it. */
  lemma WipeOps(ops: map<nat, Op>, ranked: set<Pba>, h: History, seg: nat)
    requires OpsTraced(ops, ranked, h)
    requires forall o :: o in ops && ops[o].grain.Some? ==> ops[o].grain.value.seg != seg
    ensures OpsTraced(ops, Outside(ranked, seg), h.(born := Elsewhere(h.born, seg), strays := Outside(h.strays, seg)))
  {
    var h' := h.(born := Elsewhere(h.born, seg), strays := Outside(h.strays, seg));
    forall x | x in ops ensures x in h'.ids && OpTraced(x, ops[x], Outside(ranked, seg), h') {
      assert OpTraced(x, ops[x], ranked, h);
    }
  }

  lemma WipePlaced(disk: map<Pba, Rec>, index: set<Pba>, ranked: set<Pba>, gc: Option<Gc>, h: History, seg: nat)
    requires Placed(disk, index, ranked, gc, h) && (forall p :: p in index ==> p.seg != seg)
    requires CopyOf(gc).Some? ==> CopyOf(gc).value.src.seg != seg && CopyOf(gc).value.dst.seg != seg
    ensures Placed(Without(disk, seg), index, Outside(ranked, seg), gc,
                   h.(born := Elsewhere(h.born, seg), strays := Outside(h.strays, seg)))
  {
    assert Elsewhere(h.born, seg).Keys == Without(disk, seg).Keys;
  }

  lemma WipeTraced(s: State, h: History, seg: nat, s': State, st: Step)
    requires Traced(s, h) && (st == StageStep(seg) || st == StageIndexStep(seg)) && At(s.phase, seg, Free)
    requires s'.disk == Without(s.disk, seg) && s'.ranked == Outside(s.ranked, seg)
    requires s'.index == s.index && s'.ops == s.ops && s'.gc == s.gc
    requires IndexedOk(s.charge, s.index, s.phase) && Backed(s.index, s.disk, s.ranked, s.charge)
    requires Copying(s.gc, s.ts, s.phase, s.index, s.disk, s.ranked, s.charge) && Forms(s.ops, s.phase)
    ensures Traced(s', Recorded(h, s, st))
  {
    forall o | o in s.ops && s.ops[o].grain.Some? ensures s.ops[o].grain.value.seg != seg {
      assert Form(s.ops[o], s.phase);
    }
    WipeOps(s.ops, s.ranked, h, seg);
    WipePlaced(s.disk, s.index, s.ranked, s.gc, h, seg);
    assert Recorded(h, s, st) == h.(born := Elsewhere(h.born, seg), strays := Outside(h.strays, seg));
  }

  /** A copy of the record at `src`, an entry, appears at `dst`. */
  lemma CopyOps(ops: map<nat, Op>, ranked: set<Pba>, h: History, dst: Pba, x: nat)
    requires OpsTraced(ops, ranked, h) && x in h.acked && dst !in h.born
    ensures OpsTraced(ops, ranked, h.(born := h.born[dst := x]))
  {
    var h' := h.(born := h.born[dst := x]);
    forall y | y in ops ensures y in h'.ids && OpTraced(y, ops[y], ranked, h') {
      assert OpTraced(y, ops[y], ranked, h);
    }
  }

  lemma GcWriteTraced(s: State, h: History)
    requires Traced(s, h) && CanGcWrite(s) && Copying(s.gc, s.ts, s.phase, s.index, s.disk, s.ranked, s.charge)
    ensures Traced(GcWrite(s), Recorded(h, s, GcWriteStep))
  {
    var r := s.gc.value.copy.value;
    CopyOps(s.ops, s.ranked, h, r.dst, h.born[r.src]);
  }

  lemma MoreRankedOps(ops: map<nat, Op>, ranked: set<Pba>, ranked': set<Pba>, h: History)
    requires OpsTraced(ops, ranked, h) && ranked <= ranked'
    ensures OpsTraced(ops, ranked', h)
  {
    forall y | y in ops ensures y in h.ids && OpTraced(y, ops[y], ranked', h) {
      assert OpTraced(y, ops[y], ranked, h);
    }
  }

  lemma RepointTraced(s: State, h: History)
    requires Traced(s, h) && CanRepoint(s) && Copying(s.gc, s.ts, s.phase, s.index, s.disk, s.ranked, s.charge)
    ensures Traced(GcRepoint(s), h)
  {
    MoreRankedOps(s.ops, s.ranked, GcRepoint(s).ranked, h);
  }

  lemma StrayOps(ops: map<nat, Op>, ranked: set<Pba>, h: History, strays: set<Pba>)
    requires OpsTraced(ops, ranked, h)
    ensures OpsTraced(ops, ranked, h.(strays := strays))
  {
    var h' := h.(strays := strays);
    forall y | y in ops ensures y in h'.ids && OpTraced(y, ops[y], ranked, h') {
      assert OpTraced(y, ops[y], ranked, h);
    }
  }

  /** A failed relocation leaves its copy as a stray. */
  lemma StrayPlaced(disk: map<Pba, Rec>, index: set<Pba>, ranked: set<Pba>, gc: Option<Gc>, h: History, dst: Pba)
    requires Placed(disk, index, ranked, gc, h) && IsCopy(gc, dst) && dst !in ranked
    requires CopyOf(gc).value.src in index
    ensures Placed(disk, index, ranked, None, h.(strays := h.strays + {dst}))
  {
  }

  lemma GcFailTraced(s: State, h: History)
    requires Traced(s, h) && s.gc.Some? && Copying(s.gc, s.ts, s.phase, s.index, s.disk, s.ranked, s.charge)
    ensures Traced(GcFail(s), Recorded(h, s, GcFailStep))
  {
    if WrittenCopy(s.gc) {
      var dst := CopyOf(s.gc).value.dst;
      var h' := h.(strays := h.strays + {dst});
      StrayOps(s.ops, s.ranked, h, h'.strays);
      StrayPlaced(s.disk, s.index, s.ranked, s.gc, h, dst);
      assert Named(s.ops, h');
      assert Recorded(h, s, GcFailStep) == h';
    } else {
      StillTraced(s, GcFail(s), h);
    }
  }

  /** Steps that leave records and operations alone, and write no copy. */
  lemma StillTraced(s: State, s': State, h: History)
    requires Traced(s, h) && s'.disk == s.disk && s'.ranked == s.ranked && s'.ops == s.ops && s'.index <= s.index
    requires s'.gc == s.gc || (!WrittenCopy(s.gc) && (CopyOf(s'.gc).Some? ==>
               !CopyOf(s'.gc).value.written && CopyOf(s'.gc).value.dst !in h.strays))
    ensures Traced(s', h)
  {
  }

  lemma CrashPlaced(disk: map<Pba, Rec>, index: set<Pba>, ranked: set<Pba>, gc: Option<Gc>, h: History,
                    index': set<Pba>)
    requires Placed(disk, index, ranked, gc, h) && index' <= disk.Keys
    ensures Placed(disk, index', disk.Keys, None, h.(ids := map[], acked := h.acked + Shown(h, index'), strays := {}))
  {
  }

  lemma CrashTraced(c: Config, s: State, h: History, index: set<Pba>, maxTs: nat)
    requires Traced(s, h) && CanCrash(s, index, maxTs)
    ensures Traced(Recovered(c, s, index, maxTs), Recorded(h, s, CrashStep(index, maxTs)))
  {
    CrashPlaced(s.disk, s.index, s.ranked, s.gc, h, index);
    var h' := h.(ids := map[], acked := h.acked + Shown(h, index), strays := {});
    assert Recorded(h, s, CrashStep(index, maxTs)) == h' && Named(map[], h');
  }

  lemma ReopenTraced(c: Config, s: State, h: History, tables: set<nat>, maxTs: nat)
    requires Traced(s, h) && CanReopen(s, tables, maxTs)
    ensures Traced(Reopened(c, s, tables, maxTs), Recorded(h, s, ReopenStep(tables, maxTs)))
  {
  }

  // ---------------------------------------------------------------- every step keeps it

  /** Steps of an operation that neither begin, end, write nor commit it. */
  lemma SpaceStepTraced(c: Config, s: State, h: History, st: Step, s': State)
    requires Traced(s, h) && NextOp(c, s, st, s') && Forms(s.ops, s.phase)
    requires st.AllocateStep? || st.InvalidateStep? || st.RejectStep?
    ensures Traced(s', Recorded(h, s, st))
  {
    assert OpTraced(st.o, s.ops[st.o], s.ranked, h) && Form(s.ops[st.o], s.phase);
    SameTraced(s, s', h, st.o);
  }

  lemma ReadStepTraced(c: Config, s: State, h: History, st: Step, s': State)
    requires Traced(s, h) && NextOp(c, s, st, s')
    requires st.LeaveStep? || st.EnterStep? || st.LookupStep? || st.VerifyStep? || st.ForgetStep?
    ensures Traced(s', Recorded(h, s, st))
  {
    assert OpTraced(st.o, s.ops[st.o], s.ranked, h);
    SameTraced(s, s', h, st.o);
  }

  lemma QuietStepTraced(c: Config, s: State, h: History, st: Step, s': State)
    requires Traced(s, h) && NextOp(c, s, st, s') && Forms(s.ops, s.phase)
    requires || st.LeaveStep? || st.EnterStep? || st.AllocateStep? || st.LookupStep? || st.VerifyStep?
             || st.ForgetStep? || st.InvalidateStep? || st.RejectStep?
    ensures Traced(s', Recorded(h, s, st))
  {
    if st.AllocateStep? || st.InvalidateStep? || st.RejectStep? {
      SpaceStepTraced(c, s, h, st, s');
    } else {
      ReadStepTraced(c, s, h, st, s');
    }
  }

  lemma CommitStepTraced(c: Config, s: State, h: History, st: Step, s': State)
    requires Traced(s, h) && NextOp(c, s, st, s') && (st.CommitPutStep? || st.CommitDelStep?)
    ensures Traced(s', Recorded(h, s, st))
  {
    match st
    case CommitPutStep(o, mode, ifVersion) =>
      PublishTraced(s, h, o, DecidePut(c, s, s.ops[o], mode, ifVersion).prev, st);
    case CommitDelStep(o, ifVersion) =>
      PublishTraced(s, h, o, DecideDel(c, s, s.ops[o], ifVersion).prev, st);
  }

  lemma BoundStepTraced(c: Config, s: State, h: History, st: Step, s': State)
    requires Traced(s, h) && NextOp(c, s, st, s') && (st.BeginStep? || st.EndStep?)
    ensures Traced(s', Recorded(h, s, st))
  {
    match st
    case BeginStep(o, rec) => BeginTraced(s, h, o, rec);
    case EndStep(o) => EndTraced(s, h, o);
  }

  lemma WriteStepTraced(c: Config, s: State, h: History, st: Step, s': State)
    requires Traced(s, h) && NextOp(c, s, st, s') && Grounds(s) && (st.WriteStep? || st.RewriteStep?)
    ensures Traced(s', Recorded(h, s, st))
  {
    match st
    case WriteStep(o) => WriteTraced(s, h, o);
    case RewriteStep(o, _, _) => RewriteTraced(s, h, o);
  }

  lemma OpStepTraced(c: Config, s: State, h: History, st: Step, s': State)
    requires Traced(s, h) && NextOp(c, s, st, s') && Grounds(s)
    ensures Traced(s', Recorded(h, s, st))
  {
    if st.BeginStep? || st.EndStep? {
      BoundStepTraced(c, s, h, st, s');
    } else if st.WriteStep? || st.RewriteStep? {
      WriteStepTraced(c, s, h, st, s');
    } else if st.CommitPutStep? || st.CommitDelStep? {
      CommitStepTraced(c, s, h, st, s');
    } else {
      QuietStepTraced(c, s, h, st, s');
    }
  }

  lemma SegmentStepTraced(c: Config, s: State, h: History, st: Step, s': State)
    requires Traced(s, h) && NextSegment(c, s, st, s') && Grounds(s)
    ensures Traced(s', Recorded(h, s, st))
  {
    if st.StageStep? || st.StageIndexStep? {
      WipeTraced(s, h, st.seg, s', st);
    } else {
      StillTraced(s, s', h);
    }
  }

  lemma GcLockTraced(c: Config, s: State, h: History, p: Pba, seg: nat)
    requires Traced(s, h) && CanLock(c, s, p, seg) && OnDisk(s.disk, s.live, s.phase, s.cursor)
    ensures Traced(GcLock(s, p, seg), h)
  {
    assert Pba(seg, s.cursor[seg]) !in s.disk;
    StillTraced(s, GcLock(s, p, seg), h);
  }

  lemma GcStepTraced(c: Config, s: State, h: History, st: Step, s': State)
    requires Traced(s, h) && NextGc(c, s, st, s') && Grounds(s)
    ensures Traced(s', Recorded(h, s, st))
  {
    match st
    case GcLockStep(p, seg) => GcLockTraced(c, s, h, p, seg);
    case GcWriteStep => GcWriteTraced(s, h);
    case GcRepointStep => RepointTraced(s, h);
    case GcFailStep => GcFailTraced(s, h);
    case _ => StillTraced(s, s', h);
  }

  lemma NextTraced(c: Config, s: State, h: History, st: Step, s': State)
    requires Traced(s, h) && Next(c, s, st, s') && Grounds(s)
    ensures Traced(s', Recorded(h, s, st))
  {
    if NextOp(c, s, st, s') {
      OpStepTraced(c, s, h, st, s');
    } else if NextSegment(c, s, st, s') {
      SegmentStepTraced(c, s, h, st, s');
    } else if NextGc(c, s, st, s') {
      GcStepTraced(c, s, h, st, s');
    } else if st.CrashStep? {
      CrashTraced(c, s, h, st.index, st.maxTs);
    } else {
      ReopenTraced(c, s, h, st.tables, st.maxTs);
    }
  }

  lemma BoundStepInscribed(c: Config, s: State, h: History, st: Step, s': State)
    requires Inscribed(s.disk, s.ops, h) && NextOp(c, s, st, s') && (st.BeginStep? || st.EndStep?)
    ensures Inscribed(s'.disk, s'.ops, Recorded(h, s, st))
  {
  }

  lemma WriteInscribed(s: State, h: History, o: nat)
    requires Inscribed(s.disk, s.ops, h) && CanWrite(s, o)
    ensures Inscribed(Write(s, o).disk, Write(s, o).ops, Recorded(h, s, WriteStep(o)))
  {
  }

  lemma SameInscribed(disk: map<Pba, Rec>, ops: map<nat, Op>, ops': map<nat, Op>, h: History, h': History)
    requires Inscribed(disk, ops, h) && h'.ids == h.ids && h'.recs == h.recs && h'.born == h.born
    requires ops'.Keys == ops.Keys && forall o :: o in ops ==> ops'[o].rec == ops[o].rec
    ensures Inscribed(disk, ops', h')
  {
  }

  lemma OpStepInscribed(c: Config, s: State, h: History, st: Step, s': State)
    requires Inscribed(s.disk, s.ops, h) && NextOp(c, s, st, s')
    ensures Inscribed(s'.disk, s'.ops, Recorded(h, s, st))
  {
    if st.BeginStep? || st.EndStep? {
      BoundStepInscribed(c, s, h, st, s');
    } else if st.WriteStep? {
      WriteInscribed(s, h, st.o);
    } else {
      LogLayout.KeepsOps(c, s, st, s');
      forall o | o in s.ops ensures s'.ops[o].rec == s.ops[o].rec {
        LogLayout.SameRec(c, s, st, s', o);
      }
      OpKeepsDisk(c, s, st, s');
      SameInscribed(s.disk, s.ops, s'.ops, h, Recorded(h, s, st));
    }
  }

  lemma GcStepInscribed(c: Config, s: State, h: History, st: Step, s': State)
    requires Inscribed(s.disk, s.ops, h) && NextGc(c, s, st, s')
    ensures Inscribed(s'.disk, s'.ops, Recorded(h, s, st))
  {
  }

  lemma NextInscribed(c: Config, s: State, h: History, st: Step, s': State)
    requires Inscribed(s.disk, s.ops, h) && Next(c, s, st, s')
    ensures Inscribed(s'.disk, s'.ops, Recorded(h, s, st))
  {
    if NextOp(c, s, st, s') {
      OpStepInscribed(c, s, h, st, s');
    } else if NextGc(c, s, st, s') {
      GcStepInscribed(c, s, h, st, s');
    }
  }

  // ---------------------------------------------------------------- runs

  /** The history of a run, up to its state `i`. */
  ghost function HistoryOf(r: Run, i: nat): History
    requires i <= |r.steps| && i < |r.states|
  {
    if i == 0 then Empty() else Recorded(HistoryOf(r, i - 1), r.states[i - 1], r.steps[i - 1])
  }

  lemma RunGrounds(c: Config, r: Run, i: nat)
    requires IsRun(c, r) && i < |r.states|
    ensures Grounds(r.states[i])
  {
    RunKeeps(c, r, i);
  }

  lemma InitTraced(c: Config, s: State)
    requires Init(c, s)
    ensures Traced(s, Empty()) && Inscribed(s.disk, s.ops, Empty())
  {
  }

  lemma RunStepTraced(c: Config, r: Run, i: nat)
    requires IsRun(c, r) && i < |r.steps|
    requires Traced(r.states[i], HistoryOf(r, i)) && Inscribed(r.states[i].disk, r.states[i].ops, HistoryOf(r, i))
    ensures Traced(r.states[i + 1], HistoryOf(r, i + 1))
    ensures Inscribed(r.states[i + 1].disk, r.states[i + 1].ops, HistoryOf(r, i + 1))
  {
    RunGrounds(c, r, i);
    assert StepAt(c, r, i);
    NextTraced(c, r.states[i], HistoryOf(r, i), r.steps[i], r.states[i + 1]);
    NextInscribed(c, r.states[i], HistoryOf(r, i), r.steps[i], r.states[i + 1]);
  }

  lemma {:induction false} RunTraced(c: Config, r: Run, i: nat)
    requires IsRun(c, r) && i < |r.states|
    ensures Traced(r.states[i], HistoryOf(r, i))
    ensures Inscribed(r.states[i].disk, r.states[i].ops, HistoryOf(r, i))
  {
    if i == 0 {
      InitTraced(c, r.states[0]);
    } else {
      RunTraced(c, r, i - 1);
      RunStepTraced(c, r, i - 1);
    }
  }
}
