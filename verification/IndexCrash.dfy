/**
  Closes, opens and crashes in any order over one device: each write of a flush and each footer
  cleared by an open is a step of its own, and a crash may fall between any two.
 */
module IndexCrash {
  import opened Common
  import opened IndexFlush

  /** One flush: table i of `dir` goes to segment segs[i], under timestamp `ts`. */
  datatype Flush = Flush(segs: seq<nat>, dir: seq<Table>, ts: nat)

  datatype Phase =
    | Running
    | Flushing(hdrs: nat, tables: nat, ftrs: nat)
    | Down
    | Opening(found: seq<nat>, cleared: nat, chosen: Option<seq<Table>>)

  /**
    `dir` is the directory of the running session. `flush` is the latest flush, `closed` whether
    it ended and no session has begun since, and `cut` the index of a table whose footer an open
    has cleared since.
   */
  datatype State = State(dev: seq<Seg>, phase: Phase, dir: seq<Table>, flush: Flush, closed: bool, cut: Option<nat>)

  datatype Step =
    | Work(dev: seq<Seg>, dir: seq<Table>)
    | BeginFlush(segs: seq<nat>, indexTs: nat, allocNr: nat)
    | WriteHeader(torn: Table)
    | WriteSlots
    | WriteFooter
    | EndFlush
    | Crash
    | Open(found: seq<nat>, restored: Option<Restored>)
    | ClearFooter
    | Opened(recovered: seq<Table>)

  // ---------------------------------------------------------------- steps

  function MdOf(f: Flush, geometry: nat, i: nat): Md {
    Md(f.ts, |f.dir|, i, geometry)
  }

  ghost predicate NoFooter(dev: seq<Seg>) {
    forall s :: 0 <= s < |dev| ==> dev[s].ftr.None?
  }

  predicate Sane(size: nat, f: Flush) {
    |f.segs| == |f.dir| && TableCount(|f.dir|) && NoDup(f.segs) && f.ts != 0 && forall i :: 0 <= i < |f.segs| ==>
        f.segs[i] < size
  }

  ghost predicate NextFlush(geometry: nat, s: State, t: State, step: Step) {
    var f := s.flush;
    match step
    case BeginFlush(segs, indexTs, allocNr) =>
      && s.phase.Running?
      && t == s.(phase := Flushing(0, 0, 0), cut := None,
                 flush := Flush(segs, s.dir, (if indexTs < allocNr then allocNr else indexTs) + 1))
      && Sane(|s.dev|, t.flush) && forall i :: 0 <= i < |segs| ==> s.dev[segs[i]].index
    case WriteHeader(torn) =>
      && s.phase.Flushing? && s.phase.hdrs == s.phase.tables < |f.segs| && f.segs[s.phase.hdrs] < |s.dev|
      && var at := f.segs[s.phase.hdrs];
         t == s.(phase := s.phase.(hdrs := s.phase.hdrs + 1),
                 dev := s.dev[at := s.dev[at].(hdr := Some(MdOf(f, geometry, s.phase.hdrs)), slots := torn)])
    case WriteSlots =>
      && s.phase.Flushing? && s.phase.tables < s.phase.hdrs && s.phase.tables < |f.segs| == |f.dir| &&
          f.segs[s.phase.tables] < |s.dev|
      && var at := f.segs[s.phase.tables];
         t == s.(phase := s.phase.(tables := s.phase.tables + 1),
             dev := s.dev[at := s.dev[at].(slots := f.dir[s.phase.tables])])
    case WriteFooter =>
      && s.phase.Flushing? && s.phase.tables == |f.segs| && s.phase.ftrs < |f.segs| && f.segs[s.phase.ftrs] < |s.dev|
      && var at := f.segs[s.phase.ftrs];
         t == s.(phase := s.phase.(ftrs := s.phase.ftrs + 1), closed := s.phase.ftrs + 1 == |f.segs|,
                 dev := s.dev[at := s.dev[at].(ftr := Some(MdOf(f, geometry, s.phase.ftrs)))])
    case EndFlush =>
      s.phase.Flushing? && s.phase.ftrs == |f.segs| && t == s.(phase := Down)
    case _ => false
  }

  ghost predicate NextOpen(geometry: nat, s: State, t: State, step: Step) {
    match step
    case Work(dev, dir) =>
      s.phase.Running? && NoFooter(dev) && |dev| == |s.dev| && t == s.(dev := dev, dir := dir)
    case Crash =>
      t == s.(phase := Down)
    case Open(found, r) =>
      && s.phase.Down? && RestoresTo(s.dev, geometry, found, r)
      && t == s.(phase := Opening(found, 0, if r.Some? then Some(r.value.tables) else None))
    case ClearFooter =>
      && s.phase.Opening? && s.phase.cleared < |s.phase.found| && s.phase.found[s.phase.cleared] < |s.dev|
      && var at := s.phase.found[s.phase.cleared];
         && s.dev[at].ftr.Some?
         && t == s.(phase := s.phase.(cleared := s.phase.cleared + 1), cut := Some(s.dev[at].ftr.value.idx),
                    dev := s.dev[at := s.dev[at].(ftr := None)])
    case Opened(recovered) =>
      && s.phase.Opening? && s.phase.cleared == |s.phase.found|
      && t == s.(phase := Running, closed := false, dir := if s.phase.chosen.Some? then s.phase.chosen.value
          else recovered)
    case _ => false
  }

  ghost predicate Next(geometry: nat, s: State, t: State, step: Step) {
    NextFlush(geometry, s, t, step) || NextOpen(geometry, s, t, step)
  }

  // ---------------------------------------------------------------- invariant

  /** Every valid footer is one the latest flush wrote, over a table wholly written before it. */
  ghost predicate Marked(geometry: nat, dev: seq<Seg>, f: Flush) {
    forall s :: 0 <= s < |dev| && dev[s].ftr.Some? ==> MarkedAt(geometry, dev, f, s)
  }

  ghost predicate MarkedAt(geometry: nat, dev: seq<Seg>, f: Flush, s: nat)
    requires s < |dev| && dev[s].ftr.Some?
  {
    var i := dev[s].ftr.value.idx;
    && dev[s].index && dev[s].hdr == dev[s].ftr
    && i < |f.segs| == |f.dir| && f.segs[i] == s
    && dev[s].ftr.value == MdOf(f, geometry, i) && dev[s].slots == f.dir[i]
  }

  ghost predicate Footed(dev: seq<Seg>, f: Flush, n: nat) {
    n <= |f.segs| && forall i :: 0 <= i < n ==> f.segs[i] < |dev| && dev[f.segs[i]].ftr.Some?
  }

  ghost predicate Unfooted(dev: seq<Seg>, f: Flush, i: nat) {
    i < |f.segs| && f.segs[i] < |dev| && dev[f.segs[i]].ftr.None?
  }

  /** The index is whole on the device exactly when the store is closed and no footer is cut. */
  ghost predicate Shut(dev: seq<Seg>, f: Flush, closed: bool, cut: Option<nat>) {
    && (closed && cut.None? ==> Footed(dev, f, |f.segs|))
    && (!closed || cut.Some? ==> NoFooter(dev) || exists i :: Unfooted(dev, f, i))
  }

  ghost predicate Writing(geometry: nat, dev: seq<Seg>, f: Flush, p: Phase)
    requires p.Flushing?
  {
    && Sane(|dev|, f) && p.ftrs <= |f.segs| && p.tables <= p.hdrs <= |f.segs| && (p.ftrs > 0 ==> p.tables == |f.segs|)
    && (forall i :: 0 <= i < |f.segs| ==> dev[f.segs[i]].index)
    && (forall i :: 0 <= i < p.hdrs ==> dev[f.segs[i]].hdr == Some(MdOf(f, geometry, i)))
    && (forall i :: 0 <= i < p.tables ==> dev[f.segs[i]].slots == f.dir[i])
    && (forall i :: 0 <= i < |f.segs| ==> (dev[f.segs[i]].ftr.Some? <==> i < p.ftrs))
  }

  ghost predicate Clearing(dev: seq<Seg>, p: Phase)
    requires p.Opening?
  {
    && NoDup(p.found) && p.cleared <= |p.found|
    && forall s :: 0 <= s < |dev| ==> (dev[s].ftr.Some? <==> s in p.found[p.cleared..])
  }

  ghost predicate Inv(geometry: nat, s: State) {
    && Marked(geometry, s.dev, s.flush) && Shut(s.dev, s.flush, s.closed, s.cut)
    && (s.closed ==> Sane(|s.dev|, s.flush))
    && (s.phase.Running? ==> NoFooter(s.dev) && !s.closed)
    && (s.phase.Flushing? ==>
        Writing(geometry, s.dev, s.flush, s.phase) && s.cut.None? && (s.closed <==> s.phase.ftrs == |s.flush.segs|))
    && (s.phase.Opening? ==> Clearing(s.dev, s.phase) && (s.phase.chosen.Some? ==>
        s.closed && s.phase.chosen.value == s.flush.dir))
  }

  // ---------------------------------------------------------------- what a restore finds

  lemma TableIsTheFlushs(geometry: nat, dev: seq<Seg>, f: Flush, ts: nat, m: seq<nat>, i: nat)
    requires Marked(geometry, dev, f) && i < |m| && Holds(dev, m[i], Md(ts, |m|, i, geometry))
    ensures |m| == |f.dir| == |f.segs|
    ensures m[i] == f.segs[i] < |dev| && dev[m[i]].ftr.Some? && dev[m[i]].slots == f.dir[i]
  {
    assert MarkedAt(geometry, dev, f, m[i]);
  }

  /** Whatever is complete on the device is the latest flush, table by table. */
  lemma CompleteIsTheFlush(geometry: nat, dev: seq<Seg>, f: Flush, ts: nat, m: seq<nat>)
    requires Marked(geometry, dev, f) && Complete(dev, geometry, ts, m)
    ensures |m| == |f.dir| == |f.segs|
    ensures forall i :: 0 <= i < |m| ==> m[i] == f.segs[i] < |dev| && dev[m[i]].ftr.Some? && dev[m[i]].slots == f.dir[i]
  {
    TableIsTheFlushs(geometry, dev, f, ts, m, 0);
    forall i | 0 <= i < |m|
      ensures m[i] == f.segs[i] < |dev| && dev[m[i]].ftr.Some? && dev[m[i]].slots == f.dir[i]
    {
      TableIsTheFlushs(geometry, dev, f, ts, m, i);
    }
  }

  /** A flush with all its footers is complete. */
  lemma FlushIsComplete(geometry: nat, dev: seq<Seg>, f: Flush)
    requires Sane(|dev|, f) && Marked(geometry, dev, f) && Footed(dev, f, |f.segs|)
    ensures Complete(dev, geometry, f.ts, f.segs)
  {
    forall i | 0 <= i < |f.segs| ensures Holds(dev, f.segs[i], Md(f.ts, |f.segs|, i, geometry)) {
      assert dev[f.segs[i]].ftr.Some? && MarkedAt(geometry, dev, f, f.segs[i]);
      assert f.segs[dev[f.segs[i]].ftr.value.idx] == f.segs[i];
    }
    forall s | 0 <= s < |dev| ensures TsAt(dev[s]) <= f.ts && (TsAt(dev[s]) == f.ts ==> s in f.segs) {
      if dev[s].ftr.Some? {
        assert MarkedAt(geometry, dev, f, s);
      }
    }
  }

  /**
    What an open restores: the directory just closed, whole, if its flush reached the device to
    the last footer and no earlier open has begun to clear them; nothing in any other case.
   */
  lemma RestoreIsExact(geometry: nat, s: State, found: seq<nat>, r: Option<Restored>)
    requires Inv(geometry, s) && RestoresTo(s.dev, geometry, found, r)
    ensures r.Some? ==> s.closed && s.cut.None? && r.value.tables == s.flush.dir && r.value.segs == s.flush.segs
    ensures (exists ts, m :: Complete(s.dev, geometry, ts, m)) <==> s.closed && s.cut.None?
  {
    if s.closed && s.cut.None? {
      FlushIsComplete(geometry, s.dev, s.flush);
    }
    forall ts, m | Complete(s.dev, geometry, ts, m) ensures s.closed && s.cut.None? {
      CompleteIsTheFlush(geometry, s.dev, s.flush, ts, m);
      assert s.dev[m[0]].ftr.Some?;
      assert forall i :: !Unfooted(s.dev, s.flush, i);
    }
    if r.Some? {
      var ts :| Complete(s.dev, geometry, ts, r.value.segs);
      CompleteIsTheFlush(geometry, s.dev, s.flush, ts, r.value.segs);
    }
  }

  // ---------------------------------------------------------------- steps keep the invariant

  lemma BeginKeeps(geometry: nat, s: State, t: State, step: Step)
    requires Inv(geometry, s) && step.BeginFlush? && NextFlush(geometry, s, t, step)
    ensures Inv(geometry, t)
  {
  }

  lemma HeaderKeeps(geometry: nat, s: State, t: State, step: Step)
    requires Inv(geometry, s) && step.WriteHeader? && NextFlush(geometry, s, t, step)
    ensures Inv(geometry, t)
  {
    var at := s.flush.segs[s.phase.hdrs];
    assert s.dev[at].ftr.None?;
    assert forall k :: 0 <= k < |s.dev| && k != at ==> t.dev[k] == s.dev[k];
    forall k | 0 <= k < |t.dev| && t.dev[k].ftr.Some? ensures MarkedAt(geometry, t.dev, t.flush, k) {
      assert MarkedAt(geometry, s.dev, s.flush, k);
    }
    assert Unfooted(t.dev, t.flush, s.phase.hdrs);
  }

  lemma SlotsKeeps(geometry: nat, s: State, t: State, step: Step)
    requires Inv(geometry, s) && step.WriteSlots? && NextFlush(geometry, s, t, step)
    ensures Inv(geometry, t)
  {
    var at := s.flush.segs[s.phase.tables];
    assert s.dev[at].ftr.None?;
    assert forall k :: 0 <= k < |s.dev| && k != at ==> t.dev[k] == s.dev[k];
    forall k | 0 <= k < |t.dev| && t.dev[k].ftr.Some? ensures MarkedAt(geometry, t.dev, t.flush, k) {
      assert MarkedAt(geometry, s.dev, s.flush, k);
    }
    assert Unfooted(t.dev, t.flush, s.phase.tables);
  }

  lemma FooterKeeps(geometry: nat, s: State, t: State, step: Step)
    requires Inv(geometry, s) && step.WriteFooter? && NextFlush(geometry, s, t, step)
    ensures Inv(geometry, t)
  {
    var at := s.flush.segs[s.phase.ftrs];
    assert forall k :: 0 <= k < |s.dev| && k != at ==> t.dev[k] == s.dev[k];
    forall k | 0 <= k < |t.dev| && t.dev[k].ftr.Some? ensures MarkedAt(geometry, t.dev, t.flush, k) {
      if k != at {
        assert MarkedAt(geometry, s.dev, s.flush, k);
      }
    }
    if !t.closed {
      assert Unfooted(t.dev, t.flush, s.phase.ftrs + 1);
    }
  }

  lemma FlushKeeps(geometry: nat, s: State, t: State, step: Step)
    requires Inv(geometry, s) && NextFlush(geometry, s, t, step)
    ensures Inv(geometry, t)
  {
    if step.BeginFlush? {
      BeginKeeps(geometry, s, t, step);
    } else if step.WriteHeader? {
      HeaderKeeps(geometry, s, t, step);
    } else if step.WriteSlots? {
      SlotsKeeps(geometry, s, t, step);
    } else if step.WriteFooter? {
      FooterKeeps(geometry, s, t, step);
    }
  }

  lemma ClearKeeps(geometry: nat, s: State, t: State, step: Step)
    requires Inv(geometry, s) && step.ClearFooter? && NextOpen(geometry, s, t, step)
    ensures Inv(geometry, t)
  {
    var found, k := s.phase.found, s.phase.cleared;
    var at := found[k];
    assert MarkedAt(geometry, s.dev, s.flush, at);
    assert found[k..] == [at] + found[k + 1..];
    assert at !in found[k + 1..];
    assert forall j :: 0 <= j < |s.dev| && j != at ==> t.dev[j] == s.dev[j];
    forall j | 0 <= j < |t.dev| && t.dev[j].ftr.Some? ensures MarkedAt(geometry, t.dev, t.flush, j) {
      assert MarkedAt(geometry, s.dev, s.flush, j);
    }
    assert Unfooted(t.dev, t.flush, s.dev[at].ftr.value.idx);
  }

  lemma OpenKeeps(geometry: nat, s: State, t: State, step: Step)
    requires Inv(geometry, s) && step.Open? && NextOpen(geometry, s, t, step)
    ensures Inv(geometry, t)
  {
    RestoreIsExact(geometry, s, step.found, step.restored);
    assert t.phase.found[0..] == step.found;
    forall k | 0 <= k < |s.dev| ensures s.dev[k].ftr.Some? <==> k in t.phase.found {
      if s.dev[k].ftr.Some? {
        assert MarkedAt(geometry, s.dev, s.flush, k);
      }
    }
  }

  lemma OpenedKeeps(geometry: nat, s: State, t: State, step: Step)
    requires Inv(geometry, s) && step.Opened? && NextOpen(geometry, s, t, step)
    ensures Inv(geometry, t)
  {
    assert s.phase.found[s.phase.cleared..] == [];
  }

  lemma NextKeeps(geometry: nat, s: State, t: State, step: Step)
    requires Inv(geometry, s) && Next(geometry, s, t, step)
    ensures Inv(geometry, t)
  {
    if NextFlush(geometry, s, t, step) {
      FlushKeeps(geometry, s, t, step);
    } else if step.ClearFooter? {
      ClearKeeps(geometry, s, t, step);
    } else if step.Open? {
      OpenKeeps(geometry, s, t, step);
    } else if step.Opened? {
      OpenedKeeps(geometry, s, t, step);
    }
  }

  // ---------------------------------------------------------------- runs

  datatype Run = Run(states: seq<State>, steps: seq<Step>)

  ghost predicate StepAt(geometry: nat, r: Run, i: nat)
    requires |r.states| == |r.steps| + 1 && i < |r.steps|
  {
    Next(geometry, r.states[i], r.states[i + 1], r.steps[i])
  }

  /** A run from a freshly created store: running, with no valid footer on the device. */
  ghost predicate IsRun(geometry: nat, r: Run) {
    && |r.states| == |r.steps| + 1
    && r.states[0].phase.Running? && NoFooter(r.states[0].dev) && !r.states[0].closed
    && forall i :: 0 <= i < |r.steps| ==> StepAt(geometry, r, i)
  }

  lemma {:induction false} RunKeeps(geometry: nat, r: Run, i: nat)
    requires IsRun(geometry, r) && i < |r.states|
    ensures Inv(geometry, r.states[i])
  {
    if i > 0 {
      RunKeeps(geometry, r, i - 1);
      assert StepAt(geometry, r, i - 1);
      NextKeeps(geometry, r.states[i - 1], r.states[i], r.steps[i - 1]);
    }
  }

  /** Between begin and end no session wrote anything. */
  ghost predicate Quiet(r: Run, begin: nat, end: nat)
    requires end <= |r.steps|
  {
    forall k :: begin < k < end ==> !r.steps[k].Opened? && !r.steps[k].Work? && !r.steps[k].BeginFlush?
  }

  ghost predicate FlushedAt(r: Run, begin: nat, i: nat)
    requires |r.states| == |r.steps| + 1 && i < |r.states|
  {
    && begin < i && r.steps[begin].BeginFlush?
    && r.states[begin].phase.Running? && r.states[begin].dir == r.states[i].flush.dir
    && Quiet(r, begin, i)
  }

  /** A store that is flushing or closed began its flush with that directory, and no session has run since. */
  lemma {:induction false} FlushBegan(geometry: nat, r: Run, i: nat) returns (begin: nat)
    requires IsRun(geometry, r) && i < |r.states|
    requires r.states[i].closed || r.states[i].phase.Flushing?
    ensures FlushedAt(r, begin, i)
  {
    assert StepAt(geometry, r, i - 1);
    RunKeeps(geometry, r, i - 1);
    if r.steps[i - 1].BeginFlush? {
      begin := i - 1;
    } else {
      begin := FlushBegan(geometry, r, i - 1);
    }
  }

  /**
    Whatever an open finds after any run of closes, opens and crashes: a restored directory is the
    one the last session ran with when it began to close, nothing having been written since; and
    it is restored unless a write of that flush is missing or an open has already cut it.
   */
  lemma CloseIsAtomic(geometry: nat, r: Run, i: nat, found: seq<nat>, restored: Option<Restored>)
    requires IsRun(geometry, r) && i < |r.states|
    requires RestoresTo(r.states[i].dev, geometry, found, restored)
    ensures restored.Some? ==>
              exists begin: nat :: FlushedAt(r, begin, i) && restored.value.tables == r.states[begin].dir
    ensures (exists ts, m :: Complete(r.states[i].dev, geometry, ts, m)) <==>
            r.states[i].closed && r.states[i].cut.None?
  {
    RunKeeps(geometry, r, i);
    RestoreIsExact(geometry, r.states[i], found, restored);
    if restored.Some? {
      var begin := FlushBegan(geometry, r, i);
    }
  }

  /** A session starts with no valid footer anywhere, so what it writes is never undone by an old index. */
  lemma SessionsStartClean(geometry: nat, r: Run, i: nat)
    requires IsRun(geometry, r) && i < |r.states| && r.states[i].phase.Running?
    ensures NoFooter(r.states[i].dev)
    ensures forall ts, m :: !Complete(r.states[i].dev, geometry, ts, m)
  {
    RunKeeps(geometry, r, i);
    forall ts: nat, m: seq<nat> ensures !Complete(r.states[i].dev, geometry, ts, m) {
      if TableCount(|m|) {
        assert !Holds(r.states[i].dev, m[0], Md(ts, |m|, 0, geometry));
      }
    }
  }

  /** The directory a session resumes from a restored index is the one the previous session closed with. */
  lemma ReopenedDirectory(geometry: nat, r: Run, i: nat) returns (begin: nat)
    requires IsRun(geometry, r) && i < |r.steps| && r.steps[i].Opened? && r.states[i].phase.Opening?
    requires r.states[i].phase.chosen.Some?
    ensures FlushedAt(r, begin, i) && r.states[i + 1].dir == r.states[begin].dir
  {
    RunKeeps(geometry, r, i);
    assert StepAt(geometry, r, i);
    begin := FlushBegan(geometry, r, i);
  }
}
