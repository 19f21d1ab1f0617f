/**
  Writers against a growing directory: freeze, grace period, copy, publish, retire. The grace
  period is the one of `Rcu.GracePeriod`: it outlasts every section open when it began.
 */
module GrowProtocol {
  import opened Common

  /** A key's cell of a snapshot's tables; what a copy carries over is settled in `Directory`. */
  type Cells = map<nat, nat>

  /** An operation in a read section: the snapshot it loaded, and whether lock_for let it write. */
  datatype Op = Op(snap: Option<nat>, cleared: bool)

  datatype Grow =
    | NotGrowing
    | Waiting(waits: set<nat>)                // frozen; synchronize() runs
    | Copying(todo: set<nat>, dst: Cells)
    | Retiring                                // published; the old snapshot is to be retired

  /**
    Snapshots by generation, the last one current. `frozen` ones refuse writers, `leaving` ones
    wait for read sections before they are freed. `truth` is what the acknowledged writes amount
    to, applied in order to a plain map.
   */
  datatype State = State(
    tables: seq<Cells>,
    frozen: set<nat>,
    leaving: map<nat, set<nat>>,
    freed: set<nat>,
    ops: map<nat, Op>,
    grow: Grow,
    truth: Cells)

  function With(c: Cells, key: nat, val: nat): Cells {
    c[key := val]
  }

  function Without(c: Cells, key: nat): Cells {
    map k | k in c && k != key :: c[k]
  }

  function Current(s: State): int {
    |s.tables| - 1
  }

  datatype Step =
    | Enter(o: nat)
    | Load(o: nat)
    | Check(o: nat)
    | Write(o: nat, key: nat, val: nat)
    | Remove(o: nat, key: nat)
    | Leave(o: nat)
    | Freeze
    | StartCopy
    | CopyCell(key: nat)
    | Publish
    | Retire
    | Free(gen: nat)

  ghost predicate Next(s: State, st: Step, s': State) {
    match st
    case Enter(o) => o !in s.ops && s' == s.(ops := s.ops[o := Op(None, false)])
    case Load(o) =>
      && o in s.ops && Current(s) >= 0
      && s' == s.(ops := s.ops[o := Op(Some(Current(s)), false)])
    // a frozen snapshot sends the writer away (it leaves and waits for the grow)
    case Check(o) =>
      && o in s.ops && s.ops[o].snap.Some? && s.ops[o].snap.value !in s.frozen
      && s' == s.(ops := s.ops[o := s.ops[o].(cleared := true)])
    case Write(o, key, val) =>
      && o in s.ops && s.ops[o].cleared && s.ops[o].snap.Some? && s.ops[o].snap.value < |s.tables|
      && var g := s.ops[o].snap.value;
         s' == s.(tables := s.tables[g := With(s.tables[g], key, val)], truth := With(s.truth, key, val))
    case Remove(o, key) =>
      && o in s.ops && s.ops[o].cleared && s.ops[o].snap.Some? && s.ops[o].snap.value < |s.tables|
      && var g := s.ops[o].snap.value;
         s' == s.(tables := s.tables[g := Without(s.tables[g], key)], truth := Without(s.truth, key))
    case Leave(o) => o in s.ops && s' == s.(ops := s.ops - {o})
    case Freeze =>
      && s.grow == NotGrowing && Current(s) >= 0
      && s' == s.(frozen := s.frozen + {Current(s)}, grow := Waiting(s.ops.Keys))
    case StartCopy =>
      && s.grow.Waiting? && GraceOver(s.grow.waits, s.ops.Keys) && Current(s) >= 0
      && s' == s.(grow := Copying(s.tables[Current(s)].Keys, map[]))
    case CopyCell(key) =>
      && s.grow.Copying? && key in s.grow.todo && Current(s) >= 0 && key in s.tables[Current(s)]
      && s' == s.(grow := Copying(s.grow.todo - {key}, s.grow.dst[key := s.tables[Current(s)][key]]))
    case Publish =>
      && s.grow.Copying? && s.grow.todo == {}
      && s' == s.(tables := s.tables + [s.grow.dst], grow := Retiring)
    case Retire =>
      && s.grow == Retiring && Current(s) >= 1
      && s' == s.(leaving := s.leaving[Current(s) - 1 := s.ops.Keys], grow := NotGrowing)
    case Free(gen) =>
      && gen in s.leaving && GraceOver(s.leaving[gen], s.ops.Keys)
      && s' == s.(leaving := s.leaving - {gen}, freed := s.freed + {gen})
  }

  ghost predicate Init(s: State) {
    && |s.tables| == 1 && s.frozen == {} && s.leaving == map[] && s.freed == {} && s.ops == map[]
    && s.grow == NotGrowing && s.truth == s.tables[0]
  }

  /** The operation was let through while its snapshot was current and not yet waited for. */
  ghost predicate Admitted(s: State, o: nat)
    requires o in s.ops
  {
    s.ops[o].cleared ==>
      && s.ops[o].snap == Some(Current(s))
      && (s.grow.NotGrowing? || s.grow.Retiring? || (s.grow.Waiting? && o in s.grow.waits))
  }

  ghost predicate Usable(s: State, o: nat)
    requires o in s.ops
  {
    s.ops[o].snap.Some? ==>
      && 0 <= s.ops[o].snap.value < |s.tables| && s.ops[o].snap.value !in s.freed
      && (s.ops[o].snap.value in s.leaving ==> o in s.leaving[s.ops[o].snap.value])
  }

  ghost predicate Flags(s: State) {
    && |s.tables| >= 1 && (s.grow.Retiring? ==> |s.tables| >= 2)
    && (forall g: nat :: g < |s.tables| ==>
          (g in s.frozen <==> g < Current(s) || s.grow.Waiting? || s.grow.Copying?))
    && (forall g :: g in s.frozen ==> g < |s.tables|)
    && (forall g :: g in s.leaving || g in s.freed ==> g < Current(s))
    && (s.grow.Retiring? ==> Current(s) - 1 !in s.leaving && Current(s) - 1 !in s.freed)
    && (forall g :: g in s.leaving ==> g !in s.freed)
  }

  ghost predicate CopyFaithful(s: State) {
    s.grow.Copying? && |s.tables| >= 1 ==>
      var src := s.tables[|s.tables| - 1];
      && s.grow.todo + s.grow.dst.Keys == src.Keys
      && forall k :: k in s.grow.dst ==> k in src && s.grow.dst[k] == src[k]
  }

  ghost predicate Inv(s: State) {
    && Flags(s)
    && s.tables[|s.tables| - 1] == s.truth
    && (forall o :: o in s.ops ==> Admitted(s, o))
    && (forall o :: o in s.ops ==> Usable(s, o))
    && CopyFaithful(s)
  }

  lemma OpStepKeeps(s: State, st: Step, s': State)
    requires Inv(s) && Next(s, st, s')
    requires st.Enter? || st.Load? || st.Check? || st.Leave?
    ensures Inv(s')
  {
    forall o | o in s'.ops ensures Admitted(s', o) && Usable(s', o) {
      if o in s.ops {
        assert Admitted(s, o) && Usable(s, o);
      }
    }
  }

  lemma WriteStepKeeps(s: State, st: Step, s': State)
    requires Inv(s) && Next(s, st, s') && (st.Write? || st.Remove?)
    ensures Inv(s')
  {
    assert Admitted(s, st.o);
    forall o | o in s'.ops ensures Admitted(s', o) && Usable(s', o) {
      assert Admitted(s, o) && Usable(s, o);
    }
  }

  /** The grace period outlasts every writer that got past the flag. */
  lemma FreezeStepKeeps(s: State, st: Step, s': State)
    requires Inv(s) && Next(s, st, s') && (st.Freeze? || st.StartCopy? || st.CopyCell?)
    ensures Inv(s')
  {
    forall o | o in s'.ops ensures Admitted(s', o) && Usable(s', o) {
      assert Admitted(s, o) && Usable(s, o);
    }
  }

  lemma PublishStepKeeps(s: State, st: Step, s': State)
    requires Inv(s) && Next(s, st, s') && (st.Publish? || st.Retire? || st.Free?)
    ensures Inv(s')
  {
    forall o | o in s'.ops ensures Admitted(s', o) && Usable(s', o) {
      assert Admitted(s, o) && Usable(s, o);
    }
    if st.Publish? {
      assert s.grow.dst == s.truth;
    }
  }

  lemma NextKeeps(s: State, st: Step, s': State)
    requires Inv(s) && Next(s, st, s')
    ensures Inv(s')
  {
    if st.Enter? || st.Load? || st.Check? || st.Leave? {
      OpStepKeeps(s, st, s');
    } else if st.Write? || st.Remove? {
      WriteStepKeeps(s, st, s');
    } else if st.Freeze? || st.StartCopy? || st.CopyCell? {
      FreezeStepKeeps(s, st, s');
    } else {
      PublishStepKeeps(s, st, s');
    }
  }

  datatype Run = Run(states: seq<State>, steps: seq<Step>)

  ghost predicate StepAt(r: Run, i: nat) {
    i < |r.steps| && i + 1 < |r.states| && Next(r.states[i], r.steps[i], r.states[i + 1])
  }

  ghost predicate IsRun(r: Run) {
    |r.states| == |r.steps| + 1 && Init(r.states[0]) && forall i: nat :: i < |r.steps| ==> StepAt(r, i)
  }

  lemma {:induction false} RunKeeps(r: Run, i: nat)
    requires IsRun(r) && i < |r.states|
    ensures Inv(r.states[i])
  {
    if i > 0 {
      RunKeeps(r, i - 1);
      assert StepAt(r, i - 1);
      NextKeeps(r.states[i - 1], r.steps[i - 1], r.states[i]);
    }
  }

  /** In every state of every run the current tables hold exactly what the acknowledged writes amount to. */
  lemma NoWriteIsLost(r: Run, i: nat)
    requires IsRun(r) && i < |r.states|
    ensures |r.states[i].tables| >= 1 && r.states[i].tables[|r.states[i].tables| - 1] == r.states[i].truth
  {
    RunKeeps(r, i);
  }

  /** Once a grow copies, nobody can write the snapshot it copies, and no write goes to an older one. */
  lemma WritesGoToTheCurrentSnapshot(r: Run, i: nat)
    requires IsRun(r) && i < |r.steps| && (r.steps[i].Write? || r.steps[i].Remove?)
    ensures var s := r.states[i];
            r.steps[i].o in s.ops && s.ops[r.steps[i].o].snap == Some(Current(s)) && !s.grow.Copying?
  {
    RunKeeps(r, i);
    assert StepAt(r, i);
    assert Admitted(r.states[i], r.steps[i].o);
  }

  /** A snapshot is freed only when no operation can still be in it. */
  lemma NobodyUsesAFreedSnapshot(r: Run, i: nat, o: nat)
    requires IsRun(r) && i < |r.states| && o in r.states[i].ops && r.states[i].ops[o].snap.Some?
    ensures r.states[i].ops[o].snap.value !in r.states[i].freed
  {
    RunKeeps(r, i);
    assert Usable(r.states[i], o);
  }
}
