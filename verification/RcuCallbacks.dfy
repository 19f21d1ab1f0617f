/**
  Deferred callbacks: `call` queues one, a reclaimer takes the whole queue, waits out one grace
  period and runs the batch, and `barrier` waits for what was queued before it. The grace period
  is the one of `Rcu.GracePeriod`.
 */
module RcuCallbacks {
  import opened Common

  datatype Phase = Idle | Syncing(waits: set<nat>) | Calling

  /**
    Callbacks are numbered in the order they are queued: those below `done` belong to finished
    batches, those below `ran` have run, those below `taken` are in the present batch, the rest
    are in the queue. `at[k]` is the read sections that were open when callback k was queued.
   */
  datatype State = State(
    open: set<nat>,
    nextSect: nat,
    at: seq<set<nat>>,
    done: nat,
    ran: nat,
    taken: nat,
    phase: Phase,
    barriers: map<nat, nat>)

  datatype Step =
    | Enter
    | Leave(x: nat)
    | Call
    | Take
    | GraceEnds
    | RunNext
    | FinishBatch
    | BarrierBegins(b: nat)
    | BarrierReturns(b: nat)

  ghost predicate Next(s: State, st: Step, s': State) {
    match st
    case Enter => s' == s.(open := s.open + {s.nextSect}, nextSect := s.nextSect + 1)
    case Leave(x) => x in s.open && s' == s.(open := s.open - {x})
    case Call => s' == s.(at := s.at + [s.open])
    case Take => s.phase.Idle? && s.taken < |s.at| && s' == s.(taken := |s.at|, phase := Syncing(s.open))
    case GraceEnds => s.phase.Syncing? && GraceOver(s.phase.waits, s.open) && s' == s.(phase := Calling)
    case RunNext => s.phase.Calling? && s.ran < s.taken && s' == s.(ran := s.ran + 1)
    case FinishBatch => s.phase.Calling? && s.ran == s.taken && s' == s.(done := s.taken, phase := Idle)
    case BarrierBegins(b) => b !in s.barriers && s' == s.(barriers := s.barriers[b := |s.at|])
    case BarrierReturns(b) => b in s.barriers && s.done >= s.barriers[b] && s' == s.(barriers := s.barriers - {b})
  }

  ghost predicate Init(s: State) {
    s.open == {} && s.at == [] && s.done == s.ran == s.taken == 0 && s.phase.Idle? && s.barriers == map[]
  }

  /** Of the sections open when a callback of the batch was queued, those still open are waited for. */
  ghost predicate Waited(s: State, k: nat)
    requires k < |s.at|
  {
    match s.phase
    case Idle => true
    case Syncing(waits) => forall x :: x in s.at[k] && x in s.open ==> x in waits
    case Calling => s.at[k] !! s.open
  }

  ghost predicate Inv(s: State) {
    && s.done <= s.ran <= s.taken <= |s.at|
    && (s.phase.Idle? ==> s.done == s.taken) && (s.phase.Syncing? ==> s.done == s.ran)
    && (forall x :: x in s.open ==> x < s.nextSect)
    && (forall k, x :: 0 <= k < |s.at| && x in s.at[k] ==> x < s.nextSect)
    && (forall k :: s.done <= k < s.taken ==> Waited(s, k))
  }

  lemma NextKeeps(s: State, st: Step, s': State)
    requires Inv(s) && Next(s, st, s')
    ensures Inv(s')
  {
    forall k | s'.done <= k < s'.taken ensures Waited(s', k) {
      if k < s.taken && s.done <= k {
        assert Waited(s, k);
      }
    }
  }

  datatype Run = Run(states: seq<State>, steps: seq<Step>)

  ghost predicate IsRun(r: Run) {
    && |r.states| == |r.steps| + 1 && Init(r.states[0])
    && forall i :: 0 <= i < |r.steps| ==> Next(r.states[i], r.steps[i], r.states[i + 1])
  }

  lemma {:induction false} RunKeeps(r: Run, i: nat)
    requires IsRun(r) && i < |r.states|
    ensures Inv(r.states[i])
  {
    if i > 0 {
      RunKeeps(r, i - 1);
      NextKeeps(r.states[i - 1], r.steps[i - 1], r.states[i]);
    }
  }

  /** What is queued, and what has run, is never taken back. */
  lemma {:induction false} OnlyGrows(r: Run, i: nat, j: nat)
    requires IsRun(r) && i <= j < |r.states|
    ensures r.states[i].at <= r.states[j].at && r.states[i].ran <= r.states[j].ran
    decreases j
  {
    if i < j {
      OnlyGrows(r, i, j - 1);
      assert Next(r.states[j - 1], r.steps[j - 1], r.states[j]);
    }
  }

  /** The callback queued at step `i` runs, at step `j`, only when no section open at `i` is open any more. */
  lemma CallbackWaits(r: Run, i: nat, j: nat)
    requires IsRun(r) && i < j < |r.steps| && r.steps[i].Call? && r.steps[j].RunNext?
    requires r.states[j].ran == |r.states[i].at|
    ensures r.states[i].open !! r.states[j].open
  {
    RunKeeps(r, j);
    OnlyGrows(r, i + 1, j);
    assert Next(r.states[i], r.steps[i], r.states[i + 1]) && Next(r.states[j], r.steps[j], r.states[j + 1]);
    var k := r.states[j].ran;
    assert r.states[j].at[k] == r.states[i].open;
    assert Waited(r.states[j], k);
  }

  lemma {:induction false} TargetStays(r: Run, i: nat, j: nat, b: nat)
    requires IsRun(r) && i < j < |r.states| && r.steps[i] == BarrierBegins(b)
    requires forall k :: i < k < j ==> r.steps[k] != BarrierReturns(b)
    ensures b in r.states[j].barriers && r.states[j].barriers[b] == |r.states[i].at|
    decreases j
  {
    if i + 1 < j {
      TargetStays(r, i, j - 1, b);
    }
    assert Next(r.states[j - 1], r.steps[j - 1], r.states[j]);
  }

  /** When barrier() returns, every callback queued before it began has run. */
  lemma BarrierWaits(r: Run, i: nat, j: nat, b: nat)
    requires IsRun(r) && i < j < |r.steps| && r.steps[i] == BarrierBegins(b) && r.steps[j] == BarrierReturns(b)
    requires forall k :: i < k < j ==> r.steps[k] != BarrierReturns(b)
    ensures |r.states[i].at| <= r.states[j].ran
  {
    RunKeeps(r, j);
    TargetStays(r, i, j, b);
    assert Next(r.states[j], r.steps[j], r.states[j + 1]);
  }
}
