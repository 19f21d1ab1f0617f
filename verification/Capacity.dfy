/**
  Capacity accounting: requests add to one shared counter before they look at the limit, and
  those over it take their grains off again later, all interleaved.
 */
module Capacity {

  /** The user's limit and the larger one of relocations. */
  datatype Config = Config(user: nat, reloc: nat)

  datatype Req =
    | Idle
    | Refused(len: nat)
    | Granted(len: nat)
    | Held(len: nat)

  datatype State = State(used: int, reqs: seq<Req>)

  datatype Step =
    | Provision(i: nat, len: nat, reloc: bool, critical: bool)
    | BackOut(i: nat)
    | Allocate(i: nat)
    | GiveUp(i: nat)
    | Invalidate(i: nat, len: nat)

  function Limit(c: Config, reloc: bool): nat {
    if reloc then c.reloc else c.user
  }

  /** Each step is one atomic access to the counter, or none. */
  predicate Next(c: Config, s: State, t: State, step: Step) {
    && step.i < |s.reqs|
    && match step
       case Provision(i, len, reloc, critical) =>
         && s.reqs[i].Idle?
         && t == (if critical && !reloc then s
                  else State(s.used + len,
                             s.reqs[i := if Limit(c, reloc) < s.used + len then Refused(len) else Granted(len)]))
       case BackOut(i) =>
         s.reqs[i].Refused? && t == State(s.used - s.reqs[i].len, s.reqs[i := Idle])
       case Allocate(i) =>
         s.reqs[i].Granted? && t == s.(reqs := s.reqs[i := Held(s.reqs[i].len)])
       case GiveUp(i) =>
         s.reqs[i].Granted? && t == State(s.used - s.reqs[i].len, s.reqs[i := Idle])
       case Invalidate(i, len) =>
         && s.reqs[i].Held? && len <= s.reqs[i].len
         && t == State(s.used - len, s.reqs[i := if len == s.reqs[i].len then Idle else Held(s.reqs[i].len - len)])
  }

  function Counted(r: Req): nat {
    if r.Idle? then 0 else r.len
  }

  /** Grains a request may use, as opposed to those it has to take off the counter again. */
  function Usable(r: Req): nat {
    if r.Granted? || r.Held? then r.len else 0
  }

  function SumCounted(reqs: seq<Req>): nat {
    if reqs == [] then 0 else SumCounted(reqs[..|reqs| - 1]) + Counted(reqs[|reqs| - 1])
  }

  function SumUsable(reqs: seq<Req>): nat {
    if reqs == [] then 0 else SumUsable(reqs[..|reqs| - 1]) + Usable(reqs[|reqs| - 1])
  }

  lemma {:induction false} SumUpdate(reqs: seq<Req>, i: nat, r: Req)
    requires i < |reqs|
    ensures SumCounted(reqs[i := r]) == SumCounted(reqs) - Counted(reqs[i]) + Counted(r)
    ensures SumUsable(reqs[i := r]) == SumUsable(reqs) - Usable(reqs[i]) + Usable(r)
  {
    var n := |reqs| - 1;
    if i < n {
      SumUpdate(reqs[..n], i, r);
      assert reqs[i := r][..n] == reqs[..n][i := r];
    } else {
      assert reqs[i := r][..n] == reqs[..n];
    }
  }

  lemma {:induction false} UsableIsCounted(reqs: seq<Req>)
    ensures SumUsable(reqs) <= SumCounted(reqs)
    ensures (forall i :: 0 <= i < |reqs| ==> !reqs[i].Refused?) ==> SumUsable(reqs) == SumCounted(reqs)
  {
    if reqs != [] {
      UsableIsCounted(reqs[..|reqs| - 1]);
    }
  }

  lemma {:induction false} CountedIsInSum(reqs: seq<Req>, i: nat)
    requires i < |reqs|
    ensures Counted(reqs[i]) <= SumCounted(reqs)
  {
    var n := |reqs| - 1;
    if i < n {
      CountedIsInSum(reqs[..n], i);
    }
  }

  /** The counter is what requests have put on it; what they may use is within the relocation limit. */
  ghost predicate Inv(c: Config, s: State) {
    && s.used == SumCounted(s.reqs)
    && SumUsable(s.reqs) <= c.reloc
  }

  lemma NextKeeps(c: Config, s: State, t: State, step: Step)
    requires c.user <= c.reloc && Inv(c, s) && Next(c, s, t, step)
    ensures Inv(c, t)
  {
    SumUpdate(s.reqs, step.i, t.reqs[step.i]);
    UsableIsCounted(s.reqs);
  }

  datatype Run = Run(states: seq<State>, steps: seq<Step>)

  ghost predicate IsRun(c: Config, r: Run) {
    && |r.states| == |r.steps| + 1
    && r.states[0].used == 0 && (forall i :: 0 <= i < |r.states[0].reqs| ==> r.states[0].reqs[i].Idle?)
    && forall i :: 0 <= i < |r.steps| ==> Next(c, r.states[i], r.states[i + 1], r.steps[i])
  }

  lemma {:induction false} NoneCounted(reqs: seq<Req>)
    requires forall i :: 0 <= i < |reqs| ==> reqs[i].Idle?
    ensures SumCounted(reqs) == SumUsable(reqs) == 0
  {
    if reqs != [] {
      NoneCounted(reqs[..|reqs| - 1]);
    }
  }

  lemma {:induction false} RunKeeps(c: Config, r: Run, i: nat)
    requires c.user <= c.reloc && IsRun(c, r) && i < |r.states|
    ensures Inv(c, r.states[i])
  {
    if i == 0 {
      NoneCounted(r.states[0].reqs);
    } else {
      RunKeeps(c, r, i - 1);
      NextKeeps(c, r.states[i - 1], r.states[i], r.steps[i - 1]);
    }
  }

  /** No subtraction takes the counter below zero, however requests interleave. */
  lemma NeverUnderflows(c: Config, r: Run, i: nat)
    requires c.user <= c.reloc && IsRun(c, r) && i < |r.steps|
    ensures 0 <= r.states[i].used && 0 <= r.states[i + 1].used
    ensures !r.steps[i].Provision? && !r.steps[i].Allocate? ==>
              Counted(r.states[i].reqs[r.steps[i].i]) <= r.states[i].used
  {
    RunKeeps(c, r, i);
    RunKeeps(c, r, i + 1);
    assert Next(c, r.states[i], r.states[i + 1], r.steps[i]);
    CountedIsInSum(r.states[i].reqs, r.steps[i].i);
  }

  /**
    A request is turned away untouched exactly if GC is critical and it is the user's; else it is
    granted only if everything in use, its grains included, is within its limit, and refused
    exactly if the counter, with what others have yet to take off, would be over it.
   */
  lemma GrantsFit(c: Config, r: Run, i: nat)
    requires c.user <= c.reloc && IsRun(c, r) && i < |r.steps| && r.steps[i].Provision?
    ensures var s, t, p := r.states[i], r.states[i + 1], r.steps[i];
            && p.i < |t.reqs| && !t.reqs[p.i].Held?
            && (t.reqs[p.i].Idle? <==> p.critical && !p.reloc) && (t.reqs[p.i].Idle? ==> t == s)
            && (t.reqs[p.i].Granted? ==> SumUsable(t.reqs) <= Limit(c, p.reloc))
            && (t.reqs[p.i].Refused? <==>
                  !(p.critical && !p.reloc) && Limit(c, p.reloc) < SumCounted(s.reqs) + p.len)
  {
    RunKeeps(c, r, i);
    assert Next(c, r.states[i], r.states[i + 1], r.steps[i]);
    SumUpdate(r.states[i].reqs, r.steps[i].i, r.states[i + 1].reqs[r.steps[i].i]);
    UsableIsCounted(r.states[i].reqs);
  }

  /** With no refusal in flight, a request is refused exactly when it does not fit. */
  lemma RefusalIsExact(c: Config, r: Run, i: nat)
    requires c.user <= c.reloc && IsRun(c, r) && i < |r.steps| && r.steps[i].Provision?
    requires forall j :: 0 <= j < |r.states[i].reqs| ==> !r.states[i].reqs[j].Refused?
    ensures var s, t, p := r.states[i], r.states[i + 1], r.steps[i];
            p.i < |t.reqs| &&
            (t.reqs[p.i].Refused? <==> !(p.critical && !p.reloc) && Limit(c, p.reloc) < SumUsable(s.reqs) + p.len)
  {
    GrantsFit(c, r, i);
    UsableIsCounted(r.states[i].reqs);
  }

  /**
    With one in flight, a request that fits can be refused: seven grains on their way off a
    limit of six refuse five.
   */
  lemma RefusalCanBeSpurious() returns (c: Config, r: Run)
    ensures c.user <= c.reloc && IsRun(c, r) && |r.steps| == 2
    ensures r.steps[1].Provision? && !r.steps[1].critical && SumUsable(r.states[1].reqs) + r.steps[1].len <= c.user
    ensures r.steps[1].i < |r.states[2].reqs| && r.states[2].reqs[r.steps[1].i].Refused?
  {
    c := Config(6, 8);
    var s0 := State(0, [Idle, Idle]);
    var s1 := State(7, [Refused(7), Idle]);
    var s2 := State(12, [Refused(7), Refused(5)]);
    var a, b := Provision(0, 7, false, false), Provision(1, 5, false, false);
    r := Run([s0, s1, s2], [a, b]);
    assert Next(c, s0, s1, a) && Next(c, s1, s2, b);
    assert SumUsable(s1.reqs) == SumUsable(s1.reqs[..1]) + Usable(Idle);
    assert s1.reqs[..1] == [Refused(7)];
    assert SumUsable([Refused(7)]) == SumUsable([Refused(7)][..0]) + 0;
  }
}
