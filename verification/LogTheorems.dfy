/** What the store's protocol guarantees, over whole runs. */
module LogTheorems {
  import opened Common
  import opened Log
  import opened LogProtocol
  import opened LogProofs

  /** A finite run: every state after the first follows from the one before by its step. */
  datatype Run = Run(states: seq<State>, steps: seq<Step>)

  ghost predicate StepAt(c: Config, r: Run, i: nat) {
    i < |r.steps| && i + 1 < |r.states| && Next(c, r.states[i], r.steps[i], r.states[i + 1])
  }

  ghost predicate IsRun(c: Config, r: Run) {
    && |r.states| == |r.steps| + 1
    && Init(c, r.states[0])
    && forall i: nat :: i < |r.steps| ==> StepAt(c, r, i)
  }

  lemma {:induction false} RunKeeps(c: Config, r: Run, i: nat)
    requires IsRun(c, r) && i < |r.states|
    ensures Inv(c, r.states[i])
  {
    if i == 0 {
      InitHolds(c, r.states[0]);
    } else {
      RunKeeps(c, r, i - 1);
      assert StepAt(c, r, i - 1);
      NextKeeps(c, r.states[i - 1], r.steps[i - 1], r.states[i]);
    }
  }

  // ---------------------------------------------------------------- crash safety

  /**
    What the next open makes of a store that lost power in `s`, its new directory being
    `index`: an indexed key keeps its record, or shows a newer one that was never ranked; a key
    without an entry stays absent, shows a tombstone, or shows a record that was never ranked.
    What records are never ranked, and when one of them undoes an acknowledged operation, is
    said by `LogCrash`.
   */
  ghost predicate EntriesSurvive(s: State, index: set<Pba>) {
    && (forall p :: p in s.index && p in s.disk ==>
          exists q :: q in index && q in s.disk && s.disk[q].key == s.disk[p].key &&
                      (q == p || (Newer(s.ts, q, p) && q !in s.ranked)))
    && (forall q :: q in index && q in s.disk && !Has(s.disk, s.index, s.disk[q].key) ==>
          s.disk[q].tomb || q !in s.ranked)
  }

  lemma CrashIsSafe(c: Config, s: State, index: set<Pba>, maxTs: nat)
    requires Inv(c, s) && CanCrash(s, index, maxTs)
    ensures EntriesSurvive(s, index)
  {
    CrashKeepsEntries(s, index);
    CrashResurrectsNothing(s, index);
  }

  lemma CrashKeepsEntries(s: State, index: set<Pba>)
    requires NewestOfEach(s.ts, s.disk, index) && Newest(s.ranked, s.index, s.disk, s.ts)
    requires Stamped(s.ts, s.live, s.phase, s.nextTs) && OnDisk(s.disk, s.live, s.phase, s.cursor)
    ensures forall p :: p in s.index && p in s.disk ==>
              exists q :: q in index && q in s.disk && s.disk[q].key == s.disk[p].key &&
                          (q == p || (Newer(s.ts, q, p) && q !in s.ranked))
  {
    forall p | p in s.index && p in s.disk
      ensures exists q :: q in index && q in s.disk && s.disk[q].key == s.disk[p].key &&
                          (q == p || (Newer(s.ts, q, p) && q !in s.ranked))
    {
      assert Has(s.disk, index, s.disk[p].key);
      var q :| q in index && q in s.disk && s.disk[q].key == s.disk[p].key;
      assert AtLeast(s.ts, q, p);
      if q != p && q in s.ranked {
        assert AtLeast(s.ts, p, q);
        NewerTotal(s.ts, s.live, p, q);
      }
    }
  }

  lemma CrashResurrectsNothing(s: State, index: set<Pba>)
    requires NewestOfEach(s.ts, s.disk, index)
    requires Stamped(s.ts, s.live, s.phase, s.nextTs) && OnDisk(s.disk, s.live, s.phase, s.cursor)
    requires Burials(s.ranked, s.index, s.disk, s.graves, s.ts, s.live, s.phase)
    ensures forall q :: q in index && q in s.disk && !Has(s.disk, s.index, s.disk[q].key) ==>
              s.disk[q].tomb || q !in s.ranked
  {
    forall q | q in index && q in s.disk && !Has(s.disk, s.index, s.disk[q].key) && q in s.ranked
      ensures s.disk[q].tomb
    {
      assert Buried(q, s.disk, s.ranked, s.graves, s.ts, s.live, s.phase);
      var t := s.graves[s.disk[q].key];
      assert AtLeast(s.ts, q, t);
    }
  }

  /** No crash of any run loses an entry to a record that was ranked below it. */
  lemma EntriesSurviveCrashes(c: Config, r: Run, i: nat)
    requires IsRun(c, r) && i < |r.steps| && r.steps[i].CrashStep?
    ensures EntriesSurvive(r.states[i], r.states[i + 1].index)
  {
    RunKeeps(c, r, i);
    assert StepAt(c, r, i);
    CrashIsSafe(c, r.states[i], r.steps[i].index, r.steps[i].maxTs);
  }

  /**
    In every state of every run the directory has at most one entry per key, and it is at
    least as new as every ranked record of the key that recovery could still find.
   */
  lemma DirectoryIsNewest(c: Config, r: Run, i: nat, p: Pba, q: Pba)
    requires IsRun(c, r) && i < |r.states|
    requires var s := r.states[i];
             p in s.ranked && q in s.index && p in s.disk && q in s.disk && s.disk[p].key == s.disk[q].key
    ensures AtLeast(r.states[i].ts, q, p)
    ensures p in r.states[i].index ==> p == q
  {
    RunKeeps(c, r, i);
  }

  /**
    A key whose tombstone GC dropped: its ranked records, if any are left on the device,
    lie in a segment older than that of every later write of the key.
   */
  lemma LaterWriteIsNewer(c: Config, r: Run, i: nat, o: nat, p: Pba)
    requires IsRun(c, r) && i < |r.states|
    requires var s := r.states[i];
             && o in s.ops && !s.ops[o].done && s.ops[o].grain.Some?
             && p in s.ranked && p in s.disk && s.disk[p].key == s.ops[o].rec.key
             && !Has(s.disk, s.index, s.disk[p].key)
    ensures var s := r.states[i]; TsOf(s.ts, p.seg) < TsOf(s.ts, s.ops[o].grain.value.seg)
  {
    RunKeeps(c, r, i);
    WriteIsNewer(r.states[i], o, p);
  }

  lemma WriteIsNewer(s: State, o: nat, p: Pba)
    requires Burials(s.ranked, s.index, s.disk, s.graves, s.ts, s.live, s.phase)
    requires Stamped(s.ts, s.live, s.phase, s.nextTs) && OnDisk(s.disk, s.live, s.phase, s.cursor) &&
        Forms(s.ops, s.phase)
    requires |s.phase| == |s.live|
    requires o in s.ops && s.ops[o].grain.Some?
    requires p in s.ranked && p in s.disk && !Has(s.disk, s.index, s.disk[p].key)
    ensures TsOf(s.ts, p.seg) < TsOf(s.ts, s.ops[o].grain.value.seg)
  {
    assert Form(s.ops[o], s.phase);
    assert Buried(p, s.disk, s.ranked, s.graves, s.ts, s.live, s.phase);
  }

  // ---------------------------------------------------------------- freeing segments

  /** Once the grace period is over, nothing of a draining segment is counted any more. */
  lemma DrainedIsEmpty(c: Config, s: State, seg: nat)
    requires Inv(c, s) && CanFree(s, seg)
    ensures s.valid[seg] == 0
    ensures forall p :: p in s.charge ==> p.seg != seg
    ensures forall p :: p in s.index ==> p.seg != seg
  {
    DrainedUnreferenced(s, seg);
    SumNone(s.charge, seg);
  }

  lemma DrainedUnreferenced(s: State, seg: nat)
    requires CanFree(s, seg)
    requires IndexedOk(s.charge, s.index, s.phase) && HeldOk(s.charge, s.ops, s.phase)
    requires OwedOk(s.charge, s.ops, s.phase) && CopiedOk(s.charge, s.gc, s.phase)
    requires Sections(s.ops, s.views.Keys, s.nextSect) && Backed(s.index, s.disk, s.ranked, s.charge)
    ensures forall p :: p in s.charge ==> p.seg != seg
    ensures forall p :: p in s.index ==> p.seg != seg
  {
  }

  /** Every segment salsa frees, after GC or after its last overwrite, has no valid grain. */
  lemma FreedSegmentsAreEmpty(c: Config, r: Run, i: nat)
    requires IsRun(c, r) && i < |r.steps| && r.steps[i].FreeStep?
    ensures var seg := r.steps[i].seg;
            seg < |r.states[i].valid| && r.states[i].valid[seg] == 0
  {
    RunKeeps(c, r, i);
    assert StepAt(c, r, i);
    DrainedIsEmpty(c, r.states[i], r.steps[i].seg);
  }

  /** salsa's counts never go below zero. */
  lemma ValidNeverNegative(c: Config, r: Run, i: nat, seg: nat)
    requires IsRun(c, r) && i < |r.states| && seg < |r.states[i].valid|
    ensures 0 <= r.states[i].valid[seg] <= c.data + SumIn(r.states[i].charge, seg)
  {
    RunKeeps(c, r, i);
  }
}
