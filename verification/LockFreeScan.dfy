/**
  A reader scanning a bucket's neighborhood upwards without locks, among writers that hold
  stripe locks. Each step is one atomic store, one atomic load, or taking or dropping locks.
 */
module LockFreeScan {
  import opened HashEntry
  import opened HashTables

  /** A writer, the stripes it holds, and the displacement it is in the middle of. */
  datatype Writer = Writer(stripes: set<nat>, moving: bool, from: nat, to: nat)

  /** The reader has read offsets below `pos` of its bucket and met the entries `met`. */
  datatype State = State(slots: seq<Entry>, writers: map<nat, Writer>, pos: nat, met: set<Item>)

  datatype Step =
    | Lock(w: nat, stripes: set<nat>)
    | Unlock(w: nat)
    | Insert(w: nat, i: nat, e: Entry)      // into a free slot
    | Overwrite(w: nat, i: nat, e: Entry)   // an update in place, or a removal
    | MoveStore(w: nat, from: nat, to: nat) // the entry appears at the higher slot
    | MoveClear(w: nat)                     // and disappears from the lower one
    | Read

  predicate Owns(s: State, per: nat, w: nat, i: nat)
    requires per > 0
  {
    w in s.writers && !s.writers[w].moving && i < |s.slots| && i / per in s.writers[w].stripes
  }

  function Displaced(e: Entry, up: nat): Entry {
    Make(e.offset + up, e.tag, e.kv, e.pba)
  }

  ghost predicate Next(s: State, per: nat, bucket: nat, st: Step, s': State)
    requires per > 0
  {
    match st
    case Lock(w, stripes) =>
      && w !in s.writers && (forall v :: v in s.writers ==> s.writers[v].stripes !! stripes)
      && s' == s.(writers := s.writers[w := Writer(stripes, false, 0, 0)])
    case Unlock(w) => w in s.writers && !s.writers[w].moving && s' == s.(writers := s.writers - {w})
    case Insert(w, i, e) =>
      Owns(s, per, w, i) && s.slots[i].Empty() && e.InRange() && s' == s.(slots := s.slots[i := e])
    case Overwrite(w, i, e) =>
      Owns(s, per, w, i) && !s.slots[i].Empty() && e.InRange() && s' == s.(slots := s.slots[i := e])
    case MoveStore(w, from, to) =>
      && Owns(s, per, w, from) && Owns(s, per, w, to) && from < to
      && !s.slots[from].Empty() && s.slots[to].Empty() && s.slots[from].offset + (to - from) < HOP_RANGE
      && s' == s.(slots := s.slots[to := Displaced(s.slots[from], to - from)],
                  writers := s.writers[w := s.writers[w].(moving := true, from := from, to := to)])
    case MoveClear(w) =>
      && w in s.writers && s.writers[w].moving && s.writers[w].from < |s.slots|
      && s' == s.(slots := s.slots[s.writers[w].from := EMPTY],
          writers := s.writers[w := s.writers[w].(moving := false)])
    case Read =>
      && s.pos < HOP_RANGE && bucket + s.pos < |s.slots|
      && s' == s.(pos := s.pos + 1,
                  met := if !s.slots[bucket + s.pos].Empty() && s.slots[bucket + s.pos].offset == s.pos
                         then s.met + {ItemOf(bucket + s.pos, s.slots[bucket + s.pos])}
                         else s.met)
  }

  predicate HoldsOneOf(slots: seq<Entry>, i: nat, xs: set<Item>) {
    i < |slots| && !slots[i].Empty() && ItemOf(i, slots[i]) in xs
  }

  /** The step takes one of the entries `xs` out of the table, other than by moving it or making it another of them. */
  predicate Removes(s: State, st: Step, xs: set<Item>) {
    st.Overwrite? && HoldsOneOf(s.slots, st.i, xs) && (st.e.Empty() || ItemOf(st.i, st.e) !in xs)
  }

  /** A displacement half done: both slots hold the entry, and both are the writer's. */
  ghost predicate HalfMoved(s: State, per: nat, w: nat)
    requires per > 0 && w in s.writers
  {
    var m := s.writers[w];
    m.moving ==>
      && m.from < m.to < |s.slots| && m.from / per in m.stripes && m.to / per in m.stripes
      && !s.slots[m.from].Empty() && !s.slots[m.to].Empty()
      && ItemOf(m.from, s.slots[m.from]) == ItemOf(m.to, s.slots[m.to])
  }

  ghost predicate Sane(s: State, per: nat)
    requires per > 0
  {
    && (forall i :: 0 <= i < |s.slots| ==> s.slots[i].InRange())
    && (forall w :: w in s.writers ==> HalfMoved(s, per, w))
    && (forall v, w :: v in s.writers && w in s.writers && v != w ==> s.writers[v].stripes !! s.writers[w].stripes)
  }

  /** One of the entries has been met, or lies in a slot the reader has yet to read. */
  ghost predicate Ahead(s: State, bucket: nat, xs: set<Item>) {
    (exists x :: x in xs && x in s.met) || exists i :: bucket + s.pos <= i && HoldsOneOf(s.slots, i, xs)
  }

  /** Versions of one entry: all of the bucket. */
  predicate OfBucket(xs: set<Item>, bucket: nat) {
    forall x :: x in xs ==> x.home == bucket
  }

  lemma StepKeepsSane(s: State, per: nat, bucket: nat, st: Step, s': State)
    requires per > 0 && Sane(s, per) && Next(s, per, bucket, st, s')
    ensures Sane(s', per)
  {
    StepKeepsStripes(s, per, bucket, st, s');
    forall w | w in s'.writers ensures HalfMoved(s', per, w) {
      StepKeepsHalf(s, per, bucket, st, s', w);
    }
  }

  lemma StepKeepsStripes(s: State, per: nat, bucket: nat, st: Step, s': State)
    requires per > 0 && Sane(s, per) && Next(s, per, bucket, st, s')
    ensures forall i :: 0 <= i < |s'.slots| ==> s'.slots[i].InRange()
    ensures forall v, w :: v in s'.writers && w in s'.writers && v != w ==>
              s'.writers[v].stripes !! s'.writers[w].stripes
  {
  }

  lemma StepKeepsHalf(s: State, per: nat, bucket: nat, st: Step, s': State, w: nat)
    requires per > 0 && Sane(s, per) && Next(s, per, bucket, st, s') && w in s'.writers
    ensures HalfMoved(s', per, w)
  {
    if w in s.writers {
      assert HalfMoved(s, per, w);
    }
  }

  /** Entries only ever move to a higher slot, and are there before they leave the lower one. */
  lemma StepKeepsAhead(s: State, per: nat, bucket: nat, st: Step, s': State, xs: set<Item>)
    requires per > 0 && Sane(s, per) && Next(s, per, bucket, st, s')
    requires OfBucket(xs, bucket) && Ahead(s, bucket, xs) && !Removes(s, st, xs)
    ensures Ahead(s', bucket, xs)
  {
    if x :| x in xs && x in s.met {
      assert x in s'.met;
    } else {
      var i :| bucket + s.pos <= i && HoldsOneOf(s.slots, i, xs);
      if st.MoveClear? && i == s.writers[st.w].from {
        assert HalfMoved(s, per, st.w);
        assert HoldsOneOf(s'.slots, s.writers[st.w].to, xs);
      } else if st.Read? && i == bucket + s.pos {
        assert ItemOf(i, s.slots[i]) in s'.met;
      } else {
        assert HoldsOneOf(s'.slots, i, xs);
      }
    }
  }

  datatype Run = Run(states: seq<State>, steps: seq<Step>)

  ghost predicate IsRun(r: Run, per: nat, bucket: nat)
    requires per > 0
  {
    && |r.states| == |r.steps| + 1
    && Sane(r.states[0], per) && r.states[0].pos == 0
    && forall k :: 0 <= k < |r.steps| ==> Next(r.states[k], per, bucket, r.steps[k], r.states[k + 1])
  }

  lemma {:induction false} RunKeepsAhead(r: Run, per: nat, bucket: nat, xs: set<Item>, n: nat)
    requires per > 0 && IsRun(r, per, bucket) && n < |r.states| && OfBucket(xs, bucket)
    requires Ahead(r.states[0], bucket, xs)
    requires forall k :: 0 <= k < n ==> !Removes(r.states[k], r.steps[k], xs)
    ensures Sane(r.states[n], per) && Ahead(r.states[n], bucket, xs)
  {
    if n > 0 {
      RunKeepsAhead(r, per, bucket, xs, n - 1);
      assert Next(r.states[n - 1], per, bucket, r.steps[n - 1], r.states[n]);
      StepKeepsSane(r.states[n - 1], per, bucket, r.steps[n - 1], r.states[n]);
      StepKeepsAhead(r.states[n - 1], per, bucket, r.steps[n - 1], r.states[n], xs);
    }
  }

  /**
    One of the entries `xs` of the bucket is in the table when the scan starts, and every update in
    place of one of them makes it another: the scan has met one of them when it ends, however
    updates and displacements interleave with it. With `xs` the versions of one key's entry, a get
    concurrent with puts of its key meets one of them.
   */
  lemma ScanMeetsAVersion(r: Run, per: nat, bucket: nat, xs: set<Item>, first: Item, n: nat)
    requires per > 0 && IsRun(r, per, bucket) && n < |r.states| && OfBucket(xs, bucket)
    requires first in xs && first in View(r.states[0].slots)
    requires forall k :: 0 <= k < n ==> !Removes(r.states[k], r.steps[k], xs)
    requires r.states[n].pos == HOP_RANGE
    ensures exists x :: x in xs && x in r.states[n].met
  {
    var i := ViewFrom(r.states[0].slots, first);
    assert HoldsOneOf(r.states[0].slots, i, xs);
    RunKeepsAhead(r, per, bucket, xs, n);
    NothingPastTheEnd(r.states[n], per, bucket, xs);
  }

  lemma NothingPastTheEnd(s: State, per: nat, bucket: nat, xs: set<Item>)
    requires per > 0 && Sane(s, per) && s.pos == HOP_RANGE && OfBucket(xs, bucket) && Ahead(s, bucket, xs)
    ensures exists x :: x in xs && x in s.met
  {
    forall i | bucket + s.pos <= i ensures !HoldsOneOf(s.slots, i, xs) {
      if i < |s.slots| {
        assert s.slots[i].InRange();
      }
    }
  }

  /**
    An entry of the bucket that is in the table when the scan starts and is neither updated nor
    removed meanwhile has been met when it ends, however displacements interleave with it.
   */
  lemma ScanMeetsEveryEntry(r: Run, per: nat, bucket: nat, x: Item, n: nat)
    requires per > 0 && IsRun(r, per, bucket) && n < |r.states|
    requires x.home == bucket && x in View(r.states[0].slots)
    requires forall k :: 0 <= k < n ==> !Removes(r.states[k], r.steps[k], {x})
    requires r.states[n].pos == HOP_RANGE
    ensures x in r.states[n].met
  {
    ScanMeetsAVersion(r, per, bucket, {x}, x, n);
  }
}
