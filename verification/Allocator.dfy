/**
  The grain allocator: staged segments with a bump cursor, and a count per segment of the grains
  not yet released, which sends the segment to the done queue when it reaches zero.
 */
module Allocator {
  import opened Common
  import opened Log

  /** Grains [off, off + len) of a segment, counted from its first data grain. */
  datatype Range = Range(off: nat, len: nat)

  datatype Phase = Free | Staged | Sealed | Done | Collected

  /** Non-empty ranges in handing-out order, each past the one before, all below `limit`. */
  predicate Apart(given: seq<Range>, limit: int) {
    && (forall i :: 0 <= i < |given| ==> 0 < given[i].len && given[i].off + given[i].len <= limit)
    && forall i, j :: 0 <= i < j < |given| ==> given[i].off + given[i].len <= given[j].off
  }

  /**
    One segment's books. Of the data grains, `given` are handed out, `returned` of them have been
    given back, and `owing` is what a caller has still to subtract from the count: grains given
    back, or never handed out when the segment was drained.
   */
  predicate SegOk(segSize: nat, reserved: nat, phase: Phase, cursor: nat, count: int, given: seq<Range>,
      returned: nat, owing: nat) {
    match phase
    case Free => true
    case Collected => true
    case Staged =>
      && reserved <= cursor < segSize && Apart(given, cursor - reserved) && returned <= cursor - reserved
      && count == segSize - reserved - returned + owing
    case Sealed =>
      && reserved <= cursor <= segSize && Apart(given, cursor - reserved) && returned <= cursor - reserved
      && count == cursor - reserved - returned + owing > 0
    case Done =>
      && reserved <= cursor <= segSize && Apart(given, cursor - reserved)
      && count == 0 == owing && returned == cursor - reserved
  }

  /** A queue holds exactly the segments of one phase, each once. */
  ghost predicate Lists(queue: seq<nat>, phase: seq<Phase>, p: Phase) {
    && NoDup(queue)
    && (forall s: nat :: s in queue <==> s < |phase| && phase[s] == p)
  }

  lemma Append(queue: seq<nat>, phase: seq<Phase>, p: Phase, s: nat)
    requires Lists(queue, phase, p) && s < |phase| && phase[s] != p
    ensures Lists(queue + [s], phase[s := p], p)
  {
  }

  lemma DropFirst(queue: seq<nat>, phase: seq<Phase>, p: Phase, q: Phase)
    requires Lists(queue, phase, p) && queue != [] && p != q
    ensures queue[0] < |phase| && phase[queue[0]] == p
    ensures Lists(queue[1..], phase[queue[0] := q], p)
  {
    var s := queue[0];
    assert s in queue;
    forall t: nat ensures t in queue[1..] <==> t < |phase| && phase[s := q][t] == p {
      if t in queue[1..] {
        var k :| 0 <= k < |queue[1..]| && queue[1..][k] == t;
        assert queue[k + 1] == t && t != s && t in queue;
      } else {
        assert queue == [s] + queue[1..];
      }
    }
  }

  lemma OtherQueue(queue: seq<nat>, phase: seq<Phase>, p: Phase, s: nat, q: Phase)
    requires Lists(queue, phase, p) && s < |phase| && phase[s] != p && q != p
    ensures Lists(queue, phase[s := q], p)
  {
  }

  /** Handing out the next range keeps a staged segment's books; the last one seals it. */
  lemma Bump(segSize: nat, reserved: nat, cursor: nat, count: int, given: seq<Range>, returned: nat, owing: nat,
             len: nat)
    requires SegOk(segSize, reserved, Staged, cursor, count, given, returned, owing)
    requires 0 < len && cursor + len <= segSize
    ensures SegOk(segSize, reserved, if cursor + len == segSize then Sealed else Staged, cursor + len, count,
                  given + [Range(cursor - reserved, len)], returned, owing)
  {
  }

  predicate InUse(phase: Phase) {
    phase.Staged? || phase.Sealed? || phase.Done?
  }

  /** Grain `g` of the device lies in range `r` of segment `s`. */
  predicate Covers(segSize: nat, s: nat, r: Range, g: nat) {
    s * segSize + r.off <= g < s * segSize + r.off + r.len
  }

  /** In the current lives of two segments no grain is handed out twice, and none is metadata. */
  lemma NoGrainTwice(segSize: nat, reserved: nat, s: nat, t: nat, phase: seq<Phase>, cursor: seq<nat>, count: seq<int>,
                     given: seq<seq<Range>>, returned: seq<nat>, owing: seq<nat>, i: nat, j: nat, g: nat)
    requires s < |phase| && t < |phase| && |phase| == |cursor| == |count| == |given| == |returned| == |owing|
    requires InUse(phase[s]) && SegOk(segSize, reserved, phase[s], cursor[s], count[s], given[s], returned[s], owing[s])
    requires InUse(phase[t]) && SegOk(segSize, reserved, phase[t], cursor[t], count[t], given[t], returned[t], owing[t])
    requires i < |given[s]| && Covers(segSize, s, given[s][i], g)
    requires j < |given[t]| && Covers(segSize, t, given[t][j], g)
    ensures s == t && i == j && g < s * segSize + segSize - reserved
  {
    if s < t {
      NextMultiple(s, t, segSize);
    } else if t < s {
      NextMultiple(t, s, segSize);
    }
  }

  /**
    A staged segment stays off the done queue as long as callers give back only what they were
    handed. That the count covers what they give back, which is all the source asserts, is not
    enough: giving back the whole count empties it while the segment is staged.
   */
  lemma StagedIsNotDone(segSize: nat, reserved: nat, cursor: nat, count: int, given: seq<Range>, returned: nat,
                        len: nat)
    requires SegOk(segSize, reserved, Staged, cursor, count, given, returned, 0)
    ensures returned + len <= cursor - reserved ==> count - len > 0
    ensures len <= count ==> (count - len == 0 <==> returned + len == segSize - reserved)
    ensures count > cursor - reserved - returned
  {
  }

  class Allocator {
    const segSize: nat
    const reserved: nat
    var free: seq<nat>
    var stage: seq<nat>
    var done: seq<nat>
    var cursor: seq<nat>
    var count: seq<int>
    ghost var phase: seq<Phase>
    ghost var given: seq<seq<Range>>
    ghost var returned: seq<nat>
    ghost var owing: seq<nat>

    ghost predicate Valid()
      reads this
    {
      && reserved < segSize
      && |phase| == |cursor| == |count| == |given| == |returned| == |owing|
      && Lists(free, phase, Free) && Lists(stage, phase, Staged) && Lists(done, phase, Done)
      && forall s :: 0 <= s < |phase| ==> Ok(s)
    }

    ghost predicate Ok(s: nat)
      requires s < |phase| == |cursor| == |count| == |given| == |returned| == |owing|
      reads this
    {
      SegOk(segSize, reserved, phase[s], cursor[s], count[s], given[s], returned[s], owing[s])
    }

    constructor (segs: nat, segSize: nat, reserved: nat)
      requires reserved < segSize
      ensures Valid() && this.segSize == segSize && this.reserved == reserved
      ensures phase == seq(segs, _ => Free) && stage == [] && done == []
    {
      this.segSize, this.reserved := segSize, reserved;
      free, stage, done := seq(segs, i => i), [], [];
      cursor, count := seq(segs, _ => 0), seq(segs, _ => 0);
      phase, given := seq(segs, _ => Free), seq(segs, _ => []);
      returned, owing := seq(segs, _ => 0), seq(segs, _ => 0);
      new;
      forall s: nat ensures s in free <==> s < |phase| {
        if s < segs { assert free[s] == s; }
      }
    }

    /** Subtract what is owed for `n` grains of the segment; at zero it is done. */
    method Settle(s: nat, n: nat)
      requires Valid() && s < |phase| && phase[s] in {Staged, Sealed} && 0 < n <= owing[s]
      modifies this
      ensures Valid()
      ensures cursor == old(cursor) && given == old(given) && returned == old(returned) && free == old(free) &&
          stage == old(stage)
      ensures owing == old(owing)[s := old(owing)[s] - n]
      ensures if phase[s] == Done then done == old(done) + [s] &&
          phase == old(phase)[s := Done] else phase == old(phase) && done == old(done)
      ensures phase[s] == Done <==> old(phase)[s] == Sealed && returned[s] == cursor[s] - reserved && owing[s] == 0
    {
      assert Ok(s);
      count := count[s := count[s] - n];
      owing := owing[s := owing[s] - n];
      if count[s] == 0 {
        Append(done, phase, Done, s);
        OtherQueue(free, phase, Free, s, Done);
        OtherQueue(stage, phase, Staged, s, Done);
        done := done + [s];
        phase := phase[s := Done];
      }
      forall t | 0 <= t < |phase| && t != s ensures Ok(t) { assert old(Ok(t)); }
    }

    /** Take the first staged segment off the stage; the grains it has left are owed. */
    method Unstage() returns (s: nat, rem: nat)
      requires Valid() && stage != []
      modifies this
      ensures Valid() && s == old(stage)[0] && s < |phase|
      ensures free == old(free) && done == old(done) && cursor == old(cursor) && count == old(count)
      ensures given == old(given) && returned == old(returned)
      ensures stage == old(stage)[1..] && phase == old(phase)[s := Sealed]
      ensures rem == segSize - cursor[s] > 0 && owing == old(owing)[s := old(owing)[s] + rem]
    {
      s := stage[0];
      DropFirst(stage, phase, Staged, Sealed);
      OtherQueue(free, phase, Free, s, Sealed);
      OtherQueue(done, phase, Done, s, Sealed);
      assert Ok(s);
      rem := segSize - cursor[s];
      stage := stage[1..];
      phase := phase[s := Sealed];
      owing := owing[s := owing[s] + rem];
      forall t | 0 <= t < |phase| && t != s ensures Ok(t) { assert old(Ok(t)); }
    }

    /** Stage a free segment, its first `reserved` grains set aside for the metadata at its tail. */
    method AllocateSegment() returns (ok: bool)
      requires Valid()
      modifies this
      ensures Valid() && ok == (old(free) != [])
      ensures !ok ==> unchanged(this)
      ensures ok ==>
                var s := old(free)[0];
                && s < |phase| == |old(phase)| && free == old(free)[1..] && stage == old(stage) + [s] &&
                    done == old(done)
                && phase == old(phase)[s := Staged] && cursor == old(cursor)[s := reserved]
                && given == old(given)[s := []] && returned == old(returned)[s := 0]
    {
      if free == [] {
        return false;
      }
      var s := free[0];
      DropFirst(free, phase, Free, Staged);
      Append(stage, phase, Staged, s);
      OtherQueue(done, phase, Done, s, Staged);
      free, stage := free[1..], stage + [s];
      cursor, count := cursor[s := reserved], count[s := segSize - reserved];
      phase, given := phase[s := Staged], given[s := []];
      returned, owing := returned[s := 0], owing[s := 0];
      forall t | 0 <= t < |phase| && t != s ensures Ok(t) { assert old(Ok(t)); }
      ok := true;
    }

    /** Bump the first staged segment's cursor if `len` grains are left in it. */
    method NextRange(len: nat) returns (off: Option<nat>)
      requires Valid() && stage != [] && 0 < len
      modifies this
      ensures Valid() && free == old(free) && done == old(done)
      ensures stage == old(stage) || stage == old(stage)[1..]
      ensures old(stage)[0] < |old(cursor)| && (off.Some? <==> old(cursor)[old(stage)[0]] + len <= segSize)
      ensures off.None? ==> unchanged(this)
      ensures off.Some? ==>
                var s := old(stage)[0];
                && s < |phase| && off.value == old(cursor)[s] - reserved
                && cursor == old(cursor)[s := old(cursor)[s] + len]
                && given == old(given)[s := old(given)[s] + [Range(off.value, len)]]
                && returned == old(returned) && owing == old(owing)
                && (if cursor[s] == segSize then stage == old(stage)[1..] && phase == old(phase)[s := Sealed]
                    else stage == old(stage) && phase == old(phase))
    {
      var s := stage[0];
      assert s in stage;
      assert Ok(s);
      if segSize <= cursor[s] || segSize < cursor[s] + len {
        return None;
      }
      off := Some(cursor[s] - reserved);
      Bump(segSize, reserved, cursor[s], count[s], given[s], returned[s], owing[s], len);
      cursor := cursor[s := cursor[s] + len];
      given := given[s := given[s] + [Range(off.value, len)]];
      if cursor[s] == segSize {
        DropFirst(stage, phase, Staged, Sealed);
        OtherQueue(free, phase, Free, s, Sealed);
        OtherQueue(done, phase, Done, s, Sealed);
        stage := stage[1..];
        phase := phase[s := Sealed];
      }
      forall t | 0 <= t < |phase| && t != s ensures Ok(t) { assert old(Ok(t)); }
    }

    /** Whether a staged segment has `len` grains left. */
    ghost predicate Room(len: nat)
      requires Valid()
      reads this
    {
      exists s :: s in stage && cursor[s] + len <= segSize
    }

    /** The first staged segment with room gives the range; the ones before it are drained. */
    method WalkStage(len: nat) returns (at: Option<Pba>)
      requires Valid() && 0 < len
      modifies this
      ensures Valid() && free == old(free) && |phase| == |old(phase)| && returned == old(returned)
      ensures at.Some? <==> old(Room(len))
      ensures at.None? ==> stage == [] && given == old(given) && cursor == old(cursor)
      ensures at.Some? ==>
                && at.value.seg in old(stage) && at.value.seg < |given|
                && at.value.off == old(cursor[at.value.seg]) - reserved && at.value.off + len <= segSize - reserved
                && given == old(given)[at.value.seg := old(given)[at.value.seg] + [Range(at.value.off, len)]]
    {
      at := None;
      ghost var k := 0;
      while stage != []
        invariant Valid() && k <= |old(stage)| && stage == old(stage)[k..]
        invariant free == old(free) && |phase| == |old(phase)| && given == old(given) && cursor == old(cursor) &&
            returned == old(returned)
        invariant forall j :: 0 <= j < k ==> old(stage)[j] < |cursor| && cursor[old(stage)[j]] + len > segSize
        decreases stage
      {
        var s := stage[0];
        assert s in old(stage);
        var off := NextRange(len);
        if off.Some? {
          return Some(Pba(s, off.value));
        }
        var _, rem := Unstage();
        Settle(s, rem);
        k := k + 1;
      }
    }

    /** With nothing staged, stage a free segment and take the range at its start. */
    method StageAndWalk(len: nat) returns (at: Option<Pba>)
      requires Valid() && 0 < len && reserved + len <= segSize && stage == []
      modifies this
      ensures Valid() && |phase| == |old(phase)|
      ensures at.None? <==> old(free) == []
      ensures at.None? ==> given == old(given) && returned == old(returned)
      ensures at.Some? ==>
                var s := old(free)[0];
                && s < |old(phase)| && at.value == Pba(s, 0)
                && given == old(given)[s := [Range(0, len)]] && returned == old(returned)[s := 0]
    {
      at := None;
      var ok := AllocateSegment();
      if ok {
        ghost var s := old(free)[0];
        assert stage == [s];
        assert s in stage && cursor[s] + len <= segSize;
        assert Room(len);
        at := WalkStage(len);
        assert at.value.seg == s;
        ghost var range := [Range(0, len)];
        assert [] + range == range;
        assert old(given)[s := []][s := range] == old(given)[s := range];
      }
    }

    /**
      Hand out `len` grains of one segment. The caller has checked that a segment can hold them,
      so a freshly staged one does and the walk is retried once. While another caller is staging
      a segment (`staging`), none is staged here.
     */
    method AllocateGrains(len: nat, staging: bool) returns (grain: Option<nat>, ghost at: Pba)
      requires Valid() && 0 < len && reserved + len <= segSize
      modifies this
      ensures Valid() && |phase| == |old(phase)|
      ensures grain.None? <==> !old(Room(len)) && (old(free) == [] || staging)
      ensures grain.None? ==> given == old(given) && returned == old(returned)
      ensures grain.Some? ==>
                && at.seg < |phase| && at.off + len <= segSize - reserved
                && grain.value == at.seg * segSize + at.off && grain.value / segSize == at.seg
                && given[at.seg] ==
                   (if old(phase[at.seg]) == Free then [] else old(given[at.seg])) + [Range(at.off, len)]
                && returned[at.seg] == (if old(phase[at.seg]) == Free then 0 else old(returned[at.seg]))
                && forall s :: 0 <= s < |phase| && s != at.seg ==>
                     given[s] == old(given[s]) && returned[s] == old(returned[s])
    {
      at := Pba(0, 0);
      var got := WalkStage(len);
      if got.None? && staging {
        return None, at;
      }
      if got.None? {
        got := StageAndWalk(len);
        if got.None? {
          return None, at;
        }
      }
      at := got.value;
      Quotient(got.value.seg * segSize + got.value.off, segSize, got.value.seg, got.value.off);
      grain := Some(got.value.seg * segSize + got.value.off);
    }

    /** Force a new segment in: drain the first staged one, if any. */
    method DrainRemaining() returns (rem: nat)
      requires Valid()
      modifies this
      ensures Valid() && free == old(free) && given == old(given) && returned == old(returned) && cursor == old(cursor)
      ensures old(stage) == [] ==> rem == 0 && stage == [] && done == old(done)
      ensures old(stage) != [] ==>
                var s := old(stage)[0];
                && s < |cursor| == |phase| == |returned| && rem == segSize - cursor[s] > 0 && stage == old(stage)[1..]
                && (phase[s] == Done <==> returned[s] == cursor[s] - reserved && owing[s] == 0)
    {
      rem := 0;
      if stage != [] {
        var s;
        s, rem := Unstage();
        Settle(s, rem);
      }
    }

    /** A caller gives back `len` grains it was handed. */
    method ReleaseGrains(grain: nat, len: nat)
      requires Valid() && 0 < segSize && 0 < len
      requires grain / segSize < |phase| && phase[grain / segSize] in {Staged, Sealed}
      requires returned[grain / segSize] + len <= cursor[grain / segSize] - reserved
      modifies this
      ensures Valid() && free == old(free) && stage == old(stage) && given == old(given) && cursor == old(cursor)
      ensures returned == old(returned)[grain / segSize := old(returned)[grain / segSize] + len] && owing == old(owing)
      ensures var s := grain / segSize;
              && s < |phase| == |returned| == |owing|
              && (phase[s] == Done <==> old(phase)[s] == Sealed && returned[s] == cursor[s] - reserved && owing[s] == 0)
              && done == if phase[s] == Done then old(done) + [s] else old(done)
    {
      var s := grain / segSize;
      assert Ok(s);
      returned := returned[s := returned[s] + len];
      owing := owing[s := owing[s] + len];
      forall t | 0 <= t < |phase| && t != s ensures Ok(t) { assert old(Ok(t)); }
      Settle(s, len);
    }

    /** The allocator's thread hands the first done segment to the collector. */
    method TakeDone() returns (s: nat)
      requires Valid() && done != []
      modifies this
      ensures Valid() && s == old(done)[0] && s !in done && s < |phase| == |old(phase)| &&
          phase == old(phase)[s := Collected]
      ensures free == old(free) && stage == old(stage) && done == old(done)[1..]
      ensures given == old(given) && returned == old(returned) && cursor == old(cursor)
      ensures returned[s] == cursor[s] - reserved
    {
      s := done[0];
      DropFirst(done, phase, Done, Collected);
      OtherQueue(free, phase, Free, s, Collected);
      OtherQueue(stage, phase, Staged, s, Collected);
      assert Ok(s);
      done := done[1..];
      phase := phase[s := Collected];
      forall t | 0 <= t < |phase| && t != s ensures Ok(t) { assert old(Ok(t)); }
    }

    /** A collected segment is free again. */
    method PutFree(s: nat)
      requires Valid() && s < |phase| && phase[s] == Collected
      modifies this
      ensures Valid() && free == old(free) + [s] && stage == old(stage) && done == old(done)
      ensures phase == old(phase)[s := Free] && given == old(given)
    {
      Append(free, phase, Free, s);
      OtherQueue(stage, phase, Staged, s, Free);
      OtherQueue(done, phase, Done, s, Free);
      free := free + [s];
      phase := phase[s := Free];
      forall t | 0 <= t < |phase| && t != s ensures Ok(t) { assert old(Ok(t)); }
    }
  }
}
