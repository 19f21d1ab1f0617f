/**
  The memcache server's read-modify-write commands (`incr`, `decr`, `append`, `prepend`): read a
  value and its version, then put a value made from it on condition that the key still has that
  version, starting over if it does not.
 */
module ReadModifyWrite {
  import opened Common
  import opened Log
  import opened LogProtocol
  import opened LogTheorems
  import opened LogRefinement
  import opened Memcache

  function Added(n: nat, delta: nat): nat {
    (n + delta) % U64
  }

  // ---------------------------------------------------------------- numbers in values

  /** How many digits a text starts with. */
  function DigitRun(s: string): (n: nat)
    ensures n <= |s| && (forall c :: c in s[..n] ==> IsDigit(c)) && (n < |s| ==> !IsDigit(s[n]))
  {
    if s == [] || !IsDigit(s[0]) then 0 else
      assert s[..DigitRun(s[1..]) + 1] == [s[0]] + s[1..][..DigitRun(s[1..])];
      DigitRun(s[1..]) + 1
  }

  /** std::from_chars: the number the leading digits make, if there are any and it fits 64 bits. */
  function NumberOf(s: string): Option<nat> {
    var n := DigitRun(s);
    if n > 0 && Digits(s[..n]) < U64 then Some(Digits(s[..n])) else None
  }

  /** What std::to_chars writes is read back as it was. */
  lemma NumberReadsBack(n: nat)
    requires n < U64
    ensures NumberOf(ToDigits(n)) == Some(n)
  {
    var s := ToDigits(n);
    assert forall i :: 0 <= i < |s| ==> s[i] in s;
    assert DigitRun(s) == |s| && s[..|s|] == s;
    DigitsRoundTrip(n);
  }

  /** What an `incr` writes over a text it reads as a number. */
  predicate IsSum(before: string, delta: nat, after: string) {
    NumberOf(before).Some? && after == ToDigits(Added(NumberOf(before).value, delta))
  }

  // ---------------------------------------------------------------- acknowledged updates

  /** Power is not lost between two states of a run; the store may be closed and opened again. */
  ghost predicate NoCrash(r: Run, a: nat, b: nat) {
    forall k :: a <= k < b && k < |r.steps| ==> !r.steps[k].CrashStep?
  }

  /** Step `j` acknowledges a write of key `k`. */
  ghost predicate WritesKey(r: Run, j: nat, k: Key) {
    j < |r.steps| && j < |r.states| &&
    (r.steps[j].CommitPutStep? || r.steps[j].CommitDelStep?) &&
    r.steps[j].o in r.states[j].ops && r.states[j].ops[r.steps[j].o].rec.key == k
  }

  /**
    Step `j` acknowledges a put on condition of the version of the record at `p`, which its
    client read in a state `i` of this open store.
   */
  ghost predicate ChecksVersion(r: Run, j: nat, i: nat, p: Pba) {
    && i <= j < |r.steps| && |r.states| == |r.steps| + 1 && StaysOpen(r, i, j)
    && r.steps[j].CommitPutStep? && r.steps[j].ifVersion.Some? && r.steps[j].o in r.states[j].ops
    && p in r.states[i].disk && VersionOf(r.states[i], p) == r.steps[j].ifVersion.value
  }

  /** Step `j` acknowledges a read-modify-write that makes f(v) of the value v it read. */
  ghost predicate Updates(r: Run, j: nat, f: Val -> Val, i: nat, p: Pba) {
    ChecksVersion(r, j, i, p) && r.states[j].ops[r.steps[j].o].rec.val == f(r.states[i].disk[p].val)
  }

  ghost predicate IsUpdate(r: Run, j: nat, f: Val -> Val) {
    exists i: nat, p: Pba :: Updates(r, j, f, i, p)
  }

  /** Step `j` acknowledges an `incr` by `delta`; `text` is a value's bytes ahead of its metadata. */
  ghost predicate Increments(r: Run, j: nat, text: Val -> string, delta: nat, i: nat, p: Pba) {
    && ChecksVersion(r, j, i, p)
    && IsSum(text(r.states[i].disk[p].val), delta, text(r.states[j].ops[r.steps[j].o].rec.val))
  }

  ghost predicate IsIncrement(r: Run, j: nat, text: Val -> string, delta: nat) {
    exists i: nat, p: Pba :: Increments(r, j, text, delta, i, p)
  }

  /** `v` after the updates of key `k` acknowledged by steps `a..b`, in that order. */
  ghost function Applied(r: Run, a: nat, b: nat, k: Key, fs: seq<Val -> Val>, v: Val): Val
    requires b <= |fs|
    decreases b
  {
    if b <= a then v
    else
      var before := Applied(r, a, b - 1, k, fs, v);
      if WritesKey(r, b - 1, k) then fs[b - 1](before) else before
  }

  /** The deltas acknowledged on key `k` by steps `a..b`. */
  ghost function Acknowledged(r: Run, a: nat, b: nat, k: Key, deltas: seq<nat>): nat
    requires b <= |deltas|
    decreases b
  {
    if b <= a then 0
    else Acknowledged(r, a, b - 1, k, deltas) + if WritesKey(r, b - 1, k) then deltas[b - 1] else 0
  }

  ghost function ValueIn(s: State, k: Key): Option<Val> {
    Value(s.disk, s.index, k)
  }

  /** What the client read is what its put replaces, whoever wrote or moved the key in between. */
  lemma CheckedWrite(c: Config, r: Run, j: nat, k: Key, i: nat, p: Pba)
    requires IsRun(c, r) && WritesKey(r, j, k) && ChecksVersion(r, j, i, p)
    ensures ValueIn(r.states[j], k) == Some(r.states[i].disk[p].val)
    ensures ValueIn(r.states[j + 1], k) == Some(r.states[j].ops[r.steps[j].o].rec.val)
  {
    CheckedPutReplacesWhatWasRead(c, r, i, j, p);
    StoreRefinesMap(c, r, j);
  }

  lemma OtherStepsKeep(c: Config, r: Run, j: nat, k: Key)
    requires IsRun(c, r) && j < |r.steps| && !WritesKey(r, j, k) && !r.steps[j].CrashStep?
    ensures ValueIn(r.states[j + 1], k) == ValueIn(r.states[j], k)
  {
    StoreRefinesMap(c, r, j);
    assert StepAt(c, r, j);
  }

  lemma AddedAgain(n: nat, x: nat, y: nat)
    ensures Added(Added(n, x), y) == Added(n, x + y)
  {
    var q := (n + x) / U64;
    assert n + x == q * U64 + (n + x) % U64;
    AddMultiple((n + x) % U64 + y, q);
  }

  lemma {:induction false} AddMultiple(n: nat, q: nat)
    ensures (n + q * U64) % U64 == n % U64
  {
    if q > 0 {
      AddMultiple(n, q - 1);
      assert n + q * U64 == (n + (q - 1) * U64) + U64;
    }
  }

  /** The number after steps `a..b`, each acknowledged delta added in its turn. */
  ghost function Moved(r: Run, a: nat, b: nat, k: Key, deltas: seq<nat>, n: nat): nat
    requires b <= |deltas|
    decreases b
  {
    if b <= a then n
    else Added(Moved(r, a, b - 1, k, deltas, n), if WritesKey(r, b - 1, k) then deltas[b - 1] else 0)
  }

  lemma {:induction false} MovedIsSum(r: Run, a: nat, b: nat, k: Key, deltas: seq<nat>, n: nat)
    requires b <= |deltas| && n < U64
    ensures Moved(r, a, b, k, deltas, n) == Added(n, Acknowledged(r, a, b, k, deltas))
    decreases b
  {
    if a < b {
      MovedIsSum(r, a, b - 1, k, deltas, n);
      AddedAgain(n, Acknowledged(r, a, b - 1, k, deltas), if WritesKey(r, b - 1, k) then deltas[b - 1] else 0);
    }
  }

  lemma {:induction false} RunMoves(c: Config, r: Run, a: nat, b: nat, k: Key, text: Val -> string,
                                    deltas: seq<nat>, n: nat)
    requires IsRun(c, r) && a <= b < |r.states| && |deltas| == |r.steps| && NoCrash(r, a, b)
    requires NumberIs(r.states[a], k, text, n)
    requires forall j :: a <= j < b && WritesKey(r, j, k) ==> IsIncrement(r, j, text, deltas[j])
    ensures NumberIs(r.states[b], k, text, Moved(r, a, b, k, deltas, n))
    decreases b
  {
    if a < b {
      RunMoves(c, r, a, b - 1, k, text, deltas, n);
      NumberMoves(c, r, b - 1, k, text, if WritesKey(r, b - 1, k) then deltas[b - 1] else 0,
                  Moved(r, a, b - 1, k, deltas, n));
    }
  }

  /**
    Increments lose nothing: whatever clients, relocations and other keys' writes interleave
    with them, and though the store be closed and opened again, the number in the value is the
    one it started from plus every acknowledged delta.
   */
  lemma IncrementsLoseNothing(c: Config, r: Run, a: nat, b: nat, k: Key, text: Val -> string, deltas: seq<nat>, n: nat)
    requires IsRun(c, r) && a <= b < |r.states| && |deltas| == |r.steps| && NoCrash(r, a, b)
    requires NumberIs(r.states[a], k, text, n)
    requires forall j :: a <= j < b && WritesKey(r, j, k) ==> IsIncrement(r, j, text, deltas[j])
    ensures NumberIs(r.states[b], k, text, Added(n, Acknowledged(r, a, b, k, deltas)))
  {
    RunMoves(c, r, a, b, k, text, deltas, n);
    MovedIsSum(r, a, b, k, deltas, n);
  }

  lemma NumberMoves(c: Config, r: Run, j: nat, k: Key, text: Val -> string, delta: nat, n: nat)
    requires IsRun(c, r) && j < |r.steps| && !r.steps[j].CrashStep? && NumberIs(r.states[j], k, text, n)
    requires if WritesKey(r, j, k) then IsIncrement(r, j, text, delta) else delta == 0
    ensures NumberIs(r.states[j + 1], k, text, Added(n, delta))
  {
    if WritesKey(r, j, k) {
      IncrementAdds(c, r, j, k, text, delta, n);
    } else {
      OtherStepsKeep(c, r, j, k);
    }
  }

  /** The key has a value, which starts with the number `n`. */
  ghost predicate NumberIs(s: State, k: Key, text: Val -> string, n: nat) {
    ValueIn(s, k).Some? && NumberOf(text(ValueIn(s, k).value)) == Some(n)
  }

  /** One acknowledged `incr` adds its delta to the number that is there when it commits. */
  lemma IncrementAdds(c: Config, r: Run, j: nat, k: Key, text: Val -> string, delta: nat, n: nat)
    requires IsRun(c, r) && WritesKey(r, j, k) && IsIncrement(r, j, text, delta)
    requires NumberIs(r.states[j], k, text, n)
    ensures NumberIs(r.states[j + 1], k, text, Added(n, delta))
  {
    var i, p :| Increments(r, j, text, delta, i, p);
    CheckedWrite(c, r, j, k, i, p);
    NumberReadsBack(Added(n, delta));
  }

  /**
    Updates compose: the value is the one it started from with every acknowledged update applied
    in the order of acknowledgement, each to what the one before it made.
   */
  lemma {:induction false} UpdatesCompose(c: Config, r: Run, a: nat, b: nat, k: Key, fs: seq<Val -> Val>)
    requires IsRun(c, r) && a <= b < |r.states| && |fs| == |r.steps| && NoCrash(r, a, b)
    requires ValueIn(r.states[a], k).Some?
    requires forall j :: a <= j < b && WritesKey(r, j, k) ==> IsUpdate(r, j, fs[j])
    ensures ValueIn(r.states[b], k) == Some(Applied(r, a, b, k, fs, ValueIn(r.states[a], k).value))
    decreases b
  {
    if a < b {
      UpdatesCompose(c, r, a, b - 1, k, fs);
      if WritesKey(r, b - 1, k) {
        assert IsUpdate(r, b - 1, fs[b - 1]);
        var i, p :| Updates(r, b - 1, fs[b - 1], i, p);
        CheckedWrite(c, r, b - 1, k, i, p);
      } else {
        OtherStepsKeep(c, r, b - 1, k);
      }
    }
  }
}
