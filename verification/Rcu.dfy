/**
  Userspace RCU, the sleepable-RCU algorithm, one atomic load or store at a time under
  sequential consistency. Counters are natural numbers.
 */
module Rcu {
  import opened Common

  /** The slot shared, with atomic increments, by threads that found no slot of their own. */
  const SHARED: nat := 0

  /** Where a thread is: between calls, or between the loads and stores of one. */
  datatype Pc =
    | Idle
    | Indexed(idx: nat)               // read_lock has loaded the grace-period index
    | Bumping(idx: nat, seen: nat)    // and its own lock counter
    | Leaving(sect: nat)              // read_unlock of a section, entered on whichever thread
    | Unbumping(sect: nat, seen: nat) // has loaded its own unlock counter

  datatype Thread = Thread(slot: nat, pc: Pc)

  /**
    A call of synchronize(). `start` is the number of sections begun before the call. Each of
    two rounds sums the unlock counters of one index, slot by slot, then its lock counters,
    and repeats until the sums agree; the index is flipped between the rounds. `mid` is what
    held when the current scan turned from unlocks to locks.
   */
  datatype Sync = Sync(start: nat, cur: nat, round: nat, locking: bool, pos: nat, unlocks: nat, locks: nat, mid: Mid)

  datatype Mid = Mid(lock: seq<nat>, unlock: seq<nat>, open: map<nat, nat>, next: nat)

  /** `open` maps every section whose lock bump is done and unlock bump is not to its index. */
  datatype State = State(
    gp: nat,
    lock: seq<seq<nat>>,
    unlock: seq<seq<nat>>,
    threads: map<nat, Thread>,
    open: map<nat, nat>,
    next: nat,
    sync: Option<Sync>)

  datatype Step =
    | Claim(t: nat, slot: nat)
    | Exit(t: nat)
    | LoadIndex(t: nat)
    | LoadLock(t: nat)
    | StoreLock(t: nat)
    | AddLock(t: nat)
    | StartUnlock(t: nat, x: nat)
    | LoadUnlock(t: nat)
    | StoreUnlock(t: nat)
    | AddUnlock(t: nat)
    | Call(start: nat)
    | ReadUnlocks
    | Turn
    | ReadLocks
    | Retry
    | Flip
    | Return

  // ---------------------------------------------------------------- sums and counts

  function Sum(s: seq<nat>, n: nat): nat
    requires n <= |s|
  {
    if n == 0 then 0 else Sum(s, n - 1) + s[n - 1]
  }

  function Total(s: seq<nat>): nat {
    Sum(s, |s|)
  }

  ghost function OpenOn(open: map<nat, nat>, idx: nat): set<nat> {
    set x | x in open && open[x] == idx
  }

  lemma {:induction false} SumBump(s: seq<nat>, i: nat, n: nat)
    requires i < |s| && n <= |s|
    ensures Sum(s[i := s[i] + 1], n) == Sum(s, n) + if i < n then 1 else 0
  {
    if n > 0 {
      SumBump(s, i, n - 1);
    }
  }

  lemma OpenAdd(open: map<nat, nat>, x: nat, idx: nat, i: nat)
    requires x !in open
    ensures |OpenOn(open[x := idx], i)| == |OpenOn(open, i)| + if i == idx then 1 else 0
  {
    if i == idx {
      assert OpenOn(open[x := idx], i) == OpenOn(open, i) + {x};
    } else {
      assert OpenOn(open[x := idx], i) == OpenOn(open, i);
    }
  }

  lemma OpenRemove(open: map<nat, nat>, x: nat, i: nat)
    requires x in open
    ensures |OpenOn(open, i)| == |OpenOn(open - {x}, i)| + if i == open[x] then 1 else 0
  {
    OpenAdd(open - {x}, x, open[x], i);
    assert (open - {x})[x := open[x]] == open;
  }

  // ---------------------------------------------------------------- steps

  predicate Running(s: State, t: nat, pc: Pc) {
    t in s.threads && s.threads[t].pc == pc
  }

  function SetPc(s: State, t: nat, pc: Pc): State
    requires t in s.threads
  {
    s.(threads := s.threads[t := s.threads[t].(pc := pc)])
  }

  /** A lock counter takes the value `v`, and the section begins. */
  function Begin(s: State, t: nat, idx: nat, v: nat): State
    requires t in s.threads && idx < |s.lock| && s.threads[t].slot < |s.lock[idx]|
  {
    SetPc(s, t, Idle).(lock := s.lock[idx := s.lock[idx][s.threads[t].slot := v]],
                       open := s.open[s.next := idx],
                       next := s.next + 1)
  }

  /** An unlock counter takes the value `v`, and the section is over. */
  function End(s: State, t: nat, x: nat, v: nat): State
    requires t in s.threads && x in s.open && s.open[x] < |s.unlock| && s.threads[t].slot < |s.unlock[s.open[x]]|
  {
    var idx := s.open[x];
    SetPc(s, t, Idle).(unlock := s.unlock[idx := s.unlock[idx][s.threads[t].slot := v]], open := s.open - {x})
  }

  /** The index a round waits on: first the other side, then the one current at the call. */
  function Side(y: Sync): nat {
    if y.round == 0 then (y.cur + 1) % 2 else y.cur % 2
  }

  ghost predicate Next(s: State, st: Step, s': State) {
    NextReader(s, st, s') || NextSync(s, st, s')
  }

  ghost predicate NextReader(s: State, st: Step, s': State) {
    match st
    case Claim(t, slot) =>
      && |s.lock| == 2 && slot < |s.lock[0]|
      && (t in s.threads ==> s.threads[t] == Thread(SHARED, Idle))
      && (slot != SHARED ==> forall u :: u in s.threads ==> s.threads[u].slot != slot)
      && s' == s.(threads := s.threads[t := Thread(slot, Idle)])
    case Exit(t) => Running(s, t, Idle) && s' == s.(threads := s.threads - {t})
    case LoadIndex(t) => Running(s, t, Idle) && s' == SetPc(s, t, Indexed(s.gp % 2))
    case LoadLock(t) =>
      && t in s.threads && s.threads[t].pc.Indexed? && s.threads[t].slot != SHARED
      && var idx, slot := s.threads[t].pc.idx, s.threads[t].slot;
         && idx < |s.lock| && slot < |s.lock[idx]|
         && s' == SetPc(s, t, Bumping(idx, s.lock[idx][slot]))
    case StoreLock(t) =>
      && t in s.threads && s.threads[t].pc.Bumping?
      && var idx, slot := s.threads[t].pc.idx, s.threads[t].slot;
         && idx < |s.lock| && slot < |s.lock[idx]|
         && s' == Begin(s, t, idx, s.threads[t].pc.seen + 1)
    case AddLock(t) =>
      && t in s.threads && s.threads[t].pc.Indexed? && s.threads[t].slot == SHARED
      && var idx := s.threads[t].pc.idx;
         && idx < |s.lock| && SHARED < |s.lock[idx]|
         && s' == Begin(s, t, idx, s.lock[idx][SHARED] + 1)
    case StartUnlock(t, x) =>
      && Running(s, t, Idle) && x in s.open
      && (forall u :: u in s.threads ==>
          s.threads[u].pc != Leaving(x) && !(s.threads[u].pc.Unbumping? && s.threads[u].pc.sect == x))
      && s' == SetPc(s, t, Leaving(x))
    case LoadUnlock(t) =>
      && t in s.threads && s.threads[t].pc.Leaving? && s.threads[t].slot != SHARED
      && var x, slot := s.threads[t].pc.sect, s.threads[t].slot;
         && x in s.open && s.open[x] < |s.unlock| && slot < |s.unlock[s.open[x]]|
         && s' == SetPc(s, t, Unbumping(x, s.unlock[s.open[x]][slot]))
    case StoreUnlock(t) =>
      && t in s.threads && s.threads[t].pc.Unbumping?
      && var x, slot := s.threads[t].pc.sect, s.threads[t].slot;
         && x in s.open && s.open[x] < |s.unlock| && slot < |s.unlock[s.open[x]]|
         && s' == End(s, t, x, s.threads[t].pc.seen + 1)
    case AddUnlock(t) =>
      && t in s.threads && s.threads[t].pc.Leaving? && s.threads[t].slot == SHARED
      && var x := s.threads[t].pc.sect;
         && x in s.open && s.open[x] < |s.unlock| && SHARED < |s.unlock[s.open[x]]|
         && s' == End(s, t, x, s.unlock[s.open[x]][SHARED] + 1)
    case _ => false
  }

  function NoMid(): Mid {
    Mid([], [], map[], 0)
  }

  ghost predicate NextSync(s: State, st: Step, s': State) {
    match st
    // gp_mu_ admits one caller at a time; it may have been called some sections ago
    case Call(start) =>
      s.sync.None? && start <= s.next && s' == s.(sync := Some(Sync(start, s.gp, 0, false, 0, 0, 0, NoMid())))
    case ReadUnlocks =>
      && s.sync.Some? && !s.sync.value.locking
      && var y := s.sync.value;
         && Side(y) < |s.unlock| && y.pos < |s.unlock[Side(y)]|
         && s' == s.(sync := Some(y.(unlocks := y.unlocks + s.unlock[Side(y)][y.pos], pos := y.pos + 1)))
    case Turn =>
      && s.sync.Some? && !s.sync.value.locking
      && var y := s.sync.value;
         && Side(y) < |s.unlock| && Side(y) < |s.lock| && y.pos == |s.unlock[Side(y)]|
         && s' == s.(sync := Some(y.(locking := true, pos := 0, locks := 0,
                                     mid := Mid(s.lock[Side(y)], s.unlock[Side(y)], s.open, s.next))))
    case ReadLocks =>
      && s.sync.Some? && s.sync.value.locking
      && var y := s.sync.value;
         && Side(y) < |s.lock| && y.pos < |s.lock[Side(y)]|
         && s' == s.(sync := Some(y.(locks := y.locks + s.lock[Side(y)][y.pos], pos := y.pos + 1)))
    case Retry =>
      && Scanned(s) && s.sync.value.locks != s.sync.value.unlocks
      && s' == s.(sync := Some(s.sync.value.(locking := false, pos := 0, unlocks := 0, locks := 0)))
    case Flip =>
      && Scanned(s) && s.sync.value.locks == s.sync.value.unlocks && s.sync.value.round == 0
      && s' == s.(gp := s.sync.value.cur + 1,
                  sync := Some(s.sync.value.(round := 1, locking := false, pos := 0, unlocks := 0, locks := 0)))
    case Return =>
      && Scanned(s) && s.sync.value.locks == s.sync.value.unlocks && s.sync.value.round == 1
      && s' == s.(sync := None)
    case _ => false
  }

  /** A scan of both sums is complete. */
  predicate Scanned(s: State) {
    s.sync.Some? && s.sync.value.locking && Side(s.sync.value) < |s.lock| &&
    s.sync.value.pos == |s.lock[Side(s.sync.value)]|
  }

  ghost predicate Init(s: State) {
    && |s.lock| == 2 && |s.unlock| == 2 && |s.lock[0]| > 0
    && (forall i :: 0 <= i < 2 ==> |s.lock[i]| == |s.lock[0]| && |s.unlock[i]| == |s.lock[0]|)
    && (forall i, k :: 0 <= i < 2 && 0 <= k < |s.lock[0]| ==> s.lock[i][k] == 0 && s.unlock[i][k] == 0)
    && s.gp == 0 && s.threads == map[] && s.open == map[] && s.next == 0 && s.sync == None
  }

  // ---------------------------------------------------------------- invariant

  ghost predicate Shape(lock: seq<seq<nat>>, unlock: seq<seq<nat>>) {
    |lock| == 2 && |unlock| == 2 && |lock[0]| > 0 &&
    |lock[1]| == |lock[0]| && |unlock[0]| == |lock[0]| && |unlock[1]| == |lock[0]|
  }

  /** On each side, locks exceed unlocks by the sections open there. */
  ghost predicate Balanced(lock: seq<seq<nat>>, unlock: seq<seq<nat>>, open: map<nat, nat>) {
    |lock| == 2 && |unlock| == 2 &&
    forall i :: 0 <= i < 2 ==> Total(lock[i]) == Total(unlock[i]) + |OpenOn(open, i)|
  }

  ghost predicate Numbered(open: map<nat, nat>, next: nat) {
    forall x :: x in open ==> x < next && open[x] < 2
  }

  /** What a thread has loaded from its own slot is still there: nobody else writes it. */
  ghost predicate OwnCounter(th: Thread, lock: seq<seq<nat>>, unlock: seq<seq<nat>>, open: map<nat, nat>) {
    && |lock| == 2 && |unlock| == 2 && th.slot < |lock[0]| == |lock[1]| == |unlock[0]| == |unlock[1]|
    && (th.pc.Indexed? ==> th.pc.idx < 2)
    && (th.pc.Bumping? ==> th.pc.idx < 2 && th.slot != SHARED && lock[th.pc.idx][th.slot] == th.pc.seen)
    && (th.pc.Leaving? ==> th.pc.sect in open && open[th.pc.sect] < 2)
    && (th.pc.Unbumping? ==>
          th.pc.sect in open && open[th.pc.sect] < 2 && th.slot != SHARED &&
          unlock[open[th.pc.sect]][th.slot] == th.pc.seen)
  }

  ghost predicate OwnCounters(threads: map<nat, Thread>, lock: seq<seq<nat>>, unlock: seq<seq<nat>>, open: map<nat,
      nat>) {
    forall t :: t in threads ==> OwnCounter(threads[t], lock, unlock, open)
  }

  predicate LeavesSection(pc: Pc, x: nat) {
    (pc.Leaving? || pc.Unbumping?) && pc.sect == x
  }

  /** Slots but the shared one have one owner, and a section is left once. */
  ghost predicate Exclusive(threads: map<nat, Thread>) {
    && (forall t, u :: t in threads && u in threads && t != u && threads[t].slot != SHARED ==>
          threads[t].slot != threads[u].slot)
    && (forall t, u, x :: t in threads && u in threads && t != u && LeavesSection(threads[t].pc, x) ==>
          !LeavesSection(threads[u].pc, x))
  }

  /** Sections begun before `start` on side `i` are over. */
  ghost predicate OverOn(open: map<nat, nat>, i: nat, start: nat) {
    forall x :: x in open && open[x] == i ==> x >= start
  }

  ghost predicate AtLeastAll(s: seq<nat>, s': seq<nat>) {
    |s'| == |s| && forall k :: 0 <= k < |s| ==> s[k] <= s'[k]
  }

  /** The scan under way: sums read so far bound the counters from below, then from above. */
  ghost predicate Scanning(y: Sync, gp: nat, lock: seq<seq<nat>>, unlock: seq<seq<nat>>, open: map<nat, nat>,
      next: nat) {
    && |lock| == 2 && |unlock| == 2 && y.round < 2 && y.start <= next
    && gp == (if y.round == 0 then y.cur else y.cur + 1)
    && (y.round == 1 ==> OverOn(open, (y.cur + 1) % 2, y.start))
    && var i := Side(y);
       && (!y.locking ==> y.pos <= |unlock[i]| && y.unlocks <= Sum(unlock[i], y.pos))
       && (y.locking ==>
             && y.pos <= |lock[i]| && AtLeastAll(y.mid.lock, lock[i])
             && y.locks >= Sum(y.mid.lock, y.pos)
             && y.unlocks <= Total(y.mid.unlock)
             && Total(y.mid.lock) == Total(y.mid.unlock) + |OpenOn(y.mid.open, i)|
             && y.start <= y.mid.next <= next
             && (forall x :: x in open && x < y.mid.next ==> x in y.mid.open && y.mid.open[x] == open[x]))
  }

  ghost predicate Inv(s: State) {
    && Shape(s.lock, s.unlock)
    && Balanced(s.lock, s.unlock, s.open)
    && Numbered(s.open, s.next)
    && OwnCounters(s.threads, s.lock, s.unlock, s.open)
    && Exclusive(s.threads)
    && (s.sync.Some? ==> Scanning(s.sync.value, s.gp, s.lock, s.unlock, s.open, s.next))
  }

  // ---------------------------------------------------------------- readers keep it

  lemma ThreadsOnly(s: State, threads: map<nat, Thread>)
    requires Inv(s) && OwnCounters(threads, s.lock, s.unlock, s.open) && Exclusive(threads)
    ensures Inv(s.(threads := threads))
  {
  }

  lemma PcKeeps(s: State, t: nat, pc: Pc)
    requires Inv(s) && t in s.threads
    requires OwnCounter(s.threads[t].(pc := pc), s.lock, s.unlock, s.open)
    requires forall u, x :: u in s.threads && u != t && LeavesSection(pc, x) ==> !LeavesSection(s.threads[u].pc, x)
    ensures Inv(SetPc(s, t, pc))
  {
    var threads := s.threads[t := s.threads[t].(pc := pc)];
    ThreadsOnly(s, threads);
  }

  lemma LockBump(lock: seq<seq<nat>>, unlock: seq<seq<nat>>, open: map<nat, nat>, next: nat, idx: nat, slot: nat)
    requires Shape(lock, unlock) && Balanced(lock, unlock, open) && Numbered(open, next) && idx < 2 && slot < |lock[0]|
    ensures var lock' := lock[idx := lock[idx][slot := lock[idx][slot] + 1]];
            && Shape(lock', unlock) && Balanced(lock', unlock, open[next := idx]) &&
                Numbered(open[next := idx], next + 1)
  {
    SumBump(lock[idx], slot, |lock[idx]|);
    OpenAdd(open, next, idx, 0);
    OpenAdd(open, next, idx, 1);
  }

  lemma UnlockBump(lock: seq<seq<nat>>, unlock: seq<seq<nat>>, open: map<nat, nat>, next: nat, x: nat, slot: nat)
    requires Shape(lock, unlock) && Balanced(lock, unlock, open) && Numbered(open, next) && x in open &&
        slot < |lock[0]|
    ensures var idx := open[x];
            var unlock' := unlock[idx := unlock[idx][slot := unlock[idx][slot] + 1]];
            && Shape(lock, unlock') && Balanced(lock, unlock', open - {x}) && Numbered(open - {x}, next)
  {
    SumBump(unlock[open[x]], slot, |unlock[open[x]]|);
    OpenRemove(open, x, 0);
    OpenRemove(open, x, 1);
  }

  lemma LockOwners(threads: map<nat, Thread>, lock: seq<seq<nat>>, unlock: seq<seq<nat>>, open: map<nat, nat>,
                   next: nat, t: nat, idx: nat)
    requires OwnCounters(threads, lock, unlock, open) && Exclusive(threads) && Numbered(open, next)
    requires t in threads && idx < 2 && |lock| == 2 && threads[t].slot < |lock[idx]|
    ensures var slot := threads[t].slot;
            var lock' := lock[idx := lock[idx][slot := lock[idx][slot] + 1]];
            var threads' := threads[t := Thread(slot, Idle)];
            OwnCounters(threads', lock', unlock, open[next := idx]) && Exclusive(threads')
  {
    var slot := threads[t].slot;
    var lock' := lock[idx := lock[idx][slot := lock[idx][slot] + 1]];
    var threads' := threads[t := Thread(slot, Idle)];
    forall u | u in threads' ensures OwnCounter(threads'[u], lock', unlock, open[next := idx]) {
      assert OwnCounter(threads[u], lock, unlock, open);
    }
  }

  lemma UnlockOwners(threads: map<nat, Thread>, lock: seq<seq<nat>>, unlock: seq<seq<nat>>, open: map<nat, nat>,
                     t: nat, x: nat)
    requires OwnCounters(threads, lock, unlock, open) && Exclusive(threads)
    requires t in threads && LeavesSection(threads[t].pc, x) && x in open && open[x] < 2
    requires |unlock| == 2 && threads[t].slot < |unlock[open[x]]|
    ensures var idx, slot := open[x], threads[t].slot;
            var unlock' := unlock[idx := unlock[idx][slot := unlock[idx][slot] + 1]];
            var threads' := threads[t := Thread(slot, Idle)];
            OwnCounters(threads', lock, unlock', open - {x}) && Exclusive(threads')
  {
    var idx, slot := open[x], threads[t].slot;
    var unlock' := unlock[idx := unlock[idx][slot := unlock[idx][slot] + 1]];
    var threads' := threads[t := Thread(slot, Idle)];
    forall u | u in threads' ensures OwnCounter(threads'[u], lock, unlock', open - {x}) {
      assert OwnCounter(threads[u], lock, unlock, open);
      assert u != t ==> !LeavesSection(threads[u].pc, x);
    }
  }

  /** A bump under way of a scan: counters only grow, and new sections are newer than its middle. */
  lemma ScanUnderLock(y: Sync, gp: nat, lock: seq<seq<nat>>, unlock: seq<seq<nat>>, open: map<nat, nat>, next: nat,
                      idx: nat, slot: nat)
    requires Scanning(y, gp, lock, unlock, open, next) && Shape(lock, unlock) && idx < 2 && slot < |lock[0]|
    requires Numbered(open, next)
    ensures var lock' := lock[idx := lock[idx][slot := lock[idx][slot] + 1]];
            Scanning(y, gp, lock', unlock, open[next := idx], next + 1)
  {
  }

  lemma ScanUnderUnlock(y: Sync, gp: nat, lock: seq<seq<nat>>, unlock: seq<seq<nat>>, open: map<nat, nat>, next: nat,
                        x: nat, slot: nat)
    requires Scanning(y, gp, lock, unlock, open, next) && Shape(lock, unlock) && x in open && open[x] < 2
    requires slot < |lock[0]|
    ensures var idx := open[x];
            var unlock' := unlock[idx := unlock[idx][slot := unlock[idx][slot] + 1]];
            Scanning(y, gp, lock, unlock', open - {x}, next)
  {
    if !y.locking && open[x] == Side(y) {
      SumBump(unlock[open[x]], slot, y.pos);
    }
  }

  lemma BeginKeeps(s: State, t: nat, idx: nat)
    requires Inv(s) && t in s.threads && idx < 2 && s.threads[t].slot < |s.lock[idx]|
    ensures Inv(Begin(s, t, idx, s.lock[idx][s.threads[t].slot] + 1))
  {
    var slot := s.threads[t].slot;
    LockBump(s.lock, s.unlock, s.open, s.next, idx, slot);
    LockOwners(s.threads, s.lock, s.unlock, s.open, s.next, t, idx);
    if s.sync.Some? {
      ScanUnderLock(s.sync.value, s.gp, s.lock, s.unlock, s.open, s.next, idx, slot);
    }
  }

  lemma EndKeeps(s: State, t: nat, x: nat)
    requires Inv(s) && t in s.threads && LeavesSection(s.threads[t].pc, x) && x in s.open
    requires s.open[x] < 2 && s.threads[t].slot < |s.unlock[s.open[x]]|
    ensures Inv(End(s, t, x, s.unlock[s.open[x]][s.threads[t].slot] + 1))
  {
    var slot := s.threads[t].slot;
    UnlockBump(s.lock, s.unlock, s.open, s.next, x, slot);
    UnlockOwners(s.threads, s.lock, s.unlock, s.open, t, x);
    if s.sync.Some? {
      ScanUnderUnlock(s.sync.value, s.gp, s.lock, s.unlock, s.open, s.next, x, slot);
    }
  }

  lemma LifeKeeps(s: State, st: Step, s': State)
    requires Inv(s) && NextReader(s, st, s') && (st.Claim? || st.Exit?)
    ensures Inv(s')
  {
    assert OwnCounters(s'.threads, s.lock, s.unlock, s.open);
    ThreadsOnly(s, s'.threads);
  }

  lemma LoadKeeps(s: State, st: Step, s': State)
    requires Inv(s) && NextReader(s, st, s') && (st.LoadIndex? || st.LoadLock? || st.LoadUnlock? || st.StartUnlock?)
    ensures Inv(s')
  {
    var th := s.threads[st.t];
    assert OwnCounter(th, s.lock, s.unlock, s.open);
    match st
    case LoadIndex(t) => PcKeeps(s, t, Indexed(s.gp % 2));
    case LoadLock(t) => PcKeeps(s, t, Bumping(th.pc.idx, s.lock[th.pc.idx][th.slot]));
    case LoadUnlock(t) =>
      assert LeavesSection(th.pc, th.pc.sect);
      PcKeeps(s, t, Unbumping(th.pc.sect, s.unlock[s.open[th.pc.sect]][th.slot]));
    case StartUnlock(t, x) => PcKeeps(s, t, Leaving(x));
  }

  lemma LockKeeps(s: State, st: Step, s': State)
    requires Inv(s) && NextReader(s, st, s') && (st.StoreLock? || st.AddLock?)
    ensures Inv(s')
  {
    assert OwnCounter(s.threads[st.t], s.lock, s.unlock, s.open);
    BeginKeeps(s, st.t, s.threads[st.t].pc.idx);
  }

  lemma UnlockKeeps(s: State, st: Step, s': State)
    requires Inv(s) && NextReader(s, st, s') && (st.StoreUnlock? || st.AddUnlock?)
    ensures Inv(s')
  {
    assert OwnCounter(s.threads[st.t], s.lock, s.unlock, s.open);
    EndKeeps(s, st.t, s.threads[st.t].pc.sect);
  }

  // ---------------------------------------------------------------- synchronize keeps it

  /** Sums that agree show that no section was open on this side in the middle of the scan. */
  lemma AgreementMeansDrained(s: State)
    requires Inv(s) && Scanned(s) && s.sync.value.locks == s.sync.value.unlocks
    ensures OverOn(s.open, Side(s.sync.value), s.sync.value.mid.next)
  {
    var y := s.sync.value;
    var i := Side(y);
    assert |OpenOn(y.mid.open, i)| == 0;
    forall x | x in s.open && s.open[x] == i ensures x >= y.mid.next {
      assert x !in OpenOn(y.mid.open, i);
    }
  }

  lemma AgreedKeeps(s: State, st: Step, s': State)
    requires Inv(s) && NextSync(s, st, s') && (st.Flip? || st.Return?)
    ensures Inv(s')
  {
    AgreementMeansDrained(s);
  }

  lemma ReadKeeps(s: State, st: Step, s': State)
    requires Inv(s) && NextSync(s, st, s') && (st.ReadUnlocks? || st.ReadLocks?)
    ensures Inv(s')
  {
  }

  lemma ScanKeeps(s: State, st: Step, s': State)
    requires Inv(s) && NextSync(s, st, s') && !st.Flip? && !st.Return? && !st.ReadUnlocks? && !st.ReadLocks?
    ensures Inv(s')
  {
  }

  lemma SyncKeeps(s: State, st: Step, s': State)
    requires Inv(s) && NextSync(s, st, s')
    ensures Inv(s')
  {
    if st.Flip? || st.Return? {
      AgreedKeeps(s, st, s');
    } else if st.ReadUnlocks? || st.ReadLocks? {
      ReadKeeps(s, st, s');
    } else {
      ScanKeeps(s, st, s');
    }
  }

  lemma NextKeeps(s: State, st: Step, s': State)
    requires Inv(s) && Next(s, st, s')
    ensures Inv(s')
  {
    if NextSync(s, st, s') {
      SyncKeeps(s, st, s');
    } else if st.Claim? || st.Exit? {
      LifeKeeps(s, st, s');
    } else if st.LoadIndex? || st.LoadLock? || st.LoadUnlock? || st.StartUnlock? {
      LoadKeeps(s, st, s');
    } else if st.StoreLock? || st.AddLock? {
      LockKeeps(s, st, s');
    } else {
      UnlockKeeps(s, st, s');
    }
  }

  lemma InitHolds(s: State)
    requires Init(s)
    ensures Inv(s)
  {
    forall i | 0 <= i < 2 ensures Total(s.lock[i]) == 0 && Total(s.unlock[i]) == 0 {
      SumZero(s.lock[i], |s.lock[i]|);
      SumZero(s.unlock[i], |s.unlock[i]|);
    }
    assert OpenOn(s.open, 0) == {} && OpenOn(s.open, 1) == {};
  }

  lemma {:induction false} SumZero(s: seq<nat>, n: nat)
    requires n <= |s| && forall k :: 0 <= k < |s| ==> s[k] == 0
    ensures Sum(s, n) == 0
  {
    if n > 0 {
      SumZero(s, n - 1);
    }
  }

  // ---------------------------------------------------------------- the grace period

  datatype Run = Run(states: seq<State>, steps: seq<Step>)

  ghost predicate StepAt(r: Run, i: nat) {
    i < |r.steps| && i + 1 < |r.states| && Next(r.states[i], r.steps[i], r.states[i + 1])
  }

  ghost predicate IsRun(r: Run) {
    |r.states| == |r.steps| + 1 && Init(r.states[0]) && forall i: nat :: i < |r.steps| ==> StepAt(r, i)
  }

  lemma {:induction false} RunKeeps(r: Run, i: nat)
    requires IsRun(r) && i < |r.states|
    ensures Inv(r.states[i])
  {
    if i == 0 {
      InitHolds(r.states[0]);
    } else {
      RunKeeps(r, i - 1);
      assert StepAt(r, i - 1);
      NextKeeps(r.states[i - 1], r.steps[i - 1], r.states[i]);
    }
  }

  lemma {:induction false} CallGoesOn(r: Run, k: nat, i: nat)
    requires IsRun(r) && k < i < |r.states| && r.steps[k].Call?
    requires forall j :: k < j < i ==> !r.steps[j].Return?
    ensures r.states[i].sync.Some? && r.states[i].sync.value.start == r.steps[k].start
    decreases i
  {
    assert StepAt(r, i - 1);
    if k + 1 < i {
      CallGoesOn(r, k, i - 1);
      StartStays(r.states[i - 1], r.steps[i - 1], r.states[i]);
    }
  }

  lemma StartStays(s: State, st: Step, s': State)
    requires Next(s, st, s') && s.sync.Some? && !st.Return?
    ensures s'.sync.Some? && s'.sync.value.start == s.sync.value.start
  {
  }

  /**
    A call of synchronize() admitted at step `k`, made when the sections numbered below its
    `start` had begun, returns at step `i`: none of those sections is open any more, in any
    interleaving with readers on any threads.
   */
  lemma SynchronizeWaits(r: Run, k: nat, i: nat, x: nat)
    requires IsRun(r) && k < i < |r.steps| && r.steps[k].Call? && r.steps[i].Return?
    requires forall j :: k < j < i ==> !r.steps[j].Return?
    requires x < r.steps[k].start
    ensures x !in r.states[i + 1].open
  {
    RunKeeps(r, i);
    CallGoesOn(r, k, i);
    assert StepAt(r, i);
    ReturnIsSafe(r.states[i], r.steps[i], r.states[i + 1]);
  }

  /**
    What the protocols that wait out a grace period rely on: synchronize(), called in state `m` and
    admitted at step `k`, has waited out every section open in state `m` when it returns at step `i`.
   */
  lemma GracePeriod(r: Run, m: nat, k: nat, i: nat)
    requires IsRun(r) && m <= k < i < |r.steps| && r.steps[k] == Call(r.states[m].next) && r.steps[i].Return?
    requires forall j :: k < j < i ==> !r.steps[j].Return?
    ensures GraceOver(r.states[m].open.Keys, r.states[i + 1].open.Keys)
  {
    RunKeeps(r, m);
    forall x | x in r.states[m].open ensures x !in r.states[i + 1].open {
      SynchronizeWaits(r, k, i, x);
    }
  }

  lemma ReturnIsSafe(s: State, st: Step, s': State)
    requires Inv(s) && NextSync(s, st, s') && st.Return?
    ensures forall x :: x in s'.open ==> x >= s.sync.value.start
  {
    AgreementMeansDrained(s);
    var y := s.sync.value;
    forall x | x in s.open ensures x >= y.start {
      assert s.open[x] == y.cur % 2 || s.open[x] == (y.cur + 1) % 2;
    }
  }
}
