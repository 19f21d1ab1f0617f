/**
  Commit, garbage collection, segment reuse and crash recovery of the store as a state
  machine. Each `co_await` of the store is an interleaving point; everything done under a
  key's stripe locks is one step, except a relocation, which holds them across its copy.
 */
module LogProtocol {
  import opened Common
  import opened Log

  // ---------------------------------------------------------------- state

  /**
    `data`: grains of a segment ahead of its metadata. `fp`: a key's bucket and tag. `tombLen`: the
    grains of a key's tombstone, which holds nothing but the key.
   */
  datatype Config = Config(data: nat, fp: Key -> nat, tombLen: Key -> nat)

  datatype Phase =
    | Free                        // in salsa's free queues
    | Open                        // staged, its metadata on the device
    | Bad                         // staged, its metadata write failed
    | Sealed                      // every grain released or drained: a GC candidate
    | Victim                      // picked by GC
    | Draining(waits: set<nat>)   // nothing refers to it; waits out these read sections
    | IndexSeg                    // holds a hash table, no records

  datatype Owner = Indexed | Held(op: nat) | Owed(op: nat) | Copied

  /** Grains counted as valid, and who will give them back. */
  datatype Charge = Charge(len: nat, owner: Owner)

  /**
    A put, a del, or (never committing) a get.
    `seen` is the KeyProbe, `reading` a lookup whose verifying read is under way,
    `grain` the allocation not yet released, `owed` the replaced record not yet invalidated.
    A `done` operation has been acknowledged; a `dead` one has failed and only has to return.
   */
  datatype Op = Op(
    rec: Rec,
    sect: Option<nat>,
    seen: map<Pba, bool>,
    reading: Option<Pba>,
    grain: Option<Pba>,
    written: bool,
    owed: Option<Pba>,
    done: bool,
    dead: bool)

  datatype Relocation = Relocation(src: Pba, dst: Pba, written: bool)

  datatype Gc = Gc(victim: nat, drop: bool, todo: set<Pba>, copy: Option<Relocation>)

  /**
    Per-segment arrays as the store and salsa keep them, the device (`disk`: the valid
    records of every segment whose metadata recovery would accept), the directory (`index`)
    and the operations. `ranked`, `charge` and `graves` are history: the records held against
    their key's entry (installed by a commit or a relocation, written again because the entry
    was not older, or found by recovery), a ledger explaining the valid counts, and the
    tombstone GC last dropped of each key. `views` maps every open read section to the locations the
    directory has held at any moment of it.
   */
  datatype State = State(
    ts: seq<nat>,
    live: seq<bool>,
    phase: seq<Phase>,
    cursor: seq<nat>,
    valid: seq<int>,
    nextTs: nat,
    disk: map<Pba, Rec>,
    ranked: set<Pba>,
    index: set<Pba>,
    ops: map<nat, Op>,
    views: map<nat, set<Pba>>,
    nextSect: nat,
    gc: Option<Gc>,
    charge: map<Pba, Charge>,
    graves: map<Key, Pba>)

  // ---------------------------------------------------------------- commit decisions

  datatype PutMode = Upsert | Create | Replace

  datatype Decision =
    | Install(prev: Option<Pba>)  // 0
    | RetryProbe
    | NotFound                    // -ENOENT
    | Exists                      // -EEXIST
    | Stale                       // -ESTALE
    | Rewrite                     // not newer than the entry
    | NeedTomb                    // del: write the tombstone first

  /** probe_settled: every tag-matching entry is one the probe has verified. */
  ghost predicate Settled(c: Config, s: State, op: Op) {
    forall p :: p in s.index && p in s.disk && c.fp(s.disk[p].key) == c.fp(op.rec.key) ==> p in op.seen
  }

  /** An entry the probe takes for the key's own. */
  ghost predicate IsMatch(c: Config, s: State, op: Op, p: Pba) {
    p in s.index && p in s.disk && c.fp(s.disk[p].key) == c.fp(op.rec.key) && p in op.seen && op.seen[p]
  }

  ghost function Match(c: Config, s: State, op: Op): (m: Option<Pba>)
    ensures m.Some? ==> IsMatch(c, s, op, m.value)
    ensures m.None? ==> forall p :: !IsMatch(c, s, op, p)
  {
    if exists p :: IsMatch(c, s, op, p) then
      var p :| IsMatch(c, s, op, p);
      Some(p)
    else
      None
  }

  /** The version of the record at `p`: its segment's timestamp, then its grain. */
  function VersionOf(s: State, p: Pba): (nat, nat) {
    (TsOf(s.ts, p.seg), p.off)
  }

  ghost function DecidePut(c: Config, s: State, op: Op, mode: PutMode, ifVersion: Option<(nat, nat)>): Decision
    requires op.grain.Some?
  {
    if !Settled(c, s, op) then RetryProbe else
    var m := Match(c, s, op);
    if m.None? || s.disk[m.value].tomb then
      if mode == Replace || ifVersion.Some? then NotFound
      else if m.Some? && !Newer(s.ts, op.grain.value, m.value) then Rewrite
      else Install(m)
    else if mode == Create then Exists
    else if ifVersion.Some? && VersionOf(s, m.value) != ifVersion.value then Stale
    else if !Newer(s.ts, op.grain.value, m.value) then Rewrite
    else Install(m)
  }

  ghost function DecideDel(c: Config, s: State, op: Op, ifVersion: Option<(nat, nat)>): Decision {
    if !Settled(c, s, op) then RetryProbe else
    var m := Match(c, s, op);
    if m.None? || s.disk[m.value].tomb then NotFound
    else if ifVersion.Some? && VersionOf(s, m.value) != ifVersion.value then Stale
    else if op.grain.None? then NeedTomb
    else if !Newer(s.ts, op.grain.value, m.value) then Rewrite
    else Install(m)
  }

  // ---------------------------------------------------------------- helpers

  predicate At(phase: seq<Phase>, seg: nat, ph: Phase) {
    seg < |phase| && phase[seg] == ph
  }

  /** Segments whose records can be referred to. */
  predicate Using(phase: seq<Phase>, seg: nat) {
    At(phase, seg, Open) || At(phase, seg, Sealed) || At(phase, seg, Victim)
  }

  predicate Drains(phase: seq<Phase>, seg: nat, sect: nat) {
    seg < |phase| && phase[seg].Draining? && sect in phase[seg].waits
  }

  /** The relocation in progress, if any. */
  function CopyOf(gc: Option<Gc>): Option<Relocation> {
    if gc.Some? then gc.value.copy else None
  }

  /** The key whose stripes a relocation in progress holds. */
  predicate Locked(s: State, k: Key) {
    var r := CopyOf(s.gc);
    r.Some? && r.value.src in s.disk && s.disk[r.value.src].key == k
  }

  /** Some grain of `seg` is allocated and not released. */
  predicate Busy(s: State, seg: nat) {
    || (exists o :: o in s.ops && s.ops[o].grain.Some? && s.ops[o].grain.value.seg == seg)
    || (CopyOf(s.gc).Some? && CopyOf(s.gc).value.dst.seg == seg)
  }

  function Set<T>(a: seq<T>, seg: nat, x: T): seq<T> {
    if seg < |a| then a[seg := x] else a
  }

  function Sub(valid: seq<int>, seg: nat, n: nat): seq<int> {
    if seg < |valid| then valid[seg := valid[seg] - n] else valid
  }

  /** An entry appears in the directory: every open section may come to see it. */
  function Extend(views: map<nat, set<Pba>>, p: Pba): map<nat, set<Pba>> {
    map x | x in views :: views[x] + {p}
  }

  function Without(disk: map<Pba, Rec>, seg: nat): map<Pba, Rec> {
    map p | p in disk && p.seg != seg :: disk[p]
  }

  function Outside(ps: set<Pba>, seg: nat): set<Pba> {
    set p | p in ps && p.seg != seg
  }

  function Assign(charge: map<Pba, Charge>, p: Pba, owner: Owner): map<Pba, Charge> {
    if p in charge then charge[p := charge[p].(owner := owner)] else charge
  }

  function LenAt(disk: map<Pba, Rec>, p: Pba): nat {
    if p in disk then disk[p].len else 0
  }

  /** The grains of the ledger that lie in `seg`. */
  ghost function SumIn(charge: map<Pba, Charge>, seg: nat): (n: nat)
  {
    if charge == map[] then 0 else
    var p :| p in charge;
    (if p.seg == seg then charge[p].len else 0) + SumIn(charge - {p}, seg)
  }

  // ---------------------------------------------------------------- operations

  predicate CanBegin(c: Config, s: State, o: nat, rec: Rec) {
    o !in s.ops && rec.len >= 1 && (rec.tomb ==> rec.len == c.tombLen(rec.key))
  }

  function Begin(s: State, o: nat, rec: Rec): State {
    s.(ops := s.ops[o := Op(rec, Some(s.nextSect), map[], None, None, false, None, false, false)],
       views := s.views[s.nextSect := s.index],
       nextSect := s.nextSect + 1)
  }

  /** Leave the read section to wait for space or a grow; the probe is forgotten. */
  predicate CanLeave(s: State, o: nat) {
    o in s.ops && !s.ops[o].done && s.ops[o].sect.Some?
  }

  function Leave(s: State, o: nat): State
    requires CanLeave(s, o)
  {
    s.(ops := s.ops[o := s.ops[o].(sect := None, seen := map[], reading := None)],
       views := s.views - {s.ops[o].sect.value})
  }

  predicate CanEnter(s: State, o: nat) {
    o in s.ops && s.ops[o].sect.None?
  }

  function Enter(s: State, o: nat): State
    requires CanEnter(s, o)
  {
    s.(ops := s.ops[o := s.ops[o].(sect := Some(s.nextSect))],
       views := s.views[s.nextSect := s.index],
       nextSect := s.nextSect + 1)
  }

  predicate CanAllocate(c: Config, s: State, o: nat, seg: nat) {
    o in s.ops && !s.ops[o].done && !s.ops[o].dead && s.ops[o].grain.None? &&
    At(s.phase, seg, Open) && seg < |s.cursor| && s.cursor[seg] + s.ops[o].rec.len <= c.data
  }

  function Allocate(s: State, o: nat, seg: nat): State
    requires o in s.ops && seg < |s.cursor|
  {
    var p := Pba(seg, s.cursor[seg]);
    s.(cursor := s.cursor[seg := s.cursor[seg] + s.ops[o].rec.len],
       charge := s.charge[p := Charge(s.ops[o].rec.len, Held(o))],
       ops := s.ops[o := s.ops[o].(grain := Some(p), written := false)])
  }

  predicate CanWrite(s: State, o: nat) {
    o in s.ops && s.ops[o].grain.Some? && !s.ops[o].written
  }

  function Write(s: State, o: nat): State
    requires CanWrite(s, o)
  {
    s.(disk := s.disk[s.ops[o].grain.value := s.ops[o].rec],
       ops := s.ops[o := s.ops[o].(written := true)])
  }

  /** A lock-free lookup may return any entry of a snapshot current during the section. */
  predicate CanLookup(s: State, o: nat, p: Pba) {
    o in s.ops && s.ops[o].sect.Some? && s.ops[o].sect.value in s.views && p in s.views[s.ops[o].sect.value]
  }

  function Lookup(s: State, o: nat, p: Pba): State
    requires o in s.ops
  {
    s.(ops := s.ops[o := s.ops[o].(reading := Some(p))])
  }

  /** The verifying read returns; a location rewritten meanwhile could answer anything. */
  predicate CanVerify(s: State, o: nat, answer: bool) {
    o in s.ops && s.ops[o].reading.Some? &&
    (s.ops[o].reading.value in s.disk ==>
       answer == (s.disk[s.ops[o].reading.value].key == s.ops[o].rec.key))
  }

  function Verify(s: State, o: nat, answer: bool): State
    requires o in s.ops && s.ops[o].reading.Some?
  {
    var op := s.ops[o];
    s.(ops := s.ops[o := op.(seen := op.seen[op.reading.value := answer], reading := None)])
  }

  /** probe_key starts its record over when the array is full. */
  function ForgetProbe(s: State, o: nat): State
    requires o in s.ops
  {
    s.(ops := s.ops[o := s.ops[o].(seen := map[])])
  }

  predicate ReadyToCommit(s: State, o: nat) {
    o in s.ops && !s.ops[o].done && s.ops[o].grain.Some? && s.ops[o].written && s.ops[o].sect.Some? &&
    !Locked(s, s.ops[o].rec.key)
  }

  ghost predicate CanCommitPut(c: Config, s: State, o: nat, mode: PutMode, ifVersion: Option<(nat, nat)>) {
    ReadyToCommit(s, o) && !s.ops[o].rec.tomb && DecidePut(c, s, s.ops[o], mode, ifVersion).Install?
  }

  ghost predicate CanCommitDel(c: Config, s: State, o: nat, ifVersion: Option<(nat, nat)>) {
    ReadyToCommit(s, o) && s.ops[o].rec.tomb && DecideDel(c, s, s.ops[o], ifVersion).Install?
  }

  /** Publish the operation's record, in place of `prev`, under the key's stripe locks. */
  function Publish(s: State, o: nat, prev: Option<Pba>): State
    requires o in s.ops && s.ops[o].grain.Some?
  {
    var g := s.ops[o].grain.value;
    s.(index := (if prev.Some? then s.index - {prev.value} else s.index) + {g},
       ranked := s.ranked + {g},
       views := Extend(s.views, g),
       charge := Assign(if prev.Some? then Assign(s.charge, prev.value, Owed(o)) else s.charge, g, Indexed),
       ops := s.ops[o := s.ops[o].(done := true, owed := prev)])
  }

  /** The replaced record's grains stop being valid. */
  predicate CanInvalidate(s: State, o: nat) {
    o in s.ops && s.ops[o].owed.Some?
  }

  function Invalidate(s: State, o: nat): State
    requires CanInvalidate(s, o)
  {
    var p := s.ops[o].owed.value;
    s.(valid := Sub(s.valid, p.seg, LenAt(s.disk, p)),
       charge := s.charge - {p},
       ops := s.ops[o := s.ops[o].(owed := None)])
  }

  predicate CanReject(s: State, o: nat) {
    o in s.ops && !s.ops[o].done && s.ops[o].grain.Some?
  }

  /** Give the allocation back. */
  function GiveUp(s: State, o: nat, dead: bool): State
    requires CanReject(s, o)
  {
    var p := s.ops[o].grain.value;
    s.(valid := Sub(s.valid, p.seg, s.ops[o].rec.len),
       charge := s.charge - {p},
       ops := s.ops[o := s.ops[o].(grain := None, written := false, dead := dead)])
  }

  /** A failed write, lookup or condition: the operation fails, whatever reached the device. */
  function Reject(s: State, o: nat): State
    requires CanReject(s, o)
  {
    GiveUp(s, o, true)
  }

  /** The key's entry is not older than the record just written: the operation writes it again. */
  ghost predicate CanRewrite(c: Config, s: State, o: nat, mode: PutMode, ifVersion: Option<(nat, nat)>) {
    ReadyToCommit(s, o) &&
    if s.ops[o].rec.tomb then DecideDel(c, s, s.ops[o], ifVersion).Rewrite?
    else DecidePut(c, s, s.ops[o], mode, ifVersion).Rewrite?
  }

  function Rewritten(s: State, o: nat): State
    requires CanReject(s, o)
  {
    GiveUp(s, o, false).(ranked := s.ranked + {s.ops[o].grain.value})
  }

  /** Release the grains of a committed record and leave the read section. */
  predicate CanEnd(s: State, o: nat) {
    o in s.ops && s.ops[o].owed.None? && (s.ops[o].done || s.ops[o].grain.None?)
  }

  function End(s: State, o: nat): State
    requires CanEnd(s, o)
  {
    s.(ops := s.ops - {o},
       views := if s.ops[o].sect.Some? then s.views - {s.ops[o].sect.value} else s.views)
  }

  // ---------------------------------------------------------------- segments

  /** New metadata replaces a segment's previous life: its records cannot come back. */
  function Wipe(s: State, seg: nat): State {
    s.(disk := Without(s.disk, seg), ranked := Outside(s.ranked, seg))
  }

  /** A free segment gets the next timestamp, published once its metadata is written. */
  function Stage(c: Config, s: State, seg: nat): State {
    Restamp(c, Wipe(s, seg), seg)
  }

  function Restamp(c: Config, s: State, seg: nat): State {
    s.(ts := Set(s.ts, seg, s.nextTs + 1),
       live := Set(s.live, seg, true),
       phase := Set(s.phase, seg, Open),
       cursor := Set(s.cursor, seg, 0),
       valid := Set(s.valid, seg, c.data),
       nextTs := s.nextTs + 1)
  }

  /** The metadata write fails: the device keeps the previous life, and so do its flags. */
  function StageFail(c: Config, s: State, seg: nat): State {
    s.(phase := Set(s.phase, seg, Bad),
       cursor := Set(s.cursor, seg, 0),
       valid := Set(s.valid, seg, c.data),
       nextTs := s.nextTs + 1)
  }

  /** The index's metadata replaces a segment's previous life. */
  function StageIndex(s: State, seg: nat): State {
    ToIndex(Wipe(s, seg), seg)
  }

  function ToIndex(s: State, seg: nat): State {
    s.(live := Set(s.live, seg, false), phase := Set(s.phase, seg, IndexSeg))
  }

  /** Grains handed out and given back unused: a bad segment's, or a stale relocation target's. */
  predicate CanWaste(c: Config, s: State, seg: nat, len: nat) {
    (At(s.phase, seg, Open) || At(s.phase, seg, Bad)) && seg < |s.cursor| && s.cursor[seg] + len <= c.data
  }

  function Waste(s: State, seg: nat, len: nat): State
    requires seg < |s.cursor|
  {
    s.(cursor := s.cursor[seg := s.cursor[seg] + len], valid := Sub(s.valid, seg, len))
  }

  /** Every grain released or drained (a drain is a `Waste` of what remains). */
  predicate CanSeal(c: Config, s: State, seg: nat) {
    (At(s.phase, seg, Open) || At(s.phase, seg, Bad)) && seg < |s.cursor| && s.cursor[seg] == c.data &&
    !Busy(s, seg)
  }

  /** The last valid grain of a segment outside GC is gone: free it after a grace period. */
  predicate CanRecycle(s: State, seg: nat) {
    At(s.phase, seg, Sealed) && seg < |s.valid| && s.valid[seg] == 0
  }

  function StartDrain(s: State, seg: nat): State {
    s.(phase := Set(s.phase, seg, Draining(s.views.Keys)))
  }

  /** `Rcu.GracePeriod`: synchronize, called in `StartDrain`'s state, has returned. */
  predicate CanFree(s: State, seg: nat) {
    seg < |s.phase| && s.phase[seg].Draining? && GraceOver(s.phase[seg].waits, s.views.Keys)
  }

  // ---------------------------------------------------------------- garbage collection

  /** gc_callback's test: no other recoverable segment is older than the victim. */
  ghost predicate MayDrop(ts: seq<nat>, live: seq<bool>, victim: nat) {
    forall i :: 0 <= i < |live| && i != victim && live[i] ==> TsOf(ts, i) >= TsOf(ts, victim)
  }

  ghost function GcPick(s: State, seg: nat): State {
    s.(phase := Set(s.phase, seg, Victim),
       gc := Some(Gc(seg, MayDrop(s.ts, s.live, seg), (set p | p in s.disk && p.seg == seg), None)))
  }

  predicate CanVisit(s: State, p: Pba) {
    s.gc.Some? && s.gc.value.copy.None? && p in s.gc.value.todo
  }

  function Visited(s: State, p: Pba): Option<Gc>
    requires s.gc.Some?
  {
    Some(s.gc.value.(todo := s.gc.value.todo - {p}, copy := None))
  }

  predicate CanDrop(s: State, p: Pba) {
    CanVisit(s, p) && p in s.index && p in s.disk && s.disk[p].tomb && s.gc.value.drop
  }

  function GcDrop(s: State, p: Pba): State
    requires CanDrop(s, p)
  {
    s.(index := s.index - {p},
       valid := Sub(s.valid, p.seg, s.disk[p].len),
       charge := s.charge - {p},
       graves := s.graves[s.disk[p].key := p],
       gc := Visited(s, p))
  }

  /** Lock the key's stripes and allocate in a segment newer than the victim. */
  predicate CanLock(c: Config, s: State, p: Pba, seg: nat) {
    CanVisit(s, p) && p in s.index && p in s.disk && !(s.disk[p].tomb && s.gc.value.drop) &&
    At(s.phase, seg, Open) && seg < |s.cursor| && s.cursor[seg] + s.disk[p].len <= c.data &&
    TsOf(s.ts, seg) > TsOf(s.ts, s.gc.value.victim)
  }

  function GcLock(s: State, p: Pba, seg: nat): State
    requires s.gc.Some? && p in s.disk && seg < |s.cursor|
  {
    var dst := Pba(seg, s.cursor[seg]);
    s.(cursor := s.cursor[seg := s.cursor[seg] + s.disk[p].len],
       charge := s.charge[dst := Charge(s.disk[p].len, Copied)],
       gc := Some(s.gc.value.(copy := Some(Relocation(p, dst, false)))))
  }

  predicate CanGcWrite(s: State) {
    CopyOf(s.gc).Some? && !CopyOf(s.gc).value.written && CopyOf(s.gc).value.src in s.disk
  }

  function GcWrite(s: State): State
    requires CanGcWrite(s)
  {
    var r := s.gc.value.copy.value;
    s.(disk := s.disk[r.dst := s.disk[r.src]],
       gc := Some(s.gc.value.(copy := Some(r.(written := true)))))
  }

  predicate CanRepoint(s: State) {
    CopyOf(s.gc).Some? && CopyOf(s.gc).value.written
  }

  function GcRepoint(s: State): State
    requires CanRepoint(s)
  {
    var r := s.gc.value.copy.value;
    s.(index := s.index - {r.src} + {r.dst},
       ranked := s.ranked + {r.dst},
       views := Extend(s.views, r.dst),
       valid := Sub(s.valid, r.src.seg, LenAt(s.disk, r.src)),
       charge := Assign(s.charge, r.dst, Indexed) - {r.src},
       gc := Visited(s, r.src))
  }

  function GcFail(s: State): State
    requires s.gc.Some?
  {
    var g := s.gc.value;
    s.(phase := Set(s.phase, g.victim, Sealed),
       gc := None,
       valid := if g.copy.Some? then Sub(s.valid, g.copy.value.dst.seg, LenAt(s.disk, g.copy.value.src)) else s.valid,
       charge := if g.copy.Some? then s.charge - {g.copy.value.dst} else s.charge)
  }

  predicate CanFinishGc(s: State) {
    s.gc.Some? && s.gc.value.copy.None? && s.gc.value.todo == {}
  }

  function GcDone(s: State): State
    requires s.gc.Some?
  {
    StartDrain(s, s.gc.value.victim).(gc := None)
  }

  // ---------------------------------------------------------------- crash, close and open

  ghost function LedgerOf(disk: map<Pba, Rec>, index: set<Pba>): map<Pba, Charge> {
    map p | p in index && p in disk :: Charge(disk[p].len, Indexed)
  }

  ghost predicate IsMaxTs(ts: seq<nat>, live: seq<bool>, maxTs: nat) {
    && (forall i :: 0 <= i < |ts| && i < |live| && live[i] ==> ts[i] <= maxTs)
    && (maxTs == 0 || exists i :: 0 <= i < |ts| && i < |live| && live[i] && ts[i] == maxTs)
  }

  /** Power is lost; the next open indexes the newest record of every key in the log. */
  ghost predicate CanCrash(s: State, index: set<Pba>, maxTs: nat) {
    NewestOfEach(s.ts, s.disk, index) && IsMaxTs(s.ts, s.live, maxTs)
  }

  /** A segment the directory points into goes to GC, those of its tables stay, the others are free. */
  ghost function PhaseAfter(index: set<Pba>, tables: set<nat>, seg: nat): Phase {
    if exists p :: p in index && p.seg == seg then Sealed else if seg in tables then IndexSeg else Free
  }

  ghost function PhasesAfter(n: nat, index: set<Pba>, tables: set<nat>): seq<Phase> {
    seq(n, i requires 0 <= i => PhaseAfter(index, tables, i))
  }

  /** A store just opened with directory `index`: counts and phases follow from it. */
  ghost function Restarted(c: Config, s: State, index: set<Pba>, maxTs: nat, phase: seq<Phase>, ranked: set<Pba>,
                           graves: map<Key, Pba>): State
  {
    var charge := LedgerOf(s.disk, index);
    State(
      s.ts, s.live, phase,
      seq(|s.ts|, i => c.data),
      seq(|s.ts|, i requires 0 <= i => SumIn(charge, i)),
      maxTs, s.disk, ranked, index, map[], map[], 0, None, charge, graves)
  }

  ghost function Recovered(c: Config, s: State, index: set<Pba>, maxTs: nat): State {
    Restarted(c, s, index, maxTs, PhasesAfter(|s.ts|, index, {}), s.disk.Keys, map[])
  }

  /** The store is closed with no operation under way, and opened again from the index it persisted. */
  ghost predicate CanReopen(s: State, tables: set<nat>, maxTs: nat) {
    && s.ops == map[] && s.gc.None? && IsMaxTs(s.ts, s.live, maxTs)
    && forall i :: i in tables ==> At(s.phase, i, IndexSeg)
  }

  ghost function Reopened(c: Config, s: State, tables: set<nat>, maxTs: nat): State {
    Restarted(c, s, s.index, maxTs, PhasesAfter(|s.ts|, s.index, tables), s.ranked, s.graves)
  }

  // ---------------------------------------------------------------- the machine

  datatype Step =
    | BeginStep(o: nat, rec: Rec)
    | LeaveStep(o: nat)
    | EnterStep(o: nat)
    | AllocateStep(o: nat, seg: nat)
    | WriteStep(o: nat)
    | LookupStep(o: nat, p: Pba)
    | VerifyStep(o: nat, answer: bool)
    | ForgetStep(o: nat)
    | CommitPutStep(o: nat, mode: PutMode, ifVersion: Option<(nat, nat)>)
    | CommitDelStep(o: nat, ifVersion: Option<(nat, nat)>)
    | InvalidateStep(o: nat)
    | RejectStep(o: nat)
    | RewriteStep(o: nat, mode: PutMode, ifVersion: Option<(nat, nat)>)
    | EndStep(o: nat)
    | StageStep(seg: nat)
    | StageFailStep(seg: nat)
    | StageIndexStep(seg: nat)
    | RetireIndexStep(seg: nat)
    | WasteStep(seg: nat, len: nat)
    | SealStep(seg: nat)
    | RecycleStep(seg: nat)
    | FreeStep(seg: nat)
    | GcPickStep(seg: nat)
    | GcSkipStep(p: Pba)
    | GcDropStep(p: Pba)
    | GcLockStep(p: Pba, seg: nat)
    | GcWriteStep
    | GcRepointStep
    | GcFailStep
    | GcDoneStep
    | CrashStep(index: set<Pba>, maxTs: nat)
    | ReopenStep(tables: set<nat>, maxTs: nat)

  /** A step of one operation. */
  ghost predicate NextOp(c: Config, s: State, st: Step, s': State) {
    match st
    case BeginStep(o, rec) => CanBegin(c, s, o, rec) && s' == Begin(s, o, rec)
    case LeaveStep(o) => CanLeave(s, o) && s' == Leave(s, o)
    case EnterStep(o) => CanEnter(s, o) && s' == Enter(s, o)
    case AllocateStep(o, seg) => CanAllocate(c, s, o, seg) && s' == Allocate(s, o, seg)
    case WriteStep(o) => CanWrite(s, o) && s' == Write(s, o)
    case LookupStep(o, p) => CanLookup(s, o, p) && s' == Lookup(s, o, p)
    case VerifyStep(o, answer) => CanVerify(s, o, answer) && s' == Verify(s, o, answer)
    case ForgetStep(o) => o in s.ops && s' == ForgetProbe(s, o)
    case CommitPutStep(o, mode, ifVersion) =>
      CanCommitPut(c, s, o, mode, ifVersion) && s' == Publish(s, o, DecidePut(c, s, s.ops[o], mode, ifVersion).prev)
    case CommitDelStep(o, ifVersion) =>
      CanCommitDel(c, s, o, ifVersion) && s' == Publish(s, o, DecideDel(c, s, s.ops[o], ifVersion).prev)
    case InvalidateStep(o) => CanInvalidate(s, o) && s' == Invalidate(s, o)
    case RejectStep(o) => CanReject(s, o) && s' == Reject(s, o)
    case RewriteStep(o, mode, ifVersion) => CanRewrite(c, s, o, mode, ifVersion) && s' == Rewritten(s, o)
    case EndStep(o) => CanEnd(s, o) && s' == End(s, o)
    case _ => false
  }

  /** A segment is staged, filled, sealed or freed. */
  ghost predicate NextSegment(c: Config, s: State, st: Step, s': State) {
    match st
    case StageStep(seg) => At(s.phase, seg, Free) && s' == Stage(c, s, seg)
    case StageFailStep(seg) => At(s.phase, seg, Free) && s' == StageFail(c, s, seg)
    case StageIndexStep(seg) => At(s.phase, seg, Free) && s' == StageIndex(s, seg)
    case RetireIndexStep(seg) => At(s.phase, seg, IndexSeg) && s' == StartDrain(s, seg)
    case WasteStep(seg, len) => CanWaste(c, s, seg, len) && s' == Waste(s, seg, len)
    case SealStep(seg) => CanSeal(c, s, seg) && s' == s.(phase := Set(s.phase, seg, Sealed))
    case RecycleStep(seg) => CanRecycle(s, seg) && s' == StartDrain(s, seg)
    case FreeStep(seg) => CanFree(s, seg) && s' == s.(phase := Set(s.phase, seg, Free))
    case _ => false
  }

  ghost predicate NextGc(c: Config, s: State, st: Step, s': State) {
    match st
    case GcPickStep(seg) => At(s.phase, seg, Sealed) && s.gc.None? && s' == GcPick(s, seg)
    case GcSkipStep(p) => CanVisit(s, p) && p !in s.index && s' == s.(gc := Visited(s, p))
    case GcDropStep(p) => CanDrop(s, p) && s' == GcDrop(s, p)
    case GcLockStep(p, seg) => CanLock(c, s, p, seg) && s' == GcLock(s, p, seg)
    case GcWriteStep => CanGcWrite(s) && s' == GcWrite(s)
    case GcRepointStep => CanRepoint(s) && s' == GcRepoint(s)
    case GcFailStep => s.gc.Some? && s' == GcFail(s)
    case GcDoneStep => CanFinishGc(s) && s' == GcDone(s)
    case _ => false
  }

  /** The store is opened again, after a crash or a clean close. */
  ghost predicate NextRestart(c: Config, s: State, st: Step, s': State) {
    match st
    case CrashStep(index, maxTs) => CanCrash(s, index, maxTs) && s' == Recovered(c, s, index, maxTs)
    case ReopenStep(tables, maxTs) => CanReopen(s, tables, maxTs) && s' == Reopened(c, s, tables, maxTs)
    case _ => false
  }

  ghost predicate Next(c: Config, s: State, st: Step, s': State) {
    NextOp(c, s, st, s') || NextSegment(c, s, st, s') || NextGc(c, s, st, s') || NextRestart(c, s, st, s')
  }

  ghost predicate Init(c: Config, s: State) {
    && |s.live| == |s.ts| && |s.phase| == |s.ts| && |s.cursor| == |s.ts| && |s.valid| == |s.ts|
    && (forall i :: 0 <= i < |s.ts| ==>
          !s.live[i] && s.phase[i] == Free && s.cursor[i] == c.data && s.valid[i] == 0)
    && s.nextTs == 0 && s.disk == map[] && s.ranked == {} && s.index == {} && s.ops == map[]
    && s.views == map[] && s.nextSect == 0 && s.gc == None && s.charge == map[] && s.graves == map[]
  }

  // ---------------------------------------------------------------- invariant

  ghost predicate Shape(c: Config, ts: seq<nat>, live: seq<bool>, phase: seq<Phase>, cursor: seq<nat>,
      valid: seq<int>) {
    && |live| == |ts| && |phase| == |ts| && |cursor| == |ts| && |valid| == |ts|
    && (forall i :: 0 <= i < |cursor| ==> cursor[i] <= c.data)
    && (forall i :: 0 <= i < |phase| && phase[i] != Open && phase[i] != Bad ==> cursor[i] == c.data)
  }

  /** Live segments have distinct timestamps, none above the allocation count. */
  ghost predicate Stamped(ts: seq<nat>, live: seq<bool>, phase: seq<Phase>, nextTs: nat) {
    && DistinctTs(ts, live)
    && (forall i :: 0 <= i < |ts| && i < |live| && live[i] ==> ts[i] <= nextTs)
    && (forall i :: 0 <= i < |phase| && i < |live| && phase[i] == Open ==> live[i])
  }

  /** Records lie in live segments; an open segment's lie below its cursor. */
  ghost predicate OnDisk(disk: map<Pba, Rec>, live: seq<bool>, phase: seq<Phase>, cursor: seq<nat>) {
    forall p :: p in disk ==>
      && disk[p].len >= 1
      && p.seg < |live| && live[p.seg]
      && p.seg < |phase| && phase[p.seg] != IndexSeg
      && p.seg < |cursor| && (phase[p.seg] == Open ==> p.off < cursor[p.seg])
  }

  ghost predicate Fits(c: Config, disk: map<Pba, Rec>) {
    forall p :: p in disk ==> p.off < c.data
  }

  /** Counted grains are allocated ones. */
  ghost predicate Below(charge: map<Pba, Charge>, cursor: seq<nat>) {
    forall p :: p in charge ==> charge[p].len >= 1 && p.seg < |cursor| && p.off < cursor[p.seg]
  }

  ghost predicate IndexedOk(charge: map<Pba, Charge>, index: set<Pba>, phase: seq<Phase>) {
    forall p :: p in charge && charge[p].owner == Indexed ==> p in index && Using(phase, p.seg)
  }

  ghost predicate HeldOk(charge: map<Pba, Charge>, ops: map<nat, Op>, phase: seq<Phase>) {
    forall p :: p in charge && charge[p].owner.Held? ==>
      var o := charge[p].owner.op;
      o in ops && ops[o].grain == Some(p) && !ops[o].done && At(phase, p.seg, Open)
  }

  ghost predicate OwedOk(charge: map<Pba, Charge>, ops: map<nat, Op>, phase: seq<Phase>) {
    forall p :: p in charge && charge[p].owner.Owed? ==>
      var o := charge[p].owner.op;
      && o in ops && ops[o].owed == Some(p) && ops[o].sect.Some?
      && (Using(phase, p.seg) || Drains(phase, p.seg, ops[o].sect.value))
  }

  ghost predicate CopiedOk(charge: map<Pba, Charge>, gc: Option<Gc>, phase: seq<Phase>) {
    forall p :: p in charge && charge[p].owner == Copied ==>
      CopyOf(gc).Some? && CopyOf(gc).value.dst == p && At(phase, p.seg, Open)
  }

  /** The directory points at ranked records it is charged for. */
  ghost predicate Backed(index: set<Pba>, disk: map<Pba, Rec>, ranked: set<Pba>, charge: map<Pba, Charge>) {
    forall p :: p in index ==>
      p in disk && p in ranked && p in charge && charge[p] == Charge(disk[p].len, Indexed)
  }

  /** At most one entry, live or deleted, per key. */
  ghost predicate Unique(index: set<Pba>, disk: map<Pba, Rec>) {
    forall p, q :: p in index && q in index && p in disk && q in disk && disk[p].key == disk[q].key ==> p == q
  }

  /** An allocation not yet committed. */
  ghost predicate Holds(o: nat, op: Op, charge: map<Pba, Charge>, ranked: set<Pba>, disk: map<Pba, Rec>) {
    op.grain.Some? && !op.done ==>
      var g := op.grain.value;
      && g in charge && charge[g] == Charge(op.rec.len, Held(o))
      && g !in ranked
      && (op.written ==> g in disk && disk[g] == op.rec)
      && (!op.written ==> g !in disk)
  }

  ghost predicate Owes(o: nat, op: Op, charge: map<Pba, Charge>, disk: map<Pba, Rec>) {
    op.owed.Some? ==>
      var m := op.owed.value;
      m in disk && m in charge && charge[m] == Charge(disk[m].len, Owed(o))
  }

  ghost predicate OpsHold(ops: map<nat, Op>, charge: map<Pba, Charge>, ranked: set<Pba>, disk: map<Pba, Rec>) {
    forall o :: o in ops ==> Holds(o, ops[o], charge, ranked, disk)
  }

  ghost predicate OpsOwe(ops: map<nat, Op>, charge: map<Pba, Charge>, disk: map<Pba, Rec>) {
    forall o :: o in ops ==> Owes(o, ops[o], charge, disk)
  }

  ghost predicate Form(op: Op, phase: seq<Phase>) {
    && op.rec.len >= 1
    && (op.done ==> op.sect.Some? && op.grain.Some? && op.written)
    && (op.owed.Some? ==> op.done)
    && (op.sect.None? ==> op.seen == map[] && op.reading == None)
    && (op.grain.Some? ==> At(phase, op.grain.value.seg, Open))
  }

  ghost predicate Forms(ops: map<nat, Op>, phase: seq<Phase>) {
    forall o :: o in ops ==> Form(ops[o], phase)
  }

  /** Open sections belong to one operation each. */
  ghost predicate Sections(ops: map<nat, Op>, open: set<nat>, nextSect: nat) {
    && (forall x :: x in open ==> x < nextSect)
    && (forall o :: o in ops && ops[o].sect.Some? ==> ops[o].sect.value in open)
    && (forall o, o2 :: o in ops && o2 in ops && o != o2 && ops[o].sect.Some? ==> ops[o].sect != ops[o2].sect)
  }

  /** What a probe recorded is true, of locations its section keeps intact. */
  ghost predicate ProbeTrue(op: Op, views: map<nat, set<Pba>>, disk: map<Pba, Rec>) {
    op.sect.Some? && op.sect.value in views ==>
      && (op.reading.Some? ==> op.reading.value in views[op.sect.value])
      && (forall p :: p in op.seen ==>
            p in views[op.sect.value] && p in disk && op.seen[p] == (disk[p].key == op.rec.key))
  }

  ghost predicate Probes(ops: map<nat, Op>, views: map<nat, set<Pba>>, disk: map<Pba, Rec>) {
    forall o :: o in ops ==> ProbeTrue(ops[o], views, disk)
  }

  /** Whatever the directory held during an open section stays on the device until it ends. */
  ghost predicate Protected(views: map<nat, set<Pba>>, disk: map<Pba, Rec>, phase: seq<Phase>) {
    forall x, p :: x in views && p in views[x] ==> p in disk && (Using(phase, p.seg) || Drains(phase, p.seg, x))
  }

  ghost predicate Visible(views: map<nat, set<Pba>>, index: set<Pba>) {
    forall x :: x in views ==> index <= views[x]
  }

  /** No other recoverable segment is older than `seg`. */
  ghost predicate OldestLive(ts: seq<nat>, live: seq<bool>, seg: nat) {
    seg < |live| && live[seg] ==>
      forall i :: 0 <= i < |live| && i != seg && live[i] ==> TsOf(ts, seg) < TsOf(ts, i)
  }

  /** The walk still has every indexed record of the victim ahead of it. */
  ghost predicate Walking(gc: Option<Gc>, phase: seq<Phase>, index: set<Pba>, disk: map<Pba, Rec>) {
    && (forall i :: 0 <= i < |phase| && phase[i] == Victim ==> gc.Some? && gc.value.victim == i)
    && (gc.Some? ==>
          && At(phase, gc.value.victim, Victim)
          && (forall p :: p in index && p.seg == gc.value.victim ==> p in gc.value.todo)
          && (forall p :: p in gc.value.todo ==> p in disk && p.seg == gc.value.victim))
  }

  ghost predicate DropsSafely(gc: Option<Gc>, ts: seq<nat>, live: seq<bool>) {
    gc.Some? && gc.value.drop ==> OldestLive(ts, live, gc.value.victim)
  }

  ghost predicate Copying(gc: Option<Gc>, ts: seq<nat>, phase: seq<Phase>, index: set<Pba>, disk: map<Pba, Rec>,
                          ranked: set<Pba>, charge: map<Pba, Charge>)
  {
    CopyOf(gc).Some? ==>
      var r := CopyOf(gc).value;
      && r.src in index && r.src in gc.value.todo && r.src in disk
      && At(phase, r.dst.seg, Open)
      && TsOf(ts, r.dst.seg) > TsOf(ts, gc.value.victim)
      && r.dst !in ranked
      && r.dst in charge && charge[r.dst] == Charge(disk[r.src].len, Copied)
      && (r.written ==> r.dst in disk && disk[r.dst] == disk[r.src])
      && (!r.written ==> r.dst !in disk)
  }

  /** The directory's entry of a key is at least as new as every ranked record of it. */
  ghost predicate Newest(ranked: set<Pba>, index: set<Pba>, disk: map<Pba, Rec>, ts: seq<nat>) {
    && ranked <= disk.Keys
    && (forall p, q :: p in ranked && q in index && p in disk && q in disk && disk[p].key == disk[q].key ==>
          AtLeast(ts, q, p))
  }

  /**
    A ranked record of a key the directory no longer knows sits in the oldest recoverable segment,
    which takes no more writes, and is covered there by a ranked tombstone.
   */
  ghost predicate Buried(p: Pba, disk: map<Pba, Rec>, ranked: set<Pba>, graves: map<Key, Pba>,
                         ts: seq<nat>, live: seq<bool>, phase: seq<Phase>)
    requires p in disk
  {
    && p.seg < |phase| && phase[p.seg] != Open
    && OldestLive(ts, live, p.seg)
    && disk[p].key in graves
    && var t := graves[disk[p].key];
       t in ranked && t in disk && t.seg == p.seg && p.off <= t.off && disk[t].tomb && disk[t].key == disk[p].key
  }

  ghost predicate Burials(ranked: set<Pba>, index: set<Pba>, disk: map<Pba, Rec>, graves: map<Key, Pba>,
                          ts: seq<nat>, live: seq<bool>, phase: seq<Phase>)
  {
    forall p :: p in ranked && p in disk && !Has(disk, index, disk[p].key) ==>
      Buried(p, disk, ranked, graves, ts, live, phase)
  }

  /** salsa's valid count of every segment is explained by the ledger. */
  ghost predicate Counted(c: Config, valid: seq<int>, cursor: seq<nat>, charge: map<Pba, Charge>) {
    forall i :: 0 <= i < |valid| && i < |cursor| ==> valid[i] == c.data - cursor[i] + SumIn(charge, i)
  }

  ghost predicate Inv(c: Config, s: State) {
    && Shape(c, s.ts, s.live, s.phase, s.cursor, s.valid)
    && Stamped(s.ts, s.live, s.phase, s.nextTs)
    && OnDisk(s.disk, s.live, s.phase, s.cursor)
    && Fits(c, s.disk)
    && Below(s.charge, s.cursor)
    && IndexedOk(s.charge, s.index, s.phase)
    && HeldOk(s.charge, s.ops, s.phase)
    && OwedOk(s.charge, s.ops, s.phase)
    && CopiedOk(s.charge, s.gc, s.phase)
    && Backed(s.index, s.disk, s.ranked, s.charge)
    && Unique(s.index, s.disk)
    && OpsHold(s.ops, s.charge, s.ranked, s.disk)
    && OpsOwe(s.ops, s.charge, s.disk)
    && Forms(s.ops, s.phase)
    && Sections(s.ops, s.views.Keys, s.nextSect)
    && Probes(s.ops, s.views, s.disk)
    && Protected(s.views, s.disk, s.phase)
    && Visible(s.views, s.index)
    && Walking(s.gc, s.phase, s.index, s.disk)
    && DropsSafely(s.gc, s.ts, s.live)
    && Copying(s.gc, s.ts, s.phase, s.index, s.disk, s.ranked, s.charge)
    && Newest(s.ranked, s.index, s.disk, s.ts)
    && Burials(s.ranked, s.index, s.disk, s.graves, s.ts, s.live, s.phase)
    && Counted(c, s.valid, s.cursor, s.charge)
  }
}
