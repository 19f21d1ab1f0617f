/**
  The tables behind the directory of the protocol: what inserts, updates and removals leave in them is
  one entry for each location of the protocol's `index`, so that the tables a close persists and an
  open restores are that index, and its valid counts can be taken from them.
 */
module DirectoryIndex {
  import opened Common
  import opened Log
  import opened LogProtocol
  import opened LogProofs
  import opened LogTheorems
  import opened LogRefinement
  import opened LogLayout
  import opened HashTables
  import opened RestoreCounts
  import Directory
  import HashEntry
  import IndexCrash
  import Recovery

  /** Buckets of a table, grains of a segment with its metadata, and the hash of a key. */
  datatype Geometry = Geometry(buckets: nat, grains: nat, hash: Key -> nat)

  ghost predicate Suits(c: Config, g: Geometry) {
    g.buckets > 0 && g.grains > 0 && c.data <= g.grains
  }

  /** The grain of the device an entry's 40-bit address names. */
  function Address(g: Geometry, p: Pba): nat {
    p.seg * g.grains + p.off
  }

  function Located(g: Geometry, address: nat): Pba
    requires g.grains > 0
  {
    Pba(address / g.grains, address % g.grains)
  }

  lemma LocatedIs(g: Geometry, p: Pba)
    requires p.off < g.grains
    ensures Located(g, Address(g, p)) == p
  {
    Quotient(Address(g, p), g.grains, p.seg, p.off);
  }

  function Home(g: Geometry, k: Key): nat
    requires g.buckets > 0
  {
    g.hash(k) % g.buckets
  }

  function TagOf(g: Geometry, k: Key): nat
    requires g.buckets > 0
  {
    g.hash(k) / g.buckets % HashEntry.TAG_RANGE
  }

  /** The entry of key `k` for location `p`, of size `kv`. */
  function ItemAt(g: Geometry, k: Key, kv: nat, p: Pba): Item
    requires g.buckets > 0
  {
    Item(Home(g, k), TagOf(g, k), kv, Address(g, p))
  }

  /** The entry a commit leaves for the record at `p`. */
  function ItemFor(g: Geometry, rec: Rec, p: Pba): Item
    requires g.buckets > 0
  {
    ItemAt(g, rec.key, Recovery.Kv(rec), p)
  }

  ghost function Items(g: Geometry, disk: map<Pba, Rec>, index: set<Pba>): set<Item>
    requires g.buckets > 0
  {
    set p | p in index && p in disk :: ItemFor(g, disk[p], p)
  }

  /** The tables' contents are the directory: one entry for each location, and no other. */
  ghost predicate Represents(g: Geometry, disk: map<Pba, Rec>, index: set<Pba>, view: multiset<Item>)
    requires g.buckets > 0
  {
    view == multiset(Items(g, disk, index))
  }

  /** Directory locations are on the device, inside their segments. */
  ghost predicate Bounded(g: Geometry, disk: map<Pba, Rec>, index: set<Pba>) {
    index <= disk.Keys && forall p :: p in index ==> p.off < g.grains
  }

  // ---------------------------------------------------------------- table operations keep it

  lemma SameAddress(g: Geometry, p: Pba, q: Pba)
    requires p.off < g.grains && q.off < g.grains && Address(g, p) == Address(g, q)
    ensures p == q
  {
    LocatedIs(g, p);
    LocatedIs(g, q);
  }

  /** An entry of the tables for location `p` of the directory is the one its record calls for. */
  lemma OnlyItem(g: Geometry, disk: map<Pba, Rec>, index: set<Pba>, view: multiset<Item>, p: Pba, x: Item)
    requires g.buckets > 0 && Represents(g, disk, index, view) && Bounded(g, disk, index)
    requires p.off < g.grains && x in view && x.pba == Address(g, p)
    ensures p in index && x == ItemFor(g, disk[p], p)
  {
    var q :| q in index && q in disk && x == ItemFor(g, disk[q], q);
    SameAddress(g, p, q);
  }

  /** So no update or removal of a directory location is refused. */
  lemma EntryIsThere(g: Geometry, disk: map<Pba, Rec>, index: set<Pba>, view: multiset<Item>, p: Pba)
    requires g.buckets > 0 && Represents(g, disk, index, view) && p in index && p in disk
    ensures ItemFor(g, disk[p], p) in view
  {
    assert ItemFor(g, disk[p], p) in Items(g, disk, index);
  }

  lemma AddOne<T>(s: set<T>, x: T)
    requires x !in s
    ensures multiset(s + {x}) == multiset(s) + multiset{x}
  {
  }

  lemma MoreItems(g: Geometry, disk: map<Pba, Rec>, index: set<Pba>, p: Pba)
    requires g.buckets > 0 && Bounded(g, disk, index) && p !in index && p in disk && p.off < g.grains
    ensures ItemFor(g, disk[p], p) !in Items(g, disk, index)
    ensures Items(g, disk, index + {p}) == Items(g, disk, index) + {ItemFor(g, disk[p], p)}
  {
    forall q | q in index ensures ItemFor(g, disk[q], q) != ItemFor(g, disk[p], p) {
      if Address(g, p) == Address(g, q) {
        SameAddress(g, p, q);
      }
    }
    var more := Items(g, disk, index + {p});
    assert ItemFor(g, disk[p], p) in more;
    forall q | q in index ensures ItemFor(g, disk[q], q) in more {
      assert q in index + {p};
    }
  }

  lemma InsertKeeps(g: Geometry, disk: map<Pba, Rec>, index: set<Pba>, p: Pba, view: multiset<Item>)
    requires g.buckets > 0 && Represents(g, disk, index, view) && Bounded(g, disk, index)
    requires p !in index && p in disk && p.off < g.grains
    ensures Represents(g, disk, index + {p}, view + multiset{ItemFor(g, disk[p], p)})
  {
    MoreItems(g, disk, index, p);
    AddOne(Items(g, disk, index), ItemFor(g, disk[p], p));
  }

  lemma RemoveKeeps(g: Geometry, disk: map<Pba, Rec>, index: set<Pba>, p: Pba, x: Item, view: multiset<Item>,
                    view': multiset<Item>)
    requires g.buckets > 0 && Represents(g, disk, index, view) && Bounded(g, disk, index) && p in index
    requires x.pba == Address(g, p) && view' + multiset{x} == view
    ensures Represents(g, disk, index - {p}, view')
  {
    assert x in view;
    OnlyItem(g, disk, index, view, p, x);
    var rest := index - {p};
    MoreItems(g, disk, rest, p);
    assert rest + {p} == index;
    AddOne(Items(g, disk, rest), x);
    Cancel(view', multiset(Items(g, disk, rest)), multiset{x});
  }

  lemma UpdateKeeps(g: Geometry, disk: map<Pba, Rec>, index: set<Pba>, p: Pba, x: Item, q: Pba, view: multiset<Item>,
                    view': multiset<Item>)
    requires g.buckets > 0 && Represents(g, disk, index, view) && Bounded(g, disk, index) && p in index
    requires x in view && x.pba == Address(g, p) && q !in index && q in disk && q.off < g.grains
    requires view' + multiset{x} == view + multiset{ItemFor(g, disk[q], q)}
    ensures Represents(g, disk, index - {p} + {q}, view')
  {
    var rest, y := view - multiset{x}, ItemFor(g, disk[q], q);
    assert rest + multiset{x} == view;
    RemoveKeeps(g, disk, index, p, x, view, rest);
    InsertKeeps(g, disk, index - {p}, q, rest);
    assert (rest + multiset{y}) + multiset{x} == view + multiset{y};
    Cancel(view', rest + multiset{y}, multiset{x});
  }

  lemma SameItems(g: Geometry, disk: map<Pba, Rec>, disk': map<Pba, Rec>, index: set<Pba>, view: multiset<Item>)
    requires g.buckets > 0 && Represents(g, disk, index, view)
    requires forall p :: p in index ==> p in disk && p in disk' && disk'[p] == disk[p]
    ensures Represents(g, disk', index, view)
  {
    assert Items(g, disk', index) == Items(g, disk, index);
  }

  // ---------------------------------------------------------------- runs

  /** `HashTable.UpdateLocked` of location `p` of key `k`, now the record at `q`. */
  ghost predicate Updates(g: Geometry, k: Key, p: Pba, rec: Rec, q: Pba, view: multiset<Item>, view': multiset<Item>)
    requires g.buckets > 0
  {
    exists was ::
      && ItemAt(g, k, was, p) in view
      && view' + multiset{ItemAt(g, k, was, p)} == view + multiset{ItemFor(g, rec, q)}
  }

  /** `HashTable.RemoveLocked` of location `p` of key `k`. */
  ghost predicate Removes(g: Geometry, k: Key, p: Pba, view: multiset<Item>, view': multiset<Item>)
    requires g.buckets > 0
  {
    exists was :: view' + multiset{ItemAt(g, k, was, p)} == view
  }

  ghost predicate Commits(g: Geometry, op: Op, prev: Option<Pba>, view: multiset<Item>, view': multiset<Item>)
    requires g.buckets > 0
  {
    op.grain.Some? &&
    if prev.None? then view' == view + multiset{ItemFor(g, op.rec, op.grain.value)}
    else Updates(g, op.rec.key, prev.value, op.rec, op.grain.value, view, view')
  }

  /**
    What a step does to the contents of the tables: a commit inserts or updates, a relocation
    updates, a dropped tombstone is removed, recovery fills new tables (`RecoverFollows`), and nothing
    else, growing (`GrowKeepsWhole`) and reopening (`ReopenFollows`) included, changes them.
   */
  ghost predicate Follows(g: Geometry, s: State, st: Step, s': State, view: multiset<Item>, view': multiset<Item>)
    requires g.buckets > 0
  {
    match st
    case CommitPutStep(o, _, _) => o in s.ops && o in s'.ops && Commits(g, s.ops[o], s'.ops[o].owed, view, view')
    case CommitDelStep(o, _) => o in s.ops && o in s'.ops && Commits(g, s.ops[o], s'.ops[o].owed, view, view')
    case GcRepointStep =>
      var r := CopyOf(s.gc);
      r.Some? && r.value.src in s.disk &&
      Updates(g, s.disk[r.value.src].key, r.value.src, s.disk[r.value.src], r.value.dst, view, view')
    case GcDropStep(p) => p in s.disk && Removes(g, s.disk[p].key, p, view, view')
    case CrashStep(index, _) => Represents(g, s.disk, index, view')
    case _ => view' == view
  }

  lemma IndexBounded(c: Config, g: Geometry, s: State)
    requires Suits(c, g) && Fits(c, s.disk) && Backed(s.index, s.disk, s.ranked, s.charge)
    ensures Bounded(g, s.disk, s.index)
    ensures forall p :: p in s.disk ==> p.off < g.grains
  {
  }

  lemma PublishFollows(c: Config, g: Geometry, s: State, o: nat, prev: Option<Pba>, view: multiset<Item>,
                       view': multiset<Item>)
    requires Suits(c, g) && Fits(c, s.disk) && Backed(s.index, s.disk, s.ranked, s.charge)
    requires OpsHold(s.ops, s.charge, s.ranked, s.disk) && ReadyToCommit(s, o)
    requires prev.Some? ==> prev.value in s.index && s.disk[prev.value].key == s.ops[o].rec.key
    requires Represents(g, s.disk, s.index, view) && Commits(g, s.ops[o], prev, view, view')
    ensures Represents(g, s.disk, Publish(s, o, prev).index, view')
  {
    var op := s.ops[o];
    IndexBounded(c, g, s);
    assert Holds(o, op, s.charge, s.ranked, s.disk);
    if prev.None? {
      InsertKeeps(g, s.disk, s.index, op.grain.value, view);
    } else {
      var was :| ItemAt(g, op.rec.key, was, prev.value) in view &&
                 view' + multiset{ItemAt(g, op.rec.key, was, prev.value)} ==
                 view + multiset{ItemFor(g, op.rec, op.grain.value)};
      UpdateKeeps(g, s.disk, s.index, prev.value, ItemAt(g, op.rec.key, was, prev.value), op.grain.value, view, view');
    }
  }

  lemma RepointFollows(c: Config, g: Geometry, s: State, view: multiset<Item>, view': multiset<Item>)
    requires Suits(c, g) && Fits(c, s.disk) && Backed(s.index, s.disk, s.ranked, s.charge)
    requires Copying(s.gc, s.ts, s.phase, s.index, s.disk, s.ranked, s.charge) && CanRepoint(s)
    requires Represents(g, s.disk, s.index, view) && Follows(g, s, GcRepointStep, GcRepoint(s), view, view')
    ensures Represents(g, s.disk, GcRepoint(s).index, view')
  {
    var r := CopyOf(s.gc).value;
    var rec := s.disk[r.src];
    IndexBounded(c, g, s);
    var was :| ItemAt(g, rec.key, was, r.src) in view &&
               view' + multiset{ItemAt(g, rec.key, was, r.src)} == view + multiset{ItemFor(g, rec, r.dst)};
    UpdateKeeps(g, s.disk, s.index, r.src, ItemAt(g, rec.key, was, r.src), r.dst, view, view');
  }

  lemma DropFollows(c: Config, g: Geometry, s: State, p: Pba, view: multiset<Item>, view': multiset<Item>)
    requires Suits(c, g) && Fits(c, s.disk) && Backed(s.index, s.disk, s.ranked, s.charge) && CanDrop(s, p)
    requires Represents(g, s.disk, s.index, view) && Removes(g, s.disk[p].key, p, view, view')
    ensures Represents(g, s.disk, GcDrop(s, p).index, view')
  {
    IndexBounded(c, g, s);
    var was :| view' + multiset{ItemAt(g, s.disk[p].key, was, p)} == view;
    RemoveKeeps(g, s.disk, s.index, p, ItemAt(g, s.disk[p].key, was, p), view, view');
  }

  /** What recovery does to the tables with the record it meets at `p`. */
  ghost predicate Recovers(g: Geometry, ts: seq<nat>, entries: map<Key, Recovery.Entry>, p: Pba, r: Rec,
                           view: multiset<Item>, view': multiset<Item>)
    requires g.buckets > 0
  {
    if r.key !in entries then view' == view + multiset{ItemFor(g, r, p)}
    else if Newer(ts, p, entries[r.key].pba) then Updates(g, r.key, entries[r.key].pba, r, p, view, view')
    else view' == view
  }

  lemma EntryReplaced(ts: seq<nat>, seen: map<Pba, Rec>, entries: map<Key, Recovery.Entry>, p: Pba, r: Rec)
    requires Recovery.IsNewest(ts, seen, entries) && p !in seen
    ensures var index := Recovery.IndexSet(entries);
            Recovery.IndexSet(entries[r.key := Recovery.Entry(p, Recovery.Kv(r))]) ==
            (if r.key in entries then index - {entries[r.key].pba} else index) + {p}
  {
    var entries' := entries[r.key := Recovery.Entry(p, Recovery.Kv(r))];
    assert entries'[r.key].pba == p;
    forall k | k in entries && k != r.key ensures entries[k].pba in Recovery.IndexSet(entries') {
      assert entries'[k] == entries[k];
    }
  }

  /** Recovery builds tables that hold its directory, record by record. */
  lemma RecoverFollows(g: Geometry, ts: seq<nat>, seen: map<Pba, Rec>, entries: map<Key, Recovery.Entry>, p: Pba,
                       r: Rec, view: multiset<Item>, view': multiset<Item>)
    requires g.buckets > 0 && Recovery.IsNewest(ts, seen, entries) && p !in seen && p.off < g.grains
    requires forall q :: q in seen ==> q.off < g.grains
    requires Represents(g, seen, Recovery.IndexSet(entries), view) && Recovers(g, ts, entries, p, r, view, view')
    ensures Represents(g, seen[p := r], Recovery.IndexSet(Recovery.WithRecord(ts, entries, p, r)), view')
  {
    var index, seen' := Recovery.IndexSet(entries), seen[p := r];
    SameItems(g, seen, seen', index, view);
    if r.key !in entries {
      EntryReplaced(ts, seen, entries, p, r);
      InsertKeeps(g, seen', index, p, view);
    } else if Newer(ts, p, entries[r.key].pba) {
      var m := entries[r.key].pba;
      EntryReplaced(ts, seen, entries, p, r);
      var was :| ItemAt(g, r.key, was, m) in view &&
                 view' + multiset{ItemAt(g, r.key, was, m)} == view + multiset{ItemFor(g, r, p)};
      UpdateKeeps(g, seen', index, m, ItemAt(g, r.key, was, m), p, view, view');
    }
  }

  lemma CommitFollows(c: Config, g: Geometry, s: State, st: Step, s': State, view: multiset<Item>,
                      view': multiset<Item>)
    requires Suits(c, g) && Inv(c, s) && NextOp(c, s, st, s') && (st.CommitPutStep? || st.CommitDelStep?)
    requires Represents(g, s.disk, s.index, view) && Follows(g, s, st, s', view, view')
    ensures Represents(g, s'.disk, s'.index, view')
  {
    match st
    case CommitPutStep(o, mode, ifVersion) =>
      PutJustified(c, s, o, mode, ifVersion);
      PublishFollows(c, g, s, o, DecidePut(c, s, s.ops[o], mode, ifVersion).prev, view, view');
    case CommitDelStep(o, ifVersion) =>
      DelJustified(c, s, o, ifVersion);
      PublishFollows(c, g, s, o, DecideDel(c, s, s.ops[o], ifVersion).prev, view, view');
  }

  lemma GcFollows(c: Config, g: Geometry, s: State, st: Step, s': State, view: multiset<Item>, view': multiset<Item>)
    requires Suits(c, g) && Inv(c, s) && NextGc(c, s, st, s') && (st.GcRepointStep? || st.GcDropStep?)
    requires Represents(g, s.disk, s.index, view) && Follows(g, s, st, s', view, view')
    ensures Represents(g, s'.disk, s'.index, view')
  {
    if st.GcRepointStep? {
      RepointFollows(c, g, s, view, view');
    } else {
      DropFollows(c, g, s, st.p, view, view');
    }
  }

  lemma StepFollows(c: Config, g: Geometry, s: State, st: Step, s': State, view: multiset<Item>, view': multiset<Item>)
    requires Suits(c, g) && Inv(c, s) && Next(c, s, st, s')
    requires Represents(g, s.disk, s.index, view) && Follows(g, s, st, s', view, view')
    ensures Represents(g, s'.disk, s'.index, view')
  {
    if ChangesIndex(st) && !st.CrashStep? {
      ChangeFollows(c, g, s, st, s', view, view');
    } else {
      QuietFollows(c, g, s, st, s', view, view');
    }
  }

  lemma ChangeFollows(c: Config, g: Geometry, s: State, st: Step, s': State, view: multiset<Item>,
                      view': multiset<Item>)
    requires Suits(c, g) && Inv(c, s) && Next(c, s, st, s') && ChangesIndex(st) && !st.CrashStep?
    requires Represents(g, s.disk, s.index, view) && Follows(g, s, st, s', view, view')
    ensures Represents(g, s'.disk, s'.index, view')
  {
    if st.CommitPutStep? || st.CommitDelStep? {
      CommitFollows(c, g, s, st, s', view, view');
    } else {
      GcFollows(c, g, s, st, s', view, view');
    }
  }

  lemma QuietFollows(c: Config, g: Geometry, s: State, st: Step, s': State, view: multiset<Item>, view': multiset<Item>)
    requires Suits(c, g) && Inv(c, s) && Next(c, s, st, s') && (!ChangesIndex(st) || st.CrashStep?)
    requires Represents(g, s.disk, s.index, view) && Follows(g, s, st, s', view, view')
    ensures Represents(g, s'.disk, s'.index, view')
  {
    if !st.CrashStep? {
      IndexStays(c, s, st, s');
      IndexedStay(c, s, st, s');
      SameItems(g, s.disk, s'.disk, s.index, view);
    }
  }

  ghost predicate FollowsAt(g: Geometry, r: Run, views: seq<multiset<Item>>, i: nat)
    requires g.buckets > 0
  {
    && i < |r.steps| && i + 1 < |r.states| && i + 1 < |views|
    && Follows(g, r.states[i], r.steps[i], r.states[i + 1], views[i], views[i + 1])
  }

  /** `views` are the contents of the tables along run `r`, empty at first. */
  ghost predicate Views(g: Geometry, r: Run, views: seq<multiset<Item>>)
    requires g.buckets > 0
  {
    && |views| == |r.states| && |views| > 0 && views[0] == multiset{}
    && forall i: nat :: i < |r.steps| ==> FollowsAt(g, r, views, i)
  }

  /** In every state of every run the tables hold the directory of the protocol. */
  lemma {:induction false} TablesHoldTheIndex(c: Config, g: Geometry, r: Run, views: seq<multiset<Item>>, i: nat)
    requires Suits(c, g) && IsRun(c, r) && Views(g, r, views) && i < |r.states|
    ensures Represents(g, r.states[i].disk, r.states[i].index, views[i])
  {
    if i == 0 {
      assert Items(g, r.states[0].disk, {}) == {};
    } else {
      TablesHoldTheIndex(c, g, r, views, i - 1);
      RunKeeps(c, r, i - 1);
      assert StepAt(c, r, i - 1) && FollowsAt(g, r, views, i - 1);
      StepFollows(c, g, r.states[i - 1], r.steps[i - 1], r.states[i], views[i - 1], views[i]);
    }
  }

  // ---------------------------------------------------------------- from the tables to their entries

  /** The contents of all tables together. */
  function Whole(tables: seq<seq<HashEntry.Entry>>): multiset<Item> {
    if tables == [] then multiset{} else Whole(tables[..|tables| - 1]) + View(tables[|tables| - 1])
  }

  /** What an operation does to one table it does to all of them together. */
  lemma {:induction false} OneTable(tables: seq<seq<HashEntry.Entry>>, t: nat, slots: seq<HashEntry.Entry>,
                                    x: multiset<Item>, y: multiset<Item>)
    requires t < |tables| && View(slots) + x == View(tables[t]) + y
    ensures Whole(tables[t := slots]) + x == Whole(tables) + y
  {
    var n, tables' := |tables| - 1, tables[t := slots];
    if t == n {
      var rest := Whole(tables[..n]);
      assert tables'[..n] == tables[..n];
      AddBoth(View(slots), View(tables[n]), x, y, rest);
      assert rest + View(slots) == View(slots) + rest && rest + View(tables[n]) == View(tables[n]) + rest;
    } else {
      assert tables'[..n] == tables[..n][t := slots];
      OneTable(tables[..n], t, slots, x, y);
      AddBoth(Whole(tables'[..n]), Whole(tables[..n]), x, y, View(tables[n]));
    }
  }

  ghost predicate EachSelected(tables: seq<seq<HashEntry.Entry>>, bits: nat)
    requires bits <= Directory.MAX_TABLE_BITS
  {
    forall i :: 0 <= i < |tables| ==> Directory.Selected(tables[i], bits, i)
  }

  function CountIn(tables: seq<seq<HashEntry.Entry>>, t: nat, x: Item): nat {
    if t < |tables| then View(tables[t])[x] else 0
  }

  /** An entry is counted in the one table its tag selects. */
  lemma {:induction false} WholeAt(tables: seq<seq<HashEntry.Entry>>, bits: nat, n: nat, x: Item)
    requires bits <= Directory.MAX_TABLE_BITS && n <= |tables| && EachSelected(tables, bits)
    ensures Whole(tables[..n])[x] == CountIn(tables[..n], Directory.TableIndex(bits, x.tag), x)
  {
    if n > 0 {
      WholeAt(tables, bits, n - 1, x);
      assert tables[..n][..n - 1] == tables[..n - 1];
      Directory.SelectedIsOfItems(tables[n - 1], bits, n - 1);
    }
  }

  lemma WholeIs(tables: seq<seq<HashEntry.Entry>>, bits: nat, x: Item)
    requires bits <= Directory.MAX_TABLE_BITS && EachSelected(tables, bits)
    ensures Whole(tables)[x] == CountIn(tables, Directory.TableIndex(bits, x.tag), x)
  {
    WholeAt(tables, bits, |tables|, x);
    assert tables[..|tables|] == tables;
  }

  lemma CopiedAt(src: seq<HashEntry.Entry>, buckets: nat, bits: nat, j: nat, x: Item)
    requires WellPlaced(src, buckets) && bits <= Directory.MAX_TABLE_BITS && Directory.TableIndex(bits, x.tag) == j
    ensures View(Directory.Copied(src, |src|, bits, j))[x] == View(src)[x]
  {
    assert src[..|src|] == src;
    Directory.CopyKeepsItems(src, |src|, buckets, bits, j, x);
    Directory.ViewCounts(Directory.Copied(src, |src|, bits, j), x);
    Directory.ViewCounts(src, x);
  }

  lemma GrownAt(tables: seq<seq<HashEntry.Entry>>, grown: seq<seq<HashEntry.Entry>>, bits: nat, x: Item)
    requires bits < Directory.MAX_TABLE_BITS && EachSelected(tables, bits) && EachSelected(grown, bits + 1)
    requires var j := Directory.TableIndex(bits + 1, x.tag); CountIn(grown, j, x) == CountIn(tables, j / 2, x)
    ensures Whole(grown)[x] == Whole(tables)[x]
  {
    WholeIs(grown, bits + 1, x);
    WholeIs(tables, bits, x);
    assert Directory.TableIndex(bits, x.tag) == Directory.TableIndex(bits + 1, x.tag) / 2;
  }

  /** The copy that doubles the directory keeps the contents of all tables together. */
  lemma GrowKeepsWhole(tables: seq<seq<HashEntry.Entry>>, grown: seq<seq<HashEntry.Entry>>, bits: nat, buckets: nat)
    requires bits < Directory.MAX_TABLE_BITS && |grown| == 2 * |tables|
    requires EachSelected(tables, bits) && forall i :: 0 <= i < |tables| ==> WellPlaced(tables[i], buckets)
    requires forall j :: 0 <= j < |grown| ==>
               grown[j] == Directory.Copied(tables[j / 2], |tables[j / 2]|, bits + 1, j)
    ensures Whole(grown) == Whole(tables)
  {
    forall j | 0 <= j < |grown| ensures Directory.Selected(grown[j], bits + 1, j) {
      Directory.CopySelects(tables[j / 2], |tables[j / 2]|, buckets, bits + 1, j);
    }
    forall x: Item ensures Whole(grown)[x] == Whole(tables)[x] {
      var j := Directory.TableIndex(bits + 1, x.tag);
      if j < |grown| {
        CopiedAt(tables[j / 2], buckets, bits + 1, j, x);
      }
      GrownAt(tables, grown, bits, x);
    }
  }

  function ListedAt(i: int, e: HashEntry.Entry): seq<Item> {
    if e.Empty() then [] else [ItemOf(i, e)]
  }

  function Listed(s: seq<HashEntry.Entry>): seq<Item> {
    if s == [] then [] else Listed(s[..|s| - 1]) + ListedAt(|s| - 1, s[|s| - 1])
  }

  lemma {:induction false} ListedIsView(s: seq<HashEntry.Entry>)
    ensures multiset(Listed(s)) == View(s)
  {
    if s != [] {
      var n := |s| - 1;
      ListedIsView(s[..n]);
      assert multiset(ListedAt(n, s[n])) == ItemsAt(n, s[n]);
    }
  }

  /** The entries of all tables, in slot order. */
  function AllListed(tables: seq<seq<HashEntry.Entry>>): seq<Item> {
    if tables == [] then [] else AllListed(tables[..|tables| - 1]) + Listed(tables[|tables| - 1])
  }

  lemma {:induction false} AllListedIsWhole(tables: seq<seq<HashEntry.Entry>>)
    ensures multiset(AllListed(tables)) == Whole(tables)
  {
    if tables != [] {
      AllListedIsWhole(tables[..|tables| - 1]);
      ListedIsView(tables[|tables| - 1]);
    }
  }

  function Entries(g: Geometry, tables: seq<seq<HashEntry.Entry>>): seq<Recovery.Entry>
    requires g.grains > 0
  {
    var items := AllListed(tables);
    seq(|items|, i requires 0 <= i < |items| => Recovery.Entry(Located(g, items[i].pba), items[i].kv))
  }

  lemma Twice<T>(s: seq<T>, a: nat, b: nat)
    requires a < b < |s| && s[a] == s[b]
    ensures multiset(s)[s[a]] >= 2
  {
    assert s == s[..b] + s[b..];
    assert s[a] in s[..b] && s[b] in s[b..];
  }

  lemma ListedItem(g: Geometry, disk: map<Pba, Rec>, index: set<Pba>, items: seq<Item>, k: nat)
    requires g.buckets > 0 && g.grains > 0 && Bounded(g, disk, index) && k < |items|
    requires Represents(g, disk, index, multiset(items))
    ensures var p := Located(g, items[k].pba);
            p in index && p in disk && items[k] == ItemFor(g, disk[p], p)
  {
    assert items[k] in multiset(items);
    var p :| p in index && p in disk && items[k] == ItemFor(g, disk[p], p);
    LocatedIs(g, p);
  }

  lemma ListedApart(g: Geometry, disk: map<Pba, Rec>, index: set<Pba>, items: seq<Item>, a: nat, b: nat)
    requires g.buckets > 0 && g.grains > 0 && Bounded(g, disk, index) && a < b < |items|
    requires Represents(g, disk, index, multiset(items))
    ensures Located(g, items[a].pba) != Located(g, items[b].pba)
  {
    ListedItem(g, disk, index, items, a);
    ListedItem(g, disk, index, items, b);
    if items[a] == items[b] {
      Twice(items, a, b);
    }
  }

  lemma ListedAll(g: Geometry, disk: map<Pba, Rec>, index: set<Pba>, items: seq<Item>, p: Pba) returns (k: nat)
    requires g.buckets > 0 && g.grains > 0 && Bounded(g, disk, index) && p in index
    requires Represents(g, disk, index, multiset(items))
    ensures k < |items| && Located(g, items[k].pba) == p
  {
    EntryIsThere(g, disk, index, multiset(items), p);
    assert ItemFor(g, disk[p], p) in items;
    k :| 0 <= k < |items| && items[k] == ItemFor(g, disk[p], p);
    LocatedIs(g, p);
  }

  /** Tables that hold the directory list one entry for each of its locations. */
  lemma EntriesAreTheIndex(g: Geometry, disk: map<Pba, Rec>, index: set<Pba>, tables: seq<seq<HashEntry.Entry>>)
    requires g.buckets > 0 && g.grains > 0 && Bounded(g, disk, index) && Represents(g, disk, index, Whole(tables))
    ensures EntriesOf(disk, index, Entries(g, tables))
  {
    var items, entries := AllListed(tables), Entries(g, tables);
    AllListedIsWhole(tables);
    forall k | 0 <= k < |entries|
      ensures entries[k].pba in index && entries[k].pba in disk && entries[k].kv == Recovery.Kv(disk[entries[k].pba])
    {
      ListedItem(g, disk, index, items, k);
    }
    forall a, b | 0 <= a < b < |entries| ensures entries[a].pba != entries[b].pba {
      ListedApart(g, disk, index, items, a, b);
    }
    forall p | p in index ensures exists k :: 0 <= k < |entries| && entries[k].pba == p {
      var k := ListedAll(g, disk, index, items, p);
      assert entries[k].pba == p;
    }
  }

  // ---------------------------------------------------------------- close and open

  /**
    A store closed in state `i` of a run with its tables as they then are: the tables restored by a later
    open of the device hold that state's directory, none of their entries is refused, and the valid
    counts taken from them are those of the protocol's reopened store.
   */
  lemma ReopenFollows(c: Config, g: Geometry, r: Run, views: seq<multiset<Item>>, i: nat, tables: set<nat>, maxTs: nat,
                      geometry: nat, ir: IndexCrash.Run, j: nat, tombs: map<Pba, nat>) returns (begin: nat)
    requires Suits(c, g) && IsRun(c, r) && Views(g, r, views) && i < |r.states|
    requires CanReopen(r.states[i], tables, maxTs) && TombsOf(r.states[i].disk, tombs)
    requires IndexCrash.IsRun(geometry, ir) && j < |ir.steps| && ir.steps[j].Opened?
    requires ir.states[j].phase.Opening? && ir.states[j].phase.chosen.Some?
    ensures IndexCrash.FlushedAt(ir, begin, j)
    ensures Whole(ir.states[begin].dir) == views[i] ==>
              var s, s', dir := r.states[i], Reopened(c, r.states[i], tables, maxTs), ir.states[j + 1].dir;
              && Represents(g, s'.disk, s'.index, Whole(dir)) && EntriesOf(s'.disk, s'.index, Entries(g, dir))
              && (forall e :: e in Entries(g, dir) ==> Accountable(c.data, s.live, tombs, e))
              && (forall k :: 0 <= k < |s.ts| ==> s'.valid[k] == GrainsIn(tombs, Entries(g, dir), k))
  {
    begin := IndexCrash.ReopenedDirectory(geometry, ir, j);
    if Whole(ir.states[begin].dir) == views[i] {
      var s, dir := r.states[i], ir.states[j + 1].dir;
      RunKeeps(c, r, i);
      RunLaid(c, r, i);
      TablesHoldTheIndex(c, g, r, views, i);
      IndexBounded(c, g, s);
      EntriesAreTheIndex(g, s.disk, s.index, dir);
      RestoredCounts(c, s, tables, maxTs, tombs, Entries(g, dir));
    }
  }
}
