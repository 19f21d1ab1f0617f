/**
  Clean-shutdown persistence of the directory. A close writes every table (header and slots) to
  its index segment and only then the footers, one by one. An open restores the newest index if
  all of it is there, falls back to the log otherwise, and clears every valid footer before the
  session writes anything.
 */
module IndexFlush {
  import opened Common
  import HashEntry

  /** A table's slots, as they lie on the device. */
  type Table = seq<HashEntry.Entry>

  /** What header and footer say of their table; `geometry` stands for its size, format and slot count. */
  datatype Md = Md(ts: nat, size: nat, idx: nat, geometry: nat)

  /**
    A segment: whether its metadata names the index, its header and footer (None unless their
    checksum holds) and its slots.
   */
  datatype Seg = Seg(index: bool, hdr: Option<Md>, slots: Table, ftr: Option<Md>)

  datatype Restored = Restored(segs: seq<nat>, tables: seq<Table>)

  predicate ValidFooter(s: Seg) {
    s.index && s.ftr.Some?
  }

  /** The footer's timestamp if the header says the same, 0 if it does not. */
  function TsAt(s: Seg): nat {
    if ValidFooter(s) && s.hdr == s.ftr then s.ftr.value.ts else 0
  }

  predicate TableCount(n: nat) {
    n in {1, 2, 4, 8, 16, 32, 64, 128, 256}
  }

  /** Segments `m` hold all of index `ts`, table i in m[i], and no index is newer. */
  ghost predicate Complete(dev: seq<Seg>, geometry: nat, ts: nat, m: seq<nat>) {
    && ts != 0 && TableCount(|m|)
    && (forall i :: 0 <= i < |m| ==> Holds(dev, m[i], Md(ts, |m|, i, geometry)))
    && (forall s :: 0 <= s < |dev| && TsAt(dev[s]) == ts ==> s in m)
    && (forall s :: 0 <= s < |dev| ==> TsAt(dev[s]) <= ts)
  }

  ghost predicate Holds(dev: seq<Seg>, s: nat, md: Md) {
    s < |dev| && ValidFooter(dev[s]) && dev[s].hdr == dev[s].ftr && dev[s].ftr.value == md
  }

  // ---------------------------------------------------------------- counting

  function Without(s: seq<nat>, j: nat): (r: seq<nat>)
    requires j < |s|
    ensures |r| == |s| - 1
    ensures forall x :: x in s && x != s[j] ==> x in r
  {
    assert s == s[..j] + [s[j]] + s[j + 1..];
    s[..j] + s[j + 1..]
  }

  lemma {:induction false} NoLonger(a: seq<nat>, b: seq<nat>)
    requires NoDup(a)
    requires forall x :: x in a ==> x in b
    ensures |a| <= |b|
  {
    if a != [] {
      var n := |a| - 1;
      assert a[n] in b;
      var j :| 0 <= j < |b| && b[j] == a[n];
      forall x | x in a[..n] ensures x in Without(b, j) {
        var k :| 0 <= k < n && a[k] == x;
        assert a[k] != a[n] && x in a;
      }
      NoLonger(a[..n], Without(b, j));
    }
  }

  /** How many places have been taken. */
  function Taken(at: seq<Option<nat>>): nat {
    if at == [] then 0 else Taken(at[..|at| - 1]) + if at[|at| - 1].Some? then 1 else 0
  }

  lemma {:induction false} TakeOne(at: seq<Option<nat>>, i: nat, s: nat)
    requires i < |at| && at[i].None?
    ensures Taken(at[i := Some(s)]) == Taken(at) + 1
  {
    var n := |at| - 1;
    if i < n {
      TakeOne(at[..n], i, s);
      assert at[i := Some(s)][..n] == at[..n][i := Some(s)];
    } else {
      assert at[i := Some(s)][..n] == at[..n];
    }
  }

  lemma {:induction false} AllTaken(at: seq<Option<nat>>)
    ensures Taken(at) <= |at|
    ensures Taken(at) == |at| ==> forall i :: 0 <= i < |at| ==> at[i].Some?
  {
    if at != [] {
      var n := |at| - 1;
      AllTaken(at[..n]);
      assert forall i :: 0 <= i < n ==> at[..n][i] == at[i];
    }
  }

  function Untaken(n: nat): seq<Option<nat>> {
    seq(n, _ => None)
  }

  lemma {:induction false} NoneTaken(n: nat)
    ensures Taken(Untaken(n)) == 0
  {
    if n > 0 {
      NoneTaken(n - 1);
      assert Untaken(n)[..n - 1] == Untaken(n - 1);
    }
  }

  // ---------------------------------------------------------------- restore

  /** Every segment with a valid footer, in device order. */
  method FindFooters(dev: seq<Seg>) returns (found: seq<nat>)
    ensures NoDup(found)
    ensures forall s: nat :: s in found <==> s < |dev| && ValidFooter(dev[s])
  {
    found := [];
    var i := 0;
    while i < |dev|
      invariant 0 <= i <= |dev| && NoDup(found)
      invariant forall s: nat :: s in found <==> s < i && ValidFooter(dev[s])
    {
      if ValidFooter(dev[i]) {
        found := found + [i];
      }
      i := i + 1;
    }
  }

  /** The newest timestamp among them and the segments that bear it. */
  method NewestIndex(dev: seq<Seg>, found: seq<nat>) returns (ts: nat, members: seq<nat>)
    requires NoDup(found)
    requires forall s: nat :: s in found <==> s < |dev| && ValidFooter(dev[s])
    ensures forall s :: 0 <= s < |dev| ==> TsAt(dev[s]) <= ts
    ensures NoDup(members)
    ensures forall s: nat :: s in members <==> s < |dev| && ts != 0 && TsAt(dev[s]) == ts
    ensures members == [] ==> ts == 0
  {
    assert forall j :: 0 <= j < |found| ==> found[j] in found;
    ts := 0;
    for i := 0 to |found|
      invariant forall j :: 0 <= j < i ==> TsAt(dev[found[j]]) <= ts
      invariant ts != 0 ==> exists j :: 0 <= j < i && TsAt(dev[found[j]]) == ts
    {
      if TsAt(dev[found[i]]) > ts {
        ts := TsAt(dev[found[i]]);
      }
    }
    members := [];
    for i := 0 to |found|
      invariant NoDup(members)
      invariant forall s: nat :: s in members <==> s in found[..i] && ts != 0 && TsAt(dev[s]) == ts
    {
      assert found[..i + 1] == found[..i] + [found[i]];
      assert found[i] !in found[..i];
      if ts != 0 && TsAt(dev[found[i]]) == ts {
        members := members + [found[i]];
      }
    }
    assert found[..|found|] == found;
  }

  /** `members` are the segments of index `ts`, the newest. */
  ghost predicate NewestMembers(dev: seq<Seg>, ts: nat, members: seq<nat>) {
    && NoDup(members) && (members == [] ==> ts == 0)
    && (forall s: nat :: s in members <==> s < |dev| && ts != 0 && TsAt(dev[s]) == ts)
    && (forall s :: 0 <= s < |dev| ==> TsAt(dev[s]) <= ts)
  }

  /** The first `k` members fit and are seated at their indices. */
  ghost predicate Seated(dev: seq<Seg>, geometry: nat, ts: nat, members: seq<nat>, at: seq<Option<nat>>, k: nat) {
    && |at| == |members| && k <= |members| && Taken(at) == k
    && (forall i :: 0 <= i < |at| && at[i].Some? ==>
          at[i].value in members[..k] && Holds(dev, at[i].value, Md(ts, |members|, i, geometry)))
    && (forall a :: 0 <= a < k ==>
          Fits(dev, geometry, |members|, members[a]) && at[dev[members[a]].ftr.value.idx] == Some(members[a]))
  }

  lemma SeatOne(dev: seq<Seg>, geometry: nat, ts: nat, members: seq<nat>, at: seq<Option<nat>>, k: nat)
    requires Seated(dev, geometry, ts, members, at, k) && k < |members|
    requires Fits(dev, geometry, |members|, members[k]) && at[dev[members[k]].ftr.value.idx].None?
    requires ts != 0 && TsAt(dev[members[k]]) == ts
    ensures Seated(dev, geometry, ts, members, at[dev[members[k]].ftr.value.idx := Some(members[k])], k + 1)
  {
    assert members[..k + 1] == members[..k] + [members[k]];
    TakeOne(at, dev[members[k]].ftr.value.idx, members[k]);
  }

  lemma SeatTaken(dev: seq<Seg>, geometry: nat, ts: nat, members: seq<nat>, at: seq<Option<nat>>, k: nat)
    requires Seated(dev, geometry, ts, members, at, k) && k < |members|
    requires Fits(dev, geometry, |members|, members[k]) && at[dev[members[k]].ftr.value.idx].Some?
    ensures !Whole(dev, geometry, ts, members)
  {
    var idx := dev[members[k]].ftr.value.idx;
    var a :| 0 <= a < k && members[..k][a] == at[idx].value;
    assert dev[members[a]].ftr.value.idx == idx;
  }

  /** Who sits where, once every seat is taken. */
  function Seats(at: seq<Option<nat>>): seq<nat> {
    seq(|at|, i requires 0 <= i < |at| => if at[i].Some? then at[i].value else 0)
  }

  lemma AllSeated(dev: seq<Seg>, geometry: nat, ts: nat, members: seq<nat>, at: seq<Option<nat>>)
    requires Seated(dev, geometry, ts, members, at, |members|) && NewestMembers(dev, ts, members)
    requires ts != 0 && TableCount(|members|)
    ensures Complete(dev, geometry, ts, Seats(at))
  {
    AllTaken(at);
    var m := Seats(at);
    forall s | 0 <= s < |dev| && TsAt(dev[s]) == ts ensures s in m {
      assert s in members;
      var a :| 0 <= a < |members| && members[a] == s;
      assert m[dev[members[a]].ftr.value.idx] == s;
    }
  }

  lemma OnlyWholeIsComplete(dev: seq<Seg>, geometry: nat, ts: nat, members: seq<nat>)
    requires NewestMembers(dev, ts, members) && !Whole(dev, geometry, ts, members)
    ensures forall t, p :: !Complete(dev, geometry, t, p)
  {
    forall t, p ensures !Complete(dev, geometry, t, p) {
      if Complete(dev, geometry, t, p) {
        CompleteIsWhole(dev, geometry, ts, members, t, p);
      }
    }
  }

  /** The table of each index, if the members are one whole directory of this geometry. */
  method WholeDirectory(dev: seq<Seg>, geometry: nat, ts: nat, members: seq<nat>) returns (m: Option<seq<nat>>)
    requires NewestMembers(dev, ts, members)
    ensures m.Some? ==> Complete(dev, geometry, ts, m.value)
    ensures m.None? ==> forall t, p :: !Complete(dev, geometry, t, p)
  {
    if !Whole(dev, geometry, ts, members) {
      OnlyWholeIsComplete(dev, geometry, ts, members);
    }
    if members == [] {
      return None;
    }
    assert members[0] in members;
    var size := dev[members[0]].ftr.value.size;
    if !TableCount(size) || |members| != size {
      assert !Fits(dev, geometry, |members|, members[0]) || !TableCount(|members|);
      return None;
    }
    var at := Untaken(size);
    NoneTaken(size);
    for k := 0 to size
      invariant Seated(dev, geometry, ts, members, at, k)
    {
      assert members[k] in members;
      var f := dev[members[k]].ftr.value;
      if f.size != size || f.idx >= size || f.geometry != geometry {
        assert !Fits(dev, geometry, |members|, members[k]);
        return None;
      }
      if at[f.idx].Some? {
        SeatTaken(dev, geometry, ts, members, at, k);
        return None;
      }
      SeatOne(dev, geometry, ts, members, at, k);
      at := at[f.idx := Some(members[k])];
    }
    AllSeated(dev, geometry, ts, members, at);
    m := Some(Seats(at));
  }

  predicate Fits(dev: seq<Seg>, geometry: nat, size: nat, s: nat) {
    s < |dev| && dev[s].ftr.Some? && dev[s].ftr.value.size == size && dev[s].ftr.value.idx < size &&
        dev[s].ftr.value.geometry == geometry
  }

  ghost predicate Whole(dev: seq<Seg>, geometry: nat, ts: nat, members: seq<nat>) {
    && members != [] && TableCount(|members|)
    && (forall a :: 0 <= a < |members| ==> Fits(dev, geometry, |members|, members[a]))
    && (forall a, b :: 0 <= a < b < |members| ==> dev[members[a]].ftr.value.idx != dev[members[b]].ftr.value.idx)
  }

  lemma CompleteIsWhole(dev: seq<Seg>, geometry: nat, ts: nat, members: seq<nat>, t: nat, p: seq<nat>)
    requires NewestMembers(dev, ts, members) && Complete(dev, geometry, t, p)
    ensures Whole(dev, geometry, ts, members) && |p| == |members| && t == ts
  {
    assert Holds(dev, p[0], Md(t, |p|, 0, geometry));
    assert TsAt(dev[p[0]]) == t;
    if members != [] {
      assert members[0] in members;
    }
    assert t == ts;
    assert NoDup(p);
    NoLonger(members, p);
    forall s | s in p ensures s in members {
      var i :| 0 <= i < |p| && p[i] == s;
      assert Holds(dev, p[i], Md(t, |p|, i, geometry));
    }
    NoLonger(p, members);
    forall a | 0 <= a < |members| ensures members[a] in p && Fits(dev, geometry, |members|, members[a]) {
      assert members[a] in members;
      var i :| 0 <= i < |p| && p[i] == members[a];
      assert Holds(dev, p[i], Md(t, |p|, i, geometry));
    }
    forall a, b | 0 <= a < b < |members| ensures dev[members[a]].ftr.value.idx != dev[members[b]].ftr.value.idx {
      assert members[a] in p && members[b] in p;
      var i :| 0 <= i < |p| && p[i] == members[a];
      var j :| 0 <= j < |p| && p[j] == members[b];
      assert Holds(dev, p[i], Md(t, |p|, i, geometry)) && Holds(dev, p[j], Md(t, |p|, j, geometry));
      assert i != j;
    }
  }

  /** An answer of restore_index: every segment with a valid footer, and a whole index or none. */
  ghost predicate RestoresTo(dev: seq<Seg>, geometry: nat, found: seq<nat>, r: Option<Restored>) {
    && NoDup(found)
    && (forall s: nat :: s in found <==> s < |dev| && ValidFooter(dev[s]))
    && (r.Some? ==>
          && |r.value.tables| == |r.value.segs|
          && (exists ts :: Complete(dev, geometry, ts, r.value.segs))
          && forall i :: 0 <= i < |r.value.segs| ==>
              r.value.segs[i] < |dev| && r.value.tables[i] == dev[r.value.segs[i]].slots)
  }

  /** At most one index is complete. */
  lemma OneComplete(dev: seq<Seg>, geometry: nat, ts: nat, m: seq<nat>, t: nat, p: seq<nat>)
    requires Complete(dev, geometry, ts, m) && Complete(dev, geometry, t, p)
    ensures t == ts && p == m
  {
    assert Holds(dev, m[0], Md(ts, |m|, 0, geometry)) && Holds(dev, p[0], Md(t, |p|, 0, geometry));
    assert TsAt(dev[m[0]]) == ts && TsAt(dev[p[0]]) == t;
    forall i | 0 <= i < |m| ensures |p| == |m| && p[i] == m[i] {
      assert Holds(dev, m[i], Md(ts, |m|, i, geometry));
      assert m[i] in p;
      var j :| 0 <= j < |p| && p[j] == m[i];
      assert Holds(dev, p[j], Md(t, |p|, j, geometry));
    }
    assert p[0] == m[0];
  }

  /** The tables that lie in segments `m`. */
  function TablesAt(dev: seq<Seg>, m: seq<nat>): seq<Table> {
    seq(|m|, i requires 0 <= i < |m| => if m[i] < |dev| then dev[m[i]].slots else [])
  }

  /**
    restore_index up to the clearing of footers: the segments whose footers it is to clear, and
    the directory it restores. `loads` are the segments whose tables can be mapped and read,
    `accounts` says whether every entry of the tables can be accounted for. There is no directory
    exactly if no index is complete, or a table of it does not load, or it cannot be accounted for.
   */
  method RestoreIndex(dev: seq<Seg>, geometry: nat, loads: set<nat>, accounts: seq<Table> -> bool)
    returns (found: seq<nat>, r: Option<Restored>)
    ensures RestoresTo(dev, geometry, found, r)
    ensures r.Some? ==> (forall s :: s in r.value.segs ==> s in loads) && accounts(r.value.tables)
    ensures r.None? ==> forall ts, m :: Complete(dev, geometry, ts, m) ==>
              (exists s :: s in m && s !in loads) || !accounts(TablesAt(dev, m))
  {
    found := FindFooters(dev);
    var ts, members := NewestIndex(dev, found);
    var m := WholeDirectory(dev, geometry, ts, members);
    if m.None? {
      return found, None;
    }
    var segs := m.value;
    forall t, p | Complete(dev, geometry, t, p) ensures p == segs {
      OneComplete(dev, geometry, ts, segs, t, p);
    }
    for i := 0 to |segs|
      invariant forall j :: 0 <= j < i ==> segs[j] in loads
    {
      if segs[i] !in loads {
        return found, None;
      }
    }
    var tables := TablesAt(dev, segs);
    if !accounts(tables) {
      return found, None;
    }
    assert forall i :: 0 <= i < |segs| ==> Holds(dev, segs[i], Md(ts, |segs|, i, geometry));
    r := Some(Restored(segs, tables));
  }
}
