/**
  A get that verifies an entry on the device resumes its scan past that entry's offset. If a grow
  has published its copy meanwhile, the rest of the scan runs over the copy, where entries may lie
  lower than they did.
 */
module ResumedScan {
  import opened HashEntry
  import opened HashTables
  import opened Directory

  /** The entries a scan of a neighborhood meets from offset `start` on. */
  function ScanFrom(s: seq<Entry>, bucket: nat, tag: nat, start: nat, includeDeleted: bool): set<Item>
    requires bucket + HOP_RANGE <= |s|
  {
    set i | start <= i < HOP_RANGE && Matches(s, bucket, tag, i, includeDeleted) :: ItemOf(bucket + i, s[bucket + i])
  }

  // ---------------------------------------------------------------- where the copy puts entries

  /** Slot `k` of a table holds an entry for table `t` whose home lies in i..j. */
  predicate HomeIn(k: int, e: Entry, bits: nat, t: nat, i: int, j: int)
    requires bits <= MAX_TABLE_BITS
  {
    !e.Empty() && TableIndex(bits, e.tag) == t && i <= k - e.offset <= j
  }

  /** How many of the first `n` slots hold such an entry. */
  function Homed(s: seq<Entry>, n: nat, bits: nat, t: nat, i: int, j: int): nat
    requires n <= |s| && bits <= MAX_TABLE_BITS
  {
    if n == 0 then 0 else Homed(s, n - 1, bits, t, i, j) + if HomeIn(n - 1, s[n - 1], bits, t, i, j) then 1 else 0
  }

  /** Everything between an entry's home and the entry is taken. */
  ghost predicate Packed(c: seq<Entry>) {
    forall k :: 0 <= k < |c| && !c[k].Empty() ==> PackedAt(c, k)
  }

  ghost predicate PackedAt(c: seq<Entry>, k: nat)
    requires k < |c|
  {
    0 <= k - c[k].offset && forall h :: k - c[k].offset <= h <= k ==> !c[h].Empty()
  }

  lemma {:induction false} HomedFill(c: seq<Entry>, f: nat, e: Entry, n: nat, bits: nat, t: nat, i: int, j: int)
    requires f < |c| && c[f].Empty() && n <= |c| && bits <= MAX_TABLE_BITS
    ensures Homed(c[f := e], n, bits, t, i, j) ==
            Homed(c, n, bits, t, i, j) + if f < n && HomeIn(f, e, bits, t, i, j) then 1 else 0
  {
    if n > 0 {
      HomedFill(c, f, e, n - 1, bits, t, i, j);
    }
  }

  lemma {:induction false} HomedNone(c: seq<Entry>, n: nat, bits: nat, t: nat, i: int, j: int)
    requires n <= |c| && bits <= MAX_TABLE_BITS && forall k :: 0 <= k < |c| ==> c[k].Empty()
    ensures Homed(c, n, bits, t, i, j) == 0
  {
    if n > 0 {
      HomedNone(c, n - 1, bits, t, i, j);
    }
  }

  /** Slot `f` takes the entry of slot `k` of another table, keeping its home. */
  lemma HomedPut(c: seq<Entry>, c': seq<Entry>, f: nat, k: nat, e: Entry, bits: nat, t: nat, i: int, j: int)
    requires f < |c| && c[f].Empty() && !e.Empty() && 0 <= k - e.offset <= f && bits <= MAX_TABLE_BITS
    requires c' == c[f := Entry(f - (k - e.offset), e.tag, e.kv, e.pba)]
    ensures Homed(c', |c|, bits, t, i, j) == Homed(c, |c|, bits, t, i, j) + if HomeIn(k, e, bits, t, i, j) then 1 else 0
  {
    HomedFill(c, f, c'[f], |c|, bits, t, i, j);
  }

  /** The copy keeps every home. */
  lemma {:induction false} CopyKeepsHomes(src: seq<Entry>, n: nat, buckets: nat, bits: nat, t: nat, i: int, j: int)
    requires WellPlaced(src, buckets) && n <= |src| && bits <= MAX_TABLE_BITS
    ensures Homed(Copied(src, n, bits, t), |src|, bits, t, i, j) == Homed(src, n, bits, t, i, j)
  {
    if n == 0 {
      HomedNone(Copied(src, 0, bits, t), |src|, bits, t, i, j);
    } else {
      CopyKeepsHomes(src, n - 1, buckets, bits, t, i, j);
      OneCopyKeepsHomes(src, n - 1, buckets, bits, t, i, j);
    }
  }

  lemma OneCopyKeepsHomes(src: seq<Entry>, n: nat, buckets: nat, bits: nat, t: nat, i: int, j: int)
    requires WellPlaced(src, buckets) && n < |src| && bits <= MAX_TABLE_BITS
    requires Homed(Copied(src, n, bits, t), |src|, bits, t, i, j) == Homed(src, n, bits, t, i, j)
    ensures Homed(Copied(src, n + 1, bits, t), |src|, bits, t, i, j) == Homed(src, n + 1, bits, t, i, j)
  {
    var e := src[n];
    if !e.Empty() && TableIndex(bits, e.tag) == t {
      CopyStep(src, n, buckets, bits, t);
      var c, c' := Copied(src, n, bits, t), Copied(src, n + 1, bits, t);
      HomedPut(c, c', FirstFree(c, n - e.offset), n, e, bits, t, i, j);
    }
  }

  lemma PutKeepsPacked(c: seq<Entry>, home: nat, f: nat, e: Entry)
    requires Packed(c) && f < |c| && c[f].Empty() && home <= f && e.offset == f - home
    requires forall h :: home <= h < f ==> !c[h].Empty()
    ensures Packed(c[f := e])
  {
    var c' := c[f := e];
    forall k | 0 <= k < |c'| && !c'[k].Empty() ensures PackedAt(c', k) {
      if k != f {
        assert PackedAt(c, k);
      }
    }
  }

  lemma {:induction false} CopyIsPacked(src: seq<Entry>, n: nat, buckets: nat, bits: nat, t: nat)
    requires WellPlaced(src, buckets) && n <= |src| && bits <= MAX_TABLE_BITS
    ensures Packed(Copied(src, n, bits, t))
  {
    if n > 0 {
      CopyIsPacked(src, n - 1, buckets, bits, t);
      var e := src[n - 1];
      if !e.Empty() && TableIndex(bits, e.tag) == t {
        CopyStep(src, n - 1, buckets, bits, t);
        var c, home := Copied(src, n - 1, bits, t), n - 1 - e.offset;
        PutKeepsPacked(c, home, FirstFree(c, home), Entry(FirstFree(c, home) - home, e.tag, e.kv, e.pba));
      }
    }
  }

  // ---------------------------------------------------------------- counting

  /** A run of taken slots that no earlier entry reaches into holds as many homes as slots. */
  lemma {:induction false} RunHolds(c: seq<Entry>, n: nat, bits: nat, t: nat, i: nat, j: nat)
    requires Packed(c) && bits <= MAX_TABLE_BITS && Selected(c, bits, t) && i <= j < |c| && n <= j + 1
    requires (i == 0 || c[i - 1].Empty()) && forall k :: i <= k <= j ==> !c[k].Empty()
    ensures Homed(c, n, bits, t, i, j) >= n - i
  {
    if n > i {
      RunHolds(c, n - 1, bits, t, i, j);
      assert PackedAt(c, n - 1);
    }
  }

  lemma {:induction false} HomedGrows(c: seq<Entry>, n: nat, m: nat, bits: nat, t: nat, i: int, j: int)
    requires n <= m <= |c| && bits <= MAX_TABLE_BITS
    ensures Homed(c, n, bits, t, i, j) <= Homed(c, m, bits, t, i, j)
  {
    if n < m {
      HomedGrows(c, n, m - 1, bits, t, i, j);
    }
  }

  /** No entry whose home is at or below a free slot lies past it. */
  lemma {:induction false} GapHolds(c: seq<Entry>, n: nat, bits: nat, t: nat, i: nat, j: nat)
    requires Packed(c) && bits <= MAX_TABLE_BITS && i <= j < |c| && c[j].Empty() && n <= |c|
    ensures Homed(c, n, bits, t, i, j) <= if n <= i then 0 else if n <= j then n - i else j - i
  {
    if n > 0 {
      GapHolds(c, n - 1, bits, t, i, j);
      if !c[n - 1].Empty() {
        assert PackedAt(c, n - 1);
      }
    }
  }

  /** Where the run of taken slots that ends at `j` starts. */
  function RunStart(c: seq<Entry>, j: nat): (i: nat)
    requires j < |c| && !c[j].Empty()
    ensures i <= j && (i == 0 || c[i - 1].Empty()) && forall k :: i <= k <= j ==> !c[k].Empty()
  {
    if j == 0 || c[j - 1].Empty() then j else RunStart(c, j - 1)
  }

  /** Slot `j` is filled by the entries for table `t` among the first `n` slots: the homes just below it overflow. */
  ghost predicate Filled(src: seq<Entry>, n: nat, bits: nat, t: nat, j: nat)
    requires n <= |src| && bits <= MAX_TABLE_BITS
  {
    exists i: nat :: i <= j && Homed(src, n, bits, t, i, j) >= j - i + 1
  }

  /** Which slots the copy takes, from the old table alone. */
  lemma CopyFills(src: seq<Entry>, n: nat, buckets: nat, bits: nat, t: nat, j: nat)
    requires WellPlaced(src, buckets) && n <= |src| && bits <= MAX_TABLE_BITS && j < |src|
    ensures !Copied(src, n, bits, t)[j].Empty() <==> Filled(src, n, bits, t, j)
  {
    var c := Copied(src, n, bits, t);
    CopyIsPacked(src, n, buckets, bits, t);
    if c[j].Empty() {
      forall i: nat | i <= j ensures Homed(src, n, bits, t, i, j) < j - i + 1 {
        GapHolds(c, |c|, bits, t, i, j);
        CopyKeepsHomes(src, n, buckets, bits, t, i, j);
      }
    } else {
      var i := RunStart(c, j);
      CopySelects(src, n, buckets, bits, t);
      RunHolds(c, j + 1, bits, t, i, j);
      HomedGrows(c, j + 1, |c|, bits, t, i, j);
      CopyKeepsHomes(src, n, buckets, bits, t, i, j);
    }
  }

  // ---------------------------------------------------------------- the resumed scan

  /** Once copied, an entry stays where it was put. */
  lemma {:induction false} CopyStays(src: seq<Entry>, n: nat, m: nat, buckets: nat, bits: nat, t: nat, f: nat)
    requires WellPlaced(src, buckets) && n <= m <= |src| && bits <= MAX_TABLE_BITS
    requires f < |src| && !Copied(src, n, bits, t)[f].Empty()
    ensures Copied(src, m, bits, t)[f] == Copied(src, n, bits, t)[f]
    decreases m
  {
    if n < m {
      CopyStays(src, n, m - 1, buckets, bits, t, f);
    }
  }

  predicate HoldsAt(s: seq<Entry>, k: nat, x: Item) {
    k < |s| && !s[k].Empty() && ItemOf(k, s[k]) == x
  }

  /** Every slot of the bucket below offset `start` is filled by the time the copy reaches slot `k`. */
  ghost predicate Crowded(src: seq<Entry>, k: nat, bits: nat, t: nat, home: nat, start: nat)
    requires k <= |src| && bits <= MAX_TABLE_BITS
  {
    forall j :: home <= j < home + start ==> Filled(src, k, bits, t, j)
  }

  /** What the copy holds at a slot it took from some old slot, when all below it down to the home was taken. */
  lemma {:induction false} CopiedFrom(src: seq<Entry>, n: nat, buckets: nat, bits: nat, t: nat, f: nat) returns (k: nat)
    requires WellPlaced(src, buckets) && n <= |src| && bits <= MAX_TABLE_BITS
    requires f < |src| && !Copied(src, n, bits, t)[f].Empty()
    ensures k < n && !src[k].Empty() && TableIndex(bits, src[k].tag) == t
    ensures ItemOf(k, src[k]) == ItemOf(f, Copied(src, n, bits, t)[f])
    ensures 0 <= k - src[k].offset <= f
    ensures forall h :: k - src[k].offset <= h < f ==> !Copied(src, k, bits, t)[h].Empty()
  {
    var e := src[n - 1];
    if !e.Empty() && TableIndex(bits, e.tag) == t {
      CopyStep(src, n - 1, buckets, bits, t);
      if f == FirstFree(Copied(src, n - 1, bits, t), n - 1 - e.offset) {
        return n - 1;
      }
    }
    k := CopiedFrom(src, n - 1, buckets, bits, t, f);
  }

  lemma CrowdedIsRead(src: seq<Entry>, k: nat, buckets: nat, bits: nat, t: nat, x: Item, start: nat,
                      includeDeleted: bool)
    requires WellPlaced(src, buckets) && bits <= MAX_TABLE_BITS && TableIndex(bits, x.tag) == t
    requires 0 <= x.home < buckets && start <= HOP_RANGE && (includeDeleted || x.kv != 0)
    requires HoldsAt(src, k, x) && Crowded(src, k, bits, t, x.home, start)
    ensures x in ScanFrom(Copied(src, |src|, bits, t), x.home, x.tag, start, includeDeleted)
  {
    var c, home := Copied(src, k, bits, t), x.home;
    CopyStep(src, k, buckets, bits, t);
    var f := FirstFree(c, home);
    forall j | home <= j < home + start ensures !c[j].Empty() {
      assert Filled(src, k, bits, t, j);
      CopyFills(src, k, buckets, bits, t, j);
    }
    assert f >= home + start;
    CopyStays(src, k + 1, |src|, buckets, bits, t, f);
    assert Matches(Copied(src, |src|, bits, t), home, x.tag, f - home, includeDeleted);
  }

  lemma ReadIsCrowded(src: seq<Entry>, buckets: nat, bits: nat, t: nat, x: Item, start: nat, includeDeleted: bool)
    returns (k: nat)
    requires WellPlaced(src, buckets) && bits <= MAX_TABLE_BITS && TableIndex(bits, x.tag) == t
    requires 0 <= x.home < buckets && start <= HOP_RANGE
    requires x in ScanFrom(Copied(src, |src|, bits, t), x.home, x.tag, start, includeDeleted)
    ensures HoldsAt(src, k, x) && Crowded(src, k, bits, t, x.home, start) && (includeDeleted || x.kv != 0)
  {
    var c := Copied(src, |src|, bits, t);
    var o :| start <= o < HOP_RANGE && Matches(c, x.home, x.tag, o, includeDeleted) &&
             ItemOf(x.home + o, c[x.home + o]) == x;
    k := CopiedFrom(src, |src|, buckets, bits, t, x.home + o);
    forall j | x.home <= j < x.home + start ensures Filled(src, k, bits, t, j) {
      CopyFills(src, k, buckets, bits, t, j);
    }
  }

  /**
    When a scan resumed at `start` after a grow reads an entry: exactly if, where the frozen table
    holds it, the entries of lower slots that move to the same new table fill every slot of its
    bucket below `start`. All of it can be counted in the frozen table, before the copy.
   */
  lemma ResumedScanReads(src: seq<Entry>, buckets: nat, bits: nat, t: nat, x: Item, start: nat, includeDeleted: bool)
    requires WellPlaced(src, buckets) && bits <= MAX_TABLE_BITS && TableIndex(bits, x.tag) == t
    requires 0 <= x.home < buckets && start <= HOP_RANGE
    ensures x in ScanFrom(Copied(src, |src|, bits, t), x.home, x.tag, start, includeDeleted) <==>
            (includeDeleted || x.kv != 0) &&
            exists k :: HoldsAt(src, k, x) && Crowded(src, k, bits, t, x.home, start)
  {
    if x in ScanFrom(Copied(src, |src|, bits, t), x.home, x.tag, start, includeDeleted) {
      var k := ReadIsCrowded(src, buckets, bits, t, x, start, includeDeleted);
    }
    forall k | HoldsAt(src, k, x) && Crowded(src, k, bits, t, x.home, start) && (includeDeleted || x.kv != 0)
      ensures x in ScanFrom(Copied(src, |src|, bits, t), x.home, x.tag, start, includeDeleted)
    {
      CrowdedIsRead(src, k, buckets, bits, t, x, start, includeDeleted);
    }
  }

  // ---------------------------------------------------------------- a scan that misses an entry

  /** Two entries of one tag, at offsets 1 and 2 of bucket 0, whose first neighbor has been removed. */
  function Gapped(buckets: nat): (s: seq<Entry>)
    ensures |s| == buckets + HOP_RANGE
  {
    seq(buckets + HOP_RANGE, i => if i == 1 then Entry(1, 0, 1, 10) else if i == 2 then Entry(2, 0, 1, 20) else EMPTY)
  }

  /** The first `n` of three entries of one hash, side by side. */
  function Beside(buckets: nat, n: nat): (s: seq<Entry>)
    ensures |s| == buckets + HOP_RANGE
  {
    seq(buckets + HOP_RANGE, i requires 0 <= i => if i < n then Entry(i, 0, 1, 10 * i) else EMPTY)
  }

  lemma NextBeside(buckets: nat, n: nat, ok: bool, before: seq<Entry>, s: seq<Entry>)
    requires n < 3 && before == Beside(buckets, n)
    requires ok ==> Added(before, s, 0, 0, 1, 10 * n)
    requires !ok ==> Refused(before, s, 0)
    ensures ok && s == Beside(buckets, n + 1)
  {
    FirstFreeIs(Beside(buckets, n), 0, n);
  }

  method InsertBeside(table: HashTable, n: nat)
    requires table.Valid() && n < 3 && table.slots[..] == Beside(table.buckets, n)
    modifies table.slots
    ensures table.Valid() && table.slots[..] == Beside(table.buckets, n + 1)
  {
    assert table.Bucket(0) == 0 && table.Tag(0) == 0;
    ghost var before := table.slots[..];
    var ok := table.InsertLocked(0, 1, 10 * n);
    NextBeside(table.buckets, n, ok, before, table.slots[..]);
  }

  /** A table comes to look so after three inserts of one hash and a removal of the first. */
  method MakeGapped(buckets: nat) returns (table: HashTable)
    requires buckets >= 2
    ensures table.Valid() && table.buckets == buckets && table.slots[..] == Gapped(buckets)
  {
    table := new HashTable(buckets);
    assert table.slots[..] == Beside(buckets, 0);
    var n := 0;
    while n < 3
      invariant 0 <= n <= 3 && table.Valid() && table.buckets == buckets && fresh(table.slots)
      invariant table.slots[..] == Beside(buckets, n)
    {
      InsertBeside(table, n);
      n := n + 1;
    }
    RemoveFirst(table);
  }

  lemma FirstIsThere(buckets: nat)
    ensures Item(0, 0, 1, 0) in View(Beside(buckets, 3))
  {
    InView(Beside(buckets, 3), 0);
  }

  lemma GapIsLeft(buckets: nat, s: seq<Entry>, i: nat)
    requires ClearedAt(Beside(buckets, 3), s, i, 0)
    ensures s == Gapped(buckets)
  {
    assert i == 0;
  }

  method RemoveFirst(table: HashTable)
    requires table.Valid() && table.buckets >= 2 && table.slots[..] == Beside(table.buckets, 3)
    modifies table.slots
    ensures table.Valid() && table.slots[..] == Gapped(table.buckets)
  {
    ghost var s := table.slots[..];
    FirstIsThere(table.buckets);
    assert Item(table.Bucket(0), table.Tag(0), 1, 0) in View(s);
    var ok, was := table.RemoveLocked(0, 0);
    assert ok;
    assert exists i :: ClearedAt(s, table.slots[..], i, 0);
    ghost var i :| ClearedAt(s, table.slots[..], i, 0);
    GapIsLeft(table.buckets, table.slots[..], i);
  }

  /**
    In every table of that look, whatever its size: a scan stops at the entry at offset 1, so it
    resumes at offset 2; if a grow has published its copy by then it misses the other entry,
    which the frozen table holds there, the copy holds too, and nobody removed.
   */
  lemma ResumedScanMissesAnEntry(buckets: nat)
    requires buckets >= 2
    ensures var s, x := Gapped(buckets), Item(0, 0, 1, 20);
            && WellPlaced(s, buckets) && Selected(s, 0, 0)
            && !Matches(s, 0, 0, 0, false) && Matches(s, 0, 0, 1, false)
            && x in ScanFrom(s, 0, 0, 2, false)
            && TableIndex(1, x.tag) == 0
            && x in ScanFrom(Copied(s, |s|, 1, 0), 0, 0, 0, false)
            && x !in ScanFrom(Copied(s, |s|, 1, 0), 0, 0, 2, false)
  {
    var s, x := Gapped(buckets), Item(0, 0, 1, 20);
    assert TableIndex(1, 0) == 0 by { IndexInBounds(0, 0); ZeroStays(1); }
    ZeroStays(0);
    assert Matches(s, 0, 0, 2, false) && ItemOf(0 + 2, s[0 + 2]) == x;
    assert HoldsAt(s, 2, x);
    ResumedScanReads(s, buckets, 1, 0, x, 0, false);
    ResumedScanReads(s, buckets, 1, 0, x, 2, false);
    forall k | HoldsAt(s, k, x) ensures !Crowded(s, k, 1, 0, 0, 2) {
      NotFilled(buckets);
    }
  }

  lemma {:induction false} ZeroStays(bits: nat)
    requires bits <= MAX_TABLE_BITS
    ensures TableIndex(bits, 0) == 0
    decreases MAX_TABLE_BITS - bits
  {
    if bits < MAX_TABLE_BITS {
      ZeroStays(bits + 1);
    }
  }

  /** Of the two slots below offset 2, only one has been filled when the copy comes to slot 2. */
  lemma NotFilled(buckets: nat)
    requires buckets >= 2
    ensures !Filled(Gapped(buckets), 2, 1, 0, 1)
  {
    var s := Gapped(buckets);
    ZeroStays(1);
    forall i: nat | i <= 1 ensures Homed(s, 2, 1, 0, i, 1) < 1 - i + 1 {
      assert Homed(s, 0, 1, 0, i, 1) == 0;
      assert Homed(s, 1, 1, 0, i, 1) == 0;
    }
  }
}
