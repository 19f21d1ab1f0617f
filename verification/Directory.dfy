/** The directory: tables chosen by the top bits of an entry's tag, and the copy that doubles them. */
module Directory {
  import opened Common
  import opened HashEntry
  import opened HashTables

  const MAX_TABLE_BITS: nat := 8

  /** The table of a tag: its top bits, the others shifted out one at a time. */
  function TableIndex(bits: nat, tag: nat): nat
    requires bits <= MAX_TABLE_BITS
    decreases MAX_TABLE_BITS - bits
  {
    if bits == MAX_TABLE_BITS then tag else TableIndex(bits + 1, tag) / 2
  }

  lemma {:induction false} IndexInBounds(bits: nat, tag: nat)
    requires bits <= MAX_TABLE_BITS && tag < TAG_RANGE
    ensures TableIndex(bits, tag) < Pow2(bits)
    decreases MAX_TABLE_BITS - bits
  {
    if bits < MAX_TABLE_BITS {
      IndexInBounds(bits + 1, tag);
    } else {
      assert Pow2(4) == 16;
      assert Pow2(8) == TAG_RANGE;
    }
  }

  /** How many tags share a table. */
  function Span(bits: nat): (n: nat)
    requires bits <= MAX_TABLE_BITS
    ensures n > 0
    decreases MAX_TABLE_BITS - bits
  {
    if bits == MAX_TABLE_BITS then 1 else 2 * Span(bits + 1)
  }

  /** Each table gets its even share of consecutive tags. */
  lemma {:induction false} TableIndexIsShare(bits: nat, tag: nat)
    requires bits <= MAX_TABLE_BITS
    ensures TableIndex(bits, tag) == tag / Span(bits)
    decreases MAX_TABLE_BITS - bits
  {
    if bits < MAX_TABLE_BITS {
      TableIndexIsShare(bits + 1, tag);
      HalfOfQuotient(tag, Span(bits + 1));
    }
  }

  lemma HalfOfQuotient(a: nat, d: nat)
    requires d > 0
    ensures a / d / 2 == a / (2 * d)
  {
    var q, r := a / d, a % d;
    assert a == q * d + r;
    assert q == 2 * (q / 2) + q % 2;
    assert q * d == (q / 2) * (2 * d) + (q % 2) * d;
    assert (q % 2) * d == if q % 2 == 0 then 0 else d;
    Quotient(a, 2 * d, q / 2, (q % 2) * d + r);
  }

  // ---------------------------------------------------------------- copying one table

  /** Put an entry of home `bucket` in the first free slot from it. */
  function PutFirst(s: seq<Entry>, bucket: nat, tag: nat, kv: nat, pba: nat): (s': seq<Entry>)
    requires bucket <= |s|
    ensures |s'| == |s|
  {
    var f := FirstFree(s, bucket);
    if f < |s| then s[f := Entry(f - bucket, tag, kv, pba)] else s
  }

  /** What table `t` of 2^bits holds once the first `n` slots of an old table are copied. */
  ghost function Copied(src: seq<Entry>, n: nat, bits: nat, t: nat): (s: seq<Entry>)
    requires n <= |src| && bits <= MAX_TABLE_BITS
    ensures |s| == |src|
  {
    if n == 0 then seq(|src|, i => EMPTY)
    else
      var s := Copied(src, n - 1, bits, t);
      var e := src[n - 1];
      if e.Empty() || TableIndex(bits, e.tag) != t || e.offset > n - 1 then s
      else PutFirst(s, n - 1 - e.offset, e.tag, e.kv, e.pba)
  }

  /** Whether slot `i` holds item `x`. */
  function Times(i: int, e: Entry, x: Item): nat {
    if !e.Empty() && ItemOf(i, e) == x then 1 else 0
  }

  /** How often a table holds item `x`. */
  function Count(s: seq<Entry>, x: Item): nat {
    if s == [] then 0 else Count(s[..|s| - 1], x) + Times(|s| - 1, s[|s| - 1], x)
  }

  lemma {:induction false} ViewCounts(s: seq<Entry>, x: Item)
    ensures View(s)[x] == Count(s, x)
  {
    if s != [] {
      ViewCounts(s[..|s| - 1], x);
    }
  }

  lemma {:induction false} CountFill(s: seq<Entry>, i: nat, e: Entry, x: Item)
    requires i < |s| && s[i].Empty()
    ensures Count(s[i := e], x) == Count(s, x) + Times(i, e, x)
  {
    var n := |s| - 1;
    if i == n {
      assert s[i := e][..n] == s[..n];
    } else {
      assert s[i := e][..n] == s[..n][i := e];
      CountFill(s[..n], i, e, x);
    }
  }

  /** Slot `f` takes the item that slot `n` of another table holds. */
  lemma CountPut(s: seq<Entry>, s': seq<Entry>, f: nat, n: nat, e: Entry, x: Item)
    requires f < |s| && s[f].Empty() && !e.Empty() && 0 <= n - e.offset <= f
    requires s' == s[f := Entry(f - (n - e.offset), e.tag, e.kv, e.pba)]
    ensures Count(s', x) == Count(s, x) + Times(n, e, x)
  {
    CountFill(s, f, s'[f], x);
  }

  lemma {:induction false} CountNone(s: seq<Entry>, x: Item)
    requires forall i :: 0 <= i < |s| ==> s[i].Empty()
    ensures Count(s, x) == 0
  {
    if s != [] {
      CountNone(s[..|s| - 1], x);
    }
  }

  /**
    The copy runs in ascending order of old slots, so everything copied so far lies at or below
    where it was, and the slot of the entry being copied is still free: it lands at its old
    slot or lower, without any displacement.
   */
  lemma {:induction false} CopyFits(src: seq<Entry>, n: nat, buckets: nat, bits: nat, t: nat)
    requires WellPlaced(src, buckets) && n <= |src| && bits <= MAX_TABLE_BITS
    ensures WellPlaced(Copied(src, n, bits, t), buckets)
    ensures forall i :: n <= i < |src| ==> Copied(src, n, bits, t)[i].Empty()
  {
    if n > 0 {
      CopyFits(src, n - 1, buckets, bits, t);
      var s := Copied(src, n - 1, bits, t);
      assert s[n - 1].Empty();
      assert WellPlaced(s, buckets);
    }
  }

  lemma LandsNoHigher(src: seq<Entry>, n: nat, buckets: nat, bits: nat, t: nat)
    requires WellPlaced(src, buckets) && n < |src| && bits <= MAX_TABLE_BITS && !src[n].Empty()
    ensures var home := n - src[n].offset;
            0 <= home < buckets && FirstFree(Copied(src, n, bits, t), home) <= n < home + HOP_RANGE
  {
    CopyFits(src, n, buckets, bits, t);
    assert Copied(src, n, bits, t)[n].Empty();
  }

  lemma OneMore(src: seq<Entry>, n: nat, x: Item)
    requires n < |src|
    ensures Count(src[..n + 1], x) == Count(src[..n], x) + Times(n, src[n], x)
  {
    assert src[..n + 1][..n] == src[..n];
  }

  lemma CopyStep(src: seq<Entry>, n: nat, buckets: nat, bits: nat, t: nat)
    requires WellPlaced(src, buckets) && n < |src| && bits <= MAX_TABLE_BITS
    requires !src[n].Empty() && TableIndex(bits, src[n].tag) == t
    ensures var s, home := Copied(src, n, bits, t), n - src[n].offset;
            0 <= home < buckets &&
            var f := FirstFree(s, home);
            && f <= n && f < home + HOP_RANGE && s[f].Empty()
            && Copied(src, n + 1, bits, t) == s[f := Entry(f - home, src[n].tag, src[n].kv, src[n].pba)]
  {
    LandsNoHigher(src, n, buckets, bits, t);
  }

  /** One entry copied is one more of the same item. */
  lemma CopyAddsOne(src: seq<Entry>, n: nat, buckets: nat, bits: nat, t: nat, x: Item)
    requires WellPlaced(src, buckets) && n < |src| && bits <= MAX_TABLE_BITS
    requires !src[n].Empty() && TableIndex(bits, src[n].tag) == t
    ensures Count(Copied(src, n + 1, bits, t), x) == Count(Copied(src, n, bits, t), x) + Times(n, src[n], x)
  {
    CopyStep(src, n, buckets, bits, t);
    var s, s' := Copied(src, n, bits, t), Copied(src, n + 1, bits, t);
    CountPut(s, s', FirstFree(s, n - src[n].offset), n, src[n], x);
  }

  /** An entry for another table leaves this one as it is. */
  lemma CopySkips(src: seq<Entry>, n: nat, bits: nat, t: nat, x: Item)
    requires n < |src| && bits <= MAX_TABLE_BITS && TableIndex(bits, x.tag) == t
    requires src[n].Empty() || TableIndex(bits, src[n].tag) != t
    ensures Copied(src, n + 1, bits, t) == Copied(src, n, bits, t) && Times(n, src[n], x) == 0
  {
  }

  /** The table that takes a tag ends up with exactly the old table's entries of that tag. */
  lemma {:induction false} CopyKeepsItems(src: seq<Entry>, n: nat, buckets: nat, bits: nat, t: nat, x: Item)
    requires WellPlaced(src, buckets) && n <= |src| && bits <= MAX_TABLE_BITS && TableIndex(bits, x.tag) == t
    ensures Count(Copied(src, n, bits, t), x) == Count(src[..n], x)
  {
    if n == 0 {
      CountNone(Copied(src, 0, bits, t), x);
    } else {
      CopyKeepsItems(src, n - 1, buckets, bits, t, x);
      OneMore(src, n - 1, x);
      if !src[n - 1].Empty() && TableIndex(bits, src[n - 1].tag) == t {
        CopyAddsOne(src, n - 1, buckets, bits, t, x);
      } else {
        CopySkips(src, n - 1, bits, t, x);
      }
    }
  }

  // ---------------------------------------------------------------- growing the directory

  /** Entries lie in the table their tag selects. */
  ghost predicate Selected(s: seq<Entry>, bits: nat, t: nat)
    requires bits <= MAX_TABLE_BITS
  {
    forall i :: 0 <= i < |s| && !s[i].Empty() ==> TableIndex(bits, s[i].tag) == t
  }

  ghost predicate Distinct(tables: seq<HashTable>) {
    forall i, j :: 0 <= i < |tables| && 0 <= j < |tables| && i != j ==> tables[i].slots != tables[j].slots
  }

  ghost function Slots(tables: seq<HashTable>): set<object> {
    set i | 0 <= i < |tables| :: tables[i].slots
  }

  ghost predicate AllOf(tables: seq<HashTable>, buckets: nat)
    reads set i | 0 <= i < |tables| :: tables[i], Slots(tables)
  {
    Distinct(tables) && forall i :: 0 <= i < |tables| ==> tables[i].buckets == buckets && tables[i].Valid()
  }

  /** The bits an entry stores: enough for its bucket, its tag and so its new table. */
  function StoredHash(tag: nat, buckets: nat, home: nat): nat {
    tag * buckets + home
  }

  lemma StoredHashIs(tag: nat, buckets: nat, home: nat)
    requires home < buckets && tag < TAG_RANGE
    ensures StoredHash(tag, buckets, home) % buckets == home
    ensures StoredHash(tag, buckets, home) / buckets % TAG_RANGE == tag
  {
    var h := StoredHash(tag, buckets, home);
    assert h == h / buckets * buckets + h % buckets;
    assert (tag - h / buckets) * buckets == h % buckets - home;
    SmallMultiple(tag - h / buckets, buckets);
  }

  lemma SmallMultiple(q: int, d: int)
    requires -d < q * d < d
    ensures q == 0
  {
    assert q >= 1 ==> q * d >= d;
    assert q <= -1 ==> q * d <= -d;
  }

  /** Copy one slot of an old table: the insert it takes always fits where it should. */
  method CopySlot(src: HashTable, s: nat, into: HashTable, bits: nat, t: nat)
    requires src.Valid() && into.Valid() && into.buckets == src.buckets && src.slots != into.slots
    requires bits <= MAX_TABLE_BITS && s < src.slots.Length && !src.slots[s].Empty() &&
        TableIndex(bits, src.slots[s].tag) == t
    requires into.slots[..] == Copied(src.slots[..], s, bits, t)
    modifies into.slots
    ensures into.Valid() && into.slots[..] == Copied(src.slots[..], s + 1, bits, t)
  {
    var e := src.slots[s];
    var home := s - e.offset;
    CopyStep(src.slots[..], s, src.buckets, bits, t);
    StoredHashIs(e.tag, src.buckets, home);
    var ok := into.InsertLocked(StoredHash(e.tag, src.buckets, home), e.kv, e.pba);
    assert ok;
  }

  /** Copy one old table into its two successors, slot by slot in ascending order. */
  method CopyTable(src: HashTable, p: nat, grown: seq<HashTable>, bits: nat, buckets: nat)
    requires bits < MAX_TABLE_BITS && |grown| == Pow2(bits + 1) && 2 * p + 1 < |grown|
    requires src.Valid() && src.buckets == buckets && AllOf(grown, buckets) && src.slots !in Slots(grown)
    requires Selected(src.slots[..], bits, p)
    requires forall j :: 0 <= j < |grown| && j / 2 == p ==> grown[j].slots[..] == Copied(src.slots[..], 0, bits + 1, j)
    modifies Slots(grown)
    ensures AllOf(grown, buckets)
    ensures forall j :: 0 <= j < |grown| && j / 2 == p ==>
              grown[j].slots[..] == Copied(src.slots[..], src.slots.Length, bits + 1, j)
    ensures forall j :: 0 <= j < |grown| && j / 2 != p ==> grown[j].slots[..] == old(grown[j].slots[..])
  {
    ghost var all := src.slots[..];
    var s := 0;
    while s < src.slots.Length
      invariant 0 <= s <= src.slots.Length && src.slots[..] == all && src.Valid()
      invariant AllOf(grown, buckets)
      invariant forall j :: 0 <= j < |grown| && j / 2 == p ==> grown[j].slots[..] == Copied(all, s, bits + 1, j)
      invariant forall j :: 0 <= j < |grown| && j / 2 != p ==> grown[j].slots[..] == old(grown[j].slots[..])
    {
      var e := src.slots[s];
      if !e.Empty() {
        var t := TableIndex(bits + 1, e.tag);
        IndexInBounds(bits + 1, e.tag);
        assert t / 2 == p;
        CopySlot(src, s, grown[t], bits + 1, t);
      }
      s := s + 1;
    }
  }

  /** Where entries lie is a matter of the table's contents alone. */
  lemma SelectedIsOfItems(s: seq<Entry>, bits: nat, t: nat)
    requires bits <= MAX_TABLE_BITS
    ensures Selected(s, bits, t) <==> forall x :: x in View(s) ==> TableIndex(bits, x.tag) == t
  {
    forall x | x in View(s) ensures exists i :: 0 <= i < |s| && !s[i].Empty() && ItemOf(i, s[i]) == x {
      var i := ViewFrom(s, x);
    }
    forall i | 0 <= i < |s| && !s[i].Empty() ensures ItemOf(i, s[i]) in View(s) {
      InView(s, i);
    }
    if forall x :: x in View(s) ==> TableIndex(bits, x.tag) == t {
      assert forall i :: 0 <= i < |s| && !s[i].Empty() ==> TableIndex(bits, ItemOf(i, s[i]).tag) == t;
    }
  }

  /** A table that gains only an item of the tags it takes still holds no others. */
  lemma SelectedStays(s: seq<Entry>, s': seq<Entry>, bits: nat, t: nat, x: Item)
    requires bits <= MAX_TABLE_BITS && Selected(s, bits, t) && TableIndex(bits, x.tag) == t
    requires View(s') <= View(s) + multiset{x}
    ensures Selected(s', bits, t)
  {
    SelectedIsOfItems(s, bits, t);
    SelectedIsOfItems(s', bits, t);
    forall y | y in View(s') ensures TableIndex(bits, y.tag) == t {
      assert View(s')[y] <= (View(s) + multiset{x})[y];
    }
  }

  /** insert_locked of a hash this table takes, whether it succeeds or not. */
  method InsertSelected(table: HashTable, bits: nat, t: nat, hash: nat, kv: nat, pba: nat) returns (ok: bool)
    requires table.Valid() && kv < KV_RANGE && pba < UNUSED_PBA && bits <= MAX_TABLE_BITS
    requires Selected(table.slots[..], bits, t) && TableIndex(bits, table.Tag(hash)) == t
    modifies table.slots
    ensures table.Valid() && Selected(table.slots[..], bits, t)
    ensures ok ==> Added(old(table.slots[..]), table.slots[..], table.Bucket(hash), table.Tag(hash), kv, pba)
    ensures !ok ==> Refused(old(table.slots[..]), table.slots[..], table.Bucket(hash))
  {
    ghost var before := table.slots[..];
    ok := table.InsertLocked(hash, kv, pba);
    SelectedStays(before, table.slots[..], bits, t, Item(table.Bucket(hash), table.Tag(hash), kv, pba));
  }

  /** update_locked of a hash this table takes. */
  method UpdateSelected(table: HashTable, bits: nat, t: nat, hash: nat, oldPba: nat, kv: nat, pba: nat)
    returns (ok: bool)
    requires table.Valid() && kv < KV_RANGE && pba < UNUSED_PBA && bits <= MAX_TABLE_BITS
    requires Selected(table.slots[..], bits, t) && TableIndex(bits, table.Tag(hash)) == t
    modifies table.slots
    ensures table.Valid() && Selected(table.slots[..], bits, t)
  {
    ghost var before := table.slots[..];
    ghost var was;
    ok, was := table.UpdateLocked(hash, oldPba, kv, pba);
    ghost var x := Item(table.Bucket(hash), table.Tag(hash), kv, pba);
    if ok {
      TakenFrom(View(table.slots[..]), multiset{x.(kv := was, pba := oldPba)}, View(before) + multiset{x});
    }
    SelectedStays(before, table.slots[..], bits, t, x);
  }

  lemma TakenFrom<T>(a: multiset<T>, b: multiset<T>, c: multiset<T>)
    requires a + b == c
    ensures a <= c
  {
    assert c - b == a;
  }

  /** remove_locked, of whatever hash. */
  method RemoveSelected(table: HashTable, bits: nat, t: nat, hash: nat, pba: nat) returns (ok: bool)
    requires table.Valid() && bits <= MAX_TABLE_BITS
    requires Selected(table.slots[..], bits, t)
    modifies table.slots
    ensures table.Valid() && Selected(table.slots[..], bits, t)
  {
    ghost var before := table.slots[..];
    ghost var was;
    ok, was := table.RemoveLocked(hash, pba);
    if ok {
      ghost var i :| ClearedAt(before, table.slots[..], i, pba);
    }
  }

  /** The copy leaves entries where their tags select, as the next grow relies on. */
  lemma {:induction false} CopySelects(src: seq<Entry>, n: nat, buckets: nat, bits: nat, t: nat)
    requires WellPlaced(src, buckets) && n <= |src| && bits <= MAX_TABLE_BITS
    ensures Selected(Copied(src, n, bits, t), bits, t)
  {
    if n > 0 {
      CopySelects(src, n - 1, buckets, bits, t);
    }
  }

  /**
    grow()'s copy, `src` being what the frozen tables hold: doubling the tables never runs out of
    room or displaces anything, and each new table is its parent's entries of the right tags, each
    at its old slot or lower.
   */
  method CopyAll(tables: seq<HashTable>, grown: seq<HashTable>, bits: nat, buckets: nat, ghost src: seq<seq<Entry>>)
    requires bits < MAX_TABLE_BITS && |tables| == Pow2(bits) && |grown| == Pow2(bits + 1)
    requires AllOf(tables, buckets) && AllOf(grown, buckets) && Slots(tables) !! Slots(grown)
    requires |src| == |tables| && forall i :: 0 <= i < |tables| ==>
        src[i] == tables[i].slots[..] && Selected(src[i], bits, i)
    requires forall j, i :: 0 <= j < |grown| && 0 <= i < grown[j].slots.Length ==> grown[j].slots[i] == EMPTY
    modifies Slots(grown)
    ensures AllOf(grown, buckets)
    ensures forall j :: 0 <= j < |grown| ==> grown[j].slots[..] == Copied(src[j / 2], |src[j / 2]|, bits + 1, j)
  {
    assert forall j :: 0 <= j < |grown| ==> grown[j].slots[..] == Copied(src[j / 2], 0, bits + 1, j);
    var p := 0;
    while p < |tables|
      invariant 0 <= p <= |tables| && AllOf(grown, buckets) && AllOf(tables, buckets)
      invariant forall i :: 0 <= i < |tables| ==> tables[i].slots[..] == src[i]
      invariant forall j :: 0 <= j < |grown| ==>
                  grown[j].slots[..] == Copied(src[j / 2], if j / 2 < p then |src[j / 2]| else 0, bits + 1, j)
    {
      CopyTable(tables[p], p, grown, bits, buckets);
      p := p + 1;
    }
  }

  /**
    For every hash, the entries (live and deleted) a lookup can find after the grow, in the table
    it then selects, are those it could find before, each as often.
   */
  lemma GrowKeepsMeaning(tables: seq<seq<Entry>>, grown: seq<seq<Entry>>, bits: nat, buckets: nat, hash: nat)
    requires bits < MAX_TABLE_BITS && |tables| == Pow2(bits) && |grown| == Pow2(bits + 1) && buckets > 0
    requires forall i :: 0 <= i < |tables| ==> WellPlaced(tables[i], buckets)
    requires forall j :: 0 <= j < |grown| ==> grown[j] == Copied(tables[j / 2], |tables[j / 2]|, bits + 1, j)
    ensures var bucket, tag := hash % buckets, hash / buckets % TAG_RANGE;
            && TableIndex(bits, tag) < |tables| && TableIndex(bits + 1, tag) < |grown|
            && forall x: Item :: x.home == bucket && x.tag == tag ==>
                 View(grown[TableIndex(bits + 1, tag)])[x] == View(tables[TableIndex(bits, tag)])[x]
  {
    var bucket, tag := hash % buckets, hash / buckets % TAG_RANGE;
    IndexInBounds(bits, tag);
    IndexInBounds(bits + 1, tag);
    var j := TableIndex(bits + 1, tag);
    var src := tables[j / 2];
    assert src[..|src|] == src;
    forall x: Item | x.home == bucket && x.tag == tag ensures View(grown[j])[x] == View(src)[x] {
      CopyKeepsItems(src, |src|, buckets, bits + 1, j, x);
      ViewCounts(grown[j], x);
      ViewCounts(src, x);
    }
  }
}
