/** The hopscotch table: slots, their abstract contents, and the operations done under stripe locks. */
module HashTables {
  import opened HashEntry

  const MAX_DISPLACE: nat := 64
  /** A write searches this many slots from its bucket for a free one. */
  const SEARCH_END: nat := HOP_RANGE * (MAX_DISPLACE + 1)

  /** What an entry says, wherever displacement has put it. */
  datatype Item = Item(home: int, tag: nat, kv: nat, pba: nat)

  function ItemOf(i: int, e: Entry): Item {
    Item(i - e.offset, e.tag, e.kv, e.pba)
  }

  function ItemsAt(i: int, e: Entry): multiset<Item> {
    if e.Empty() then multiset{} else multiset{ItemOf(i, e)}
  }

  /** The contents of a table: each entry with its home bucket, however often it occurs. */
  function View(s: seq<Entry>): multiset<Item> {
    if s == [] then multiset{} else View(s[..|s| - 1]) + ItemsAt(|s| - 1, s[|s| - 1])
  }

  lemma AddBoth<T>(a: multiset<T>, b: multiset<T>, x: multiset<T>, y: multiset<T>, r: multiset<T>)
    requires a + x == b + y
    ensures (a + r) + x == (b + r) + y
  {
    assert (a + r) + x == (a + x) + r && (b + r) + y == (b + y) + r;
  }

  lemma Cancel<T>(a: multiset<T>, b: multiset<T>, x: multiset<T>)
    requires a + x == b + x
    ensures a == b
  {
    assert (a + x) - x == a && (b + x) - x == b;
  }

  lemma {:induction false} ViewUpdate(s: seq<Entry>, i: nat, e: Entry)
    requires i < |s|
    ensures View(s[i := e]) + ItemsAt(i, s[i]) == View(s) + ItemsAt(i, e)
  {
    var n, s' := |s| - 1, s[i := e];
    if i == n {
      assert s'[..n] == s[..n];
      assert View(s') == View(s[..n]) + ItemsAt(n, e);
      assert View(s) == View(s[..n]) + ItemsAt(n, s[n]);
    } else {
      assert s'[..n] == s[..n][i := e];
      ViewUpdate(s[..n], i, e);
      AddBoth(View(s'[..n]), View(s[..n]), ItemsAt(i, s[i]), ItemsAt(i, e), ItemsAt(n, s[n]));
    }
  }

  /** An empty slot is filled, or a full one emptied. */
  lemma ViewFill(s: seq<Entry>, i: nat, e: Entry)
    requires i < |s|
    ensures s[i].Empty() ==> View(s[i := e]) == View(s) + ItemsAt(i, e)
    ensures e.Empty() ==> View(s[i := e]) + ItemsAt(i, s[i]) == View(s)
  {
    ViewUpdate(s, i, e);
  }

  /** Table invariant: an entry lies less than a neighborhood past a valid home bucket. */
  ghost predicate WellPlaced(s: seq<Entry>, buckets: nat) {
    && |s| == buckets + HOP_RANGE
    && forall i :: 0 <= i < |s| ==> s[i].InRange() && (!s[i].Empty() ==> 0 <= i - s[i].offset < buckets)
  }

  /** The first free slot at or above `from`, or the end of the table. */
  function FirstFree(s: seq<Entry>, from: nat): (f: nat)
    requires from <= |s|
    ensures from <= f <= |s|
    ensures f < |s| ==> s[f].Empty()
    ensures forall i :: from <= i < f ==> !s[i].Empty()
    decreases |s| - from
  {
    if from == |s| || s[from].Empty() then from else FirstFree(s, from + 1)
  }

  /** The entry at `i` cannot move up to `free` without leaving its neighborhood. */
  predicate Pinned(s: seq<Entry>, i: nat, free: nat)
    requires i < |s|
  {
    !s[i].Empty() && free - (i - s[i].offset) >= HOP_RANGE
  }

  /** No free slot in reach: the window is full, or its free slot cannot be brought nearer. */
  ghost predicate NoRoom(s: seq<Entry>, bucket: nat) {
    || (forall i :: bucket <= i < bucket + SEARCH_END && i < |s| ==> !s[i].Empty())
    || (exists f :: bucket + HOP_RANGE <= f < bucket + SEARCH_END && f < |s| && s[f].Empty() &&
                    forall i :: f - HOP_RANGE < i < f ==> Pinned(s, i, f))
  }

  /** The entry at `from` in `s` has moved to `to`, keeping its home. */
  ghost predicate MovedUp(s: seq<Entry>, s': seq<Entry>, from: nat, to: nat) {
    && from < to < |s| && !s[from].Empty() && s[to].Empty()
    && s' == s[to := Make(to - from + s[from].offset, s[from].tag, s[from].kv, s[from].pba)][from := EMPTY]
    && to - from + s[from].offset < HOP_RANGE
  }

  lemma MoveKeepsPlaces(s: seq<Entry>, s': seq<Entry>, buckets: nat, from: nat, to: nat)
    requires WellPlaced(s, buckets) && MovedUp(s, s', from, to)
    ensures WellPlaced(s', buckets)
  {
  }

  lemma MoveKeepsItems(s: seq<Entry>, from: nat, to: nat, e: Entry)
    requires from < |s| && to < |s| && from != to && s[to].Empty() && ItemsAt(to, e) == ItemsAt(from, s[from])
    ensures View(s[to := e][from := EMPTY]) == View(s)
  {
    var s1 := s[to := e];
    ViewFill(s, to, e);
    ViewFill(s1, from, EMPTY);
    Cancel(View(s1[from := EMPTY]), View(s), ItemsAt(from, s[from]));
  }

  lemma MoveKeepsView(s: seq<Entry>, s': seq<Entry>, buckets: nat, from: nat, to: nat)
    requires WellPlaced(s, buckets) && MovedUp(s, s', from, to)
    ensures View(s') == View(s) && WellPlaced(s', buckets)
  {
    MoveKeepsPlaces(s, s', buckets, from, to);
    MoveKeepsItems(s, from, to, Make(to - from + s[from].offset, s[from].tag, s[from].kv, s[from].pba));
  }

  /** Slots outside the search window of `bucket` are as they were. */
  ghost predicate OnlyWindow(s0: seq<Entry>, s: seq<Entry>, bucket: nat) {
    |s| == |s0| && forall i :: 0 <= i < |s| && !(bucket <= i < bucket + SEARCH_END) ==> s[i] == s0[i]
  }

  /** `free` is the only free slot from `bucket` up to it, after moves that lost nothing. */
  ghost predicate Cleared(s0: seq<Entry>, s: seq<Entry>, buckets: nat, bucket: nat, free: nat) {
    && WellPlaced(s, buckets) && View(s) == View(s0) && OnlyWindow(s0, s, bucket)
    && bucket <= free < |s| && free < bucket + SEARCH_END
    && s[free].Empty() && (forall i :: bucket <= i < free ==> !s[i].Empty())
    && (s == s0 || FirstFree(s0, bucket) >= bucket + HOP_RANGE)
  }

  lemma FirstFreeIs(s: seq<Entry>, bucket: nat, free: nat)
    requires bucket <= free < |s| && s[free].Empty() && forall i :: bucket <= i < free ==> !s[i].Empty()
    ensures FirstFree(s, bucket) == free
  {
  }

  /** The contents gained one entry; where there was room near the bucket, nothing moved for it. */
  ghost predicate Added(s0: seq<Entry>, s: seq<Entry>, bucket: nat, tag: nat, kv: nat, pba: nat) {
    && View(s) == View(s0) + multiset{Item(bucket, tag, kv, pba)}
    && OnlyWindow(s0, s, bucket)
    && (bucket <= |s0| && FirstFree(s0, bucket) < |s0| && FirstFree(s0, bucket) < bucket + HOP_RANGE ==>
          s == s0[FirstFree(s0, bucket) := Entry(FirstFree(s0, bucket) - bucket, tag, kv, pba)])
  }

  /** The contents are what they were, and no free slot could be brought near the bucket. */
  ghost predicate Refused(s0: seq<Entry>, s: seq<Entry>, bucket: nat) {
    && View(s) == View(s0) && OnlyWindow(s0, s, bucket) && NoRoom(s, bucket)
    && (bucket <= |s0| ==> FirstFree(s0, bucket) >= bucket + HOP_RANGE)
  }

  lemma ClearedNearer(s0: seq<Entry>, s: seq<Entry>, s': seq<Entry>, buckets: nat, bucket: nat, free: nat, free': nat)
    requires bucket <= |s0| && Cleared(s0, s, buckets, bucket, free) && free - bucket >= HOP_RANGE
    requires |s'| == |s| && bucket <= free' < free && s'[free'].Empty()
    requires forall i :: 0 <= i < |s| && i != free && i != free' ==> s'[i] == s[i]
    requires View(s') == View(s) && WellPlaced(s', buckets)
    ensures Cleared(s0, s', buckets, bucket, free')
  {
    FirstFreeIs(s, bucket, free);
  }

  lemma ClearedStuck(s0: seq<Entry>, s: seq<Entry>, buckets: nat, bucket: nat, free: nat)
    requires bucket <= |s0| && Cleared(s0, s, buckets, bucket, free) && bucket + HOP_RANGE <= free
    requires forall i :: free - HOP_RANGE < i < free ==> s[i].Empty() || Pinned(s, i, free)
    ensures Refused(s0, s, bucket)
  {
    FirstFreeIs(s, bucket, free);
    assert forall i :: free - HOP_RANGE < i < free ==> Pinned(s, i, free);
  }

  lemma FullRefuses(s: seq<Entry>, bucket: nat)
    requires bucket + HOP_RANGE <= |s|
    requires forall i :: bucket <= i < bucket + SEARCH_END && i < |s| ==> !s[i].Empty()
    ensures Refused(s, s, bucket)
  {
  }

  lemma ClearedTakes(s0: seq<Entry>, s: seq<Entry>, buckets: nat, bucket: nat, free: nat, e: Entry)
    requires bucket < buckets && Cleared(s0, s, buckets, bucket, free) && free - bucket < HOP_RANGE
    requires e.InRange() && !e.Empty() && e.offset == free - bucket
    ensures WellPlaced(s[free := e], buckets)
    ensures Added(s0, s[free := e], bucket, e.tag, e.kv, e.pba)
  {
    PlaceAt(s, buckets, bucket, free, e);
    TakesInWindow(s0, s, bucket, free, e);
    FirstFreeIs(s, bucket, free);
  }

  lemma TakesInWindow(s0: seq<Entry>, s: seq<Entry>, bucket: nat, free: nat, e: Entry)
    requires OnlyWindow(s0, s, bucket) && bucket <= free < |s| && free < bucket + SEARCH_END
    ensures OnlyWindow(s0, s[free := e], bucket)
  {
  }

  lemma PlaceAt(s: seq<Entry>, buckets: nat, bucket: nat, free: nat, e: Entry)
    requires bucket < buckets && WellPlaced(s, buckets) && free < |s| && s[free].Empty()
    requires e.InRange() && !e.Empty() && e.offset == free - bucket
    ensures WellPlaced(s[free := e], buckets)
    ensures View(s[free := e]) == View(s) + multiset{Item(bucket, e.tag, e.kv, e.pba)}
  {
    ViewFill(s, free, e);
    assert ItemsAt(free, e) == multiset{Item(bucket, e.tag, e.kv, e.pba)};
  }

  /** The slot of an entry for `pba` has been cleared, and no other touched. */
  predicate ClearedAt(s: seq<Entry>, s': seq<Entry>, i: nat, pba: nat) {
    i < |s| && s' == s[i := EMPTY] && !s[i].Empty() && s[i].pba == pba
  }

  class HashTable {
    /** A power of two, so that masking and shifting a hash are a remainder and a quotient. */
    const buckets: nat
    const slots: array<Entry>

    ghost predicate Valid()
      reads this, slots
    {
      buckets > 0 && WellPlaced(slots[..], buckets)
    }

    /** A new table, every slot unused. */
    constructor (buckets: nat)
      requires buckets > 0
      ensures Valid() && this.buckets == buckets && fresh(slots)
      ensures View(slots[..]) == multiset{} && forall i :: 0 <= i < slots.Length ==> slots[i] == EMPTY
    {
      this.buckets := buckets;
      slots := new Entry[buckets + HOP_RANGE](i => EMPTY);
      new;
      NoItems(slots[..]);
    }

    function Bucket(hash: nat): (b: nat)
      requires buckets > 0
      ensures b < buckets
    {
      hash % buckets
    }

    function Tag(hash: nat): (t: nat)
      requires buckets > 0
      ensures t < TAG_RANGE
    {
      hash / buckets % TAG_RANGE
    }

    method FindFreeSlot(bucket: nat) returns (idx: nat)
      requires Valid() && bucket < buckets
      ensures bucket <= idx <= slots.Length
      ensures idx < slots.Length ==> idx == FirstFree(slots[..], bucket) && idx < bucket + SEARCH_END
      ensures idx == slots.Length ==>
                forall i :: bucket <= i < bucket + SEARCH_END && i < slots.Length ==> !slots[i].Empty()
    {
      var limit := if bucket + SEARCH_END < slots.Length then bucket + SEARCH_END else slots.Length;
      idx := bucket;
      while idx < limit
        invariant bucket <= idx <= limit
        invariant forall i :: bucket <= i < idx ==> !slots[i].Empty()
      {
        if slots[idx].Empty() {
          return;
        }
        idx := idx + 1;
      }
      idx := slots.Length;
    }

    /** Move an entry up into the free slot, which then is where the entry was. */
    method DisplaceToward(target: nat, free: nat) returns (moved: bool, free': nat)
      requires Valid() && target <= free < slots.Length && slots[free].Empty()
      modifies slots
      ensures Valid() && View(slots[..]) == old(View(slots[..]))
      ensures moved ==> target <= free' && MovedUp(old(slots[..]), slots[..], free', free)
      ensures !moved ==> free' == free && slots[..] == old(slots[..])
      ensures !moved && free >= target + HOP_RANGE ==>
                forall i :: free - HOP_RANGE < i < free ==> slots[i].Empty() || Pinned(slots[..], i, free)
    {
      var dist := HOP_RANGE - 1;
      while dist > 0
        invariant 0 <= dist < HOP_RANGE
        invariant slots[..] == old(slots[..])
        invariant free >= target + HOP_RANGE ==>
                    forall i :: free - HOP_RANGE < i < free - dist ==> slots[i].Empty() || Pinned(slots[..], i, free)
      {
        if free >= dist {
          var candidate := free - dist;
          if candidate < target {
            break;
          }
          var e := slots[candidate];
          if !e.Empty() {
            var home := candidate - e.offset;
            if free - home < HOP_RANGE {
              slots[free] := Make(free - home, e.tag, e.kv, e.pba);
              slots[candidate] := EMPTY;
              assert MovedUp(old(slots[..]), slots[..], candidate, free);
              MoveKeepsView(old(slots[..]), slots[..], buckets, candidate, free);
              return true, candidate;
            }
          }
        }
        dist := dist - 1;
      }
      return false, free;
    }

    /** Displace entries until the free slot lies in the bucket's neighborhood. */
    method BringNear(bucket: nat, free: nat, ghost s0: seq<Entry>) returns (ok: bool, near: nat)
      requires buckets > 0 && bucket <= |s0| && Cleared(s0, slots[..], buckets, bucket, free)
      modifies slots
      ensures ok ==> Cleared(s0, slots[..], buckets, bucket, near) && near - bucket < HOP_RANGE
      ensures !ok ==> Refused(s0, slots[..], bucket) && Valid()
    {
      near := free;
      while near - bucket >= HOP_RANGE
        invariant Cleared(s0, slots[..], buckets, bucket, near)
        decreases near
      {
        ghost var s1 := slots[..];
        var moved, next := DisplaceToward(bucket, near);
        if !moved {
          ClearedStuck(s0, slots[..], buckets, bucket, near);
          return false, near;
        }
        ClearedNearer(s0, s1, slots[..], buckets, bucket, near, next);
        near := next;
      }
      ok := true;
    }

    /**
      Add one entry, moving others up to make room near its bucket. On success the contents
      gain exactly that entry, on failure nothing, although entries may have moved; slots
      outside the search window stay as they were.
     */
    method InsertLocked(hash: nat, kv: nat, pba: nat) returns (ok: bool)
      requires Valid() && kv < KV_RANGE && pba < UNUSED_PBA
      modifies slots
      ensures Valid()
      ensures ok ==> Added(old(slots[..]), slots[..], Bucket(hash), Tag(hash), kv, pba)
      ensures !ok ==> Refused(old(slots[..]), slots[..], Bucket(hash))
    {
      var bucket, tag := Bucket(hash), Tag(hash);
      ghost var s0 := slots[..];
      var free := FindFreeSlot(bucket);
      if free >= slots.Length {
        FullRefuses(s0, bucket);
        return false;
      }
      ok, free := BringNear(bucket, free, s0);
      if ok {
        ghost var s1 := slots[..];
        slots[free] := Make(free - bucket, tag, kv, pba);
        assert slots[..] == s1[free := Entry(free - bucket, tag, kv, pba)];
        ClearedTakes(s0, s1, buckets, bucket, free, Entry(free - bucket, tag, kv, pba));
      }
    }

    /** The first entry of the neighborhood, from an offset on, that matches the hash. */
    method Lookup(hash: nat, start: nat, includeDeleted: bool) returns (e: Entry)
      requires Valid()
      ensures e.Empty() ==>
                forall i :: start <= i < HOP_RANGE ==> !Matches(slots[..], Bucket(hash), Tag(hash), i, includeDeleted)
      ensures !e.Empty() ==>
                && start <= e.offset < HOP_RANGE && e == slots[Bucket(hash) + e.offset]
                && Matches(slots[..], Bucket(hash), Tag(hash), e.offset, includeDeleted)
                && forall i :: start <= i < e.offset ==> !Matches(slots[..], Bucket(hash), Tag(hash), i, includeDeleted)
    {
      var bucket, tag := Bucket(hash), Tag(hash);
      var i := start;
      while i < HOP_RANGE
        invariant start <= i
        invariant forall j :: start <= j < i && j < HOP_RANGE ==> !Matches(slots[..], bucket, tag, j, includeDeleted)
      {
        e := slots[bucket + i];
        if !e.Empty() && e.offset == i && e.tag == tag && !(e.Deleted() && !includeDeleted) {
          return;
        }
        i := i + 1;
      }
      e := EMPTY;
    }

    /** The slot of the entry (live or deleted) for this hash and address. */
    method FindPba(hash: nat, pba: nat) returns (idx: nat)
      requires Valid()
      ensures idx == slots.Length ==>
                forall i :: 0 <= i < HOP_RANGE ==>
                  !(Matches(slots[..], Bucket(hash), Tag(hash), i, true) && slots[Bucket(hash) + i].pba == pba)
      ensures idx != slots.Length ==>
                && Bucket(hash) <= idx < Bucket(hash) + HOP_RANGE && idx < slots.Length
                && !slots[idx].Empty() && slots[idx].pba == pba
                && ItemOf(idx, slots[idx]) == Item(Bucket(hash), Tag(hash), slots[idx].kv, pba)
    {
      var bucket, tag := Bucket(hash), Tag(hash);
      var i := 0;
      while i < HOP_RANGE
        invariant 0 <= i <= HOP_RANGE
        invariant forall j :: 0 <= j < i ==> !(Matches(slots[..], bucket, tag, j, true) && slots[bucket + j].pba == pba)
      {
        var e := slots[bucket + i];
        if !e.Empty() && e.offset == i && e.tag == tag && e.pba == pba {
          return bucket + i;
        }
        i := i + 1;
      }
      return slots.Length;
    }

    /**
      Replace the entry at (hash, oldPba), whose size was `was`, in place; a size of 0 makes it
      a deleted one. Refused only if there is no such entry.
     */
    method UpdateLocked(hash: nat, oldPba: nat, kv: nat, pba: nat) returns (ok: bool, ghost was: nat)
      requires Valid() && kv < KV_RANGE && pba < UNUSED_PBA
      modifies slots
      ensures Valid()
      ensures !ok ==> slots[..] == old(slots[..])
      ensures !ok ==> forall k :: Item(Bucket(hash), Tag(hash), k, oldPba) !in View(slots[..])
      ensures ok ==>
                && Item(Bucket(hash), Tag(hash), was, oldPba) in old(View(slots[..]))
                && View(slots[..]) + multiset{Item(Bucket(hash), Tag(hash), was, oldPba)} ==
                   old(View(slots[..])) + multiset{Item(Bucket(hash), Tag(hash), kv, pba)}
    {
      var idx := FindPba(hash, oldPba);
      if idx >= slots.Length {
        AbsentFromView(slots[..], buckets, Bucket(hash), Tag(hash), oldPba);
        return false, 0;
      }
      ghost var before := slots[..];
      var e := Make(idx - Bucket(hash), Tag(hash), kv, pba);
      slots[idx] := e;
      assert slots[..] == before[idx := e];
      ReplaceEntry(before, buckets, Bucket(hash), Tag(hash), idx, oldPba, kv, pba);
      return true, before[idx].kv;
    }

    /** Clear the slot holding (hash, pba); refused only if there is none. */
    method RemoveLocked(hash: nat, pba: nat) returns (ok: bool, ghost was: nat)
      requires Valid()
      modifies slots
      ensures Valid()
      ensures !ok ==> slots[..] == old(slots[..])
      ensures !ok ==> forall k :: Item(Bucket(hash), Tag(hash), k, pba) !in View(slots[..])
      ensures ok ==> View(slots[..]) + multiset{Item(Bucket(hash), Tag(hash), was, pba)} == old(View(slots[..]))
      ensures ok ==> exists i :: ClearedAt(old(slots[..]), slots[..], i, pba)
    {
      var idx := FindPba(hash, pba);
      if idx >= slots.Length {
        AbsentFromView(slots[..], buckets, Bucket(hash), Tag(hash), pba);
        return false, 0;
      }
      ghost var before := slots[..];
      slots[idx] := EMPTY;
      assert ClearedAt(before, slots[..], idx, pba);
      ViewFill(before, idx, EMPTY);
      return true, before[idx].kv;
    }
  }

  lemma ReplaceAt(s: seq<Entry>, buckets: nat, i: nat, e: Entry)
    requires WellPlaced(s, buckets) && i < |s| && !s[i].Empty() && e.InRange() && !e.Empty() && e.offset == s[i].offset
    ensures WellPlaced(s[i := e], buckets) && ItemOf(i, s[i]) in View(s)
    ensures View(s[i := e]) + multiset{ItemOf(i, s[i])} == View(s) + multiset{ItemOf(i, e)}
  {
    ViewUpdate(s, i, e);
    InView(s, i);
  }

  /** The same for an entry found at `idx` by its bucket, tag and address. */
  lemma ReplaceEntry(s: seq<Entry>, buckets: nat, bucket: nat, tag: nat, idx: nat, oldPba: nat, kv: nat, pba: nat)
    requires WellPlaced(s, buckets) && bucket < buckets && tag < TAG_RANGE && kv < KV_RANGE && pba < UNUSED_PBA
    requires bucket <= idx < |s| && idx - bucket < HOP_RANGE && Matches(s, bucket, tag, idx - bucket, true)
    requires s[idx].pba == oldPba
    ensures var s', was := s[idx := Make(idx - bucket, tag, kv, pba)], Item(bucket, tag, s[idx].kv, oldPba);
            && WellPlaced(s', buckets) && was in View(s)
            && View(s') + multiset{was} == View(s) + multiset{Item(bucket, tag, kv, pba)}
  {
    var e := Make(idx - bucket, tag, kv, pba);
    assert e == Entry(idx - bucket, tag, kv, pba);
    ReplaceAt(s, buckets, idx, e);
  }

  /** What a scan accepts at offset `i` of a neighborhood. */
  predicate Matches(s: seq<Entry>, bucket: nat, tag: nat, i: nat, includeDeleted: bool)
    requires bucket + i < |s|
  {
    var e := s[bucket + i];
    !e.Empty() && e.offset == i && e.tag == tag && (includeDeleted || !e.Deleted())
  }

  lemma {:induction false} NoItems(s: seq<Entry>)
    requires forall i :: 0 <= i < |s| ==> s[i].Empty()
    ensures View(s) == multiset{}
  {
    if s != [] {
      NoItems(s[..|s| - 1]);
    }
  }

  lemma {:induction false} InView(s: seq<Entry>, i: nat)
    requires i < |s| && !s[i].Empty()
    ensures ItemOf(i, s[i]) in View(s)
  {
    if i < |s| - 1 {
      InView(s[..|s| - 1], i);
    }
  }

  lemma {:induction false} ViewFrom(s: seq<Entry>, x: Item) returns (i: nat)
    requires x in View(s)
    ensures i < |s| && !s[i].Empty() && ItemOf(i, s[i]) == x
  {
    var n := |s| - 1;
    if x in ItemsAt(n, s[n]) {
      i := n;
    } else {
      i := ViewFrom(s[..n], x);
    }
  }

  lemma AbsentFromView(s: seq<Entry>, buckets: nat, bucket: nat, tag: nat, pba: nat)
    requires WellPlaced(s, buckets) && bucket < buckets
    requires forall i :: 0 <= i < HOP_RANGE ==> !(Matches(s, bucket, tag, i, true) && s[bucket + i].pba == pba)
    ensures forall k :: Item(bucket, tag, k, pba) !in View(s)
  {
    forall k ensures Item(bucket, tag, k, pba) !in View(s) {
      if Item(bucket, tag, k, pba) in View(s) {
        var i := ViewFrom(s, Item(bucket, tag, k, pba));
        assert Matches(s, bucket, tag, i - bucket, true);
      }
    }
  }
}
