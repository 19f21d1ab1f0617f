/** The packed 64-bit directory entry. Shifts and masks of disjoint fields are written as arithmetic. */
module HashEntry {

  const HOP_RANGE: nat := 32           // 5 bits of bucket offset
  const TAG_RANGE: nat := 256          // 8 bits of tag
  const KV_RANGE: nat := 2048          // 11 bits of size in grains
  const PBA_RANGE: nat := 0x100_0000_0000   // 40 bits of address
  const UNUSED_PBA: nat := PBA_RANGE - 1

  const TAG_SHIFT: nat := 0x20
  const KV_SHIFT: nat := 0x2000
  const PBA_SHIFT: nat := 0x100_0000

  datatype Entry = Entry(offset: nat, tag: nat, kv: nat, pba: nat) {
    predicate Empty() { pba == UNUSED_PBA }

    predicate Deleted() { !Empty() && kv == 0 }

    predicate InRange() { offset < HOP_RANGE && tag < TAG_RANGE && kv < KV_RANGE && pba < PBA_RANGE }
  }

  const EMPTY: Entry := Entry(HOP_RANGE - 1, TAG_RANGE - 1, KV_RANGE - 1, UNUSED_PBA)

  /** HashEntry::make: every field is cut to its width. */
  function Make(offset: nat, tag: nat, kv: nat, pba: nat): (e: Entry)
    ensures e.InRange()
    ensures Entry(offset, tag, kv, pba).InRange() ==> e == Entry(offset, tag, kv, pba)
  {
    Entry(offset % HOP_RANGE, tag % TAG_RANGE, kv % KV_RANGE, pba % PBA_RANGE)
  }

  function Pack(e: Entry): nat {
    e.offset + e.tag * TAG_SHIFT + e.kv * KV_SHIFT + e.pba * PBA_SHIFT
  }

  function Unpack(raw: nat): Entry {
    Entry(raw % HOP_RANGE, raw / TAG_SHIFT % TAG_RANGE, raw / KV_SHIFT % KV_RANGE, raw / PBA_SHIFT % PBA_RANGE)
  }

  /** Every field comes back out of the 64 bits, and the all-ones word is the empty entry. */
  lemma PackRoundTrip(e: Entry)
    requires e.InRange()
    ensures Pack(e) < 0x1_0000_0000_0000_0000
    ensures Unpack(Pack(e)) == e
    ensures Pack(EMPTY) == 0xffff_ffff_ffff_ffff
  {
    var hi := e.kv + e.pba * KV_RANGE;
    var mid := e.tag + hi * TAG_RANGE;
    assert Pack(e) == e.offset + mid * HOP_RANGE;
    assert Pack(e) / TAG_SHIFT == mid;
    assert mid / TAG_RANGE == hi;
    assert Pack(e) / KV_SHIFT == hi;
    assert Pack(e) / PBA_SHIFT == e.pba;
  }

  /** No 64-bit word is lost or confused with another. */
  lemma UnpackRoundTrip(raw: nat)
    requires raw < 0x1_0000_0000_0000_0000
    ensures Unpack(raw).InRange() && Pack(Unpack(raw)) == raw
  {
    var mid := raw / HOP_RANGE;
    var hi := mid / TAG_RANGE;
    assert raw / KV_SHIFT == hi;
    assert raw / PBA_SHIFT == hi / KV_RANGE;
    assert raw == raw % HOP_RANGE + mid * HOP_RANGE;
    assert mid == mid % TAG_RANGE + hi * TAG_RANGE;
    assert hi == hi % KV_RANGE + hi / KV_RANGE * KV_RANGE;
  }
}
