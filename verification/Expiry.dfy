/**
 Expiry times and the expiry index. A record with a TTL is filed under a slot
 of the index; the garbage collector walks slots in key order.
 */
module Expiry {
  import opened Ordering

  const U64_MAX: nat := 0xFFFF_FFFF_FFFF_FFFF
  const EXPIRY_INDEX_QUANTUM_MS: nat := 3_600_000

  type Time = t: nat | t <= U64_MAX

  /** Expiry 0 means the record never expires. */
  predicate Expired(exp: nat, now: nat) { exp != 0 && now >= exp }

  function ExpiryAt(now: Time, ttl: Time): (exp: Time)
    ensures ttl > 0 ==> exp >= now
    ensures ttl == 0 <==> exp == 0
  {
    if ttl == 0 then 0 else if now + ttl <= U64_MAX then now + ttl else U64_MAX
  }

  /** A record with a TTL is live for exactly that long, as far as the clock goes; without one it never expires. */
  lemma LivesFor(now: Time, ttl: Time, later: Time)
    ensures !Expired(ExpiryAt(now, ttl), later) <==> ttl == 0 || (later < now + ttl && later < U64_MAX)
  {
  }

  function DivCeil(a: nat, b: nat): (r: nat)
    requires b > 0
  {
    if a % b == 0 then a / b else a / b + 1
  }

  /** The index may fire late, by less than one quantum, and never early. */
  function QuantizedIndexExpiry(now: Time, exp: Time): (slot: Time)
    ensures exp <= slot < exp + EXPIRY_INDEX_QUANTUM_MS
  {
    if exp < now + EXPIRY_INDEX_QUANTUM_MS then exp
    else
      var up := DivCeil(exp, EXPIRY_INDEX_QUANTUM_MS) * EXPIRY_INDEX_QUANTUM_MS;
      if up <= U64_MAX then up else U64_MAX
  }

  /** What an index slot points at: the column family and the primary key. */
  datatype Ref =
    | EntryRef(seqno: nat)
    | OwnerRef(owner: string)
    | PathRef(path: string, seqno: nat)
    | AliveRef(owner: string)
    | DedupeRef(client: string, seqno: nat)

  datatype Slot = Slot(exp: nat, ref: Ref)

  /** Filing a record that expires at `exp`; records without a TTL get no slot. */
  function FileSlot(slots: set<Slot>, now: Time, exp: Time, ref: Ref): (r: set<Slot>) {
    if exp == 0 then slots else slots + {Slot(QuantizedIndexExpiry(now, exp), ref)}
  }

  /** A stored record is covered when the index still has a slot that will reach it. */
  ghost predicate Covered(slots: set<Slot>, exp: nat, ref: Ref) {
    exp == 0 || exists s :: s in slots && s.ref == ref && exp <= s.exp < exp + EXPIRY_INDEX_QUANTUM_MS
  }

  lemma FileSlotCovers(slots: set<Slot>, now: Time, exp: Time, ref: Ref)
    ensures Covered(FileSlot(slots, now, exp, ref), exp, ref)
    ensures slots <= FileSlot(slots, now, exp, ref)
    ensures forall s :: s in FileSlot(slots, now, exp, ref) - slots ==> s.ref == ref && s.exp >= exp
  {
    if exp != 0 {
      var s := Slot(QuantizedIndexExpiry(now, exp), ref);
      assert s in FileSlot(slots, now, exp, ref) && s.ref == ref;
    }
  }

  // --- key order of slots: timestamp, then column family, then primary key ---

  function RefRank(r: Ref): nat {
    match r
    case EntryRef(_) => 0
    case OwnerRef(_) => 1
    case PathRef(_, _) => 2
    case AliveRef(_) => 3
    case DedupeRef(_, _) => 4
  }

  predicate RefLess(a: Ref, b: Ref) {
    if RefRank(a) != RefRank(b) then RefRank(a) < RefRank(b)
    else match a
      case EntryRef(s) => s < b.seqno
      case OwnerRef(o) => StrLess(o, b.owner)
      case PathRef(p, s) => StrLess(p, b.path) || (p == b.path && s < b.seqno)
      case AliveRef(o) => StrLess(o, b.owner)
      case DedupeRef(c, s) => StrLess(c, b.client) || (c == b.client && s < b.seqno)
  }

  predicate SlotLess(a: Slot, b: Slot) {
    a.exp < b.exp || (a.exp == b.exp && RefLess(a.ref, b.ref))
  }

  lemma SlotLessTotal()
    ensures StrictTotal(SlotLess)
  {
    StrLessTotal();
    forall a: Slot, b: Slot | a != b ensures SlotLess(a, b) || SlotLess(b, a) {
      if a.exp == b.exp { assert a.ref != b.ref; assert RefLess(a.ref, b.ref) || RefLess(b.ref, a.ref); }
    }
    forall a, b | SlotLess(a, b) ensures !SlotLess(b, a) { }
    forall a, b, c | SlotLess(a, b) && SlotLess(b, c) ensures SlotLess(a, c) { }
  }

  function SortedSlots(s: set<Slot>): (r: seq<Slot>)
    ensures forall x :: x in r <==> x in s
    ensures |r| == |s|
    ensures Ascending(r, SlotLess)
  {
    SlotLessTotal();
    Sorted(s, SlotLess)
  }
}
