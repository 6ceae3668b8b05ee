/** Address blocks by prefix arithmetic (section 3.1 of RFC 4632): an address is a number of 32 or 128
    bits, and a block fixes the leading ones. */
module Prefixes {

  datatype Family = V4 | V6

  function Width(f: Family): nat {
    if f.V4? then 32 else 128
  }

  datatype Address = Address(family: Family, bits: nat)

  datatype Prefix = Prefix(base: Address, length: nat)

  function Shift(x: nat, k: nat): nat {
    if k == 0 then x else Shift(x / 2, k - 1)
  }

  predicate ValidAddress(a: Address) {
    Shift(a.bits, Width(a.family)) == 0
  }

  predicate ValidPrefix(p: Prefix) {
    ValidAddress(p.base) && p.length <= Width(p.base.family)
  }

  /** The bits of an address that the prefix leaves open. */
  function HostBits(p: Prefix): nat {
    if p.length <= Width(p.base.family) then Width(p.base.family) - p.length else 0
  }

  predicate Contains(p: Prefix, a: Address) {
    a.family == p.base.family && Shift(a.bits, HostBits(p)) == Shift(p.base.bits, HostBits(p))
  }

  /** The block of one address. */
  function Single(a: Address): Prefix {
    Prefix(a, Width(a.family))
  }

  lemma SingleContains(a: Address, b: Address)
    ensures Contains(Single(a), b) <==> a == b
  {
  }

  // ---- shifting ----

  lemma {:induction false} ShiftShift(x: nat, j: nat, k: nat)
    ensures Shift(Shift(x, j), k) == Shift(x, j + k)
  {
    if j > 0 {
      ShiftShift(x / 2, j - 1, k);
    }
  }

  function Pow2(k: nat): nat {
    if k == 0 then 1 else 2 * Pow2(k - 1)
  }

  /** Equal shifted numbers are numbers in one aligned range: shifting is division by a power of two. */
  lemma {:induction false} ShiftIsRange(x: nat, k: nat)
    ensures Shift(x, k) * Pow2(k) <= x < (Shift(x, k) + 1) * Pow2(k)
  {
    if k > 0 {
      var y, p := Shift(x, k), Pow2(k - 1);
      ShiftIsRange(x / 2, k - 1);
      Double(y, p);
      Double(y + 1, p);
      Halves(x, y * p, (y + 1) * p);
    }
  }

  lemma Double(y: nat, p: nat)
    ensures y * (2 * p) == 2 * (y * p)
  {
  }

  lemma Halves(x: nat, low: nat, high: nat)
    requires low <= x / 2 < high
    ensures 2 * low <= x < 2 * high
  {
  }

  /** How many addresses a block has: IPv4 addresses have 32 bits, IPv6 addresses 128. */
  function Size(p: Prefix): nat {
    match p.base.family
    case V4 => if p.length < 32 then Pow2(32 - p.length) else 1
    case V6 => if p.length < 128 then Pow2(128 - p.length) else 1
  }

  /** A block stands for the aligned range of numbers that its base lies in. */
  ghost predicate InRange(p: Prefix, a: Address) {
    && a.family == p.base.family
    && exists y: nat :: InSlot(p.base.bits, y, Size(p)) && InSlot(a.bits, y, Size(p))
  }

  predicate InSlot(x: nat, y: nat, size: nat) {
    y * size <= x < (y + 1) * size
  }

  lemma OneSlot(x: nat, y: nat, z: nat, size: nat)
    requires InSlot(x, y, size) && InSlot(x, z, size)
    ensures y == z
  {
    if y < z {
      SlotsAscend(y + 1, z, size);
    } else if z < y {
      SlotsAscend(z + 1, y, size);
    }
  }

  lemma SlotsAscend(y: nat, z: nat, size: nat)
    requires y <= z
    ensures y * size <= z * size
  {
    assert z * size == y * size + (z - y) * size;
  }

  lemma ContainsIsRange(p: Prefix, a: Address)
    ensures Contains(p, a) <==> InRange(p, a)
  {
    var h, size := HostBits(p), Size(p);
    ShiftIsRange(p.base.bits, h);
    ShiftIsRange(a.bits, h);
    assert InSlot(p.base.bits, Shift(p.base.bits, h), size) && InSlot(a.bits, Shift(a.bits, h), size);
    if InRange(p, a) {
      var y: nat :| InSlot(p.base.bits, y, size) && InSlot(a.bits, y, size);
      OneSlot(p.base.bits, y, Shift(p.base.bits, h), size);
      OneSlot(a.bits, y, Shift(a.bits, h), size);
    }
  }

  /** A number with given leading bits and k more bits that are all equal. */
  function Extend(y: nat, k: nat, bit: nat): nat
    decreases k
  {
    if k == 0 then y else Extend(2 * y + if bit == 0 then 0 else 1, k - 1, bit)
  }

  lemma {:induction false} ExtendSnoc(y: nat, k: nat, bit: nat)
    ensures Extend(y, k + 1, bit) == 2 * Extend(y, k, bit) + if bit == 0 then 0 else 1
    decreases k
  {
    if k > 0 {
      ExtendSnoc(2 * y + if bit == 0 then 0 else 1, k - 1, bit);
    }
  }

  lemma {:induction false} ShiftExtend(y: nat, k: nat, j: nat, bit: nat)
    requires j <= k
    ensures Shift(Extend(y, k, bit), j) == Extend(y, k - j, bit)
  {
    if j > 0 {
      ExtendSnoc(y, k - 1, bit);
      ShiftExtend(y, k - 1, j - 1, bit);
    }
  }

  lemma {:induction false} ExtensionsDiffer(y: nat, z: nat, k: nat)
    requires y <= z && (k > 0 || y < z)
    ensures Extend(y, k, 0) < Extend(z, k, 1)
    decreases k
  {
    if k > 0 {
      ExtensionsDiffer(2 * y, 2 * z + 1, k - 1);
    }
  }

  // ---- blocks are nested or disjoint ----

  /** Whether two blocks overlap, as a comparison of their base addresses. */
  predicate Overlap(p: Prefix, q: Prefix) {
    if p.length >= q.length then Contains(q, p.base) else Contains(p, q.base)
  }

  /** Whether the first block lies inside the second. */
  predicate Within(p: Prefix, q: Prefix) {
    p.length >= q.length && Contains(q, p.base)
  }

  lemma ContainsWider(p: Prefix, q: Prefix, a: Address)
    requires ValidPrefix(p) && ValidPrefix(q) && p.base.family == q.base.family && p.length >= q.length
    requires Contains(p, a)
    ensures Contains(q, a) <==> Contains(q, p.base)
  {
    var more := HostBits(q) - HostBits(p);
    ShiftShift(a.bits, HostBits(p), more);
    ShiftShift(p.base.bits, HostBits(p), more);
  }

  /** Two blocks share an address exactly when the base of the longer prefix lies in the other block. */
  lemma OverlapIff(p: Prefix, q: Prefix)
    requires ValidPrefix(p) && ValidPrefix(q)
    ensures Overlap(p, q) <==> exists a :: ValidAddress(a) && Contains(p, a) && Contains(q, a)
  {
    if Overlap(p, q) {
      var a := if p.length >= q.length then p.base else q.base;
      assert ValidAddress(a) && Contains(p, a) && Contains(q, a);
    }
    forall a | ValidAddress(a) && Contains(p, a) && Contains(q, a)
      ensures Overlap(p, q)
    {
      if p.length >= q.length {
        ContainsWider(p, q, a);
      } else {
        ContainsWider(q, p, a);
      }
    }
  }

  /** The first or last address of a block. */
  function Edge(p: Prefix, bit: nat): Address {
    Address(p.base.family, Extend(Shift(p.base.bits, HostBits(p)), HostBits(p), bit))
  }

  lemma EdgeInside(p: Prefix, bit: nat)
    requires ValidPrefix(p)
    ensures ValidAddress(Edge(p, bit)) && Contains(p, Edge(p, bit))
  {
    var y, k := Shift(p.base.bits, HostBits(p)), HostBits(p);
    ShiftExtend(y, k, k, bit);
    ShiftShift(Extend(y, k, bit), k, p.length);
    ShiftShift(p.base.bits, k, p.length);
  }

  /** A block never lies inside one with a longer prefix: its first and last address fall apart there. */
  lemma EdgesFallApart(p: Prefix, q: Prefix)
    requires ValidPrefix(p) && ValidPrefix(q) && p.length < q.length && p.base.family == q.base.family
    ensures !(Contains(q, Edge(p, 0)) && Contains(q, Edge(p, 1)))
  {
    var y, k, j := Shift(p.base.bits, HostBits(p)), HostBits(p), HostBits(q);
    ShiftExtend(y, k, j, 0);
    ShiftExtend(y, k, j, 1);
    ExtensionsDiffer(y, y, k - j);
  }

  lemma WithinIff(p: Prefix, q: Prefix)
    requires ValidPrefix(p) && ValidPrefix(q)
    ensures Within(p, q) <==> forall a :: ValidAddress(a) && Contains(p, a) ==> Contains(q, a)
  {
    if Within(p, q) {
      forall a | ValidAddress(a) && Contains(p, a)
        ensures Contains(q, a)
      {
        ContainsWider(p, q, a);
      }
    } else if p.length >= q.length || p.base.family != q.base.family {
      assert ValidAddress(p.base) && Contains(p, p.base) && !Contains(q, p.base);
    } else {
      EdgeInside(p, 0);
      EdgeInside(p, 1);
      EdgesFallApart(p, q);
    }
  }

  /** Blocks that share an address are nested. */
  lemma NestedOrDisjoint(p: Prefix, q: Prefix, a: Address)
    requires ValidPrefix(p) && ValidPrefix(q) && ValidAddress(a) && Contains(p, a) && Contains(q, a)
    ensures Within(p, q) || Within(q, p)
  {
    OverlapIff(p, q);
  }
}
