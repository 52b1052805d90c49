/** Positions in a ring. */
module Slots {

  /** `j % ring`, by steps of a lap, so that proofs about it need no division. */
  function Slot(j: nat, ring: nat): (s: nat)
    requires ring > 0
    ensures s < ring
  {
    if j < ring then j else Slot(j - ring, ring)
  }

  lemma ProductBound(q: int, ring: nat)
    ensures q >= 1 ==> q * ring >= ring
    ensures q <= 0 ==> q * ring <= 0
    ensures q <= -1 ==> q * ring + ring <= 0
  {
  }

  /** A remainder is the only small number that differs from `a` by a multiple of `n`. */
  lemma RemainderUnique(a: int, q: int, r: nat, n: nat)
    requires r < n && a == q * n + r
    ensures a % n == r && a / n == q
  {
    var d := q - a / n;
    assert a == n * (a / n) + a % n;
    assert d * n == q * n - n * (a / n);
    ProductBound(d, n);
  }

  lemma {:induction false} SlotIsRemainder(j: nat, ring: nat)
    requires ring > 0
    ensures Slot(j, ring) == j % ring
  {
    if j < ring {
      RemainderUnique(j, 0, j, ring);
    } else {
      SlotIsRemainder(j - ring, ring);
      var q := (j - ring) / ring;
      assert j - ring == ring * q + Slot(j - ring, ring);
      assert (q + 1) * ring == ring * q + ring;
      RemainderUnique(j, q + 1, Slot(j - ring, ring), ring);
    }
  }

  /** Two numbers with the same slot are at least one lap apart. */
  lemma {:induction false} SlotApart(n: nat, m: nat, ring: nat)
    requires ring > 0 && n < m && Slot(n, ring) == Slot(m, ring)
    ensures n + ring <= m
  {
    if n >= ring {
      SlotApart(n - ring, m - ring, ring);
    }
  }

  lemma SameSlot(n: nat, m: nat, ring: nat)
    requires ring > 0 && n < m && n % ring == m % ring
    ensures n + ring <= m
  {
    SlotIsRemainder(n, ring);
    SlotIsRemainder(m, ring);
    SlotApart(n, m, ring);
  }

  // ---------------------------------------------------------------------------------------------
  // Two slots behind the scratch memory
  // ---------------------------------------------------------------------------------------------

  const ALIGNMENT := 4096

  function AlignUp(value: nat): nat {
    (value + ALIGNMENT - 1) / ALIGNMENT * ALIGNMENT
  }

  /** Bytes of a call of some rows, at most 128, of 5120 two-byte values. */
  function PayloadBytes(rows: nat): nat {
    rows * 5120 * 2
  }

  function SlotBytes(): nat {
    AlignUp(PayloadBytes(128))
  }

  function AllocBytes(maxBytes: nat): nat {
    AlignUp(maxBytes) + 2 * SlotBytes()
  }

  /** Where call `n` has its slot. */
  function SlotOffset(maxBytes: nat, n: nat): nat {
    AlignUp(maxBytes) + Slot(n, 2) * SlotBytes()
  }

  /** The payload of a call stays in its slot, behind the scratch memory and inside the allocation; calls
      in turn have slots that do not overlap, calls two apart the same one. */
  lemma SlotLayout(maxBytes: nat, n: nat, rows: nat)
    requires rows <= 128
    ensures maxBytes <= SlotOffset(maxBytes, n) && SlotOffset(maxBytes, n) % ALIGNMENT == 0
    ensures SlotOffset(maxBytes, n) + PayloadBytes(rows) <= AllocBytes(maxBytes)
    ensures SlotOffset(maxBytes, n + 2) == SlotOffset(maxBytes, n)
    ensures
      || SlotOffset(maxBytes, n) + PayloadBytes(rows) <= SlotOffset(maxBytes, n + 1)
      || SlotOffset(maxBytes, n + 1) + PayloadBytes(rows) <= SlotOffset(maxBytes, n)
  {
    assert Slot(n + 2, 2) == Slot(n, 2);
    Alternate(n);
  }

  lemma {:induction false} Alternate(n: nat)
    ensures Slot(n, 2) + Slot(n + 1, 2) == 1
  {
    if n >= 2 {
      Alternate(n - 2);
    }
  }
}
