/** Ring positions: an unbounded counter seen through the modulo index and the
    one phase bit that are all the hardware registers hold. */
module Ring {
  import opened Arithmetic

  /** The slot of a ring of `q` entries used by item number `c`. */
  function Slot(c: nat, q: nat): (r: nat)
    requires q > 0
    ensures r < q
    decreases c
  {
    if c < q then c else Slot(c - q, q)
  }

  /** The phase tag with which item number `c` is posted: true on the first pass
      over the ring, inverted on every further pass. */
  predicate Phase(c: nat, q: nat)
    requires q > 0
    decreases c
  {
    if c < q then true else !Phase(c - q, q)
  }

  /** `Queue::wrap_around`. */
  function WrapAround(i: nat, q: nat): (r: nat)
    requires q > 0
    ensures r < q
  {
    DivModParts(i, q);
    i % q
  }

  lemma SlotSmall(c: nat, q: nat)
    requires c < q
    ensures Slot(c, q) == c && Phase(c, q)
  {
  }

  lemma SlotPlusRing(c: nat, q: nat)
    requires q > 0
    ensures Slot(c + q, q) == Slot(c, q) && Phase(c + q, q) == !Phase(c, q)
  {
  }

  /** The slot is what `wrap_around` makes of the counter. */
  lemma {:induction false} SlotIsWrapped(c: nat, q: nat)
    requires q > 0
    ensures Slot(c, q) == WrapAround(c, q)
    decreases c
  {
    if c < q {
      DivModUnique(c, 0, c, q);
    } else {
      SlotIsWrapped(c - q, q);
      ModShift(c - q, 1, q);
    }
  }

  /** Within one ring length a slot identifies the counter. */
  lemma {:induction false} SlotInjective(a: nat, b: nat, q: nat)
    requires q > 0 && a <= b < a + q && Slot(a, q) == Slot(b, q)
    ensures a == b
    decreases a
  {
    if a >= q {
      SlotInjective(a - q, b - q, q);
    }
  }

  /** Advancing an index by one with `wrap_around` advances the counter by one;
      the phase toggles exactly when the index returns to zero. */
  lemma {:induction false} SlotNext(c: nat, q: nat)
    requires q > 0
    ensures WrapAround(Slot(c, q) + 1, q) == Slot(c + 1, q)
    ensures Phase(c + 1, q) == if Slot(c + 1, q) == 0 then !Phase(c, q) else Phase(c, q)
    decreases c
  {
    if c < q {
      SlotIsWrapped(c + 1, q);
    } else {
      SlotNext(c - q, q);
    }
  }

  /** The `is_full` comparison made on wrapped indices is the comparison of the
      unbounded counters. */
  lemma FullMeansRingLess1(head: nat, tail: nat, q: nat)
    requires q > 0 && head <= tail < head + q
    ensures Slot(head, q) == WrapAround(Slot(tail, q) + 1, q) <==> tail + 1 == head + q
  {
    hide Slot, WrapAround, Phase;
    SlotNext(tail, q);
    SlotPlusRing(head, q);
    if Slot(head, q) == Slot(tail + 1, q) && tail + 1 < head + q {
      SlotInjective(head, tail + 1, q);
    }
  }

  /** Every slot of the ring is the slot of exactly one of `q` consecutive items. */
  lemma SlotCovers(lo: nat, j: nat, q: nat) returns (c: nat)
    requires j < q
    ensures lo <= c < lo + q && Slot(c, q) == j
    decreases lo
  {
    if lo == 0 {
      c := j;
      SlotSmall(j, q);
    } else {
      c := SlotCovers(lo - 1, j, q);
      if c == lo - 1 {
        c := c + q;
        SlotPlusRing(lo - 1, q);
      }
    }
  }
}
