/** The host side of a submission queue: the ring indices, the command identifier
    table and the search for a free identifier (server/src/queue.h). */
module SubmissionQueues {
  import opened Arithmetic
  import opened Ring
  import opened Types

  /** The value of a submission queue's registers and callback table. */
  datatype SqHost = SqHost(
    size: nat, head: nat, tail: nat, inFlight: nat, freeHint: nat,
    callbacks: seq<Option<Callback>>)
  {
    /** Index ranges, and the bookkeeping `produce` relies on: the in-flight
        counter is the number of occupied identifiers. */
    ghost predicate Valid()
    {
      && 2 <= size < TWO16
      && |callbacks| == size
      && head < size && tail < size && freeHint < size
      && inFlight == Occupied(callbacks)
    }

    predicate IsFull()
      requires size > 0
    {
      head == WrapAround(tail + 1, size)
    }

    /** The condition under which `produce` returns null. */
    predicate Refuses()
      requires size > 0
    {
      IsFull() || inFlight >= size
    }

    function NextCid(): (cid: nat)
      requires freeHint < |callbacks|
      ensures cid < |callbacks|
    {
      Search(callbacks, freeHint, |callbacks|)
    }

    function AfterProduce(cb: Callback): SqHost
      requires freeHint < |callbacks| && size > 0
    {
      this.(inFlight := inFlight + 1,
            callbacks := callbacks[NextCid() := Some(cb)],
            tail := WrapAround(tail + 1, size))
    }

    function AfterComplete(cqe: Cqe): SqHost
      requires cqe.cid < |callbacks| && inFlight > 0
    {
      this.(head := cqe.sqhd, freeHint := cqe.cid, inFlight := inFlight - 1,
            callbacks := callbacks[cqe.cid := None])
    }
  }

  // ---------------------------------------------------------------------
  // Counting occupied identifiers
  // ---------------------------------------------------------------------

  function Occupied(cbs: seq<Option<Callback>>): (n: nat)
  {
    if cbs == [] then 0
    else Occupied(cbs[..|cbs| - 1]) + (if cbs[|cbs| - 1].Some? then 1 else 0)
  }

  lemma {:induction false} OccupiedUpdate(cbs: seq<Option<Callback>>, i: nat, v: Option<Callback>)
    requires i < |cbs|
    ensures Occupied(cbs[i := v])
         == Occupied(cbs) - (if cbs[i].Some? then 1 else 0) + (if v.Some? then 1 else 0)
  {
    var last := |cbs| - 1;
    if i == last {
      assert cbs[i := v][..last] == cbs[..last];
    } else {
      assert cbs[i := v][..last] == cbs[..last][i := v];
      OccupiedUpdate(cbs[..last], i, v);
    }
  }

  /** The pigeonhole step: while fewer identifiers are in use than exist, one is free. */
  lemma {:induction false} OccupiedFull(cbs: seq<Option<Callback>>)
    ensures Occupied(cbs) <= |cbs|
    ensures Occupied(cbs) == |cbs| <==> forall c :: 0 <= c < |cbs| ==> cbs[c].Some?
    ensures Occupied(cbs) == 0 <==> forall c :: 0 <= c < |cbs| ==> cbs[c].None?
  {
    if cbs == [] {
    } else {
      var init := cbs[..|cbs| - 1];
      OccupiedFull(init);
      assert forall c :: 0 <= c < |init| ==> init[c] == cbs[c];
    }
  }

  // ---------------------------------------------------------------------
  // The cyclic search
  // ---------------------------------------------------------------------

  /** The identifier at which the search loop stops when it starts at `cid` and
      has `left` identifiers left to look at. */
  function Search(cbs: seq<Option<Callback>>, cid: nat, left: nat): (r: nat)
    requires cid < |cbs|
    ensures r < |cbs|
    decreases left
  {
    if left == 0 || cbs[cid].None? then cid
    else Search(cbs, WrapAround(cid + 1, |cbs|), left - 1)
  }

  /** `cid` is the first free identifier in cyclic order from `from`. */
  ghost predicate FirstFree(cbs: seq<Option<Callback>>, from: nat, cid: nat)
    requires |cbs| > 0
  {
    exists stop: nat :: FirstFreeAt(cbs, from, cid, stop)
  }

  /** Walking the ring from `from`, the first free identifier is met at step `stop`. */
  ghost predicate FirstFreeAt(cbs: seq<Option<Callback>>, from: nat, cid: nat, stop: nat)
    requires |cbs| > 0
  {
    && from <= stop < from + |cbs| && cid == Slot(stop, |cbs|) && cbs[cid].None?
    && forall p: nat :: from <= p < stop ==> cbs[Slot(p, |cbs|)].Some?
  }

  lemma {:induction false} SearchFrom(cbs: seq<Option<Callback>>, from: nat, p: nat, free: nat)
    requires |cbs| > 0 && from <= p <= free < from + |cbs|
    requires cbs[Slot(free, |cbs|)].None?
    requires forall e: nat :: from <= e < p ==> cbs[Slot(e, |cbs|)].Some?
    ensures FirstFree(cbs, from, Search(cbs, Slot(p, |cbs|), from + |cbs| - p))
    decreases free - p
  {
    hide Slot, WrapAround;
    var cid := Slot(p, |cbs|);
    if cbs[cid].None? {
      assert FirstFreeAt(cbs, from, cid, p);
    } else {
      SlotNext(p, |cbs|);
      SearchFrom(cbs, from, p + 1, free);
    }
  }

  /** Whenever an identifier is free the search ends at the first one in cyclic order. */
  lemma {:induction false} SearchFindsFirstFree(cbs: seq<Option<Callback>>, from: nat)
    requires from < |cbs| && Occupied(cbs) < |cbs|
    ensures FirstFree(cbs, from, Search(cbs, from, |cbs|))
    ensures cbs[Search(cbs, from, |cbs|)].None?
  {
    hide Slot, WrapAround;
    OccupiedFull(cbs);
    var c :| 0 <= c < |cbs| && cbs[c].None?;
    var free := SlotCovers(from, c, |cbs|);
    SlotSmall(from, |cbs|);
    SearchFrom(cbs, from, from, free);
  }

  /** There is only one first free identifier, so the search result is determined. */
  lemma {:induction false} FirstFreeUnique(cbs: seq<Option<Callback>>, from: nat, a: nat, b: nat)
    requires |cbs| > 0 && FirstFree(cbs, from, a) && FirstFree(cbs, from, b)
    ensures a == b
  {
    hide Slot;
    var d: nat :| FirstFreeAt(cbs, from, a, d);
    var e: nat :| FirstFreeAt(cbs, from, b, e);
    assert cbs[Slot(d, |cbs|)].None? && cbs[Slot(e, |cbs|)].None?;
  }

  /** What an accepted `produce` does to the bookkeeping: it keeps the counter
      exact, uses an identifier no other command holds and touches no other slot. */
  lemma ProduceAllocates(sq: SqHost, cb: Callback)
    requires sq.Valid() && !sq.Refuses()
    ensures sq.AfterProduce(cb).Valid()
    ensures sq.callbacks[sq.NextCid()].None? && FirstFree(sq.callbacks, sq.freeHint, sq.NextCid())
    ensures sq.AfterProduce(cb).callbacks == sq.callbacks[sq.NextCid() := Some(cb)]
  {
    hide WrapAround;
    SearchFindsFirstFree(sq.callbacks, sq.freeHint);
    OccupiedUpdate(sq.callbacks, sq.NextCid(), Some(cb));
  }

  /** A completion undoes exactly the allocation of its own identifier. */
  lemma CompleteReleases(sq: SqHost, cqe: Cqe)
    requires sq.Valid() && cqe.cid < sq.size && cqe.sqhd < sq.size && sq.callbacks[cqe.cid].Some?
    ensures sq.inFlight > 0 && sq.AfterComplete(cqe).Valid()
    ensures forall c: nat :: c < sq.size && c != cqe.cid
              ==> sq.AfterComplete(cqe).callbacks[c] == sq.callbacks[c]
  {
    OccupiedUpdate(sq.callbacks, cqe.cid, None);
    OccupiedFull(sq.callbacks);
  }

  /** The identifier completed last is the next to be used. */
  lemma ReusesCompleted(sq: SqHost, cqe: Cqe)
    requires sq.Valid() && cqe.cid < sq.size && sq.inFlight > 0
    ensures |sq.AfterComplete(cqe).callbacks| == sq.size && sq.AfterComplete(cqe).freeHint < sq.size
    ensures sq.AfterComplete(cqe).NextCid() == cqe.cid
  {
  }

  // ---------------------------------------------------------------------
  // The queue object
  // ---------------------------------------------------------------------

  /** `Submission_queue`: the registers, the callback table, the queue memory and
      the descriptor memory (SGL segments or PRP list pages) of all commands. */
  class SubmissionQueue {
    const size: nat
    const base: nat // physical address of `buf`
    var head: nat
    var tail: nat
    var inFlight: nat
    var freeHint: nat
    const callbacks: array<Option<Callback>>
    const buf: array<Sqe>
    const descriptors: array<nat> // 64-bit words of `_sgls` or `_prps`
    const descriptorBase: nat     // physical address of the first word
    const stride: nat             // words per command identifier
    var tailDoorbell: nat

    ghost function Host(): SqHost
      reads this, callbacks
    {
      SqHost(size, head, tail, inFlight, freeHint, callbacks[..])
    }

    ghost predicate Valid()
      reads this, callbacks
    {
      Host().Valid() && buf.Length == size && descriptors.Length == size * stride
    }

    constructor (size: nat, base: nat, stride: nat, descriptorBase: nat)
      requires 2 <= size < TWO16
      ensures Valid() && fresh(callbacks) && fresh(buf) && fresh(descriptors)
      ensures this.size == size && this.base == base
      ensures this.stride == stride && this.descriptorBase == descriptorBase
      ensures head == tail == inFlight == freeHint == tailDoorbell == 0
      ensures forall c :: 0 <= c < size ==> callbacks[c] == None
    {
      this.size, this.base := size, base;
      head, tail, inFlight, freeHint, tailDoorbell := 0, 0, 0, 0, 0;
      callbacks := new Option<Callback>[size](i => None);
      buf := new Sqe[size](i => Sqe(0, 0, 0, 0, 0, 0, 0, 0, 0, 0, 0, 0));
      MulMonotone(0, size, stride);
      descriptors := new nat[size * stride](i => 0);
      this.stride, this.descriptorBase := stride, descriptorBase;
      new;
      OccupiedFull(callbacks[..]);
    }

    /** Reserves a queue entry and a command identifier for `cb`; null (None) when
        the ring is full or no identifier is left. */
    method Produce(cb: Callback) returns (entry: Option<nat>)
      requires Valid()
      modifies this`inFlight, this`tail, callbacks, buf
      ensures Valid()
      ensures entry.None? <==> old(Host().Refuses())
      ensures entry.None? <==> old(head) == WrapAround(old(tail) + 1, size) || old(inFlight) >= size
      ensures entry.None? ==> Host() == old(Host()) && buf[..] == old(buf[..])
      ensures entry.Some? ==> entry.value == old(tail)
      ensures entry.Some? ==> Host() == old(Host()).AfterProduce(cb)
      ensures entry.Some? ==>
                buf[..] == old(buf[..])[old(tail) := FreshSqe(old(buf[tail]), old(Host().NextCid()))]
      ensures entry.Some? ==> Blank(buf[old(tail)], old(Host().NextCid()))
    {
      hide Occupied, Search, FreshSqe, WrapAround;
      if head == WrapAround(tail + 1, size) || inFlight >= size {
        return None;
      }
      ghost var before := Host();
      ProduceAllocates(before, cb);
      inFlight := inFlight + 1;
      var cid := FindFree();
      assert cid == before.NextCid();
      callbacks[cid] := Some(cb);
      assert callbacks[..] == before.callbacks[cid := Some(cb)];
      var slot := tail;
      tail := WrapAround(tail + 1, size);
      buf[slot] := FreshSqe(buf[slot], cid);
      assert Blank(buf[slot], cid);
      assert Host() == before.AfterProduce(cb);
      entry := Some(slot);
    }

    /** The search loop of `produce`: from the hint on, cyclically, to the first
        identifier without a callback. */
    method FindFree() returns (cid: nat)
      requires callbacks.Length == size && freeHint < size && Occupied(callbacks[..]) < size
      ensures cid == Search(callbacks[..], freeHint, size)
      ensures cid < size && callbacks[cid].None?
    {
      hide Slot, WrapAround;
      ghost var table := callbacks[..];
      SearchFindsFirstFree(table, freeHint);
      ghost var goal := Search(table, freeHint, size);
      ghost var stop: nat :| FirstFreeAt(table, freeHint, goal, stop);
      cid := freeHint;
      ghost var p: nat := freeHint;
      SlotSmall(freeHint, size);
      while callbacks[cid].Some?
        invariant cid < size && callbacks[..] == table
        invariant freeHint <= p <= stop && cid == Slot(p, size)
        invariant Search(table, cid, freeHint + size - p) == goal
        decreases stop - p
      {
        assert callbacks[cid] == table[cid];
        SlotNext(p, size);
        p := p + 1;
        cid := WrapAround(cid + 1, size);
      }
      assert callbacks[cid] == table[cid];
    }

    /** Rings the tail doorbell. */
    method Submit()
      modifies this`tailDoorbell
      ensures tailDoorbell == tail
    {
      tailDoorbell := tail;
    }

    /** Frees the identifier of a completed command; returns the callback to run
        and the status to run it with. */
    method Complete(cqe: Cqe) returns (cb: Callback, status: nat)
      requires Valid() && cqe.cid < size && cqe.sqhd < size && callbacks[cqe.cid].Some?
      modifies this`head, this`freeHint, this`inFlight, callbacks
      ensures Valid()
      ensures old(Host()).inFlight > 0 && Host() == old(Host()).AfterComplete(cqe)
      ensures head == cqe.sqhd && freeHint == cqe.cid
      ensures old(callbacks[cqe.cid]) == Some(cb) && status == cqe.sf
    {
      CompleteReleases(Host(), cqe);
      head := cqe.sqhd;
      freeHint := cqe.cid;
      inFlight := inFlight - 1;
      cb := callbacks[cqe.cid].value;
      callbacks[cqe.cid] := None;
      status := cqe.sf;
    }
  }
}
