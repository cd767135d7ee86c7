/** The inductive invariant of the queue pair: every wrapped index, phase bit and
    reused identifier is tied to the unbounded counters and logs behind it. */
module QueueInvariant {
  import opened Ring
  import opened Types
  import opened SubmissionQueues
  import opened CompletionQueues
  import opened Protocol

  // ---------------------------------------------------------------------
  // The parts of the invariant. Each names exactly what it depends on, so that a
  // step which leaves these values alone leaves the part alone.
  // ---------------------------------------------------------------------

  /** Submission ring: the four wrapped positions are images of ordered counters
      that span less than one ring, and no entry the device has still to fetch has
      been overwritten. */
  ghost predicate SqRing(q: nat, hostHead: nat, hostTail: nat, filling: Option<nat>, mem: seq<Sqe>,
                         db: nat, deviceHead: nat, head: nat, fetched: nat, rung: nat, log: seq<Entry>)
    requires 0 < q == |mem|
  {
    && head <= fetched <= rung <= |log| < head + q
    && hostHead == Slot(head, q) && hostTail == Slot(|log|, q)
    && db == Slot(rung, q) && deviceHead == Slot(fetched, q)
    && (filling.None? ==> rung == |log|)
    && (filling.Some? ==> rung + 1 == |log| && filling.value == Slot(rung, q))
    && (forall f: nat :: fetched <= f < |log| ==> mem[Slot(f, q)] == log[f].sqe)
  }

  ghost predicate Entries(q: nat, stride: nat, log: seq<Entry>)
  {
    forall f: nat :: f < |log| ==> EntryOk(q, stride, log[f])
  }

  ghost predicate EntryOk(q: nat, stride: nat, e: Entry)
  {
    e.cid < q && e.sqe.Cid() == e.cid && |e.region| == stride
  }

  /** Completion ring: the same for its three positions and the two phase bits. */
  ghost predicate CqRing(q: nat, cq: CqHost, pc: IrqPc, db: nat, deviceTail: nat,
                         devicePhase: bool, posted: nat, consumed: nat, acked: nat)
    requires 0 < q
  {
    && acked <= consumed <= posted < acked + q
    && cq.head == Slot(consumed, q) && cq.phase == Phase(consumed, q)
    && db == Slot(acked, q)
    && deviceTail == Slot(posted, q) && devicePhase == Phase(posted, q)
    && consumed == acked + (if pc.Idle? then 0 else 1)
    && (pc.Consumed? ==> pc.slot == Slot(acked, q))
  }

  /** The last ring length of posted entries is intact, and phase tags tell posted
      entries from stale ones. */
  ghost predicate CqMemory(q: nat, mem: seq<Cqe>, posted: seq<Posted>)
    requires 0 < q == |mem|
  {
    && (forall m: nat :: m < |posted| && |posted| <= m + q ==> mem[Slot(m, q)] == posted[m].cqe)
    && (forall m: nat :: m < |posted| ==> posted[m].cqe.phase == Phase(m, q))
    && (forall j: nat :: |posted| <= j < q ==> !mem[j].phase)
  }

  /** Completions handled so far. */
  ghost predicate CallCount(pc: IrqPc, consumed: nat, calls: nat)
  {
    consumed == calls + if pc.Consumed? then 1 else 0
  }

  /** Head reports: every completion carries an image of the device's head at its
      posting; these never decrease, and the host's head is the latest one it read. */
  ghost predicate Heads(q: nat, head: nat, fetched: nat, posted: seq<Posted>, calls: nat)
    requires 0 < q
  {
    && (forall m: nat :: m < |posted| ==>
          posted[m].head <= fetched && posted[m].cqe.sqhd == Slot(posted[m].head, q))
    && (forall a: nat, b: nat :: a <= b < |posted| ==> posted[a].head <= posted[b].head)
    && calls <= |posted|
    && head == (if calls == 0 then 0 else posted[calls - 1].head)
  }

  /** Command `f` holds its identifier: it was accepted and its callback has not run. */
  ghost predicate Outstanding(log: seq<Entry>, owner: seq<Option<nat>>, f: nat)
  {
    f < |log| && log[f].cid < |owner| && owner[log[f].cid] == Some(f)
  }

  /** The callback table holds exactly the callbacks of outstanding commands. */
  ghost predicate Table(callbacks: seq<Option<Callback>>, owner: seq<Option<nat>>, log: seq<Entry>)
    requires |callbacks| == |owner|
  {
    forall c: nat :: c < |owner| ==>
      && (owner[c].None? ==> callbacks[c].None?)
      && (owner[c].Some? ==>
            && owner[c].value < |log| && log[owner[c].value].cid == c
            && callbacks[c] == Some(log[owner[c].value].cb))
  }

  /** Every command is in one place: still in the ring, running on the device, or
      posted; it is outstanding until its completion has been handled. */
  ghost predicate InRing(log: seq<Entry>, owner: seq<Option<nat>>, fetched: nat)
  {
    fetched <= |log| && forall f: nat :: fetched <= f < |log| ==> Outstanding(log, owner, f)
  }

  ghost predicate OnDevice(log: seq<Entry>, owner: seq<Option<nat>>, fetched: nat, running: map<nat, Running>)
  {
    forall f: nat :: f in running ==>
      f < fetched && Outstanding(log, owner, f) && running[f].sqe == log[f].sqe
  }

  ghost predicate Done(qid: nat, log: seq<Entry>, owner: seq<Option<nat>>, fetched: nat,
                       running: map<nat, Running>, posted: seq<Posted>, calls: seq<Call>)
  {
    && |calls| <= |posted|
    && (forall m: nat :: m < |posted| ==> PostedOk(qid, log, owner, fetched, posted[m]))
    && (forall m: nat :: m < |posted| ==> posted[m].serial !in running)
    && (forall m: nat :: m < |posted| ==> (Outstanding(log, owner, posted[m].serial) <==> m >= |calls|))
    && (forall m: nat :: m < |calls| ==> CallOk(log, posted[m], calls[m]))
  }

  ghost predicate PostedOk(qid: nat, log: seq<Entry>, owner: seq<Option<nat>>, fetched: nat, p: Posted)
  {
    && p.serial < fetched && p.serial < |log| && p.serial < p.head
    && p.cqe.cid == log[p.serial].cid && p.sqe == log[p.serial].sqe && p.cqe.sqid == qid
  }

  ghost predicate CallOk(log: seq<Entry>, p: Posted, c: Call)
  {
    p.serial < |log| && c == Call(p.serial, log[p.serial].cb, p.cqe.sf)
  }

  ghost predicate Distinct(posted: seq<Posted>)
  {
    forall a: nat, b: nat :: a < b < |posted| ==> posted[a].serial != posted[b].serial
  }

  ghost predicate Accounted(fetched: nat, running: map<nat, Running>, posted: seq<Posted>)
  {
    forall f: nat :: f < fetched ==> f in running || IsPosted(posted, f)
  }

  ghost predicate IsPosted(posted: seq<Posted>, f: nat)
  {
    exists m: nat :: m < |posted| && posted[m].serial == f
  }

  /** Descriptor memory: an outstanding command's region keeps its contents. */
  ghost predicate Kept(words: seq<nat>, stride: nat, log: seq<Entry>, owner: seq<Option<nat>>)
  {
    forall f: nat :: f < |log| && Outstanding(log, owner, f) ==> Holds(words, log[f], stride)
  }

  ghost predicate Holds(words: seq<nat>, e: Entry, stride: nat)
  {
    HasRegion(words, e.cid, stride) && Region(words, e.cid, stride) == e.region
  }

  ghost predicate Saw(seen: Option<seq<nat>>, e: Entry, stride: nat)
  {
    seen.Some? ==> Holds(seen.value, e, stride)
  }

  /** A device that has carried a command out saw the command's own descriptors. */
  ghost predicate RunningSaw(running: map<nat, Running>, stride: nat, log: seq<Entry>)
  {
    forall f: nat :: f in running ==> f < |log| && Saw(running[f].seen, log[f], stride)
  }

  ghost predicate PostedSaw(posted: seq<Posted>, stride: nat, log: seq<Entry>)
  {
    forall m: nat :: m < |posted| ==>
      && posted[m].serial < |log| && Saw(posted[m].seen, log[posted[m].serial], stride)
      && (posted[m].cqe.sf == 0 ==> posted[m].seen.Some?)
  }

  // ---------------------------------------------------------------------
  // The invariant
  // ---------------------------------------------------------------------

  ghost predicate RingPart(s: State)
    requires Shape(s)
  {
    && SqRing(s.sq.size, s.sq.head, s.sq.tail, s.filling, s.sqMem, s.sqDb, s.dev.sqHead,
              s.h.head, s.h.fetched, s.h.rung, s.h.log)
    && Entries(s.sq.size, s.stride, s.h.log)
  }

  ghost predicate CompletionPart(s: State)
    requires Shape(s)
  {
    && CqRing(s.sq.size, s.cq, s.pc, s.cqDb, s.dev.cqTail, s.dev.phase,
              |s.h.posted|, s.h.consumed, s.h.acked)
    && CqMemory(s.sq.size, s.cqMem, s.h.posted)
    && CallCount(s.pc, s.h.consumed, |s.h.calls|)
    && Heads(s.sq.size, s.h.head, s.h.fetched, s.h.posted, |s.h.calls|)
  }

  ghost predicate PlacePart(s: State)
    requires Shape(s)
  {
    && Table(s.sq.callbacks, s.h.owner, s.h.log)
    && InRing(s.h.log, s.h.owner, s.h.fetched)
    && OnDevice(s.h.log, s.h.owner, s.h.fetched, s.dev.running)
    && Done(s.qid, s.h.log, s.h.owner, s.h.fetched, s.dev.running, s.h.posted, s.h.calls)
    && Distinct(s.h.posted)
    && Accounted(s.h.fetched, s.dev.running, s.h.posted)
  }

  ghost predicate DescriptorPart(s: State)
  {
    && Kept(s.words, s.stride, s.h.log, s.h.owner)
    && RunningSaw(s.dev.running, s.stride, s.h.log)
    && PostedSaw(s.h.posted, s.stride, s.h.log)
  }

  ghost predicate Inv(s: State)
  {
    Shape(s) && RingPart(s) && CompletionPart(s) && PlacePart(s) && DescriptorPart(s)
  }

  lemma InitInv(s: State)
    requires Init(s)
    ensures Inv(s)
  {
    SlotSmall(0, s.sq.size);
    OccupiedFull(s.sq.callbacks);
  }

  // ---------------------------------------------------------------------
  // What a change beyond the fetched commands leaves alone
  // ---------------------------------------------------------------------

  /** The two logs agree on the first `fetched` commands and on which of them are
      outstanding. */
  ghost predicate SameFetched(log: seq<Entry>, owner: seq<Option<nat>>,
                              log': seq<Entry>, owner': seq<Option<nat>>, fetched: nat)
  {
    && fetched <= |log| && fetched <= |log'|
    && (forall f: nat :: f < fetched ==> log'[f] == log[f])
    && (forall f: nat :: f < fetched ==> Outstanding(log', owner', f) == Outstanding(log, owner, f))
  }

  lemma FetchedFrame(s: State, t: State)
    requires Shape(s) && Shape(t) && PlacePart(s)
    requires SameFetched(s.h.log, s.h.owner, t.h.log, t.h.owner, s.h.fetched)
    requires t.h.fetched == s.h.fetched && t.dev.running == s.dev.running
    requires t.h.posted == s.h.posted && t.h.calls == s.h.calls && t.qid == s.qid
    ensures OnDevice(t.h.log, t.h.owner, t.h.fetched, t.dev.running)
    ensures Done(t.qid, t.h.log, t.h.owner, t.h.fetched, t.dev.running, t.h.posted, t.h.calls)
    ensures Distinct(t.h.posted) && Accounted(t.h.fetched, t.dev.running, t.h.posted)
  {
    hide Shape, Outstanding, Table, InRing;
    forall m: nat | m < |t.h.posted|
      ensures PostedOk(t.qid, t.h.log, t.h.owner, t.h.fetched, t.h.posted[m])
      ensures Outstanding(t.h.log, t.h.owner, t.h.posted[m].serial) <==> m >= |t.h.calls|
    {
      assert PostedOk(s.qid, s.h.log, s.h.owner, s.h.fetched, s.h.posted[m]);
    }
    forall m: nat | m < |t.h.calls|
      ensures CallOk(t.h.log, t.h.posted[m], t.h.calls[m])
    {
      assert CallOk(s.h.log, s.h.posted[m], s.h.calls[m]);
      assert PostedOk(s.qid, s.h.log, s.h.owner, s.h.fetched, s.h.posted[m]);
    }
  }

  lemma SeenFrame(s: State, t: State)
    requires Shape(s) && Shape(t) && PlacePart(s) && DescriptorPart(s)
    requires SameFetched(s.h.log, s.h.owner, t.h.log, t.h.owner, s.h.fetched)
    requires t.dev.running == s.dev.running && t.h.posted == s.h.posted && t.stride == s.stride
    ensures RunningSaw(t.dev.running, t.stride, t.h.log)
    ensures PostedSaw(t.h.posted, t.stride, t.h.log)
  {
    hide Shape, Outstanding, Table, InRing, Kept, Saw, Distinct, Accounted;
    forall m: nat | m < |t.h.posted|
      ensures t.h.posted[m].serial < |t.h.log| && Saw(t.h.posted[m].seen, t.h.log[t.h.posted[m].serial], t.stride)
    {
      assert PostedOk(s.qid, s.h.log, s.h.owner, s.h.fetched, s.h.posted[m]);
    }
  }

  // ---------------------------------------------------------------------
  // produce
  // ---------------------------------------------------------------------

  lemma ProduceShape(s: State, cb: Callback)
    requires Shape(s) && Enabled(s, Produce(cb))
    ensures Shape(DoProduce(s, cb))
  {
    hide WrapAround, FreshSqe, Region, HasRegion, Search, Occupied;
    ProduceAllocates(s.sq, cb);
    RegionInBuffer(s.words, s.sq.size, s.sq.NextCid(), s.stride);
  }

  lemma ProduceRing(s: State, cb: Callback, t: State)
    requires Shape(s) && RingPart(s) && Enabled(s, Produce(cb))
    requires t == DoProduce(s, cb) && Shape(t)
    ensures RingPart(t)
  {
    hide Slot, Phase, WrapAround, FreshSqe, Region, HasRegion, Search, Occupied;
    var q, n := s.sq.size, |s.h.log|;
    FullMeansRingLess1(s.h.head, n, q);
    SlotNext(n, q);
    SlotsDiffer(s.h.fetched, n, q);
  }

  /** No item of the ring shares its slot with the next one to be entered. */
  lemma SlotsDiffer(lo: nat, n: nat, q: nat)
    requires 0 < q && lo <= n < lo + q
    ensures forall f: nat :: lo <= f < n ==> Slot(f, q) != Slot(n, q)
  {
    hide Slot;
    forall f: nat | lo <= f < n
      ensures Slot(f, q) != Slot(n, q)
    {
      if Slot(f, q) == Slot(n, q) {
        SlotInjective(f, n, q);
      }
    }
  }

  lemma ProducePlaces(s: State, cb: Callback, t: State)
    requires Shape(s) && PlacePart(s) && DescriptorPart(s) && Enabled(s, Produce(cb))
    requires t == DoProduce(s, cb) && Shape(t)
    ensures PlacePart(t) && DescriptorPart(t)
  {
    hide Shape, Enabled, DoProduce, Table, InRing, OnDevice, Done, Distinct, Accounted, Kept, RunningSaw, PostedSaw;
    ProduceFrames(s, cb, t);
    ProduceTable(s, cb, t);
    ProduceKept(s, cb, t);
  }

  lemma ProduceOwner(s: State, cb: Callback)
    requires Shape(s) && Enabled(s, Produce(cb)) && Table(s.sq.callbacks, s.h.owner, s.h.log)
    ensures s.sq.NextCid() < |s.h.owner| && s.h.owner[s.sq.NextCid()].None?
  {
    hide Slot, WrapAround, HasRegion, Search, Occupied, FirstFree;
    ProduceAllocates(s.sq, cb);
  }

  lemma ProduceFrames(s: State, cb: Callback, t: State)
    requires Shape(s) && PlacePart(s) && DescriptorPart(s) && Enabled(s, Produce(cb))
    requires t == DoProduce(s, cb) && Shape(t)
    ensures SameFetched(s.h.log, s.h.owner, t.h.log, t.h.owner, s.h.fetched)
    ensures OnDevice(t.h.log, t.h.owner, t.h.fetched, t.dev.running)
    ensures Done(t.qid, t.h.log, t.h.owner, t.h.fetched, t.dev.running, t.h.posted, t.h.calls)
    ensures Distinct(t.h.posted) && Accounted(t.h.fetched, t.dev.running, t.h.posted)
    ensures RunningSaw(t.dev.running, t.stride, t.h.log) && PostedSaw(t.h.posted, t.stride, t.h.log)
  {
    hide Slot, WrapAround, FreshSqe, Region, HasRegion, Search, Occupied, SqHost.Valid, SqHost.Refuses;
    hide Table, OnDevice, Done, Distinct, Accounted, Kept, RunningSaw, PostedSaw;
    ProduceOwner(s, cb);
    FetchedFrame(s, t);
    SeenFrame(s, t);
  }

  lemma ProduceTable(s: State, cb: Callback, t: State)
    requires Shape(s) && PlacePart(s) && Enabled(s, Produce(cb))
    requires t == DoProduce(s, cb) && Shape(t)
    ensures Table(t.sq.callbacks, t.h.owner, t.h.log) && InRing(t.h.log, t.h.owner, t.h.fetched)
  {
    hide Slot, WrapAround, FreshSqe, Region, HasRegion, Search, Occupied, SqHost.Refuses;
    hide OnDevice, Done, Distinct, Accounted;
    ProduceOwner(s, cb);
    forall f: nat | t.h.fetched <= f < |t.h.log|
      ensures Outstanding(t.h.log, t.h.owner, f)
    {
      assert f < |s.h.log| ==> Outstanding(s.h.log, s.h.owner, f);
    }
  }

  lemma ProduceKept(s: State, cb: Callback, t: State)
    requires Shape(s) && PlacePart(s) && DescriptorPart(s) && Enabled(s, Produce(cb))
    requires t == DoProduce(s, cb) && Shape(t)
    ensures Kept(t.words, t.stride, t.h.log, t.h.owner)
  {
    hide Slot, WrapAround, FreshSqe, Region, HasRegion, Search, Occupied, SqHost.Refuses;
    hide Table, InRing, OnDevice, Done, Distinct, Accounted, RunningSaw, PostedSaw;
    ProduceOwner(s, cb);
    RegionInBuffer(s.words, s.sq.size, s.sq.NextCid(), s.stride);
    forall f: nat | f < |t.h.log| && Outstanding(t.h.log, t.h.owner, f)
      ensures Holds(t.words, t.h.log[f], t.stride)
    {
      assert f < |s.h.log| ==> Outstanding(s.h.log, s.h.owner, f);
    }
  }

  lemma ProduceInv(s: State, cb: Callback)
    requires Inv(s) && Enabled(s, Produce(cb))
    ensures Inv(DoProduce(s, cb))
  {
    hide Slot, Phase, WrapAround, FreshSqe, Region, HasRegion, Search, Occupied;
    hide SqRing, Entries, CqRing, CqMemory, Heads, Table, InRing, OnDevice, Done, Distinct, Accounted, Kept;
    hide RunningSaw, PostedSaw;
    ProduceShape(s, cb);
    var t := DoProduce(s, cb);
    ProduceRing(s, cb, t);
    ProducePlaces(s, cb, t);
  }

  // ---------------------------------------------------------------------
  // Filling the entry and its descriptors, and the tail doorbell
  // ---------------------------------------------------------------------

  lemma {:induction false} FillRing(s: State, sqe: Sqe, region: seq<nat>, t: State)
    requires Shape(s) && RingPart(s) && Enabled(s, Fill(sqe, region))
    requires t == DoFill(s, sqe, region)
    ensures Shape(t) && RingPart(t)
  {
    hide Slot, Phase, Overlay, Region, HasRegion, SqHost.Valid, Sqe.Cid;
    SlotsDiffer(s.h.fetched, |s.h.log| - 1, s.sq.size);
    OverlayHasRegions(s, region);
  }

  /** The table and the set of outstanding commands depend on identifiers and
      callbacks only. */
  lemma {:induction false} SameCommands(log: seq<Entry>, log': seq<Entry>, owner: seq<Option<nat>>,
                                        callbacks: seq<Option<Callback>>)
    requires |log'| == |log| && |callbacks| == |owner|
    requires forall f: nat :: f < |log| ==> log'[f].cid == log[f].cid && log'[f].cb == log[f].cb
    ensures Table(callbacks, owner, log) ==> Table(callbacks, owner, log')
    ensures forall f: nat :: Outstanding(log', owner, f) == Outstanding(log, owner, f)
  {
  }

  lemma {:induction false} FillTable(s: State, sqe: Sqe, region: seq<nat>, t: State)
    requires Shape(s) && RingPart(s) && PlacePart(s) && Enabled(s, Fill(sqe, region))
    requires t == DoFill(s, sqe, region) && Shape(t)
    ensures SameFetched(s.h.log, s.h.owner, t.h.log, t.h.owner, s.h.fetched)
    ensures Table(t.sq.callbacks, t.h.owner, t.h.log) && InRing(t.h.log, t.h.owner, t.h.fetched)
  {
    hide Slot, Overlay, HasRegion, Occupied, Sqe.Cid, Outstanding, Table;
    hide SqRing, Entries, OnDevice, Done, Distinct, Accounted, Region, InRing;
    FillIndex(s);
    SameCommands(s.h.log, t.h.log, s.h.owner, s.sq.callbacks);
    SameInRing(s.h.log, t.h.log, s.h.owner, s.h.fetched);
  }

  lemma FillIndex(s: State)
    requires Shape(s) && RingPart(s) && s.filling.Some?
    ensures s.h.fetched < |s.h.log|
  {
    hide Slot, Entries;
  }

  lemma {:induction false} SameInRing(log: seq<Entry>, log': seq<Entry>, owner: seq<Option<nat>>, fetched: nat)
    requires |log'| == |log| && InRing(log, owner, fetched)
    requires forall f: nat :: Outstanding(log', owner, f) == Outstanding(log, owner, f)
    ensures InRing(log', owner, fetched)
  {
    hide Outstanding;
  }

  lemma {:induction false} FillPlaces(s: State, sqe: Sqe, region: seq<nat>, t: State)
    requires Shape(s) && RingPart(s) && PlacePart(s) && DescriptorPart(s) && Enabled(s, Fill(sqe, region))
    requires t == DoFill(s, sqe, region) && Shape(t)
    ensures PlacePart(t)
    ensures RunningSaw(t.dev.running, t.stride, t.h.log) && PostedSaw(t.h.posted, t.stride, t.h.log)
  {
    FillTable(s, sqe, region, t);
    hide Overlay, Region, HasRegion, Occupied, Sqe.Cid, SameFetched, Table, InRing, Kept;
    hide SqRing, Entries, CqRing, CqMemory, Heads, OnDevice, Done, Distinct, Accounted, RunningSaw, PostedSaw;
    FetchedFrame(s, t);
    SeenFrame(s, t);
  }

  lemma {:induction false} FillKept(s: State, sqe: Sqe, region: seq<nat>, t: State)
    requires Shape(s) && RingPart(s) && PlacePart(s) && DescriptorPart(s) && Enabled(s, Fill(sqe, region))
    requires t == DoFill(s, sqe, region) && Shape(t)
    ensures Kept(t.words, t.stride, t.h.log, t.h.owner)
  {
    var log, last, owner := s.h.log, |s.h.log| - 1, s.h.owner;
    var cid := log[last].cid;
    assert s.h.fetched < |log| && Outstanding(log, owner, last);
    hide Slot, Phase, Overlay, Region, HasRegion, SqHost.Valid, Sqe.Cid, Saw;
    hide SqRing, Entries, CqRing, CqMemory, Heads, Table, InRing, OnDevice, Done, Distinct, Accounted, RunningSaw;
    hide PostedSaw;
    OverlayRegions(s.words, cid, cid, s.stride, region);
    OverlayHasRegions(s, region);
    forall f: nat | f < last && Outstanding(log, owner, f)
      ensures Holds(t.words, log[f], s.stride)
    {
      OverlayRegions(s.words, cid, log[f].cid, s.stride, region);
    }
  }

  lemma {:induction false} OverlayHasRegions(s: State, region: seq<nat>)
    requires Shape(s) && s.filling.Some? && |region| == s.stride
    ensures forall c: nat :: HasRegion(s.words, c, s.stride)
              ==> HasRegion(Overlay(s.words, s.h.log[|s.h.log| - 1].cid, s.stride, region), c, s.stride)
  {
  }

  lemma {:induction false} FillInv(s: State, sqe: Sqe, region: seq<nat>)
    requires Inv(s) && Enabled(s, Fill(sqe, region))
    ensures Inv(DoFill(s, sqe, region))
  {
    var t := DoFill(s, sqe, region);
    hide Slot, Phase, WrapAround, Overlay, Region, HasRegion, Sqe.Cid, SqHost.Valid;
    hide SqRing, Entries, CqRing, CqMemory, Heads, Table, InRing, OnDevice, Done, Distinct, Accounted, Kept;
    hide RunningSaw, PostedSaw;
    FillRing(s, sqe, region, t);
    FillPlaces(s, sqe, region, t);
    FillKept(s, sqe, region, t);
  }

  lemma SubmitInv(s: State)
    requires Inv(s) && Enabled(s, Submit)
    ensures Inv(DoSubmit(s))
  {
    hide Slot, Phase, WrapAround, Region, HasRegion, SqHost.Valid;
    hide Entries, CqRing, CqMemory, Heads, Table, InRing, OnDevice, Done, Distinct, Accounted, Kept, RunningSaw;
    hide PostedSaw;
  }

  // ---------------------------------------------------------------------
  // Device steps
  // ---------------------------------------------------------------------

  /** The device fetches the next submitted command, exactly as the host left it. */
  lemma FetchReads(s: State)
    requires Shape(s) && RingPart(s) && Enabled(s, Fetch)
    ensures s.h.fetched < s.h.rung
    ensures s.sqMem[s.dev.sqHead] == s.h.log[s.h.fetched].sqe
  {
    hide Slot;
  }

  lemma {:induction false} FetchOne(qid: nat, log: seq<Entry>, owner: seq<Option<nat>>, fetched: nat,
                                    running: map<nat, Running>, posted: seq<Posted>, calls: seq<Call>, r: Running)
    requires InRing(log, owner, fetched) && OnDevice(log, owner, fetched, running)
    requires Done(qid, log, owner, fetched, running, posted, calls) && Accounted(fetched, running, posted)
    requires fetched < |log| && r.sqe == log[fetched].sqe
    ensures InRing(log, owner, fetched + 1) && OnDevice(log, owner, fetched + 1, running[fetched := r])
    ensures Done(qid, log, owner, fetched + 1, running[fetched := r], posted, calls)
    ensures Accounted(fetched + 1, running[fetched := r], posted)
  {
    assert Outstanding(log, owner, fetched);
    hide Outstanding, CallOk, IsPosted;
  }

  lemma FetchPlaces(s: State, t: State)
    requires Shape(s) && RingPart(s) && PlacePart(s) && Enabled(s, Fetch)
    requires t == DoFetch(s) && Shape(t)
    ensures PlacePart(t)
  {
    assert s.h.rung <= |s.h.log|;
    hide Slot, WrapAround, HasRegion, Occupied;
    hide SqRing, Entries, Table, Distinct, OnDevice, Done, InRing, Accounted;
    FetchReads(s);
    FetchOne(s.qid, s.h.log, s.h.owner, s.h.fetched, s.dev.running, s.h.posted, s.h.calls,
             Running(s.sqMem[s.dev.sqHead], None));
  }

  lemma FetchInv(s: State)
    requires Inv(s) && Enabled(s, Fetch)
    ensures Inv(DoFetch(s))
  {
    hide Slot, Phase, WrapAround, Region, HasRegion, SqHost.Valid;
    hide Entries, CqRing, CqMemory, Table, InRing, OnDevice, Done, Distinct, Accounted, Kept, PostedSaw;
    var t := DoFetch(s);
    FetchReads(s);
    SlotNext(s.h.fetched, s.sq.size);
    FetchPlaces(s, t);
  }

  lemma ExecuteInv(s: State, f: nat)
    requires Inv(s) && Enabled(s, Execute(f))
    ensures Inv(DoExecute(s, f))
  {
    hide Slot, Phase, WrapAround, Region, HasRegion, SqHost.Valid;
    hide SqRing, Entries, CqRing, CqMemory, Heads, Table, InRing, Distinct, PostedSaw;
    assert Outstanding(s.h.log, s.h.owner, f);
  }

  lemma PostRing(s: State, f: nat, status: nat, t: State)
    requires Shape(s) && CompletionPart(s) && Enabled(s, Post(f, status))
    requires t == DoPost(s, f, status)
    ensures Shape(t) && t.dev.cqTail < t.sq.size
    ensures CqRing(t.sq.size, t.cq, t.pc, t.cqDb, t.dev.cqTail, t.dev.phase,
                   |t.h.posted|, t.h.consumed, t.h.acked)
  {
    hide Slot, Phase, WrapAround, HasRegion, Occupied, Heads, CqMemory, Sqe.Cid;
    FullMeansRingLess1(s.h.acked, |s.h.posted|, s.sq.size);
    SlotNext(|s.h.posted|, s.sq.size);
  }

  lemma {:induction false} PostMemory(q: nat, mem: seq<Cqe>, posted: seq<Posted>, p: Posted)
    requires 0 < q == |mem| && CqMemory(q, mem, posted) && p.cqe.phase == Phase(|posted|, q)
    ensures CqMemory(q, mem[Slot(|posted|, q) := p.cqe], posted + [p])
  {
    var n := |posted|;
    if n < q {
      SlotSmall(n, q);
    }
    hide Slot, Phase;
    SlotsDiffer(if n + 1 < q then 0 else n + 1 - q, n, q);
  }

  lemma PostHeads(s: State, f: nat, status: nat, t: State)
    requires Shape(s) && CompletionPart(s) && Enabled(s, Post(f, status))
    requires t == DoPost(s, f, status) && s.dev.sqHead == Slot(s.h.fetched, s.sq.size)
    ensures Shape(t) && Heads(t.sq.size, t.h.head, t.h.fetched, t.h.posted, |t.h.calls|)
  {
    hide Slot, WrapAround, HasRegion, Occupied, CqRing, CqMemory, CallCount, Sqe.Cid;
  }

  lemma {:induction false} PostDone(qid: nat, log: seq<Entry>, owner: seq<Option<nat>>, fetched: nat,
                 running: map<nat, Running>, posted: seq<Posted>, calls: seq<Call>, p: Posted)
    requires OnDevice(log, owner, fetched, running) && Done(qid, log, owner, fetched, running, posted, calls)
    requires p.serial in running && p.sqe == running[p.serial].sqe
    requires p.serial < |log| && p.cqe.cid == log[p.serial].cid && p.cqe.sqid == qid && p.head == fetched
    ensures OnDevice(log, owner, fetched, running - {p.serial})
    ensures Done(qid, log, owner, fetched, running - {p.serial}, posted + [p], calls)
  {
    hide Outstanding, CallOk;
  }

  lemma {:induction false} PostAccounted(fetched: nat, running: map<nat, Running>, posted: seq<Posted>, p: Posted)
    requires Distinct(posted) && Accounted(fetched, running, posted)
    requires forall m: nat :: m < |posted| ==> posted[m].serial != p.serial
    ensures Distinct(posted + [p]) && Accounted(fetched, running - {p.serial}, posted + [p])
  {
    forall g: nat | g < fetched && g !in running - {p.serial}
      ensures IsPosted(posted + [p], g)
    {
      if g == p.serial {
        assert (posted + [p])[|posted|].serial == g;
      } else {
        var m: nat :| m < |posted| && posted[m].serial == g;
        assert (posted + [p])[m].serial == g;
      }
    }
  }

  lemma PostPlaces(s: State, f: nat, status: nat, t: State)
    requires Shape(s) && RingPart(s) && PlacePart(s) && Enabled(s, Post(f, status))
    requires t == DoPost(s, f, status) && Shape(t)
    ensures PlacePart(t)
  {
    hide Slot, Phase, WrapAround, HasRegion, Occupied, Sqe.Cid, SqRing, Table, CallOk;
    assert f < |s.h.log| && EntryOk(s.sq.size, s.stride, s.h.log[f]);
    var p := t.h.posted[|s.h.posted|];
    PostDone(s.qid, s.h.log, s.h.owner, s.h.fetched, s.dev.running, s.h.posted, s.h.calls, p);
    PostAccounted(s.h.fetched, s.dev.running, s.h.posted, p);
  }

  lemma PostDescriptors(s: State, f: nat, status: nat, t: State)
    requires Shape(s) && DescriptorPart(s) && Enabled(s, Post(f, status))
    requires t == DoPost(s, f, status)
    ensures DescriptorPart(t)
  {
    hide WrapAround, HasRegion, Occupied, Sqe.Cid, Kept, Saw;
  }

  lemma PostInv(s: State, f: nat, status: nat)
    requires Inv(s) && Enabled(s, Post(f, status))
    ensures Inv(DoPost(s, f, status))
  {
    var t := DoPost(s, f, status);
    assert s.dev.sqHead == Slot(s.h.fetched, s.sq.size);
    assert s.dev.cqTail == Slot(|s.h.posted|, s.sq.size) && s.dev.phase == Phase(|s.h.posted|, s.sq.size);
    hide Slot, Phase, WrapAround, HasRegion, Occupied, Sqe.Cid;
    hide SqRing, Entries, CqRing, CqMemory, Heads, Table, InRing, OnDevice, Done, Distinct, Accounted, Kept;
    hide RunningSaw, PostedSaw;
    PostRing(s, f, status, t);
    PostMemory(s.sq.size, s.cqMem, s.h.posted, t.h.posted[|s.h.posted|]);
    PostHeads(s, f, status, t);
    PostPlaces(s, f, status, t);
    PostDescriptors(s, f, status, t);
  }

  // ---------------------------------------------------------------------
  // The interrupt handler
  // ---------------------------------------------------------------------

  /** The phase tag is exact: `consume` returns an entry if and only if the device
      has posted one that was not consumed, and it is the oldest such entry. */
  lemma PhaseIsExact(s: State)
    requires Shape(s) && CompletionPart(s)
    ensures s.cq.Accepts(s.cqMem[s.cq.head]) <==> s.h.consumed < |s.h.posted|
    ensures s.h.consumed < |s.h.posted| ==> s.cqMem[s.cq.head] == s.h.posted[s.h.consumed].cqe
  {
    hide Slot, Phase, Heads, SqHost.Valid, CallCount;
    var q, c := s.sq.size, s.h.consumed;
    if c < q {
      SlotSmall(c, q);
    } else {
      SlotPlusRing(c - q, q);
    }
    if c < |s.h.posted| {
      assert s.cqMem[Slot(c, q)] == s.h.posted[c].cqe;
    } else if c >= q {
      assert s.cqMem[Slot(c - q, q)] == s.h.posted[c - q].cqe;
    }
  }

  lemma ConsumeRing(q: nat, cq: CqHost, db: nat, tail: nat, phase: bool, posted: nat, consumed: nat, acked: nat)
    requires 0 < q == cq.size && CqRing(q, cq, Idle, db, tail, phase, posted, consumed, acked) && consumed < posted
    ensures CqRing(q, cq.AfterConsume(), Consumed(cq.head), db, tail, phase, posted, consumed + 1, acked)
  {
    hide Slot, Phase, WrapAround;
    SlotNext(consumed, q);
  }

  lemma ConsumeInv(s: State)
    requires Inv(s) && Enabled(s, Consume)
    ensures Inv(DoConsume(s))
  {
    hide Slot, Phase, WrapAround, HasRegion, Occupied;
    hide SqRing, Entries, CqRing, CqMemory, Heads, Table, InRing, OnDevice, Done, Distinct, Accounted, Kept;
    hide RunningSaw, PostedSaw;
    PhaseIsExact(s);
    ConsumeRing(s.sq.size, s.cq, s.cqDb, s.dev.cqTail, s.dev.phase, |s.h.posted|, s.h.consumed, s.h.acked);
  }

  /** The assertions of `complete` hold whenever it runs, on the entry that was
      consumed: it is still the one the device posted. */
  lemma CompletionIsValid(s: State)
    requires Inv(s) && s.pc.Consumed?
    ensures CompletionValid(s, s.cqMem[s.pc.slot])
    ensures |s.h.calls| < |s.h.posted| && Handling(s, |s.h.calls|, s.h.posted[|s.h.calls|])
  {
    hide Slot, Phase, WrapAround, HasRegion, Occupied;
    hide SqRing, Entries, InRing, OnDevice, Distinct, Accounted, Kept, RunningSaw, PostedSaw;
    var p := s.h.posted[|s.h.calls|];
    assert Outstanding(s.h.log, s.h.owner, p.serial);
    assert PostedOk(s.qid, s.h.log, s.h.owner, s.h.fetched, p);
  }

  // Handling one completion releases the identifier `c` of command `g`.

  lemma {:induction false} ReleaseOutstanding(log: seq<Entry>, owner: seq<Option<nat>>, c: nat, g: nat)
    requires c < |owner| && owner[c] == Some(g) && g < |log| && log[g].cid == c
    ensures forall f: nat :: Outstanding(log, owner[c := None], f) <==> Outstanding(log, owner, f) && f != g
  {
  }

  lemma {:induction false} ReleaseTable(callbacks: seq<Option<Callback>>, owner: seq<Option<nat>>, log: seq<Entry>,
                                        c: nat)
    requires c < |owner| == |callbacks| && Table(callbacks, owner, log)
    ensures Table(callbacks[c := None], owner[c := None], log)
  {
  }

  lemma {:induction false} ReleasePlaces(s: State, owner': seq<Option<nat>>, g: nat)
    requires Shape(s) && PlacePart(s) && g < s.h.fetched && g !in s.dev.running
    requires forall f: nat :: Outstanding(s.h.log, owner', f) <==> Outstanding(s.h.log, s.h.owner, f) && f != g
    ensures InRing(s.h.log, owner', s.h.fetched)
    ensures OnDevice(s.h.log, owner', s.h.fetched, s.dev.running)
  {
    hide Shape, Outstanding, Table, Done, Distinct, Accounted;
    forall f: nat | s.h.fetched <= f < |s.h.log|
      ensures Outstanding(s.h.log, owner', f)
    {
      assert Outstanding(s.h.log, s.h.owner, f);
    }
  }

  lemma {:induction false} ReleaseDone(qid: nat, log: seq<Entry>, owner: seq<Option<nat>>, owner': seq<Option<nat>>,
                                       fetched: nat, running: map<nat, Running>, posted: seq<Posted>,
                                       calls: seq<Call>, c: Call)
    requires Done(qid, log, owner, fetched, running, posted, calls) && Distinct(posted)
    requires |calls| < |posted| && CallOk(log, posted[|calls|], c)
    requires forall f: nat :: Outstanding(log, owner', f)
               <==> Outstanding(log, owner, f) && f != posted[|calls|].serial
    ensures Done(qid, log, owner', fetched, running, posted, calls + [c])
  {
    hide Outstanding, CallOk;
    var n := |calls|;
    forall m: nat | m < |posted|
      ensures PostedOk(qid, log, owner', fetched, posted[m])
      ensures Outstanding(log, owner', posted[m].serial) <==> m >= n + 1
    {
      assert PostedOk(qid, log, owner, fetched, posted[m]);
      assert m < n ==> posted[m].serial != posted[n].serial;
      assert n < m ==> posted[n].serial != posted[m].serial;
    }
  }

  lemma {:induction false} ReleaseKept(words: seq<nat>, stride: nat, log: seq<Entry>, owner: seq<Option<nat>>,
                                       owner': seq<Option<nat>>)
    requires Kept(words, stride, log, owner)
    requires forall f: nat :: Outstanding(log, owner', f) ==> Outstanding(log, owner, f)
    ensures Kept(words, stride, log, owner')
  {
    hide Outstanding, Holds;
  }

  lemma {:induction false} CompleteHeads(q: nat, head: nat, fetched: nat, posted: seq<Posted>, calls: nat)
    requires 0 < q && Heads(q, head, fetched, posted, calls) && calls < |posted|
    ensures head <= posted[calls].head <= fetched
    ensures posted[calls].cqe.sqhd == Slot(posted[calls].head, q)
    ensures Heads(q, posted[calls].head, fetched, posted, calls + 1)
  {
    hide Slot;
  }

  lemma CompleteShape(s: State)
    requires Shape(s) && Enabled(s, Complete)
    ensures Shape(DoComplete(s))
  {
    hide WrapAround, HasRegion, Occupied;
    CompleteReleases(s.sq, s.cqMem[s.pc.slot]);
  }

  /** The completion being handled is number `m` of those posted, `p`. */
  ghost predicate Handling(s: State, m: nat, p: Posted)
    requires Shape(s)
  {
    && s.pc.Consumed? && m == |s.h.calls| < |s.h.posted| && p == s.h.posted[m]
    && s.cqMem[s.pc.slot] == p.cqe && p.cqe.cid < s.sq.size
    && s.h.owner[p.cqe.cid] == Some(p.serial)
  }

  lemma CompleteRings(s: State, t: State, m: nat, p: Posted)
    requires Shape(s) && RingPart(s) && CompletionPart(s) && Handling(s, m, p)
    requires Enabled(s, Complete) && t == DoComplete(s) && Shape(t)
    ensures RingPart(t) && CompletionPart(t)
  {
    hide Slot, Phase, WrapAround, HasRegion, Occupied, Entries, CqMemory, Heads;
    CompleteHeads(s.sq.size, s.h.head, s.h.fetched, s.h.posted, |s.h.calls|);
  }

  lemma CompletePlaces(s: State, t: State, m: nat, p: Posted)
    requires Shape(s) && PlacePart(s) && DescriptorPart(s) && Handling(s, m, p)
    requires Enabled(s, Complete) && t == DoComplete(s) && Shape(t)
    ensures PlacePart(t) && DescriptorPart(t)
  {
    hide Slot, Phase, WrapAround, HasRegion, Occupied;
    hide InRing, OnDevice, Distinct, Accounted, Kept, RunningSaw, PostedSaw;
    assert PostedOk(s.qid, s.h.log, s.h.owner, s.h.fetched, p) && p.serial !in s.dev.running;
    assert s.sq.callbacks[p.cqe.cid] == Some(s.h.log[p.serial].cb);
    assert CallOk(s.h.log, p, t.h.calls[m]);
    hide Done, Table, PostedOk, CallOk, Outstanding;
    ReleaseOutstanding(s.h.log, s.h.owner, p.cqe.cid, p.serial);
    ReleaseTable(s.sq.callbacks, s.h.owner, s.h.log, p.cqe.cid);
    ReleasePlaces(s, t.h.owner, p.serial);
    ReleaseDone(s.qid, s.h.log, s.h.owner, t.h.owner, s.h.fetched, s.dev.running, s.h.posted, s.h.calls, t.h.calls[m]);
    ReleaseKept(s.words, s.stride, s.h.log, s.h.owner, t.h.owner);
  }

  lemma CompleteInv(s: State)
    requires Inv(s) && Enabled(s, Complete)
    ensures Inv(DoComplete(s))
  {
    hide Slot, Phase, WrapAround, HasRegion, Occupied, CompletionValid;
    hide SqRing, Entries, CqRing, CqMemory, Heads, Table, InRing, OnDevice, Done, Distinct, Accounted, Kept;
    hide RunningSaw, PostedSaw;
    CompletionIsValid(s);
    CompleteShape(s);
    var m := |s.h.calls|;
    CompleteRings(s, DoComplete(s), m, s.h.posted[m]);
    CompletePlaces(s, DoComplete(s), m, s.h.posted[m]);
  }

  lemma ReturnInv(s: State)
    requires Inv(s) && Enabled(s, Return)
    ensures Inv(DoReturn(s))
  {
    hide Slot, Phase, WrapAround, HasRegion, Occupied;
    hide SqRing, Entries, CqMemory, Heads, Table, InRing, OnDevice, Done, Distinct, Accounted, Kept, RunningSaw;
    hide PostedSaw;
  }

  // ---------------------------------------------------------------------
  // Runs
  // ---------------------------------------------------------------------

  /** Every step keeps the invariant. */
  lemma StepInv(s: State, l: Label)
    requires Inv(s) && Enabled(s, l)
    ensures Inv(Apply(s, l))
  {
    hide Slot, Phase, WrapAround, HasRegion, Occupied, CompletionValid;
    hide SqRing, Entries, CqRing, CqMemory, Heads, Table, InRing, OnDevice, Done, Distinct, Accounted, Kept;
    hide RunningSaw, PostedSaw;
    hide DoProduce, DoFill, DoSubmit, DoFetch, DoExecute, DoPost, DoConsume, DoComplete, DoReturn;
    match l
    case Produce(cb) => ProduceInv(s, cb);
    case Fill(sqe, region) => FillInv(s, sqe, region);
    case Submit => SubmitInv(s);
    case Fetch => FetchInv(s);
    case Execute(f) => ExecuteInv(s, f);
    case Post(f, status) => PostInv(s, f, status);
    case Consume => ConsumeInv(s);
    case Complete => CompleteInv(s);
    case Return => ReturnInv(s);
  }

  lemma {:induction false} RunInv(s: State, ls: seq<Label>, t: State)
    requires Inv(s) && Run(s, ls, t)
    ensures Inv(t)
    decreases |ls|
  {
    if ls == [] {
    } else {
      hide Inv, Apply;
      StepInv(s, ls[0]);
      RunInv(Apply(s, ls[0]), ls[1..], t);
    }
  }

  /** The invariant holds in every state any interleaving of host and device reaches. */
  lemma ReachableInv(t: State)
    requires Reachable(t)
    ensures Inv(t)
  {
    var s: State, ls: seq<Label> :| Init(s) && Run(s, ls, t);
    hide Inv, Init, Run;
    InitInv(s);
    RunInv(s, ls, t);
  }
}
