/** What the queue pair guarantees over every run, read off the invariant. */
module QueueGuarantees {
  import opened Ring
  import opened Types
  import opened SubmissionQueues
  import opened Protocol
  import opened QueueInvariant

  // ---------------------------------------------------------------------
  // Refinement of a set of pending requests
  // ---------------------------------------------------------------------

  /** The simple machine: accepted requests wait, the device decides a status for a
      waiting request, and a decided request is called back and stops waiting. */
  datatype Pending = Pending(
    accepted: nat, waiting: map<nat, Callback>, verdicts: set<(nat, nat)>, calls: seq<Call>)

  ghost predicate Accept(a: Pending, b: Pending, cb: Callback)
  {
    b == a.(accepted := a.accepted + 1, waiting := a.waiting[a.accepted := cb])
  }

  ghost predicate Decide(a: Pending, b: Pending, f: nat, status: nat)
  {
    && f in a.waiting && (forall v :: v in a.verdicts ==> v.0 != f)
    && b == a.(verdicts := a.verdicts + {(f, status)})
  }

  ghost predicate CallBack(a: Pending, b: Pending, f: nat, status: nat)
  {
    && f in a.waiting && (f, status) in a.verdicts
    && b == a.(waiting := a.waiting - {f}, calls := a.calls + [Call(f, a.waiting[f], status)])
  }

  /** What the simple machine may do when the queue pair takes step `l`. */
  ghost predicate PendingStep(a: Pending, b: Pending, l: Label)
  {
    match l
    case Produce(cb) => Accept(a, b, cb)
    case Post(f, status) => Decide(a, b, f, status)
    case Complete => exists f: nat, status: nat :: CallBack(a, b, f, status)
    case _ => b == a
  }

  ghost function Verdicts(posted: seq<Posted>): set<(nat, nat)>
  {
    set m: nat | m < |posted| :: (posted[m].serial, posted[m].cqe.sf)
  }

  ghost function Waiting(log: seq<Entry>, owner: seq<Option<nat>>): map<nat, Callback>
  {
    map f: nat | f < |log| && Outstanding(log, owner, f) :: log[f].cb
  }

  /** The simple machine's state behind a state of the queue pair. */
  ghost function Abstract(s: State): Pending
  {
    Pending(|s.h.log|, Waiting(s.h.log, s.h.owner), Verdicts(s.h.posted), s.h.calls)
  }

  lemma ProduceRefines(s: State, cb: Callback)
    requires Inv(s) && Enabled(s, Produce(cb))
    ensures PendingStep(Abstract(s), Abstract(DoProduce(s, cb)), Produce(cb))
  {
    hide Slot, Phase, WrapAround, HasRegion, Occupied;
    hide SqRing, Entries, CqRing, CqMemory, Heads, InRing, OnDevice, Done, Distinct, Accounted, Kept, RunningSaw;
    hide PostedSaw;
    assert s.h.owner[s.sq.NextCid()].None? by {
      ProduceAllocates(s.sq, cb);
    }
    var t := DoProduce(s, cb);
    assert Waiting(t.h.log, t.h.owner) == Waiting(s.h.log, s.h.owner)[|s.h.log| := cb];
  }

  lemma {:induction false} FillRefines(s: State, sqe: Sqe, region: seq<nat>)
    requires Inv(s) && Enabled(s, Fill(sqe, region))
    ensures PendingStep(Abstract(s), Abstract(DoFill(s, sqe, region)), Fill(sqe, region))
  {
    hide Slot, Phase, WrapAround, HasRegion, Occupied, Overlay;
    hide SqRing, Entries, CqRing, CqMemory, Heads, Table, InRing, OnDevice, Done, Distinct, Accounted, Kept;
    hide RunningSaw, PostedSaw;
    var t := DoFill(s, sqe, region);
    SameCommands(s.h.log, t.h.log, s.h.owner, s.sq.callbacks);
    assert Waiting(t.h.log, t.h.owner) == Waiting(s.h.log, s.h.owner);
  }

  lemma PostRefines(s: State, f: nat, status: nat)
    requires Inv(s) && Enabled(s, Post(f, status))
    ensures PendingStep(Abstract(s), Abstract(DoPost(s, f, status)), Post(f, status))
  {
    hide Slot, Phase, WrapAround, HasRegion, Occupied;
    hide SqRing, Entries, CqRing, CqMemory, Heads, Table, InRing, Distinct, Accounted, Kept, RunningSaw, PostedSaw;
    var t := DoPost(s, f, status);
    assert Outstanding(s.h.log, s.h.owner, f);
    var n := |s.h.posted|;
    assert t.h.posted[..n] == s.h.posted;
    assert Verdicts(t.h.posted) == Verdicts(s.h.posted) + {(f, status)} by {
      forall v | v in Verdicts(s.h.posted) + {(f, status)}
        ensures v in Verdicts(t.h.posted)
      {
        if v in Verdicts(s.h.posted) {
          var m: nat :| m < n && v == (s.h.posted[m].serial, s.h.posted[m].cqe.sf);
          assert t.h.posted[m] == s.h.posted[m];
        } else {
          assert v == (t.h.posted[n].serial, t.h.posted[n].cqe.sf);
        }
      }
    }
  }

  lemma CompleteRefines(s: State)
    requires Inv(s) && Enabled(s, Complete)
    ensures PendingStep(Abstract(s), Abstract(DoComplete(s)), Complete)
  {
    hide Slot, Phase, WrapAround, HasRegion, Occupied;
    hide SqRing, Entries, CqRing, CqMemory, Heads, InRing, OnDevice, Distinct, Accounted, Kept, RunningSaw, PostedSaw;
    CompletionIsValid(s);
    var t, m := DoComplete(s), |s.h.calls|;
    var p := s.h.posted[m];
    ReleaseOutstanding(s.h.log, s.h.owner, p.cqe.cid, p.serial);
    assert Outstanding(s.h.log, s.h.owner, p.serial);
    assert Waiting(t.h.log, t.h.owner) == Waiting(s.h.log, s.h.owner) - {p.serial};
    assert (p.serial, p.cqe.sf) in Verdicts(s.h.posted);
    assert CallBack(Abstract(s), Abstract(t), p.serial, p.cqe.sf);
  }

  /** Every step of the queue pair, in any interleaving, is one step of the simple
      machine: requests are accepted once, decided once while they wait, and called
      back with their own callback and the status decided for them. */
  lemma StepRefines(s: State, l: Label)
    requires Inv(s) && Enabled(s, l)
    ensures PendingStep(Abstract(s), Abstract(Apply(s, l)), l)
  {
    match l
    case Produce(cb) => hide Inv, DoProduce; ProduceRefines(s, cb);
    case Fill(sqe, region) => hide Inv, DoFill; FillRefines(s, sqe, region);
    case Post(f, status) => hide Inv, DoPost; PostRefines(s, f, status);
    case Complete => hide Inv, DoComplete; CompleteRefines(s);
    case _ => hide Inv;
  }

  /** A run of the simple machine. */
  ghost predicate PendingRun(a: Pending, ls: seq<Label>, b: Pending)
    decreases |ls|
  {
    if ls == [] then a == b
    else exists c: Pending :: PendingStep(a, c, ls[0]) && PendingRun(c, ls[1..], b)
  }

  lemma {:induction false} InvRunRefines(s: State, ls: seq<Label>, t: State)
    requires Inv(s) && Run(s, ls, t)
    ensures PendingRun(Abstract(s), ls, Abstract(t))
    decreases |ls|
  {
    hide Inv, Apply, Enabled, Abstract, PendingStep;
    if ls == [] {
    } else {
      StepRefines(s, ls[0]);
      StepInv(s, ls[0]);
      InvRunRefines(Apply(s, ls[0]), ls[1..], t);
    }
  }

  /** Every run of the queue pair is a run of the simple machine, which starts with no
      request at all. */
  lemma {:induction false} RunRefines(s: State, ls: seq<Label>, t: State)
    requires Init(s) && Run(s, ls, t)
    ensures Abstract(s) == Pending(0, map[], {}, [])
    ensures PendingRun(Pending(0, map[], {}, []), ls, Abstract(t))
  {
    hide Inv, Run, PendingRun;
    InitInv(s);
    assert Waiting(s.h.log, s.h.owner) == map[];
    assert Verdicts(s.h.posted) == {};
    InvRunRefines(s, ls, t);
  }

  /** Callbacks over a whole run: each belongs to one accepted request, none runs
      twice, they run in the order in which the device posted, each with the status
      posted for that very command, which the device had fetched as submitted; and
      the requests still waiting are the accepted ones less the called ones. */
  lemma CallsAreFaithful(t: State)
    requires Reachable(t)
    ensures |t.h.calls| <= |t.h.posted|
    ensures forall m: nat :: m < |t.h.calls| ==> Called(t.h.log, t.h.posted[m], t.h.calls[m])
    ensures forall a: nat, b: nat :: a < b < |t.h.calls| ==> t.h.calls[a].serial != t.h.calls[b].serial
    ensures forall f: nat :: f in Waiting(t.h.log, t.h.owner)
              <==> f < |t.h.log| && forall m: nat :: m < |t.h.calls| ==> t.h.calls[m].serial != f
    ensures t.sq.inFlight == |t.h.log| - |t.h.calls|
  {
    hide Inv, Shape, Reachable, RingPart, CompletionPart, PlacePart, DescriptorPart, Waiting, Called;
    ReachableInv(t);
    ReachableCount(t);
    InvParts(t);
    EachCall(t);
    CallsAreDistinct(t);
    WaitingAreUncalled(t);
  }

  /** The m-th call: of the command posted m-th, as accepted and as fetched. */
  ghost predicate Called(log: seq<Entry>, p: Posted, c: Call)
  {
    && c.serial == p.serial < |log| && c.cb == log[c.serial].cb && c.status == p.cqe.sf
    && p.sqe == log[c.serial].sqe
  }

  lemma EachCall(t: State)
    requires Shape(t) && PlacePart(t)
    ensures |t.h.calls| <= |t.h.posted|
    ensures forall m: nat :: m < |t.h.calls| ==> Called(t.h.log, t.h.posted[m], t.h.calls[m])
  {
    hide Shape, Table, InRing, OnDevice, Distinct, Accounted, Outstanding;
    forall m: nat | m < |t.h.calls|
      ensures Called(t.h.log, t.h.posted[m], t.h.calls[m])
    {
      assert CallOk(t.h.log, t.h.posted[m], t.h.calls[m]);
      assert PostedOk(t.qid, t.h.log, t.h.owner, t.h.fetched, t.h.posted[m]);
    }
  }

  lemma CallsAreDistinct(t: State)
    requires Shape(t) && PlacePart(t)
    ensures forall a: nat, b: nat :: a < b < |t.h.calls| ==> t.h.calls[a].serial != t.h.calls[b].serial
  {
    EachCall(t);
    hide Shape, Table, InRing, OnDevice, Done, Accounted, Outstanding;
  }

  lemma WaitingAreUncalled(t: State)
    requires Shape(t) && PlacePart(t)
    ensures forall f: nat :: f in Waiting(t.h.log, t.h.owner)
              <==> f < |t.h.log| && forall m: nat :: m < |t.h.calls| ==> t.h.calls[m].serial != f
  {
    hide Shape, PlacePart, Outstanding;
    forall f: nat
      ensures f in Waiting(t.h.log, t.h.owner)
         <==> f < |t.h.log| && forall m: nat :: m < |t.h.calls| ==> t.h.calls[m].serial != f
    {
      WaitingIsUncalled(t, f);
    }
  }

  lemma WaitingIsUncalled(t: State, f: nat)
    requires Shape(t) && PlacePart(t)
    ensures Outstanding(t.h.log, t.h.owner, f)
       <==> f < |t.h.log| && forall m: nat :: m < |t.h.calls| ==> t.h.calls[m].serial != f
  {
    hide Shape, Table, Distinct;
    var h := t.h;
    assert forall m: nat :: m < |h.calls|
             ==> CallOk(h.log, h.posted[m], h.calls[m]) && !Outstanding(h.log, h.owner, h.posted[m].serial);
    if h.fetched <= f < |h.log| {
      assert Outstanding(h.log, h.owner, f);
    } else if f < h.fetched && !Outstanding(h.log, h.owner, f) {
      assert f in t.dev.running || IsPosted(h.posted, f);
      assert f !in t.dev.running;
      var m: nat :| m < |h.posted| && h.posted[m].serial == f;
      assert m < |h.calls|;
    }
  }

  // ---------------------------------------------------------------------
  // Conservation of the in-flight counter
  // ---------------------------------------------------------------------

  ghost predicate Count(s: State)
  {
    s.sq.inFlight + |s.h.calls| == |s.h.log|
  }

  lemma {:induction false} RunCount(s: State, ls: seq<Label>, t: State)
    requires Count(s) && Run(s, ls, t)
    ensures Count(t)
    decreases |ls|
  {
    if ls == [] {
    } else {
      StepCount(s, ls[0]);
      hide Shape, Enabled, Apply;
      RunCount(Apply(s, ls[0]), ls[1..], t);
    }
  }

  lemma StepCount(s: State, l: Label)
    requires Shape(s) && Enabled(s, l) && Count(s)
    ensures Count(Apply(s, l))
  {
    hide WrapAround, HasRegion, Region, Overlay;
    if l.Complete? {
      OccupiedFull(s.sq.callbacks);
    }
  }

  /** The in-flight counter is the number of accepted requests not yet called back. */
  lemma ReachableCount(t: State)
    requires Reachable(t)
    ensures Count(t)
  {
    var s: State, ls: seq<Label> :| Init(s) && Run(s, ls, t);
    hide Run;
    RunCount(s, ls, t);
  }

  // ---------------------------------------------------------------------
  // Counters and logs only grow
  // ---------------------------------------------------------------------

  /** `b` is a possible later history than `a`. */
  ghost predicate Later(a: History, b: History)
  {
    && a.head <= b.head && a.fetched <= b.fetched && a.rung <= b.rung
    && a.rung <= |a.log| && b.rung <= |b.log|
    && a.consumed <= b.consumed && a.acked <= b.acked
    && |a.log| <= |b.log| && a.posted <= b.posted && a.calls <= b.calls
    && (forall f: nat :: f < a.rung ==> b.log[f] == a.log[f])
    && (forall f: nat :: f < |a.log| ==> b.log[f].cb == a.log[f].cb && b.log[f].cid == a.log[f].cid)
  }

  lemma LaterTransitive(a: History, b: History, c: History)
    requires Later(a, b) && Later(b, c)
    ensures Later(a, c)
  {
  }

  lemma StepLater(s: State, l: Label)
    requires Inv(s) && Enabled(s, l)
    ensures Later(s.h, Apply(s, l).h)
  {
    hide Slot, Phase, WrapAround, HasRegion, Occupied, Overlay;
    hide Entries, CqMemory, Table, InRing, OnDevice, Done, Distinct, Accounted, Kept, RunningSaw, PostedSaw;
    hide CompletionValid;
    if l.Complete? && |s.h.calls| < |s.h.posted| {
      CompleteHeads(s.sq.size, s.h.head, s.h.fetched, s.h.posted, |s.h.calls|);
    }
  }

  /** Over any run the host's view of the device's head never moves back, logs are
      only extended, and a submitted command is never altered again. */
  lemma {:induction false} RunLater(s: State, ls: seq<Label>, t: State)
    requires Inv(s) && Run(s, ls, t)
    ensures Later(s.h, t.h) && Inv(t)
    decreases |ls|
  {
    hide Inv, Later, Enabled, Apply;
    if ls != [] {
      StepLater(s, ls[0]);
      StepInv(s, ls[0]);
      RunLater(Apply(s, ls[0]), ls[1..], t);
      LaterTransitive(s.h, Apply(s, ls[0]).h, t.h);
    } else {
      LaterReflexive(s);
    }
  }

  lemma LaterReflexive(s: State)
    requires Inv(s)
    ensures Later(s.h, s.h)
  {
    hide Slot, Phase, WrapAround, HasRegion, Occupied;
    hide Entries, CqRing, CqMemory, Heads, Table, InRing, OnDevice, Done, Distinct, Accounted, Kept, RunningSaw;
    hide PostedSaw;
  }

  /** The host's head never passes the device's. */
  lemma HeadIsBehindDevice(t: State)
    requires Reachable(t)
    ensures t.h.head <= t.h.fetched <= t.h.rung <= |t.h.log| < t.h.head + t.sq.size
    ensures t.sq.head == Slot(t.h.head, t.sq.size) && t.dev.sqHead == Slot(t.h.fetched, t.sq.size)
  {
    ReachableInv(t);
    hide Slot, Reachable, Entries, CompletionPart, PlacePart, DescriptorPart;
  }

  /** `produce` refuses exactly when the ring holds all it can, counted from the head that the
      completion handled last reported, or when as many requests as there are identifiers
      have not been called back. */
  lemma RefusesExactly(t: State)
    requires Reachable(t)
    ensures t.sq.size > 0
    ensures t.sq.Refuses() <==> |t.h.log| + 1 == t.h.head + t.sq.size || |t.h.log| - |t.h.calls| == t.sq.size
    ensures |t.h.calls| <= |t.h.posted|
    ensures t.h.head == if t.h.calls == [] then 0 else t.h.posted[|t.h.calls| - 1].head
  {
    hide Reachable, Slot, Entries, CqRing, CqMemory, PlacePart, DescriptorPart, WrapAround, Occupied;
    ReachableInv(t);
    ReachableCount(t);
    FullMeansRingLess1(t.h.head, |t.h.log|, t.sq.size);
    InFlightAtMost(t);
  }

  lemma InFlightAtMost(t: State)
    requires Inv(t)
    ensures t.sq.inFlight <= t.sq.size
  {
    hide RingPart, CompletionPart, PlacePart, DescriptorPart, Occupied;
    OccupiedFull(t.sq.callbacks);
  }

  /** No entry is overwritten before it is fetched: what the device finds is what the
      command held when its doorbell was rung, whatever happened in between. */
  lemma {:induction false} FetchedAsSubmitted(s: State, ls: seq<Label>, t: State)
    requires Reachable(s) && t.h.fetched < |s.h.log| && t.h.fetched < s.h.rung
    requires Run(s, ls, t) && Shape(t) && Enabled(t, Fetch)
    ensures t.sqMem[t.dev.sqHead] == s.h.log[t.h.fetched].sqe
  {
    hide Slot, Reachable, Inv, Run, Shape, Enabled;
    ReachableInv(s);
    RunLater(s, ls, t);
    assert Shape(t) && RingPart(t) by {
      InvParts(t);
    }
    FetchReads(t);
  }

  lemma InvParts(s: State)
    requires Inv(s)
    ensures Shape(s) && RingPart(s) && CompletionPart(s) && PlacePart(s) && DescriptorPart(s)
  {
    hide Shape, RingPart, CompletionPart, PlacePart, DescriptorPart;
  }

  /** No half-filled entry is fetched: while a request is being filled, the device
      can fetch only commands that were submitted before it. */
  lemma NoHalfFilledFetch(t: State)
    requires Reachable(t) && Shape(t) && Enabled(t, Fetch)
    ensures t.h.fetched < t.h.rung
    ensures t.filling.Some? ==> t.h.fetched + 1 < |t.h.log| && t.dev.sqHead != t.filling.value
  {
    hide Reachable, Inv, Slot, Entries, Shape;
    ReachableInv(t);
    InvParts(t);
    FetchReads(t);
    if t.filling.Some? {
      SlotsDiffer(t.h.fetched, t.h.rung, t.sq.size);
    }
  }

  // ---------------------------------------------------------------------
  // The completion queue
  // ---------------------------------------------------------------------

  /** `consume` returns an entry exactly when one is posted and not yet consumed, and
      it returns the oldest such entry, as the device wrote it. */
  lemma ConsumeIsExact(t: State)
    requires Reachable(t) && Shape(t)
    ensures t.cq.Accepts(t.cqMem[t.cq.head]) <==> t.h.consumed < |t.h.posted|
    ensures t.h.consumed < |t.h.posted| ==> t.cqMem[t.cq.head] == t.h.posted[t.h.consumed].cqe
  {
    hide Reachable, Inv;
    ReachableInv(t);
    InvParts(t);
    PhaseIsExact(t);
  }

  /** From `consume` to the head doorbell the consumed entry stays as posted, even
      while its callback submits new requests and the device posts more entries. */
  lemma ConsumedEntryIsStable(t: State)
    requires Reachable(t) && !t.pc.Idle?
    ensures Shape(t) && t.h.acked < |t.h.posted|
    ensures t.cqMem[Slot(t.h.acked, t.sq.size)] == t.h.posted[t.h.acked].cqe
    ensures t.pc.Consumed? ==> t.pc.slot == Slot(t.h.acked, t.sq.size) && CompletionValid(t, t.cqMem[t.pc.slot])
  {
    hide Reachable, Inv, Shape, Slot, Heads;
    ReachableInv(t);
    InvParts(t);
    if t.pc.Consumed? {
      CompletionIsValid(t);
    }
  }

  // ---------------------------------------------------------------------
  // Identifiers and descriptor memory
  // ---------------------------------------------------------------------

  /** An accepted `produce` takes the first free identifier from the hint on, which
      no command still outstanding uses. */
  lemma FreshIdentifier(t: State, cb: Callback, f: nat)
    requires Reachable(t) && Shape(t) && Enabled(t, Produce(cb))
    requires f < |t.h.log| && Outstanding(t.h.log, t.h.owner, f)
    ensures FirstFree(t.sq.callbacks, t.sq.freeHint, t.sq.NextCid())
    ensures t.h.log[f].cid != t.sq.NextCid()
  {
    hide Reachable, Inv, WrapAround, Occupied, Search, FirstFree;
    hide InRing, OnDevice, Done, Distinct, Accounted;
    ReachableInv(t);
    InvParts(t);
    ProduceAllocates(t.sq, cb);
  }

  /** Two outstanding commands use different identifiers, so their descriptor regions
      are apart, and both lie in the buffer. */
  lemma RegionsAreDisjoint(t: State, f: nat, g: nat)
    requires Reachable(t) && f != g
    requires Outstanding(t.h.log, t.h.owner, f) && Outstanding(t.h.log, t.h.owner, g)
    ensures t.h.log[f].cid != t.h.log[g].cid
    ensures var a, b := Offset(t.h.log[f].cid, t.stride), Offset(t.h.log[g].cid, t.stride);
            && a + t.stride <= |t.words| && b + t.stride <= |t.words|
            && (a + t.stride <= b || b + t.stride <= a)
  {
    hide Reachable, Inv, Region, Shape, RingPart, CompletionPart, PlacePart, RunningSaw, PostedSaw;
    ReachableInv(t);
    InvParts(t);
    var c, d := t.h.log[f].cid, t.h.log[g].cid;
    assert Holds(t.words, t.h.log[f], t.stride) && Holds(t.words, t.h.log[g], t.stride);
    if c < d {
      OffsetMonotone(c + 1, d, t.stride);
    } else {
      OffsetMonotone(d + 1, c, t.stride);
    }
  }

  /** From its submission to the handling of its completion a command's descriptors
      keep the contents they were submitted with, and that is what the device reads. */
  lemma {:induction false} DescriptorsAreStable(s: State, ls: seq<Label>, t: State, f: nat)
    requires Reachable(s) && f < s.h.rung && f < |s.h.log| && Run(s, ls, t)
    requires Outstanding(t.h.log, t.h.owner, f)
    ensures HasRegion(t.words, s.h.log[f].cid, t.stride)
    ensures Region(t.words, s.h.log[f].cid, t.stride) == s.h.log[f].region
    ensures f in t.dev.running ==> Saw(t.dev.running[f].seen, s.h.log[f], t.stride)
  {
    hide Reachable, Inv, Region, HasRegion, Run;
    ReachableInv(s);
    RunLater(s, ls, t);
    InvParts(t);
    assert Holds(t.words, t.h.log[f], t.stride);
  }

  // ---------------------------------------------------------------------
  // Progress
  // ---------------------------------------------------------------------

  /** Steps that bring in no new request. */
  predicate Drains(l: Label)
  {
    !l.Produce? && !l.Fill?
  }

  /** The device reports success. */
  predicate Benign(l: Label)
  {
    l.Post? ==> l.status == 0
  }

  /** No deadlock: while any request is in flight or the host is busy, the host or the
      device can take a step. */
  lemma NoDeadlock(t: State)
    requires Reachable(t) && (t.sq.inFlight > 0 || !t.pc.Idle? || t.filling.Some?)
    ensures Shape(t) && exists l: Label :: Drains(l) && Benign(l) && Enabled(t, l)
  {
    hide Reachable, Inv, Shape, Enabled, Drains;
    ReachableInv(t);
    SomeStep(t);
  }

  lemma SomeStep(t: State)
    requires Inv(t) && (t.sq.inFlight > 0 || !t.pc.Idle? || t.filling.Some?)
    ensures Shape(t) && exists l: Label :: Drains(l) && Benign(l) && Enabled(t, l)
  {
    hide Inv, Shape, Enabled, Drains, RingPart, CompletionPart, PlacePart;
    InvParts(t);
    if t.pc.Consumed? {
      CompletionIsValid(t);
    }
    if t.filling.Some? || !t.pc.Idle? {
      BusyProgress(t);
    } else {
      IdleProgress(t);
    }
  }

  lemma BusyProgress(t: State)
    requires Shape(t) && (t.filling.Some? || !t.pc.Idle?)
    requires t.pc.Consumed? ==> CompletionValid(t, t.cqMem[t.pc.slot])
    ensures exists l: Label :: Drains(l) && Benign(l) && Enabled(t, l)
  {
    hide CompletionValid, Occupied, HasRegion;
    var l := if t.filling.Some? then Submit else if t.pc.Consumed? then Complete else Return;
    assert Drains(l) && Benign(l) && Enabled(t, l);
  }

  lemma IdleProgress(t: State)
    requires Shape(t) && RingPart(t) && CompletionPart(t) && PlacePart(t)
    requires t.sq.inFlight > 0 && t.pc.Idle? && t.filling.None?
    ensures exists l: Label :: Drains(l) && Benign(l) && Enabled(t, l)
  {
    hide Slot, Phase, WrapAround, HasRegion, CqMemory, Heads, Distinct, OnDevice;
    var h, q := t.h, t.sq.size;
    OccupiedFull(t.sq.callbacks);
    var c: nat :| c < q && t.sq.callbacks[c].Some?;
    var f := h.owner[c].value;
    assert Outstanding(h.log, h.owner, f);
    PhaseIsExact(t);
    if h.consumed < |h.posted| {
      assert Benign(Consume) && Enabled(t, Consume);
    } else if h.fetched < h.rung {
      SlotsDiffer(h.fetched, h.rung, q);
      assert Benign(Fetch) && Enabled(t, Fetch);
    } else {
      FullMeansRingLess1(h.acked, |h.posted|, q);
      assert !IsPosted(h.posted, f);
      assert f in t.dev.running;
      var l := if t.dev.running[f].seen.None? then Execute(f) else Post(f, 0);
      assert Drains(l) && Benign(l) && Enabled(t, l);
    }
  }

  ghost function Unexecuted(running: map<nat, Running>): set<nat>
  {
    set f: nat | f in running && running[f].seen.None?
  }

  /** Work left before everything accepted has been called back. */
  ghost function Work(s: State): int
  {
    6 * (|s.h.log| - s.h.fetched) + 4 * |s.dev.running.Keys| + |Unexecuted(s.dev.running)|
    + 3 * (|s.h.posted| - s.h.consumed)
    + (match s.pc case Idle => 0 case Consumed(_) => 2 case Dispatching => 1)
    + (if s.filling.Some? then 1 else 0)
  }

  /** Every step that brings in no new request uses up some of the work. */
  lemma WorkDecreases(s: State, l: Label)
    requires Inv(s) && Enabled(s, l) && Drains(l)
    ensures 0 <= Work(Apply(s, l)) < Work(s)
  {
    hide Inv, Apply, Enabled, Work, Shape;
    InvParts(s);
    StepInv(s, l);
    WorkNonNegative(Apply(s, l));
    match l
    case Fetch => RunningKeysFresh(s); FetchWork(s);
    case Execute(f) => ExecuteWork(s, f);
    case Post(f, status) => PostWork(s, f, status);
    case _ => HostWork(s, l);
  }

  lemma FetchWork(s: State)
    requires Shape(s) && Enabled(s, Fetch) && s.h.fetched !in s.dev.running
    ensures Work(Apply(s, Fetch)) < Work(s)
  {
    hide WrapAround, Occupied;
    var t := DoFetch(s);
    assert t.dev.running.Keys == s.dev.running.Keys + {s.h.fetched};
    assert Unexecuted(t.dev.running) == Unexecuted(s.dev.running) + {s.h.fetched};
  }

  lemma ExecuteWork(s: State, f: nat)
    requires Shape(s) && Enabled(s, Execute(f))
    ensures Work(Apply(s, Execute(f))) < Work(s)
  {
    var t := DoExecute(s, f);
    assert t.dev.running.Keys == s.dev.running.Keys;
    assert Unexecuted(s.dev.running) == Unexecuted(t.dev.running) + {f};
  }

  lemma PostWork(s: State, f: nat, status: nat)
    requires Shape(s) && Enabled(s, Post(f, status))
    ensures Work(Apply(s, Post(f, status))) < Work(s)
  {
    hide WrapAround;
    var t := DoPost(s, f, status);
    assert s.dev.running.Keys == t.dev.running.Keys + {f};
    assert Unexecuted(t.dev.running) == Unexecuted(s.dev.running) - {f};
  }

  lemma HostWork(s: State, l: Label)
    requires Shape(s) && Enabled(s, l) && (l.Submit? || l.Consume? || l.Complete? || l.Return?)
    ensures Work(Apply(s, l)) < Work(s)
  {
    hide WrapAround, Occupied, CompletionValid;
  }

  lemma RunningKeysFresh(s: State)
    requires Inv(s)
    ensures s.h.fetched !in s.dev.running
  {
    hide Slot, Shape, SqRing, CqRing, CqMemory, Heads, Table, InRing, Done, Distinct, Accounted;
  }

  lemma WorkNonNegative(s: State)
    requires Inv(s)
    ensures Work(s) >= 0
  {
    hide Slot, Phase, Entries, CqMemory, Heads, Table, InRing, OnDevice, Done, Distinct, Accounted, DescriptorPart;
  }

  /** Without new requests every run is finite, bounded by the work at its start; and
      a run that cannot go on has called back every accepted request. */
  lemma {:induction false} DrainBound(s: State, ls: seq<Label>, t: State)
    requires Inv(s) && Run(s, ls, t) && forall i :: 0 <= i < |ls| ==> Drains(ls[i])
    ensures |ls| + Work(t) <= Work(s) && Work(t) >= 0
    decreases |ls|
  {
    hide Inv, Work, Enabled, Apply, Shape;
    if ls == [] {
      WorkNonNegative(s);
    } else {
      StepInv(s, ls[0]);
      WorkDecreases(s, ls[0]);
      DrainBound(Apply(s, ls[0]), ls[1..], t);
    }
  }

  lemma StuckMeansDrained(t: State)
    requires Reachable(t) && Shape(t) && forall l: Label :: Drains(l) ==> !Enabled(t, l)
    ensures t.sq.inFlight == 0 && |t.h.calls| == |t.h.log|
    ensures forall c: nat :: c < t.sq.size ==> t.sq.callbacks[c].None?
  {
    hide Reachable, Enabled, Drains;
    ReachableCount(t);
    if t.sq.inFlight > 0 {
      NoDeadlock(t);
    }
    OccupiedFull(t.sq.callbacks);
  }

  /** Steps that bring in no new request and report success. */
  ghost predicate AllServe(ls: seq<Label>)
  {
    forall i :: 0 <= i < |ls| ==> Drains(ls[i]) && Benign(ls[i])
  }

  /** From every state, without new requests, host and device can go on until every
      accepted request has been called back, the device reporting success from now on. */
  lemma {:induction false} CanDrain(s: State) returns (ls: seq<Label>, t: State)
    requires Inv(s)
    ensures Run(s, ls, t) && Inv(t) && AllServe(ls)
    ensures t.sq.inFlight == 0 && t.pc.Idle? && t.filling.None?
    decreases Work(s)
  {
    hide Inv, Work, Enabled, Apply, Shape, Drains, Benign;
    if s.sq.inFlight > 0 || !s.pc.Idle? || s.filling.Some? {
      SomeStep(s);
      var l: Label :| Drains(l) && Benign(l) && Enabled(s, l);
      StepInv(s, l);
      WorkDecreases(s, l);
      var more: seq<Label>;
      more, t := CanDrain(Apply(s, l));
      ls := [l] + more;
      assert ls[1..] == more;
    } else {
      ls, t := [], s;
    }
  }

  /** Such a run accepts nothing, and every completion it posts is a success. */
  ghost predicate Served(s: State, t: State)
  {
    && t.h.log == s.h.log && s.h.posted <= t.h.posted
    && forall m: nat :: |s.h.posted| <= m < |t.h.posted| ==> t.h.posted[m].cqe.sf == 0
  }

  lemma {:induction false} DrainServes(s: State, ls: seq<Label>, t: State)
    requires Run(s, ls, t) && AllServe(ls)
    ensures Served(s, t)
    decreases |ls|
  {
    if ls == [] {
    } else {
      assert Drains(ls[0]) && Benign(ls[0]);
      StepServes(s, ls[0]);
      assert AllServe(ls[1..]) by {
        forall i | 0 <= i < |ls[1..]| ensures Drains(ls[1..][i]) && Benign(ls[1..][i]) {
          assert ls[1..][i] == ls[i + 1];
        }
      }
      hide Shape, Enabled, Apply, AllServe;
      DrainServes(Apply(s, ls[0]), ls[1..], t);
    }
  }

  lemma StepServes(s: State, l: Label)
    requires Shape(s) && Enabled(s, l) && Drains(l) && Benign(l)
    ensures Served(s, Apply(s, l))
  {
    hide WrapAround, HasRegion, Occupied, CompletionValid;
  }

  /** Every request that `produce` accepts can be served: some run goes on to its
      callback, with success. */
  lemma {:induction false} EveryRequestCanBeServed(s: State, cb: Callback) returns (ls: seq<Label>, t: State, m: nat)
    requires Reachable(s) && Shape(s) && Enabled(s, Produce(cb))
    ensures Run(s, [Produce(cb)] + ls, t) && Reachable(t)
    ensures m < |t.h.calls| && t.h.calls[m] == Call(|s.h.log|, cb, 0)
  {
    hide Inv, Shape, Enabled, Run, DoProduce, Reachable, AllServe;
    ReachableInv(s);
    StepInv(s, Produce(cb));
    var u := DoProduce(s, cb);
    ls, t := CanDrain(u);
    ProducedLast(s, cb);
    ProduceThen(s, cb, ls, t);
    PostedBefore(s);
    m := ServedCall(u, ls, t, |s.h.log|);
  }

  /** A request not yet posted is called back with success by such a run. */
  lemma {:induction false} ServedCall(u: State, ls: seq<Label>, t: State, f: nat) returns (m: nat)
    requires Inv(u) && Run(u, ls, t) && AllServe(ls) && Reachable(t) && t.sq.inFlight == 0
    requires f < |u.h.log| && forall k: nat :: k < |u.h.posted| ==> u.h.posted[k].serial != f
    ensures m < |t.h.calls| && t.h.calls[m] == Call(f, u.h.log[f].cb, 0)
  {
    hide Inv, Run, Reachable, AllServe, Waiting, Outstanding;
    DrainServes(u, ls, t);
    CallsAreFaithful(t);
    NoneWaiting(t, f);
    m :| m < |t.h.calls| && t.h.calls[m].serial == f;
    assert forall k: nat :: k < |u.h.posted| ==> t.h.posted[k] == u.h.posted[k];
  }

  lemma ProducedLast(s: State, cb: Callback)
    requires Shape(s) && Enabled(s, Produce(cb))
    ensures var log := DoProduce(s, cb).h.log; |log| == |s.h.log| + 1 && log[|s.h.log|].cb == cb
    ensures DoProduce(s, cb).h.posted == s.h.posted
  {
    hide WrapAround, HasRegion, Region, Search, SqHost.Valid, SqHost.Refuses;
  }

  lemma {:induction false} ProduceThen(s: State, cb: Callback, ls: seq<Label>, t: State)
    requires Reachable(s) && Shape(s) && Enabled(s, Produce(cb)) && Run(DoProduce(s, cb), ls, t)
    ensures Run(s, [Produce(cb)] + ls, t) && Reachable(t)
  {
    hide Shape, Enabled, DoProduce, Init;
    assert ([Produce(cb)] + ls)[1..] == ls;
    assert Run(s, [Produce(cb)] + ls, t);
    var s0: State, before: seq<Label> :| Init(s0) && Run(s0, before, s);
    RunAppend(s0, before, s, [Produce(cb)] + ls, t);
  }

  lemma {:induction false} RunAppend(s: State, ls: seq<Label>, u: State, ms: seq<Label>, t: State)
    requires Run(s, ls, u) && Run(u, ms, t)
    ensures Run(s, ls + ms, t)
    decreases |ls|
  {
    hide Apply, Enabled, Shape;
    if ls == [] {
      assert ls + ms == ms;
    } else {
      assert (ls + ms)[1..] == ls[1..] + ms;
      RunAppend(Apply(s, ls[0]), ls[1..], u, ms, t);
    }
  }

  /** With nothing in flight every accepted request has been called back. */
  lemma NoneWaiting(t: State, f: nat)
    requires Reachable(t) && t.sq.inFlight == 0 && f < |t.h.log|
    ensures exists m: nat :: m < |t.h.calls| && t.h.calls[m].serial == f
  {
    hide Reachable, Inv, SqHost.Valid, RingPart, CompletionPart, DescriptorPart, InRing, OnDevice, Done, Distinct;
    hide Accounted;
    ReachableInv(t);
    InvParts(t);
    NothingOutstanding(t, f);
    WaitingIsUncalled(t, f);
  }

  lemma NothingOutstanding(s: State, f: nat)
    requires Shape(s) && PlacePart(s) && s.sq.inFlight == 0
    ensures !Outstanding(s.h.log, s.h.owner, f)
  {
    hide InRing, OnDevice, Done, Distinct, Accounted, WrapAround, Slot, HasRegion;
    OccupiedFull(s.sq.callbacks);
    hide Occupied;
  }

  /** Posted completions are for accepted requests. */
  lemma PostedBefore(s: State)
    requires Inv(s)
    ensures forall m: nat :: m < |s.h.posted| ==> s.h.posted[m].serial < |s.h.log|
  {
    hide Shape, RingPart, CompletionPart, DescriptorPart, Table, InRing, OnDevice, Distinct, Accounted;
    InvParts(s);
    forall m: nat | m < |s.h.posted|
      ensures s.h.posted[m].serial < |s.h.log|
    {
      assert PostedOk(s.qid, s.h.log, s.h.owner, s.h.fetched, s.h.posted[m]);
    }
  }

  /** With nothing in flight and the host idle no work is left, so nothing can happen. */
  lemma DrainedMeansNoWork(s: State)
    requires Inv(s) && s.sq.inFlight == 0 && s.pc.Idle? && s.filling.None?
    ensures Work(s) == 0
  {
    hide Inv, Shape, RingPart, CompletionPart, PlacePart, DescriptorPart, Work;
    InvParts(s);
    forall f: nat {:trigger Outstanding(s.h.log, s.h.owner, f)} ensures !Outstanding(s.h.log, s.h.owner, f) {
      NothingOutstanding(s, f);
    }
    NoPlaceLeft(s);
    NoWork(s);
  }

  lemma NoPlaceLeft(s: State)
    requires Shape(s) && PlacePart(s) && CompletionPart(s) && s.pc.Idle?
    requires forall f: nat :: !Outstanding(s.h.log, s.h.owner, f)
    ensures s.h.fetched == |s.h.log| && s.dev.running == map[] && |s.h.posted| == s.h.consumed
  {
    hide Shape, Table, Distinct, Accounted, CqRing, CqMemory, Heads;
    var h := s.h;
    assert !Outstanding(h.log, h.owner, h.fetched);
    assert forall f: nat :: f !in s.dev.running;
    assert |h.calls| < |h.posted| ==> !Outstanding(h.log, h.owner, h.posted[|h.calls|].serial);
    assert s.dev.running.Keys == {};
  }

  lemma NoWork(s: State)
    requires s.h.fetched == |s.h.log| && s.dev.running == map[] && |s.h.posted| == s.h.consumed
    requires s.pc.Idle? && s.filling.None?
    ensures Work(s) == 0
  {
    assert s.dev.running.Keys == {} && Unexecuted(s.dev.running) == {};
  }
}
