/** The controller object: `Ctl::identify` and its callbacks as the driver writes them,
    each shown to be a run of the identification machine (server/src/ctl.cc,
    server/src/ns.cc). */
module Controllers {
  import opened Arithmetic
  import opened Ring
  import opened Types
  import opened SubmissionQueues
  import opened CompletionQueues
  import opened Protocol
  import opened QueueInvariant
  import opened QueueGuarantees
  import opened IdentifyLoop
  import opened IdentifyResults
  import opened AdminCommands
  import opened Identification
  import opened IdentificationResults
  import opened InputOutput
  import HostSteps
  import Limits

  // ---------------------------------------------------------------------
  // Runs
  // ---------------------------------------------------------------------

  ghost predicate Leads(m: Ident, t: Ident)
  {
    exists steps: seq<Step> :: IdentRun(m, steps, t)
  }

  lemma {:induction false} LeadsNowhere(m: Ident)
    ensures Leads(m, m)
  {
    assert IdentRun(m, [], m);
  }

  lemma {:induction false} LeadsStep(m: Ident, st: Step)
    requires Shape(m.q) && Able(m, st)
    ensures Leads(m, After(m, st))
  {
    hide Shape, Able, After;
    assert [st][1..] == [];
    assert IdentRun(After(m, st), [], After(m, st));
    assert IdentRun(m, [st], After(m, st));
  }

  lemma {:induction false} IdentRunAppend(m: Ident, a: seq<Step>, n: Ident, b: seq<Step>, t: Ident)
    requires IdentRun(m, a, n) && IdentRun(n, b, t)
    ensures IdentRun(m, a + b, t)
    decreases |a|
  {
    hide Shape, Able, After;
    if a == [] {
      assert a + b == b;
    } else {
      assert (a + b)[0] == a[0] && (a + b)[1..] == a[1..] + b;
      IdentRunAppend(After(m, a[0]), a[1..], n, b, t);
    }
  }

  lemma {:induction false} LeadsOn(m: Ident, n: Ident, t: Ident)
    requires Leads(m, n) && Leads(n, t)
    ensures Leads(m, t)
  {
    hide IdentRun;
    var a: seq<Step> :| IdentRun(m, a, n);
    var b: seq<Step> :| IdentRun(n, b, t);
    IdentRunAppend(m, a, n, b, t);
  }

  /** The states that can follow each other: a step from a good state is good. */
  lemma {:induction false} GoodStep(m: Ident, st: Step)
    requires Good(m) && Shape(m.q) && Able(m, st)
    ensures Good(After(m, st)) && Leads(m, After(m, st))
    ensures Shape(After(m, st).q)
  {
    hide Good, Able, After, Shape, Leads;
    StepGood(m, st);
    LeadsStep(m, st);
    GoodShape(After(m, st));
  }

  lemma {:induction false} GoodShape(m: Ident)
    requires Good(m)
    ensures Shape(m.q) && Inv(m.q) && !m.crashed && m.q.sq.size == ADMIN_ENTRIES && m.q.stride == 0
    ensures m.todo != [] ==> !m.q.pc.Consumed? && Stopped !in m.trace
    ensures TodoStarts(m.todo, m.q.filling)
    ensures m.todo == [] ==> m.q.filling.None?
  {
    hide Inv, Shape, Identify, Whole, OnlyLast, Count, StatusesOk, Answers, PendingOk, RingPart, CompletionPart;
    hide PlacePart, DescriptorPart, Events;
    InvParts(m.q);
    StartsRight(m.todo, m.q.filling, m.q.h.log);
  }

  // ---------------------------------------------------------------------
  // Issuing a command
  // ---------------------------------------------------------------------

  /** The queue pair after `produce`, filling and `submit`. */
  ghost function AfterSend(q: State, cb: Callback, sqe: Sqe): State
    requires Shape(q)
  {
    q.(sq := q.sq.AfterProduce(cb),
       sqMem := q.sqMem[q.sq.tail := sqe],
       sqDb := q.sq.AfterProduce(cb).tail,
       h := q.h.(log := q.h.log + [Entry(cb, q.sq.NextCid(), sqe, [])],
                 owner := q.h.owner[q.sq.NextCid() := Some(|q.h.log|)],
                 rung := |q.h.log| + 1))
  }

  /** The entry of the command, from the one `produce` hands out. */
  ghost function SentSqe(q: State, cb: Callback, given: Given): Sqe
    requires Shape(q) && Suits(cb, given)
  {
    AdminSqe(cb, HostSteps.CleanEntry(q), given)
  }

  ghost function Sent(m: Ident, cb: Callback, given: Given, rest: seq<Action>): Ident
    requires Shape(m.q) && Suits(cb, given)
  {
    m.(q := AfterSend(m.q, cb, SentSqe(m.q, cb, given)), todo := rest,
       trace := m.trace + [Issued(cb)], objects := m.objects + [given])
  }

  lemma ThreeActs(q: State, cb: Callback, given: Given)
    requires Shape(q) && Enabled(q, Produce(cb)) && q.stride == 0 && Suits(cb, given)
    ensures var q1 := DoProduce(q, cb);
            Shape(q1) ==>
              && q1.sqMem[q.sq.tail] == HostSteps.CleanEntry(q) && q1.filling == Some(q.sq.tail)
              && ActEnabled(q1, FillEntry(cb), given)
              && Enabled(q1, Fill(SentSqe(q, cb, given), []))
              && var q2 := DoFill(q1, SentSqe(q, cb, given), []);
                 Shape(q2) ==> Enabled(q2, Submit) && DoSubmit(q2) == AfterSend(q, cb, SentSqe(q, cb, given))
  {
    hide WrapAround, Occupied, AdminSqe, Sqe.Cid, FreshSqe, SqHost.NextCid, SqHost.Refuses;
    var clean := HostSteps.CleanEntry(q);
    assert clean.Cid() == q.sq.NextCid();
    AdminRoundTrip(cb, clean, given, q.sq.NextCid());
    var q1 := DoProduce(q, cb);
    if Shape(q1) {
      OverlayNothing(q1.words, q.sq.NextCid());
      var q2 := DoFill(q1, SentSqe(q, cb, given), []);
      assert q2.h.log == AfterSend(q, cb, SentSqe(q, cb, given)).h.log;
    }
  }

  lemma {:induction false} OverlayNothing(words: seq<nat>, cid: nat)
    requires HasRegion(words, cid, 0)
    ensures Overlay(words, cid, 0, []) == words && Region(words, cid, 0) == []
  {
  }

  lemma {:induction false} IssueAct(m: Ident, cb: Callback, given: Given, more: seq<Action>)
    requires Shape(m.q) && !m.crashed && Stopped !in m.trace
    requires m.todo == [Issue(cb)] + more && Enabled(m.q, Produce(cb))
    ensures Able(m, Act(given))
    ensures After(m, Act(given)) == m.(q := DoProduce(m.q, cb), todo := more, trace := m.trace + [Issued(cb)])
  {
    hide DoProduce, SqHost.Valid, SqHost.Refuses, HasRegion;
    assert m.todo[0] == Issue(cb) && m.todo[1..] == more;
  }

  lemma {:induction false} FillAct(m: Ident, cb: Callback, given: Given, more: seq<Action>)
    requires Shape(m.q) && !m.crashed && Stopped !in m.trace
    requires m.todo == [FillEntry(cb)] + more && ActEnabled(m.q, FillEntry(cb), given)
    ensures Able(m, Act(given))
    ensures var sqe := AdminSqe(cb, m.q.sqMem[m.q.filling.value], given);
            && Enabled(m.q, Fill(sqe, []))
            && After(m, Act(given))
               == m.(q := DoFill(m.q, sqe, []), todo := more, objects := m.objects + [given])
  {
    hide DoFill, SqHost.Valid, HasRegion, AdminSqe, IsAdmin, Sqe.Cid;
    AdminRoundTrip(cb, m.q.sqMem[m.q.filling.value], given, m.q.h.log[|m.q.h.log| - 1].cid);
    assert m.todo[0] == FillEntry(cb) && m.todo[1..] == more;
  }

  lemma {:induction false} RingAct(m: Ident, given: Given, more: seq<Action>)
    requires Shape(m.q) && !m.crashed && Stopped !in m.trace && m.todo == [Ring] + more && Enabled(m.q, Submit)
    ensures Able(m, Act(given))
    ensures After(m, Act(given)) == m.(q := DoSubmit(m.q), todo := more)
  {
    hide DoSubmit, SqHost.Valid, HasRegion;
    assert m.todo[0] == Ring && m.todo[1..] == more;
  }

  /** Issuing a command is three steps of the machine; `produce` returns an entry. */
  lemma {:induction false} SendSteps(m: Ident, cb: Callback, given: Given, rest: seq<Action>)
    requires Good(m) && Shape(m.q) && m.todo == IssueCommand(cb) + rest && Suits(cb, given)
    ensures !m.q.sq.Refuses()
    ensures Good(Sent(m, cb, given, rest)) && Leads(m, Sent(m, cb, given, rest))
  {
    hide Good, Inv, Shape, Leads, DoProduce, DoFill, DoSubmit, AfterSend, SentSqe, IsAdmin, Able, After;
    assert !m.q.sq.Refuses() && Enabled(m.q, Produce(cb)) by {
      IssueEnabled(m, cb, rest);
    }
    hide Enabled, ActEnabled, SqHost.Refuses;
    SentIsGood(m, cb, given, rest);
  }

  lemma {:induction false} IssueEnabled(m: Ident, cb: Callback, rest: seq<Action>)
    requires Good(m) && Shape(m.q) && m.todo == IssueCommand(cb) + rest
    ensures Enabled(m.q, Produce(cb))
  {
    hide Good, Inv, Shape, SqHost.Refuses;
    GoodShape(m);
    assert m.todo[0] == Issue(cb);
    GoodIssue(m, Buffer(0));
  }

  lemma {:induction false} SentIsGood(m: Ident, cb: Callback, given: Given, rest: seq<Action>)
    requires Shape(m.q) && Enabled(m.q, Produce(cb)) && m.todo == IssueCommand(cb) + rest
    requires Suits(cb, given)
    requires Good(m)
    ensures Good(Sent(m, cb, given, rest)) && Leads(m, Sent(m, cb, given, rest))
  {
    hide Good, Inv, Shape, Leads, DoProduce, DoFill, DoSubmit, AfterSend, IsAdmin, Able, After, Enabled;
    hide ActEnabled, HostSteps.CleanEntry;
    GoodShape(m);
    var act := Act(given);
    assert IssueCommand(cb) + rest == [Issue(cb)] + ([FillEntry(cb)] + ([Ring] + rest));
    IssueAct(m, cb, given, [FillEntry(cb)] + ([Ring] + rest));
    ThreeActs(m.q, cb, given);
    GoodStep(m, act);
    var m1 := After(m, act);
    GoodShape(m1);
    FillAct(m1, cb, given, [Ring] + rest);
    GoodStep(m1, act);
    var m2 := After(m1, act);
    GoodShape(m2);
    RingAct(m2, given, rest);
    GoodStep(m2, act);
    LeadsOn(m, m1, m2);
    LeadsOn(m, m2, After(m2, act));
  }

  /** Running `ns_cb` or `done_cb`, or creating or destroying an object. */
  lemma {:induction false} EmitStep(m: Ident, e: Event, rest: seq<Action>)
    requires Good(m) && m.todo == [Emit(e)] + rest
    ensures Good(m.(todo := rest, trace := m.trace + [e])) && Leads(m, m.(todo := rest, trace := m.trace + [e]))
  {
    hide Good, Inv, Shape, Leads;
    GoodShape(m);
    assert m.todo[0] == Emit(e) && m.todo[1..] == rest;
    GoodStep(m, Act(Buffer(0)));
  }

  // ---------------------------------------------------------------------
  // The interrupt handler
  // ---------------------------------------------------------------------

  /** Nothing was consumed, posted or acknowledged. */
  ghost predicate SameCompletions(q: State, t: State)
  {
    t.pc == q.pc && t.h.posted == q.h.posted && t.h.consumed == q.h.consumed
  }

  /** `consume` and `complete`: up to the start of the callback. */
  lemma {:induction false} Dispatched(m: Ident, r: Response)
    requires Good(m) && m.todo == [] && Stopped !in m.trace && m.q.pc.Idle? && Shape(m.q)
    requires m.q.h.consumed < |m.q.h.posted|
    requires r.status == m.q.cqMem[m.q.cq.head].sf && Plausible(m, r)
    ensures Able(m, Take) && Shape(After(m, Take).q) && Able(After(m, Take), Handle(r))
    ensures var t := After(After(m, Take), Handle(r));
            Good(t) && Leads(m, t) && DispatchValues(m, r, t)
  {
    hide Good, Inv, Shape, Leads, DoConsume, DoComplete, DispatchValues, CqHost.Accepts, Enabled, CompletionValid;
    hide RingPart, CompletionPart, PlacePart, DescriptorPart;
    GoodShape(m);
    HostSteps.IdleFacts(m.q);
    HostSteps.ConsumeEnabled(m.q);
    GoodStep(m, Take);
    var m1 := After(m, Take);
    GoodShape(m1);
    CompletionIsValid(m1.q);
    HostSteps.CompleteEnabled(m1.q);
    DispatchedIsAdmin(m);
    HandleAble(m, r);
    GoodStep(m1, Handle(r));
    LeadsOn(m, m1, After(m1, Handle(r)));
    DispatchEffect(m, r);
  }

  lemma {:induction false} HandleAble(m: Ident, r: Response)
    requires Shape(m.q) && Able(m, Take) && Plausible(m, r)
    requires ForLoopCallback(m.q, m.q.cq.head, Identify(m.responses).pending)
    requires Shape(DoConsume(m.q)) && Enabled(DoConsume(m.q), Complete) && r.status == m.q.cqMem[m.q.cq.head].sf
    ensures Able(After(m, Take), Handle(r))
  {
    hide WrapAround, Occupied, HasRegion, Identify, InRange, Inner, IsAdmin;
  }

  /** What the objects hold when the callback starts. */
  ghost predicate DispatchValues(m: Ident, r: Response, t: Ident)
  {
    && HostSteps.DispatchValues(m.q, t.q)
    && t.todo == Script(m.q.sq.callbacks[m.q.cqMem[m.q.cq.head].cid].value, r)
    && t.trace == m.trace && t.responses == m.responses + [r]
  }

  lemma {:induction false} DispatchEffect(m: Ident, r: Response)
    requires Shape(m.q) && Able(m, Take) && Shape(After(m, Take).q) && Able(After(m, Take), Handle(r))
    ensures DispatchValues(m, r, After(After(m, Take), Handle(r)))
  {
    hide WrapAround, HasRegion, Script, Occupied, HostSteps.DispatchValues;
    HostSteps.DispatchEffect(m.q);
    HostSteps.DispatchIndex(m.q, After(After(m, Take), Handle(r)).q);
  }

  /** The head doorbell. */
  lemma {:induction false} LeaveStep(m: Ident)
    requires Good(m) && m.todo == [] && Stopped !in m.trace && m.q.pc.Dispatching?
    ensures Shape(m.q) && Able(m, Leave) && Good(After(m, Leave)) && Leads(m, After(m, Leave))
    ensures After(m, Leave).q == m.q.(cqDb := m.q.cq.head, pc := Idle, h := m.q.h.(acked := m.q.h.consumed))
  {
    hide Good, Inv, Shape, Leads;
    GoodShape(m);
    GoodStep(m, Leave);
  }

  /** The admin callbacks that can be pending are those of the loop. */
  lemma {:induction false} DispatchedIsAdmin(m: Ident)
    requires Good(m) && Shape(m.q) && m.todo == [] && Stopped !in m.trace && m.q.pc.Idle?
    requires m.q.h.consumed < |m.q.h.posted|
    ensures ForLoopCallback(m.q, m.q.cq.head, Identify(m.responses).pending)
  {
    hide Good, Inv, Shape, DoConsume, CqHost.Accepts, Enabled, CompletionValid, RingPart, CompletionPart;
    hide PlacePart, DescriptorPart, Identify;
    GoodShape(m);
    HostSteps.IdleFacts(m.q);
    HostSteps.ConsumeEnabled(m.q);
    GoodStep(m, Take);
    GoodShape(After(m, Take));
    CompletionIsValid(DoConsume(m.q));
    HostSteps.CompleteEnabled(DoConsume(m.q));
    ConsumeKeeps(m.q);
    HandledCallback(After(m, Take), m.q.cq.head);
  }

  lemma ConsumeKeeps(q: State)
    requires Shape(q) && Enabled(q, Consume)
    ensures var t := DoConsume(q);
            && t.cqMem == q.cqMem && t.sq == q.sq && t.pc == Consumed(q.cq.head)
  {
    hide WrapAround, SqHost.Valid, HasRegion;
  }

  // ---------------------------------------------------------------------
  // What the device does meanwhile
  // ---------------------------------------------------------------------

  /** `t` follows from `m` by steps of the device only. */
  ghost predicate DeviceRun(m: Ident, steps: seq<Step>, t: Ident)
  {
    IdentRun(m, steps, t) && forall i :: 0 <= i < |steps| ==> steps[i].Device?
  }

  /** The device leaves the host alone. */
  ghost predicate SameHost(m: Ident, t: Ident)
  {
    && t.todo == m.todo && t.trace == m.trace && t.responses == m.responses && t.objects == m.objects
    && t.q.pc == m.q.pc && t.q.h.consumed == m.q.h.consumed
    && t.q.sq == m.q.sq && t.q.cq == m.q.cq && t.q.sqMem == m.q.sqMem && t.q.sqDb == m.q.sqDb && t.q.cqDb == m.q.cqDb
  }

  lemma {:induction false} DeviceRunKeepsHost(m: Ident, steps: seq<Step>, t: Ident)
    requires DeviceRun(m, steps, t)
    ensures SameHost(m, t)
    decreases |steps|
  {
    if steps == [] {
    } else {
      DeviceStepKeepsHost(m, steps[0]);
      hide Shape, Able, After, SameHost;
      assert steps[0].Device?;
      assert forall i :: 0 <= i < |steps[1..]| ==> steps[1..][i] == steps[i + 1];
      DeviceRunKeepsHost(After(m, steps[0]), steps[1..], t);
      SameHostTransitive(m, After(m, steps[0]), t);
    }
  }

  lemma {:induction false} DeviceStepKeepsHost(m: Ident, st: Step)
    requires st.Device? && Shape(m.q) && Able(m, st)
    ensures SameHost(m, After(m, st))
  {
    hide WrapAround, SqHost.Valid, HasRegion;
  }

  lemma {:induction false} SameHostTransitive(m: Ident, n: Ident, t: Ident)
    requires SameHost(m, n) && SameHost(n, t)
    ensures SameHost(m, t)
  {
  }

  // ---------------------------------------------------------------------
  // The object
  // ---------------------------------------------------------------------

  /** What the allocators hand out to one callback: the physical address of a buffer or of
      queue memory, that of descriptor memory, and an interrupt vector. */
  datatype Resources = Resources(address: nat, descriptors: nat, vector: nat)
  {
    predicate Valid() { vector < TWO16 }
  }

  /** The requests of a namespace depend on its number and sector size, on where its
      descriptors are, and on the controller's SGL support and MDTS. */
  function ConfigOf(sgl: bool, maxTransfer: Option<nat>, n: nat, size: nat, descriptors: nat): IoConfig
  {
    IoConfig(n, descriptors, Limits.DriverController(sgl, size, maxTransfer))
  }

  /** The words of descriptors for each command of an I/O queue: 32 SGL descriptors, or the
      512 entries of each of two PRP list pages. */
  function IoStride(sgl: bool): nat
  {
    if sgl then 64 else 1024
  }

  /** These fit together: the descriptor memory made for the queue is what requests use, and
      the configuration is one the end-to-end theorem is about, for a page-aligned buffer and
      sectors for which the product of the block count limit does not overflow. */
  lemma ConfigFits(sgl: bool, maxTransfer: Option<nat>, n: nat, size: nat, descriptors: nat)
    ensures var c := ConfigOf(sgl, maxTransfer, n, size, descriptors);
            && c.Stride() == IoStride(sgl) == (if sgl then 2 * 32 else 2 * 512)
            && c.nsid == n && c.ctl.sectorSize == size && c.base == descriptors && c.ctl.sgl == sgl
            && c.ctl.maxTransfer == maxTransfer && Limits.MaxSegments(c.ctl) == if sgl then 32 else 1
    ensures 512 <= size && 0x1_0000 * size < TWO64 && descriptors % 4096 == 0 ==>
              (maxTransfer.Some? ==> maxTransfer.value < TWO64) ==>
              ConfigOf(sgl, maxTransfer, n, size, descriptors).Valid()
  {
    if 512 <= size && 0x1_0000 * size < TWO64 {
      Limits.DriverLimits(size);
    }
  }

  class Ctl {
    const asq: SubmissionQueue
    const acq: CompletionQueue
    const sgl: bool
    const mpsmin: nat
    const mdts: nat
    /** What the namespace objects hold, by namespace identifier: their sector sizes and
        their queues, and for those handed to the namespace callback what requests use. */
    var sizes: map<nat, nat>
    var iocqs: map<nat, CompletionQueue>
    var iosqs: map<nat, SubmissionQueue>
    var configs: map<nat, IoConfig>
    /** What the callbacks have done, in order. */
    var events: seq<Event>

    constructor (asqBase: nat, acqBase: nat, sgl: bool, mpsmin: nat, mdts: nat)
      ensures asq.base == asqBase && acq.base == acqBase
      ensures this.sgl == sgl && this.mpsmin == mpsmin && this.mdts == mdts
      ensures Valid() && fresh(asq) && fresh(acq) && fresh(asq.callbacks) && fresh(asq.buf) && fresh(acq.buf)
      ensures Start(Initially()) && Models(Initially()) && iocqs == map[] && iosqs == map[] && configs == map[]
    {
      asq := new SubmissionQueue(ADMIN_ENTRIES, asqBase, 0, 0);
      acq := new CompletionQueue(ADMIN_ENTRIES, acqBase);
      this.sgl, this.mpsmin, this.mdts := sgl, mpsmin, mdts;
      sizes, iocqs, iosqs, configs, events := map[], map[], map[], map[], [];
      new;
      assert asq.callbacks[..] == seq(2, i => None);
    }

    /** The machine's state when `identify` is about to be called on fresh queues. */
    ghost function Initially(): Ident
      reads this, asq, asq.callbacks, asq.buf, acq, acq.buf
    {
      Ident(State(0, 0, asq.Host(), acq.Host(), Idle, None, asq.buf[..], acq.buf[..], [],
                  asq.tailDoorbell, acq.headDoorbell, Device.Device(0, 0, true, map[]),
                  History([], 0, 0, 0, [], 0, 0, [], seq(asq.size, i => None))),
            IssueCommand(ControllerIdentified), events, [], [], false)
    }

    ghost predicate Valid()
      reads asq, asq.callbacks, acq
    {
      asq.Valid() && acq.Valid() && asq.size == acq.size == ADMIN_ENTRIES && asq.stride == 0
    }

    /** The objects hold what the identification machine's state says. */
    ghost predicate Models(m: Ident)
      reads this`events, asq, asq.callbacks, asq.buf, acq, acq.buf
    {
      && m.q.stride == 0 && m.q.sq == asq.Host() && m.q.cq == acq.Host()
      && m.q.sqMem == asq.buf[..] && m.q.cqMem == acq.buf[..]
      && m.q.sqDb == asq.tailDoorbell && m.q.cqDb == acq.headDoorbell
      && m.trace == events
    }

    /** What the callback of `cb` finds in its namespace object: a sector size, and the
        queues created before the command completed. */
    ghost predicate Built(cb: Callback)
      reads this`sizes, this`iocqs, this`iosqs
    {
      match cb
      case CqCreated(_, n) => n in sizes && n in iocqs && iocqs[n].size == 32
      case SqCreated(_, n) =>
        && n in sizes && n in iocqs && n in iosqs && iocqs[n].size == 32 && iosqs[n].size == 32
        && iosqs[n].stride == IoStride(sgl)
      case _ => true
    }

    /** `produce`, whose result is not checked, fill the entry, `submit`. */
    method Send(cb: Callback, given: Given, ghost m: Ident, ghost rest: seq<Action>)
      returns (ghost t: Ident)
      requires Valid() && Models(m) && Good(m) && m.todo == IssueCommand(cb) + rest && Suits(cb, given)
      modifies this`events, asq`inFlight, asq`tail, asq`tailDoorbell, asq.callbacks, asq.buf
      ensures Valid() && Models(t) && Good(t) && Leads(m, t) && SameCompletions(m.q, t.q)
      ensures t.todo == rest && t.responses == m.responses && events == old(events) + [Issued(cb)]
      ensures t.objects == m.objects + [given]
    {
      hide Good, Inv, Leads, AdminSqe, FreshSqe, WrapAround, Occupied, SqHost.AfterProduce, SqHost.NextCid, IsAdmin;
      GoodShape(m);
      SendSteps(m, cb, given, rest);
      var entry := asq.Produce(cb);
      var slot := entry.value;
      asq.buf[slot] := AdminSqe(cb, asq.buf[slot], given);
      asq.Submit();
      events := events + [Issued(cb)];
      t := Sent(m, cb, given, rest);
    }

    /** Something other than a command happens. */
    method Happen(e: Event, ghost m: Ident, ghost rest: seq<Action>) returns (ghost t: Ident)
      requires Valid() && Models(m) && Good(m) && m.todo == [Emit(e)] + rest
      modifies this`events
      ensures Valid() && Models(t) && Good(t) && Leads(m, t) && SameCompletions(m.q, t.q)
      ensures t.todo == rest && t.responses == m.responses && t.objects == m.objects && events == old(events) + [e]
    {
      hide Good, Leads;
      EmitStep(m, e, rest);
      events := events + [e];
      t := m.(todo := rest, trace := m.trace + [e]);
    }

    /** `identify`. */
    method Identify(address: nat, ghost m: Ident) returns (ghost t: Ident)
      requires Valid() && Models(m) && Start(m)
      modifies this`events, asq`inFlight, asq`tail, asq`tailDoorbell, asq.callbacks, asq.buf
      ensures Valid() && Models(t) && Good(t) && Leads(m, t) && t.todo == [] && t.q.pc.Idle?
      ensures events == [Issued(ControllerIdentified)] && t.objects == [Buffer(address)]
    {
      hide Good, Leads, Ctl.Models, Ctl.Valid;
      StartGood(m);
      assert m.todo == IssueCommand(ControllerIdentified) + [];
      NothingYet(m);
      t := Send(ControllerIdentified, Buffer(address), m, []);
    }

    lemma {:induction false} NothingYet(m: Ident)
      requires Models(m) && Start(m)
      ensures events == []
    {
    }

    /** `identify_namespace`, up to the doorbell. */
    method IdentifyNamespace(nn: nat, n: nat, address: nat, ghost m: Ident, ghost rest: seq<Action>)
      returns (ghost t: Ident)
      requires Valid() && Models(m) && Good(m) && m.todo == IssueCommand(NamespaceIdentified(nn, n)) + rest
      modifies this`events, asq`inFlight, asq`tail, asq`tailDoorbell, asq.callbacks, asq.buf
      ensures Valid() && Models(t) && Good(t) && Leads(m, t) && SameCompletions(m.q, t.q)
      ensures t.todo == rest && t.responses == m.responses && t.objects == m.objects + [Buffer(address)]
    {
      hide Good, Leads, Ctl.Models, Ctl.Valid;
      t := Send(NamespaceIdentified(nn, n), Buffer(address), m, rest);
    }

    /** The next namespace identifier, or the end. */
    method ContinueLoop(nn: nat, n: nat, address: nat, ghost m: Ident, ghost rest: seq<Action>) returns (ghost t: Ident)
      requires Valid() && Models(m) && Good(m) && m.todo == GoOn(nn, n) + rest
      modifies this`events, asq`inFlight, asq`tail, asq`tailDoorbell, asq.callbacks, asq.buf
      ensures Valid() && Models(t) && Good(t) && Leads(m, t) && SameCompletions(m.q, t.q)
      ensures t.todo == rest && t.responses == m.responses
      ensures t.objects == m.objects + if Next32(n) <= nn then [Buffer(address)] else []
    {
      hide Good, Leads, Ctl.Models, Ctl.Valid, IssueCommand;
      if (n + 1) % TWO32 <= nn {
        t := IdentifyNamespace(nn, (n + 1) % TWO32, address, m, rest);
      } else {
        t := Happen(Finished, m, rest);
      }
    }

    /** The callback of Identify Controller. */
    method OnControllerIdentified(r: Response, address: nat, ghost m: Ident) returns (ghost t: Ident)
      requires Valid() && Models(m) && Good(m) && m.todo == Script(ControllerIdentified, r)
      modifies this`events, asq`inFlight, asq`tail, asq`tailDoorbell, asq.callbacks, asq.buf
      ensures Valid() && Models(t) && Good(t) && Leads(m, t) && SameCompletions(m.q, t.q)
      ensures t.todo == [] && t.responses == m.responses
      ensures t.objects == m.objects + if r.status == 0 then [Buffer(address)] else []
    {
      hide Good, Leads, Ctl.Models, Ctl.Valid, IssueCommand;
      assert m.todo == m.todo + [];
      if r.status != 0 {
        t := Happen(Finished, m, []);
        return;
      }
      t := IdentifyNamespace(r.nn, 1, address, m, []);
    }

    /** The callback of Identify Namespace. A namespace that is not skipped gets the sector
        size its format gives as a power of two. */
    method OnNamespaceIdentified(nn: nat, n: nat, r: Response, rs: Resources, ghost m: Ident) returns (ghost t: Ident)
      requires Valid() && Models(m) && Good(m) && m.todo == Script(NamespaceIdentified(nn, n), r) && rs.Valid()
      modifies this`events, this`sizes, this`iocqs
      modifies asq`inFlight, asq`tail, asq`tailDoorbell, asq.callbacks, asq.buf
      ensures Valid() && Models(t) && Good(t) && Leads(m, t) && SameCompletions(m.q, t.q)
      ensures t.todo == [] && t.responses == m.responses
      ensures FirstOutcome(n, [r]) == Skipped ==>
                && sizes == old(sizes) && iocqs == old(iocqs)
                && t.objects == m.objects + if Next32(n) <= nn then [Buffer(rs.address)] else []
      ensures FirstOutcome(n, [r]) != Skipped ==> sizes == old(sizes)[n := LbaSize(r.ns)]
      ensures FirstOutcome(n, [r]) != Skipped && n < TWO16 ==> QueueMade(n, rs, m, t) && Built(CqCreated(nn, n))
    {
      hide Good, Leads, Ctl.Models, Ctl.Valid, IssueCommand, GoOn;
      assert m.todo == m.todo + [];
      if r.status != 0 {
        t := ContinueLoop(nn, n, rs.address, m, []);
        return;
      }
      var skipped := true;
      if r.ns.nsze != 0 {
        var index := r.ns.flbas % 16;
        if index <= r.ns.nlbaf && index < |r.ns.lbaf| {
          var lbaf := r.ns.lbaf[index];
          var lbads := (lbaf / TWO16) % 0x100;
          if lbaf % TWO16 == 0 && 9 <= lbads < 64 {
            skipped := false;
            var size := Pow2(lbads);
            ghost var more := if n >= TWO16 then [Emit(Stopped)] else IssueCommand(CqCreated(nn, n));
            ghost var u := Happen(Created(n, size), m, more);
            sizes := sizes[n := size];
            t := LoopInit(nn, n, rs, u);
            LeadsOn(m, u, t);
          }
        }
      }
      if skipped {
        t := ContinueLoop(nn, n, rs.address, m, []);
      }
    }

    /** The completion queue kept for `n` is the one the last command issued is about. */
    twostate predicate QueueMade(n: nat, rs: Resources, m: Ident, t: Ident)
      reads this
    {
      && n in iocqs && fresh(iocqs[n]) && iocqs == old(iocqs)[n := iocqs[n]]
      && iocqs[n].size == 32 && iocqs[n].base == rs.address
      && t.objects == m.objects + [Queue(iocqs[n].base, iocqs[n].size, rs.vector)]
    }

    /** `async_loop_init` and `create_iocq`: `qid` asserts that the queue number fits; else
        the controller is told address and size of the queue the namespace keeps. */
    method LoopInit(nn: nat, n: nat, rs: Resources, ghost m: Ident) returns (ghost t: Ident)
      requires Valid() && Models(m) && Good(m) && rs.Valid()
      requires m.todo == if n >= TWO16 then [Emit(Stopped)] else IssueCommand(CqCreated(nn, n))
      modifies this`events, this`iocqs, asq`inFlight, asq`tail, asq`tailDoorbell, asq.callbacks, asq.buf
      ensures Valid() && Models(t) && Good(t) && Leads(m, t) && SameCompletions(m.q, t.q)
      ensures t.todo == [] && t.responses == m.responses
      ensures n >= TWO16 ==> iocqs == old(iocqs) && t.objects == m.objects && events == old(events) + [Stopped]
      ensures n < TWO16 ==> QueueMade(n, rs, m, t) && events == old(events) + [Issued(CqCreated(nn, n))]
    {
      hide Good, Leads, Ctl.Models, Ctl.Valid, IssueCommand;
      assert m.todo == m.todo + [];
      if n >= TWO16 {
        t := Happen(Stopped, m, []);
        return;
      }
      var cq := new CompletionQueue(IOQ_SIZE, rs.address);
      t := Send(CqCreated(nn, n), Queue(cq.base, cq.size, rs.vector), m, []);
      iocqs := iocqs[n := cq];
    }

    /** The callback of Create I/O Completion Queue, with `create_iosq`: the controller is
        told address and size of the queue the namespace keeps. */
    method OnCqCreated(nn: nat, n: nat, r: Response, rs: Resources, ghost m: Ident) returns (ghost t: Ident)
      requires Valid() && Models(m) && Good(m) && m.todo == Script(CqCreated(nn, n), r) && n < TWO16
      modifies this`events, this`iosqs, asq`inFlight, asq`tail, asq`tailDoorbell, asq.callbacks, asq.buf
      ensures Valid() && Models(t) && Good(t) && Leads(m, t) && SameCompletions(m.q, t.q)
      ensures t.todo == [] && t.responses == m.responses
      ensures r.status != 0 ==>
                && iosqs == old(iosqs)
                && t.objects == m.objects + if Next32(n) <= nn then [Buffer(rs.address)] else []
      ensures r.status == 0 ==>
                && n in iosqs && fresh(iosqs[n]) && iosqs == old(iosqs)[n := iosqs[n]]
                && iosqs[n].size == 32 && iosqs[n].base == rs.address
                && iosqs[n].stride == IoStride(sgl) && iosqs[n].descriptorBase == rs.descriptors
                && t.objects == m.objects + [Queue(iosqs[n].base, iosqs[n].size, 0)]
    {
      hide Good, Leads, Ctl.Models, Ctl.Valid, IssueCommand, GoOn;
      if r.status != 0 {
        ghost var u := ContinueLoop(nn, n, rs.address, m, [Emit(Destroyed(n))]);
        assert u.todo == u.todo + [];
        t := Happen(Destroyed(n), u, []);
        LeadsOn(m, u, t);
        return;
      }
      assert m.todo == m.todo + [];
      var sq := new SubmissionQueue(IOQ_SIZE, rs.address, IoStride(sgl), rs.descriptors);
      t := Send(SqCreated(nn, n), Queue(sq.base, sq.size, 0), m, []);
      iosqs := iosqs[n := sq];
    }

    /** The requests of the namespace handed over use the sector size, the number and the
        descriptors it was set up with, those of the other ones stay as they were. */
    twostate predicate HandedOver(n: nat)
      reads this
    {
      && n in sizes && n in iosqs
      && var mdtsBytes := Limits.MdtsBytes(mpsmin, mdts);
         configs == old(configs)[n := ConfigOf(sgl, mdtsBytes, n, sizes[n], iosqs[n].descriptorBase)]
    }

    /** The callback of Create I/O Submission Queue. */
    method OnSqCreated(nn: nat, n: nat, r: Response, address: nat, ghost m: Ident) returns (ghost t: Ident)
      requires Valid() && Models(m) && Good(m) && m.todo == Script(SqCreated(nn, n), r) && Built(SqCreated(nn, n))
      modifies this`events, this`configs, asq`inFlight, asq`tail, asq`tailDoorbell, asq.callbacks, asq.buf
      ensures Valid() && Models(t) && Good(t) && Leads(m, t) && SameCompletions(m.q, t.q)
      ensures t.todo == [] && t.responses == m.responses
      ensures t.objects == m.objects + if Next32(n) <= nn then [Buffer(address)] else []
      ensures r.status != 0 ==> configs == old(configs)
      ensures r.status == 0 ==> HandedOver(n)
    {
      hide Good, Leads, Ctl.Models, Ctl.Valid, IssueCommand;
      ghost var finish := if n == nn then [Emit(Finished)] else [];
      ghost var tail := SqTail(nn, n, r);
      ghost var u := m;
      LeadsNowhere(m);
      if (n + 1) % TWO32 <= nn {
        u := IdentifyNamespace(nn, (n + 1) % TWO32, address, m, tail);
      } else {
        assert m.todo == tail;
      }
      if r.status != 0 {
        // The object goes out of scope when the callback returns.
        ghost var v := Ending(nn, n, u, [Emit(Destroyed(n))]);
        t := Happen(Destroyed(n), v, []);
        LeadsOn(m, u, v);
        LeadsOn(m, v, t);
        return;
      }
      ghost var v := HandOver(n, u, finish);
      assert finish == finish + [];
      t := Ending(nn, n, v, []);
      LeadsOn(m, u, v);
      LeadsOn(m, v, t);
    }

    /** The namespace callback. */
    method HandOver(n: nat, ghost m: Ident, ghost rest: seq<Action>) returns (ghost t: Ident)
      requires Valid() && Models(m) && Good(m) && m.todo == [Emit(Announced(n))] + rest && n in sizes && n in iosqs
      modifies this`events, this`configs
      ensures Valid() && Models(t) && Good(t) && Leads(m, t) && SameCompletions(m.q, t.q) && HandedOver(n)
      ensures t.todo == rest && t.responses == m.responses && t.objects == m.objects
    {
      hide Good, Leads, Ctl.Models, Ctl.Valid;
      t := Happen(Announced(n), m, rest);
      configs := configs[n := ConfigOf(sgl, Limits.MdtsBytes(mpsmin, mdts), n, sizes[n], iosqs[n].descriptorBase)];
    }

    /** The completion callback, after the last namespace. */
    method Ending(nn: nat, n: nat, ghost m: Ident, ghost rest: seq<Action>) returns (ghost t: Ident)
      requires Valid() && Models(m) && Good(m) && m.todo == (if n == nn then [Emit(Finished)] else []) + rest
      modifies this`events
      ensures Valid() && Models(t) && Good(t) && Leads(m, t) && SameCompletions(m.q, t.q)
      ensures t.todo == rest && t.responses == m.responses && t.objects == m.objects
    {
      hide Good, Leads, Ctl.Models, Ctl.Valid;
      LeadsNowhere(m);
      t := m;
      if n == nn {
        t := Happen(Finished, m, rest);
      } else {
        assert [] + rest == rest;
      }
    }

    /** Runs the callback of a completed command; the namespace object of the next one is
        set up as far as its callback needs. */
    method RunCallback(cb: Callback, r: Response, rs: Resources, ghost m: Ident) returns (ghost t: Ident)
      requires Valid() && Models(m) && Good(m) && m.todo == Script(cb, r)
      requires (Inner(cb) || cb == ControllerIdentified) && rs.Valid() && Built(cb)
      modifies this`events, this`sizes, this`iocqs, this`iosqs, this`configs
      modifies asq`inFlight, asq`tail, asq`tailDoorbell, asq.callbacks, asq.buf
      ensures Valid() && Models(t) && Good(t) && Leads(m, t) && SameCompletions(m.q, t.q)
      ensures t.todo == [] && t.responses == m.responses
      ensures IssuedBy(Script(cb, r)).Some? ==> Built(IssuedBy(Script(cb, r)).value)
    {
      hide Good, Leads, Ctl.Models, Ctl.Valid, Script, IssuedBy;
      NextCallback(cb, r);
      match cb
      case ControllerIdentified => t := OnControllerIdentified(r, rs.address, m);
      case NamespaceIdentified(nn, n) => t := OnNamespaceIdentified(nn, n, r, rs, m);
      case CqCreated(nn, n) => t := OnCqCreated(nn, n, r, rs, m);
      case SqCreated(nn, n) => t := OnSqCreated(nn, n, r, rs.address, m);
    }

    /** One turn of the loop in `handle_irq`; `data` is what the identify buffer holds. It
        does not end when the assertion of `qid` stops the driver. */
    method HandleOne(data: Response, rs: Resources, ghost m: Ident) returns (more: bool, ghost t: Ident)
      requires Valid() && Models(m) && Good(m) && m.todo == [] && Stopped !in m.trace && m.q.pc.Idle?
      requires Plausible(m, data.(status := 0)) && rs.Valid() && PendingBuilt(m)
      modifies this`events, this`sizes, this`iocqs, this`iosqs, this`configs
      modifies acq`head, acq`phase, acq`headDoorbell
      modifies asq`head, asq`freeHint, asq`inFlight, asq`tail, asq`tailDoorbell, asq.callbacks, asq.buf
      ensures Valid() && Models(t) && Good(t) && Leads(m, t) && t.todo == [] && PendingBuilt(t)
      ensures Stopped in t.trace || t.q.pc.Idle?
      ensures more <==> m.q.h.consumed < |m.q.h.posted|
      ensures t.q.h.posted == m.q.h.posted && t.q.h.consumed == m.q.h.consumed + if more then 1 else 0
      ensures !more ==> t == m
      ensures more ==> t.responses == m.responses + [data.(status := old(acq.buf[acq.head]).sf)]
      ensures more && Stopped !in t.trace && Bounded(t.responses) ==> Potential(t) < Potential(m)
    {
      hide Good, Inv, Leads, WrapAround, Occupied, SqHost.AfterComplete, CqHost.AfterConsume, Script, Potential, Inner;
      hide IsAdmin, Bounded, IssuedBy;
      GoodShape(m);
      HostSteps.IdleFacts(m.q);
      LeadsNowhere(m);
      var entry := acq.Consume();
      if entry.None? {
        return false, m;
      }
      var cqe := acq.buf[entry.value];
      var r := data.(status := cqe.sf);
      Dispatched(m, r);
      DispatchedIsAdmin(m);
      ghost var u := After(After(m, Take), Handle(r));
      var cb, status := asq.Complete(cqe);
      NextPending(m.responses, r);
      ghost var v := RunCallback(cb, r, rs, u);
      LeadsOn(m, u, v);
      more, t := true, v;
      if Stopped in events {
        return;
      }
      EndOfTurn(m, v);
      acq.Complete();
      t := After(v, Leave);
    }

    /** The namespace object of the pending command is set up as far as its callback needs. */
    ghost predicate PendingBuilt(m: Ident)
      reads this`sizes, this`iocqs, this`iosqs
    {
      var pending := IdentifyResults.Identify(m.responses).pending;
      pending.Some? ==> Built(pending.value)
    }

    /** What the device does between two turns of the handler: any number of its own steps.
        Doing nothing is one possibility; callers know only the contract. */
    method DeviceMoves(ghost m: Ident) returns (ghost steps: seq<Step>, ghost t: Ident)
      requires Valid() && Models(m) && Good(m)
      modifies acq.buf
      ensures Valid() && Models(t) && DeviceRun(m, steps, t)
    {
      steps, t := [], m;
    }

    /** What the device has stored in the buffer of the pending identify command, within
        what a controller may answer; callers know only the contract. */
    method IdentifyData(ghost m: Ident) returns (data: Response)
      ensures Plausible(m, data.(status := 0)) && data.nn < NSID_ALL
    {
      data := QUIET;
    }

    /** What the allocators hand out; callers know only the contract. */
    method Allocate() returns (rs: Resources)
      ensures rs.Valid()
    {
      rs := Resources(0, 0, 0);
    }

    /** `handle_irq`: while the device goes on it handles every completion it finds, each by
        the callback of its command, until none is posted or the driver stops. */
    method HandleIrq(ghost m: Ident) returns (ghost t: Ident)
      requires Valid() && Models(m) && Good(m) && m.todo == [] && Stopped !in m.trace && m.q.pc.Idle?
      requires Bounded(m.responses) && PendingBuilt(m)
      modifies this`events, this`sizes, this`iocqs, this`iosqs, this`configs
      modifies acq`head, acq`phase, acq`headDoorbell, acq.buf
      modifies asq`head, asq`freeHint, asq`inFlight, asq`tail, asq`tailDoorbell, asq.callbacks, asq.buf
      ensures Valid() && Models(t) && Good(t) && Leads(m, t) && t.todo == [] && PendingBuilt(t)
      ensures Stopped in events || (t.q.pc.Idle? && t.q.h.consumed == |t.q.h.posted|)
      ensures [Issued(ControllerIdentified)] + IdentifyResults.Identify(t.responses).events == events
    {
      hide Good, Inv, Leads, Ctl.Models, Ctl.Valid, Potential, Plausible, DeviceRun;
      LeadsNowhere(m);
      EventsAreTrace(m);
      t := m;
      var more := true;
      while more && Stopped !in events
        invariant Valid() && Models(t) && Good(t) && Leads(m, t) && t.todo == [] && Bounded(t.responses)
        invariant PendingBuilt(t)
        invariant t.trace == events && (Stopped in events || t.q.pc.Idle?)
        invariant !more ==> t.q.h.consumed == |t.q.h.posted|
        decreases Stopped !in events, Potential(t), more
      {
        ghost var before := t;
        ghost var steps, u := DeviceMoves(before);
        AfterDevice(before, steps, u);
        LeadsOn(m, before, u);
        var data := IdentifyData(u);
        var rs := Allocate();
        more, t := HandleOne(data, rs, u);
        LeadsOn(m, u, t);
        PotentialBounded(u);
        GoodCounts(u);
        EventsAreTrace(t);
      }
      TraceFollows(t);
    }

    lemma {:induction false} EventsAreTrace(t: Ident)
      requires Models(t)
      ensures t.trace == events
    {
    }
  }

  /** The callback that can follow. */
  lemma NextCallback(cb: Callback, r: Response)
    requires Inner(cb) || cb == ControllerIdentified
    ensures var next := IssuedBy(Script(cb, r));
            match cb
            case NamespaceIdentified(nn, n) =>
              && (FirstOutcome(n, [r]) == Skipped ==> next.Some? ==> next.value.NamespaceIdentified?)
              && (FirstOutcome(n, [r]) != Skipped ==> next == if n < TWO16 then Some(CqCreated(nn, n)) else None)
            case CqCreated(nn, n) =>
              && (r.status != 0 ==> next.Some? ==> next.value.NamespaceIdentified?)
              && (r.status == 0 ==> next == Some(SqCreated(nn, n)))
            case _ => next.Some? ==> next.value.NamespaceIdentified?
  {
    hide Events, IssuedBy, IssueCommand, GoOn, Usable;
    match cb
    case ControllerIdentified => FirstCommand(r);
    case NamespaceIdentified(nn, n) =>
      GoOnEvents(nn, n, Finished);
      UsableEvents(nn, n, LbaSize(r.ns));
      StopEvents(n, LbaSize(r.ns));
    case CqCreated(nn, n) =>
      GoOnEvents(nn, n, Destroyed(n));
      EventsOfOne(SqCreated(nn, n), Finished);
    case SqCreated(nn, n) => SqEvents(nn, n, r);
  }

  lemma {:induction false} NextPending(rs: seq<Response>, r: Response)
    ensures var pending := IdentifyResults.Identify(rs).pending;
            pending.Some? ==> IdentifyResults.Identify(rs + [r]).pending == IssuedBy(Script(pending.value, r))
  {
    hide IdentifyResults.Identify, Script, IssuedBy;
    if IdentifyResults.Identify(rs).pending.Some? {
      IdentifyAppend(rs, r);
    }
  }

  lemma {:induction false} GoodCounts(m: Ident)
    requires Good(m)
    ensures m.q.h.consumed <= |m.q.h.posted|
  {
    hide Good, Inv;
    GoodShape(m);
    HostSteps.IdleFacts(m.q);
  }

  /** What device steps leave true. */
  lemma {:induction false} AfterDevice(m: Ident, steps: seq<Step>, t: Ident)
    requires Good(m) && DeviceRun(m, steps, t) && Bounded(m.responses)
    ensures Good(t) && Leads(m, t) && SameHost(m, t) && Potential(t) <= Potential(m)
  {
    hide Good, Potential, IdentRun, Bounded;
    DeviceRunKeepsHost(m, steps, t);
    RunGood(m, steps, t);
    RunBound(m, steps, t);
  }

  lemma {:induction false} PotentialBounded(m: Ident)
    requires Good(m)
    ensures Potential(m) >= 0
  {
    hide Good, Potential;
    PotentialNonNegative(m);
  }

  lemma {:induction false} LeadsDown(m: Ident, t: Ident)
    requires Good(m) && Leads(m, t) && Bounded(t.responses)
    ensures Good(t) && 0 <= Potential(t) <= Potential(m)
  {
    hide Good, Potential, IdentRun;
    var steps: seq<Step> :| IdentRun(m, steps, t);
    RunGood(m, steps, t);
    RunBound(m, steps, t);
    PotentialNonNegative(t);
  }

  /** A turn of the handler uses up potential with its last step. */
  lemma {:induction false} PotentialOfTurn(m: Ident, t: Ident, v: Ident)
    requires Good(m) && Leads(m, v) && Shape(v.q) && Able(v, Leave) && t == After(v, Leave) && Bounded(t.responses)
    ensures Potential(t) < Potential(m)
  {
    hide Good, Potential, Leads, Able, Shape, Bounded, DoReturn;
    LeadsDown(m, v);
    PotentialDecreases(v, Leave);
  }

  /** The last step of a turn. */
  lemma {:induction false} EndOfTurn(m: Ident, v: Ident)
    requires Good(m) && Leads(m, v) && Good(v) && v.todo == [] && Stopped !in v.trace && v.q.pc.Dispatching?
    ensures Shape(v.q) && Able(v, Leave)
    ensures var t := After(v, Leave);
            && Good(t) && Leads(m, t) && t == v.(q := t.q)
            && t.q == v.q.(cqDb := v.q.cq.head, pc := Idle, h := v.q.h.(acked := v.q.h.consumed))
            && (Bounded(t.responses) ==> Potential(t) < Potential(m))
  {
    hide Good, Potential, Leads, Bounded;
    LeaveStep(v);
    LeadsOn(m, v, After(v, Leave));
    if Bounded(v.responses) {
      PotentialOfTurn(m, After(v, Leave), v);
    }
  }
}
