/** Controller identification on top of the admin queue pair: the callbacks of
    IdentifyLoop run inside the interrupt handler of a queue pair with two entries,
    against the device of Protocol. */
module Identification {
  import opened Ring
  import opened Types
  import opened SubmissionQueues
  import opened Protocol
  import opened QueueInvariant
  import opened QueueGuarantees
  import opened IdentifyLoop
  import opened IdentifyResults
  import opened AdminCommands

  const ADMIN_ENTRIES: nat := 2

  /** A controller being identified: its admin queue pair, what the host code that is
      running has still to do, and what has happened. `objects` are the buffers
      and queues made for the commands, one for each. `crashed` stands for the use of the null
      pointer a refusing `produce` would return. */
  datatype Ident = Ident(
    q: State, todo: seq<Action>, trace: seq<Event>, responses: seq<Response>, objects: seq<Given>, crashed: bool)

  datatype Step =
    | Device(l: Label)
    | Take
    | Handle(r: Response)
    | Act(given: Given)
    | Leave

  /** The count of namespaces is a 32-bit number. */
  predicate InRange(cb: Callback, r: Response)
  {
    cb.ControllerIdentified? && r.status == 0 ==> r.nn < TWO32
  }

  ghost predicate ActEnabled(q: State, a: Action, given: Given)
    requires Shape(q)
  {
    match a
    case Issue(cb) => !q.pc.Consumed? && q.filling.None?
    case FillEntry(cb) =>
      && q.filling.Some? && q.stride == 0 && Suits(cb, given)
      && var cid := q.h.log[|q.h.log| - 1].cid; cid < TWO16 && Blank(q.sqMem[q.filling.value], cid)
    case Ring => q.filling.Some?
    case Emit(e) => true
  }

  ghost predicate Able(m: Ident, st: Step)
    requires Shape(m.q)
  {
    !m.crashed && Stopped !in m.trace &&
    match st
    case Device(l) => (l.Fetch? || l.Execute? || l.Post?) && Enabled(m.q, l)
    case Take => m.todo == [] && Enabled(m.q, Consume)
    case Handle(r) =>
      && m.todo == [] && Enabled(m.q, Complete)
      && var cqe := m.q.cqMem[m.q.pc.slot];
         r.status == cqe.sf && InRange(m.q.sq.callbacks[cqe.cid].value, r)
    case Act(given) => m.todo != [] && ActEnabled(m.q, m.todo[0], given)
    case Leave => m.todo == [] && Enabled(m.q, Return)
  }

  function DoAct(m: Ident, given: Given): Ident
    requires Shape(m.q) && Able(m, Act(given))
  {
    var rest := m.todo[1..];
    match m.todo[0]
    case Issue(cb) =>
      if m.q.sq.Refuses() then m.(crashed := true)
      else m.(q := DoProduce(m.q, cb), todo := rest, trace := m.trace + [Issued(cb)])
    case FillEntry(cb) =>
      var clean := m.q.sqMem[m.q.filling.value];
      AdminRoundTrip(cb, clean, given, m.q.h.log[|m.q.h.log| - 1].cid);
      m.(q := DoFill(m.q, AdminSqe(cb, clean, given), []), todo := rest, objects := m.objects + [given])
    case Ring => m.(q := DoSubmit(m.q), todo := rest)
    case Emit(e) => m.(todo := rest, trace := m.trace + [e])
  }

  function DoHandle(m: Ident, r: Response): Ident
    requires Shape(m.q) && Able(m, Handle(r))
  {
    var cb := m.q.sq.callbacks[m.q.cqMem[m.q.pc.slot].cid].value;
    m.(q := DoComplete(m.q), todo := Script(cb, r), responses := m.responses + [r])
  }

  function After(m: Ident, st: Step): Ident
    requires Shape(m.q) && Able(m, st)
  {
    match st
    case Device(l) => m.(q := Apply(m.q, l))
    case Take => m.(q := DoConsume(m.q))
    case Handle(r) => DoHandle(m, r)
    case Act(given) => DoAct(m, given)
    case Leave => m.(q := DoReturn(m.q))
  }

  /** `Ctl::identify` has been called on fresh admin queues. */
  ghost predicate Start(m: Ident)
  {
    && Init(m.q) && m.q.sq.size == ADMIN_ENTRIES && m.q.stride == 0
    && m.todo == IssueCommand(ControllerIdentified)
    && m.trace == [] && m.responses == [] && m.objects == [] && !m.crashed
  }

  // ---------------------------------------------------------------------
  // Invariant
  // ---------------------------------------------------------------------

  /** Where a list of actions may stand: before a command, after `produce`, after the
      entry was filled, or after the doorbell, when only events are left. */
  datatype Position = Before | MustFill(cb: Callback) | MustRing | Rest

  /** Events that may follow the doorbell. */
  predicate Trailing(e: Event)
  {
    !e.Issued? && e != Stopped
  }

  predicate Shaped(todo: seq<Action>, position: Position)
  {
    match position
    case Before =>
      todo == [] || (match todo[0]
                     case Emit(e) => !e.Issued? && (e == Stopped ==> |todo| == 1) && Shaped(todo[1..], Before)
                     case Issue(cb) => Shaped(todo[1..], MustFill(cb))
                     case _ => false)
    case MustFill(cb) => todo != [] && todo[0] == FillEntry(cb) && Shaped(todo[1..], MustRing)
    case MustRing => todo != [] && todo[0] == Ring && Shaped(todo[1..], Rest)
    case Rest => todo == [] || (todo[0].Emit? && Trailing(todo[0].event) && Shaped(todo[1..], Rest))
  }

  ghost predicate TodoOk(todo: seq<Action>, filling: Option<nat>, log: seq<Entry>)
  {
    if filling.None? then Shaped(todo, Before)
    else
      log != [] &&
      var last := log[|log| - 1];
      (Shaped(todo, MustFill(last.cb)) && last.cid < TWO16 && Blank(last.sqe, last.cid)) || Shaped(todo, MustRing)
  }

  /** Only the command accepted last can be outstanding. */
  ghost predicate OnlyLast(log: seq<Entry>, owner: seq<Option<nat>>)
  {
    forall f: nat :: Outstanding(log, owner, f) ==> f + 1 == |log|
  }

  /** The admin command that is still to be completed is to be issued, or in flight. */
  ghost predicate PendingOk(todo: seq<Action>, inFlight: nat, log: seq<Entry>, pending: Option<Callback>)
  {
    var issued := IssuedBy(todo);
    && inFlight == (if pending.Some? && issued.None? then 1 else 0)
    && (issued.Some? ==> pending == issued)
    && (pending.Some? && issued.None? ==> log != [] && log[|log| - 1].cb == pending.value)
  }

  ghost predicate StatusesOk(responses: seq<Response>, calls: seq<Call>)
  {
    && |responses| == |calls|
    && forall i :: 0 <= i < |calls| ==> responses[i].status == calls[i].status
  }

  /** Everything that has happened, and will happen before the next completion. */
  function Whole(responses: seq<Response>): seq<Event>
  {
    [Issued(ControllerIdentified)] + Identify(responses).events
  }

  ghost predicate AdminQueue(q: State)
  {
    && Inv(q) && Count(q) && q.sq.size == ADMIN_ENTRIES && q.stride == 0
    && OnlyLast(q.h.log, q.h.owner)
  }

  ghost predicate Good(m: Ident)
  {
    && !m.crashed && AdminQueue(m.q)
    && TodoOk(m.todo, m.q.filling, m.q.h.log)
    && (m.q.pc.Consumed? ==> m.todo == [])
    && m.trace + Events(m.todo) == Whole(m.responses)
    && PendingOk(m.todo, m.q.sq.inFlight, m.q.h.log, Identify(m.responses).pending)
    && StatusesOk(m.responses, m.q.h.calls)
    && (m.responses != [] ==> Answers(ControllerIdentified, m.responses[0]))
    && (Stopped in m.trace ==> m.todo == [])
  }

  // ---------------------------------------------------------------------
  // Scripts have the right shape
  // ---------------------------------------------------------------------

  lemma {:induction false} RestIsBefore(todo: seq<Action>)
    requires Shaped(todo, Rest)
    ensures Shaped(todo, Before) && IssuedBy(todo) == None
  {
    if todo == [] {
    } else {
      RestIsBefore(todo[1..]);
    }
  }

  lemma {:induction false} ShapedIssue(cb: Callback, more: seq<Action>)
    requires Shaped(more, Rest)
    ensures Shaped(IssueCommand(cb) + more, Before)
  {
    var s := IssueCommand(cb) + more;
    assert s[1..] == [FillEntry(cb), Ring] + more;
    assert s[1..][1..] == [Ring] + more;
    assert s[1..][1..][1..] == more;
    assert Shaped(s[1..][1..], MustRing);
    assert Shaped(s[1..], MustFill(cb));
  }

  lemma {:induction false} ShapedEmit(e: Event, more: seq<Action>)
    requires Trailing(e)
    ensures Shaped(more, Before) ==> Shaped([Emit(e)] + more, Before)
    ensures Shaped(more, Rest) ==> Shaped([Emit(e)] + more, Rest)
  {
    assert ([Emit(e)] + more)[1..] == more;
  }

  lemma ShapedEmits(e: Event, f: Event)
    requires Trailing(e) && Trailing(f)
    ensures Shaped([Emit(e)], Rest) && Shaped([Emit(e)] + [Emit(f)], Rest)
    ensures Shaped([Emit(e)], Before) && Shaped([Emit(e)] + [Emit(f)], Before)
  {
    assert [Emit(e)] == [Emit(e)] + [] && [Emit(f)] == [Emit(f)] + [];
    ShapedEmit(e, []);
    ShapedEmit(f, []);
    ShapedEmit(e, [Emit(f)]);
    RestIsBefore([Emit(e)]);
    RestIsBefore([Emit(e)] + [Emit(f)]);
  }

  lemma GoOnShape(nn: nat, n: nat)
    ensures Shaped(GoOn(nn, n), Before) && Shaped(GoOn(nn, n) + [Emit(Destroyed(n))], Before)
  {
    hide Shaped, IssueCommand;
    ShapedEmits(Finished, Destroyed(n));
    ShapedEmits(Destroyed(n), Finished);
    var cb := NamespaceIdentified(nn, Next32(n));
    ShapedNothing();
    ShapedIssue(cb, []);
    ShapedIssue(cb, [Emit(Destroyed(n))]);
    assert IssueCommand(cb) + [] == IssueCommand(cb);
  }

  lemma ShapedNothing()
    ensures Shaped([], Rest) && Shaped([], Before)
  {
  }

  lemma ShapedStop(n: nat, size: nat)
    ensures Shaped([Emit(Created(n, size))] + [Emit(Stopped)], Before)
  {
    var s := [Emit(Created(n, size))] + [Emit(Stopped)];
    assert s[1..] == [Emit(Stopped)] && s[1..][1..] == [];
    assert Shaped(s[1..], Before);
  }

  lemma SqShape(nn: nat, n: nat, r: Response)
    ensures Shaped(Script(SqCreated(nn, n), r), Before)
  {
    var next := if Next32(n) <= nn then IssueCommand(NamespaceIdentified(nn, Next32(n))) else [];
    var finish := if n == nn then [Emit(Finished)] else [];
    var tail := SqTail(nn, n, r);
    assert Script(SqCreated(nn, n), r) == next + tail;
    hide Shaped, IssueCommand, Script;
    ShapedEmits(Finished, Destroyed(n));
    ShapedEmits(Announced(n), Finished);
    ShapedEmits(Destroyed(n), Finished);
    assert [] + [Emit(Destroyed(n))] == [Emit(Destroyed(n))] && [Emit(Announced(n))] + [] == [Emit(Announced(n))];
    assert Shaped(tail, Rest);
    RestIsBefore(tail);
    ShapedIssue(NamespaceIdentified(nn, Next32(n)), tail);
    assert [] + tail == tail;
  }

  lemma ScriptShape(cb: Callback, r: Response)
    ensures Shaped(Script(cb, r), Before)
  {
    hide Shaped, IssueCommand, GoOn, Usable;
    ShapedNothing();
    match cb
    case ControllerIdentified =>
      ShapedEmits(Finished, Finished);
      ShapedIssue(NamespaceIdentified(r.nn, 1), []);
      assert IssueCommand(NamespaceIdentified(r.nn, 1)) + [] == IssueCommand(NamespaceIdentified(r.nn, 1));
    case NamespaceIdentified(nn, n) =>
      GoOnShape(nn, n);
      ShapedIssue(CqCreated(nn, n), []);
      assert IssueCommand(CqCreated(nn, n)) + [] == IssueCommand(CqCreated(nn, n));
      ShapedEmit(Created(n, LbaSize(r.ns)), IssueCommand(CqCreated(nn, n)));
      ShapedStop(n, LbaSize(r.ns));
    case CqCreated(nn, n) =>
      GoOnShape(nn, n);
      ShapedIssue(SqCreated(nn, n), []);
      assert IssueCommand(SqCreated(nn, n)) + [] == IssueCommand(SqCreated(nn, n));
    case SqCreated(nn, n) => SqShape(nn, n, r);
    case _ =>
  }

  // ---------------------------------------------------------------------
  // The admin queue never refuses
  // ---------------------------------------------------------------------

  /** When nothing is in flight, the head read from the last completion has caught up
      with the tail: a drained queue has room again. */
  lemma DrainedQueueAccepts(s: State)
    requires Inv(s) && s.sq.inFlight == 0
    ensures Shape(s) && !s.sq.Refuses()
  {
    hide Inv, Shape, SqHost.Valid, RingPart, CompletionPart, PlacePart, Reachable;
    InvParts(s);
    if |s.h.log| > 0 {
      NothingWaits(s, |s.h.log| - 1);
      LastCallHead(s);
    }
    RoomLeft(s);
  }

  lemma NothingWaits(s: State, f: nat)
    requires Shape(s) && PlacePart(s) && s.sq.inFlight == 0 && f < |s.h.log|
    ensures exists m: nat :: m < |s.h.calls| && s.h.calls[m].serial == f
  {
    hide InRing, OnDevice, Done, Distinct, Accounted, WrapAround, Slot, HasRegion;
    OccupiedFull(s.sq.callbacks);
    hide Occupied;
    assert !Outstanding(s.h.log, s.h.owner, f);
    WaitingIsUncalled(s, f);
  }

  /** The head the host knows is past every command whose callback has run. */
  lemma LastCallHead(s: State)
    requires Shape(s) && CompletionPart(s) && PlacePart(s)
    ensures forall m: nat :: m < |s.h.calls| ==> s.h.calls[m].serial < s.h.head
  {
    hide Shape, Table, InRing, OnDevice, Distinct, Accounted, CqRing, CqMemory, Slot;
    forall m: nat | m < |s.h.calls|
      ensures s.h.calls[m].serial < s.h.head
    {
      assert CallOk(s.h.log, s.h.posted[m], s.h.calls[m]);
      assert PostedOk(s.qid, s.h.log, s.h.owner, s.h.fetched, s.h.posted[m]);
    }
  }

  lemma RoomLeft(s: State)
    requires Shape(s) && RingPart(s) && s.sq.inFlight == 0 && s.h.head >= |s.h.log|
    ensures !s.sq.Refuses()
  {
    hide Entries, Slot, WrapAround, Occupied, HasRegion;
    FullMeansRingLess1(s.h.head, |s.h.log|, s.sq.size);
  }

  // ---------------------------------------------------------------------
  // Every step keeps the invariant
  // ---------------------------------------------------------------------

  lemma ProduceOnlyLast(q: State, cb: Callback)
    requires AdminQueue(q) && q.sq.inFlight == 0 && Enabled(q, Produce(cb))
    ensures AdminQueue(DoProduce(q, cb))
  {
    hide Inv, Shape, Count, OnlyLast, Enabled, DoProduce, RingPart, CompletionPart, PlacePart, DescriptorPart;
    InvParts(q);
    StepInv(q, Produce(cb));
    StepCount(q, Produce(cb));
    ProduceLast(q, cb);
  }

  lemma ProduceLast(q: State, cb: Callback)
    requires Shape(q) && PlacePart(q) && Enabled(q, Produce(cb)) && q.sq.inFlight == 0
    ensures OnlyLast(DoProduce(q, cb).h.log, DoProduce(q, cb).h.owner)
    ensures DoProduce(q, cb).sq.size == q.sq.size && DoProduce(q, cb).stride == q.stride
  {
    hide Occupied, WrapAround, HasRegion, Region, Search, FreshSqe, PlacePart, SqHost.Refuses;
    var t := DoProduce(q, cb);
    forall f: nat | Outstanding(t.h.log, t.h.owner, f)
      ensures f + 1 == |t.h.log|
    {
      NothingOutstanding(q, f);
    }
  }

  lemma {:induction false} FillOnlyLast(q: State, sqe: Sqe, region: seq<nat>)
    requires AdminQueue(q) && Enabled(q, Fill(sqe, region))
    ensures AdminQueue(DoFill(q, sqe, region))
  {
    hide Inv, Shape, Count, OnlyLast, Enabled, DoFill, RingPart, CompletionPart, PlacePart, DescriptorPart;
    InvParts(q);
    StepInv(q, Fill(sqe, region));
    StepCount(q, Fill(sqe, region));
    FillLast(q, sqe, region);
  }

  lemma {:induction false} FillLast(q: State, sqe: Sqe, region: seq<nat>)
    requires Shape(q) && Enabled(q, Fill(sqe, region)) && OnlyLast(q.h.log, q.h.owner)
    ensures OnlyLast(DoFill(q, sqe, region).h.log, DoFill(q, sqe, region).h.owner)
    ensures DoFill(q, sqe, region).sq.size == q.sq.size && DoFill(q, sqe, region).stride == q.stride
  {
    hide WrapAround, HasRegion, Overlay, Occupied, Sqe.Cid, Table;
    SameCommands(q.h.log, DoFill(q, sqe, region).h.log, q.h.owner, q.sq.callbacks);
  }

  lemma CompleteOnlyLast(q: State)
    requires AdminQueue(q) && Enabled(q, Complete)
    ensures AdminQueue(DoComplete(q))
    ensures DoComplete(q).h.log == q.h.log
  {
    hide Inv, Shape, Count, OnlyLast, Enabled, DoComplete, RingPart, CompletionPart, PlacePart, DescriptorPart;
    InvParts(q);
    StepInv(q, Complete);
    StepCount(q, Complete);
    CompleteLast(q);
  }

  lemma CompleteLast(q: State)
    requires Shape(q) && PlacePart(q) && Enabled(q, Complete) && OnlyLast(q.h.log, q.h.owner)
    ensures OnlyLast(DoComplete(q).h.log, DoComplete(q).h.owner) && DoComplete(q).h.log == q.h.log
    ensures DoComplete(q).sq.size == q.sq.size && DoComplete(q).stride == q.stride
  {
    hide WrapAround, HasRegion, Occupied, InRing, OnDevice, Done, Distinct, Accounted;
    var c := q.cqMem[q.pc.slot].cid;
    var t := DoComplete(q);
    ReleaseOutstanding(q.h.log, q.h.owner, c, q.h.owner[c].value);
    forall f: nat | Outstanding(t.h.log, t.h.owner, f)
      ensures f + 1 == |t.h.log|
    {
      assert t.h.owner == q.h.owner[c := None];
      assert Outstanding(q.h.log, q.h.owner, f);
    }
  }

  /** Steps that leave commands and callbacks alone. */
  predicate Quiet(l: Label)
  {
    l.Submit? || l.Fetch? || l.Execute? || l.Post? || l.Consume? || l.Return?
  }

  lemma QuietStep(q: State, l: Label)
    requires AdminQueue(q) && Enabled(q, l) && Quiet(l)
    ensures var t := Apply(q, l);
            && AdminQueue(t) && t.h.log == q.h.log && t.h.calls == q.h.calls && t.sq == q.sq
            && (l.Fetch? || l.Execute? || l.Post? ==> t.filling == q.filling && t.pc == q.pc)
  {
    hide Inv, Shape, Count;
    StepInv(q, l);
    InvParts(q);
    StepCount(q, l);
    QuietFrame(q, l);
  }

  lemma QuietFrame(q: State, l: Label)
    requires Shape(q) && Enabled(q, l) && Quiet(l)
    ensures var t := Apply(q, l);
            && t.h.log == q.h.log && t.h.calls == q.h.calls && t.h.owner == q.h.owner
            && t.sq == q.sq && t.stride == q.stride
            && (l.Fetch? || l.Execute? || l.Post? ==> t.filling == q.filling && t.pc == q.pc)
  {
    hide WrapAround, SqHost.Valid, HasRegion;
  }

  /** The completion being handled is that of the pending command, and its callback
      runs with its status. */
  ghost predicate HandlesPending(q: State)
    requires Shape(q) && Enabled(q, Complete)
  {
    var cqe := q.cqMem[q.pc.slot];
    var t := DoComplete(q);
    && q.h.log != [] && q.sq.callbacks[cqe.cid] == Some(q.h.log[|q.h.log| - 1].cb)
    && q.sq.inFlight == 1 && t.sq.inFlight == 0
    && |t.h.calls| == |q.h.calls| + 1 && t.h.calls[..|q.h.calls|] == q.h.calls
    && t.h.calls[|q.h.calls|].status == cqe.sf
  }

  lemma HandledIsPending(q: State)
    requires Shape(q) && Enabled(q, Complete) && AdminQueue(q)
    ensures HandlesPending(q)
  {
    hide Inv, SqHost.Valid, HasRegion, Offset, DoComplete, OnlyLast, RingPart, CompletionPart, PlacePart;
    hide DescriptorPart;
    InvParts(q);
    HandledOwner(q);
    OneOutstanding(q, q.cqMem[q.pc.slot].cid);
    HandledCall(q);
  }

  lemma HandledOwner(q: State)
    requires Shape(q) && Enabled(q, Complete) && PlacePart(q) && OnlyLast(q.h.log, q.h.owner)
    ensures q.cqMem[q.pc.slot].cid < |q.sq.callbacks|
    ensures q.h.log != [] && q.sq.callbacks[q.cqMem[q.pc.slot].cid] == Some(q.h.log[|q.h.log| - 1].cb)
  {
    hide Occupied, InRing, OnDevice, Done, Distinct, Accounted, HasRegion;
    var c := q.cqMem[q.pc.slot].cid;
    assert Outstanding(q.h.log, q.h.owner, q.h.owner[c].value);
  }

  lemma HandledCall(q: State)
    requires Shape(q) && Enabled(q, Complete)
    ensures var t := DoComplete(q);
            && t.sq.inFlight == q.sq.inFlight - 1
            && |t.h.calls| == |q.h.calls| + 1 && t.h.calls[..|q.h.calls|] == q.h.calls
            && t.h.calls[|q.h.calls|].status == q.cqMem[q.pc.slot].sf
  {
    hide WrapAround, HasRegion, Occupied;
  }

  /** With only the last command outstanding at most one identifier is in use. */
  lemma OneOutstanding(q: State, c: nat)
    requires Shape(q) && PlacePart(q) && OnlyLast(q.h.log, q.h.owner)
    requires c < |q.sq.callbacks| && q.sq.callbacks[c].Some?
    ensures q.sq.inFlight == 1
  {
    hide InRing, OnDevice, Done, Distinct, Accounted, WrapAround, Slot, HasRegion;
    var cbs := q.sq.callbacks;
    forall d: nat | d < |cbs| && cbs[d].Some?
      ensures d == c
    {
      assert Outstanding(q.h.log, q.h.owner, q.h.owner[d].value);
      assert Outstanding(q.h.log, q.h.owner, q.h.owner[c].value);
    }
    OccupiedUpdate(cbs, c, None);
    OccupiedFull(cbs[c := None]);
  }

  lemma {:induction false} EventsUnfold(todo: seq<Action>)
    requires todo != []
    ensures Events(todo) == Events([todo[0]]) + Events(todo[1..])
    ensures IssuedBy(todo) == if IssuedBy([todo[0]]).Some? then IssuedBy([todo[0]]) else IssuedBy(todo[1..])
  {
    assert todo == [todo[0]] + todo[1..];
    EventsAppend([todo[0]], todo[1..]);
  }

  lemma {:induction false} TraceGrows(trace: seq<Event>, todo: seq<Action>)
    requires todo != []
    ensures trace + Events(todo) == (trace + Events([todo[0]])) + Events(todo[1..])
  {
    EventsUnfold(todo);
  }

  /** What one action contributes. */
  lemma EventsOfAction(a: Action)
    ensures Events([a]) == match a case Issue(cb) => [Issued(cb)] case Emit(e) => [e] case _ => []
    ensures IssuedBy([a]) == match a case Issue(cb) => Some(cb) case _ => None
  {
    assert [a][1..] == [];
    EventsOfNothing();
  }

  lemma {:induction false} GoodIssue(m: Ident, given: Given)
    requires Shape(m.q) && Able(m, Act(given)) && m.todo[0].Issue? && Good(m)
    ensures Enabled(m.q, Produce(m.todo[0].cb)) && Good(After(m, Act(given)))
  {
    hide Inv, Shape, Identify, Whole, OnlyLast, Count, DoProduce, Answers, StatusesOk;
    var cb := m.todo[0].cb;
    EventsUnfold(m.todo);
    TraceGrows(m.trace, m.todo);
    EventsOfAction(m.todo[0]);
    hide Events, IssuedBy;
    DrainedQueueAccepts(m.q);
    ProduceOnlyLast(m.q, cb);
    ProduceEffect(m.q, cb);
    AfterIssue(cb, m.todo[1..]);
  }

  lemma ProduceEffect(q: State, cb: Callback)
    requires Shape(q) && Enabled(q, Produce(cb))
    ensures var t := DoProduce(q, cb);
            && t.filling.Some? && t.h.log != [] && t.h.calls == q.h.calls
            && t.sq.inFlight == q.sq.inFlight + 1 && t.pc == q.pc
    ensures var t := DoProduce(q, cb);
            var last := t.h.log[|t.h.log| - 1];
            last.cb == cb && last.cid < TWO16 && Blank(last.sqe, last.cid)
  {
    hide WrapAround, Occupied, HasRegion, Region, Search;
  }

  /** After an issue only events follow. */
  lemma {:induction false} AfterIssue(cb: Callback, rest: seq<Action>)
    ensures Shaped(rest, MustFill(cb)) || Shaped(rest, MustRing) ==> IssuedBy(rest) == None
  {
    if Shaped(rest, MustFill(cb)) {
      AfterIssue(cb, rest[1..]);
    } else if Shaped(rest, MustRing) {
      RestIsBefore(rest[1..]);
    }
  }

  /** Filling and the doorbell take a list of actions on. */
  lemma {:induction false} TodoGoesOn(todo: seq<Action>, filling: Option<nat>, log: seq<Entry>, log': seq<Entry>,
                                      inFlight: nat, pending: Option<Callback>)
    requires TodoOk(todo, filling, log) && PendingOk(todo, inFlight, log, pending)
    requires todo != [] && |log'| == |log| && (log != [] ==> log'[|log| - 1].cb == log[|log| - 1].cb)
    ensures todo[0].FillEntry? ==> TodoOk(todo[1..], filling, log')
    ensures todo[0].Ring? ==> TodoOk(todo[1..], None, log')
    ensures todo[0].FillEntry? || todo[0].Ring? ==> PendingOk(todo[1..], inFlight, log', pending)
  {
    EventsUnfold(todo);
    EventsOfAction(todo[0]);
    hide Events, IssuedBy;
    if Shaped(todo, MustRing) {
      RestIsBefore(todo[1..]);
    }
  }

  /** Filling an entry and ringing the doorbell: nothing happens but on the queue. */
  lemma {:induction false} GoodOn(m: Ident, t: Ident)
    requires m.todo != [] && (m.todo[0].FillEntry? || m.todo[0].Ring?)
    requires t == m.(q := t.q, todo := m.todo[1..], objects := t.objects)
    requires t.q.h.calls == m.q.h.calls && t.q.pc == m.q.pc && AdminQueue(t.q)
    requires TodoOk(t.todo, t.q.filling, t.q.h.log)
    requires PendingOk(t.todo, t.q.sq.inFlight, t.q.h.log, Identify(m.responses).pending)
    requires Good(m)
    ensures Good(t)
  {
    hide Identify, Whole, AdminQueue, Answers, StatusesOk, TodoOk, PendingOk;
    TraceGrows(m.trace, m.todo);
    EventsOfAction(m.todo[0]);
    hide Events, IssuedBy;
    assert m.trace + [] == m.trace;
  }

  lemma {:induction false} GoodFill(m: Ident, given: Given)
    requires Shape(m.q) && Able(m, Act(given)) && m.todo[0].FillEntry? && Good(m)
    ensures Good(After(m, Act(given)))
  {
    hide Inv, Shape, Identify, Whole, AdminQueue, DoFill, Answers, AdminSqe, StatusesOk, TodoOk, PendingOk;
    hide ActEnabled, IsAdmin, Events, IssuedBy, Enabled;
    var t := After(m, Act(given));
    FillStep(m.q, m.todo[0].cb, given);
    TodoGoesOn(m.todo, m.q.filling, m.q.h.log, t.q.h.log, m.q.sq.inFlight, Identify(m.responses).pending);
    GoodOn(m, t);
  }

  lemma FillStep(q: State, cb: Callback, given: Given)
    requires Shape(q) && ActEnabled(q, FillEntry(cb), given) && AdminQueue(q)
    ensures var sqe := AdminSqe(cb, q.sqMem[q.filling.value], given);
            && Enabled(q, Fill(sqe, []))
            && AdminQueue(DoFill(q, sqe, [])) && FillFrame(q, DoFill(q, sqe, []))
  {
    hide Inv, OnlyLast, DoFill, AdminSqe;
    var sqe := AdminSqe(cb, q.sqMem[q.filling.value], given);
    AdminRoundTrip(cb, q.sqMem[q.filling.value], given, q.h.log[|q.h.log| - 1].cid);
    FillOnlyLast(q, sqe, []);
    FillEffect(q, sqe);
  }

  /** Filling an entry changes neither queue nor callbacks. */
  ghost predicate FillFrame(q: State, t: State)
  {
    && t.filling == q.filling && |t.h.log| == |q.h.log| && |q.h.log| > 0
    && t.h.log[|t.h.log| - 1].cb == q.h.log[|q.h.log| - 1].cb
    && t.h.calls == q.h.calls && t.sq == q.sq && t.pc == q.pc
  }

  lemma FillEffect(q: State, sqe: Sqe)
    requires Shape(q) && Enabled(q, Fill(sqe, []))
    ensures FillFrame(q, DoFill(q, sqe, []))
  {
    hide WrapAround, SqHost.Valid, HasRegion, Overlay;
  }

  lemma {:induction false} GoodRing(m: Ident, given: Given)
    requires Shape(m.q) && Able(m, Act(given)) && m.todo[0].Ring? && Good(m)
    ensures Good(After(m, Act(given)))
  {
    hide Inv, Shape, Identify, Whole, AdminQueue, Answers, StatusesOk, TodoOk, PendingOk, DoSubmit, Enabled;
    hide Events, IssuedBy;
    RingEnabled(m.q);
    QuietStep(m.q, Submit);
    SubmitEffect(m.q);
    TodoGoesOn(m.todo, m.q.filling, m.q.h.log, m.q.h.log, m.q.sq.inFlight, Identify(m.responses).pending);
    GoodOn(m, After(m, Act(given)));
  }

  lemma RingEnabled(q: State)
    requires Shape(q) && q.filling.Some?
    ensures Enabled(q, Submit)
  {
  }

  lemma SubmitEffect(q: State)
    requires Shape(q) && Enabled(q, Submit)
    ensures DoSubmit(q).filling.None? && DoSubmit(q).pc == q.pc && DoSubmit(q).h.log == q.h.log
    ensures DoSubmit(q).sq == q.sq && DoSubmit(q).h.calls == q.h.calls
  {
  }

  lemma {:induction false} GoodEmit(m: Ident, given: Given)
    requires Shape(m.q) && Able(m, Act(given)) && m.todo[0].Emit? && Good(m)
    ensures Good(After(m, Act(given)))
  {
    hide Inv, Shape, Identify, Whole, AdminQueue, Answers, StatusesOk;
    EventsUnfold(m.todo);
    TraceGrows(m.trace, m.todo);
    EventsOfAction(m.todo[0]);
    hide Events, IssuedBy;
  }

  /** Handling a completion: the callback of the pending command runs with the posted
      status, and the identification goes on as IdentifyLoop says. */
  lemma {:induction false} GoodHandle(m: Ident, r: Response)
    requires Shape(m.q) && Able(m, Handle(r)) && Good(m)
    ensures Good(After(m, Handle(r)))
  {
    hide Inv, Shape, Identify, OnlyLast, Count, DoComplete, Script, Occupied, CompletionValid, EndsOnce;
    var before := Identify(m.responses);
    HandledIsPending(m.q);
    CompleteOnlyLast(m.q);
    CompleteEffect(m.q);
    EventsOfNothing();
    hide Events, IssuedBy, Shaped;
    var cb := before.pending.value;
    ScriptShape(cb, r);
    IdentifyAppend(m.responses, r);
    AnswersFirst(m.responses, r);
    NotStopped(m.responses);
    assert m.trace == Whole(m.responses);
  }

  lemma CompleteEffect(q: State)
    requires Shape(q) && Enabled(q, Complete)
    ensures DoComplete(q).filling == q.filling && DoComplete(q).pc == Dispatching
  {
    hide WrapAround, SqHost.Valid, HasRegion;
  }

  lemma {:induction false} IdentifyAppend(rs: seq<Response>, r: Response)
    requires Identify(rs).pending.Some?
    ensures var script := Script(Identify(rs).pending.value, r);
            Identify(rs + [r]) == Progress(IssuedBy(script), Identify(rs).events + Events(script))
  {
    PlayAppend(Some(ControllerIdentified), rs, r);
  }

  /** While a command is pending the driver has not stopped. */
  lemma {:induction false} NotStopped(rs: seq<Response>)
    requires rs != [] ==> Answers(ControllerIdentified, rs[0])
    ensures Identify(rs).pending.Some? ==> Stopped !in Whole(rs)
  {
    hide Play, EndsOnce;
    FinishedWhenIdle(ControllerIdentified, rs);
  }

  /** The pending callback is one of the loop, so its queues are numbered below 65536. */
  lemma {:induction false} PendingIsInner(rs: seq<Response>)
    requires rs != [] ==> Answers(ControllerIdentified, rs[0])
    ensures Identify(rs).pending.Some? ==>
              && (Inner(Identify(rs).pending.value) || Identify(rs).pending.value == ControllerIdentified)
              && IsAdmin(Identify(rs).pending.value)
  {
    hide Play, EndsOnce;
    FinishedWhenIdle(ControllerIdentified, rs);
  }

  /** The first answer is in the modelled range. */
  lemma {:induction false} AnswersFirst(rs: seq<Response>, r: Response)
    requires Identify(rs).pending.Some? && InRange(Identify(rs).pending.value, r)
    requires rs != [] ==> Answers(ControllerIdentified, rs[0])
    ensures Answers(ControllerIdentified, (rs + [r])[0])
  {
    if rs == [] {
      PlayNothing(Some(ControllerIdentified));
    } else {
      assert (rs + [r])[0] == rs[0];
    }
  }

  lemma {:induction false} GoodQuiet(m: Ident, st: Step)
    requires Shape(m.q) && Able(m, st) && (st.Device? || st.Take? || st.Leave?) && Good(m)
    ensures Good(After(m, st))
  {
    hide Inv, Shape, Identify, Whole, OnlyLast, Count, Answers, Events, IssuedBy;
    var l := match st case Device(l) => l case Take => Consume case _ => Label.Return;
    QuietStep(m.q, l);
    QuietPc(m.q, l);
  }

  lemma QuietPc(q: State, l: Label)
    requires Shape(q) && Enabled(q, l) && (l.Consume? || l.Return? || l.Fetch? || l.Execute? || l.Post?)
    ensures Apply(q, l).filling == q.filling && (l.Return? ==> Apply(q, l).pc == Idle)
  {
    hide WrapAround, SqHost.Valid, HasRegion;
  }

  lemma {:induction false} StepGood(m: Ident, st: Step)
    requires Shape(m.q) && Able(m, st) && Good(m)
    ensures Good(After(m, st))
  {
    hide Good, After, Shape;
    match st
    case Handle(r) => GoodHandle(m, r);
    case Act(given) =>
      match m.todo[0] {
        case Issue(_) => GoodIssue(m, given);
        case FillEntry(_) => GoodFill(m, given);
        case Ring => GoodRing(m, given);
        case Emit(_) => GoodEmit(m, given);
      }
    case _ => GoodQuiet(m, st);
  }

  lemma {:induction false} StartGood(m: Ident)
    requires Start(m)
    ensures Good(m)
  {
    hide Inv;
    InitInv(m.q);
    EventsOfOne(ControllerIdentified, Finished);
    PlayNothing(Some(ControllerIdentified));
    ShapedNothing();
    ShapedIssue(ControllerIdentified, []);
    assert IssueCommand(ControllerIdentified) + [] == IssueCommand(ControllerIdentified);
    hide Shaped, Events, IssuedBy, Occupied, IssueCommand;
  }
}
