/** What identification over the admin queue pair guarantees in every run. */
module IdentificationResults {
  import opened Ring
  import opened Types
  import opened SubmissionQueues
  import opened Protocol
  import opened QueueInvariant
  import opened QueueGuarantees
  import opened IdentifyLoop
  import opened IdentifyResults
  import opened AdminCommands
  import opened Identification

  ghost predicate IdentRun(m: Ident, steps: seq<Step>, n: Ident)
    decreases |steps|
  {
    if steps == [] then m == n
    else Shape(m.q) && Able(m, steps[0]) && IdentRun(After(m, steps[0]), steps[1..], n)
  }

  /** `n` occurs in some run of `Ctl::identify` against some device. */
  ghost predicate Identifying(n: Ident)
  {
    exists m: Ident, steps: seq<Step> :: Start(m) && IdentRun(m, steps, n)
  }

  lemma {:induction false} RunGood(m: Ident, steps: seq<Step>, n: Ident)
    requires Good(m) && IdentRun(m, steps, n)
    ensures Good(n)
    decreases |steps|
  {
    hide Good, Able, After, Shape;
    if steps == [] {
    } else {
      StepGood(m, steps[0]);
      RunGood(After(m, steps[0]), steps[1..], n);
    }
  }

  lemma {:induction false} IdentifyingGood(n: Ident)
    requires Identifying(n)
    ensures Good(n)
  {
    hide Good, Start, IdentRun;
    var m: Ident, steps: seq<Step> :| Start(m) && IdentRun(m, steps, n);
    StartGood(m);
    RunGood(m, steps, n);
  }

  /** With two entries per admin queue, at most one admin command is in flight and every
      `produce`, also those inside completion callbacks, returns an entry: the pointer
      that is never checked is never null. */
  lemma {:induction false} AdminQueueNeverRefuses(n: Ident)
    requires Identifying(n)
    ensures !n.crashed && n.q.sq.inFlight <= 1 && n.q.sq.size == ADMIN_ENTRIES
    ensures n.todo != [] && n.todo[0].Issue? ==> Shape(n.q) && Enabled(n.q, Produce(n.todo[0].cb))
  {
    hide Identifying, Inv, Shape, Count, OnlyLast, Answers, Identify, Whole, StatusesOk;
    IdentifyingGood(n);
    if n.todo != [] && n.todo[0].Issue? {
      DrainedQueueAccepts(n.q);
    }
  }

  /** In every run, what has happened and what the running callback will still do is what
      the callbacks amount to for the statuses the device posted so far; and whenever
      nothing is left to do and nothing is in flight, the identification is complete. */
  lemma {:induction false} TraceFollowsCallbacks(n: Ident)
    requires Identifying(n)
    ensures n.trace + Events(n.todo) == Whole(n.responses)
    ensures |n.responses| == |n.q.h.calls|
    ensures forall i :: 0 <= i < |n.responses| ==> n.responses[i].status == n.q.h.calls[i].status
    ensures n.todo == [] ==> (n.q.sq.inFlight == 0 <==> Identify(n.responses).pending.None?)
  {
    hide Identifying, AdminQueue, Answers, Identify, Whole, Events, TodoOk;
    IdentifyingGood(n);
  }

  /** A completed identification (`Good` holds in every run), end to end: over the queue, for every interleaving with
      the device and whatever it answers, the trace is that of the plain loop. */
  lemma {:induction false} CompletedIdentification(n: Ident)
    requires Good(n) && n.todo == [] && n.q.sq.inFlight == 0
    ensures n.responses != [] && Identify(n.responses).pending.None?
    ensures EndsOnce(n.trace) <==> !Strands(n.responses) && !Stops(n.responses)
    ensures Finished in n.trace <==> !Strands(n.responses) && !Stops(n.responses)
    ensures n.responses[0].status != 0 ==> n.trace == [Issued(ControllerIdentified), Finished]
    ensures n.responses[0].status == 0 && n.responses[0].nn < NSID_ALL ==>
              var nn := n.responses[0].nn;
              n.trace == [Issued(ControllerIdentified), Issued(NamespaceIdentified(nn, 1))]
                            + Loop(nn, 1, Outcomes(nn, 1, n.responses[1..]), Sizes(nn, 1, n.responses[1..]))
  {
    hide AdminQueue, Identify, Events, TodoOk, Loop, Outcomes, Sizes, EndsOnce, Strands, Stops;
    EventsOfNothing();
    assert n.trace == Whole(n.responses);
    IdentifyNothing();
    CompleteTrace(n.responses);
  }

  /** What a completed identification has done to the namespaces, and that every
      namespace object has exactly one owner in the end. */
  lemma {:induction false} CompletedNamespaces(n: Ident)
    requires Good(n) && n.todo == [] && n.q.sq.inFlight == 0 && n.responses != [] && n.responses[0].status == 0
    requires n.responses[0].nn < NSID_ALL
    ensures var outcomes := AllOutcomes(n.responses);
            && (!Stops(n.responses) ==> |outcomes| == LastNsid(n.responses[0].nn))
            && Select(n.trace, Identification) == UpTo(1, |outcomes|)
            && (forall id: nat :: id in Select(n.trace, Announcement) <==>
                  1 <= id <= |outcomes| && outcomes[id - 1] == Ready)
            && (forall id: nat :: id in Select(n.trace, Destruction) <==>
                  1 <= id <= |outcomes| && outcomes[id - 1] in {NoCompletionQueue, NoSubmissionQueue})
            && Select(n.trace, Completion) == if Strands(n.responses) || Stops(n.responses) then [] else [0]
    ensures !Stops(n.responses) ==>
              multiset(Select(n.trace, Creation))
              == multiset(Select(n.trace, Announcement)) + multiset(Select(n.trace, Destruction))
    ensures forall i, j :: 0 <= i < j < |Select(n.trace, Creation)| ==>
              Select(n.trace, Creation)[i] < Select(n.trace, Creation)[j]
  {
    hide AdminQueue, Identify, Events, TodoOk, AllOutcomes, Select, Chosen, PendingOk, StatusesOk, Strands, Stops;
    hide EndsOnce, Loop;
    CompletedIdentification(n);
    TraceFollows(n);
    IdentificationOutcome(n.responses);
    NamespacesHaveOneOwner(n.responses);
    forall k: Kind ensures Select(n.trace, k) == Select(Identify(n.responses).events, k) {
      SelectAppend([Issued(ControllerIdentified)], Identify(n.responses).events, k);
      SelectOne(Issued(ControllerIdentified), k);
    }
    forall id: nat {
      EachNamespace(n.responses, id);
    }
  }

  lemma {:induction false} TraceFollows(n: Ident)
    requires Good(n) && n.todo == []
    ensures n.trace == Whole(n.responses)
  {
    hide AdminQueue, Identify, TodoOk, PendingOk, StatusesOk, Whole, Answers, Events;
    EventsOfNothing();
  }

  lemma IdentifyNothing()
    ensures Identify([]).pending == Some(ControllerIdentified)
  {
  }

  lemma {:induction false} CompleteTrace(rs: seq<Response>)
    requires rs != [] && Identify(rs).pending.None? && Answers(ControllerIdentified, rs[0])
    ensures EndsOnce(Whole(rs)) <==> !Strands(rs) && !Stops(rs)
    ensures Finished in Whole(rs) <==> !Strands(rs) && !Stops(rs)
    ensures rs[0].status != 0 ==> Whole(rs) == [Issued(ControllerIdentified), Finished]
    ensures rs[0].status == 0 && rs[0].nn < NSID_ALL ==>
              Whole(rs) == [Issued(ControllerIdentified), Issued(NamespaceIdentified(rs[0].nn, 1))]
                           + Loop(rs[0].nn, 1, Outcomes(rs[0].nn, 1, rs[1..]), Sizes(rs[0].nn, 1, rs[1..]))
  {
    hide Play, Loop, Outcomes, Sizes, EndsOnce, Strands, Stops;
    EndsUnlessStranded(rs);
    EndsOnceHasFinished(Whole(rs));
    if !Strands(rs) && !Stops(rs) {
      EndsOnceAppend([Issued(ControllerIdentified)], Identify(rs).events);
    }
    if rs[0].status != 0 {
      IdentificationEnds(rs);
    } else if rs[0].nn < NSID_ALL {
      IdentifyIsALoop(rs);
    }
  }

  /** A controller that reports the broadcast identifier as its count of namespaces is
      never identified: in no run has its completion callback been run. */
  lemma {:induction false} BroadcastNeverFinishes(n: Ident)
    requires Good(n) && n.responses != [] && n.responses[0].status == 0 && n.responses[0].nn == NSID_ALL
    ensures Finished !in n.trace
    ensures n.todo == [] && Stopped !in n.trace ==> n.q.sq.inFlight == 1
  {
    hide AdminQueue, TodoOk, StatusesOk, Play, Script, Events, IssuedBy;
    PlayUnfold(ControllerIdentified, n.responses);
    FirstCommand(n.responses[0]);
    BroadcastCountNeverEnds(NamespaceIdentified(NSID_ALL, 1), n.responses[1..]);
    assert Finished !in n.trace + Events(n.todo);
    EventsOfNothing();
    if n.todo == [] {
      assert n.trace == Whole(n.responses);
    }
  }

  // ---------------------------------------------------------------------
  // The commands the controller gets
  // ---------------------------------------------------------------------

  /** The callbacks for which commands were issued, in order. */
  function Issues(events: seq<Event>): seq<Callback>
  {
    if events == [] then []
    else Issues(events[..|events| - 1])
         + (match events[|events| - 1] case Issued(cb) => [cb] case _ => [])
  }

  /** The entry holds the command its callback waits for, about the given object. */
  ghost predicate Carries(e: Entry, given: Given)
  {
    Suits(e.cb, given) && Decode(e.sqe) == Wanted(e.cb, given)
  }

  ghost predicate LogOk(trace: seq<Event>, log: seq<Entry>)
  {
    && |Issues(trace)| == |log|
    && forall f: nat :: f < |log| ==> log[f].cb == Issues(trace)[f]
  }

  ghost predicate CarriesAll(log: seq<Entry>, rung: nat, objects: seq<Given>)
  {
    rung <= |log| && rung <= |objects| && forall f: nat :: f < rung ==> Carries(log[f], objects[f])
  }

  /** Every command but the one still to be filled has its object. */
  ghost predicate Filled(todo: seq<Action>, log: seq<Entry>, objects: seq<Given>)
  {
    && |log| == |objects| + (if todo != [] && todo[0].FillEntry? then 1 else 0)
    && (todo != [] && todo[0].Ring? ==> log != [] && Carries(log[|log| - 1], objects[|log| - 1]))
  }

  ghost predicate Faithful(m: Ident)
  {
    && LogOk(m.trace, m.q.h.log) && CarriesAll(m.q.h.log, m.q.h.rung, m.objects)
    && Filled(m.todo, m.q.h.log, m.objects)
  }

  lemma {:induction false} IssuesAppend(trace: seq<Event>, e: Event)
    ensures Issues(trace + [e]) == Issues(trace) + (match e case Issued(cb) => [cb] case _ => [])
  {
    assert (trace + [e])[..|trace + [e]| - 1] == trace;
  }

  lemma ScriptNotRing(cb: Callback, r: Response)
    ensures var s := Script(cb, r); s != [] ==> !s[0].Ring? && !s[0].FillEntry?
  {
    ScriptShape(cb, r);
  }

  lemma {:induction false} StepFaithful(m: Ident, st: Step)
    requires Shape(m.q) && Able(m, st) && Good(m) && Faithful(m)
    ensures Faithful(After(m, st))
  {
    hide Good, Inv, Shape;
    match st
    case Act(given) => ActFaithful(m, given);
    case Handle(r) => HandleFaithful(m, r);
    case _ => QuietFaithful(m, st);
  }

  lemma {:induction false} QuietFaithful(m: Ident, st: Step)
    requires Shape(m.q) && Able(m, st) && (st.Device? || st.Take? || st.Leave?) && Faithful(m)
    ensures Faithful(After(m, st))
  {
    hide WrapAround, SqHost.Valid, HasRegion, LogOk, CarriesAll, Filled;
  }

  lemma {:induction false} HandleFaithful(m: Ident, r: Response)
    requires Shape(m.q) && Able(m, Handle(r)) && Faithful(m)
    ensures Faithful(After(m, Handle(r)))
  {
    hide WrapAround, HasRegion, LogOk, CarriesAll, Script, Carries, Occupied;
    ScriptNotRing(m.q.sq.callbacks[m.q.cqMem[m.q.pc.slot].cid].value, r);
  }

  lemma {:induction false} ActFaithful(m: Ident, given: Given)
    requires Shape(m.q) && Able(m, Act(given)) && Good(m) && Faithful(m)
    ensures Faithful(After(m, Act(given)))
  {
    hide Good, Inv, Shape, Faithful;
    assert TodoOk(m.todo, m.q.filling, m.q.h.log) && RungIsNext(m.q) by {
      GoodFilling(m);
    }
    match m.todo[0]
    case Issue(cb) => IssueFaithful(m, given);
    case FillEntry(cb) => FillFaithful(m, given);
    case Ring => RingFaithful(m, given);
    case Emit(e) => EmitFaithful(m, given);
  }

  /** While an entry is being filled all earlier commands have been submitted. */
  ghost predicate RungIsNext(q: State)
  {
    q.filling.Some? ==> q.h.rung + 1 == |q.h.log|
  }

  lemma {:induction false} GoodFilling(m: Ident)
    requires Good(m)
    ensures TodoOk(m.todo, m.q.filling, m.q.h.log) && RungIsNext(m.q)
  {
    hide Inv, Shape, Identify, Whole, OnlyLast, Count, Answers, StatusesOk, PendingOk, TodoOk, Slot, Entries;
    hide CompletionPart, PlacePart, DescriptorPart;
    InvParts(m.q);
  }

  lemma {:induction false} IssueFaithful(m: Ident, given: Given)
    requires Shape(m.q) && Able(m, Act(given)) && m.todo[0].Issue?
    requires Faithful(m) && TodoOk(m.todo, m.q.filling, m.q.h.log)
    ensures Faithful(After(m, Act(given)))
  {
    hide WrapAround, SqHost.Valid, HasRegion, Region, Carries, Issues;
    IssuesAppend(m.trace, Issued(m.todo[0].cb));
    assert Shaped(m.todo[1..], MustFill(m.todo[0].cb));
  }

  lemma {:induction false} FillFaithful(m: Ident, given: Given)
    requires Shape(m.q) && Able(m, Act(given)) && m.todo[0].FillEntry?
    requires Faithful(m) && TodoOk(m.todo, m.q.filling, m.q.h.log) && RungIsNext(m.q)
    ensures Faithful(After(m, Act(given)))
  {
    hide WrapAround, SqHost.Valid, HasRegion, Overlay, Issues, AdminSqe, Decode, Wanted;
    var cb, q := m.todo[0].cb, m.q;
    var sqe := AdminSqe(cb, q.sqMem[q.filling.value], given);
    AdminRoundTrip(cb, q.sqMem[q.filling.value], given, q.h.log[|q.h.log| - 1].cid);
    var last := |q.h.log| - 1;
    var t := After(m, Act(given));
    assert t.q.h.log[last].sqe == sqe && t.q.h.log[last].cb == cb;
    assert Shaped(m.todo, MustFill(cb)) && Shaped(m.todo[1..], MustRing);
    assert t.objects[last] == given && Carries(t.q.h.log[last], given);
    forall f: nat | f < q.h.rung ensures Carries(t.q.h.log[f], t.objects[f]) {
      assert Carries(q.h.log[f], m.objects[f]) && t.q.h.log[f] == q.h.log[f];
    }
  }

  lemma {:induction false} RingFaithful(m: Ident, given: Given)
    requires Shape(m.q) && Able(m, Act(given)) && m.todo[0].Ring?
    requires Faithful(m) && TodoOk(m.todo, m.q.filling, m.q.h.log) && RungIsNext(m.q)
    ensures Faithful(After(m, Act(given)))
  {
    hide WrapAround, SqHost.Valid, HasRegion, Carries, Issues;
    assert Shaped(m.todo, MustRing) && Shaped(m.todo[1..], Rest);
    var t := After(m, Act(given));
    assert t.q.h.log == m.q.h.log && t.q.h.rung == |m.q.h.log|;
    forall f: nat | f < t.q.h.rung ensures Carries(t.q.h.log[f], t.objects[f]) {
      assert f < m.q.h.rung || f == |m.q.h.log| - 1;
    }
  }

  lemma {:induction false} EmitFaithful(m: Ident, given: Given)
    requires Shape(m.q) && Able(m, Act(given)) && m.todo[0].Emit?
    requires Faithful(m) && TodoOk(m.todo, m.q.filling, m.q.h.log)
    ensures Faithful(After(m, Act(given)))
  {
    hide Shape, Carries, Issues;
    IssuesAppend(m.trace, m.todo[0].event);
    assert Issues(m.trace) + [] == Issues(m.trace);
    assert Shaped(m.todo, Before) && Shaped(m.todo[1..], Before);
  }

  lemma {:induction false} RunFaithful(m: Ident, steps: seq<Step>, n: Ident)
    requires Good(m) && Faithful(m) && IdentRun(m, steps, n)
    ensures Faithful(n)
    decreases |steps|
  {
    hide Good, Able, After, Shape, Faithful;
    if steps == [] {
    } else {
      StepGood(m, steps[0]);
      StepFaithful(m, steps[0]);
      RunFaithful(After(m, steps[0]), steps[1..], n);
    }
  }

  lemma {:induction false} IdentifyingFaithful(n: Ident)
    requires Identifying(n)
    ensures Faithful(n)
  {
    hide Good, IdentRun;
    var m: Ident, steps: seq<Step> :| Start(m) && IdentRun(m, steps, n);
    StartGood(m);
    assert Faithful(m);
    RunFaithful(m, steps, n);
  }

  /** The commands the controller fetches are, in order, the ones the callbacks issued:
      the f-th entry it fetches decodes to the command of the f-th `Issued` event, with
      that event's namespace identifier and, all of it, the address, size and interrupt
      vector of the buffer or queue object made for that very command. */
  lemma {:induction false} ControllerGetsIssuedCommands(n: Ident)
    requires Identifying(n) && Shape(n.q) && Enabled(n.q, Fetch)
    ensures var f := n.q.h.fetched;
            && f < |Issues(n.trace)| && f < |n.objects| && Suits(Issues(n.trace)[f], n.objects[f])
            && Decode(n.q.sqMem[n.q.dev.sqHead]) == Wanted(Issues(n.trace)[f], n.objects[f])
  {
    hide Identifying, Good, Inv, Shape, Issues, Wanted, Decode;
    IdentifyingGood(n);
    IdentifyingFaithful(n);
    FetchedEntry(n);
    var f := n.q.h.fetched;
    assert Carries(n.q.h.log[f], n.objects[f]);
  }

  lemma {:induction false} FetchedEntry(n: Ident)
    requires Good(n) && Shape(n.q) && Enabled(n.q, Fetch)
    ensures n.q.h.fetched < n.q.h.rung && n.q.h.rung <= |n.q.h.log|
    ensures n.q.sqMem[n.q.dev.sqHead] == n.q.h.log[n.q.h.fetched].sqe
  {
    hide Inv, Shape, Identify, Whole, OnlyLast, Count, Answers, StatusesOk, PendingOk, TodoOk, Slot, Entries;
    hide CompletionPart, PlacePart, DescriptorPart;
    InvParts(n.q);
    FetchReads(n.q);
  }

  // ---------------------------------------------------------------------
  // Progress
  // ---------------------------------------------------------------------

  /** An identification in progress: the driver has not stopped, and there is code to run, a
      command in flight, or the handler between two completions. */
  ghost predicate Busy(m: Ident)
  {
    Stopped !in m.trace && (m.todo != [] || m.q.sq.inFlight > 0 || !m.q.pc.Idle?)
  }

  /** The buffer of the pending command holds what a controller may answer. */
  ghost predicate Plausible(m: Ident, data: Response)
  {
    Identify(m.responses).pending.Some? ==> InRange(Identify(m.responses).pending.value, data)
  }

  /** The completion in this slot is for the pending callback, one of the loop. */
  ghost predicate ForLoopCallback(q: State, slot: nat, pending: Option<Callback>)
  {
    && slot < |q.cqMem| && q.cqMem[slot].cid < |q.sq.callbacks| && q.sq.callbacks[q.cqMem[slot].cid] == pending
    && pending.Some? && IsAdmin(pending.value) && (Inner(pending.value) || pending.value == ControllerIdentified)
  }

  lemma {:induction false} HandledCallback(m: Ident, slot: nat)
    requires Shape(m.q) && Enabled(m.q, Complete) && m.q.pc == Consumed(slot) && Good(m)
    ensures ForLoopCallback(m.q, slot, Identify(m.responses).pending)
  {
    hide Inv, Shape, Enabled, Identify, AdminQueue, HandlesPending, StatusesOk, Whole, Events, PendingOk, Answers;
    hide TodoOk, ForLoopCallback, IsAdmin, Inner;
    HandledIsPending(m.q);
    PendingIsInner(m.responses);
    PendingIsForLoop(m.q, m.todo, Identify(m.responses).pending);
  }

  lemma {:induction false} PendingIsForLoop(q: State, todo: seq<Action>, pending: Option<Callback>)
    requires Shape(q) && Enabled(q, Complete) && HandlesPending(q) && PendingOk(todo, q.sq.inFlight, q.h.log, pending)
    requires pending.Some? ==> IsAdmin(pending.value) && (Inner(pending.value) || pending.value == ControllerIdentified)
    ensures ForLoopCallback(q, q.pc.slot, pending)
  {
    hide Occupied, HasRegion, WrapAround, IssuedBy, Inner, IsAdmin;
  }

  /** The device reports success, and its identify commands return `data`. */
  predicate Favours(st: Step, data: Response)
  {
    (st.Device? ==> Benign(st.l)) && (st.Handle? ==> st.r.nn == data.nn && st.r.ns == data.ns)
  }

  /** While the identification is in progress, host or device can take a step. */
  lemma {:induction false} IdentificationProgresses(n: Ident, data: Response)
    requires Good(n) && Busy(n) && Plausible(n, data.(status := 0))
    ensures Shape(n.q) && exists st: Step :: Able(n, st) && Favours(st, data)
  {
    hide Good, Inv, Shape;
    if n.todo != [] {
      ActProgress(n);
      assert Favours(Act(SomeObject(n.todo[0])), data);
    } else {
      QueueProgress(n, data);
    }
  }

  /** An object for the command an action fills. */
  function SomeObject(a: Action): Given
  {
    if a.FillEntry? && (a.cb.CqCreated? || a.cb.SqCreated?) then Queue(0, 1, 0) else Buffer(0)
  }

  lemma {:induction false} ActProgress(n: Ident)
    requires Good(n) && n.todo != [] && Stopped !in n.trace
    ensures Shape(n.q) && Able(n, Act(SomeObject(n.todo[0])))
  {
    hide Inv, Shape, Identify, Whole, OnlyLast, Count, StatusesOk, Answers, TodoOk, PendingOk;
    hide RingPart, CompletionPart, PlacePart, DescriptorPart, IsAdmin;
    InvParts(n.q);
    if n.q.filling.Some? {
      FillReady(n.q);
      FillingInFlight(n.q);
    }
    if n.todo[0].FillEntry? && n.q.filling.Some? {
      PendingIsInner(n.responses);
      FillIsPending(n.todo, n.q.filling, n.q.h.log, n.q.sq.inFlight, Identify(n.responses).pending);
    }
    StartsRight(n.todo, n.q.filling, n.q.h.log);
  }

  lemma FillingInFlight(q: State)
    requires Shape(q) && RingPart(q) && PlacePart(q) && q.filling.Some?
    ensures q.sq.inFlight > 0
  {
    hide Slot, Entries, OnDevice, Done, Distinct, Accounted, HasRegion, Occupied;
    assert Outstanding(q.h.log, q.h.owner, q.h.rung);
    OccupiedFull(q.sq.callbacks);
  }

  predicate TodoStarts(todo: seq<Action>, filling: Option<nat>)
  {
    todo != [] ==> (todo[0].Issue? ==> filling.None?) && (todo[0].FillEntry? || todo[0].Ring? ==> filling.Some?)
  }

  lemma {:induction false} StartsRight(todo: seq<Action>, filling: Option<nat>, log: seq<Entry>)
    requires TodoOk(todo, filling, log)
    ensures TodoStarts(todo, filling)
  {
  }

  /** The entry being filled is that of the pending command. */
  lemma {:induction false} FillIsPending(todo: seq<Action>, filling: Option<nat>, log: seq<Entry>, inFlight: nat,
                                         pending: Option<Callback>)
    requires TodoOk(todo, filling, log) && PendingOk(todo, inFlight, log, pending) && todo != [] && todo[0].FillEntry?
    requires inFlight > 0
    ensures pending == Some(todo[0].cb) && log != []
    ensures log[|log| - 1].cid < TWO16 && Blank(log[|log| - 1].sqe, log[|log| - 1].cid)
  {
    if Shaped(todo, MustFill(log[|log| - 1].cb)) {
      AfterIssue(log[|log| - 1].cb, todo);
    }
  }

  lemma FillReady(q: State)
    requires Shape(q) && RingPart(q) && q.filling.Some?
    ensures q.h.log != [] && q.sqMem[q.filling.value] == q.h.log[|q.h.log| - 1].sqe
  {
    hide Slot, Sqe.Cid, SqHost.Valid, HasRegion, Entries;
  }

  lemma {:induction false} QueueProgress(n: Ident, data: Response)
    requires Plausible(n, data.(status := 0)) && Good(n) && n.todo == [] && Stopped !in n.trace
    requires n.q.sq.inFlight > 0 || !n.q.pc.Idle?
    ensures Shape(n.q) && exists st: Step :: Able(n, st) && Favours(st, data)
  {
    hide Inv, Shape, Identify, Whole, OnlyLast, Count, StatusesOk, Answers, PendingOk, Enabled, Drains, Benign;
    hide Plausible, ForLoopCallback;
    SomeStep(n.q);
    var l: Label :| Drains(l) && Benign(l) && Enabled(n.q, l);
    if l.Complete? {
      CompleteStep(n, data);
    } else {
      StepOf(n, l, data);
    }
  }

  lemma {:induction false} CompleteStep(n: Ident, data: Response)
    requires Shape(n.q) && Enabled(n.q, Complete) && Good(n) && n.todo == [] && Plausible(n, data.(status := 0))
    requires Stopped !in n.trace
    ensures exists st: Step :: Able(n, st) && Favours(st, data)
  {
    hide Good, Shape, Identify;
    assert !n.crashed && n.q.pc.Consumed? by {
      NotCrashed(n);
    }
    HandledCallback(n, n.q.pc.slot);
    HandleAble(n, data);
  }

  lemma {:induction false} NotCrashed(n: Ident)
    requires Good(n)
    ensures !n.crashed
  {
    hide AdminQueue, TodoOk, PendingOk, StatusesOk, Identify, Answers, Events;
  }

  lemma {:induction false} HandleAble(n: Ident, data: Response)
    requires Shape(n.q) && Enabled(n.q, Complete) && !n.crashed && n.todo == [] && Stopped !in n.trace
    requires Plausible(n, data.(status := 0))
    requires ForLoopCallback(n.q, n.q.pc.slot, Identify(n.responses).pending)
    ensures exists st: Step :: Able(n, st) && Favours(st, data)
  {
    hide Occupied, HasRegion, WrapAround, Identify, IsAdmin, Inner, Usable;
    var st := Handle(data.(status := n.q.cqMem[n.q.pc.slot].sf));
    assert Able(n, st) && Favours(st, data);
  }

  lemma {:induction false} StepOf(n: Ident, l: Label, data: Response)
    requires Shape(n.q) && !n.crashed && n.todo == [] && n.q.filling.None? && Enabled(n.q, l) && Stopped !in n.trace
    requires Drains(l) && Benign(l) && !l.Complete?
    ensures exists st: Step :: Able(n, st) && Favours(st, data)
  {
    hide SqHost.Valid, HasRegion;
    var st := match l
      case Consume => Take
      case Return => Leave
      case _ => Step.Device(l);
    assert Able(n, st) && Favours(st, data);
  }

  // ---------------------------------------------------------------------
  // Termination
  // ---------------------------------------------------------------------

  function Weight(todo: seq<Action>): nat
  {
    if todo == [] then 0 else (if todo[0].Issue? then 9 else 1) + Weight(todo[1..])
  }

  /** Admin commands that may still be needed once this one is pending. */
  function Rank(pending: Option<Callback>): nat
  {
    match pending
    case Some(cb) =>
      if cb == ControllerIdentified then 3 * TWO32
      else if Inner(cb) then 3 * Remaining(cb) + Stage(cb) else 0
    case None => 0
  }

  /** Bounds the steps an identification can still take. */
  ghost function Potential(m: Ident): int
  {
    Work(m.q) + Weight(m.todo) + 20 * Rank(Identify(m.responses).pending)
  }

  lemma {:induction false} WeightAppend(a: seq<Action>, b: seq<Action>)
    ensures Weight(a + b) == Weight(a) + Weight(b)
  {
    if a == [] {
      assert a + b == b;
    } else {
      assert (a + b)[0] == a[0] && (a + b)[1..] == a[1..] + b;
      WeightAppend(a[1..], b);
    }
  }

  lemma WeightOfOne(cb: Callback, e: Event)
    ensures Weight(IssueCommand(cb)) == 11 && Weight([Emit(e)]) == 1 && Weight([]) == 0
  {
    var s := IssueCommand(cb);
    assert s[1..] == [FillEntry(cb), Ring] && s[1..][1..] == [Ring] && s[1..][1..][1..] == [];
    assert Weight([Ring]) == 1;
  }

  lemma ScriptWeight(cb: Callback, r: Response)
    ensures Weight(Script(cb, r)) <= 13
  {
    hide Weight, IssueCommand, Usable;
    forall c: Callback {:trigger IssueCommand(c)} ensures Weight(IssueCommand(c)) == 11 { WeightOfOne(c, Finished); }
    forall e: Event {:trigger Emit(e)} ensures Weight([Emit(e)]) == 1 { WeightOfOne(ControllerIdentified, e); }
    WeightOfOne(ControllerIdentified, Finished);
    match cb
    case ControllerIdentified =>
    case NamespaceIdentified(nn, n) =>
      var created := Created(n, LbaSize(r.ns));
      WeightAppend([Emit(created)], IssueCommand(CqCreated(nn, n)));
      WeightAppend([Emit(created)], [Emit(Stopped)]);
    case CqCreated(nn, n) => WeightAppend(GoOn(nn, n), [Emit(Destroyed(n))]);
    case SqCreated(nn, n) =>
      var next := if Next32(n) <= nn then IssueCommand(NamespaceIdentified(nn, Next32(n))) else [];
      var finish := if n == nn then [Emit(Finished)] else [];
      WeightAppend(finish, [Emit(Destroyed(n))]);
      WeightAppend([Emit(Announced(n))], finish);
      WeightAppend(next, SqTail(nn, n, r));
    case _ =>
  }

  /** The count of namespaces, once known, does not wrap around. */
  predicate Bounded(rs: seq<Response>)
  {
    rs != [] && rs[0].status == 0 ==> rs[0].nn < NSID_ALL
  }

  /** The pending command belongs to the count the controller reported. */
  lemma {:induction false} PendingCount(rs: seq<Response>)
    requires rs != [] ==> Answers(ControllerIdentified, rs[0])
    ensures Identify(rs).pending.Some? && Identify(rs).pending.value != ControllerIdentified ==>
              rs != [] && rs[0].status == 0 && Inner(Identify(rs).pending.value)
              && Identify(rs).pending.value.nn == rs[0].nn
    ensures Identify(rs).pending == Some(ControllerIdentified) <==> rs == []
  {
    hide Play, Script, IssuedBy, Events, EndsOnce;
    if rs == [] {
      PlayNothing(Some(ControllerIdentified));
    } else {
      PlayUnfold(ControllerIdentified, rs);
      FirstCommand(rs[0]);
      if rs[0].status == 0 {
        PendingWithin(NamespaceIdentified(rs[0].nn, 1), rs[1..]);
      } else {
        PlayStops(rs[1..]);
      }
    }
  }

  lemma {:induction false} PendingWithin(cb: Callback, rs: seq<Response>)
    requires Inner(cb)
    ensures var p := Play(Some(cb), rs).pending;
            p.Some? ==> Inner(p.value) && p.value.nn == cb.nn
    decreases |rs|
  {
    hide Play, Script, IssuedBy, Events, EndsOnce;
    if rs == [] {
      PlayNothing(Some(cb));
    } else {
      PlayUnfold(cb, rs);
      CallbackProgress(cb, rs[0]);
      match IssuedBy(Script(cb, rs[0]))
      case Some(next) => PendingWithin(next, rs[1..]);
      case None => PlayStops(rs[1..]);
    }
  }

  /** Handling a completion brings the identification closer to its end. */
  lemma {:induction false} RankDecreases(rs: seq<Response>, r: Response)
    requires Identify(rs).pending.Some? && InRange(Identify(rs).pending.value, r)
    requires (rs != [] ==> Answers(ControllerIdentified, rs[0])) && Bounded(rs + [r])
    ensures Rank(Identify(rs + [r]).pending) < Rank(Identify(rs).pending)
  {
    hide Identify, Script, IssuedBy, Events, EndsOnce;
    var cb := Identify(rs).pending.value;
    IdentifyAppend(rs, r);
    PendingCount(rs);
    CallbackProgress(cb, r);
    if cb == ControllerIdentified {
      assert (rs + [r])[0] == r;
      FirstCommand(r);
    } else {
      assert (rs + [r])[0] == rs[0];
    }
  }

  lemma ProduceWork(q: State, cb: Callback)
    requires Shape(q) && Enabled(q, Produce(cb))
    ensures Work(DoProduce(q, cb)) == Work(q) + 7
  {
    hide WrapAround, SqHost.Valid, HasRegion, Region, Search, Unexecuted;
  }

  lemma FillWork(q: State, sqe: Sqe)
    requires Shape(q) && Enabled(q, Fill(sqe, []))
    ensures Work(DoFill(q, sqe, [])) == Work(q)
  {
    hide WrapAround, SqHost.Valid, HasRegion, Overlay, Unexecuted;
  }

  /** Every step, of the host or of the device, uses up potential. */
  lemma {:induction false} PotentialDecreases(m: Ident, st: Step)
    requires Shape(m.q) && Able(m, st) && Good(m) && (st.Handle? ==> Bounded(After(m, st).responses))
    ensures 0 <= Potential(After(m, st)) < Potential(m)
  {
    hide Good, Inv, Shape, Work, Rank, Weight, Identify;
    StepGood(m, st);
    GoodWork(After(m, st));
    match st
    case Act(given) => ActPotential(m, given);
    case Handle(r) => HandlePotential(m, r);
    case _ => QuietPotential(m, st);
  }

  lemma {:induction false} GoodWork(m: Ident)
    requires Good(m)
    ensures Work(m.q) >= 0 && Inv(m.q)
  {
    hide Inv, Work, Shape, Identify, Whole, OnlyLast, Count, StatusesOk, Answers, PendingOk, TodoOk;
    WorkNonNegative(m.q);
  }

  lemma {:induction false} QuietPotential(m: Ident, st: Step)
    requires Shape(m.q) && Able(m, st) && (st.Device? || st.Take? || st.Leave?) && Good(m)
    ensures Potential(After(m, st)) < Potential(m)
  {
    hide Good, Inv, Shape, Work, Rank, Weight, Identify, Enabled;
    GoodWork(m);
    WorkDecreases(m.q, match st case Device(l) => l case Take => Consume case _ => Label.Return);
  }

  lemma {:induction false} HandlePotential(m: Ident, r: Response)
    requires Shape(m.q) && Able(m, Handle(r)) && Good(m) && Bounded(m.responses + [r])
    ensures Potential(After(m, Handle(r))) < Potential(m)
  {
    hide Inv, Shape, Work, Rank, Weight, Identify, Enabled, Whole, OnlyLast, Count, StatusesOk, Script, DoComplete;
    hide Events;
    GoodWork(m);
    WorkDecreases(m.q, Complete);
    HandledIsPending(m.q);
    EventsOfNothing();
    HandleWeight(m, r);
    RankDecreases(m.responses, r);
  }

  lemma {:induction false} HandleWeight(m: Ident, r: Response)
    requires Shape(m.q) && Able(m, Handle(r))
    ensures Weight(After(m, Handle(r)).todo) <= 13
  {
    hide Weight, Script, Occupied, HasRegion;
    ScriptWeight(m.q.sq.callbacks[m.q.cqMem[m.q.pc.slot].cid].value, r);
  }

  lemma {:induction false} ActPotential(m: Ident, given: Given)
    requires Shape(m.q) && Able(m, Act(given)) && Good(m)
    ensures Potential(After(m, Act(given))) < Potential(m)
  {
    hide Good, Inv, Shape, Work, Rank, Identify, DoProduce, DoFill, DoSubmit, AdminSqe;
    GoodWork(m);
    match m.todo[0]
    case Issue(cb) =>
      GoodIssue(m, given);
      ProduceWork(m.q, cb);
    case FillEntry(cb) =>
      FillWorkOf(m.q, cb, given);
    case Ring => WorkDecreases(m.q, Submit);
    case Emit(_) =>
  }

  lemma FillWorkOf(q: State, cb: Callback, given: Given)
    requires Shape(q) && ActEnabled(q, FillEntry(cb), given)
    ensures var sqe := AdminSqe(cb, q.sqMem[q.filling.value], given);
            Enabled(q, Fill(sqe, [])) && Work(DoFill(q, sqe, [])) == Work(q)
  {
    hide DoFill, Work, AdminSqe;
    AdminRoundTrip(cb, q.sqMem[q.filling.value], given, q.h.log[|q.h.log| - 1].cid);
    FillWork(q, AdminSqe(cb, q.sqMem[q.filling.value], given));
  }

  lemma {:induction false} StepBounded(m: Ident, st: Step)
    requires Shape(m.q) && Able(m, st) && Bounded(After(m, st).responses)
    ensures Bounded(m.responses)
  {
    hide Shape;
  }

  lemma {:induction false} RunBounded(m: Ident, steps: seq<Step>, n: Ident)
    requires IdentRun(m, steps, n) && Bounded(n.responses)
    ensures Bounded(m.responses)
    decreases |steps|
  {
    hide Shape, Able, After, Bounded;
    if steps == [] {
    } else {
      RunBounded(After(m, steps[0]), steps[1..], n);
      StepBounded(m, steps[0]);
    }
  }

  /** Every run of an identification is finite: its length is bounded. */
  lemma {:induction false} RunBound(m: Ident, steps: seq<Step>, n: Ident)
    requires Good(m) && IdentRun(m, steps, n) && Bounded(n.responses)
    ensures |steps| + Potential(n) <= Potential(m)
    decreases |steps|
  {
    hide Good, Able, After, Shape, Potential, Bounded;
    if steps == [] {
    } else {
      StepGood(m, steps[0]);
      RunBounded(After(m, steps[0]), steps[1..], n);
      PotentialDecreases(m, steps[0]);
      RunBound(After(m, steps[0]), steps[1..], n);
    }
  }

  /** An identification that is not busy is over. */
  lemma {:induction false} IdleIsOver(m: Ident)
    requires Good(m) && !Busy(m)
    ensures m.todo == [] && m.q.sq.inFlight == 0
  {
    hide AdminQueue, TodoOk, StatusesOk, Identify, Whole, Events, Answers;
    NotStopped(m.responses);
    if Stopped in m.trace {
      assert Stopped in m.trace + Events(m.todo);
      IssuedByNothing();
    }
  }

  lemma IssuedByNothing()
    ensures IssuedBy([]) == None
  {
  }

  /** Every identification ends: unless the count of namespaces wraps around no run is longer
      than a fixed bound, and a run that cannot go on has run the completion callback
      exactly once, as its last act but for destroying a namespace object, if and only
      if it is neither stranded nor stopped. */
  lemma {:induction false} EveryIdentificationFinishes(m: Ident, steps: seq<Step>, n: Ident)
    requires Start(m) && IdentRun(m, steps, n)
    ensures Bounded(n.responses) ==> |steps| <= 60 * TWO32 + 11
    ensures Shape(n.q)
    ensures (forall st: Step :: !Able(n, st)) ==>
              && n.q.sq.inFlight == 0 && n.todo == []
              && (EndsOnce(n.trace) <==> !Strands(n.responses) && !Stops(n.responses))
  {
    hide Start, IdentRun, Good, Potential, EndsOnce, Able, Inv, Shape, RingPart, CompletionPart, PlacePart;
    hide DescriptorPart, Bounded, Strands, Stops;
    StartGood(m);
    RunGood(m, steps, n);
    if Bounded(n.responses) {
      RunBound(m, steps, n);
      StartPotential(m);
      PotentialNonNegative(n);
    }
    GoodWork(n);
    InvParts(n.q);
    if forall st: Step :: !Able(n, st) {
      if Busy(n) {
        QuietIsPlausible(n);
        IdentificationProgresses(n, QUIET);
      }
      IdleIsOver(n);
      CompletedIdentification(n);
    }
  }

  lemma {:induction false} QuietIsPlausible(m: Ident)
    ensures Plausible(m, QUIET.(status := 0))
  {
    hide Identify;
  }

  /** A completed identification has no potential left. */
  lemma {:induction false} NoPotentialLeft(m: Ident)
    requires Good(m) && !Busy(m) && Stopped !in m.trace
    ensures Potential(m) == 0
  {
    hide Good, Work, Rank, Identify, Weight;
    CompletedIdentification(m);
    GoodWork(m);
    NotFilling(m);
    DrainedMeansNoWork(m.q);
    WeightOfOne(ControllerIdentified, Finished);
    RankOfNone();
  }

  lemma RankOfNone()
    ensures Rank(None) == 0
  {
  }

  lemma {:induction false} NotFilling(m: Ident)
    requires Good(m) && m.todo == []
    ensures m.q.filling.None?
  {
    hide AdminQueue, PendingOk, StatusesOk, Identify, Answers, Events;
  }

  lemma {:induction false} PotentialNonNegative(n: Ident)
    requires Good(n)
    ensures Potential(n) >= 0
  {
    hide Good, Work, Rank, Identify, Weight;
    GoodWork(n);
  }

  lemma {:induction false} StartPotential(m: Ident)
    requires Start(m)
    ensures Potential(m) == 60 * TWO32 + 11
  {
    PlayNothing(Some(ControllerIdentified));
    WeightOfOne(ControllerIdentified, Finished);
    assert Unexecuted(m.q.dev.running) == {};
    hide Weight, IssueCommand;
  }

  /** One namespace, and that one inactive: an answer within every range. */
  const QUIET := Response(0, 1, NsData(0, 0, 0, []))

  /** Device and data favour every step. */
  predicate AllFavour(steps: seq<Step>, data: Response)
  {
    forall i :: 0 <= i < |steps| ==> Favours(steps[i], data)
  }

  /** Data a controller may return for every command of this identification, which it has
      not been, and will not be, stopped by. */
  ghost predicate Fits(m: Ident, data: Response)
  {
    && Bounded(m.responses) && data.nn < NSID_ALL && Stopped !in Whole(m.responses)
    && (Usable(data.ns) ==> data.nn < TWO16 && FewNamespaces(m))
  }

  /** No more namespaces than queue numbers have been reported. */
  ghost predicate FewNamespaces(m: Ident)
  {
    m.responses != [] && m.responses[0].status == 0 ==> m.responses[0].nn < TWO16
  }

  /** From every state identification can go on to its end, the device reporting success
      and returning the given data from now on. */
  lemma {:induction false} IdentificationCanFinish(m: Ident, data: Response) returns (steps: seq<Step>, n: Ident)
    requires Good(m) && Fits(m, data)
    ensures IdentRun(m, steps, n) && AllFavour(steps, data) && Good(n)
    ensures n.todo == [] && n.q.sq.inFlight == 0 && n.q.pc.Idle?
    decreases Potential(m)
  {
    hide Good, Able, After, Shape, Potential, Favours, Fits, Plausible;
    if Busy(m) {
      FittingIsPlausible(m, data);
      IdentificationProgresses(m, data);
      var st: Step :| Able(m, st) && Favours(st, data);
      StepGood(m, st);
      FitsOn(m, st, data);
      FitsBounded(After(m, st), data);
      PotentialDecreases(m, st);
      var more: seq<Step>;
      more, n := IdentificationCanFinish(After(m, st), data);
      steps := [st] + more;
      assert steps[1..] == more;
    } else {
      FitsNotStopped(m, data);
      IdleIsOver(m);
      steps, n := [], m;
    }
  }

  lemma {:induction false} FitsNotStopped(m: Ident, data: Response)
    requires Good(m) && Fits(m, data)
    ensures Stopped !in m.trace
  {
    hide AdminQueue, TodoOk, PendingOk, StatusesOk, Identify, Events, Usable, Whole, Answers;
    assert Stopped !in m.trace + Events(m.todo);
  }

  lemma {:induction false} FitsOn(m: Ident, st: Step, data: Response)
    requires Shape(m.q) && Able(m, st) && Good(m) && Fits(m, data) && Favours(st, data)
    ensures Fits(After(m, st), data)
  {
    hide Good, Shape, Usable, Identify, Bounded, Whole;
    if st.Handle? {
      HandledIsCalled(m, st.r);
      FitsHandled(m.responses, st.r, data);
    }
  }

  /** A completion can only be handled for the pending command. */
  lemma {:induction false} HandledIsCalled(m: Ident, r: Response)
    requires Shape(m.q) && Able(m, Handle(r)) && Good(m)
    ensures Identify(m.responses).pending.Some? && InRange(Identify(m.responses).pending.value, r)
    ensures m.responses != [] ==> Answers(ControllerIdentified, m.responses[0])
  {
    hide Inv, Shape, Identify, OnlyLast, Count, DoComplete, Whole, Occupied, CompletionValid, Events, StatusesOk;
    hide TodoOk;
    HandledIsPending(m.q);
  }

  lemma {:induction false} FitsHandled(rs: seq<Response>, r: Response, data: Response)
    requires Identify(rs).pending.Some? && (rs != [] ==> Answers(ControllerIdentified, rs[0]))
    requires InRange(Identify(rs).pending.value, r) && r.nn == data.nn && r.ns == data.ns
    requires Bounded(rs) && data.nn < NSID_ALL && Stopped !in Whole(rs)
    requires Usable(data.ns) ==> data.nn < TWO16 && (rs != [] && rs[0].status == 0 ==> rs[0].nn < TWO16)
    ensures Bounded(rs + [r]) && Stopped !in Whole(rs + [r])
    ensures Usable(data.ns) ==> (rs + [r])[0].status == 0 ==> (rs + [r])[0].nn < TWO16
  {
    hide Identify, Script, Events, Usable, IssuedBy;
    IdentifyAppend(rs, r);
    PendingCount(rs);
    assert rs != [] ==> (rs + [r])[0] == rs[0];
    NotStoppedBy(Identify(rs).pending.value, r);
  }

  /** Only a usable namespace beyond 65535 stops the driver. */
  lemma NotStoppedBy(cb: Callback, r: Response)
    ensures Stopped in Events(Script(cb, r)) ==> cb.NamespaceIdentified? && cb.n >= TWO16 && Usable(r.ns)
  {
    hide Events, IssuedBy, IssueCommand, GoOn, Usable;
    EventsOfNothing();
    match cb
    case ControllerIdentified => FirstCommand(r);
    case NamespaceIdentified(nn, n) =>
      GoOnEvents(nn, n, Finished);
      UsableEvents(nn, n, LbaSize(r.ns));
    case CqCreated(nn, n) =>
      GoOnEvents(nn, n, Destroyed(n));
      EventsOfOne(SqCreated(nn, n), Finished);
    case SqCreated(nn, n) => SqEvents(nn, n, r);
    case _ =>
  }

  lemma {:induction false} FittingIsPlausible(m: Ident, data: Response)
    requires Fits(m, data)
    ensures Plausible(m, data.(status := 0))
  {
    hide Identify, Usable;
  }

  /** Fitting data keep the identification bounded. */
  lemma {:induction false} FitsBounded(m: Ident, data: Response)
    requires Fits(m, data)
    ensures Bounded(m.responses)
  {
    hide Bounded, Identify, Usable;
  }

  // ---------------------------------------------------------------------
  // Every answer is possible
  // ---------------------------------------------------------------------

  /** Only success has been posted. */
  ghost predicate Succeeding(q: State)
  {
    forall k: nat :: k < |q.h.posted| ==> q.h.posted[k].cqe.sf == 0
  }

  lemma {:induction false} StepSucceeds(m: Ident, st: Step, data: Response)
    requires Shape(m.q) && Able(m, st) && Good(m) && Succeeding(m.q) && data.status == 0 && Favours(st, data)
    ensures Succeeding(After(m, st).q)
    ensures After(m, st).responses == if st.Handle? then m.responses + [data] else m.responses
  {
    hide Good, Inv, RingPart, PlacePart, DescriptorPart;
    if st.Handle? {
      GoodWork(m);
      InvParts(m.q);
      HandledSuccess(m, st.r, data);
    } else {
      OtherSucceeds(m, st);
    }
  }

  lemma {:induction false} OtherSucceeds(m: Ident, st: Step)
    requires Shape(m.q) && Able(m, st) && !st.Handle? && Succeeding(m.q) && (st.Device? ==> Benign(st.l))
    ensures Succeeding(After(m, st).q) && After(m, st).responses == m.responses
  {
    hide WrapAround, SqHost.Valid, HasRegion, AdminSqe, Region, Overlay, SqHost.Refuses;
  }

  lemma {:induction false} HandledSuccess(m: Ident, r: Response, data: Response)
    requires Shape(m.q) && Able(m, Handle(r)) && CompletionPart(m.q) && Succeeding(m.q) && data.status == 0
    requires Favours(Handle(r), data)
    ensures Succeeding(After(m, Handle(r)).q) && After(m, Handle(r)).responses == m.responses + [data]
  {
    hide WrapAround, SqHost.Valid, HasRegion, Slot, Phase, Heads, Occupied, Script;
    assert m.q.cqMem[m.q.pc.slot] == m.q.h.posted[m.q.h.acked].cqe;
  }

  /** Answers of a controller that accepts every command, its count a 32-bit number. */
  predicate Accepting(rs: seq<Response>)
  {
    forall i :: 0 <= i < |rs| ==> rs[i].status == 0 && rs[i].nn < TWO32
  }

  /** Given these answers there is nothing left to do, or one more answer is needed. */
  ghost predicate UsedUp(m: Ident, rs: seq<Response>)
  {
    !Busy(m) || (m.responses == rs && Identify(rs).pending.Some?)
  }

  /** Some run of host and device gets any list of such answers, up to where it is over. */
  lemma {:induction false} AnswersCanBeGiven(m: Ident, rs: seq<Response>) returns (steps: seq<Step>, n: Ident)
    requires Good(m) && Succeeding(m.q) && m.responses <= rs && Accepting(rs)
    ensures IdentRun(m, steps, n) && Good(n) && n.responses <= rs && UsedUp(n, rs)
    decreases |rs| - |m.responses|, Potential(m)
  {
    hide Good, Able, After, Shape, Potential, Favours, Plausible, Succeeding, IdentRun, UsedUp;
    if UsedUp(m, rs) {
      steps, n := [], m;
      assert IdentRun(m, [], m) by { NoSteps(m); }
    } else {
      var data := if m.responses == rs then QUIET else rs[|m.responses|];
      assert Busy(m) by { NotUsedUp(m, rs); }
      AnswerIsPlausible(m, data);
      IdentificationProgresses(m, data);
      var st: Step :| Able(m, st) && Favours(st, data);
      StepGood(m, st);
      StepSucceeds(m, st, data);
      if st.Handle? {
        NotYetComplete(m, st.r, rs);
      } else {
        PotentialDecreases(m, st);
      }
      var more: seq<Step>;
      more, n := AnswersCanBeGiven(After(m, st), rs);
      steps := [st] + more;
      RunPrepend(m, st, more, n);
    }
  }

  lemma {:induction false} NoSteps(m: Ident)
    ensures IdentRun(m, [], m)
  {
  }

  lemma {:induction false} NotUsedUp(m: Ident, rs: seq<Response>)
    requires !UsedUp(m, rs)
    ensures Busy(m) && (m.responses == rs ==> Identify(rs).pending.None?)
  {
    hide Busy, Identify;
  }

  lemma {:induction false} AnswerIsPlausible(m: Ident, data: Response)
    requires data.nn < TWO32
    ensures Plausible(m, data.(status := 0))
  {
    hide Identify;
  }

  /** A completion is handled only while one more answer is needed. */
  lemma {:induction false} NotYetComplete(m: Ident, r: Response, rs: seq<Response>)
    requires Shape(m.q) && Able(m, Handle(r)) && Good(m) && !UsedUp(m, rs)
    ensures m.responses != rs
  {
    hide Good, Shape, Busy, Identify, Able;
    NotUsedUp(m, rs);
    HandledIsCalled(m, r);
  }

  lemma {:induction false} RunPrepend(m: Ident, st: Step, more: seq<Step>, n: Ident)
    requires Shape(m.q) && Able(m, st) && IdentRun(After(m, st), more, n)
    ensures IdentRun(m, [st] + more, n)
  {
    hide Shape, Able, After;
    assert ([st] + more)[1..] == more;
  }

  /** Answers after the last that is needed change nothing. */
  lemma {:induction false} PlayPrefix(pending: Option<Callback>, a: seq<Response>, b: seq<Response>)
    requires Play(pending, a).pending.None?
    ensures Play(pending, a + b) == Play(pending, a)
    decreases |a|
  {
    hide Script, Events, IssuedBy;
    if pending.Some? && a != [] {
      assert (a + b)[0] == a[0] && (a + b)[1..] == a[1..] + b;
      PlayPrefix(IssuedBy(Script(pending.value, a[0])), a[1..], b);
    }
  }

  /** Conversely to the traces of completed identifications: whatever the callbacks amount
      to for such answers happens in some run over the queue. */
  lemma {:induction false} EveryAnswerHappens(m: Ident, rs: seq<Response>) returns (steps: seq<Step>, n: Ident)
    requires Start(m) && Accepting(rs) && Identify(rs).pending.None?
    ensures IdentRun(m, steps, n) && Good(n) && !Busy(n)
    ensures n.responses != [] && n.responses <= rs && n.trace == Whole(rs)
  {
    hide Good, Busy, IdentRun, Whole, EndsOnce, Strands, Stops, Loop, Outcomes, Sizes, Play;
    StartGood(m);
    StartSucceeds(m);
    steps, n := AnswersCanBeGiven(m, rs);
    IdleIsOver(n);
    CompletedIdentification(n);
    TraceFollows(n);
    PlayPrefix(Some(ControllerIdentified), n.responses, rs[|n.responses|..]);
    assert n.responses + rs[|n.responses|..] == rs;
    SameWhole(n.responses, rs);
  }

  lemma {:induction false} SameWhole(a: seq<Response>, b: seq<Response>)
    requires Play(Some(ControllerIdentified), a) == Play(Some(ControllerIdentified), b)
    ensures Whole(a) == Whole(b)
  {
  }

  lemma {:induction false} StartSucceeds(m: Ident)
    requires Start(m)
    ensures Succeeding(m.q) && m.responses == []
  {
  }

  /** On the queue, too: a controller that reports no namespaces and accepts everything
      leads to a completed identification that has not run its completion callback. */
  lemma {:induction false} IdentificationCanStrand(m: Ident) returns (steps: seq<Step>, n: Ident)
    requires Start(m)
    ensures IdentRun(m, steps, n) && Good(n) && !Busy(n)
    ensures Strands(n.responses) && Finished !in n.trace
  {
    hide Good, IdentRun, Strands, Stops, Busy, Whole, Start, EndsOnce, Loop, Outcomes, Sizes, Play;
    NeverFinishes();
    steps, n := EveryAnswerHappens(m, ACCEPTING);
    IdleIsOver(n);
    CompletedIdentification(n);
    assert forall i :: 0 <= i < |n.responses| ==> n.responses[i] == ACCEPTING[i];
    AcceptingStrands(n.responses);
  }

  lemma {:induction false} AcceptingStrands(rs: seq<Response>)
    requires rs != [] && Identify(rs).pending.None? && forall i :: 0 <= i < |rs| ==> rs[i] == Response(0, 0, PLAIN)
    ensures Strands(rs)
  {
    hide Play, Script, Events, IssuedBy;
    assert rs[0] == Response(0, 0, PLAIN);
    PlayUnfold(ControllerIdentified, rs);
    FirstCommand(rs[0]);
    PlayOne(0, 1, rs[1..]);
  }

  /** And one whose only usable namespace is number 65536 stops the driver. */
  lemma {:induction false} IdentificationCanStop(m: Ident, nn: nat) returns (steps: seq<Step>, n: Ident)
    requires Start(m) && TWO16 <= nn < TWO32
    ensures IdentRun(m, steps, n) && Good(n) && !Busy(n) && ReportsCount(n, nn)
    ensures Stopped in n.trace && Finished !in n.trace
  {
    hide Good, IdentRun, Busy, Start, Identify, FarNamespace, Strands, Stops;
    FarNamespaceStops(nn);
    FarAccepts(nn);
    steps, n := EveryAnswerHappens(m, FarNamespace(nn));
    assert n.responses[0] == FarNamespace(nn)[0];
  }

  lemma FarAccepts(nn: nat)
    requires nn < TWO32
    ensures Accepting(FarNamespace(nn)) && FarNamespace(nn)[0].nn == nn
  {
  }

  predicate ReportsCount(m: Ident, nn: nat)
  {
    m.responses != [] && m.responses[0].status == 0 && m.responses[0].nn == nn
  }

  /** Over the queue, whatever the device does: every identification with this 32-bit count
      of namespaces that is over has run its completion callback exactly once if and
      only if the count is between 1 and 65535. */
  lemma {:induction false} FinishesExactlyOverQueue(m: Ident, nn: nat)
    requires Start(m) && nn < TWO32
    ensures (forall steps: seq<Step>, n: Ident ::
              IdentRun(m, steps, n) && !Busy(n) && ReportsCount(n, nn) ==> EndsOnce(n.trace))
       <==> 1 <= nn < TWO16
  {
    hide Good, IdentRun, Busy, Start, EndsOnce, Strands, Stops, Loop, Outcomes, Sizes, Play;
    if 1 <= nn < TWO16 {
      forall steps: seq<Step>, n: Ident | IdentRun(m, steps, n) && !Busy(n) && ReportsCount(n, nn)
        ensures EndsOnce(n.trace)
      {
        StartGood(m);
        RunGood(m, steps, n);
        IdleIsOver(n);
        CompletedIdentification(n);
        FewFinish(n.responses);
      }
    } else {
      var steps: seq<Step>, n: Ident;
      if nn == 0 {
        steps, n := IdentificationCanStrand(m);
        StrandsWithNone(n);
      } else {
        steps, n := IdentificationCanStop(m, nn);
      }
      EndsOnceHasFinished(n.trace);
    }
  }

  lemma {:induction false} FewFinish(rs: seq<Response>)
    requires rs != [] && rs[0].status == 0 && 1 <= rs[0].nn < TWO16
    ensures !Strands(rs) && !Stops(rs)
  {
    hide FirstOutcome, Outcomes, Sizes;
    NoneFatal(rs[0].nn, 1, rs[1..]);
  }

  lemma {:induction false} StrandsWithNone(n: Ident)
    requires Strands(n.responses)
    ensures ReportsCount(n, 0)
  {
    hide FirstOutcome;
  }

  /** A controller can report the broadcast identifier as its count. */
  lemma {:induction false} BroadcastCanBeReported(m: Ident) returns (steps: seq<Step>, n: Ident)
    requires Start(m)
    ensures IdentRun(m, steps, n) && Good(n) && ReportsCount(n, NSID_ALL)
  {
    hide Good, IdentRun, Busy, Start, Whole, EndsOnce, Strands, Stops, Loop, Outcomes, Sizes, Identify;
    StartGood(m);
    StartSucceeds(m);
    steps, n := AnswersCanBeGiven(m, [BROADCAST]);
    if !Busy(n) {
      IdleIsOver(n);
      CompletedIdentification(n);
    }
    assert n.responses[0] == BROADCAST;
  }

  const BROADCAST := Response(0, NSID_ALL, INACTIVE)
}
