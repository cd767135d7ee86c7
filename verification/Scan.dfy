/** Publishing the service: the count of references that keep it back while controllers
    and partitions are being scanned (server/src/main.cc). */
module Scan {
  import opened Types
  import opened Protocol
  import opened IdentifyLoop
  import opened IdentifyResults
  import opened Identification
  import opened IdentificationResults

  /** `devices_in_scan`, a 32-bit unsigned integer, and how often the service has been
      registered. */
  datatype Counter = Counter(devices: nat, registered: nat)
  {
    function Add(): Counter { this.(devices := (devices + 1) % TWO32) }

    /** `device_scan_finished`. */
    function Drop(): Counter
    {
      var left := (devices + TWO32 - 1) % TWO32;
      Counter(left, if left > 0 then registered else registered + 1)
    }
  }

  /** The discovery loop, the controllers found so far, the disks whose partition scan is
      pending (controller and namespace), and the counter. */
  datatype ScanState = ScanState(loop: bool, ctls: seq<Ident>, scans: multiset<(nat, nat)>, count: Counter)

  datatype ScanStep =
    | Discover(m: Ident)
    | EndLoop
    | Identifies(i: nat, st: Step)
    | Scanned(i: nat, n: nat)

  /** The event a step of an identification makes happen. */
  function Happens(m: Ident, st: Step): Option<Event>
  {
    if st.Act? && m.todo != [] && m.todo[0].Emit? then Some(m.todo[0].event) else None
  }

  /** The step hands a namespace to the namespace callback. */
  predicate Announces(m: Ident, st: Step)
  {
    Happens(m, st).Some? && Happens(m, st).value.Announced?
  }

  /** No assertion has stopped the driver, which is one program for all controllers. */
  ghost predicate NoneStopped(ctls: seq<Ident>)
  {
    forall i :: 0 <= i < |ctls| ==> Stopped !in ctls[i].trace
  }

  ghost predicate Possible(s: ScanState, step: ScanStep)
  {
    NoneStopped(s.ctls) &&
    match step
    case Discover(m) => s.loop && Start(m) && References(s) + 1 < TWO32
    case EndLoop => s.loop
    case Identifies(i, st) =>
      && i < |s.ctls| && Shape(s.ctls[i].q) && Able(s.ctls[i], st)
      && (Announces(s.ctls[i], st) ==> References(s) + 1 < TWO32)
    case Scanned(i, n) => (i, n) in s.scans
  }

  ghost function AfterStep(s: ScanState, step: ScanStep): ScanState
    requires Possible(s, step)
  {
    match step
    case Discover(m) => s.(ctls := s.ctls + [m], count := s.count.Add())
    case EndLoop => s.(loop := false, count := s.count.Drop())
    case Identifies(i, st) =>
      var t := s.(ctls := s.ctls[i := After(s.ctls[i], st)]);
      (match Happens(s.ctls[i], st)
       case Some(Announced(n)) => t.(scans := s.scans + multiset{(i, n)}, count := s.count.Add())
       case Some(Finished) => t.(count := s.count.Drop())
       case _ => t)
    case Scanned(i, n) => s.(scans := s.scans - multiset{(i, n)}, count := s.count.Drop())
  }

  /** `device_discovery` has taken its own reference. */
  const BEGIN := ScanState(true, [], multiset{}, Counter(1, 0))

  ghost predicate ScanRun(s: ScanState, steps: seq<ScanStep>, t: ScanState)
    decreases |steps|
  {
    if steps == [] then s == t
    else Possible(s, steps[0]) && ScanRun(AfterStep(s, steps[0]), steps[1..], t)
  }

  ghost predicate Scanning(t: ScanState)
  {
    exists steps: seq<ScanStep> :: ScanRun(BEGIN, steps, t)
  }

  /** A step that calls `device_scan_finished`. */
  ghost predicate Drops(s: ScanState, step: ScanStep)
    requires Possible(s, step)
  {
    match step
    case Discover(_) => false
    case EndLoop => true
    case Identifies(i, st) => Happens(s.ctls[i], st) == Some(Finished)
    case Scanned(_, _) => true
  }

  // ---------------------------------------------------------------------
  // Who holds a reference
  // ---------------------------------------------------------------------

  /** Controllers whose completion callback has not run. */
  ghost function Open(ctls: seq<Ident>): nat
  {
    if ctls == [] then 0
    else Open(ctls[..|ctls| - 1]) + if Finished in ctls[|ctls| - 1].trace then 0 else 1
  }

  ghost function References(s: ScanState): nat
  {
    (if s.loop then 1 else 0) + Open(s.ctls) + |s.scans|
  }

  lemma {:induction false} OpenUpdate(ctls: seq<Ident>, i: nat, m: Ident)
    requires i < |ctls|
    ensures Open(ctls[i := m]) == Open(ctls) - (if Finished in ctls[i].trace then 0 else 1)
                                  + if Finished in m.trace then 0 else 1
  {
    var last := |ctls| - 1;
    if i == last {
      assert ctls[i := m][..last] == ctls[..last];
    } else {
      assert ctls[i := m][..last] == ctls[..last][i := m];
      OpenUpdate(ctls[..last], i, m);
    }
  }

  lemma {:induction false} OpenAppend(ctls: seq<Ident>, m: Ident)
    ensures Open(ctls + [m]) == Open(ctls) + if Finished in m.trace then 0 else 1
  {
    assert (ctls + [m])[..|ctls|] == ctls;
  }

  lemma {:induction false} OpenNone(ctls: seq<Ident>)
    ensures Open(ctls) == 0 <==> forall i :: 0 <= i < |ctls| ==> Finished in ctls[i].trace
  {
    if ctls == [] {
    } else {
      var init := ctls[..|ctls| - 1];
      OpenNone(init);
      assert forall i :: 0 <= i < |init| ==> init[i] == ctls[i];
    }
  }

  // ---------------------------------------------------------------------
  // After the end
  // ---------------------------------------------------------------------

  lemma {:induction false} EndsOnceSplit(a: seq<Event>, b: seq<Event>)
    requires EndsOnce(a + b) && Finished in a
    ensures forall e <- b :: e.Destroyed?
  {
    assert (a + b)[1..] == a[1..] + b;
    if a[0] == Finished {
      forall i | 0 <= i < |b| ensures b[i].Destroyed? {
        assert (a + b)[1..][|a| - 1 + i] == b[i];
      }
    } else {
      EndsOnceSplit(a[1..], b);
    }
  }

  /** Once its completion callback has run, an identification neither announces a
      namespace nor runs it again. */
  lemma {:induction false} NothingAfterFinished(m: Ident)
    requires Good(m) && m.todo != [] && m.todo[0].Emit? && Finished in m.trace
    ensures m.todo[0].event.Destroyed?
  {
    hide AdminQueue, TodoOk, PendingOk, StatusesOk, Identify, EndsOnce, Answers;
    EventsUnfold(m.todo);
    EventsOfAction(m.todo[0]);
    hide Events, IssuedBy;
    TraceEnds(m.responses);
    assert Finished in m.trace + Events(m.todo);
    EndsOnceSplit(m.trace, Events(m.todo));
    assert Events(m.todo)[0] == m.todo[0].event;
  }

  lemma {:induction false} TraceEnds(rs: seq<Response>)
    requires rs != [] ==> Answers(ControllerIdentified, rs[0])
    ensures Finished in Whole(rs) ==> EndsOnce(Whole(rs))
  {
    hide Play, EndsOnce;
    FinishedWhenIdle(ControllerIdentified, rs);
    if Identify(rs).pending.None? && Finished in Whole(rs) {
      EndsOnceAppend([Issued(ControllerIdentified)], Identify(rs).events);
    }
  }

  // ---------------------------------------------------------------------
  // The invariant
  // ---------------------------------------------------------------------

  ghost predicate AllGood(ctls: seq<Ident>)
  {
    forall i :: 0 <= i < |ctls| ==> Good(ctls[i])
  }

  ghost predicate Counted(s: ScanState)
  {
    && s.count.devices == References(s) < TWO32
    && s.count.registered == if References(s) == 0 then 1 else 0
  }

  /** Within its range the unsigned counter adds up. */
  lemma AddExact(c: Counter)
    ensures c.devices + 1 < TWO32 ==> c.Add() == Counter(c.devices + 1, c.registered)
  {
  }

  lemma DropExact(c: Counter)
    ensures 1 <= c.devices < TWO32 ==>
              c.Drop() == Counter(c.devices - 1, if c.devices == 1 then c.registered + 1 else c.registered)
  {
  }

  lemma StepCounted(s: ScanState, step: ScanStep)
    requires AllGood(s.ctls) && Counted(s) && Possible(s, step)
    ensures AllGood(AfterStep(s, step).ctls) && Counted(AfterStep(s, step))
    ensures Drops(s, step) ==> s.count.devices >= 1
  {
    hide Possible, AllGood, Counted, AfterStep, Drops;
    match step
    case Discover(m) => DiscoverCounted(s, m);
    case EndLoop => LoopCounted(s);
    case Identifies(i, st) => IdentifiesCounted(s, i, st);
    case Scanned(i, n) => ScannedCounted(s, i, n);
  }

  lemma LoopCounted(s: ScanState)
    requires AllGood(s.ctls) && Counted(s) && Possible(s, EndLoop)
    ensures AllGood(AfterStep(s, EndLoop).ctls) && Counted(AfterStep(s, EndLoop)) && s.count.devices >= 1
  {
    hide Good, Open, Counter.Drop;
    DropExact(s.count);
  }

  lemma ScannedCounted(s: ScanState, i: nat, n: nat)
    requires AllGood(s.ctls) && Counted(s) && Possible(s, Scanned(i, n))
    ensures AllGood(AfterStep(s, Scanned(i, n)).ctls) && Counted(AfterStep(s, Scanned(i, n))) && s.count.devices >= 1
  {
    hide Good, Open, Counter.Drop;
    DropExact(s.count);
  }

  lemma {:induction false} DiscoverCounted(s: ScanState, m: Ident)
    requires AllGood(s.ctls) && Counted(s) && Possible(s, Discover(m))
    ensures AllGood(AfterStep(s, Discover(m)).ctls) && Counted(AfterStep(s, Discover(m))) && !Drops(s, Discover(m))
  {
    hide Good, Start, Open;
    StartClean(m);
    OpenAppend(s.ctls, m);
    AddExact(s.count);
  }

  lemma {:induction false} StartClean(m: Ident)
    requires Start(m)
    ensures Good(m) && Finished !in m.trace
  {
    hide Good;
    StartGood(m);
  }

  lemma IdentifiesCounted(s: ScanState, i: nat, st: Step)
    requires AllGood(s.ctls) && Counted(s) && Possible(s, Identifies(i, st))
    ensures AllGood(AfterStep(s, Identifies(i, st)).ctls) && Counted(AfterStep(s, Identifies(i, st)))
    ensures Drops(s, Identifies(i, st)) ==> s.count.devices >= 1
  {
    hide Good, Able, Shape, After, Open, Happens, Counted;
    var m := s.ctls[i];
    assert Good(m);
    StepGood(m, st);
    GoodTrace(m, st);
    if Finished !in m.trace {
      OpenPositive(s.ctls, i);
    }
    OpenUpdate(s.ctls, i, After(m, st));
    CountEvent(s, i, st);
  }

  /** An identification announces and finishes only before it has finished. */
  lemma {:induction false} GoodTrace(m: Ident, st: Step)
    requires Shape(m.q) && Able(m, st) && Good(m)
    ensures Finished in After(m, st).trace <==> Finished in m.trace || Happens(m, st) == Some(Finished)
    ensures Happens(m, st).Some? && Finished in m.trace ==> Happens(m, st).value.Destroyed?
  {
    hide Good, Shape;
    TraceOfStep(m, st);
    if Happens(m, st).Some? && Finished in m.trace {
      NothingAfterFinished(m);
    }
  }

  lemma CountEvent(s: ScanState, i: nat, st: Step)
    requires Counted(s) && Possible(s, Identifies(i, st))
    requires var e := Happens(s.ctls[i], st);
             var now := s.ctls[i := After(s.ctls[i], st)];
             && Open(now) == Open(s.ctls) - (if Finished !in s.ctls[i].trace && e == Some(Finished) then 1 else 0)
             && (e.Some? && Finished in s.ctls[i].trace ==> e.value.Destroyed?)
             && (Finished !in s.ctls[i].trace ==> Open(s.ctls) >= 1)
    ensures Counted(AfterStep(s, Identifies(i, st)))
    ensures Drops(s, Identifies(i, st)) ==> s.count.devices >= 1
  {
    hide Able, Shape, After, Open, Happens, Counter.Add, Counter.Drop;
    AddExact(s.count);
    DropExact(s.count);
  }

  lemma {:induction false} OpenPositive(ctls: seq<Ident>, i: nat)
    requires i < |ctls| && Finished !in ctls[i].trace
    ensures Open(ctls) >= 1
  {
    hide Open;
    OpenNone(ctls);
  }

  /** Only the event that happens is added to the trace, apart from issued commands. */
  lemma {:induction false} TraceOfStep(m: Ident, st: Step)
    requires Shape(m.q) && Able(m, st)
    ensures Finished in After(m, st).trace <==> Finished in m.trace || Happens(m, st) == Some(Finished)
  {
    hide Shape;
  }

  // ---------------------------------------------------------------------
  // Guarantees
  // ---------------------------------------------------------------------

  lemma {:induction false} RunCounted(s: ScanState, steps: seq<ScanStep>, t: ScanState)
    requires AllGood(s.ctls) && Counted(s) && ScanRun(s, steps, t)
    ensures AllGood(t.ctls) && Counted(t)
    decreases |steps|
  {
    hide AllGood, Counted, Possible, AfterStep;
    if steps == [] {
    } else {
      StepCounted(s, steps[0]);
      RunCounted(AfterStep(s, steps[0]), steps[1..], t);
    }
  }

  lemma ScanningCounted(t: ScanState)
    requires Scanning(t)
    ensures AllGood(t.ctls) && Counted(t)
  {
    hide ScanRun;
    assert AllGood(BEGIN.ctls) && Counted(BEGIN);
    var steps: seq<ScanStep> :| ScanRun(BEGIN, steps, t);
    hide AllGood, Counted;
    RunCounted(BEGIN, steps, t);
  }

  /** Over any interleaving of discovery, identifications and partition scans the counter
      is the number of parties still at work; it never underflows; and the service is
      registered at most once, exactly when the loop is over, every controller has
      been identified and every announced disk has been scanned. */
  lemma CounterIsReferences(t: ScanState)
    requires Scanning(t)
    ensures t.count.devices == (if t.loop then 1 else 0) + Open(t.ctls) + |t.scans|
    ensures t.count.registered <= 1
    ensures t.count.registered == 1 <==>
              !t.loop && t.scans == multiset{} && forall i :: 0 <= i < |t.ctls| ==> Finished in t.ctls[i].trace
  {
    hide Scanning, Good;
    ScanningCounted(t);
    OpenNone(t.ctls);
    hide Open;
  }

  lemma NeverUnderflows(t: ScanState, step: ScanStep)
    requires Scanning(t) && Possible(t, step) && Drops(t, step)
    ensures t.count.devices >= 1
  {
    hide Scanning, AllGood, Counted, Possible, Drops;
    ScanningCounted(t);
    StepCounted(t, step);
  }

  /** Registration is final: afterwards no step touches counter or registration. */
  lemma NothingAfterRegistration(t: ScanState, step: ScanStep)
    requires Scanning(t) && t.count.registered == 1 && Possible(t, step)
    ensures step.Identifies? && AfterStep(t, step).count == t.count && AfterStep(t, step).scans == t.scans
  {
    hide Scanning, Good, Able, Shape, After;
    ScanningCounted(t);
    OpenNone(t.ctls);
    hide Open;
    if step.Identifies? {
      GoodTrace(t.ctls[step.i], step.st);
    }
  }

  // ---------------------------------------------------------------------
  // The service is registered
  // ---------------------------------------------------------------------

  /** Discovery, identifications and partition scans are over. */
  ghost predicate Settled(t: ScanState)
  {
    !t.loop && t.scans == multiset{} && forall i :: 0 <= i < |t.ctls| ==> !Busy(t.ctls[i])
  }

  /** No step but the start of another controller is possible. */
  ghost predicate Stuck(t: ScanState)
  {
    forall step: ScanStep :: !step.Discover? ==> !Possible(t, step)
  }

  /** Unless the driver was stopped, a state in which nothing can happen any more is one in
      which all is over. */
  lemma StuckIsSettled(t: ScanState)
    requires AllGood(t.ctls) && |t.ctls| + 1 < TWO32 && Stuck(t) && NoneStopped(t.ctls)
    ensures Settled(t)
  {
    hide Good, Able, Shape, Start, Busy, References, NoneStopped;
    if t.loop {
      LoopCanEnd(t);
    }
    if t.scans != multiset{} {
      var x :| x in t.scans;
      PendingScanEnds(t, x.0, x.1);
    }
    forall i | 0 <= i < |t.ctls| ensures !Busy(t.ctls[i]) {
      StuckIsIdle(t, i);
    }
  }

  lemma StuckIsIdle(t: ScanState, i: nat)
    requires i < |t.ctls| && AllGood(t.ctls) && |t.ctls| + 1 < TWO32 && Stuck(t) && NoneStopped(t.ctls)
    requires !t.loop && t.scans == multiset{}
    ensures !Busy(t.ctls[i])
  {
    hide Good, Able, Shape, References, Busy, Plausible, Stuck, NoneStopped;
    var m := t.ctls[i];
    if Busy(m) {
      QuietIsPlausible(m);
      IdentificationProgresses(m, QUIET);
      var st: Step :| Able(m, st) && Favours(st, QUIET);
      ControllerSteps(t, i, st);
      NotPossible(t, Identifies(i, st));
    }
  }

  lemma NotPossible(t: ScanState, step: ScanStep)
    requires Stuck(t) && !step.Discover?
    ensures !Possible(t, step)
  {
  }

  lemma LoopCanEnd(t: ScanState)
    requires t.loop && NoneStopped(t.ctls)
    ensures Possible(t, EndLoop)
  {
  }

  lemma PendingScanEnds(t: ScanState, i: nat, n: nat)
    requires (i, n) in t.scans && NoneStopped(t.ctls)
    ensures Possible(t, Scanned(i, n))
  {
  }

  /** With discovery and partition scans over, at most the controllers hold references. */
  lemma ControllerSteps(t: ScanState, i: nat, st: Step)
    requires i < |t.ctls| && Shape(t.ctls[i].q) && Able(t.ctls[i], st)
    requires !t.loop && t.scans == multiset{} && |t.ctls| + 1 < TWO32 && NoneStopped(t.ctls)
    ensures Possible(t, Identifies(i, st))
  {
    hide Able, Shape, NoneStopped;
    OpenBounded(t.ctls);
  }

  lemma {:induction false} OpenBounded(ctls: seq<Ident>)
    ensures Open(ctls) <= |ctls|
  {
    if ctls == [] {
    } else {
      OpenBounded(ctls[..|ctls| - 1]);
    }
  }

  /** When all is over, the service has been registered if and only if no controller was
      stranded (it reported no namespaces while its namespace 1 was usable and got its
      completion queue) and none was stopped. */
  lemma RegisteredUnlessStranded(t: ScanState)
    requires Scanning(t) && Settled(t)
    ensures t.count.registered == 1 <==> forall i :: 0 <= i < |t.ctls| ==> Settles(t.ctls[i])
  {
    hide Scanning, Good, Busy, Settles;
    ScanningCounted(t);
    CounterIsReferences(t);
    forall i | 0 <= i < |t.ctls|
      ensures Finished in t.ctls[i].trace <==> Settles(t.ctls[i])
    {
      IdleIsComplete(t.ctls[i]);
    }
  }

  /** The answers of this controller let its completion callback run. */
  predicate Settles(m: Ident)
  {
    !Strands(m.responses) && !Stops(m.responses)
  }

  lemma {:induction false} IdleIsComplete(m: Ident)
    requires Good(m) && !Busy(m)
    ensures Finished in m.trace <==> Settles(m)
  {
    hide Good, Strands, Stops, EndsOnce, Loop, Outcomes, Sizes;
    IdleIsOver(m);
    CompletedIdentification(m);
  }

  /** A controller at which the driver stopped: its completion callback has not run. */
  lemma {:induction false} StoppedIsComplete(m: Ident)
    requires Good(m) && Stopped in m.trace
    ensures Finished !in m.trace && Stops(m.responses)
  {
    hide AdminQueue, TodoOk, PendingOk, StatusesOk, Identify, EndsOnce, Events, Stops, Strands;
    NotStopped(m.responses);
    assert Stopped in m.trace + Events(m.todo);
    IdentifyNothing();
    StoppedExactly(m.responses);
    EndsUnlessStranded(m.responses);
    assert Finished !in m.trace + Events(m.todo);
  }

  /** When nothing can happen any more, the same condition decides. */
  lemma ServiceIsRegistered(t: ScanState)
    requires Scanning(t) && |t.ctls| + 1 < TWO32 && Stuck(t)
    ensures t.count.registered == 1 <==> forall i :: 0 <= i < |t.ctls| ==> Settles(t.ctls[i])
  {
    hide Scanning, Good, Stuck, Settled, Strands, Stops;
    ScanningCounted(t);
    if NoneStopped(t.ctls) {
      StuckIsSettled(t);
      RegisteredUnlessStranded(t);
    } else {
      var i :| 0 <= i < |t.ctls| && Stopped in t.ctls[i].trace;
      StoppedIsComplete(t.ctls[i]);
      CounterIsReferences(t);
      assert !Settles(t.ctls[i]);
    }
  }

  /** A controller whose count of namespaces is the broadcast identifier keeps the service
      unregistered. */
  lemma BroadcastNeverRegisters(t: ScanState, i: nat)
    requires Scanning(t) && i < |t.ctls| && ReportsCount(t.ctls[i], NSID_ALL)
    ensures t.count.registered == 0
  {
    hide Scanning, Good, ReportsCount;
    ScanningCounted(t);
    CounterIsReferences(t);
    BroadcastIsOpen(t.ctls[i]);
  }

  lemma {:induction false} BroadcastIsOpen(m: Ident)
    requires Good(m) && ReportsCount(m, NSID_ALL)
    ensures Finished !in m.trace
  {
    hide Good;
    BroadcastNeverFinishes(m);
  }

  // ---------------------------------------------------------------------
  // A scan ends
  // ---------------------------------------------------------------------

  ghost function Potentials(ctls: seq<Ident>): int
  {
    if ctls == [] then 0 else Potentials(ctls[..|ctls| - 1]) + Potential(ctls[|ctls| - 1])
  }

  lemma {:induction false} PotentialsUpdate(ctls: seq<Ident>, i: nat, m: Ident)
    requires i < |ctls|
    ensures Potentials(ctls[i := m]) == Potentials(ctls) - Potential(ctls[i]) + Potential(m)
  {
    hide Potential;
    var last := |ctls| - 1;
    if i == last {
      assert ctls[i := m][..last] == ctls[..last];
    } else {
      assert ctls[i := m][..last] == ctls[..last][i := m];
      PotentialsUpdate(ctls[..last], i, m);
    }
  }

  lemma {:induction false} PotentialsNonNegative(ctls: seq<Ident>)
    requires AllGood(ctls)
    ensures Potentials(ctls) >= 0
  {
    hide Good, Potential;
    if ctls == [] {
    } else {
      var init := ctls[..|ctls| - 1];
      assert forall i :: 0 <= i < |init| ==> init[i] == ctls[i];
      PotentialsNonNegative(init);
      assert Good(ctls[|ctls| - 1]);
      PotentialNonNegative(ctls[|ctls| - 1]);
    }
  }

  /** Bounds the steps a scan can still take without new controllers. */
  ghost function Pending(s: ScanState): int
  {
    (if s.loop then 1 else 0) + |s.scans| + 2 * Potentials(s.ctls)
  }

  /** No controller has reported a count that wraps around. */
  ghost predicate AllBounded(ctls: seq<Ident>)
  {
    forall i :: 0 <= i < |ctls| ==> Bounded(ctls[i].responses)
  }

  lemma StepUsesUp(s: ScanState, step: ScanStep)
    requires AllGood(s.ctls) && Possible(s, step) && !step.Discover? && AllBounded(AfterStep(s, step).ctls)
    ensures AllGood(AfterStep(s, step).ctls) && 0 <= Pending(AfterStep(s, step)) < Pending(s)
  {
    hide AllGood, AllBounded, Possible, AfterStep, Potentials;
    StepKeepsGood(s, step);
    PotentialsNonNegative(AfterStep(s, step).ctls);
    match step
    case Identifies(i, st) => IdentifiesUsesUp(s, i, st);
    case _ => OtherUsesUp(s, step);
  }

  lemma OtherUsesUp(s: ScanState, step: ScanStep)
    requires Possible(s, step) && (step.EndLoop? || step.Scanned?)
    ensures Pending(AfterStep(s, step)) < Pending(s)
  {
    hide NoneStopped, Potentials, Counter.Drop;
  }

  lemma IdentifiesUsesUp(s: ScanState, i: nat, st: Step)
    requires AllGood(s.ctls) && Possible(s, Identifies(i, st)) && AllBounded(AfterStep(s, Identifies(i, st)).ctls)
    ensures Pending(AfterStep(s, Identifies(i, st))) < Pending(s)
  {
    hide AllGood, AllBounded, NoneStopped, Potentials, Able, Shape, After, References, Counter.Drop, Counter.Add;
    ControllerUsesUp(s, i, st);
  }

  lemma StepKeepsGood(s: ScanState, step: ScanStep)
    requires AllGood(s.ctls) && Possible(s, step) && !step.Discover?
    ensures AllGood(AfterStep(s, step).ctls)
  {
    hide Good, Able, Shape, After, References, NoneStopped;
    if step.Identifies? {
      assert Good(s.ctls[step.i]);
      StepGood(s.ctls[step.i], step.st);
    }
  }

  lemma ControllerUsesUp(s: ScanState, i: nat, st: Step)
    requires AllGood(s.ctls) && Possible(s, Identifies(i, st)) && AllBounded(AfterStep(s, Identifies(i, st)).ctls)
    ensures Potentials(AfterStep(s, Identifies(i, st)).ctls) < Potentials(s.ctls)
  {
    hide Good, Able, Shape, After, Potentials, Potential, References, Bounded, NoneStopped;
    var m := s.ctls[i];
    assert Good(m) && AfterStep(s, Identifies(i, st)).ctls[i] == After(m, st);
    PotentialDecreases(m, st);
    PotentialsUpdate(s.ctls, i, After(m, st));
  }

  lemma {:induction false} ScanRunBounded(s: ScanState, steps: seq<ScanStep>, t: ScanState)
    requires ScanRun(s, steps, t) && AllBounded(t.ctls)
    ensures AllBounded(s.ctls)
    decreases |steps|
  {
    hide Possible, AfterStep, AllBounded;
    if steps == [] {
    } else {
      ScanRunBounded(AfterStep(s, steps[0]), steps[1..], t);
      ScanStepBounded(s, steps[0]);
    }
  }

  lemma ScanStepBounded(s: ScanState, step: ScanStep)
    requires Possible(s, step) && AllBounded(AfterStep(s, step).ctls)
    ensures AllBounded(s.ctls)
  {
    hide Able, Shape, After, References, Bounded, NoneStopped, Start;
    var t := AfterStep(s, step);
    forall i | 0 <= i < |s.ctls| ensures Bounded(s.ctls[i].responses) {
      assert Bounded(t.ctls[i].responses);
      if step.Identifies? && step.i == i {
        StepBounded(s.ctls[i], step.st);
      }
    }
  }

  /** Without new controllers, and with counts of namespaces that do not wrap around, a scan
      is finite. */
  lemma {:induction false} ScanIsFinite(s: ScanState, steps: seq<ScanStep>, t: ScanState)
    requires AllGood(s.ctls) && AllBounded(t.ctls)
    requires ScanRun(s, steps, t) && forall i :: 0 <= i < |steps| ==> !steps[i].Discover?
    ensures |steps| + Pending(t) <= Pending(s) && Pending(t) >= 0
    decreases |steps|
  {
    hide Good, Possible, AfterStep, Potentials, AllBounded;
    if steps == [] {
      PotentialsNonNegative(s.ctls);
    } else {
      ScanRunBounded(AfterStep(s, steps[0]), steps[1..], t);
      StepUsesUp(s, steps[0]);
      assert forall i :: 0 <= i < |steps[1..]| ==> steps[1..][i] == steps[i + 1];
      ScanIsFinite(AfterStep(s, steps[0]), steps[1..], t);
    }
  }

  /** No controller has reported to have no namespaces, or so many that the count wraps
      around, and none has stopped the driver or is about to. */
  ghost predicate Promising(ctls: seq<Ident>)
  {
    forall i :: 0 <= i < |ctls| ==> Promises(ctls[i])
  }

  ghost predicate Promises(m: Ident)
  {
    && (m.responses != [] && m.responses[0].status == 0 ==> 1 <= m.responses[0].nn < NSID_ALL)
    && Stopped !in Whole(m.responses)
  }

  lemma {:induction false} PromisesFits(m: Ident)
    ensures Promises(m) ==> Fits(m, QUIET) && Bounded(m.responses)
  {
    hide Whole;
  }

  lemma PromisingIsRunning(ctls: seq<Ident>)
    requires AllGood(ctls) && Promising(ctls)
    ensures NoneStopped(ctls) && AllBounded(ctls)
  {
    hide Good, Promises, Fits, Bounded;
    forall i | 0 <= i < |ctls| ensures Stopped !in ctls[i].trace && Bounded(ctls[i].responses) {
      assert Good(ctls[i]);
      PromisesFits(ctls[i]);
      FitsNotStopped(ctls[i], QUIET);
    }
  }

  /** From every promising state a scan can go on, without new controllers, until all is
      over, and stay promising. */
  lemma {:induction false} ScanCanSettle(s: ScanState) returns (steps: seq<ScanStep>, t: ScanState)
    requires AllGood(s.ctls) && |s.ctls| + 1 < TWO32 && Promising(s.ctls)
    ensures ScanRun(s, steps, t) && Settled(t) && |t.ctls| == |s.ctls| && Promising(t.ctls)
    decreases Pending(s)
  {
    hide AllGood, Possible, AfterStep, Pending, Busy, Promising, Settled, AllBounded, NoneStopped;
    if Settled(s) {
      steps, t := [], s;
    } else {
      var step := NextStep(s);
      StepCounts(s, step);
      var more: seq<ScanStep>;
      more, t := ScanCanSettle(AfterStep(s, step));
      steps := [step] + more;
      assert steps[1..] == more;
    }
  }

  lemma StepCounts(s: ScanState, step: ScanStep)
    requires AllGood(s.ctls) && Possible(s, step) && !step.Discover? && Promising(AfterStep(s, step).ctls)
    ensures AllGood(AfterStep(s, step).ctls) && 0 <= Pending(AfterStep(s, step)) < Pending(s)
  {
    hide Possible, AfterStep, Good, Pending, Promises;
    StepKeepsGood(s, step);
    PromisingIsRunning(AfterStep(s, step).ctls);
    StepUsesUp(s, step);
  }

  /** A step towards the end: partition scans first, then the loop, then a controller. */
  lemma NextStep(s: ScanState) returns (step: ScanStep)
    requires AllGood(s.ctls) && |s.ctls| + 1 < TWO32 && !Settled(s) && Promising(s.ctls)
    ensures !step.Discover? && Possible(s, step) && |AfterStep(s, step).ctls| == |s.ctls|
    ensures Promising(AfterStep(s, step).ctls)
  {
    hide Good, Able, Shape, After, References, Busy, Plausible, Promises, NoneStopped;
    PromisingIsRunning(s.ctls);
    if s.scans != multiset{} {
      var x :| x in s.scans;
      PendingScanEnds(s, x.0, x.1);
      step := Scanned(x.0, x.1);
    } else if s.loop {
      LoopCanEnd(s);
      step := EndLoop;
    } else {
      var i :| 0 <= i < |s.ctls| && Busy(s.ctls[i]);
      var m := s.ctls[i];
      assert Good(m) && Promises(m);
      QuietIsPlausible(m);
      IdentificationProgresses(m, QUIET);
      var st: Step :| Able(m, st) && Favours(st, QUIET);
      ControllerSteps(s, i, st);
      StillPromises(m, st);
      step := Identifies(i, st);
    }
  }

  lemma {:induction false} StillPromises(m: Ident, st: Step)
    requires Shape(m.q) && Able(m, st) && Good(m) && Promises(m) && Favours(st, QUIET)
    ensures Promises(After(m, st))
  {
    hide Good, Shape, Whole;
    PromisesFits(m);
    FitsOn(m, st, QUIET);
  }

  /** From every promising state of a scan some run registers the service. */
  lemma ServiceCanBeRegistered(s: ScanState) returns (steps: seq<ScanStep>, t: ScanState)
    requires Scanning(s) && |s.ctls| + 1 < TWO32 && Promising(s.ctls)
    ensures ScanRun(s, steps, t) && Scanning(t) && t.count.registered == 1
  {
    hide Scanning, Good, ScanRun, Busy, Promises, Settles;
    ScanningCounted(s);
    steps, t := ScanCanSettle(s);
    ScanningOn(s, steps, t);
    ScanningCounted(t);
    RegisteredUnlessStranded(t);
    forall i | 0 <= i < |t.ctls| ensures Settles(t.ctls[i]) {
      assert Good(t.ctls[i]) && Promises(t.ctls[i]);
      PromisesSettle(t.ctls[i]);
    }
  }

  lemma {:induction false} PromisesSettle(m: Ident)
    requires Good(m) && !Busy(m) && Promises(m)
    ensures Settles(m)
  {
    hide AdminQueue, TodoOk, StatusesOk, Identify, Events, Stops, FirstOutcome;
    IdleIsOver(m);
    CompletedIdentification(m);
    StoppedExactly(m.responses);
  }

  /** And it may never be: a controller that reports no namespaces and accepts every
      command leaves a state in which nothing can happen and nothing was registered. */
  lemma {:induction false} ServiceMayNeverBeRegistered(m: Ident) returns (t: ScanState)
    requires Start(m)
    ensures Scanning(t) && Stuck(t) && t.count.registered == 0
  {
    hide Scanning, ScanRun, Strands, Stops, Good, Start, Busy, IdentRun, Stuck;
    var s := OneController(m);
    var moves: seq<Step>, n: Ident;
    moves, n := IdentificationCanStrand(m);
    t := LiftRun(s, moves, n);
    ScanningCounted(t);
    assert t.ctls[0] == n;
    RegisteredUnlessStranded(t);
    CounterIsReferences(t);
    SettledIsStuck(t);
  }

  /** Nor may it be with a controller that reports the broadcast identifier: from the state
      this leads to no run registers the service. */
  lemma {:induction false} BroadcastKeepsServiceBack(m: Ident) returns (s: ScanState)
    requires Start(m)
    ensures Scanning(s) && s.ctls != [] && ReportsCount(s.ctls[0], NSID_ALL)
    ensures forall steps: seq<ScanStep>, t: ScanState :: ScanRun(s, steps, t) ==> t.count.registered == 0
  {
    hide Scanning, ScanRun, Good, Start, IdentRun;
    s := OneController(m);
    var moves: seq<Step>, n: Ident;
    moves, n := BroadcastCanBeReported(m);
    s := LiftRun(s, moves, n);
    forall steps: seq<ScanStep>, t: ScanState | ScanRun(s, steps, t) ensures t.count.registered == 0 {
      ScanningOn(s, steps, t);
      StillReports(s, steps, t);
      BroadcastNeverRegisters(t, 0);
    }
  }

  lemma {:induction false} StillReports(s: ScanState, steps: seq<ScanStep>, t: ScanState)
    requires s.ctls != [] && ReportsCount(s.ctls[0], NSID_ALL) && ScanRun(s, steps, t)
    ensures t.ctls != [] && ReportsCount(t.ctls[0], NSID_ALL)
    decreases |steps|
  {
    hide Possible, AfterStep, ReportsCount;
    if steps == [] {
    } else {
      StepStillReports(s, steps[0]);
      StillReports(AfterStep(s, steps[0]), steps[1..], t);
    }
  }

  lemma StepStillReports(s: ScanState, step: ScanStep)
    requires s.ctls != [] && ReportsCount(s.ctls[0], NSID_ALL) && Possible(s, step)
    ensures AfterStep(s, step).ctls != [] && ReportsCount(AfterStep(s, step).ctls[0], NSID_ALL)
  {
    hide Able, Shape, After, References, NoneStopped, Start, ReportsCount;
    if step.Identifies? && step.i == 0 {
      StillReporting(s.ctls[0], step.st);
    }
  }

  lemma {:induction false} StillReporting(m: Ident, st: Step)
    requires Shape(m.q) && Able(m, st) && ReportsCount(m, NSID_ALL)
    ensures ReportsCount(After(m, st), NSID_ALL)
  {
    hide Shape;
  }

  /** Discovery finds one controller and ends. */
  lemma {:induction false} OneController(m: Ident) returns (s: ScanState)
    requires Start(m)
    ensures Scanning(s) && s.ctls == [m] && !s.loop && s.scans == multiset{}
  {
    assert Stopped !in m.trace;
    hide Scanning, Start;
    BeginScanning();
    assert Open(BEGIN.ctls) == 0;
    ScanningExtends(BEGIN, Discover(m));
    s := AfterStep(BEGIN, Discover(m));
    ScanningExtends(s, EndLoop);
    s := AfterStep(s, EndLoop);
    assert s.ctls == [m];
  }

  /** The identification of a single controller, with each disk scanned at once. */
  lemma {:induction false} LiftRun(s: ScanState, moves: seq<Step>, n: Ident) returns (t: ScanState)
    requires Scanning(s) && |s.ctls| == 1 && !s.loop && s.scans == multiset{} && IdentRun(s.ctls[0], moves, n)
    ensures Scanning(t) && t.ctls == [n] && !t.loop && t.scans == multiset{}
    decreases |moves|
  {
    hide Scanning, Shape, Able, After;
    if moves == [] {
      t := s;
    } else {
      var u := LiftStep(s, moves[0]);
      t := LiftRun(u, moves[1..], n);
    }
  }

  lemma {:induction false} LiftStep(s: ScanState, st: Step) returns (t: ScanState)
    requires Scanning(s) && |s.ctls| == 1 && !s.loop && s.scans == multiset{}
    requires Shape(s.ctls[0].q) && Able(s.ctls[0], st)
    ensures Scanning(t) && t.ctls == [After(s.ctls[0], st)] && !t.loop && t.scans == multiset{}
  {
    AbleIsRunning(s.ctls[0], st);
    hide Scanning, Shape, Able, After, References, Possible;
    assert NoneStopped(s.ctls);
    ControllerSteps(s, 0, st);
    ScanningExtends(s, Identifies(0, st));
    t := AfterStep(s, Identifies(0, st));
    assert t.ctls == [After(s.ctls[0], st)];
    if Announces(s.ctls[0], st) {
      t := ScannedAtOnce(t, Happens(s.ctls[0], st).value.n);
    }
  }

  lemma {:induction false} ScannedAtOnce(s: ScanState, n: nat) returns (t: ScanState)
    requires Scanning(s) && s.scans == multiset{(0, n)} && NoneStopped(s.ctls)
    ensures Scanning(t) && t.ctls == s.ctls && t.loop == s.loop && t.scans == multiset{}
  {
    hide Scanning, References, NoneStopped;
    assert s.scans - multiset{(0, n)} == multiset{};
    ScanningExtends(s, Scanned(0, n));
    t := AfterStep(s, Scanned(0, n));
  }

  lemma {:induction false} AbleIsRunning(m: Ident, st: Step)
    requires Shape(m.q) && Able(m, st)
    ensures Stopped !in m.trace && (Announces(m, st) ==> Stopped !in After(m, st).trace)
  {
    hide Shape;
  }

  lemma SettledIsStuck(t: ScanState)
    requires AllGood(t.ctls) && Settled(t)
    ensures Stuck(t)
  {
    hide Good, Able, Shape, References, Busy, Start;
    forall step: ScanStep | !step.Discover?
      ensures !Possible(t, step)
    {
      if NoneStopped(t.ctls) && step.Identifies? && step.i < |t.ctls|
         && Shape(t.ctls[step.i].q) && Able(t.ctls[step.i], step.st) {
        IdleIsStuck(t.ctls[step.i], step.st);
      }
    }
  }

  /** A completed identification takes no further step. */
  lemma {:induction false} IdleIsStuck(m: Ident, st: Step)
    requires Good(m) && !Busy(m) && Shape(m.q) && Stopped !in m.trace
    ensures !Able(m, st)
  {
    hide Good, Shape, Potential;
    if Able(m, st) {
      NoPotentialLeft(m);
      IdleIsBounded(m);
      PotentialDecreases(m, st);
    }
  }

  lemma {:induction false} IdleIsBounded(m: Ident)
    requires Good(m) && !Busy(m) && Stopped !in m.trace
    ensures m.responses != [] && Bounded(m.responses)
  {
    hide Good, EndsOnce, Loop, Outcomes, Sizes, Strands, Stops;
    IdleIsOver(m);
    CompletedIdentification(m);
    if m.responses[0].status == 0 && m.responses[0].nn == NSID_ALL {
      BroadcastNeverFinishes(m);
    }
    AnswersInRange(m);
  }

  lemma {:induction false} AnswersInRange(m: Ident)
    requires Good(m)
    ensures m.responses != [] && m.responses[0].status == 0 ==> m.responses[0].nn < TWO32
  {
    hide AdminQueue, TodoOk, PendingOk, StatusesOk, Identify, Whole, Events;
  }

  lemma ScanningOn(s: ScanState, steps: seq<ScanStep>, t: ScanState)
    requires Scanning(s) && ScanRun(s, steps, t)
    ensures Scanning(t)
  {
    var before: seq<ScanStep> :| ScanRun(BEGIN, before, s);
    ScanRunAppend(BEGIN, before, s, steps, t);
  }

  lemma {:induction false} ScanRunAppend(s: ScanState, a: seq<ScanStep>, u: ScanState, b: seq<ScanStep>, t: ScanState)
    requires ScanRun(s, a, u) && ScanRun(u, b, t)
    ensures ScanRun(s, a + b, t)
    decreases |a|
  {
    hide Possible, AfterStep;
    if a == [] {
      assert a + b == b;
    } else {
      assert (a + b)[0] == a[0] && (a + b)[1..] == a[1..] + b;
      ScanRunAppend(AfterStep(s, a[0]), a[1..], u, b, t);
    }
  }

  // ---------------------------------------------------------------------
  // The discovery loop
  // ---------------------------------------------------------------------

  /** What the bus enumerates: devices of other kinds, NVMe controllers whose set-up
      throws, and controllers whose identification starts. */
  datatype Child = Other | Failing | Controller(m: Ident)

  /** The controllers whose identification is started, in order. */
  function Started(children: seq<Child>): seq<Ident>
  {
    if children == [] then []
    else Started(children[..|children| - 1])
         + (match children[|children| - 1] case Controller(m) => [m] case _ => [])
  }

  /** Where the bus has them. */
  function Places(children: seq<Child>): (at: seq<nat>)
    ensures forall i :: 0 <= i < |at| ==> at[i] < |children|
    ensures forall i, j :: 0 <= i < j < |at| ==> at[i] < at[j]
  {
    if children == [] then []
    else Places(children[..|children| - 1]) + if children[|children| - 1].Controller? then [|children| - 1] else []
  }

  /** Every controller that could be set up is started once, in the order of the bus,
      whatever comes before it. */
  lemma {:induction false} StartedExactly(children: seq<Child>)
    ensures |Places(children)| == |Started(children)|
    ensures forall i :: 0 <= i < |Places(children)| ==>
              children[Places(children)[i]] == Controller(Started(children)[i])
    ensures forall k: nat :: k < |children| && children[k].Controller? ==> k in Places(children)
  {
    if children == [] {
    } else {
      var last := |children| - 1;
      var init, at := children[..last], Places(children);
      StartedExactly(init);
      forall i | 0 <= i < |at| ensures children[at[i]] == Controller(Started(children)[i]) {
        if i < |Places(init)| {
          assert at[i] == Places(init)[i] && init[at[i]] == children[at[i]];
        }
      }
      forall k: nat | k < |children| && children[k].Controller? ensures k in at {
        if k < last {
          assert init[k] == children[k] && k in Places(init);
        }
      }
    }
  }

  lemma ScanningExtends(t: ScanState, step: ScanStep)
    requires Scanning(t) && Possible(t, step)
    ensures Scanning(AfterStep(t, step))
  {
    hide Scanning, Possible, AfterStep;
    assert [step][1..] == [];
    assert ScanRun(AfterStep(t, step), [], AfterStep(t, step));
    assert ScanRun(t, [step], AfterStep(t, step));
    ScanningOn(t, [step], AfterStep(t, step));
  }

  /** The global state of main.cc. */
  class DeviceScan {
    var devicesInScan: nat
    var registrations: nat
    var ctls: seq<Ident>
    ghost var loop: bool
    ghost var scans: multiset<(nat, nat)>

    ghost function State(): ScanState
      reads this
    {
      ScanState(loop, ctls, scans, Counter(devicesInScan, registrations))
    }

    constructor ()
      ensures devicesInScan == 0 && registrations == 0 && ctls == [] && scans == multiset{}
    {
      devicesInScan, registrations, ctls := 0, 0, [];
      loop, scans := false, multiset{};
    }

    /** `device_scan_finished`: drops one reference and registers the service with the last. */
    method DeviceScanFinished()
      modifies this`devicesInScan, this`registrations
      ensures Counter(devicesInScan, registrations) == old(Counter(devicesInScan, registrations)).Drop()
    {
      devicesInScan := (devicesInScan + TWO32 - 1) % TWO32;
      if devicesInScan > 0 {
        return;
      }
      registrations := registrations + 1;
    }

    /** Adds the reference of a controller whose identification starts. */
    method AddController(m: Ident)
      requires loop && Scanning(State()) && Start(m) && NoneStopped(ctls) && devicesInScan + 1 < TWO32
      modifies this`ctls, this`devicesInScan
      ensures ctls == old(ctls) + [m] && devicesInScan == old(devicesInScan) + 1
      ensures Scanning(State()) && NoneStopped(ctls)
    {
      assert Stopped !in m.trace;
      hide Start, Scanning;
      FoundController(State(), m);
      ctls := ctls + [m];
      devicesInScan := (devicesInScan + 1) % TWO32;
    }

    /** `device_discovery`: one reference for the loop itself, one for each controller whose
        identification starts; a controller whose set-up throws adds none. */
    method DeviceDiscovery(children: seq<Child>)
      requires devicesInScan == 0 && registrations == 0 && ctls == [] && scans == multiset{}
      requires |children| + 2 < TWO32
      requires forall i :: 0 <= i < |children| && children[i].Controller? ==> Start(children[i].m)
      modifies this
      ensures ctls == Started(children) && scans == multiset{} && !loop
      ensures Scanning(State())
      ensures devicesInScan == |Started(children)|
      ensures registrations == if Started(children) == [] then 1 else 0
    {
      hide Start, Scanning, Counter.Drop;
      devicesInScan := (devicesInScan + 1) % TWO32;
      loop := true;
      BeginScanning();
      var i := 0;
      while i < |children|
        invariant i <= |children|
        invariant ctls == Started(children[..i]) && scans == multiset{} && loop && registrations == 0
        invariant devicesInScan == 1 + |ctls| && |ctls| <= i
        invariant Scanning(State()) && NoneStopped(ctls)
      {
        assert children[..i + 1][..i] == children[..i];
        if children[i].Controller? {
          AddController(children[i].m);
        }
        i := i + 1;
      }
      assert children[..i] == children;
      LoopOver(State());
      DropExact(Counter(devicesInScan, registrations));
      loop := false;
      DeviceScanFinished();
    }
  }

  lemma BeginScanning()
    ensures Scanning(BEGIN)
  {
    assert ScanRun(BEGIN, [], BEGIN);
  }

  lemma {:induction false} FoundController(s: ScanState, m: Ident)
    requires Scanning(s) && s.loop && Start(m) && NoneStopped(s.ctls) && s.count.devices + 1 < TWO32
    ensures Scanning(ScanState(true, s.ctls + [m], s.scans, Counter(s.count.devices + 1, s.count.registered)))
  {
    AddExact(s.count);
    hide Scanning, AllGood, Start, Open;
    ScanningCounted(s);
    ScanningExtends(s, Discover(m));
  }

  lemma LoopOver(s: ScanState)
    requires Scanning(s) && s.loop && NoneStopped(s.ctls)
    ensures Scanning(ScanState(false, s.ctls, s.scans, s.count.Drop()))
  {
    hide Scanning;
    ScanningExtends(s, EndLoop);
  }
}
