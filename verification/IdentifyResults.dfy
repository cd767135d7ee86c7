/** What a whole identification does: which namespaces are identified, created,
    announced and destroyed, and that it is over exactly once. */
module IdentifyResults {
  import opened Arithmetic
  import opened Types
  import opened IdentifyLoop

  // ---------------------------------------------------------------------
  // Kinds of events
  // ---------------------------------------------------------------------

  datatype Kind = Identification | Creation | Announcement | Destruction | Completion

  /** The namespace identifier of an event, if it is of kind `k`; a completion counts as 0. */
  function Mark(e: Event, k: Kind): seq<nat>
  {
    match e
    case Issued(NamespaceIdentified(_, n)) => if k == Identification then [n] else []
    case Issued(_) => []
    case Created(n, _) => if k == Creation then [n] else []
    case Announced(n) => if k == Announcement then [n] else []
    case Destroyed(n) => if k == Destruction then [n] else []
    case Finished => if k == Completion then [0] else []
    case Stopped => []
  }

  /** The identifiers of all events of one kind, in order. */
  function Select(events: seq<Event>, k: Kind): seq<nat>
  {
    if events == [] then [] else Mark(events[0], k) + Select(events[1..], k)
  }

  lemma {:induction false} SelectAppend(a: seq<Event>, b: seq<Event>, k: Kind)
    ensures Select(a + b, k) == Select(a, k) + Select(b, k)
  {
    hide Mark;
    if a == [] {
      assert a + b == b;
    } else {
      assert (a + b)[0] == a[0] && (a + b)[1..] == a[1..] + b;
      SelectAppend(a[1..], b, k);
    }
  }

  lemma SelectOne(e: Event, k: Kind)
    ensures Select([e], k) == Mark(e, k)
  {
    assert [e][1..] == [];
  }

  lemma SelectNone(k: Kind)
    ensures Select([], k) == []
  {
  }

  /** The identifiers from `n` on whose set-up ended as one of `kinds`. */
  function Chosen(n: nat, outcomes: seq<Outcome>, kinds: set<Outcome>): (r: seq<nat>)
    ensures forall i :: 0 <= i < |r| ==> n <= r[i] < n + |outcomes|
    ensures forall i, j :: 0 <= i < j < |r| ==> r[i] < r[j]
    decreases |outcomes|
  {
    if outcomes == [] then []
    else (if outcomes[0] in kinds then [n] else []) + Chosen(n + 1, outcomes[1..], kinds)
  }

  /** `Chosen` chooses exactly the identifiers with such an outcome. */
  lemma {:induction false} ChosenExactly(n: nat, outcomes: seq<Outcome>, kinds: set<Outcome>, m: nat)
    ensures m in Chosen(n, outcomes, kinds) <==> n <= m < n + |outcomes| && outcomes[m - n] in kinds
    decreases |outcomes|
  {
    if outcomes == [] {
    } else {
      ChosenExactly(n + 1, outcomes[1..], kinds, m);
    }
  }

  lemma {:induction false} ChosenUnfold(n: nat, outcomes: seq<Outcome>, kinds: set<Outcome>)
    requires outcomes != []
    ensures Chosen(n, outcomes, kinds)
         == (if outcomes[0] in kinds then [n] else []) + Chosen(n + 1, outcomes[1..], kinds)
    ensures |outcomes| == 1 ==> Chosen(n + 1, outcomes[1..], kinds) == []
  {
  }

  function UpTo(n: nat, nn: nat): (r: seq<nat>)
    requires n <= nn + 1
    ensures |r| == nn + 1 - n && forall i :: 0 <= i < |r| ==> r[i] == n + i
    decreases nn + 1 - n
  {
    if n > nn then [] else [n] + UpTo(n + 1, nn)
  }

  // ---------------------------------------------------------------------
  // The loop, kind by kind
  // ---------------------------------------------------------------------

  function Contribution(nn: nat, n: nat, o: Outcome, k: Kind): seq<nat>
  {
    match k
    case Identification => if GoesOn(nn, n, o) then [n + 1] else []
    case Creation => if o != Skipped then [n] else []
    case Announcement => if o == Ready then [n] else []
    case Destruction => if o == NoCompletionQueue || o == NoSubmissionQueue then [n] else []
    case Completion => if o == Fatal || n < nn || (n > nn && (o == NoSubmissionQueue || o == Ready)) then [] else [0]
  }

  lemma NextSelect(nn: nat, n: nat, k: Kind)
    requires Visited(nn, n)
    ensures Select(NextEvents(nn, n), k) == if k == Identification && n < nn then [n + 1] else []
    ensures Select(FinishEvents(nn, n), k) == if k == Completion && !(n < nn) then [0] else []
    ensures Select(SqFinish(nn, n), k) == if k == Completion && n == nn then [0] else []
  {
    hide Select;
    VisitedNext(nn, n);
    SelectNone(k);
    SelectOne(Issued(NamespaceIdentified(nn, n + 1)), k);
    SelectOne(Finished, k);
  }

  lemma QueuesSelect(nn: nat, n: nat, size: nat, k: Kind)
    ensures Select([Created(n, size), Issued(CqCreated(nn, n))], k) == if k == Creation then [n] else []
    ensures Select([Issued(SqCreated(nn, n))], k) == []
    ensures Select([Destroyed(n)], k) == if k == Destruction then [n] else []
    ensures Select([Announced(n)], k) == if k == Announcement then [n] else []
  {
    hide Select;
    assert [Created(n, size), Issued(CqCreated(nn, n))] == [Created(n, size)] + [Issued(CqCreated(nn, n))];
    SelectAppend([Created(n, size)], [Issued(CqCreated(nn, n))], k);
    SelectOne(Created(n, size), k);
    SelectOne(Issued(CqCreated(nn, n)), k);
    SelectOne(Issued(SqCreated(nn, n)), k);
    SelectOne(Destroyed(n), k);
    SelectOne(Announced(n), k);
  }

  lemma {:induction false} StepSelect(nn: nat, n: nat, o: Outcome, size: nat, rest: seq<Event>, k: Kind)
    requires Visited(nn, n) && (o == Fatal ==> rest == [])
    ensures Select(LoopStep(nn, n, o, size, rest), k) == Contribution(nn, n, o, k) + Select(rest, k)
  {
    hide Select, NextEvents, FinishEvents;
    match o
    case Skipped => SkippedSelect(nn, n, size, rest, k);
    case NoCompletionQueue => NoCqSelect(nn, n, size, rest, k);
    case NoSubmissionQueue => NoSqSelect(nn, n, size, rest, k);
    case Ready => ReadySelect(nn, n, size, rest, k);
    case Fatal => FatalSelect(nn, n, size, k);
  }

  lemma FatalSelect(nn: nat, n: nat, size: nat, k: Kind)
    ensures Select(LoopStep(nn, n, Fatal, size, []), k) == Contribution(nn, n, Fatal, k) + Select([], k)
  {
    hide Select;
    assert [Created(n, size), Stopped] == [Created(n, size)] + [Stopped];
    SelectAppend([Created(n, size)], [Stopped], k);
    SelectOne(Created(n, size), k);
    SelectOne(Stopped, k);
    SelectNone(k);
  }

  lemma {:induction false} SkippedSelect(nn: nat, n: nat, size: nat, rest: seq<Event>, k: Kind)
    requires Visited(nn, n)
    ensures Select(LoopStep(nn, n, Skipped, size, rest), k) == Contribution(nn, n, Skipped, k) + Select(rest, k)
  {
    hide Select, NextEvents, FinishEvents;
    var next, finish := NextEvents(nn, n), FinishEvents(nn, n);
    NextSelect(nn, n, k);
    SelectAppend(next, finish, k);
    SelectAppend(next + finish, rest, k);
  }

  lemma {:induction false} NoCqSelect(nn: nat, n: nat, size: nat, rest: seq<Event>, k: Kind)
    requires Visited(nn, n)
    ensures Select(LoopStep(nn, n, NoCompletionQueue, size, rest), k)
         == Contribution(nn, n, NoCompletionQueue, k) + Select(rest, k)
  {
    hide Select, NextEvents, FinishEvents, Contribution;
    var queues := [Created(n, size), Issued(CqCreated(nn, n))];
    var after := NextEvents(nn, n) + FinishEvents(nn, n) + [Destroyed(n)];
    NoCqParts(nn, n, size, k);
    SelectAppend(after, rest, k);
    SelectAppend(queues, after + rest, k);
  }

  lemma NoCqParts(nn: nat, n: nat, size: nat, k: Kind)
    requires Visited(nn, n)
    ensures Select([Created(n, size), Issued(CqCreated(nn, n))], k)
            + Select(NextEvents(nn, n) + FinishEvents(nn, n) + [Destroyed(n)], k)
         == Contribution(nn, n, NoCompletionQueue, k)
  {
    hide Select, NextEvents, FinishEvents;
    var next, finish := NextEvents(nn, n), FinishEvents(nn, n);
    NextSelect(nn, n, k);
    QueuesSelect(nn, n, size, k);
    SelectAppend(next, finish, k);
    SelectAppend(next + finish, [Destroyed(n)], k);
  }

  lemma {:induction false} NoSqSelect(nn: nat, n: nat, size: nat, rest: seq<Event>, k: Kind)
    requires Visited(nn, n)
    ensures Select(LoopStep(nn, n, NoSubmissionQueue, size, rest), k)
         == Contribution(nn, n, NoSubmissionQueue, k) + Select(rest, k)
  {
    hide Select, NextEvents, FinishEvents, SqFinish, Contribution;
    NoSqParts(nn, n, size, k);
    CreatedSelect([Created(n, size), Issued(CqCreated(nn, n))], [Issued(SqCreated(nn, n))],
                  NextEvents(nn, n), SqFinish(nn, n) + [Destroyed(n)], rest, k);
  }

  lemma NoSqParts(nn: nat, n: nat, size: nat, k: Kind)
    requires Visited(nn, n)
    ensures Select([Created(n, size), Issued(CqCreated(nn, n))], k) + Select([Issued(SqCreated(nn, n))], k)
            + Select(NextEvents(nn, n), k) + Select(SqFinish(nn, n) + [Destroyed(n)], k)
         == Contribution(nn, n, NoSubmissionQueue, k)
  {
    hide Select, NextEvents, FinishEvents, SqFinish;
    NextSelect(nn, n, k);
    QueuesSelect(nn, n, size, k);
    SelectAppend(SqFinish(nn, n), [Destroyed(n)], k);
  }

  lemma {:induction false} ReadySelect(nn: nat, n: nat, size: nat, rest: seq<Event>, k: Kind)
    requires Visited(nn, n)
    ensures Select(LoopStep(nn, n, Ready, size, rest), k) == Contribution(nn, n, Ready, k) + Select(rest, k)
  {
    hide Select, NextEvents, FinishEvents, SqFinish, Contribution;
    ReadyParts(nn, n, size, k);
    CreatedSelect([Created(n, size), Issued(CqCreated(nn, n))], [Issued(SqCreated(nn, n))],
                  NextEvents(nn, n), [Announced(n)] + SqFinish(nn, n), rest, k);
  }

  lemma ReadyParts(nn: nat, n: nat, size: nat, k: Kind)
    requires Visited(nn, n)
    ensures Select([Created(n, size), Issued(CqCreated(nn, n))], k) + Select([Issued(SqCreated(nn, n))], k)
            + Select(NextEvents(nn, n), k) + Select([Announced(n)] + SqFinish(nn, n), k)
         == Contribution(nn, n, Ready, k)
  {
    hide Select, NextEvents, FinishEvents, SqFinish;
    NextSelect(nn, n, k);
    QueuesSelect(nn, n, size, k);
    SelectAppend([Announced(n)], SqFinish(nn, n), k);
  }

  lemma {:induction false} CreatedSelect(a: seq<Event>, b: seq<Event>, c: seq<Event>, d: seq<Event>, e: seq<Event>,
                                         k: Kind)
    ensures Select(a + (b + (c + d + e)), k)
         == (Select(a, k) + Select(b, k) + Select(c, k) + Select(d, k)) + Select(e, k)
  {
    hide Select;
    SelectAppend(a, b + (c + d + e), k);
    SelectAppend(b, c + d + e, k);
    SelectAppend(c + d, e, k);
    SelectAppend(c, d, k);
  }

  /** The set-ups that leave an object behind, at least for a while. */
  const MADE: set<Outcome> := {NoCompletionQueue, NoSubmissionQueue, Ready, Fatal}

  /** What the loop from `n` on must have done: the identifiers visited after `n` are
      identified in order, a namespace is created unless skipped, announced when ready,
      destroyed when a queue failed, and the loop is over once, unless it was stopped, or
      there was nothing to visit but `n` was visited and its completion queue created. */
  function Expected(nn: nat, n: nat, outcomes: seq<Outcome>, k: Kind): seq<nat>
    requires outcomes != []
  {
    match k
    case Identification => UpTo(n + 1, n + |outcomes| - 1)
    case Creation => Chosen(n, outcomes, MADE)
    case Announcement => Chosen(n, outcomes, {Ready})
    case Destruction => Chosen(n, outcomes, {NoCompletionQueue, NoSubmissionQueue})
    case Completion =>
      if outcomes[|outcomes| - 1] == Fatal || (n > nn && outcomes[0] in {NoSubmissionQueue, Ready}) then [] else [0]
  }

  lemma {:induction false} ExpectedStep(nn: nat, n: nat, outcomes: seq<Outcome>, k: Kind)
    requires Visited(nn, n) && outcomes != [] && (|outcomes| > 1 <==> GoesOn(nn, n, outcomes[0]))
    ensures Expected(nn, n, outcomes, k)
         == Contribution(nn, n, outcomes[0], k)
            + if GoesOn(nn, n, outcomes[0]) then Expected(nn, n + 1, outcomes[1..], k) else []
  {
    hide Chosen, UpTo;
    match k
    case Identification => UpToUnfold(n + 1, n + |outcomes| - 1);
    case Creation => CreationStep(nn, n, outcomes);
    case Announcement => ChosenUnfold(n, outcomes, {Ready});
    case Destruction => ChosenUnfold(n, outcomes, {NoCompletionQueue, NoSubmissionQueue});
    case Completion => CompletionStep(nn, n, outcomes);
  }

  lemma UpToUnfold(n: nat, nn: nat)
    requires n <= nn + 1
    ensures UpTo(n, nn) == if n > nn then [] else [n] + UpTo(n + 1, nn)
  {
  }

  lemma {:induction false} CreationStep(nn: nat, n: nat, outcomes: seq<Outcome>)
    requires Visited(nn, n) && outcomes != [] && (|outcomes| > 1 <==> GoesOn(nn, n, outcomes[0]))
    ensures Expected(nn, n, outcomes, Creation)
         == Contribution(nn, n, outcomes[0], Creation)
            + if GoesOn(nn, n, outcomes[0]) then Expected(nn, n + 1, outcomes[1..], Creation) else []
  {
    hide Chosen, UpTo;
    ChosenUnfold(n, outcomes, MADE);
    var o := outcomes[0];
    assert o.Skipped? || o.NoCompletionQueue? || o.NoSubmissionQueue? || o.Ready? || o.Fatal?;
  }

  lemma {:induction false} CompletionStep(nn: nat, n: nat, outcomes: seq<Outcome>)
    requires Visited(nn, n) && outcomes != [] && (|outcomes| > 1 <==> GoesOn(nn, n, outcomes[0]))
    ensures Expected(nn, n, outcomes, Completion)
         == Contribution(nn, n, outcomes[0], Completion)
            + if GoesOn(nn, n, outcomes[0]) then Expected(nn, n + 1, outcomes[1..], Completion) else []
  {
    hide Chosen, UpTo;
  }

  lemma {:induction false} LoopSelect(nn: nat, n: nat, outcomes: seq<Outcome>, sizes: seq<nat>, k: Kind)
    requires Visited(nn, n) && Fitting(nn, n, outcomes) && |sizes| == |outcomes|
    ensures Select(Loop(nn, n, outcomes, sizes), k) == Expected(nn, n, outcomes, k)
    decreases |outcomes|
  {
    hide Select, LoopStep, Expected, Contribution;
    var o := outcomes[0];
    StepSelect(nn, n, o, sizes[0],
               if GoesOn(nn, n, o) then Loop(nn, n + 1, outcomes[1..], sizes[1..]) else [], k);
    ExpectedStep(nn, n, outcomes, k);
    SelectNone(k);
    if GoesOn(nn, n, o) {
      LoopSelect(nn, n + 1, outcomes[1..], sizes[1..], k);
    }
  }

  /** The loop visits all identifiers, or stops at a fatal one. */
  lemma {:induction false} FittingLength(nn: nat, n: nat, outcomes: seq<Outcome>)
    requires Visited(nn, n) && Fitting(nn, n, outcomes)
    ensures Fatal !in outcomes[..|outcomes| - 1]
    ensures outcomes[|outcomes| - 1] != Fatal ==> |outcomes| == if n < nn then nn - n + 1 else 1
    ensures |outcomes| <= if n < nn then nn - n + 1 else 1
    decreases |outcomes|
  {
    if GoesOn(nn, n, outcomes[0]) {
      var rest := outcomes[1..];
      FittingLength(nn, n + 1, rest);
      assert outcomes[..|outcomes| - 1] == [outcomes[0]] + rest[..|rest| - 1];
    }
  }

  // ---------------------------------------------------------------------
  // Which namespaces are accepted
  // ---------------------------------------------------------------------

  /** A namespace is not skipped if and only if it was identified, is active, and the low four
      bits of `flbas` select a format that exists, has no metadata, and a sector size from 512
      on that a 64-bit number can hold; that is the sector size it is created with. */
  lemma {:induction false} AcceptedExactly(n: nat, rs: seq<Response>)
    ensures FirstOutcome(n, rs) != Skipped <==>
              && rs != [] && rs[0].status == 0 && rs[0].ns.nsze > 0
              && var d, f := rs[0].ns, rs[0].ns.flbas % 16;
                 && f <= d.nlbaf && f < |d.lbaf| && d.lbaf[f] % 0x1_0000 == 0
                 && 512 <= Pow2(d.lbaf[f] / 0x1_0000 % 0x100) < 0x1_0000_0000_0000_0000
    ensures FirstOutcome(n, rs) != Skipped ==>
              var d, f := rs[0].ns, rs[0].ns.flbas % 16;
              FirstSize(rs) == Pow2(d.lbaf[f] / 0x1_0000 % 0x100)
  {
    if rs != [] && rs[0].ns.flbas % 16 < |rs[0].ns.lbaf| {
      var lbads := rs[0].ns.lbaf[rs[0].ns.flbas % 16] / 0x1_0000 % 0x100;
      Pow2Values();
      Pow2Monotone(8, lbads);
      Pow2Monotone(lbads, 9);
      Pow2Monotone(lbads, 64);
    }
  }

  /** An active namespace with sectors of two to the power of `lbads` bytes and `metadata`. */
  function Formatted(lbads: nat, metadata: nat): NsData
  {
    NsData(1, 0, 0, [lbads * 0x1_0000 + metadata])
  }

  /** Sectors of 512 and 4096 bytes and of 4 MiB are accepted; ones of 256 bytes, formats with
      metadata and inactive namespaces are skipped. */
  lemma AcceptedSizes(n: nat)
    ensures var rs := [Response(0, 0, Formatted(9, 0))]; FirstOutcome(n, rs) != Skipped && FirstSize(rs) == 512
    ensures var rs := [Response(0, 0, Formatted(12, 0))]; FirstOutcome(n, rs) != Skipped && FirstSize(rs) == 4096
    ensures var rs := [Response(0, 0, Formatted(22, 0))];
            FirstOutcome(n, rs) != Skipped && FirstSize(rs) == 4 * 1024 * 1024
    ensures FirstOutcome(n, [Response(0, 0, Formatted(8, 0))]) == Skipped
    ensures FirstOutcome(n, [Response(0, 0, Formatted(12, 8))]) == Skipped
    ensures FirstOutcome(n, [Response(0, 0, INACTIVE)]) == Skipped
  {
    hide Pow2;
    Pow2Values();
  }

  /** Whatever the device answers, every namespace object is created with such a size. */
  lemma {:induction false} CreatedSizes(pending: Option<Callback>, rs: seq<Response>)
    ensures forall e <- Play(pending, rs).events :: e.Created? ==> 512 <= e.size < 0x1_0000_0000_0000_0000
    decreases |rs|
  {
    hide Play, Script, Events, IssuedBy, Pow2;
    if rs == [] || pending.None? {
      PlayEmpty(pending, rs);
    } else {
      PlayUnfold(pending.value, rs);
      ScriptSizes(pending.value, rs[0]);
      CreatedSizes(IssuedBy(Script(pending.value, rs[0])), rs[1..]);
    }
  }

  lemma {:induction false} PlayEmpty(pending: Option<Callback>, rs: seq<Response>)
    requires rs == [] || pending.None?
    ensures Play(pending, rs).events == []
  {
  }

  lemma ScriptSizes(cb: Callback, r: Response)
    ensures forall e <- Events(Script(cb, r)) :: e.Created? ==> 512 <= e.size < 0x1_0000_0000_0000_0000
  {
    hide Events, IssuedBy, IssueCommand, GoOn, LbaSize, Usable;
    EventsOfNothing();
    match cb
    case ControllerIdentified => FirstCommand(r);
    case NamespaceIdentified(nn, n) =>
      GoOnEvents(nn, n, Finished);
      UsableEvents(nn, n, LbaSize(r.ns));
      StopEvents(n, LbaSize(r.ns));
      UsableSize(n, r);
    case CqCreated(nn, n) =>
      GoOnEvents(nn, n, Destroyed(n));
      EventsOfOne(SqCreated(nn, n), Finished);
    case SqCreated(nn, n) => SqEvents(nn, n, r);
    case _ =>
  }

  lemma UsableSize(n: nat, r: Response)
    ensures r.status == 0 && Usable(r.ns) ==> 512 <= LbaSize(r.ns) < 0x1_0000_0000_0000_0000
  {
    AcceptedExactly(n, [r]);
  }

  // ---------------------------------------------------------------------
  // Whole identifications
  // ---------------------------------------------------------------------

  /** From the first admin command to the last completion. */
  function Identify(rs: seq<Response>): Progress
  {
    Play(Some(ControllerIdentified), rs)
  }

  /** The trace of an identification whose Identify Controller command succeeded is
      the reference loop over all namespaces. */
  lemma {:induction false} IdentifyIsALoop(rs: seq<Response>)
    requires rs != [] && rs[0].status == 0 && rs[0].nn < NSID_ALL && Identify(rs).pending.None?
    ensures Identify(rs).events == [Issued(NamespaceIdentified(rs[0].nn, 1))]
                                   + Loop(rs[0].nn, 1, Outcomes(rs[0].nn, 1, rs[1..]), Sizes(rs[0].nn, 1, rs[1..]))
  {
    var nn := rs[0].nn;
    hide Play, Events, IssuedBy, IssueCommand;
    PlayUnfold(ControllerIdentified, rs);
    EventsOfOne(NamespaceIdentified(nn, 1), Finished);
    CallbacksAreALoop(nn, 1, rs[1..]);
  }

  /** The last identifier the loop is to visit. */
  function LastNsid(nn: nat): nat { if nn == 0 then 1 else nn }

  /** How the set-ups of an identification end. */
  function AllOutcomes(rs: seq<Response>): (r: seq<Outcome>)
    requires rs != []
    ensures r != []
  {
    Outcomes(rs[0].nn, 1, rs[1..])
  }

  /** The controller reported no namespaces, but its namespace 1 was usable and got its
      completion queue. */
  predicate Strands(rs: seq<Response>)
  {
    rs != [] && rs[0].status == 0 && rs[0].nn == 0 && FirstOutcome(1, rs[1..]) in {NoSubmissionQueue, Ready}
  }

  /** A namespace whose number is too large for a queue was usable; or the count of
      namespaces wraps around, so that the loop ends in no other way. */
  predicate Stops(rs: seq<Response>)
  {
    rs != [] && rs[0].status == 0 && (rs[0].nn >= NSID_ALL || Fatal in AllOutcomes(rs))
  }

  /** Every NSID is identified once, in increasing order, and NSID 1 even when none is
      reported; the namespaces announced are those whose format is usable and whose two
      queues were created; those whose queue creation failed are destroyed; the
      completion callback runs once, or never when stranded or stopped. */
  lemma {:induction false} IdentificationOutcome(rs: seq<Response>)
    requires rs != [] && rs[0].status == 0 && rs[0].nn < NSID_ALL && Identify(rs).pending.None?
    ensures var outcomes, events := AllOutcomes(rs), Identify(rs).events;
            && |outcomes| <= LastNsid(rs[0].nn) && (!Stops(rs) ==> |outcomes| == LastNsid(rs[0].nn))
            && Fatal !in outcomes[..|outcomes| - 1]
            && Select(events, Identification) == UpTo(1, |outcomes|)
            && Select(events, Creation) == Chosen(1, outcomes, MADE)
            && Select(events, Announcement) == Chosen(1, outcomes, {Ready})
            && Select(events, Destruction) == Chosen(1, outcomes, {NoCompletionQueue, NoSubmissionQueue})
            && Select(events, Completion) == if Strands(rs) || Stops(rs) then [] else [0]
  {
    hide Identify, AllOutcomes, Select, Chosen, FirstOutcome;
    OutcomesFit(rs);
    KindOutcome(rs, Identification);
    KindOutcome(rs, Creation);
    KindOutcome(rs, Announcement);
    KindOutcome(rs, Destruction);
    KindOutcome(rs, Completion);
  }

  lemma {:induction false} OutcomesFit(rs: seq<Response>)
    requires rs != [] && rs[0].status == 0 && rs[0].nn < NSID_ALL
    ensures var outcomes := AllOutcomes(rs);
            && outcomes[0] == FirstOutcome(1, rs[1..])
            && |outcomes| <= LastNsid(rs[0].nn) && (!Stops(rs) ==> |outcomes| == LastNsid(rs[0].nn))
            && Fatal !in outcomes[..|outcomes| - 1]
            && (Fatal in outcomes <==> outcomes[|outcomes| - 1] == Fatal)
  {
    hide FirstOutcome;
    FittingLength(rs[0].nn, 1, AllOutcomes(rs));
    FatalIsLast(AllOutcomes(rs));
  }

  lemma {:induction false} FatalIsLast(outcomes: seq<Outcome>)
    requires outcomes != [] && Fatal !in outcomes[..|outcomes| - 1]
    ensures Fatal in outcomes <==> outcomes[|outcomes| - 1] == Fatal
  {
    assert outcomes == outcomes[..|outcomes| - 1] + [outcomes[|outcomes| - 1]];
  }

  /** Namespace by namespace: announced if and only if ready, destroyed if and only if a
      queue of it failed. */
  lemma {:induction false} EachNamespace(rs: seq<Response>, n: nat)
    requires rs != [] && rs[0].status == 0 && rs[0].nn < NSID_ALL && Identify(rs).pending.None?
    ensures var outcomes, events := AllOutcomes(rs), Identify(rs).events;
            && (n in Select(events, Announcement) <==> 1 <= n <= |outcomes| && outcomes[n - 1] == Ready)
            && (n in Select(events, Destruction) <==>
                  1 <= n <= |outcomes| && outcomes[n - 1] in {NoCompletionQueue, NoSubmissionQueue})
            && (n in Select(events, Creation) <==> 1 <= n <= |outcomes| && outcomes[n - 1] != Skipped)
  {
    hide Identify, Select, Chosen, Outcomes;
    IdentificationOutcome(rs);
    var outcomes := AllOutcomes(rs);
    ChosenExactly(1, outcomes, {Ready}, n);
    ChosenExactly(1, outcomes, {NoCompletionQueue, NoSubmissionQueue}, n);
    ChosenExactly(1, outcomes, MADE, n);
    if 1 <= n <= |outcomes| {
      var o := outcomes[n - 1];
      assert o.Skipped? || o.NoCompletionQueue? || o.NoSubmissionQueue? || o.Ready? || o.Fatal?;
    }
  }

  lemma {:induction false} KindOutcome(rs: seq<Response>, k: Kind)
    requires rs != [] && rs[0].status == 0 && rs[0].nn < NSID_ALL && Identify(rs).pending.None?
    ensures Select(Identify(rs).events, k)
         == (if k == Identification then [1] else []) + Expected(rs[0].nn, 1, AllOutcomes(rs), k)
  {
    var nn := rs[0].nn;
    var outcomes, sizes := Outcomes(nn, 1, rs[1..]), Sizes(nn, 1, rs[1..]);
    hide Identify, Loop, Outcomes, Sizes, Select, Expected;
    IdentifyIsALoop(rs);
    LoopSelect(nn, 1, outcomes, sizes, k);
    SelectAppend([Issued(NamespaceIdentified(nn, 1))], Loop(nn, 1, outcomes, sizes), k);
    SelectOne(Issued(NamespaceIdentified(nn, 1)), k);
  }

  lemma {:induction false} ChosenUnion(n: nat, outcomes: seq<Outcome>, a: set<Outcome>, b: set<Outcome>)
    requires a !! b
    ensures multiset(Chosen(n, outcomes, a + b)) == multiset(Chosen(n, outcomes, a)) + multiset(Chosen(n, outcomes, b))
    decreases |outcomes|
  {
    if outcomes == [] {
    } else {
      hide Chosen;
      ChosenUnfold(n, outcomes, a);
      ChosenUnfold(n, outcomes, b);
      ChosenUnfold(n, outcomes, a + b);
      ChosenUnion(n + 1, outcomes[1..], a, b);
    }
  }

  lemma {:induction false} ChosenPartition(n: nat, outcomes: seq<Outcome>)
    ensures multiset(Chosen(n, outcomes, MADE))
         == multiset(Chosen(n, outcomes, {Ready}))
            + multiset(Chosen(n, outcomes, {NoCompletionQueue, NoSubmissionQueue}))
            + multiset(Chosen(n, outcomes, {Fatal}))
    ensures Fatal !in outcomes ==> Chosen(n, outcomes, {Fatal}) == []
  {
    hide Chosen;
    var queues := {NoCompletionQueue, NoSubmissionQueue};
    ChosenUnion(n, outcomes, {Ready}, queues);
    ChosenUnion(n, outcomes, {Ready} + queues, {Fatal});
    assert {Ready} + queues + {Fatal} == MADE;
    if Fatal !in outcomes {
      NoneChosen(n, outcomes, Fatal);
    }
  }

  lemma {:induction false} NoneChosen(n: nat, outcomes: seq<Outcome>, o: Outcome)
    requires o !in outcomes
    ensures Chosen(n, outcomes, {o}) == []
    decreases |outcomes|
  {
    if outcomes == [] {
    } else {
      NoneChosen(n + 1, outcomes[1..], o);
    }
  }

  /** Every namespace object created is announced or destroyed, exactly once and never
      both: creations are distinct and are the disjoint sum of the other two, but for the
      one object at which the driver stops, if it does. */
  lemma {:induction false} NamespacesHaveOneOwner(rs: seq<Response>)
    requires rs != [] && rs[0].status == 0 && rs[0].nn < NSID_ALL && Identify(rs).pending.None?
    ensures var events := Identify(rs).events;
            && multiset(Select(events, Creation))
               == multiset(Select(events, Announcement)) + multiset(Select(events, Destruction))
                  + multiset(Chosen(1, AllOutcomes(rs), {Fatal}))
            && (!Stops(rs) ==> Chosen(1, AllOutcomes(rs), {Fatal}) == [])
            && forall i, j :: 0 <= i < j < |Select(events, Creation)| ==>
                 Select(events, Creation)[i] < Select(events, Creation)[j]
  {
    hide Identify, Select, AllOutcomes;
    IdentificationOutcome(rs);
    ChosenPartition(1, AllOutcomes(rs));
  }

  // ---------------------------------------------------------------------
  // Termination
  // ---------------------------------------------------------------------

  /** Callbacks of the loop proper, with their identifiers in range. */
  predicate Inner(cb: Callback)
  {
    match cb
    case NamespaceIdentified(nn, n) => InnerAt(nn, n)
    case CqCreated(nn, n) => InnerAt(nn, n) && n < TWO16
    case SqCreated(nn, n) => InnerAt(nn, n) && n < TWO16
    case _ => false
  }

  predicate InnerAt(nn: nat, n: nat)
  {
    Visited(nn, n) || (nn == NSID_ALL && n < TWO32)
  }

  /** The count of namespaces is a 32-bit number. */
  predicate Answers(cb: Callback, r: Response)
  {
    Inner(cb) || (cb.ControllerIdentified? && (r.status == 0 ==> r.nn < TWO32))
  }

  function Remaining(cb: Callback): nat
    requires Inner(cb)
  {
    if cb.n < cb.nn then cb.nn - cb.n else 0
  }

  function Stage(cb: Callback): nat
    requires Inner(cb)
  {
    match cb
    case NamespaceIdentified(_, _) => 3
    case CqCreated(_, _) => 2
    case SqCreated(_, _) => 1
  }

  /** One `Finished`, and nothing but destruction after it. */
  predicate EndsOnce(events: seq<Event>)
  {
    events != [] && if events[0] == Finished then forall e <- events[1..] :: e.Destroyed? else EndsOnce(events[1..])
  }

  lemma {:induction false} EndsOnceAppend(a: seq<Event>, b: seq<Event>)
    requires Finished !in a && EndsOnce(b)
    ensures EndsOnce(a + b)
  {
    if a == [] {
      assert a + b == b;
    } else {
      assert (a + b)[0] == a[0] && (a + b)[1..] == a[1..] + b;
      EndsOnceAppend(a[1..], b);
    }
  }

  lemma {:induction false} EndsOnceNow(events: seq<Event>)
    requires events != [] && events[0] == Finished && forall i :: 0 < i < |events| ==> events[i].Destroyed?
    ensures EndsOnce(events)
  {
  }

  /** Issuing a command without finishing, lexicographically closer to the end (remaining
      identifiers, then stage) unless the count wraps around; or finishing once. The
      callback of Create I/O Submission Queue does neither past the last identifier, nor
      does the one that an assertion stops. */
  ghost predicate Progresses(cb: Callback, issued: Option<Callback>, events: seq<Event>)
  {
    match issued
    case Some(next) =>
      && Inner(next) && Finished !in events && Stopped !in events
      && (Inner(cb) ==> next.nn == cb.nn)
      && (Inner(cb) && cb.nn != NSID_ALL ==>
            Remaining(next) < Remaining(cb) || (Remaining(next) == Remaining(cb) && Stage(next) < Stage(cb)))
    case None =>
      && (Stopped in events ==> Finished !in events)
      && (Stopped !in events ==> if cb.SqCreated? && cb.n > cb.nn then Finished !in events else EndsOnce(events))
  }

  lemma SqProgress(nn: nat, n: nat, r: Response)
    requires Inner(SqCreated(nn, n))
    ensures var script := Script(SqCreated(nn, n), r);
            Progresses(SqCreated(nn, n), IssuedBy(script), Events(script))
  {
    hide Events, IssuedBy, IssueCommand, EndsOnce, Script;
    SqEvents(nn, n, r);
    if n == nn {
      EndsOnceNow([Finished]);
      EndsOnceNow([Finished, Destroyed(n)]);
      EndsOnceAppend([Announced(n)], [Finished]);
      assert [] + ([Finished] + [Destroyed(n)]) == [Finished, Destroyed(n)];
      assert [] + ([Announced(n)] + [Finished]) == [Announced(n)] + [Finished];
    }
  }

  lemma GoOnProgress(cb: Callback, nn: nat, n: nat)
    requires Inner(cb) && !cb.SqCreated? && cb.nn == nn && cb.n == n
    ensures Progresses(cb, IssuedBy(GoOn(nn, n)), Events(GoOn(nn, n)))
    ensures Progresses(cb, IssuedBy(GoOn(nn, n) + [Emit(Destroyed(n))]), Events(GoOn(nn, n) + [Emit(Destroyed(n))]))
  {
    hide Events, IssuedBy, IssueCommand, EndsOnce, GoOn;
    GoOnEvents(nn, n, Destroyed(n));
    if Next32(n) > nn {
      EndsOnceNow([Finished]);
      EndsOnceNow([Finished, Destroyed(n)]);
      assert [] + [Finished] == [Finished];
      assert [] + [Finished] + [Destroyed(n)] == [Finished, Destroyed(n)];
    }
  }

  /** One callback's progress through the loop. */
  lemma CallbackProgress(cb: Callback, r: Response)
    requires Answers(cb, r)
    ensures var script := Script(cb, r);
            Progresses(cb, IssuedBy(script), Events(script))
  {
    hide Events, IssuedBy, IssueCommand, GoOn, Usable, EndsOnce;
    match cb
    case ControllerIdentified =>
      EventsOfOne(NamespaceIdentified(r.nn, 1), Finished);
      EndsOnceNow([Finished]);
    case NamespaceIdentified(nn, n) =>
      GoOnProgress(cb, nn, n);
      UsableEvents(nn, n, LbaSize(r.ns));
      StopEvents(n, LbaSize(r.ns));
    case CqCreated(nn, n) =>
      GoOnProgress(cb, nn, n);
      EventsOfOne(SqCreated(nn, n), Finished);
    case SqCreated(nn, n) =>
      SqProgress(nn, n, r);
  }

  /** While a command is in flight the identification has neither finished nor stopped;
      when none is, it has finished exactly once and only destroys objects afterwards, or
      has not finished. */
  lemma {:induction false} FinishedWhenIdle(cb: Callback, rs: seq<Response>)
    requires rs != [] ==> Answers(cb, rs[0])
    requires rs == [] ==> Inner(cb) || cb.ControllerIdentified?
    ensures var p := Play(Some(cb), rs);
            match p.pending
            case Some(next) => Finished !in p.events && Stopped !in p.events && (Inner(next) || next == cb)
            case None => EndsOnce(p.events) || Finished !in p.events
    decreases |rs|
  {
    hide Play, Script, Events, IssuedBy, EndsOnce;
    if rs == [] {
      PlayNothing(Some(cb));
    } else {
      var script := Script(cb, rs[0]);
      PlayUnfold(cb, rs);
      CallbackProgress(cb, rs[0]);
      match IssuedBy(script)
      case Some(next) =>
        FinishedWhenIdle(next, rs[1..]);
        var rest := Play(Some(next), rs[1..]);
        if rest.pending.None? && EndsOnce(rest.events) {
          EndsOnceAppend(Events(script), rest.events);
        }
      case None =>
        PlayStops(rs[1..]);
        assert Events(script) + [] == Events(script);
    }
  }

  /** Identify Controller leads to the first namespace, or to the end. */
  lemma FirstCommand(r: Response)
    ensures IssuedBy(Script(ControllerIdentified, r))
         == if r.status == 0 then Some(NamespaceIdentified(r.nn, 1)) else None
    ensures Events(Script(ControllerIdentified, r))
         == if r.status == 0 then [Issued(NamespaceIdentified(r.nn, 1))] else [Finished]
  {
    hide Events, IssuedBy, IssueCommand;
    EventsOfOne(NamespaceIdentified(r.nn, 1), Finished);
  }

  /** The measure bounds the number of admin commands: three for each identifier. */
  lemma {:induction false} ResponsesSuffice(cb: Callback, rs: seq<Response>)
    requires Inner(cb) && cb.nn != NSID_ALL && |rs| >= 3 * Remaining(cb) + Stage(cb)
    ensures Play(Some(cb), rs).pending.None?
    decreases |rs|
  {
    hide Play, Script, Events, IssuedBy, EndsOnce;
    PlayUnfold(cb, rs);
    CallbackProgress(cb, rs[0]);
    match IssuedBy(Script(cb, rs[0]))
    case Some(next) => ResponsesSuffice(next, rs[1..]);
    case None => PlayStops(rs[1..]);
  }

  /** An identification with `last` identifiers to visit is over after at most 3 * last + 1
      completions. */
  lemma {:induction false} IdentificationEnds(rs: seq<Response>)
    requires rs != [] && (rs[0].status == 0 ==> rs[0].nn < NSID_ALL && |rs| > 3 * LastNsid(rs[0].nn))
    ensures Identify(rs).pending.None?
    ensures EndsOnce(Identify(rs).events) <==> !Strands(rs) && !Stops(rs)
    ensures rs[0].status != 0 ==> Identify(rs).events == [Finished]
  {
    hide Play, Script, Events, IssuedBy, EndsOnce, Strands, Stops;
    PlayUnfold(ControllerIdentified, rs);
    FirstCommand(rs[0]);
    if rs[0].status == 0 {
      ResponsesSuffice(NamespaceIdentified(rs[0].nn, 1), rs[1..]);
    } else {
      PlayStops(rs[1..]);
    }
    EndsUnlessStranded(rs);
  }

  // ---------------------------------------------------------------------
  // When the completion callback runs
  // ---------------------------------------------------------------------

  /** A complete identification runs its completion callback exactly once if and only if
      it is neither stranded nor stopped; else it never does. */
  lemma {:induction false} EndsUnlessStranded(rs: seq<Response>)
    requires rs != [] && Answers(ControllerIdentified, rs[0]) && Identify(rs).pending.None?
    ensures EndsOnce(Identify(rs).events) <==> !Strands(rs) && !Stops(rs)
    ensures Finished in Identify(rs).events <==> !Strands(rs) && !Stops(rs)
  {
    hide Play, EndsOnce, FirstOutcome, Outcomes, Script, Events, IssuedBy;
    FinishedWhenIdle(ControllerIdentified, rs);
    EndsOnceHasFinished(Identify(rs).events);
    PlayUnfold(ControllerIdentified, rs);
    FirstCommand(rs[0]);
    if rs[0].status != 0 {
      PlayStops(rs[1..]);
    } else if rs[0].nn == NSID_ALL {
      BroadcastCountNeverEnds(NamespaceIdentified(NSID_ALL, 1), rs[1..]);
    } else {
      IdentificationOutcome(rs);
      SelectsCompletion(Identify(rs).events);
    }
  }

  /** The loop is stopped if and only if an outcome is fatal. */
  lemma {:induction false} LoopStopped(nn: nat, n: nat, outcomes: seq<Outcome>, sizes: seq<nat>)
    requires Fitting(nn, n, outcomes) && |sizes| == |outcomes|
    ensures Stopped in Loop(nn, n, outcomes, sizes) <==> Fatal in outcomes
    decreases |outcomes|
  {
    var o := outcomes[0];
    if GoesOn(nn, n, o) {
      LoopStopped(nn, n + 1, outcomes[1..], sizes[1..]);
    }
  }

  /** A complete identification has been stopped by the assertion if and only if `Stops`
      says so of the answers. */
  lemma {:induction false} StoppedExactly(rs: seq<Response>)
    requires rs != [] && Answers(ControllerIdentified, rs[0]) && Identify(rs).pending.None?
    ensures Stopped in Identify(rs).events <==> Stops(rs)
  {
    hide Play, Loop, Outcomes, Script, Events, IssuedBy;
    PlayUnfold(ControllerIdentified, rs);
    FirstCommand(rs[0]);
    if rs[0].status != 0 {
      PlayStops(rs[1..]);
    } else if rs[0].nn == NSID_ALL {
      BroadcastCountNeverEnds(NamespaceIdentified(NSID_ALL, 1), rs[1..]);
    } else {
      IdentifyIsALoop(rs);
      LoopStopped(rs[0].nn, 1, Outcomes(rs[0].nn, 1, rs[1..]), Sizes(rs[0].nn, 1, rs[1..]));
    }
  }

  lemma {:induction false} SelectsCompletion(events: seq<Event>)
    ensures Select(events, Completion) == [] <==> Finished !in events
  {
    if events == [] {
    } else {
      SelectsCompletion(events[1..]);
    }
  }

  /** With no namespaces reported, NSID 1 is identified all the same; once its completion
      queue is created, nothing runs the completion callback any more. */
  lemma {:induction false} NoNamespaces(rs: seq<Response>)
    requires rs != [] && rs[0].status == 0 && rs[0].nn == 0 && Identify(rs).pending.None?
    ensures Finished in Identify(rs).events <==> FirstOutcome(1, rs[1..]) in {Skipped, NoCompletionQueue}
  {
    hide Play, EndsOnce, FirstOutcome, Identify;
    EndsUnlessStranded(rs);
    NoneFatal(0, 1, rs[1..]);
    var o := FirstOutcome(1, rs[1..]);
    assert AllOutcomes(rs)[0] == o;
    assert o.Skipped? || o.NoCompletionQueue? || o.NoSubmissionQueue? || o.Ready? || o.Fatal?;
  }

  /** A usable namespace with 512-byte blocks, an inactive one, and a device that accepts
      every command. */
  const PLAIN := NsData(1, 0, 0, [9 * TWO16])
  const INACTIVE := NsData(0, 0, 0, [])
  const ACCEPTING := [Response(0, 0, PLAIN), Response(0, 0, PLAIN), Response(0, 0, PLAIN), Response(0, 0, PLAIN)]

  lemma NeverFinishes()
    ensures Identify(ACCEPTING).pending.None? && Finished !in Identify(ACCEPTING).events
  {
    hide Play, Events, IssuedBy, IssueCommand, GoOn;
    PlayUnfold(ControllerIdentified, ACCEPTING);
    EventsOfOne(NamespaceIdentified(0, 1), Finished);
    PlayUnfold(NamespaceIdentified(0, 1), ACCEPTING[1..]);
    UsableEvents(0, 1, LbaSize(PLAIN));
    PlayUnfold(CqCreated(0, 1), ACCEPTING[1..][1..]);
    EventsOfOne(SqCreated(0, 1), Finished);
    PlayUnfold(SqCreated(0, 1), ACCEPTING[1..][1..][1..]);
    SqEvents(0, 1, ACCEPTING[3]);
    PlayStops(ACCEPTING[1..][1..][1..][1..]);
  }

  /** Only namespace 65536 is usable: the driver stops there. */
  lemma {:induction false} StopsBeyond(nn: nat, n: nat, rs: seq<Response>)
    requires TWO16 <= nn < TWO32 && 1 <= n <= TWO16 && |rs| > TWO16 - n
    requires forall i :: 0 <= i < TWO16 - n ==> rs[i].ns == INACTIVE
    requires rs[TWO16 - n].status == 0 && rs[TWO16 - n].ns == PLAIN
    ensures var p := Play(Some(NamespaceIdentified(nn, n)), rs);
            p.pending.None? && Stopped in p.events && Finished !in p.events
    decreases TWO16 - n
  {
    hide Play, Events, IssuedBy, IssueCommand, GoOn;
    PlayUnfold(NamespaceIdentified(nn, n), rs);
    if n == TWO16 {
      StopEvents(n, LbaSize(rs[0].ns));
      PlayStops(rs[1..]);
    } else {
      assert rs[0].ns == INACTIVE;
      GoOnEvents(nn, n, Finished);
      assert forall i :: 0 <= i < |rs[1..]| ==> rs[1..][i] == rs[i + 1];
      StopsBeyond(nn, n + 1, rs[1..]);
    }
  }

  /** Enough answers for a controller that reports `nn` namespaces. */
  ghost predicate AnswersCount(nn: nat, rs: seq<Response>)
  {
    rs != [] && rs[0].status == 0 && rs[0].nn == nn && |rs| > 3 * LastNsid(nn)
  }

  /** The answers of a controller whose only usable namespace is number 65536. */
  function FarNamespace(nn: nat): (rs: seq<Response>)
    ensures |rs| == 3 * LastNsid(nn) + 1
  {
    seq(3 * LastNsid(nn) + 1, i => Response(0, nn, if i == TWO16 then PLAIN else INACTIVE))
  }

  lemma FarNamespaceStops(nn: nat)
    requires TWO16 <= nn < TWO32
    ensures AnswersCount(nn, FarNamespace(nn)) && Identify(FarNamespace(nn)).pending.None?
    ensures Stopped in Identify(FarNamespace(nn)).events && Finished !in Identify(FarNamespace(nn)).events
  {
    hide Play, Script, Events, IssuedBy;
    var rs := FarNamespace(nn);
    PlayUnfold(ControllerIdentified, rs);
    FirstCommand(rs[0]);
    assert forall i :: 0 <= i < |rs[1..]| ==> rs[1..][i] == rs[i + 1];
    StopsBeyond(nn, 1, rs[1..]);
  }

  /** Whatever the device answers, the completion callback runs exactly once after a bounded
      number of completions: for a 32-bit count of namespaces this holds if and only if
      there are between 1 and 65535. */
  lemma FinishesExactlyWithNamespaces(nn: nat)
    requires nn < TWO32
    ensures (forall rs :: AnswersCount(nn, rs) ==> Identify(rs).pending.None? && EndsOnce(Identify(rs).events))
       <==> 1 <= nn < TWO16
  {
    hide EndsOnce, Play, FirstOutcome, FarNamespace;
    if 1 <= nn < TWO16 {
      forall rs | AnswersCount(nn, rs) ensures Identify(rs).pending.None? && EndsOnce(Identify(rs).events) {
        IdentificationEnds(rs);
        NoneFatal(nn, 1, rs[1..]);
      }
    } else if nn == 0 {
      NeverFinishes();
      assert AnswersCount(0, ACCEPTING);
      EndsOnceHasFinished(Identify(ACCEPTING).events);
    } else {
      FarNamespaceStops(nn);
      EndsOnceHasFinished(Identify(FarNamespace(nn)).events);
    }
  }

  lemma {:induction false} EndsOnceHasFinished(events: seq<Event>)
    ensures EndsOnce(events) ==> Finished in events
  {
    if events == [] {
    } else {
      EndsOnceHasFinished(events[1..]);
    }
  }
}
