/** Controller and namespace identification as the driver's callbacks program it
    (server/src/ctl.cc, server/src/ns.cc), without the queue underneath: what each
    callback does with a response, and the plain loop this amounts to. */
module IdentifyLoop {
  import opened Arithmetic
  import opened Types

  /** What happens, in order: an admin command is issued for a callback, a namespace
      object is created with its sector size, handed to the namespace callback or destroyed, the completion
      callback of the identification runs, or an assertion stops the driver. */
  datatype Event =
    | Issued(cb: Callback)
    | Created(n: nat, size: nat)
    | Announced(n: nat)
    | Destroyed(n: nat)
    | Finished
    | Stopped

  /** The fields of the Identify Namespace data structure that are looked at. */
  datatype NsData = NsData(nsze: nat, nlbaf: nat, flbas: nat, lbaf: seq<nat>)

  /** Status and data with which an admin command completes; `nn` is meaningful for
      Identify Controller, `ns` for Identify Namespace. */
  datatype Response = Response(status: nat, nn: nat, ns: NsData)

  /** The namespace is active and formatted with a supported LBA format. */
  predicate Usable(d: NsData)
  {
    var index := d.flbas % 16;
    && d.nsze != 0 && index <= d.nlbaf && index < |d.lbaf|
    && d.lbaf[index] % TWO16 == 0 && 9 <= (d.lbaf[index] / TWO16) % 0x100 < 64
  }

  /** The sector size of the format in use, two to the power it gives. */
  function LbaSize(d: NsData): nat
  {
    var index := d.flbas % 16;
    if index < |d.lbaf| then Pow2((d.lbaf[index] / TWO16) % 0x100) else 0
  }

  /** `n + 1` on 32-bit unsigned integers. */
  function Next32(n: nat): nat { (n + 1) % TWO32 }

  /** One action of a callback. Issuing a command takes three. */
  datatype Action =
    | Issue(cb: Callback)
    | FillEntry(cb: Callback)
    | Ring
    | Emit(event: Event)

  function IssueCommand(cb: Callback): seq<Action>
  {
    [Issue(cb), FillEntry(cb), Ring]
  }

  /** Going on to the next namespace identifier, or being done. */
  function GoOn(nn: nat, n: nat): seq<Action>
  {
    if Next32(n) <= nn then IssueCommand(NamespaceIdentified(nn, Next32(n))) else [Emit(Finished)]
  }

  /** What the callback of Create I/O Submission Queue does after starting the next one. */
  function SqTail(nn: nat, n: nat, r: Response): seq<Action>
  {
    var finish := if n == nn then [Emit(Finished)] else [];
    if r.status != 0 then finish + [Emit(Destroyed(n))] else [Emit(Announced(n))] + finish
  }

  /** The body of each admin callback. */
  function Script(cb: Callback, r: Response): seq<Action>
  {
    match cb
    case ControllerIdentified =>
      if r.status != 0 then [Emit(Finished)] else IssueCommand(NamespaceIdentified(r.nn, 1))
    case NamespaceIdentified(nn, n) =>
      if r.status != 0 || !Usable(r.ns) then GoOn(nn, n)
      else if n >= TWO16 then [Emit(Created(n, LbaSize(r.ns)))] + [Emit(Stopped)] // asserted by `qid`
      else [Emit(Created(n, LbaSize(r.ns)))] + IssueCommand(CqCreated(nn, n))
    case CqCreated(nn, n) =>
      if r.status != 0 then GoOn(nn, n) + [Emit(Destroyed(n))]
      else IssueCommand(SqCreated(nn, n))
    case SqCreated(nn, n) =>
      (if Next32(n) <= nn then IssueCommand(NamespaceIdentified(nn, Next32(n))) else []) + SqTail(nn, n, r)
    case _ => []
  }

  /** The events of a list of actions. */
  function Events(actions: seq<Action>): seq<Event>
  {
    if actions == [] then []
    else (match actions[0]
          case Issue(cb) => [Issued(cb)]
          case Emit(e) => [e]
          case _ => []) + Events(actions[1..])
  }

  /** The command a list of actions issues, if any. */
  function IssuedBy(actions: seq<Action>): Option<Callback>
  {
    if actions == [] then None
    else match actions[0]
      case Issue(cb) => Some(cb)
      case _ => IssuedBy(actions[1..])
  }

  /** The command waiting for its completion, and what has happened. */
  datatype Progress = Progress(pending: Option<Callback>, events: seq<Event>)

  /** What happens from the moment `pending` has been issued, given the responses. */
  function Play(pending: Option<Callback>, rs: seq<Response>): Progress
    decreases |rs|
  {
    if rs == [] || pending.None? then Progress(pending, [])
    else
      var script := Script(pending.value, rs[0]);
      var rest := Play(IssuedBy(script), rs[1..]);
      Progress(rest.pending, Events(script) + rest.events)
  }

  lemma {:induction false} PlayAppend(pending: Option<Callback>, rs: seq<Response>, r: Response)
    requires Play(pending, rs).pending.Some?
    ensures var before := Play(pending, rs);
            var script := Script(before.pending.value, r);
            Play(pending, rs + [r]) == Progress(IssuedBy(script), before.events + Events(script))
    decreases |rs|
  {
    hide Script, Events, IssuedBy;
    if rs == [] {
      assert (rs + [r])[1..] == [];
      var script := Script(pending.value, r);
      assert Events(script) + [] == Events(script);
    } else {
      assert (rs + [r])[0] == rs[0] && (rs + [r])[1..] == rs[1..] + [r];
      PlayAppend(IssuedBy(Script(pending.value, rs[0])), rs[1..], r);
      var before := Play(pending, rs);
      var script := Script(before.pending.value, r);
      var rest := Play(IssuedBy(Script(pending.value, rs[0])), rs[1..]);
      assert Events(Script(pending.value, rs[0])) + (rest.events + Events(script)) == before.events + Events(script);
    }
  }

  // ---------------------------------------------------------------------
  // Scripts, spelled out
  // ---------------------------------------------------------------------

  lemma EventsOfNothing()
    ensures Events([]) == [] && IssuedBy([]) == None
  {
  }

  lemma {:induction false} EventsAppend(a: seq<Action>, b: seq<Action>)
    ensures Events(a + b) == Events(a) + Events(b)
    ensures IssuedBy(a + b) == if IssuedBy(a).Some? then IssuedBy(a) else IssuedBy(b)
  {
    if a == [] {
      assert a + b == b;
    } else {
      assert (a + b)[0] == a[0] && (a + b)[1..] == a[1..] + b;
      EventsAppend(a[1..], b);
    }
  }

  /** An action list that a callback ends with, and one it issues a command with. */
  lemma EventsOfOne(cb: Callback, e: Event)
    ensures Events(IssueCommand(cb)) == [Issued(cb)] && IssuedBy(IssueCommand(cb)) == Some(cb)
    ensures Events([Emit(e)]) == [e] && IssuedBy([Emit(e)]) == None
  {
    EventsOfNothing();
    var s := IssueCommand(cb);
    assert s[1..] == [FillEntry(cb), Ring] && s[1..][1..] == [Ring] && s[1..][1..][1..] == [];
    assert Events([Ring]) == [];
    assert Events([FillEntry(cb), Ring]) == [];
  }

  /** Where the callbacks go after identifier `n`. */
  function Next(nn: nat, n: nat): Option<Callback>
  {
    if Next32(n) <= nn then Some(NamespaceIdentified(nn, Next32(n))) else None
  }

  function NextEvents(nn: nat, n: nat): seq<Event>
  {
    if Next32(n) <= nn then [Issued(NamespaceIdentified(nn, Next32(n)))] else []
  }

  function FinishEvents(nn: nat, n: nat): seq<Event>
  {
    if Next32(n) <= nn then [] else [Finished]
  }

  /** The last callback compares for equality instead. */
  function SqFinish(nn: nat, n: nat): seq<Event>
  {
    if n == nn then [Finished] else []
  }

  lemma GoOnEvents(nn: nat, n: nat, e: Event)
    ensures Events(GoOn(nn, n)) == NextEvents(nn, n) + FinishEvents(nn, n)
    ensures Events(GoOn(nn, n) + [Emit(e)]) == NextEvents(nn, n) + FinishEvents(nn, n) + [e]
    ensures IssuedBy(GoOn(nn, n)) == IssuedBy(GoOn(nn, n) + [Emit(e)]) == Next(nn, n)
  {
    hide Events, IssuedBy, IssueCommand;
    EventsAppend(GoOn(nn, n), [Emit(e)]);
    EventsOfOne(NamespaceIdentified(nn, Next32(n)), e);
    EventsOfOne(ControllerIdentified, Finished);
  }

  lemma UsableEvents(nn: nat, n: nat, size: nat)
    ensures Events([Emit(Created(n, size))] + IssueCommand(CqCreated(nn, n)))
         == [Created(n, size), Issued(CqCreated(nn, n))]
    ensures IssuedBy([Emit(Created(n, size))] + IssueCommand(CqCreated(nn, n))) == Some(CqCreated(nn, n))
  {
    EventsAppend([Emit(Created(n, size))], IssueCommand(CqCreated(nn, n)));
    EventsOfOne(ControllerIdentified, Created(n, size));
    EventsOfOne(CqCreated(nn, n), Finished);
  }

  lemma StopEvents(n: nat, size: nat)
    ensures Events([Emit(Created(n, size))] + [Emit(Stopped)]) == [Created(n, size), Stopped]
    ensures IssuedBy([Emit(Created(n, size))] + [Emit(Stopped)]) == None
  {
    EventsAppend([Emit(Created(n, size))], [Emit(Stopped)]);
    EventsOfOne(ControllerIdentified, Created(n, size));
    EventsOfOne(ControllerIdentified, Stopped);
  }

  lemma SqTailEvents(nn: nat, n: nat, r: Response)
    ensures Events(SqTail(nn, n, r))
         == if r.status != 0 then SqFinish(nn, n) + [Destroyed(n)] else [Announced(n)] + SqFinish(nn, n)
    ensures IssuedBy(SqTail(nn, n, r)) == None
  {
    hide Events, IssuedBy, IssueCommand;
    var finish := if n == nn then [Emit(Finished)] else [];
    EventsOfNothing();
    EventsOfOne(ControllerIdentified, Finished);
    EventsOfOne(ControllerIdentified, Destroyed(n));
    EventsOfOne(ControllerIdentified, Announced(n));
    if r.status != 0 {
      EventsAppend(finish, [Emit(Destroyed(n))]);
    } else {
      EventsAppend([Emit(Announced(n))], finish);
    }
  }

  lemma SqEvents(nn: nat, n: nat, r: Response)
    ensures Events(Script(SqCreated(nn, n), r))
         == NextEvents(nn, n)
            + if r.status != 0 then SqFinish(nn, n) + [Destroyed(n)] else [Announced(n)] + SqFinish(nn, n)
    ensures IssuedBy(Script(SqCreated(nn, n), r)) == Next(nn, n)
  {
    var next := if Next32(n) <= nn then IssueCommand(NamespaceIdentified(nn, Next32(n))) else [];
    assert Script(SqCreated(nn, n), r) == next + SqTail(nn, n, r);
    hide Events, IssuedBy, IssueCommand, Script, SqTail;
    SqTailEvents(nn, n, r);
    EventsAppend(next, SqTail(nn, n, r));
    EventsOfNothing();
    EventsOfOne(NamespaceIdentified(nn, Next32(n)), Finished);
  }

  // ---------------------------------------------------------------------
  // The loop
  // ---------------------------------------------------------------------

  /** The broadcast namespace identifier. A count as large as that wraps around. */
  const NSID_ALL: nat := 0xFFFF_FFFF

  /** Identifiers the loop visits: `1..nn`, and 1 in any case. */
  predicate Visited(nn: nat, n: nat)
  {
    1 <= n && (n <= nn || n == 1) && nn < NSID_ALL
  }

  lemma VisitedNext(nn: nat, n: nat)
    requires Visited(nn, n)
    ensures Next32(n) == n + 1 && (Next32(n) <= nn <==> n < nn)
    ensures Next(nn, n) == if n < nn then Some(NamespaceIdentified(nn, n + 1)) else None
  {
  }

  /** How the set-up of one namespace ends; the last one stops the driver. */
  datatype Outcome = Skipped | NoCompletionQueue | NoSubmissionQueue | Ready | Fatal

  /** One iteration of the reference loop: `rest` happens once `n + 1` is being identified.
      `size` is the sector size found for `n`. */
  function LoopStep(nn: nat, n: nat, o: Outcome, size: nat, rest: seq<Event>): seq<Event>
  {
    var queues := [Created(n, size), Issued(CqCreated(nn, n))];
    var created := [Issued(SqCreated(nn, n))];
    var next, finish := NextEvents(nn, n), FinishEvents(nn, n);
    match o
    case Skipped => next + finish + rest
    case NoCompletionQueue => queues + (next + finish + [Destroyed(n)] + rest)
    case NoSubmissionQueue => queues + (created + (next + (SqFinish(nn, n) + [Destroyed(n)]) + rest))
    case Ready => queues + (created + (next + ([Announced(n)] + SqFinish(nn, n)) + rest))
    case Fatal => [Created(n, size), Stopped]
  }

  /** Whether the loop goes on after `n`. */
  predicate GoesOn(nn: nat, n: nat, o: Outcome)
  {
    o != Fatal && n < nn
  }

  /** One outcome for each identifier visited from `n` on: up to `nn`, or to a fatal one. */
  predicate Fitting(nn: nat, n: nat, outcomes: seq<Outcome>)
    decreases |outcomes|
  {
    outcomes != [] && if GoesOn(nn, n, outcomes[0]) then Fitting(nn, n + 1, outcomes[1..]) else |outcomes| == 1
  }

  /** The reference: a loop over the namespace identifiers `n..nn` that tests at its end;
      what happens once `n` is being identified, given how each set-up ends and the sector
      size of each namespace. */
  function Loop(nn: nat, n: nat, outcomes: seq<Outcome>, sizes: seq<nat>): seq<Event>
    requires Fitting(nn, n, outcomes) && |sizes| == |outcomes|
    decreases |outcomes|
  {
    LoopStep(nn, n, outcomes[0], sizes[0],
             if GoesOn(nn, n, outcomes[0]) then Loop(nn, n + 1, outcomes[1..], sizes[1..]) else [])
  }

  /** How the set-up of `n` that starts with these responses ends. */
  function FirstOutcome(n: nat, rs: seq<Response>): Outcome
  {
    if |rs| < 1 || rs[0].status != 0 || !Usable(rs[0].ns) then Skipped
    else if n >= TWO16 then Fatal
    else if |rs| < 2 || rs[1].status != 0 then NoCompletionQueue
    else if |rs| < 3 || rs[2].status != 0 then NoSubmissionQueue
    else Ready
  }

  /** The responses one set-up consumes. */
  function Used(o: Outcome): nat
  {
    match o
    case Skipped => 1
    case NoCompletionQueue => 2
    case NoSubmissionQueue => 3
    case Ready => 3
    case Fatal => 1
  }

  function Outcomes(nn: nat, n: nat, rs: seq<Response>): (r: seq<Outcome>)
    ensures Fitting(nn, n, r)
    decreases nn - n
  {
    var o := FirstOutcome(n, rs);
    var rest := if Used(o) <= |rs| then rs[Used(o)..] else [];
    var later := if GoesOn(nn, n, o) then Outcomes(nn, n + 1, rest) else [];
    assert ([o] + later)[1..] == later;
    [o] + later
  }

  /** The sector sizes found for the identifiers visited, 0 where there is no format. */
  function Sizes(nn: nat, n: nat, rs: seq<Response>): (r: seq<nat>)
    ensures |r| == |Outcomes(nn, n, rs)|
    decreases nn - n
  {
    var o := FirstOutcome(n, rs);
    var rest := if Used(o) <= |rs| then rs[Used(o)..] else [];
    [FirstSize(rs)] + if GoesOn(nn, n, o) then Sizes(nn, n + 1, rest) else []
  }

  function FirstSize(rs: seq<Response>): nat
  {
    if rs == [] then 0 else LbaSize(rs[0].ns)
  }

  lemma {:induction false} PlayUnfold(pending: Callback, rs: seq<Response>)
    requires rs != []
    ensures var script := Script(pending, rs[0]);
            var rest := Play(IssuedBy(script), rs[1..]);
            Play(Some(pending), rs) == Progress(rest.pending, Events(script) + rest.events)
  {
  }

  lemma {:induction false} PlayStops(rs: seq<Response>)
    ensures Play(None, rs) == Progress(None, [])
  {
  }

  /** From the creation of the submission queue on. */
  lemma {:induction false} PlaySq(nn: nat, n: nat, rs: seq<Response>)
    requires Play(Some(SqCreated(nn, n)), rs).pending.None?
    ensures rs != [] && Play(Next(nn, n), rs[1..]).pending.None?
    ensures Play(Some(SqCreated(nn, n)), rs).events
         == NextEvents(nn, n) + (if rs[0].status != 0 then SqFinish(nn, n) + [Destroyed(n)]
                                 else [Announced(n)] + SqFinish(nn, n)) + Play(Next(nn, n), rs[1..]).events
  {
    hide Play, Events, IssuedBy, GoOn, IssueCommand, Script;
    PlayNothing(Some(SqCreated(nn, n)));
    PlayUnfold(SqCreated(nn, n), rs);
    SqEvents(nn, n, rs[0]);
  }

  /** From the creation of the completion queue on. */
  lemma {:induction false} PlayCq(nn: nat, n: nat, rs: seq<Response>)
    requires Play(Some(CqCreated(nn, n)), rs).pending.None?
    ensures rs != []
    ensures rs[0].status != 0 ==>
              && Play(Next(nn, n), rs[1..]).pending.None?
              && Play(Some(CqCreated(nn, n)), rs).events
                 == NextEvents(nn, n) + FinishEvents(nn, n) + [Destroyed(n)] + Play(Next(nn, n), rs[1..]).events
    ensures rs[0].status == 0 ==>
              && Play(Some(SqCreated(nn, n)), rs[1..]).pending.None?
              && Play(Some(CqCreated(nn, n)), rs).events
                 == [Issued(SqCreated(nn, n))] + Play(Some(SqCreated(nn, n)), rs[1..]).events
  {
    hide Play, Events, IssuedBy, GoOn, IssueCommand;
    PlayNothing(Some(CqCreated(nn, n)));
    PlayUnfold(CqCreated(nn, n), rs);
    GoOnEvents(nn, n, Destroyed(n));
    EventsOfOne(SqCreated(nn, n), Finished);
  }

  /** From the identification of `n` on. */
  lemma {:induction false} PlayNs(nn: nat, n: nat, rs: seq<Response>)
    requires Play(Some(NamespaceIdentified(nn, n)), rs).pending.None?
    ensures rs != []
    ensures rs[0].status != 0 || !Usable(rs[0].ns) ==>
              && Play(Next(nn, n), rs[1..]).pending.None?
              && Play(Some(NamespaceIdentified(nn, n)), rs).events
                 == NextEvents(nn, n) + FinishEvents(nn, n) + Play(Next(nn, n), rs[1..]).events
    ensures rs[0].status == 0 && Usable(rs[0].ns) && n >= TWO16 ==>
              Play(Some(NamespaceIdentified(nn, n)), rs).events == [Created(n, LbaSize(rs[0].ns)), Stopped]
    ensures rs[0].status == 0 && Usable(rs[0].ns) && n < TWO16 ==>
              && Play(Some(CqCreated(nn, n)), rs[1..]).pending.None?
              && Play(Some(NamespaceIdentified(nn, n)), rs).events
                 == [Created(n, LbaSize(rs[0].ns)), Issued(CqCreated(nn, n))]
                    + Play(Some(CqCreated(nn, n)), rs[1..]).events
  {
    hide Play, Events, IssuedBy, GoOn, IssueCommand, Usable;
    PlayNothing(Some(NamespaceIdentified(nn, n)));
    PlayUnfold(NamespaceIdentified(nn, n), rs);
    GoOnEvents(nn, n, Finished);
    UsableEvents(nn, n, LbaSize(rs[0].ns));
    StopEvents(n, LbaSize(rs[0].ns));
    PlayStops(rs[1..]);
  }

  /** One identifier: its commands, then on to the next. */
  lemma {:induction false} PlayOne(nn: nat, n: nat, rs: seq<Response>)
    requires Play(Some(NamespaceIdentified(nn, n)), rs).pending.None?
    ensures var o := FirstOutcome(n, rs);
            && Used(o) <= |rs|
            && var rest := Play(Next(nn, n), rs[Used(o)..]);
               && (o != Fatal ==> rest.pending.None?)
               && Play(Some(NamespaceIdentified(nn, n)), rs).events == LoopStep(nn, n, o, FirstSize(rs), rest.events)
  {
    hide Play, Next, NextEvents, FinishEvents, SqFinish, Usable;
    PlayNs(nn, n, rs);
    if rs[0].status == 0 && Usable(rs[0].ns) && n < TWO16 {
      PlayCq(nn, n, rs[1..]);
      assert rs[1..][1..] == rs[2..];
      if rs[1].status == 0 {
        PlaySq(nn, n, rs[2..]);
        assert rs[2..][1..] == rs[3..];
      }
    }
  }

  lemma PlayNothing(pending: Option<Callback>)
    ensures Play(pending, []) == Progress(pending, [])
  {
  }

  /** The nested callbacks are a loop: whatever the device answers, what they do from
      the identification of `n` on is what the loop over `n..nn` does. */
  lemma {:induction false} CallbacksAreALoop(nn: nat, n: nat, rs: seq<Response>)
    requires Visited(nn, n) && Play(Some(NamespaceIdentified(nn, n)), rs).pending.None?
    ensures Play(Some(NamespaceIdentified(nn, n)), rs).events == Loop(nn, n, Outcomes(nn, n, rs), Sizes(nn, n, rs))
    decreases nn - n
  {
    hide Play, FirstOutcome, NextEvents, FinishEvents, SqFinish;
    PlayOne(nn, n, rs);
    VisitedNext(nn, n);
    var o := FirstOutcome(n, rs);
    var outcomes := Outcomes(nn, n, rs);
    assert outcomes[0] == o && Sizes(nn, n, rs)[0] == FirstSize(rs);
    if GoesOn(nn, n, o) {
      CallbacksAreALoop(nn, n + 1, rs[Used(o)..]);
      assert outcomes[1..] == Outcomes(nn, n + 1, rs[Used(o)..]);
      assert Sizes(nn, n, rs)[1..] == Sizes(nn, n + 1, rs[Used(o)..]);
    } else {
      PlayStops(rs[Used(o)..]);
    }
  }

  /** Up to 65535 namespaces no outcome is fatal. */
  lemma {:induction false} NoneFatal(nn: nat, n: nat, rs: seq<Response>)
    requires Visited(nn, n) && nn < TWO16
    ensures Fatal !in Outcomes(nn, n, rs)
    decreases nn - n
  {
    var o := FirstOutcome(n, rs);
    var rest := if Used(o) <= |rs| then rs[Used(o)..] else [];
    if GoesOn(nn, n, o) {
      NoneFatal(nn, n + 1, rest);
    }
  }

  /** A count that wraps around: whatever the device answers, the callbacks never finish;
      there is always one more command in flight, unless an assertion stops the driver. */
  lemma {:induction false} BroadcastCountNeverEnds(cb: Callback, rs: seq<Response>)
    requires cb.NamespaceIdentified? || ((cb.CqCreated? || cb.SqCreated?) && cb.n < TWO16)
    requires cb.nn == NSID_ALL
    ensures var p := Play(Some(cb), rs);
            Finished !in p.events && (p.pending.None? ==> Stopped in p.events)
    decreases |rs|
  {
    hide Play, Events, IssuedBy, Usable, SqTail, IssueCommand, GoOn;
    if rs == [] {
      PlayNothing(Some(cb));
    } else {
      PlayUnfold(cb, rs);
      GoOnEvents(cb.nn, cb.n, Destroyed(cb.n));
      SqEvents(cb.nn, cb.n, rs[0]);
      UsableEvents(cb.nn, cb.n, LbaSize(rs[0].ns));
      StopEvents(cb.n, LbaSize(rs[0].ns));
      EventsOfOne(SqCreated(cb.nn, cb.n), Finished);
      assert Next32(cb.n) <= NSID_ALL;
      match IssuedBy(Script(cb, rs[0]))
      case Some(next) => BroadcastCountNeverEnds(next, rs[1..]);
      case None => PlayStops(rs[1..]);
    }
  }
}
