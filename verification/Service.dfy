/** Every accepted request can be served: from any state of a run some continuation
    carries the request out and tells its client so. */
module Service {
  import opened Ring
  import opened Types
  import opened SubmissionQueues
  import opened PhysicalMemory
  import opened Protocol
  import opened QueueInvariant
  import opened QueueGuarantees
  import opened InputOutput
  import opened EndToEnd
  import HostSteps

  /** Steps that serve what was submitted are steps of the end-to-end theorem. */
  lemma {:induction false} ServingIsIoRun(ns: IoConfig, s: State, ls: seq<Label>, t: State)
    requires ns.Valid() && s.filling.None? && AllServe(ls) && Run(s, ls, t)
    ensures IoRun(ns, s, ls, t)
    decreases |ls|
  {
    hide IoConfig.Valid, Benign;
    if ls == [] {
    } else {
      assert Drains(ls[0]);
      StaysUnfilled(s, ls[0]);
      hide Shape, Enabled, Apply;
      assert forall i :: 0 <= i < |ls[1..]| ==> ls[1..][i] == ls[i + 1];
      ServingIsIoRun(ns, Apply(s, ls[0]), ls[1..], t);
    }
  }

  lemma StaysUnfilled(s: State, l: Label)
    requires Shape(s) && Enabled(s, l) && s.filling.None? && Drains(l)
    ensures Apply(s, l).filling.None? && !l.Submit? && !l.Produce?
  {
    hide SqHost.Valid, HasRegion, WrapAround;
  }

  /** What is on its way after a request has been submitted. */
  lemma SubmittedEntry(ns: IoConfig, s: State, req: Request)
    requires ns.Valid() && |req.blocks| >= 1 && Shape(s) && s.stride == ns.Stride() && s.filling.None?
    ensures var u := HostSteps.AfterRequest(ns, s, req);
            && HostSteps.OneRequest(s, u) && |u.h.log| == |s.h.log| + 1
            && u.h.log[|s.h.log|].cb == CallbackFor(ns, req)
  {
    hide Encode, Used, Sectors, CallbackFor, HostSteps.RequestRegion, SqHost.NextCid, Overlay, HasRegion, SqHost.Valid;
    hide IoConfig.Stride, HostSteps.CleanEntry;
    HostSteps.RequestEffect(ns, s, req);
  }

  /** The m-th callback is that of `req`, with success: the device has carried out exactly the
      request, and the client is told the number of bytes moved. */
  ghost predicate CarriedOut(ns: IoConfig, req: Request, serial: nat, t: State, m: nat)
  {
    && ns.Valid() && |req.blocks| >= 1 && m < |t.h.calls| && m < |t.h.posted|
    && t.h.calls[m] == Call(serial, CallbackFor(ns, req), 0)
    && var done := t.h.posted[m];
       && done.serial == serial && done.seen.Some?
       && Interpret(ns.ctl.n, ns.ctl.sectorSize, Memory(ns.base, done.seen.value), done.sqe) == Some(Requested(ns, req))
       && ClientAnswer(t.h.calls[m].cb, 0) == Some(Answer(true, BytesMoved(Requested(ns, req))))
  }

  /** A request within the limits that the queue does not refuse: some run submits it and
      goes on to its callback with success. */
  lemma {:induction false} EveryRequestCanBeCarriedOut(
    ns: IoConfig, s0: State, before: seq<Label>, s: State, req: Request) returns (ls: seq<Label>, t: State, m: nat)
    requires ns.Valid() && RequestOk(ns, req) && s.sq.size > 0 && !s.sq.Refuses()
    requires !s.pc.Consumed? && s.filling.None?
    requires IoRun(ns, s0, before, s) && s0.stride == ns.Stride() && Init(s0)
    ensures IoRun(ns, s0, before + ls, t) && CarriedOut(ns, req, |s.h.log|, t, m)
  {
    hide Inv, Shape, IoConfig.Valid, IoConfig.Stride, Run, IoRun, RequestOk, Init, AllServe, HostSteps.AfterRequest;
    hide Interpret, Requested, BytesMoved, CallbackFor, Sectors, HostSteps.RequestBy;
    ServableFacts(ns, s0, before, s, req);
    HostSteps.Submitted(ns, s, req);
    var u := HostSteps.AfterRequest(ns, s, req);
    SubmittedEntry(ns, s, req);
    PostedBefore(s);
    var first: seq<Label> :| HostSteps.RequestBy(ns, s, req, u, first);
    var more: seq<Label>;
    more, t := CanDrain(u);
    ServingIsIoRun(ns, u, more, t);
    FirstIsIoRun(ns, s, req, u, first);
    IoRunAppend(ns, s0, before, s, first, u);
    IoRunAppend(ns, s0, before + first, u, more, t);
    ls := first + more;
    assert before + ls == before + first + more;
    IoReachable(ns, s0, before + ls, t);
    m := ServedCall(u, more, t, |s.h.log|);
    RequestsAreCarriedOut(ns, s0, before + ls, t, m);
    RequestOfCallback(ns, req);
  }

  lemma {:induction false} ServableFacts(ns: IoConfig, s0: State, before: seq<Label>, s: State, req: Request)
    requires ns.Valid() && Init(s0) && s0.stride == ns.Stride() && IoRun(ns, s0, before, s) && RequestOk(ns, req)
    ensures Inv(s) && Shape(s) && s.stride == ns.Stride() && Formed(ns, req) && |req.blocks| >= 1
  {
    hide Inv, IoConfig.Valid, IoConfig.Stride, IoRun, Run, Sectors, Shape, RingPart, CompletionPart, PlacePart;
    hide DescriptorPart;
    hide Formed;
    InitInv(s0);
    assert AllEncoded(ns, s0.h);
    RunEncoded(ns, s0, before, s);
    RunStride(s0, before, s);
    InvParts(s);
    FormedHasBlocks(ns, req);
  }

  lemma FormedHasBlocks(ns: IoConfig, req: Request)
    requires ns.Valid() && Formed(ns, req)
    ensures |req.blocks| >= 1
  {
    hide IoConfig.Valid, Sectors;
  }

  lemma {:induction false} FirstIsIoRun(ns: IoConfig, s: State, req: Request, u: State, first: seq<Label>)
    requires ns.Valid() && |req.blocks| >= 1 && RequestOk(ns, req) && HostSteps.RequestBy(ns, s, req, u, first)
    ensures IoRun(ns, s, first, u)
  {
    hide IoConfig.Valid, IoRun, Run, RequestOk;
  }

  lemma {:induction false} IoReachable(ns: IoConfig, s0: State, ls: seq<Label>, t: State)
    requires ns.Valid() && Init(s0) && IoRun(ns, s0, ls, t)
    ensures Reachable(t)
  {
    hide Inv, IoConfig.Valid, IoRun, Run, Encoded;
    InitInv(s0);
    assert AllEncoded(ns, s0.h);
    RunEncoded(ns, s0, ls, t);
  }

  lemma RequestOfCallback(ns: IoConfig, req: Request)
    requires ns.Valid() && |req.blocks| >= 1
    ensures RequestOf(CallbackFor(ns, req)) == Some(req)
  {
    hide IoConfig.Valid, Sectors;
  }
}
