/** Values behind the namespace object: one turn of the interrupt handler and one
    submitted request, as runs of the protocol. */
module HostSteps {
  import opened Ring
  import opened Types
  import opened SubmissionQueues
  import opened CompletionQueues
  import opened Protocol
  import opened QueueInvariant
  import opened QueueGuarantees
  import opened InputOutput
  import EndToEnd
  import Limits
  import Prp
  import Sgl

  // ---------------------------------------------------------------------
  // Runs
  // ---------------------------------------------------------------------

  lemma RunNothing(s: State)
    ensures Run(s, [], s)
  {
  }

  /** A run goes on by one more step. */
  lemma {:induction false} OneMore(s: State, ls: seq<Label>, u: State, l: Label)
    requires Run(s, ls, u) && Shape(u) && Enabled(u, l)
    ensures Run(s, ls + [l], Apply(u, l))
  {
    hide Apply, Enabled, Shape;
    assert [l][1..] == [];
    RunNothing(Apply(u, l));
    assert Run(u, [l], Apply(u, l));
    RunAppend(s, ls, u, [l], Apply(u, l));
  }

  // ---------------------------------------------------------------------
  // The interrupt handler
  // ---------------------------------------------------------------------

  lemma IdleFacts(s: State)
    requires Inv(s)
    ensures Shape(s) && s.h.consumed <= |s.h.posted|
    ensures s.cq.Accepts(s.cqMem[s.cq.head]) <==> s.h.consumed < |s.h.posted|
  {
    hide Slot, Phase, Inv, Shape, Heads, CqMemory;
    InvParts(s);
    PhaseIsExact(s);
  }

  /** `consume` and `complete` are possible. */
  ghost predicate CanDispatch(s: State)
  {
    && Shape(s) && Enabled(s, Consume)
    && Shape(DoConsume(s)) && Enabled(DoConsume(s), Complete)
  }

  /** The state when the callback starts. */
  ghost function AfterDispatch(s: State): State
    requires CanDispatch(s)
  {
    DoComplete(DoConsume(s))
  }

  lemma ConsumeEnabled(s: State)
    requires Shape(s) && s.pc.Idle? && s.filling.None? && s.cq.Accepts(s.cqMem[s.cq.head])
    ensures Enabled(s, Consume) && DoConsume(s).pc.Consumed? && DoConsume(s).filling.None?
  {
    hide WrapAround, Occupied, HasRegion;
  }

  lemma CompleteEnabled(s: State)
    requires Shape(s) && s.pc.Consumed? && s.filling.None? && CompletionValid(s, s.cqMem[s.pc.slot])
    ensures Enabled(s, Complete)
    ensures Shape(DoComplete(s)) ==> Enabled(DoComplete(s), Return)
  {
    hide WrapAround, HasRegion;
  }

  /** When a completion is waiting its callback can be started. */
  lemma Dispatched(s: State)
    requires Inv(s) && s.pc.Idle? && s.filling.None? && s.h.consumed < |s.h.posted|
    ensures CanDispatch(s) && Inv(AfterDispatch(s)) && DispatchValues(s, AfterDispatch(s))
  {
    hide Inv, Shape, Enabled, DoConsume, DoComplete, CompletionValid, DispatchValues;
    hide RingPart, CompletionPart, PlacePart, DescriptorPart, CqHost.Accepts;
    IdleFacts(s);
    ConsumeEnabled(s);
    ConsumeInv(s);
    var s1 := DoConsume(s);
    InvParts(s1);
    CompletionIsValid(s1);
    CompleteEnabled(s1);
    CompleteInv(s1);
    DispatchEffect(s);
  }

  /** What the objects hold when the callback starts. */
  ghost predicate DispatchValues(s: State, t: State)
  {
    s.cq.head < |s.cqMem| &&
    var cqe := s.cqMem[s.cq.head];
    && cqe.cid < s.sq.size && cqe.sqhd < s.sq.size && cqe.cid < |s.sq.callbacks| && s.sq.callbacks[cqe.cid].Some?
    && s.sq.inFlight > 0 && s.cq.size > 0
    && t.sq == s.sq.AfterComplete(cqe) && t.cq == s.cq.AfterConsume() && t.cqDb == s.cqDb
    && t.sqMem == s.sqMem && t.cqMem == s.cqMem && t.words == s.words && t.sqDb == s.sqDb
    && t.stride == s.stride && t.pc == Dispatching && t.filling == s.filling
    && t.h.posted == s.h.posted && t.h.consumed == s.h.consumed + 1
    && exists f: nat :: t.h.calls == s.h.calls + [Call(f, s.sq.callbacks[cqe.cid].value, cqe.sf)]
  }

  lemma DispatchEffect(s: State)
    requires CanDispatch(s)
    ensures DispatchValues(s, AfterDispatch(s))
  {
    hide WrapAround, HasRegion, Region;
    var cqe := s.cqMem[s.cq.head];
    OccupiedFull(s.sq.callbacks);
    hide Occupied;
    var f := DoConsume(s).h.owner[cqe.cid].value;
    assert AfterDispatch(s).h.calls == s.h.calls + [Call(f, s.sq.callbacks[cqe.cid].value, cqe.sf)];
  }

  lemma DispatchIndex(s: State, t: State)
    requires DispatchValues(s, t)
    ensures s.cq.head < |s.cqMem| && s.cqMem[s.cq.head].cid < |s.sq.callbacks|
    ensures s.sq.callbacks[s.cqMem[s.cq.head].cid].Some?
  {
  }

  /** The callback that starts is the one the call just made is about. */
  lemma DispatchedCall(ns: IoConfig, s: State, cb: Callback, status: nat)
    requires ns.Valid() && Inv(s) && s.pc.Idle? && CanDispatch(s) && Inv(AfterDispatch(s))
    requires DispatchValues(s, AfterDispatch(s)) && EndToEnd.AllEncoded(ns, s.h)
    requires s.cq.head < |s.cqMem| && s.cqMem[s.cq.head].cid < |s.sq.callbacks|
    requires s.sq.callbacks[s.cqMem[s.cq.head].cid] == Some(cb) && status == s.cqMem[s.cq.head].sf
    ensures var u := AfterDispatch(s);
            && |u.h.calls| == |s.h.calls| + 1 && s.h.calls <= u.h.calls
            && u.h.calls[|s.h.calls|].cb == cb && u.h.calls[|s.h.calls|].status == status
            && |s.h.calls| == s.h.consumed < |u.h.posted| && EndToEnd.IoCallback(ns, cb)
            && EndToEnd.AllEncoded(ns, u.h)
  {
    hide Inv, Shape, Enabled, DoConsume, DoComplete, EndToEnd.IoCallback, EndToEnd.AllEncoded, IoConfig.Valid;
    var u := AfterDispatch(s);
    ConsumedIsCalled(s);
    ConsumedIsCalled(u);
    DispatchLog(s);
    StillEncoded(ns, s, u);
    EndToEnd.CallOfRequest(ns, u, |s.h.calls|);
  }

  lemma ConsumedIsCalled(s: State)
    requires Inv(s)
    ensures s.h.consumed == |s.h.calls| + (if s.pc.Consumed? then 1 else 0) && s.h.consumed <= |s.h.posted|
  {
    hide Shape, RingPart, PlacePart, DescriptorPart, CqMemory, Heads, Slot, Phase;
  }

  lemma DispatchLog(s: State)
    requires CanDispatch(s)
    ensures AfterDispatch(s).h.log == s.h.log && AfterDispatch(s).h.rung == s.h.rung
  {
    hide WrapAround, HasRegion, Region, Occupied;
  }

  lemma StillEncoded(ns: IoConfig, s: State, t: State)
    requires ns.Valid() && EndToEnd.AllEncoded(ns, s.h) && t.h.log == s.h.log && t.h.rung == s.h.rung
    ensures EndToEnd.AllEncoded(ns, t.h)
  {
    hide EndToEnd.Encoded, IoConfig.Valid;
  }

  /** `consume` and `complete` use up work. */
  lemma DispatchWork(s: State)
    requires Inv(s) && CanDispatch(s)
    ensures Work(AfterDispatch(s)) <= Work(s) - 2
  {
    hide Inv, Work, Shape, Enabled, DoConsume, DoComplete;
    StepInv(s, Consume);
    WorkDecreases(s, Consume);
    WorkDecreases(DoConsume(s), Complete);
  }

  /** The head doorbell after the callback. */
  lemma Returned(s: State)
    requires Inv(s) && s.pc.Dispatching? && s.filling.None?
    ensures Shape(s) && Enabled(s, Return) && Inv(DoReturn(s)) && Work(DoReturn(s)) <= Work(s)
  {
    hide Inv, Shape, Work, DoReturn, RingPart, CompletionPart, PlacePart, DescriptorPart;
    InvParts(s);
    ReturnInv(s);
    WorkDecreases(s, Label.Return);
  }

  // ---------------------------------------------------------------------
  // What the device does meanwhile
  // ---------------------------------------------------------------------

  predicate ByDevice(l: Label)
  {
    l.Fetch? || l.Execute? || l.Post?
  }

  /** `t` follows from `s` by steps of the device only. */
  ghost predicate DeviceRun(s: State, ls: seq<Label>, t: State)
  {
    Run(s, ls, t) && forall i :: 0 <= i < |ls| ==> ByDevice(ls[i])
  }

  /** The device leaves the host alone and only posts. */
  ghost predicate SameHost(s: State, t: State)
  {
    && t.pc == s.pc && t.filling == s.filling && t.sq == s.sq && t.cq == s.cq
    && t.h.calls == s.h.calls && t.h.consumed == s.h.consumed && s.h.posted <= t.h.posted
  }

  lemma {:induction false} AfterDevice(s: State, ls: seq<Label>, t: State)
    requires Inv(s) && DeviceRun(s, ls, t)
    ensures Inv(t) && SameHost(s, t) && Work(t) <= Work(s)
    decreases |ls|
  {
    hide Inv, Work, Apply, Enabled, Shape;
    if ls == [] {
    } else {
      assert ByDevice(ls[0]);
      StepInv(s, ls[0]);
      WorkDecreases(s, ls[0]);
      DeviceStep(s, ls[0]);
      assert forall i :: 0 <= i < |ls[1..]| ==> ls[1..][i] == ls[i + 1];
      AfterDevice(Apply(s, ls[0]), ls[1..], t);
    }
  }

  lemma DeviceStep(s: State, l: Label)
    requires Shape(s) && Enabled(s, l) && ByDevice(l)
    ensures SameHost(s, Apply(s, l))
  {
    hide WrapAround, SqHost.Valid, HasRegion;
  }

  lemma {:induction false} DeviceRunIsIoRun(ns: IoConfig, s: State, ls: seq<Label>, t: State)
    requires ns.Valid() && DeviceRun(s, ls, t)
    ensures EndToEnd.IoRun(ns, s, ls, t)
    decreases |ls|
  {
    hide Apply, Enabled, Shape, IoConfig.Valid;
    if ls == [] {
    } else {
      assert ByDevice(ls[0]);
      assert forall i :: 0 <= i < |ls[1..]| ==> ls[1..][i] == ls[i + 1];
      DeviceRunIsIoRun(ns, Apply(s, ls[0]), ls[1..], t);
    }
  }

  // ---------------------------------------------------------------------
  // Writing within one descriptor region
  // ---------------------------------------------------------------------

  lemma {:induction false} OverlayOfWrite(words: seq<nat>, cid: nat, stride: nat, values: seq<nat>)
    requires HasRegion(words, cid, stride) && |values| <= stride
    ensures Overlay(words, cid, stride, values + Region(words, cid, stride)[|values|..])
         == words[..Offset(cid, stride)] + values + words[Offset(cid, stride) + |values|..]
  {
    hide Offset;
  }

  /** Descriptors written at the start of a region see only the words of that region. */
  lemma {:induction false} DescriptorsOverlay(words: seq<nat>, cid: nat, stride: nat, blocks: seq<Block>, ss: nat)
    requires HasRegion(words, cid, stride) && 2 * |blocks| <= stride
    ensures var at, region := Offset(cid, stride), Region(words, cid, stride);
            && |words[at..]| >= stride
            && words[..at] + Sgl.Descriptors(words[at..], blocks, ss) + words[at + 2 * |blocks|..]
               == Overlay(words, cid, stride, Sgl.Descriptors(region, blocks, ss) + region[2 * |blocks|..])
  {
    hide Offset, Sgl.Descriptors, Overlay;
    var at, region := Offset(cid, stride), Region(words, cid, stride);
    assert words[at..][..|region|] == region;
    DescriptorsPrefix(words[at..], region, blocks, ss);
    OverlayOfWrite(words, cid, stride, Sgl.Descriptors(region, blocks, ss));
  }

  lemma {:induction false} SglOverlay(ns: IoConfig, req: Request, words: seq<nat>, cid: nat, at: nat, used: seq<Block>)
    requires ns.Valid() && |req.blocks| >= 1 && !req.op.WriteZeroes? && ns.ctl.sgl && HasRegion(words, cid, ns.Stride())
    requires at == Offset(cid, ns.Stride()) && used == Used(ns, req)
    ensures words[..at] + Sgl.Descriptors(words[at..], used, ns.ctl.sectorSize) + words[at + 2 * |used|..]
         == Overlay(words, cid, ns.Stride(), EncodeDescriptors(ns, req, cid, Region(words, cid, ns.Stride())))
  {
    hide Offset, Used, Limits.Controller.InRange, Limits.MaxSize, Sgl.Descriptors, Overlay, Region, HasRegion;
    UsedSize(ns, req);
    DescriptorsOverlay(words, cid, ns.Stride(), used, ns.ctl.sectorSize);
  }

  lemma UsedSize(ns: IoConfig, req: Request)
    requires ns.Valid() && |req.blocks| >= 1 && ns.ctl.sgl
    ensures |Used(ns, req)| <= ns.ctl.segments
  {
  }

  /** Descriptors depend only on the words they overwrite. */
  lemma {:induction false} DescriptorsPrefix(a: seq<nat>, b: seq<nat>, blocks: seq<Block>, ss: nat)
    requires |a| >= |b| >= 2 * |blocks| && a[..|b|] == b
    ensures Sgl.Descriptors(a, blocks, ss) == Sgl.Descriptors(b, blocks, ss)
    decreases |blocks|
  {
    hide Sgl.DescriptorWord;
    if blocks == [] {
    } else {
      assert a[1] == a[..|b|][1];
      assert a[2..][..|b[2..]|] == a[..|b|][2..];
      DescriptorsPrefix(a[2..], b[2..], blocks[1..], ss);
    }
  }

  lemma {:induction false} PrpOverlay(ns: IoConfig, req: Request, words: seq<nat>, cid: nat, all: seq<nat>)
    requires ns.Valid() && |req.blocks| >= 1 && !req.op.WriteZeroes? && !ns.ctl.sgl
    requires HasRegion(words, cid, ns.Stride())
    requires 0 <= Sectors(ns, req) * ns.ctl.sectorSize && ns.ctl.n >= 2
    requires all == Prp.ListWords(ns.ctl.n, ns.DescriptorAddress(cid), req.blocks[0].dma,
                                  Sectors(ns, req) * ns.ctl.sectorSize)
    ensures Prp.Written(words, Offset(cid, ns.Stride()), all[..Prp.Min(|all|, ns.Stride())])
         == Overlay(words, cid, ns.Stride(), EncodeDescriptors(ns, req, cid, Region(words, cid, ns.Stride())))
  {
    hide Offset, Used, Sectors, Limits.Controller.InRange, Limits.MaxSize, Prp.ListWords, IoConfig.DescriptorAddress;
    OverlayOfWrite(words, cid, ns.Stride(), all[..Prp.Min(|all|, ns.Stride())]);
  }

  // ---------------------------------------------------------------------
  // The request path as protocol steps
  // ---------------------------------------------------------------------

  /** The entry that `produce` hands out in state `s`. */
  ghost function CleanEntry(s: State): Sqe
    requires Shape(s)
  {
    FreshSqe(s.sqMem[s.sq.tail], s.sq.NextCid())
  }

  lemma ProducedEntry(s: State)
    requires Inv(s)
    ensures Shape(s) && CleanEntry(s).Cid() == s.sq.NextCid()
  {
    hide Inv, Sqe.Cid, Search;
    InvParts(s);
  }

  /** The words `inout_data` and `discard` leave in the descriptor region. */
  ghost function RequestRegion(ns: IoConfig, s: State, req: Request): (r: seq<nat>)
    requires ns.Valid() && |req.blocks| >= 1 && Shape(s) && s.stride == ns.Stride()
    ensures |r| == s.stride
  {
    RegionInBuffer(s.words, s.sq.size, s.sq.NextCid(), s.stride);
    EncodeDescriptors(ns, req, s.sq.NextCid(), Region(s.words, s.sq.NextCid(), s.stride))
  }

  /** The state after a request has been submitted. */
  ghost function AfterRequest(ns: IoConfig, s: State, req: Request): State
    requires ns.Valid() && |req.blocks| >= 1 && Shape(s) && s.stride == ns.Stride()
  {
    var cid := s.sq.NextCid();
    var sqe := Encode(ns, req, CleanEntry(s), cid);
    RegionInBuffer(s.words, s.sq.size, cid, s.stride);
    s.(sq := s.sq.AfterProduce(CallbackFor(ns, req)),
       sqMem := s.sqMem[s.sq.tail := sqe],
       words := Overlay(s.words, cid, s.stride, RequestRegion(ns, s, req)),
       sqDb := s.sq.AfterProduce(CallbackFor(ns, req)).tail,
       h := s.h.(log := s.h.log + [Entry(CallbackFor(ns, req), cid, sqe, RequestRegion(ns, s, req))],
                 owner := s.h.owner[cid := Some(|s.h.log|)],
                 rung := |s.h.log| + 1))
  }

  /** It is reached by produce, fill and submit; for requests that respect the limits these
      are steps the end-to-end theorem is about. */
  lemma Submitted(ns: IoConfig, s: State, req: Request)
    requires ns.Valid() && Formed(ns, req) && Inv(s) && Shape(s) && s.stride == ns.Stride()
    requires !s.pc.Consumed? && s.filling.None? && !s.sq.Refuses()
    ensures Inv(AfterRequest(ns, s, req)) && RequestSteps(ns, s, req, AfterRequest(ns, s, req))
  {
    hide Inv, Shape, Enabled, RingPart, CompletionPart, PlacePart, DescriptorPart, DoProduce, DoFill, DoSubmit;
    hide AfterRequest, EndToEnd.Encoded, EndToEnd.IoCallback, EndToEnd.IoRun, Run, RequestOk;
    hide Encode, Used, Sectors, Limits.MaxSize, Limits.Controller.InRange, CallbackFor, Sqe.Cid;
    hide IoConfig.Stride, IoConfig.Valid, CleanEntry, RequestRegion, SqHost.NextCid, SqHost.Refuses;
    ShapeIndices(s);
    var cb, cid := CallbackFor(ns, req), s.sq.NextCid();
    var region := RequestRegion(ns, s, req);
    var sqe := Encode(ns, req, CleanEntry(s), cid);
    ProducedEntry(s);
    EncodeKeepsCid(ns, req, CleanEntry(s), cid);
    ProduceEnabled(s, cb);
    ProduceInv(s, cb);
    var s1 := DoProduce(s, cb);
    InvParts(s1);
    FillEnabled(s, cb, sqe, region);
    FillInv(s1, sqe, region);
    var s2 := DoFill(s1, sqe, region);
    InvParts(s2);
    SubmittedIsAfter(ns, s, req, s2);
    SubmitInv(s2);
    SubmittedRun(s, cb, sqe, region);
    if RequestOk(ns, req) {
      LastEncoded(ns, s, req, s2.h.log[|s2.h.log| - 1]);
      SubmittedIoRun(ns, s, cb, sqe, region);
    }
    assert RequestBy(ns, s, req, DoSubmit(s2), [Produce(cb), Fill(sqe, region), Submit]);
  }

  /** These three steps submit `req`. */
  ghost predicate RequestBy(ns: IoConfig, s: State, req: Request, t: State, ls: seq<Label>)
    requires ns.Valid() && |req.blocks| >= 1
  {
    && |ls| == 3 && ls[0] == Produce(CallbackFor(ns, req)) && Run(s, ls, t)
    && (RequestOk(ns, req) ==> EndToEnd.IoRun(ns, s, ls, t))
  }

  ghost predicate RequestSteps(ns: IoConfig, s: State, req: Request, t: State)
    requires ns.Valid() && |req.blocks| >= 1
  {
    exists ls: seq<Label> :: RequestBy(ns, s, req, t, ls)
  }

  /** One more command is on its way; nothing else of the run's history changes. */
  ghost predicate OneRequest(s: State, t: State)
  {
    && t.pc == s.pc && t.filling.None? && |t.h.log| == |s.h.log| + 1 && t.dev == s.dev
    && t.h.fetched == s.h.fetched && t.h.posted == s.h.posted
    && t.h.consumed == s.h.consumed && t.h.calls == s.h.calls
  }

  lemma RequestEffect(ns: IoConfig, s: State, req: Request)
    requires ns.Valid() && |req.blocks| >= 1 && Shape(s) && s.stride == ns.Stride() && s.filling.None?
    ensures var t := AfterRequest(ns, s, req);
            OneRequest(s, t) && Work(t) == Work(s) + 6
  {
    hide Encode, Used, Sectors, Limits.MaxSize, Limits.Controller.InRange, CallbackFor, RequestRegion, SqHost.NextCid;
    hide Overlay, HasRegion, SqHost.Valid, WrapAround, Unexecuted;
  }

  lemma ShapeIndices(s: State)
    requires Shape(s)
    ensures s.sq.freeHint < |s.sq.callbacks| && s.sq.tail < |s.sqMem| && s.sq.size > 0
  {
  }

  lemma ProduceEnabled(s: State, cb: Callback)
    requires Shape(s) && !s.pc.Consumed? && s.filling.None? && !s.sq.Refuses()
    ensures Enabled(s, Produce(cb))
  {
  }

  lemma {:induction false} FillEnabled(s: State, cb: Callback, sqe: Sqe, region: seq<nat>)
    requires Shape(s) && Enabled(s, Produce(cb)) && Shape(DoProduce(s, cb))
    requires sqe.Cid() == s.sq.NextCid() && |region| == s.stride
    ensures Enabled(DoProduce(s, cb), Fill(sqe, region))
  {
    hide WrapAround, Occupied, HasRegion, Region, FreshSqe, Sqe.Cid, SqHost.NextCid;
  }

  lemma LastEncoded(ns: IoConfig, s: State, req: Request, e: Entry)
    requires ns.Valid() && RequestOk(ns, req) && Shape(s) && s.stride == ns.Stride()
    requires e.cb == CallbackFor(ns, req) && e.cid == s.sq.NextCid()
    requires e.sqe == Encode(ns, req, CleanEntry(s), e.cid) && e.region == RequestRegion(ns, s, req)
    ensures EndToEnd.Encoded(ns, e) && EndToEnd.IoCallback(ns, e.cb)
  {
    hide Encode, EncodeDescriptors, Region, HasRegion, Used, Sectors, Limits.MaxSize, Limits.Controller.InRange;
    hide CallbackFor, FreshSqe, EndToEnd.Encoded, EndToEnd.IoCallback, Occupied, WrapAround, SqHost.NextCid;
    hide IoConfig.Stride;
    RegionInBuffer(s.words, s.sq.size, e.cid, s.stride);
    EndToEnd.EncodedBy(ns, e, req, CleanEntry(s), Region(s.words, e.cid, s.stride));
  }

  lemma SubmittedIsAfter(ns: IoConfig, s: State, req: Request, s2: State)
    requires ns.Valid() && |req.blocks| >= 1 && s.stride == ns.Stride()
    requires Shape(s) && Enabled(s, Produce(CallbackFor(ns, req))) && Shape(DoProduce(s, CallbackFor(ns, req)))
    requires var sqe, region := Encode(ns, req, CleanEntry(s), s.sq.NextCid()), RequestRegion(ns, s, req);
             && Enabled(DoProduce(s, CallbackFor(ns, req)), Fill(sqe, region))
             && s2 == DoFill(DoProduce(s, CallbackFor(ns, req)), sqe, region)
    ensures Shape(s2) ==> Enabled(s2, Submit) && DoSubmit(s2) == AfterRequest(ns, s, req)
    ensures |s2.h.log| == |s.h.log| + 1
    ensures var e := s2.h.log[|s.h.log|];
            && e.cb == CallbackFor(ns, req) && e.cid == s.sq.NextCid()
            && e.sqe == Encode(ns, req, CleanEntry(s), e.cid) && e.region == RequestRegion(ns, s, req)
  {
    hide WrapAround, Occupied, Used, Sectors, Limits.MaxSize, Encode, EncodeDescriptors, Overlay, Region, HasRegion;
    hide FreshSqe, CallbackFor, Sqe.Cid, IoConfig.Stride, IoConfig.Valid, RequestRegion, SqHost.NextCid;
    var t := AfterRequest(ns, s, req);
    assert s2.h.log == t.h.log;
    assert s2.sqMem == t.sqMem;
  }

  lemma {:induction false} SubmittedRun(s: State, cb: Callback, sqe: Sqe, region: seq<nat>)
    requires Shape(s) && Enabled(s, Produce(cb))
    requires Shape(DoProduce(s, cb)) && Enabled(DoProduce(s, cb), Fill(sqe, region))
    requires var s2 := DoFill(DoProduce(s, cb), sqe, region); Shape(s2) && Enabled(s2, Submit)
    ensures Run(s, [Produce(cb), Fill(sqe, region), Submit], DoSubmit(DoFill(DoProduce(s, cb), sqe, region)))
  {
    hide Shape, Enabled, DoProduce, DoFill, DoSubmit, Run;
    var s1, s2 := DoProduce(s, cb), DoFill(DoProduce(s, cb), sqe, region);
    ThreeLabels(Produce(cb), Fill(sqe, region), Submit);
    RunNothing(s);
    OneMore(s, [], s, Produce(cb));
    OneMore(s, [Produce(cb)], s1, Fill(sqe, region));
    OneMore(s, [Produce(cb), Fill(sqe, region)], s2, Submit);
  }

  lemma ThreeLabels(a: Label, b: Label, c: Label)
    ensures [] + [a] == [a] && [a] + [b] == [a, b] && [a, b] + [c] == [a, b, c]
  {
  }

  lemma {:induction false} SubmittedIoRun(ns: IoConfig, s: State, cb: Callback, sqe: Sqe, region: seq<nat>)
    requires ns.Valid() && Shape(s) && Enabled(s, Produce(cb)) && EndToEnd.IoCallback(ns, cb)
    requires Shape(DoProduce(s, cb)) && Enabled(DoProduce(s, cb), Fill(sqe, region))
    requires var s2 := DoFill(DoProduce(s, cb), sqe, region);
             Shape(s2) && Enabled(s2, Submit) && EndToEnd.Encoded(ns, s2.h.log[|s2.h.log| - 1])
    ensures EndToEnd.IoRun(ns, s, [Produce(cb), Fill(sqe, region), Submit],
                           DoSubmit(DoFill(DoProduce(s, cb), sqe, region)))
  {
    hide Shape, Enabled, DoProduce, DoFill, DoSubmit, EndToEnd.IoRun, EndToEnd.Encoded, EndToEnd.IoCallback;
    hide IoConfig.Valid;
    var s1, s2 := DoProduce(s, cb), DoFill(DoProduce(s, cb), sqe, region);
    ThreeLabels(Produce(cb), Fill(sqe, region), Submit);
    EndToEnd.IoNothing(ns, s);
    EndToEnd.IoOneMore(ns, s, [], s, Produce(cb));
    EndToEnd.IoOneMore(ns, s, [Produce(cb)], s1, Fill(sqe, region));
    EndToEnd.IoOneMore(ns, s, [Produce(cb), Fill(sqe, region)], s2, Submit);
  }

  /** The guard of `discard` is exactly what makes the range expressible. */
  lemma DiscardRange(ns: IoConfig, req: Request)
    requires ns.Valid() && Formed(ns, req) && req.op.WriteZeroes?
    ensures RequestOk(ns, req) <==> 1 <= req.blocks[0].sectors <= TWO16
    ensures Sectors(ns, req) == req.blocks[0].sectors
  {
    hide Limits.MaxSize, Limits.Controller.InRange, Sgl.SumSectors;
    assert Used(ns, req) == [req.blocks[0]];
    OneBlock(req.blocks[0]);
  }

  lemma ZeroesKeepDescriptors(ns: IoConfig, s: State, req: Request)
    requires ns.Valid() && req.op.WriteZeroes? && |req.blocks| >= 1
    requires Shape(s) && s.stride == ns.Stride()
    ensures AfterRequest(ns, s, req).words == s.words
  {
    hide Limits.MaxSize, Limits.Controller.InRange, Sectors, Occupied, Encode, WrapAround, Offset, IoConfig.Stride;
    hide Used, FreshSqe;
    var cid := s.sq.NextCid();
    RegionInBuffer(s.words, s.sq.size, cid, s.stride);
    OverlayOfWrite(s.words, cid, s.stride, Region(s.words, cid, s.stride));
  }

  // ---------------------------------------------------------------------
  // Facts about requests the object needs
  // ---------------------------------------------------------------------

  /** Requests within the limits. */
  ghost predicate AllOk(ns: IoConfig, reqs: seq<Request>)
    requires ns.Valid()
  {
    forall i :: 0 <= i < |reqs| ==> RequestOk(ns, reqs[i])
  }

  lemma OkIsFormed(ns: IoConfig, req: Request)
    requires ns.Valid() && RequestOk(ns, req)
    ensures Formed(ns, req)
  {
    hide IoConfig.Valid, Formed;
  }

  /** A request with PRPs, cut to `max_size`, fits the list. */
  lemma PrpFits(ns: IoConfig, req: Request)
    requires ns.Valid() && Formed(ns, req) && !req.op.WriteZeroes? && !ns.ctl.sgl
    ensures Prp.FitsList(ns.ctl.n, ns.ctl.k, req.blocks[0].dma, Sectors(ns, req) * ns.ctl.sectorSize)
  {
    hide Limits.MaxSize, Limits.TransferLimit, Prp.FitsList, Sgl.SumSectors;
    OneBlock(Used(ns, req)[0]);
    Limits.TruncationFits(ns.ctl, req.blocks[0].sectors, req.blocks[0].dma);
  }

  /** One turn of the handler around the steps of a callback. */
  lemma {:induction false} HandledRun(ns: IoConfig, s: State, ms: seq<Label>, v: State)
    requires ns.Valid() && CanDispatch(s) && EndToEnd.IoRun(ns, AfterDispatch(s), ms, v)
    requires Shape(v) && Enabled(v, Label.Return)
    ensures EndToEnd.IoRun(ns, s, [Consume, Complete] + ms + [Label.Return], DoReturn(v))
  {
    hide Shape, Enabled, DoConsume, DoComplete, DoReturn, EndToEnd.IoRun, IoConfig.Valid;
    ThreeLabels(Consume, Complete, Complete);
    EndToEnd.IoNothing(ns, s);
    EndToEnd.IoOneMore(ns, s, [], s, Consume);
    EndToEnd.IoOneMore(ns, s, [Consume], DoConsume(s), Complete);
    EndToEnd.IoRunAppend(ns, s, [Consume, Complete], AfterDispatch(s), ms, v);
    EndToEnd.IoOneMore(ns, s, [Consume, Complete] + ms, v, Label.Return);
  }

  /** One callback has run. */
  ghost predicate OneCall(s: State, t: State)
  {
    |t.h.calls| == |s.h.calls| + 1 && s.h.calls <= t.h.calls
  }

  /** What one turn leaves true. */
  lemma {:induction false} Handled(ns: IoConfig, s: State, ls: seq<Label>, t: State, a: Told)
    requires ns.Valid() && Inv(s) && EndToEnd.AllEncoded(ns, s.h) && EndToEnd.IoRun(ns, s, ls, t)
    requires s.pc.Idle? && OneCall(s, t) && t.h.posted == s.h.posted && s.h.consumed < |s.h.posted|
    requires EndToEnd.Answered(ns, t.h.calls[|s.h.calls|], a)
    ensures EndToEnd.AllEncoded(ns, t.h) && EndToEnd.Due(ns, t.h, s.h.consumed, a)
  {
    hide Inv, IoConfig.Valid, EndToEnd.AllEncoded, EndToEnd.IoRun, EndToEnd.Answered, EndToEnd.Due, Run;
    EndToEnd.RunEncoded(ns, s, ls, t);
    ConsumedIsCalled(s);
    EndToEnd.CallIsDue(ns, t, |s.h.calls|, a);
  }

  lemma {:induction false} StillAllEncoded(ns: IoConfig, s: State, ls: seq<Label>, t: State)
    requires ns.Valid() && Inv(s) && EndToEnd.AllEncoded(ns, s.h) && DeviceRun(s, ls, t)
    ensures EndToEnd.AllEncoded(ns, t.h)
  {
    hide Inv, IoConfig.Valid, EndToEnd.AllEncoded, EndToEnd.IoRun, Run, DeviceRun;
    DeviceRunIsIoRun(ns, s, ls, t);
    EndToEnd.RunEncoded(ns, s, ls, t);
  }

  /** Each call made since `from` has been answered, in order, and nothing else. */
  ghost predicate AllAnswered(ns: IoConfig, from: seq<Call>, calls: seq<Call>, before: seq<Told>, told: seq<Told>)
    requires ns.Valid()
  {
    && from <= calls && before <= told && |told| == |before| + |calls| - |from|
    && forall i: nat :: |from| <= i < |calls| ==> EndToEnd.Answered(ns, calls[i], told[|before| + i - |from|])
  }

  lemma {:induction false} OneMoreAnswered(ns: IoConfig, from: seq<Call>, was: seq<Call>, calls: seq<Call>,
                                           before: seq<Told>, so: seq<Told>, told: seq<Told>, more: bool)
    requires ns.Valid() && AllAnswered(ns, from, was, before, so)
    requires !more ==> calls == was && told == so
    requires more ==> |calls| == |was| + 1 && was <= calls && told != [] && told[..|told| - 1] == so
                      && EndToEnd.Answered(ns, calls[|was|], told[|told| - 1])
    ensures AllAnswered(ns, from, calls, before, told)
  {
    hide EndToEnd.Answered, IoConfig.Valid;
    if more {
      assert told == so + [told[|told| - 1]] && calls == was + [calls[|was|]];
    }
  }

  lemma {:induction false} AllDue(ns: IoConfig, s: State, t: State, before: seq<Told>, told: seq<Told>)
    requires ns.Valid() && Inv(s) && Inv(t) && s.pc.Idle? && t.pc.Idle? && t.h.consumed == |t.h.posted|
    requires AllAnswered(ns, s.h.calls, t.h.calls, before, told)
    ensures |t.h.calls| == |t.h.posted| && |s.h.calls| == s.h.consumed
    ensures |told| == |before| + |t.h.posted| - s.h.consumed && before <= told
    ensures var answers := told[|before|..];
            forall i: nat :: i < |answers| ==> EndToEnd.Due(ns, t.h, s.h.consumed + i, answers[i])
  {
    hide Inv, EndToEnd.Answered, EndToEnd.Due, IoConfig.Valid;
    ConsumedIsCalled(s);
    ConsumedIsCalled(t);
    var answers := told[|before|..];
    forall i: nat | i < |answers|
      ensures EndToEnd.Due(ns, t.h, s.h.consumed + i, answers[i])
    {
      var k := |s.h.calls| + i;
      assert EndToEnd.Answered(ns, t.h.calls[k], told[|before| + k - |s.h.calls|]);
      EndToEnd.CallIsDue(ns, t, k, answers[i]);
    }
  }

  lemma HandledReturn(s: State)
    requires Shape(s) && Enabled(s, Label.Return)
    ensures var t := DoReturn(s);
            && t.cqDb == s.cq.head && t.pc.Idle? && t.filling.None?
            && t.sq == s.sq && t.cq == s.cq && t.sqMem == s.sqMem && t.cqMem == s.cqMem && t.words == s.words
            && t.sqDb == s.sqDb && t.stride == s.stride
            && t.h.posted == s.h.posted && t.h.consumed == s.h.consumed && t.h.calls == s.h.calls
  {
  }
}
