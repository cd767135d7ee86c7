/** The namespace object: its queue pair, its interrupt handler and its request path,
    each shown to be a run of the protocol (server/src/ns.h, server/src/nvme_device.cc). */
module Namespaces {
  import opened Arithmetic
  import opened Ring
  import opened Types
  import opened SubmissionQueues
  import opened CompletionQueues
  import opened Protocol
  import opened QueueInvariant
  import opened QueueGuarantees
  import opened InputOutput
  import opened HostSteps
  import EndToEnd
  import Limits
  import Prp
  import Sgl

  class Namespace {
    const config: IoConfig
    const iosq: SubmissionQueue
    const iocq: CompletionQueue
    /** What clients have been told, in order. */
    var told: seq<Told>

    /** From the queues the controller has created for it. */
    constructor (config: IoConfig, iosq: SubmissionQueue, iocq: CompletionQueue)
      requires config.Valid() && iosq.Valid() && iocq.Valid() && iosq.size == iocq.size
      requires iosq.stride == config.Stride() && iosq.descriptorBase == config.base
      requires iosq.Host() == SqHost(iosq.size, 0, 0, 0, 0, seq(iosq.size, i => None)) && iosq.tailDoorbell == 0
      requires iocq.Host() == CqHost(iocq.size, 0, true) && iocq.headDoorbell == 0
      requires forall i :: 0 <= i < iocq.size ==> !iocq.buf[i].phase
      ensures Valid() && this.config == config && this.iosq == iosq && this.iocq == iocq
      ensures Init(Initially()) && Models(Initially()) && told == []
    {
      this.config, this.iosq, this.iocq, told := config, iosq, iocq, [];
      new;
      OffsetIsProduct(iosq.size, iosq.stride);
    }

    /** The protocol's state behind freshly created queues. */
    ghost function Initially(): State
      reads iosq, iosq.callbacks, iosq.buf, iosq.descriptors, iocq, iocq.buf
    {
      State(config.nsid, iosq.stride, iosq.Host(), iocq.Host(), Idle, None, iosq.buf[..], iocq.buf[..],
            iosq.descriptors[..], iosq.tailDoorbell, iocq.headDoorbell, Device(0, 0, true, map[]),
            History([], 0, 0, 0, [], 0, 0, [], seq(iosq.size, i => None)))
    }

    ghost predicate Valid()
      reads iosq, iosq.callbacks, iocq
    {
      && config.Valid() && iosq.Valid() && iocq.Valid() && iosq.size == iocq.size
      && iosq.stride == config.Stride() && iosq.descriptorBase == config.base
    }

    lemma ConfigIsValid()
      requires Valid()
      ensures config.Valid()
    {
    }

    /** The objects hold what the protocol state `s` says. */
    ghost predicate Models(s: State)
      reads iosq, iosq.callbacks, iosq.buf, iosq.descriptors, iocq, iocq.buf
    {
      && s.stride == iosq.stride && s.sq == iosq.Host() && s.cq == iocq.Host()
      && s.sqMem == iosq.buf[..] && s.cqMem == iocq.buf[..] && s.words == iosq.descriptors[..]
      && s.sqDb == iosq.tailDoorbell && s.cqDb == iocq.headDoorbell
    }

    /** One turn of the loop in `handle_irq`: `consume`, `complete` with the callback, which
        answers its client and may submit requests of the supply, and the head doorbell. */
    method HandleOne(supply: seq<Request>, ghost s: State)
      returns (more: bool, rest: seq<Request>, ghost ls: seq<Label>, ghost t: State)
      requires Valid() && Models(s) && Inv(s) && s.pc.Idle? && s.filling.None? && AllOk(config, supply)
      requires EndToEnd.AllEncoded(config, s.h)
      modifies iosq`head, iosq`freeHint, iosq`inFlight, iosq`tail, iosq`tailDoorbell, iosq.callbacks, iosq.buf
      modifies iosq.descriptors, iocq`head, iocq`phase, iocq`headDoorbell, this`told
      ensures Valid() && Models(t) && Inv(t) && t.pc.Idle? && t.filling.None?
      ensures EndToEnd.IoRun(config, s, ls, t) && t.h.posted == s.h.posted && AllOk(config, rest)
      ensures EndToEnd.AllEncoded(config, t.h)
      ensures more <==> s.h.consumed < |s.h.posted|
      ensures !more ==> t == s && rest == supply && told == old(told)
      ensures more ==> t.h.consumed == s.h.consumed + 1 && OneCall(s, t)
      ensures more ==> told != [] && told[..|told| - 1] == old(told)
      ensures more ==> EndToEnd.Answered(config, t.h.calls[|s.h.calls|], told[|told| - 1])
      ensures more ==> EndToEnd.Due(config, t.h, s.h.consumed, told[|told| - 1])
      ensures more ==> 0 <= Work(t) + 7 * |rest| < Work(s) + 7 * |supply|
    {
      hide Inv, WrapAround, Occupied, DoConsume, DoComplete, DoReturn, SqHost.AfterComplete, CqHost.AfterConsume;
      hide EndToEnd.IoRun, Work, AllOk, CanDispatch, EndToEnd.AllEncoded, EndToEnd.IoCallback, EndToEnd.Answered;
      hide EndToEnd.Due;
      IdleFacts(s);
      EndToEnd.IoNothing(config, s);
      var entry := iocq.Consume();
      if entry.None? {
        return false, supply, [], s;
      }
      Dispatched(s);
      DispatchWork(s);
      ghost var u := AfterDispatch(s);
      var cqe := iocq.buf[entry.value];
      var cb, status := iosq.Complete(cqe);
      DispatchedCall(config, s, cb, status);
      ghost var ms, v;
      rest, ms, v := RunCallback(cb, status, supply, u);
      Returned(v);
      iocq.Complete();
      more, t := true, DoReturn(v);
      ls := [Consume, Complete] + ms + [Label.Return];
      HandledRun(config, s, ms, v);
      HandledReturn(v);
      WorkNonNegative(t);
      Handled(config, s, ls, t, told[|told| - 1]);
    }

    /** The callback of a request answers its client: failure if the device reported an
        error, else success with the number of bytes. The client may then submit any
        requests it still wants to submit. This one submits the first; callers know only
        the contract. */
    method RunCallback(cb: Callback, status: nat, supply: seq<Request>, ghost s: State)
      returns (rest: seq<Request>, ghost ls: seq<Label>, ghost t: State)
      requires Valid() && Models(s) && Inv(s) && s.pc.Dispatching? && s.filling.None? && AllOk(config, supply)
      requires EndToEnd.IoCallback(config, cb)
      modifies iosq`inFlight, iosq`tail, iosq`tailDoorbell, iosq.callbacks, iosq.buf, iosq.descriptors, this`told
      ensures Valid() && Models(t) && Inv(t) && EndToEnd.IoRun(config, s, ls, t) && AllOk(config, rest)
      ensures t.pc == s.pc && t.filling.None? && t.h.posted == s.h.posted
      ensures t.h.consumed == s.h.consumed && t.h.calls == s.h.calls
      ensures Work(t) + 7 * |rest| <= Work(s) + 7 * |supply|
      ensures told != [] && told[..|told| - 1] == old(told)
      ensures forall f: nat :: EndToEnd.Answered(config, Call(f, cb, status), told[|told| - 1])
    {
      hide Inv, EndToEnd.IoRun, Work, Namespace.Models, Namespace.Valid, RequestOk, EndToEnd.Answered;
      ConfigIsValid();
      AnswerClient(cb, status);
      rest, ls, t := supply, [], s;
      EndToEnd.IoNothing(config, s);
      if supply != [] {
        var req := supply[0];
        rest := supply[1..];
        assert RequestOk(config, req);
        OkIsFormed(config, req);
        if req.op.WriteZeroes? {
          var result;
          result, t := Discard(req, s);
        } else {
          var accepted;
          accepted, t := InoutData(req, s);
        }
        if t != s {
          ls :| RequestBy(config, s, req, t, ls);
        }
      }
    }

    /** The closures `inout_data` and `discard` pass to `produce`. */
    method AnswerClient(cb: Callback, status: nat)
      requires Valid() && EndToEnd.IoCallback(config, cb)
      modifies this`told
      ensures told != [] && told[..|told| - 1] == old(told)
      ensures forall f: nat :: EndToEnd.Answered(config, Call(f, cb, status), told[|told| - 1])
    {
      hide InputOutput.IoConfig.Valid, EndToEnd.Answered;
      match cb {
        case TransferDone(req, bytes) =>
          told := told + [Told(req.client, if status != 0 then Answer(false, 0) else Answer(true, bytes))];
        case ZeroesDone(req) =>
          told := told + [Told(req.client, if status != 0 then Answer(false, 0) else Answer(true, 0))];
      }
      forall f: nat {
        EndToEnd.AnswerIsDue(config, Call(f, cb, status));
      }
    }

    /** What the device does between two turns of the handler: any number of its own steps.
        Doing nothing is one possibility; callers know only the contract. */
    method DeviceMoves(ghost s: State) returns (ghost ls: seq<Label>, ghost t: State)
      requires Valid() && Models(s) && Inv(s)
      modifies iocq.buf
      ensures Valid() && Models(t) && DeviceRun(s, ls, t)
    {
      RunNothing(s);
      ls, t := [], s;
    }

    /** `handle_irq`: while the device goes on and callbacks submit further requests, it runs
        the callbacks of all completions it finds, in posting order, until none is posted; a
        run of host and device as the end-to-end theorem has it. Each completion is answered:
        its client is told what the device reported for its own request. */
    method HandleIrq(supply: seq<Request>, ghost s: State)
      returns (rest: seq<Request>, ghost ls: seq<Label>, ghost t: State)
      requires Valid() && Models(s) && Inv(s) && s.pc.Idle? && s.filling.None? && AllOk(config, supply)
      requires EndToEnd.AllEncoded(config, s.h)
      modifies iosq`head, iosq`freeHint, iosq`inFlight, iosq`tail, iosq`tailDoorbell, iosq.callbacks, iosq.buf
      modifies iosq.descriptors, iocq`head, iocq`phase, iocq`headDoorbell, iocq.buf, this`told
      ensures Valid() && Models(t) && Inv(t) && EndToEnd.IoRun(config, s, ls, t) && EndToEnd.AllEncoded(config, t.h)
      ensures t.pc.Idle? && t.filling.None? && s.h.posted <= t.h.posted && t.h.consumed == |t.h.posted|
      ensures s.h.calls <= t.h.calls && |t.h.calls| == |t.h.posted|
      ensures |told| == |old(told)| + |t.h.posted| - s.h.consumed && old(told) <= told
      ensures var answers := told[|old(told)|..];
              forall i: nat :: i < |answers| ==> EndToEnd.Due(config, t.h, s.h.consumed + i, answers[i])
    {
      hide Inv, Run, EndToEnd.IoRun, Work, DeviceRun, AllOk, Namespace.Models, Namespace.Valid, EndToEnd.AllEncoded;
      hide EndToEnd.Answered, EndToEnd.Due;
      ConfigIsValid();
      ConsumedIsCalled(s);
      rest, ls, t := supply, [], s;
      EndToEnd.IoNothing(config, s);
      var more := true;
      ghost var before := told;
      while more
        invariant Valid() && Models(t) && Inv(t) && EndToEnd.IoRun(config, s, ls, t) && AllOk(config, rest)
        invariant t.pc.Idle? && t.filling.None? && s.h.posted <= t.h.posted && EndToEnd.AllEncoded(config, t.h)
        invariant !more ==> t.h.consumed == |t.h.posted|
        invariant AllAnswered(config, s.h.calls, t.h.calls, before, told)
        decreases Work(t) + 7 * |rest|, more
      {
        ghost var was := t;
        ghost var ds, u := DeviceMoves(was);
        AfterDevice(was, ds, u);
        DeviceRunIsIoRun(config, was, ds, u);
        EndToEnd.IoRunAppend(config, s, ls, was, ds, u);
        StillAllEncoded(config, was, ds, u);
        WorkNonNegative(was);
        ghost var so := told;
        ghost var hs;
        more, rest, hs, t := HandleOne(rest, u);
        EndToEnd.IoRunAppend(config, s, ls + ds, u, hs, t);
        ls := ls + ds + hs;
        ConsumedIsCalled(t);
        OneMoreAnswered(config, s.h.calls, u.h.calls, t.h.calls, before, so, told, more);
      }
      AllDue(config, s, t, before, told);
    }

    /** Fills the queue entry of a read or write: `readwrite_prepare_sgl` or
        `readwrite_prepare_prp`, and the part of `readwrite_submit` before the doorbell. */
    method PrepareEntry(req: Request, sectors: nat, count: nat, slot: nat)
      requires Valid() && slot < iosq.size && |req.blocks| >= 1 && !req.op.WriteZeroes?
      requires sectors == Sectors(config, req) && count == |Used(config, req)|
      modifies iosq.buf
      ensures iosq.buf[..] ==
              old(iosq.buf[..])[slot := Encode(config, req, old(iosq.buf[slot]), old(iosq.buf[slot].Cid()))]
    {
      hide Set, Get, Used, Sectors, Limits.MaxSize, Prp.ChoosePrp2, Limits.Controller.InRange;
      ControllerBounds(config.ctl);
      var e := iosq.buf[slot];
      var cid, here := e.Cid(), config.DescriptorAddress(e.Cid());
      e := e.(cdw0 := Set(e.cdw0, OPC, OpcodeOf(req.op)), nsid := config.nsid);
      e := e.(cdw0 := Set(e.cdw0, PSDT, if config.ctl.sgl then USE_SGLS else USE_PRPS));
      if config.ctl.sgl {
        e := e.(dptr2 := Set(e.dptr2, SGL_ID, SGL_LAST_SEGMENT), dptr1 := here);
      } else {
        ghost var ss := config.ctl.sectorSize;
        MulMonotone(0, sectors, ss);
        var sz, dma := sectors * config.ctl.sectorSize, req.blocks[0].dma;
        e := e.(dptr1 := dma, dptr2 := Prp.ChoosePrp2(Prp.PageSize(config.ctl.n), dma, sz, here));
      }
      e := e.(cdw10 := req.sector % TWO32, cdw11 := req.sector / TWO32, cdw13 := 0, cdw14 := 0, cdw15 := 0);
      if config.ctl.sgl {
        e := e.(dptr2 := Set(e.dptr2, SGL_LEN, 16 * count));
      }
      e := e.(cdw12 := Set(e.cdw12, LOW16, LessOne(sectors)));
      iosq.buf[slot] := e;
    }

    /** Fills the descriptors of command `cid`: the SGL segment or the PRP list. */
    method PrepareDescriptors(req: Request, sectors: nat, cid: nat)
      requires Valid() && cid < iosq.size && Formed(config, req) && !req.op.WriteZeroes?
      requires sectors == Sectors(config, req)
      modifies iosq.descriptors
      ensures HasRegion(old(iosq.descriptors[..]), cid, iosq.stride)
      ensures iosq.descriptors[..] ==
              Overlay(old(iosq.descriptors[..]), cid, iosq.stride,
                      EncodeDescriptors(config, req, cid, Region(old(iosq.descriptors[..]), cid, iosq.stride)))
    {
      hide Set, Get, Sectors, Limits.MaxSize, Limits.TransferLimit, Limits.Controller.InRange, Prp.ListWords;
      hide Prp.FitsList, Sgl.Descriptors;
      ControllerBounds(config.ctl);
      ghost var words := iosq.descriptors[..];
      OffsetIsProduct(iosq.size, iosq.stride);
      RegionInBuffer(words, iosq.size, cid, iosq.stride);
      OffsetIsProduct(cid, iosq.stride);
      var at := cid * iosq.stride;
      if config.ctl.sgl {
        var used := req.blocks[..Prp.Min(|req.blocks|, config.ctl.segments)];
        Sgl.ConstructSgl(used, config.ctl.sectorSize, iosq.descriptors, at);
        SglOverlay(config, req, words, cid, at, used);
      } else {
        PrpFits(config, req);
        MulMonotone(0, sectors, config.ctl.sectorSize);
        var remains := Prp.ConstructList(config.ctl.n, config.ctl.k, config.DescriptorAddress(cid), req.blocks[0].dma,
                                         sectors * config.ctl.sectorSize, iosq.descriptors, at);
        assert remains == 0;
        PrpOverlay(config, req, words, cid,
                   Prp.ListWords(config.ctl.n, config.DescriptorAddress(cid), req.blocks[0].dma,
                                 sectors * config.ctl.sectorSize));
      }
    }

    /** `inout_data`: refuses when the queue does, changing nothing; otherwise prepares,
        fills and submits one command, which is a run of the protocol's request path, and
        for a request within the limits one the end-to-end theorem is about. */
    method InoutData(req: Request, ghost s: State) returns (accepted: bool, ghost t: State)
      requires Valid() && Models(s) && Inv(s) && !s.pc.Consumed? && s.filling.None?
      requires Formed(config, req) && !req.op.WriteZeroes?
      modifies iosq`inFlight, iosq`tail, iosq`tailDoorbell, iosq.callbacks, iosq.buf, iosq.descriptors
      ensures Valid() && Models(t) && Inv(t) && t.pc == s.pc && t.filling.None?
      ensures accepted <==> !s.sq.Refuses()
      ensures !accepted ==> t == s
      ensures accepted ==> RequestSteps(config, s, req, t) && OneRequest(s, t) && Work(t) == Work(s) + 6
    {
      hide Inv, WrapAround, Occupied, Set, Get, Used, Sectors, Limits.MaxSize, Limits.TransferLimit;
      hide Limits.Controller.InRange, RequestOk, RequestSteps, Work;
      hide Encode, EncodeDescriptors, Overlay, Region, HasRegion, FreshSqe, EndToEnd.IoRun, SqHost.AfterProduce;
      var sectors, count := CountRequest(req);
      var entry := iosq.Produce(CallbackFor(config, req));
      if entry.None? {
        return false, s;
      }
      ProducedEntry(s);
      var slot := entry.value;
      var cid := iosq.buf[slot].Cid();
      PrepareEntry(req, sectors, count, slot);
      PrepareDescriptors(req, sectors, cid);
      iosq.Submit();
      Submitted(config, s, req);
      RequestEffect(config, s, req);
      accepted := true;
      t := AfterRequest(config, s, req);
    }

    /** The number of sectors and segments one command covers. */
    method CountRequest(req: Request) returns (sectors: nat, count: nat)
      requires Valid() && Formed(config, req) && !req.op.WriteZeroes?
      ensures |req.blocks| >= 1 && sectors == Sectors(config, req) && count == |Used(config, req)|
    {
      hide Limits.MaxSize, Sgl.SumSectors;
      if config.ctl.sgl {
        sectors, count := Sgl.CountSectors(req.blocks, config.ctl.segments);
      } else {
        sectors := Prp.Min(req.blocks[0].sectors, Limits.MaxSize(config.ctl) / config.ctl.sectorSize);
        count := 1;
        OneBlock(Used(config, req)[0]);
      }
    }

    /** `discard` with write-zeroes: an empty or oversized range, whose length the block
        count field cannot express, is refused before anything is touched. */
    method Discard(req: Request, ghost s: State) returns (result: DiscardResult, ghost t: State)
      requires Valid() && Models(s) && Inv(s) && !s.pc.Consumed? && s.filling.None?
      requires Formed(config, req) && req.op.WriteZeroes?
      modifies iosq`inFlight, iosq`tail, iosq`tailDoorbell, iosq.callbacks, iosq.buf
      ensures Valid() && Models(t) && Inv(t) && t.pc == s.pc && t.filling.None?
      ensures result.Invalid? <==> !RequestOk(config, req)
      ensures result.Busy? <==> RequestOk(config, req) && s.sq.Refuses()
      ensures !result.Accepted? ==> t == s
      ensures result.Accepted? ==> RequestSteps(config, s, req, t) && OneRequest(s, t) && Work(t) == Work(s) + 6
    {
      hide Inv, WrapAround, Occupied, Set, Get, Used, Sectors, Limits.MaxSize, Limits.TransferLimit;
      hide Limits.Controller.InRange, RequestOk, RequestSteps, Work, LessOne;
      hide Overlay, Region, HasRegion, FreshSqe, EndToEnd.IoRun, SqHost.AfterProduce;
      DiscardRange(config, req);
      var sectors := req.blocks[0].sectors;
      if sectors == 0 || sectors > TWO16 {
        return Invalid, s;
      }
      var entry := iosq.Produce(CallbackFor(config, req));
      if entry.None? {
        return Busy, s;
      }
      ProducedEntry(s);
      var slot := entry.value;
      var e := iosq.buf[slot];
      e := e.(cdw0 := Set(e.cdw0, OPC, OP_WRITE_ZEROES), nsid := config.nsid);
      e := e.(cdw10 := req.sector % TWO32, cdw11 := req.sector / TWO32);
      e := e.(cdw12 := Set(e.cdw12, LOW16, LessOne(sectors)));
      e := e.(cdw12 := Set(e.cdw12, DEAC, if req.op.unmap then 1 else 0), cdw14 := 0, cdw15 := 0);
      iosq.buf[slot] := e;
      iosq.Submit();
      Submitted(config, s, req);
      RequestEffect(config, s, req);
      ZeroesKeepDescriptors(config, s, req);
      result := Accepted;
      t := AfterRequest(config, s, req);
    }
  }

  datatype DiscardResult = Accepted | Busy | Invalid
}
