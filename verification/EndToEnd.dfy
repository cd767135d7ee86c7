/** Requests from submission to callback: the queue pair run by a host that submits
    only what `inout_data` and `discard` prepare. */
module EndToEnd {
  import opened Ring
  import opened SubmissionQueues
  import opened Types
  import opened PhysicalMemory
  import opened Protocol
  import opened QueueInvariant
  import opened QueueGuarantees
  import opened InputOutput

  /** The request a callback was created for. */
  function RequestOf(cb: Callback): Option<Request>
  {
    match cb
    case TransferDone(req, _) => Some(req)
    case ZeroesDone(req) => Some(req)
    case _ => None
  }

  /** The callback belongs to a legal request and captured what it should. */
  ghost predicate IoCallback(ns: IoConfig, cb: Callback)
    requires ns.Valid()
  {
    var req := RequestOf(cb);
    req.Some? && RequestOk(ns, req.value) && cb == CallbackFor(ns, req.value)
  }

  /** Entry and descriptors hold the encoding of the request of their callback. */
  ghost predicate Encoded(ns: IoConfig, e: Entry)
    requires ns.Valid()
  {
    && IoCallback(ns, e.cb)
    && e.cid < TWO16
    && exists clean: Sqe, previous: seq<nat> ::
         && |previous| == ns.Stride() && Blank(clean, e.cid)
         && e.sqe == Encode(ns, RequestOf(e.cb).value, clean, e.cid)
         && e.region == EncodeDescriptors(ns, RequestOf(e.cb).value, e.cid, previous)
  }

  /** The steps of a host that runs the I/O code: `produce` gets the closure of a legal
      request, and the doorbell is rung once the entry is completely encoded. */
  ghost predicate IoStep(ns: IoConfig, s: State, l: Label)
    requires ns.Valid() && Shape(s) && Enabled(s, l)
  {
    match l
    case Produce(cb) => IoCallback(ns, cb)
    case Submit => Encoded(ns, s.h.log[|s.h.log| - 1])
    case _ => true
  }

  ghost predicate IoRun(ns: IoConfig, s: State, ls: seq<Label>, t: State)
    requires ns.Valid()
    decreases |ls|
  {
    if ls == [] then s == t
    else Shape(s) && Enabled(s, ls[0]) && IoStep(ns, s, ls[0]) && IoRun(ns, Apply(s, ls[0]), ls[1..], t)
  }

  /** All submitted commands hold the encoding of their requests. */
  ghost predicate AllEncoded(ns: IoConfig, h: History)
    requires ns.Valid()
  {
    h.rung <= |h.log| && forall f: nat :: f < h.rung ==> Encoded(ns, h.log[f])
  }

  lemma StepEncoded(ns: IoConfig, s: State, l: Label)
    requires ns.Valid() && Inv(s) && Enabled(s, l) && IoStep(ns, s, l) && AllEncoded(ns, s.h)
    ensures AllEncoded(ns, Apply(s, l).h)
  {
    hide Inv, Encoded, Shape, Enabled, Apply, IoCallback, IoConfig.Valid;
    InvParts(s);
    StepLater(s, l);
    NewlySubmitted(ns, s, l);
  }

  lemma NewlySubmitted(ns: IoConfig, s: State, l: Label)
    requires ns.Valid() && Shape(s) && RingPart(s) && Enabled(s, l) && IoStep(ns, s, l)
    ensures forall f: nat :: s.h.rung <= f < Apply(s, l).h.rung
              ==> f < |Apply(s, l).h.log| && Encoded(ns, Apply(s, l).h.log[f])
  {
    hide Encoded, IoCallback, IoConfig.Valid, Entries, WrapAround, Occupied, CompletionValid, Slot, HasRegion;
    hide Region, Overlay;
    if l.Submit? {
      assert s.h.rung + 1 == |s.h.log| && Apply(s, l).h.log == s.h.log;
    } else {
      assert Apply(s, l).h.rung == s.h.rung;
    }
  }

  lemma {:induction false} RunEncoded(ns: IoConfig, s: State, ls: seq<Label>, t: State)
    requires ns.Valid() && Inv(s) && AllEncoded(ns, s.h) && IoRun(ns, s, ls, t)
    ensures Inv(t) && AllEncoded(ns, t.h) && Run(s, ls, t)
    decreases |ls|
  {
    hide Inv, AllEncoded, Apply, IoStep, IoConfig.Valid;
    if ls == [] {
    } else {
      StepEncoded(ns, s, ls[0]);
      StepInv(s, ls[0]);
      RunEncoded(ns, Apply(s, ls[0]), ls[1..], t);
    }
  }

  /** End to end. In every run of host and device from the initial state, with any
      interleaving and any completion order: the m-th callback run belongs to one
      accepted request and to no other call; if its status is zero, the device has
      carried out exactly the requested operation on exactly the blocks and, for a
      transfer, exactly the memory bytes in order that one command covers, which is the
      whole request if and only if `Covers` holds; and the client is told success and the
      number of bytes this moved. */
  lemma {:induction false} RequestsAreCarriedOut(ns: IoConfig, s: State, ls: seq<Label>, t: State, m: nat)
    requires ns.Valid() && Init(s) && s.stride == ns.Stride() && IoRun(ns, s, ls, t)
    requires m < |t.h.calls|
    ensures forall i: nat :: i < |t.h.calls| && i != m ==> t.h.calls[i].serial != t.h.calls[m].serial
    ensures |t.h.calls| <= |t.h.posted|
    ensures var call, done := t.h.calls[m], t.h.posted[m];
            && IoCallback(ns, call.cb) && done.serial == call.serial && done.cqe.sf == call.status
            && call.serial < |t.h.log| && call.cb == t.h.log[call.serial].cb
            && (call.status == 0 ==>
                  && done.seen.Some?
                  && var req, mem := RequestOf(call.cb).value, Memory(ns.base, done.seen.value);
                     var effect := Requested(ns, req);
                     && Interpret(ns.ctl.n, ns.ctl.sectorSize, mem, done.sqe) == Some(effect)
                     && ClientAnswer(call.cb, call.status) == Some(Answer(true, BytesMoved(effect)))
                     && (effect == WholeRequest(ns, req) <==> Covers(ns, req)))
            && (call.status != 0 ==> ClientAnswer(call.cb, call.status) == Some(Answer(false, 0)))
  {
    hide Inv, Shape, IoConfig.Valid, IoConfig.Stride, Run, IoRun, Encoded, Interpret, Requested, RequestOk, Sectors;
    hide BytesMoved, WholeRequest, Covers;
    InitInv(s);
    assert AllEncoded(ns, s.h);
    RunEncoded(ns, s, ls, t);
    RunStride(s, ls, t);
    assert Reachable(t);
    CallsAreFaithful(t);
    CallOfEncoded(ns, t, m);
    CallbackAnswers(ns, t.h.calls[m].cb, t.h.calls[m].status);
    CallbackCovers(ns, t.h.calls[m].cb);
  }

  lemma CallbackCovers(ns: IoConfig, cb: Callback)
    requires ns.Valid() && IoCallback(ns, cb)
    ensures var req := RequestOf(cb).value;
            |req.blocks| >= 1 && (Requested(ns, req) == WholeRequest(ns, req) <==> Covers(ns, req))
  {
    hide Requested, WholeRequest, Covers, Formed, IoConfig.Valid;
    OkIsFormed(ns, RequestOf(cb).value);
    EffectIsWhole(ns, RequestOf(cb).value);
  }

  lemma OkIsFormed(ns: IoConfig, req: Request)
    requires ns.Valid() && RequestOk(ns, req)
    ensures Formed(ns, req) && |req.blocks| >= 1
  {
    hide IoConfig.Valid, Sectors;
  }

  lemma CallbackAnswers(ns: IoConfig, cb: Callback, status: nat)
    requires ns.Valid() && IoCallback(ns, cb)
    ensures ClientAnswer(cb, status)
         == Some(if status == 0 then Answer(true, BytesMoved(Requested(ns, RequestOf(cb).value))) else Answer(false, 0))
  {
    hide IoConfig.Valid, Requested, BytesMoved, RequestOk, Sectors;
    var req := RequestOf(cb).value;
    assert |req.blocks| >= 1 by {
      OkHasBlocks(ns, req);
    }
    AnswerIsBytesMoved(ns, req);
  }

  /** The answer due for a call: success with the bytes the request moves if and only if the
      status is zero. */
  ghost predicate Answered(ns: IoConfig, call: Call, a: Told)
    requires ns.Valid()
  {
    && IoCallback(ns, call.cb)
    && var req := RequestOf(call.cb).value;
       && |req.blocks| >= 1
       && a.client == req.client
       && a.answer == if call.status == 0 then Answer(true, BytesMoved(Requested(ns, req))) else Answer(false, 0)
  }

  /** The answer due for the k-th completion the device has posted: to the client of the
      request whose command it completes, by the status it carries. */
  ghost predicate Due(ns: IoConfig, h: History, k: nat, a: Told)
    requires ns.Valid()
  {
    && k < |h.posted| && h.posted[k].serial < |h.log|
    && Answered(ns, Call(h.posted[k].serial, h.log[h.posted[k].serial].cb, h.posted[k].cqe.sf), a)
  }

  /** A callback of a run computes the answer due. */
  lemma AnswerIsDue(ns: IoConfig, call: Call)
    requires ns.Valid() && IoCallback(ns, call.cb)
    ensures ClientAnswer(call.cb, call.status).Some?
    ensures Answered(ns, call, Told(RequestOf(call.cb).value.client, ClientAnswer(call.cb, call.status).value))
  {
    hide IoConfig.Valid, Requested, BytesMoved, RequestOk, Sectors, ClientAnswer;
    OkHasBlocks(ns, RequestOf(call.cb).value);
    CallbackAnswers(ns, call.cb, call.status);
  }

  /** The call made last is that of the completion consumed last. */
  lemma CallIsDue(ns: IoConfig, t: State, m: nat, a: Told)
    requires ns.Valid() && Inv(t) && m < |t.h.calls| && m < |t.h.posted| && Answered(ns, t.h.calls[m], a)
    ensures Due(ns, t.h, m, a)
  {
    hide Inv, IoConfig.Valid, Answered;
    CallFacts(t, m);
  }

  /** The callback of a call is that of an encoded request. */
  lemma CallOfRequest(ns: IoConfig, t: State, m: nat)
    requires ns.Valid() && Inv(t) && AllEncoded(ns, t.h) && m < |t.h.calls| && m < |t.h.posted|
    ensures IoCallback(ns, t.h.calls[m].cb)
  {
    hide Inv, IoConfig.Valid, IoCallback, Encode, EncodeDescriptors, IoConfig.Stride;
    CallFacts(t, m);
  }

  lemma OkHasBlocks(ns: IoConfig, req: Request)
    requires ns.Valid() && RequestOk(ns, req)
    ensures |req.blocks| >= 1
  {
    hide IoConfig.Valid, Sectors;
  }

  lemma {:induction false} RunStride(s: State, ls: seq<Label>, t: State)
    requires Run(s, ls, t)
    ensures t.stride == s.stride && t.sq.size == s.sq.size
    decreases |ls|
  {
    if ls == [] {
    } else {
      hide Shape, Enabled, WrapAround, Overlay, Region, CompletionValid;
      RunStride(Apply(s, ls[0]), ls[1..], t);
    }
  }

  /** One callback, from the invariant. */
  lemma CallOfEncoded(ns: IoConfig, t: State, m: nat)
    requires ns.Valid() && Inv(t) && t.stride == ns.Stride() && AllEncoded(ns, t.h)
    requires m < |t.h.calls| && m < |t.h.posted|
    ensures var call, done := t.h.calls[m], t.h.posted[m];
            && call.serial < |t.h.log| && call == Call(done.serial, t.h.log[done.serial].cb, done.cqe.sf)
            && IoCallback(ns, call.cb)
            && (call.status == 0 ==>
                  && done.seen.Some?
                  && Interpret(ns.ctl.n, ns.ctl.sectorSize, Memory(ns.base, done.seen.value), done.sqe)
                     == Some(Requested(ns, RequestOf(call.cb).value)))
  {
    hide Inv, IoConfig.Valid, IoConfig.Stride, Interpret, Requested, RequestOk, HasRegion, Region, Encode;
    hide EncodeDescriptors, CallbackFor, Encoded, IoCallback;
    CallFacts(t, m);
    var done := t.h.posted[m];
    var e := t.h.log[done.serial];
    EncodedIsCarriedOut(ns, e, done);
  }

  /** What the queue pair's invariant says about the m-th callback. */
  lemma CallFacts(t: State, m: nat)
    requires Inv(t) && m < |t.h.calls| && m < |t.h.posted|
    ensures var done := t.h.posted[m];
            && done.serial < t.h.rung && done.serial < |t.h.log|
            && t.h.calls[m] == Call(done.serial, t.h.log[done.serial].cb, done.cqe.sf)
            && done.sqe == t.h.log[done.serial].sqe
            && Saw(done.seen, t.h.log[done.serial], t.stride) && (done.cqe.sf == 0 ==> done.seen.Some?)
  {
    hide Slot, Phase, Shape, HasRegion, Region, Saw;
    hide Entries, CompletionPart, Table, InRing, OnDevice, Distinct, Accounted, Kept, RunningSaw;
    assert PostedOk(t.qid, t.h.log, t.h.owner, t.h.fetched, t.h.posted[m]);
    assert CallOk(t.h.log, t.h.posted[m], t.h.calls[m]);
  }

  lemma EncodedIsCarriedOut(ns: IoConfig, e: Entry, done: Posted)
    requires ns.Valid() && Encoded(ns, e) && done.sqe == e.sqe && Saw(done.seen, e, ns.Stride())
    ensures IoCallback(ns, e.cb)
    ensures done.seen.Some? ==>
              Interpret(ns.ctl.n, ns.ctl.sectorSize, Memory(ns.base, done.seen.value), done.sqe)
              == Some(Requested(ns, RequestOf(e.cb).value))
  {
    hide IoConfig.Valid, IoConfig.Stride, Interpret, Requested, HasRegion, Region, Encode, EncodeDescriptors;
    hide CallbackFor;
    var req := RequestOf(e.cb).value;
    var clean: Sqe, previous: seq<nat> :|
      && |previous| == ns.Stride() && Blank(clean, e.cid)
      && e.sqe == Encode(ns, req, clean, e.cid)
      && e.region == EncodeDescriptors(ns, req, e.cid, previous);
    if done.seen.Some? {
      CarriedOutAsRequested(ns, req, clean, e.cid, previous, done.seen.value);
    }
  }

  lemma IoNothing(ns: IoConfig, s: State)
    requires ns.Valid()
    ensures IoRun(ns, s, [], s)
  {
  }

  /** A run goes on by one more step. */
  lemma {:induction false} IoOneMore(ns: IoConfig, s: State, ls: seq<Label>, u: State, l: Label)
    requires ns.Valid() && IoRun(ns, s, ls, u) && Shape(u) && Enabled(u, l) && IoStep(ns, u, l)
    ensures IoRun(ns, s, ls + [l], Apply(u, l))
  {
    hide Apply, Enabled, Shape, IoStep, IoConfig.Valid;
    assert [l][1..] == [];
    IoNothing(ns, Apply(u, l));
    assert IoRun(ns, u, [l], Apply(u, l));
    IoRunAppend(ns, s, ls, u, [l], Apply(u, l));
  }

  lemma {:induction false} IoRunAppend(ns: IoConfig, s: State, ls: seq<Label>, u: State, ms: seq<Label>, t: State)
    requires ns.Valid() && IoRun(ns, s, ls, u) && IoRun(ns, u, ms, t)
    ensures IoRun(ns, s, ls + ms, t)
    decreases |ls|
  {
    hide Apply, Enabled, Shape, IoStep, IoConfig.Valid;
    if ls == [] {
      assert ls + ms == ms;
    } else {
      assert (ls + ms)[0] == ls[0] && (ls + ms)[1..] == ls[1..] + ms;
      IoRunAppend(ns, Apply(s, ls[0]), ls[1..], u, ms, t);
    }
  }

  lemma {:induction false} EncodedBy(ns: IoConfig, e: Entry, req: Request, clean: Sqe, previous: seq<nat>)
    requires ns.Valid() && RequestOk(ns, req) && e.cb == CallbackFor(ns, req) && |previous| == ns.Stride()
    requires e.cid < TWO16 && Blank(clean, e.cid)
    requires e.sqe == Encode(ns, req, clean, e.cid) && e.region == EncodeDescriptors(ns, req, e.cid, previous)
    ensures Encoded(ns, e) && IoCallback(ns, e.cb)
  {
    hide Encode, EncodeDescriptors, IoConfig.Valid, IoConfig.Stride, Sectors, Used;
  }
}
