/** The queue pair as a protocol between host and device: one submission queue,
    one completion queue, their memory and doorbells, the host's interrupt handler
    and request path, and a device that behaves as sections 4.1 and 4.6 of the
    NVM Express Base Specification 1.4 say. Each label is one atomic step. */
module Protocol {
  import opened Arithmetic
  import opened Ring
  import opened Types
  import opened SubmissionQueues
  import opened CompletionQueues

  /** Where the host's interrupt handler stands: outside, between `consume` and
      `complete`, or running a callback before the head doorbell is rung. */
  datatype IrqPc = Idle | Consumed(slot: nat) | Dispatching

  /** A command the device has fetched; `seen` is the descriptor memory it found
      when it carried the command out. */
  datatype Running = Running(sqe: Sqe, seen: Option<seq<nat>>)

  datatype Device = Device(sqHead: nat, cqTail: nat, phase: bool, running: map<nat, Running>)

  /** An accepted `produce`: its callback, its identifier, and the last contents
      the host gave its queue entry and its descriptor region. */
  datatype Entry = Entry(cb: Callback, cid: nat, sqe: Sqe, region: seq<nat>)

  /** A posted completion: for which command (by serial number), what the device
      had fetched and seen for it, its head counter, and the entry written. */
  datatype Posted = Posted(serial: nat, sqe: Sqe, seen: Option<seq<nat>>, head: nat, cqe: Cqe)

  /** A callback run: which accepted `produce` it belongs to, and its status. */
  datatype Call = Call(serial: nat, cb: Callback, status: nat)

  /** Unbounded counters and logs that no register holds. Serial number `f` is the
      position of an accepted `produce` in `log`. */
  datatype History = History(
    log: seq<Entry>, rung: nat, fetched: nat, head: nat,
    posted: seq<Posted>, consumed: nat, acked: nat,
    calls: seq<Call>, owner: seq<Option<nat>>)

  datatype State = State(
    qid: nat, stride: nat,
    sq: SqHost, cq: CqHost, pc: IrqPc, filling: Option<nat>,
    sqMem: seq<Sqe>, cqMem: seq<Cqe>, words: seq<nat>, sqDb: nat, cqDb: nat,
    dev: Device, h: History)

  const STATUS_SPAN: nat := 0x8000 // the status field is 15 bits wide

  datatype Label =
    | Produce(cb: Callback)
    | Fill(sqe: Sqe, region: seq<nat>)
    | Submit
    | Fetch
    | Execute(running: nat)
    | Post(command: nat, status: nat)
    | Consume
    | Complete
    | Return

  // ---------------------------------------------------------------------
  // Descriptor regions
  // ---------------------------------------------------------------------

  /** The first descriptor word of command identifier `cid`. */
  function Offset(cid: nat, stride: nat): nat
  {
    if cid == 0 then 0 else Offset(cid - 1, stride) + stride
  }

  /** The offset is the product that `sgls_paddr` and `readwrite_prepare_prp` compute. */
  lemma {:induction false} OffsetIsProduct(cid: nat, stride: nat)
    ensures Offset(cid, stride) == cid * stride
  {
    if cid > 0 {
      OffsetIsProduct(cid - 1, stride);
      Distribute(cid - 1, 1, stride);
    }
  }

  lemma {:induction false} OffsetMonotone(a: nat, b: nat, stride: nat)
    requires a <= b
    ensures Offset(a, stride) <= Offset(b, stride)
  {
    if a < b {
      OffsetMonotone(a, b - 1, stride);
    }
  }

  ghost predicate HasRegion(words: seq<nat>, cid: nat, stride: nat)
  {
    Offset(cid, stride) + stride <= |words|
  }

  /** The descriptor words of command identifier `cid`. */
  function Region(words: seq<nat>, cid: nat, stride: nat): (r: seq<nat>)
    requires HasRegion(words, cid, stride)
    ensures |r| == stride
  {
    var start := Offset(cid, stride);
    words[start..start + stride]
  }

  function Overlay(words: seq<nat>, cid: nat, stride: nat, region: seq<nat>): (r: seq<nat>)
    requires HasRegion(words, cid, stride) && |region| == stride
    ensures |r| == |words|
  {
    var start := Offset(cid, stride);
    var before, after := words[..start], words[start + stride..];
    assert |before| == start && |after| == |words| - start - stride;
    assert |before + region| == start + stride;
    before + region + after
  }

  /** Every identifier of the queue has its region inside the buffer. */
  lemma {:induction false} RegionInBuffer(words: seq<nat>, q: nat, cid: nat, stride: nat)
    requires cid < q && |words| == Offset(q, stride)
    ensures HasRegion(words, cid, stride)
  {
    OffsetMonotone(cid + 1, q, stride);
  }

  /** Writing one command's descriptors gives it these contents and leaves every
      other command's descriptors alone. */
  lemma {:induction false} OverlayRegions(words: seq<nat>, cid: nat, other: nat, stride: nat, region: seq<nat>)
    requires HasRegion(words, cid, stride) && HasRegion(words, other, stride) && |region| == stride
    ensures HasRegion(Overlay(words, cid, stride, region), other, stride)
    ensures Region(Overlay(words, cid, stride, region), other, stride)
         == if other == cid then region else Region(words, other, stride)
  {
    var o, start := Offset(other, stride), Offset(cid, stride);
    if other < cid {
      OffsetMonotone(other + 1, cid, stride);
      assert o + stride <= start;
    } else if other > cid {
      OffsetMonotone(cid + 1, other, stride);
      assert start + stride <= o;
    }
    hide Offset;
    SpliceSlice(words, start, region, o);
  }

  lemma {:induction false} SpliceSlice(words: seq<nat>, start: nat, region: seq<nat>, o: nat)
    requires start + |region| <= |words| && o + |region| <= |words|
    requires o == start || o + |region| <= start || start + |region| <= o
    ensures (words[..start] + region + words[start + |region|..])[o..o + |region|]
         == if o == start then region else words[o..o + |region|]
  {
  }

  // ---------------------------------------------------------------------
  // Steps
  // ---------------------------------------------------------------------

  /** Sizes and index ranges. */
  ghost predicate Shape(s: State)
  {
    var q := s.sq.size;
    && s.sq.Valid() && s.cq.size == q && s.cq.head < q
    && |s.sqMem| == q && |s.cqMem| == q && |s.h.owner| == q
    && s.dev.sqHead < q && s.dev.cqTail < q
    && |s.words| == Offset(q, s.stride)
    && (s.filling.Some? ==> s.filling.value < q && |s.h.log| > 0
                            && HasRegion(s.words, s.h.log[|s.h.log| - 1].cid, s.stride))
    && (s.pc.Consumed? ==> s.pc.slot < q)
  }

  /** What `complete` asserts about the entry it is given. */
  ghost predicate CompletionValid(s: State, cqe: Cqe)
    requires Shape(s)
  {
    && cqe.cid < s.sq.size && cqe.sqhd < s.sq.size && cqe.sqid == s.qid
    && s.sq.callbacks[cqe.cid].Some? && s.h.owner[cqe.cid].Some?
  }

  ghost predicate Enabled(s: State, l: Label)
    requires Shape(s)
  {
    match l
    case Produce(cb) => !s.pc.Consumed? && s.filling.None? && !s.sq.Refuses()
    case Fill(sqe, region) =>
      s.filling.Some? && |region| == s.stride && sqe.Cid() == s.h.log[|s.h.log| - 1].cid
    case Submit => s.filling.Some?
    case Fetch => s.dev.sqHead != s.sqDb
    case Execute(f) => f in s.dev.running && s.dev.running[f].seen.None?
    case Post(f, status) =>
      && f in s.dev.running && status < STATUS_SPAN && (status == 0 ==> s.dev.running[f].seen.Some?)
      && WrapAround(s.dev.cqTail + 1, s.sq.size) != s.cqDb
    case Consume => s.pc.Idle? && s.filling.None? && s.cq.Accepts(s.cqMem[s.cq.head])
    case Complete => s.pc.Consumed? && CompletionValid(s, s.cqMem[s.pc.slot])
    case Return => s.pc.Dispatching? && s.filling.None?
  }

  function DoProduce(s: State, cb: Callback): State
    requires Shape(s) && Enabled(s, Produce(cb))
  {
    var cid := s.sq.NextCid();
    var sqe := FreshSqe(s.sqMem[s.sq.tail], cid);
    RegionInBuffer(s.words, s.sq.size, cid, s.stride);
    s.(sq := s.sq.AfterProduce(cb),
       sqMem := s.sqMem[s.sq.tail := sqe],
       filling := Some(s.sq.tail),
       h := s.h.(log := s.h.log + [Entry(cb, cid, sqe, Region(s.words, cid, s.stride))],
                 owner := s.h.owner[cid := Some(|s.h.log|)]))
  }

  function DoFill(s: State, sqe: Sqe, region: seq<nat>): State
    requires Shape(s) && Enabled(s, Fill(sqe, region))
  {
    var last := |s.h.log| - 1;
    var e := s.h.log[last];
    s.(sqMem := s.sqMem[s.filling.value := sqe],
       words := Overlay(s.words, e.cid, s.stride, region),
       h := s.h.(log := s.h.log[last := e.(sqe := sqe, region := region)]))
  }

  function DoSubmit(s: State): State
    requires Shape(s) && Enabled(s, Submit)
  {
    s.(sqDb := s.sq.tail, filling := None, h := s.h.(rung := |s.h.log|))
  }

  function DoFetch(s: State): State
    requires Shape(s) && Enabled(s, Fetch)
  {
    s.(dev := s.dev.(sqHead := WrapAround(s.dev.sqHead + 1, s.sq.size),
                     running := s.dev.running[s.h.fetched := Running(s.sqMem[s.dev.sqHead], None)]),
       h := s.h.(fetched := s.h.fetched + 1))
  }

  function DoExecute(s: State, f: nat): State
    requires Shape(s) && Enabled(s, Execute(f))
  {
    s.(dev := s.dev.(running := s.dev.running[f := s.dev.running[f].(seen := Some(s.words))]))
  }

  function DoPost(s: State, f: nat, status: nat): State
    requires Shape(s) && Enabled(s, Post(f, status))
  {
    var r := s.dev.running[f];
    var cqe := Cqe(s.qid, s.dev.sqHead, r.sqe.Cid(), s.dev.phase, status);
    var next := WrapAround(s.dev.cqTail + 1, s.sq.size);
    s.(cqMem := s.cqMem[s.dev.cqTail := cqe],
       dev := s.dev.(cqTail := next,
                     phase := if next == 0 then !s.dev.phase else s.dev.phase,
                     running := s.dev.running - {f}),
       h := s.h.(posted := s.h.posted + [Posted(f, r.sqe, r.seen, s.h.fetched, cqe)]))
  }

  function DoConsume(s: State): State
    requires Shape(s) && Enabled(s, Consume)
  {
    s.(cq := s.cq.AfterConsume(), pc := Consumed(s.cq.head),
       h := s.h.(consumed := s.h.consumed + 1))
  }

  function DoComplete(s: State): State
    requires Shape(s) && Enabled(s, Complete)
  {
    var cqe := s.cqMem[s.pc.slot];
    OccupiedFull(s.sq.callbacks);
    var m := |s.h.calls|;
    s.(sq := s.sq.AfterComplete(cqe), pc := Dispatching,
       h := s.h.(calls := s.h.calls + [Call(s.h.owner[cqe.cid].value, s.sq.callbacks[cqe.cid].value, cqe.sf)],
                 owner := s.h.owner[cqe.cid := None],
                 head := if m < |s.h.posted| then s.h.posted[m].head else s.h.head))
  }

  function DoReturn(s: State): State
    requires Shape(s) && Enabled(s, Return)
  {
    s.(cqDb := s.cq.head, pc := Idle, h := s.h.(acked := s.h.consumed))
  }

  function Apply(s: State, l: Label): State
    requires Shape(s) && Enabled(s, l)
  {
    match l
    case Produce(cb) => DoProduce(s, cb)
    case Fill(sqe, region) => DoFill(s, sqe, region)
    case Submit => DoSubmit(s)
    case Fetch => DoFetch(s)
    case Execute(f) => DoExecute(s, f)
    case Post(f, status) => DoPost(s, f, status)
    case Consume => DoConsume(s)
    case Complete => DoComplete(s)
    case Return => DoReturn(s)
  }

  /** The state in which the constructors of both queues leave host and memory, and
      queue creation leaves the device. */
  ghost predicate Init(s: State)
  {
    var q := s.sq.size;
    && 2 <= q < TWO16
    && s.sq == SqHost(q, 0, 0, 0, 0, seq(q, i => None))
    && s.cq == CqHost(q, 0, true)
    && s.pc == Idle && s.filling == None
    && |s.sqMem| == q && |s.cqMem| == q && (forall i :: 0 <= i < q ==> !s.cqMem[i].phase)
    && |s.words| == Offset(q, s.stride)
    && s.sqDb == 0 && s.cqDb == 0
    && s.dev == Device(0, 0, true, map[])
    && s.h == History([], 0, 0, 0, [], 0, 0, [], seq(q, i => None))
  }

  /** `t` is reached from `s` by the steps `ls`. */
  ghost predicate Run(s: State, ls: seq<Label>, t: State)
    decreases |ls|
  {
    if ls == [] then s == t
    else Shape(s) && Enabled(s, ls[0]) && Run(Apply(s, ls[0]), ls[1..], t)
  }

  ghost predicate Reachable(t: State)
  {
    exists s: State, ls: seq<Label> :: Init(s) && Run(s, ls, t)
  }
}
