/** Admin submission queue entries: how the driver fills them (server/src/ctl.cc) and how
    a controller reads them, after sections 5.15, 5.3 and 5.4 of the NVM Express Base
    Specification 1.4. */
module AdminCommands {
  import opened Types
  import opened InputOutput

  const OP_CREATE_IOSQ := 1
  const OP_CREATE_IOCQ := 5
  const OP_IDENTIFY := 6
  const CNS_NAMESPACE := 0
  const CNS_CONTROLLER := 1
  const IOQ_SIZE: nat := 32

  /** The object made for a command: the buffer an identify command fills, or the queue a
      create command announces, with the interrupt vector of a completion queue. */
  datatype Given =
    | Buffer(address: nat)
    | Queue(address: nat, entries: nat, vector: nat)

  /** Such an object goes with the command whose callback is `cb`. */
  predicate Suits(cb: Callback, given: Given)
  {
    match cb
    case ControllerIdentified => given.Buffer?
    case NamespaceIdentified(_, _) => given.Buffer?
    case CqCreated(_, n) => n < TWO16 && given.Queue? && 1 <= given.entries <= TWO16 && given.vector < TWO16
    case SqCreated(_, n) => n < TWO16 && given.Queue? && 1 <= given.entries <= TWO16
    case _ => false
  }

  predicate IsAdmin(cb: Callback)
  {
    match cb
    case ControllerIdentified => true
    case NamespaceIdentified(_, _) => true
    case CqCreated(_, n) => n < TWO16
    case SqCreated(_, n) => n < TWO16
    case _ => false
  }

  /** The entry for the command whose callback is `cb`. */
  function AdminSqe(cb: Callback, clean: Sqe, given: Given): Sqe
    requires Suits(cb, given)
  {
    var e := clean.(dptr1 := given.address, dptr2 := 0);
    match cb
    case ControllerIdentified => IdentifySqe(e, CNS_CONTROLLER)
    case NamespaceIdentified(_, n) => IdentifySqe(e.(nsid := n), CNS_NAMESPACE)
    case CqCreated(_, n) =>
      e.(cdw0 := CommandWord(e.cdw0, OP_CREATE_IOCQ, USE_PRPS), nsid := 0,
         cdw10 := Set(Set(e.cdw10, LOW16, n), HIGH16, given.entries - 1),
         cdw11 := Set(Set(Set(e.cdw11, HIGH16, given.vector), BIT1, 1), BIT0, 1))
    case SqCreated(_, n) =>
      e.(cdw0 := CommandWord(e.cdw0, OP_CREATE_IOSQ, USE_PRPS), nsid := 0,
         cdw10 := Set(Set(e.cdw10, LOW16, n), HIGH16, given.entries - 1),
         cdw11 := Set(Set(e.cdw11, BIT0, 1), HIGH16, n),
         cdw12 := 0)
  }

  function IdentifySqe(e: Sqe, cns: nat): Sqe
  {
    e.(cdw0 := CommandWord(e.cdw0, OP_IDENTIFY, USE_PRPS),
       cdw10 := Set(Set(e.cdw10, HIGH16, 0), CNS, cns),
       cdw11 := Set(e.cdw11, LOW16, 0))
  }

  /** An admin command as the controller understands it. */
  datatype AdminCommand =
    | IdentifyController(buffer: nat)
    | IdentifyNamespace(nsid: nat, buffer: nat)
    | CreateCq(qid: nat, entries: nat, contiguous: bool, interrupts: bool, vector: nat, base: nat)
    | CreateSq(qid: nat, entries: nat, contiguous: bool, cqid: nat, base: nat)

  /** Reading an entry; None if it is no such command or has any other bit set. */
  function Decode(e: Sqe): Option<AdminCommand>
  {
    var opcode, low, high := e.cdw0 % 0x100, e.cdw10 % 0x1_0000, e.cdw10 / 0x1_0000;
    if !Plain(e) || e.cdw0 / 0x4000 % 4 != 0 || e.dptr2 != 0 || e.cdw12 != 0 then None
    else if opcode == 6 then
      if e.cdw11 != 0 then None
      else if e.cdw10 == 1 && e.nsid == 0 then Some(IdentifyController(e.dptr1))
      else if e.cdw10 == 0 then Some(IdentifyNamespace(e.nsid, e.dptr1))
      else None
    else if e.nsid != 0 then None
    else if opcode == 5 && e.cdw11 / 4 % 0x4000 == 0 then
      Some(CreateCq(low, high + 1, e.cdw11 % 2 == 1, e.cdw11 / 2 % 2 == 1, e.cdw11 / 0x1_0000, e.dptr1))
    else if opcode == 1 && e.cdw11 / 2 % 0x8000 == 0 then
      Some(CreateSq(low, high + 1, e.cdw11 % 2 == 1, e.cdw11 / 0x1_0000, e.dptr1))
    else None
  }

  /** The command each callback is waiting for: the queues of namespace `n` are both
      number `n`, contiguous, as large as the objects made for them, and tied to each other. */
  function Wanted(cb: Callback, given: Given): Option<AdminCommand>
    requires Suits(cb, given)
  {
    match cb
    case ControllerIdentified => Some(IdentifyController(given.address))
    case NamespaceIdentified(_, n) => Some(IdentifyNamespace(n, given.address))
    case CqCreated(_, n) => Some(CreateCq(n, given.entries, true, true, given.vector, given.address))
    case SqCreated(_, n) => Some(CreateSq(n, given.entries, true, n, given.address))
  }

  lemma TwoHalves(low: nat, high: nat)
    requires low < TWO16 && high < TWO16
    ensures Set(Set(0, LOW16, low), HIGH16, high) == low + 0x1_0000 * high
  {
    hide Get, Set;
    ClearAbove(low, HIGH16);
    ClearBelow(0, 0, LOW16);
    SetClear(0, LOW16, low);
    SetClear(low, HIGH16, high);
  }

  lemma CqFlags(vector: nat)
    requires vector < TWO16
    ensures Set(Set(Set(0, HIGH16, vector), BIT1, 1), BIT0, 1) == 3 + 0x1_0000 * vector
  {
    hide Get, Set;
    ClearAbove(0, HIGH16);
    SetClear(0, HIGH16, vector);
    ClearBelow(0x4000 * vector, 0, BIT1);
    SetClear(0x1_0000 * vector, BIT1, 1);
    ClearBelow(0x8000 * vector + 1, 0, BIT0);
    SetClear(0x1_0000 * vector + 2, BIT0, 1);
  }

  lemma SqFlags(cqid: nat)
    requires cqid < TWO16
    ensures Set(Set(0, BIT0, 1), HIGH16, cqid) == 1 + 0x1_0000 * cqid
  {
    hide Get, Set;
    ClearBelow(0, 0, BIT0);
    SetClear(0, BIT0, 1);
    ClearAbove(1, HIGH16);
    SetClear(1, HIGH16, cqid);
  }

  lemma IdentifyWord(cns: nat)
    requires cns < 2
    ensures Set(Set(0, HIGH16, 0), CNS, cns) == cns && Set(0, LOW16, 0) == 0
  {
    hide Get, Set;
    ClearAbove(0, HIGH16);
    SetClear(0, HIGH16, 0);
    ClearBelow(0, 0, CNS);
    SetClear(0, CNS, cns);
    ClearBelow(0, 0, LOW16);
    SetClear(0, LOW16, 0);
  }

  /** The controller reads from the entry exactly the command the callback waits for, and
      finds the identifier `produce` stored. */
  lemma AdminRoundTrip(cb: Callback, clean: Sqe, given: Given, cid: nat)
    requires Suits(cb, given) && Blank(clean, cid) && cid < TWO16
    ensures Decode(AdminSqe(cb, clean, given)) == Wanted(cb, given)
    ensures AdminSqe(cb, clean, given).Cid() == cid
  {
    hide AdminSqe, Decode, Wanted, Blank, Sqe.Cid;
    FirstWord(cb, clean, given, cid);
    match cb
    case ControllerIdentified => IdentifyRoundTrip(cb, clean, given, cid);
    case NamespaceIdentified(_, _) => IdentifyRoundTrip(cb, clean, given, cid);
    case CqCreated(_, _) => CqRoundTrip(cb, clean, given, cid);
    case SqCreated(_, _) => SqRoundTrip(cb, clean, given, cid);
  }

  lemma FirstWord(cb: Callback, clean: Sqe, given: Given, cid: nat)
    requires Suits(cb, given) && Blank(clean, cid) && cid < TWO16
    ensures var e := AdminSqe(cb, clean, given);
            && e.cdw0 < 0x1_0000_0000 && e.cdw0 % 0x100 == OpcodeFor(cb) && e.cdw0 / 0x100 % 0x40 == 0
            && e.cdw0 / 0x4000 % 4 == 0 && e.Cid() == cid
  {
    hide Get, Set, CommandWord;
    CommandWordFields(clean.cdw0, OpcodeFor(cb), USE_PRPS);
    BlankWord(cid, OpcodeFor(cb), USE_PRPS);
    ReadWord(AdminSqe(cb, clean, given).cdw0, cid, OpcodeFor(cb), USE_PRPS);
    BlankCid(clean, cid);
  }

  lemma IdentifyRoundTrip(cb: Callback, clean: Sqe, given: Given, cid: nat)
    requires Suits(cb, given) && Blank(clean, cid) && cid < TWO16
    requires cb.ControllerIdentified? || cb.NamespaceIdentified?
    ensures Decode(AdminSqe(cb, clean, given)) == Wanted(cb, given)
  {
    hide Get, Set, CommandWord;
    FirstWord(cb, clean, given, cid);
    IdentifyWord(if cb.ControllerIdentified? then CNS_CONTROLLER else CNS_NAMESPACE);
  }

  lemma CqRoundTrip(cb: Callback, clean: Sqe, given: Given, cid: nat)
    requires Suits(cb, given) && Blank(clean, cid) && cid < TWO16 && cb.CqCreated?
    ensures Decode(AdminSqe(cb, clean, given)) == Wanted(cb, given)
  {
    hide Get, Set, CommandWord;
    FirstWord(cb, clean, given, cid);
    TwoHalves(cb.n, given.entries - 1);
    CqFlags(given.vector);
  }

  lemma SqRoundTrip(cb: Callback, clean: Sqe, given: Given, cid: nat)
    requires Suits(cb, given) && Blank(clean, cid) && cid < TWO16 && cb.SqCreated?
    ensures Decode(AdminSqe(cb, clean, given)) == Wanted(cb, given)
  {
    hide Get, Set, CommandWord;
    FirstWord(cb, clean, given, cid);
    TwoHalves(cb.n, given.entries - 1);
    SqFlags(cb.n);
  }

  function OpcodeFor(cb: Callback): nat
  {
    if cb.CqCreated? then OP_CREATE_IOCQ else if cb.SqCreated? then OP_CREATE_IOSQ else OP_IDENTIFY
  }

  lemma BlankCid(e: Sqe, cid: nat)
    requires Blank(e, cid) && cid < TWO16
    ensures e.Cid() == cid
  {
  }
}
