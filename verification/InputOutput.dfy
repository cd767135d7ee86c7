/** Read, write and write-zeroes commands: how the driver encodes a request in a
    submission queue entry and descriptor memory (server/src/nvme_device.cc,
    server/src/ns.cc), and what a controller does when it carries that entry out. */
module InputOutput {
  import opened Arithmetic
  import opened Types
  import opened PhysicalMemory
  import opened Limits
  import Protocol
  import Prp
  import Sgl

  /** A namespace as its requests see it: its identifier, the physical address of its descriptor memory, and
      the controller parameters its requests depend on. */
  datatype IoConfig = IoConfig(nsid: nat, base: nat, ctl: Controller)
  {
    ghost predicate Valid()
    {
      && ctl.InRange() && 16 * ctl.segments < TWO32
      && base % Prp.PageSize(ctl.n) == 0
    }

    /** Descriptor words per command. */
    function Stride(): nat
    {
      MulMonotone(0, ctl.k, ctl.n);
      if ctl.sgl then 2 * ctl.segments else ctl.k * ctl.n
    }

    /** `sgls_paddr` and the PRP list start: where the descriptors of `cid` are. */
    function DescriptorAddress(cid: nat): nat
    {
      base + 8 * Protocol.Offset(cid, Stride())
    }
  }

  lemma DescriptorAddressAsComputed(ns: IoConfig, cid: nat)
    ensures ns.ctl.sgl ==> ns.DescriptorAddress(cid) == ns.base + cid * ns.ctl.segments * 16
    ensures !ns.ctl.sgl ==> ns.DescriptorAddress(cid) == ns.base + cid * (ns.ctl.k * ns.ctl.n) * 8
  {
    Protocol.OffsetIsProduct(cid, ns.Stride());
    MulAssoc(cid, ns.ctl.segments, 2);
  }

  // ---------------------------------------------------------------------
  // Requests
  // ---------------------------------------------------------------------

  /** The part of a request one command covers: the first segments of the chain, or
      with PRPs the single segment cut to `max_size`. */
  function Used(ns: IoConfig, req: Request): (r: seq<Block>)
    requires ns.Valid() && |req.blocks| >= 1
    ensures ns.ctl.sgl ==> |r| <= ns.ctl.segments
    ensures |r| >= 1
  {
    if req.op.WriteZeroes? then req.blocks[..1]
    else if ns.ctl.sgl then req.blocks[..Prp.Min(|req.blocks|, ns.ctl.segments)]
    else
      DivModParts(MaxSize(ns.ctl), ns.ctl.sectorSize);
      [Block(req.blocks[0].dma, Prp.Min(req.blocks[0].sectors, MaxSize(ns.ctl) / ns.ctl.sectorSize))]
  }

  function Sectors(ns: IoConfig, req: Request): nat
    requires ns.Valid() && |req.blocks| >= 1
  {
    Sgl.SumSectors(Used(ns, req))
  }

  /** What the code asserts of its callers: write-zeroes ranges and PRP requests have a
      single segment. No count exceeds 64 bits. */
  ghost predicate Formed(ns: IoConfig, req: Request)
    requires ns.Valid()
  {
    && |req.blocks| >= 1 && req.sector < TWO64 && Sectors(ns, req) < TWO64
    && (req.op.WriteZeroes? || !ns.ctl.sgl ==> |req.blocks| == 1)
  }

  /** What a caller must respect beyond that: the guard of `discard` for write-zeroes; with
      SGLs the announced limits and some sector to transfer; with PRPs some sector to
      transfer, and that a sector does not exceed the announced limit. */
  ghost predicate RequestOk(ns: IoConfig, req: Request)
    requires ns.Valid()
  {
    && Formed(ns, req)
    && match req.op
       case WriteZeroes(_) => 1 <= req.blocks[0].sectors <= TWO16
       case _ =>
         if ns.ctl.sgl then
           EachWithin(Used(ns, req), ns.ctl.sectorSize, MaxSize(ns.ctl)) && Sgl.SumSectors(Used(ns, req)) >= 1
         else req.blocks[0].sectors >= 1 && ns.ctl.sectorSize <= MaxSize(ns.ctl)
  }

  /** The closure handed to `produce`. */
  function CallbackFor(ns: IoConfig, req: Request): Callback
    requires ns.Valid() && |req.blocks| >= 1
  {
    MulMonotone(0, Sectors(ns, req), ns.ctl.sectorSize);
    if req.op.WriteZeroes? then ZeroesDone(req)
    else TransferDone(req, Sectors(ns, req) * ns.ctl.sectorSize)
  }

  /** Whether the client is told success, and how many bytes it is told. */
  datatype Answer = Answer(ok: bool, bytes: nat)

  /** What a client has been told. */
  datatype Told = Told(client: nat, answer: Answer)

  function ClientAnswer(cb: Callback, status: nat): Option<Answer>
  {
    match cb
    case TransferDone(_, bytes) => Some(if status != 0 then Answer(false, 0) else Answer(true, bytes))
    case ZeroesDone(_) => Some(Answer(status == 0, 0))
    case _ => None
  }

  lemma OneBlock(b: Block)
    ensures Sgl.SumSectors([b]) == b.sectors
  {
    assert [b][1..] == [];
  }

  /** The block count is encodable, and the data pointer has room for the transfer. */
  lemma SectorsInRange(ns: IoConfig, req: Request)
    requires ns.Valid() && RequestOk(ns, req)
    ensures 1 <= Sectors(ns, req) <= TWO16
    ensures ns.ctl.sgl && !req.op.WriteZeroes? ==> Sgl.LengthsFit(Used(ns, req), ns.ctl.sectorSize)
    ensures !ns.ctl.sgl && !req.op.WriteZeroes? ==>
              Prp.FitsList(ns.ctl.n, ns.ctl.k, req.blocks[0].dma, Sectors(ns, req) * ns.ctl.sectorSize)
  {
    hide MaxSize, TransferLimit, Prp.FitsList, Sgl.LengthsFit, EachWithin, Sgl.SumSectors, Controller.InRange;
    ControllerBounds(ns.ctl);
    if req.op.WriteZeroes? {
      assert Used(ns, req) == [req.blocks[0]];
      OneBlock(req.blocks[0]);
    } else if ns.ctl.sgl {
      LimitsCompose(ns.ctl, Used(ns, req));
    } else {
      OneBlock(Used(ns, req)[0]);
      TruncationFits(ns.ctl, req.blocks[0].sectors, req.blocks[0].dma);
    }
  }

  // ---------------------------------------------------------------------
  // Encoding
  // ---------------------------------------------------------------------

  function OpcodeOf(op: Operation): nat
  {
    match op
    case Read => OP_READ
    case Write => OP_WRITE
    case WriteZeroes(_) => OP_WRITE_ZEROES
  }

  /** Opcode and transfer type share a word with the identifier `produce` stored. */
  function CommandWord(previous: nat, opcode: nat, psdt: nat): nat
  {
    Set(Set(previous, OPC, opcode), PSDT, psdt)
  }

  lemma CommandWordFields(previous: nat, opcode: nat, psdt: nat)
    requires opcode < 0x100 && psdt < 4
    ensures var w := CommandWord(previous, opcode, psdt);
            Get(w, OPC) == opcode && Get(w, PSDT) == psdt && Get(w, CID) == Get(previous, CID)
  {
    hide Get, Set;
    var a := Set(previous, OPC, opcode);
    GetSet(previous, OPC, opcode);
    GetSet(a, PSDT, psdt);
    SetKeepsLower(a, OPC, PSDT, 64, psdt);
    SetKeepsUpper(previous, OPC, CID, 0x100, opcode);
    SetKeepsUpper(a, PSDT, CID, 1, psdt);
  }

  /** `count - 1` on 64-bit unsigned integers. */
  function LessOne(count: nat): nat { (count + TWO64 - 1) % TWO64 }

  /** The entry of `req` once filled, from the entry `produce` handed out. */
  function Encode(ns: IoConfig, req: Request, clean: Sqe, cid: nat): Sqe
    requires ns.Valid() && |req.blocks| >= 1
  {
    var count, ss, here := Sectors(ns, req), ns.ctl.sectorSize, ns.DescriptorAddress(cid);
    var nlb := Set(clean.cdw12, LOW16, LessOne(count));
    var e := clean.(nsid := ns.nsid, cdw10 := req.sector % TWO32, cdw11 := req.sector / TWO32, cdw14 := 0, cdw15 := 0);
    match req.op
    case WriteZeroes(unmap) =>
      e.(cdw0 := Set(e.cdw0, OPC, OP_WRITE_ZEROES), cdw12 := Set(nlb, DEAC, if unmap then 1 else 0))
    case _ =>
      if ns.ctl.sgl then
        e.(cdw0 := CommandWord(e.cdw0, OpcodeOf(req.op), USE_SGLS), cdw13 := 0, cdw12 := nlb,
           dptr1 := here, dptr2 := Sgl.DescriptorWord(e.dptr2, SGL_LAST_SEGMENT, 16 * |Used(ns, req)|))
      else
        MulMonotone(0, count, ss);
        e.(cdw0 := CommandWord(e.cdw0, OpcodeOf(req.op), USE_PRPS), cdw13 := 0, cdw12 := nlb,
           dptr1 := req.blocks[0].dma,
           dptr2 := Prp.ChoosePrp2(Prp.PageSize(ns.ctl.n), req.blocks[0].dma, count * ss, here))
  }

  /** The command's descriptor words once filled. */
  function EncodeDescriptors(ns: IoConfig, req: Request, cid: nat, previous: seq<nat>): (r: seq<nat>)
    requires ns.Valid() && |req.blocks| >= 1 && |previous| == ns.Stride()
    ensures |r| == |previous|
  {
    var ss := ns.ctl.sectorSize;
    if req.op.WriteZeroes? then previous
    else if ns.ctl.sgl then
      Sgl.Descriptors(previous, Used(ns, req), ss) + previous[2 * |Used(ns, req)|..]
    else
      MulMonotone(0, Sectors(ns, req), ss);
      var words := Prp.ListWords(ns.ctl.n, ns.DescriptorAddress(cid), req.blocks[0].dma, Sectors(ns, req) * ss);
      Prp.Written(previous, 0, words[..Prp.Min(|words|, |previous|)])
  }

  // ---------------------------------------------------------------------
  // What a controller does with an entry
  // ---------------------------------------------------------------------

  /** The blocks accessed and, for a transfer, the memory bytes in order. */
  datatype Effect =
    | Transfer(read: bool, nsid: nat, first: nat, count: nat, bytes: seq<nat>)
    | Zero(nsid: nat, first: nat, count: nat, deallocate: bool)

  /** Nothing is set that the commands of this driver have no use for: no fused operation,
      no metadata, no reserved bit. */
  predicate Plain(e: Sqe)
  {
    && e.cdw0 < 0x1_0000_0000 && e.cdw0 / 0x100 % 0x40 == 0 && e.mptr == 0
    && e.cdw10 < 0x1_0000_0000 && e.cdw11 < 0x1_0000_0000
    && e.cdw13 == 0 && e.cdw14 == 0 && e.cdw15 == 0
  }

  /** Carrying out an entry: None if the controller finds it malformed. `n` list entries
      make a memory page, `ss` bytes a block. Opcodes and bits are those of sections 6.6,
      6.9 and 6.17 of the specification. */
  function Interpret(n: nat, ss: nat, mem: Memory, e: Sqe): Option<Effect>
    requires n >= 2
  {
    var opcode, pointer := e.cdw0 % 0x100, e.cdw0 / 0x4000 % 4;
    var first, count := e.cdw11 * 0x1_0000_0000 + e.cdw10, e.cdw12 % 0x1_0000 + 1;
    MulMonotone(0, count, ss);
    if !Plain(e) then None
    else if opcode == 8 then
      var flags := e.cdw12 / 0x1_0000;
      if pointer == 0 && e.dptr1 == 0 && e.dptr2 == 0 && (flags == 0 || flags == 0x200)
      then Some(Zero(e.nsid, first, count, flags == 0x200)) else None
    else if (opcode != 1 && opcode != 2) || e.cdw12 >= 0x1_0000 then None
    else
      var ranges :=
        if pointer == 0 then Prp.Walk(n, mem, e.dptr1, e.dptr2, count * ss)
        else if pointer == 1 && e.dptr2 / 0x1_0000_0000 % 0x100_0000 == 0 then Sgl.Walk(mem, e.dptr1, e.dptr2)
        else None;
      if ranges.None? || TotalLength(ranges.value) != count * ss then None
      else Some(Transfer(opcode == 2, e.nsid, first, count, Bytes(ranges.value)))
  }

  /** What the client asked of one command: exactly these blocks, exactly their memory in
      order. */
  function Requested(ns: IoConfig, req: Request): Effect
    requires ns.Valid() && |req.blocks| >= 1
  {
    match req.op
    case WriteZeroes(unmap) => Zero(ns.nsid, req.sector, Sectors(ns, req), unmap)
    case _ =>
      Transfer(req.op.Read?, ns.nsid, req.sector, Sectors(ns, req),
               Bytes(Sgl.Ranges(Used(ns, req), ns.ctl.sectorSize)))
  }

  /** All of the client's request, however long its chain or segment is. */
  function WholeRequest(ns: IoConfig, req: Request): Effect
    requires |req.blocks| >= 1
  {
    match req.op
    case WriteZeroes(unmap) => Zero(ns.nsid, req.sector, req.blocks[0].sectors, unmap)
    case _ =>
      Transfer(req.op.Read?, ns.nsid, req.sector, Sgl.SumSectors(req.blocks),
               Bytes(Sgl.Ranges(req.blocks, ns.ctl.sectorSize)))
  }

  /** One command covers the request: with SGLs only empty segments follow the first
      `segments`; with PRPs the segment is within `max_size`. */
  predicate Covers(ns: IoConfig, req: Request)
    requires ns.Valid() && |req.blocks| >= 1
  {
    match req.op
    case WriteZeroes(_) => true
    case _ =>
      if ns.ctl.sgl then forall i :: ns.ctl.segments <= i < |req.blocks| ==> req.blocks[i].sectors == 0
      else req.blocks[0].sectors * ns.ctl.sectorSize <= MaxSize(ns.ctl)
  }

  /** What the command asks for is the whole request if and only if one command covers it. */
  lemma EffectIsWhole(ns: IoConfig, req: Request)
    requires ns.Valid() && Formed(ns, req)
    ensures Requested(ns, req) == WholeRequest(ns, req) <==> Covers(ns, req)
    ensures ns.ctl.sgl && |req.blocks| <= ns.ctl.segments ==> Covers(ns, req)
  {
    hide MaxSize, TransferLimit, Sgl.SumSectors, Sgl.Ranges, Bytes, Controller.InRange;
    if req.op.WriteZeroes? {
      assert Used(ns, req) == [req.blocks[0]];
      OneBlock(req.blocks[0]);
    } else if ns.ctl.sgl {
      var k := Prp.Min(|req.blocks|, ns.ctl.segments);
      ChainSplit(req.blocks, k, ns.ctl.sectorSize);
      EmptySegments(req.blocks[k..], ns.ctl.sectorSize);
      TailIsEmpty(req.blocks, k);
    } else {
      PrpIsWhole(ns, req);
    }
  }

  lemma PrpIsWhole(ns: IoConfig, req: Request)
    requires ns.Valid() && Formed(ns, req) && !req.op.WriteZeroes? && !ns.ctl.sgl
    ensures Requested(ns, req) == WholeRequest(ns, req) <==> Covers(ns, req)
  {
    hide MaxSize, TransferLimit, Sgl.SumSectors, Sgl.Ranges, Bytes, Controller.InRange;
    ControllerBounds(ns.ctl);
    var b := req.blocks[0];
    assert req.blocks == [b];
    OneBlock(b);
    OneBlock(Used(ns, req)[0]);
    DivBound(MaxSize(ns.ctl), ns.ctl.sectorSize, b.sectors);
  }

  /** A chain cut in two: its sectors and its bytes are those of both parts. */
  lemma {:induction false} ChainSplit(blocks: seq<Block>, k: nat, ss: nat)
    requires k <= |blocks|
    ensures Sgl.SumSectors(blocks) == Sgl.SumSectors(blocks[..k]) + Sgl.SumSectors(blocks[k..])
    ensures Bytes(Sgl.Ranges(blocks, ss)) == Bytes(Sgl.Ranges(blocks[..k], ss)) + Bytes(Sgl.Ranges(blocks[k..], ss))
    decreases k
  {
    hide Interval, Bytes, Sgl.Ranges;
    if k == 0 {
      assert blocks[..0] == [] && blocks[0..] == blocks;
      EmptySegments([], ss);
    } else {
      var rest := blocks[1..];
      ChainSplit(rest, k - 1, ss);
      assert blocks[..k][1..] == rest[..k - 1] && blocks[k..] == rest[k - 1..];
      MulMonotone(0, blocks[0].sectors, ss);
      BytesOfFirst(blocks, ss);
      BytesOfFirst(blocks[..k], ss);
    }
  }

  lemma {:induction false} BytesOfFirst(blocks: seq<Block>, ss: nat)
    requires blocks != [] && 0 <= blocks[0].sectors * ss
    ensures Bytes(Sgl.Ranges(blocks, ss))
         == Interval(blocks[0].dma, blocks[0].sectors * ss) + Bytes(Sgl.Ranges(blocks[1..], ss))
  {
    hide Interval;
    assert Sgl.Ranges(blocks, ss)[1..] == Sgl.Ranges(blocks[1..], ss);
  }

  /** Segments have no sector if and only if each has none; then they have no byte. */
  lemma {:induction false} EmptySegments(blocks: seq<Block>, ss: nat)
    ensures Sgl.SumSectors(blocks) == 0 <==> forall i :: 0 <= i < |blocks| ==> blocks[i].sectors == 0
    ensures Sgl.SumSectors(blocks) == 0 ==> Bytes(Sgl.Ranges(blocks, ss)) == []
  {
    if blocks == [] {
    } else {
      EmptySegments(blocks[1..], ss);
      MulMonotone(0, blocks[0].sectors, ss);
      BytesOfFirst(blocks, ss);
      assert forall i :: 1 <= i < |blocks| ==> blocks[i] == blocks[1..][i - 1];
    }
  }

  lemma {:induction false} TailIsEmpty(blocks: seq<Block>, k: nat)
    requires k <= |blocks|
    ensures (forall i :: 0 <= i < |blocks[k..]| ==> blocks[k..][i].sectors == 0)
       <==> (forall i :: k <= i < |blocks| ==> blocks[i].sectors == 0)
  {
    forall i | k <= i < |blocks| ensures blocks[i] == blocks[k..][i - k] {
    }
  }

  /** The bytes a command transfers. */
  function BytesMoved(e: Effect): nat
  {
    match e
    case Transfer(_, _, _, _, bytes) => |bytes|
    case Zero(_, _, _, _) => 0
  }

  /** The client of a request is told how many bytes the requested effect moves. */
  lemma AnswerIsBytesMoved(ns: IoConfig, req: Request)
    requires ns.Valid() && |req.blocks| >= 1
    ensures ClientAnswer(CallbackFor(ns, req), 0) == Some(Answer(true, BytesMoved(Requested(ns, req))))
  {
    hide Used, Bytes, Sgl.Ranges;
    Sgl.RangesLength(Used(ns, req), ns.ctl.sectorSize);
    BytesLength(Sgl.Ranges(Used(ns, req), ns.ctl.sectorSize));
  }

  // ---------------------------------------------------------------------
  // The controller does what was asked
  // ---------------------------------------------------------------------

  /** Memory in which command `cid` has the descriptor words `region`. */
  ghost predicate HasDescriptors(ns: IoConfig, words: seq<nat>, cid: nat, region: seq<nat>)
  {
    && Protocol.HasRegion(words, cid, ns.Stride())
    && Protocol.Region(words, cid, ns.Stride()) == region
  }

  lemma {:induction false} LoadDescriptor(ns: IoConfig, words: seq<nat>, cid: nat, region: seq<nat>, j: nat)
    requires HasDescriptors(ns, words, cid, region) && j < |region|
    ensures Load(Memory(ns.base, words), ns.DescriptorAddress(cid) + 8 * j) == Some(region[j])
  {
    hide Protocol.Offset;
    var start := Protocol.Offset(cid, ns.Stride());
    LoadWord(Memory(ns.base, words), start + j);
    assert region[j] == words[start + j];
    assert ns.DescriptorAddress(cid) + 8 * j == ns.base + 8 * (start + j);
  }

  lemma SectorAddress(sector: nat)
    requires sector < TWO64
    ensures (sector / TWO32) * TWO32 + sector % TWO32 == sector
    ensures sector / TWO32 < TWO32
  {
    DivModParts(sector, TWO32);
  }

  lemma BlockCount(previous: nat, count: nat)
    requires count < TWO64
    ensures Get(Set(previous, LOW16, LessOne(count)), LOW16) + 1 == count <==> 1 <= count <= TWO16
    ensures count == 0 ==> Get(Set(previous, LOW16, LessOne(count)), LOW16) + 1 == TWO16
  {
    hide Get, Set;
    BlockCountField(count, previous);
  }

  /** The number of blocks a controller reads from the entry. */
  function BlocksOf(e: Sqe): nat { e.cdw12 % 0x1_0000 + 1 }

  lemma LowHalf(v: nat)
    ensures Get(v, LOW16) == v % 0x1_0000
  {
  }

  /** For every well-formed request, the entry asks for the number of sectors the driver
      means if and only if that is between 1 and 65536; for none it asks for 65536. */
  lemma BlocksAsMeant(ns: IoConfig, req: Request, clean: Sqe, cid: nat)
    requires ns.Valid() && Formed(ns, req)
    ensures BlocksOf(Encode(ns, req, clean, cid)) == Sectors(ns, req) <==> 1 <= Sectors(ns, req) <= TWO16
    ensures Sectors(ns, req) == 0 ==> BlocksOf(Encode(ns, req, clean, cid)) == TWO16
  {
    hide Get, Set, Sectors, Used, MaxSize, TransferLimit, Controller.InRange, LessOne, CommandWord, Sgl.DescriptorWord;
    hide Prp.ChoosePrp2, IoConfig.DescriptorAddress;
    var count := Sectors(ns, req);
    BlockCount(clean.cdw12, count);
    LowHalf(Encode(ns, req, clean, cid).cdw12);
    if req.op.WriteZeroes? {
      SetKeepsLower(Set(clean.cdw12, LOW16, LessOne(count)), LOW16, DEAC, 0x200, if req.op.unmap then 1 else 0);
    }
  }

  /** With PRPs the entry asks for as many sectors of the request as fit `max_size`, if and
      only if there is one and one fits. */
  lemma PrpBlocksAsMeant(ns: IoConfig, req: Request, clean: Sqe, cid: nat)
    requires ns.Valid() && Formed(ns, req) && !req.op.WriteZeroes? && !ns.ctl.sgl && ns.ctl.sectorSize > 0
    ensures Sectors(ns, req) == Prp.Min(req.blocks[0].sectors, MaxSize(ns.ctl) / ns.ctl.sectorSize)
    ensures BlocksOf(Encode(ns, req, clean, cid)) == Sectors(ns, req)
       <==> req.blocks[0].sectors >= 1 && ns.ctl.sectorSize <= MaxSize(ns.ctl)
    ensures !(req.blocks[0].sectors >= 1 && ns.ctl.sectorSize <= MaxSize(ns.ctl)) ==>
              Sectors(ns, req) == 0 && BlocksOf(Encode(ns, req, clean, cid)) == TWO16
  {
    hide MaxSize, TransferLimit, Encode, Prp.FitsList, Sgl.SumSectors, BlocksOf;
    BlocksAsMeant(ns, req, clean, cid);
    OneBlock(Used(ns, req)[0]);
    TruncationFits(ns.ctl, req.blocks[0].sectors, req.blocks[0].dma);
  }

  /** A namespace with 4 MiB sectors, a size that identification accepts, on a controller
      without SGLs and without a transfer limit of its own. */
  function LargeSectors(nsid: nat): IoConfig
  {
    IoConfig(nsid, 0, DriverController(false, FOUR_MIB, None))
  }

  /** There every read or write means no sector and asks for 65536 blocks; its client is
      told success for no bytes. */
  lemma LargeSectorsWrap(nsid: nat, req: Request, clean: Sqe, cid: nat)
    requires |req.blocks| == 1 && req.blocks[0].sectors >= 1 && req.sector < TWO64 && !req.op.WriteZeroes?
    ensures var ns := LargeSectors(nsid);
            && ns.Valid() && Formed(ns, req) && !RequestOk(ns, req)
            && Sectors(ns, req) == 0 && BlocksOf(Encode(ns, req, clean, cid)) == TWO16
            && ClientAnswer(CallbackFor(ns, req), 0) == Some(Answer(true, 0))
  {
    var ns := LargeSectors(nsid);
    hide MaxSize, Encode, BlocksOf, Sgl.SumSectors;
    DriverLimits(FOUR_MIB);
    assert ns.Valid() && MaxSize(ns.ctl) == 1023 * 4096;
    DivModUnique(1023 * 4096, 0, 1023 * 4096, FOUR_MIB);
    OneBlock(Used(ns, req)[0]);
    PrpBlocksAsMeant(ns, req, clean, cid);
  }

  /** The first double word of an entry, written over a blank one and read back. */
  lemma BlankWord(cid: nat, opcode: nat, psdt: nat)
    requires cid < TWO16 && opcode < 0x100 && psdt < 4
    ensures CommandWord(0x1_0000 * cid, opcode, psdt) == opcode + 0x4000 * psdt + 0x1_0000 * cid
    ensures Set(0x1_0000 * cid, OPC, opcode) == opcode + 0x1_0000 * cid
  {
    hide Get, Set;
    ClearBelow(0x100 * cid, 0, OPC);
    SetClear(0x1_0000 * cid, OPC, opcode);
    ClearBelow(cid, opcode, PSDT);
    SetClear(0x1_0000 * cid + opcode, PSDT, psdt);
  }

  lemma ReadWord(w: nat, cid: nat, opcode: nat, psdt: nat)
    requires cid < TWO16 && opcode < 0x100 && psdt < 4 && w == opcode + 0x4000 * psdt + 0x1_0000 * cid
    ensures w < 0x1_0000_0000 && w % 0x100 == opcode && w / 0x100 % 0x40 == 0 && w / 0x4000 % 4 == psdt
    ensures w / 0x1_0000 == cid
  {
    DivModUnique(w, 0x40 * psdt + 0x100 * cid, opcode, 0x100);
    DivModUnique(0x40 * psdt + 0x100 * cid, psdt + 4 * cid, 0, 0x40);
    DivModUnique(w, psdt + 4 * cid, opcode, 0x4000);
    DivModUnique(psdt + 4 * cid, cid, psdt, 4);
    DivModUnique(w, cid, opcode + 0x4000 * psdt, 0x1_0000);
  }

  /** The bits of a read, write or write-zeroes entry, in the numbers of the specification. */
  ghost predicate EntryBits(ns: IoConfig, req: Request, cid: nat, e: Sqe)
    requires ns.Valid() && |req.blocks| >= 1
  {
    var opcode := match req.op case Read => 2 case Write => 1 case WriteZeroes(_) => 8;
    var sgls := ns.ctl.sgl && !req.op.WriteZeroes?;
    && e.cdw0 == opcode + (if sgls then 0x4000 else 0) + 0x1_0000 * cid && e.nsid == ns.nsid && e.mptr == 0
    && e.cdw10 + 0x1_0000_0000 * e.cdw11 == req.sector && e.cdw10 < 0x1_0000_0000 && e.cdw11 < 0x1_0000_0000
    && e.cdw12 == Sectors(ns, req) - 1 + (if req.op == WriteZeroes(true) then 0x200_0000 else 0)
    && e.cdw13 == 0 && e.cdw14 == 0 && e.cdw15 == 0
    && (req.op.WriteZeroes? ==> e.dptr1 == 0 && e.dptr2 == 0)
    && (sgls ==> e.dptr1 == ns.DescriptorAddress(cid) && e.dptr2 == 16 * |Used(ns, req)| + 0x3000_0000_0000_0000)
    && (!ns.ctl.sgl && !req.op.WriteZeroes? ==> e.dptr1 == req.blocks[0].dma)
  }

  /** Every bit of an entry filled over a blank one, but for PRP2 and the reserved field. */
  lemma EntryIsExact(ns: IoConfig, req: Request, clean: Sqe, cid: nat)
    requires ns.Valid() && RequestOk(ns, req) && Blank(clean, cid) && cid < TWO16
    ensures EntryBits(ns, req, cid, Encode(ns, req, clean, cid))
  {
    hide Sectors, Used, MaxSize, TransferLimit, Controller.InRange, Prp.ChoosePrp2, IoConfig.DescriptorAddress;
    hide Get, Set, CommandWord, Sgl.DescriptorWord, LessOne;
    SectorsInRange(ns, req);
    SectorAddress(req.sector);
    BlankWord(cid, OpcodeOf(req.op), if ns.ctl.sgl then USE_SGLS else USE_PRPS);
    BlankCount(Sectors(ns, req), if req.op == WriteZeroes(true) then 1 else 0);
    if ns.ctl.sgl && !req.op.WriteZeroes? {
      UsedBound(ns, req);
      BlankDescriptor(16 * |Used(ns, req)|);
    }
  }

  lemma BlankCount(count: nat, flag: nat)
    requires 1 <= count <= TWO16 && flag < 2
    ensures Set(0, LOW16, LessOne(count)) == count - 1
    ensures Set(Set(0, LOW16, LessOne(count)), DEAC, flag) == count - 1 + 0x200_0000 * flag
  {
    hide Get, Set;
    ModShift(count - 1, 1, TWO64);
    DivModUnique(count - 1, 0, count - 1, TWO64);
    ClearAbove(count - 1, DEAC);
    ClearBelow(0, 0, LOW16);
    SetClear(0, LOW16, count - 1);
    SetClear(count - 1, DEAC, flag);
  }

  lemma BlankDescriptor(len: nat)
    requires len < TWO32
    ensures Sgl.DescriptorWord(0, SGL_LAST_SEGMENT, len) == len + 0x3000_0000_0000_0000
  {
    hide Get, Set;
    ClearAbove(0, SGL_ID);
    SetClear(0, SGL_ID, SGL_LAST_SEGMENT);
    ClearBelow(0x3000_0000, 0, SGL_LEN);
    SetClear(0x3000_0000_0000_0000, SGL_LEN, len);
  }

  /** Write-zeroes covers exactly the requested blocks and carries the deallocate flag. */
  lemma ZeroesExact(ns: IoConfig, req: Request, clean: Sqe, cid: nat, mem: Memory)
    requires ns.Valid() && RequestOk(ns, req) && req.op.WriteZeroes? && Blank(clean, cid) && cid < TWO16
    ensures Interpret(ns.ctl.n, ns.ctl.sectorSize, mem, Encode(ns, req, clean, cid)) == Some(Requested(ns, req))
    ensures Encode(ns, req, clean, cid).cdw0 / 0x1_0000 == cid
  {
    hide Sectors, Used, MaxSize, TransferLimit, Controller.InRange, Encode, IoConfig.DescriptorAddress;
    SectorsInRange(ns, req);
    EntryIsExact(ns, req, clean, cid);
    var e := Encode(ns, req, clean, cid);
    ReadWord(e.cdw0, cid, 8, 0);
    CountWord(e.cdw12, Sectors(ns, req), if req.op.unmap then 1 else 0);
  }

  lemma CountWord(w: nat, count: nat, flag: nat)
    requires 1 <= count <= TWO16 && flag < 2 && w == count - 1 + 0x200_0000 * flag
    ensures w % 0x1_0000 + 1 == count && w / 0x1_0000 == 0x200 * flag
  {
    DivModUnique(w, 0x200 * flag, count - 1, 0x1_0000);
  }

  /** The fields of a read or write entry other than the data pointer. */
  lemma TransferFields(ns: IoConfig, req: Request, clean: Sqe, cid: nat)
    requires ns.Valid() && RequestOk(ns, req) && !req.op.WriteZeroes? && Blank(clean, cid) && cid < TWO16
    ensures var e := Encode(ns, req, clean, cid);
            && Plain(e) && e.cdw0 % 0x100 == (if req.op.Read? then 2 else 1)
            && e.cdw0 / 0x4000 % 4 == (if ns.ctl.sgl then 1 else 0) && e.nsid == ns.nsid
            && e.cdw11 * 0x1_0000_0000 + e.cdw10 == req.sector
            && e.cdw12 < 0x1_0000 && e.cdw12 + 1 == Sectors(ns, req)
            && (ns.ctl.sgl ==> e.dptr2 / 0x1_0000_0000 % 0x100_0000 == 0)
  {
    hide Sectors, Used, MaxSize, TransferLimit, Controller.InRange, Encode, IoConfig.DescriptorAddress;
    SectorsInRange(ns, req);
    EntryIsExact(ns, req, clean, cid);
    ReadWord(Encode(ns, req, clean, cid).cdw0, cid, if req.op.Read? then 2 else 1, if ns.ctl.sgl then 1 else 0);
    if ns.ctl.sgl {
      UsedBound(ns, req);
      NothingReserved(16 * |Used(ns, req)|);
    }
  }

  lemma NothingReserved(len: nat)
    requires len < TWO32
    ensures (len + 0x3000_0000_0000_0000) / 0x1_0000_0000 % 0x100_0000 == 0
  {
    DivModUnique(len + 0x3000_0000_0000_0000, 0x3000_0000, len, 0x1_0000_0000);
  }

  lemma {:induction false} SglPointer(ns: IoConfig, req: Request, clean: Sqe, cid: nat, previous: seq<nat>, mem: Memory)
    requires ns.Valid() && RequestOk(ns, req) && !req.op.WriteZeroes? && ns.ctl.sgl
    requires |previous| >= 2 * |Used(ns, req)|
    requires Stores(mem, ns.DescriptorAddress(cid), Sgl.Descriptors(previous, Used(ns, req), ns.ctl.sectorSize))
    ensures var e := Encode(ns, req, clean, cid);
            Sgl.Walk(mem, e.dptr1, e.dptr2) == Some(Sgl.Ranges(Used(ns, req), ns.ctl.sectorSize))
  {
    hide Get, Set, Used, CommandWord, Sgl.DescriptorWord, MaxSize, TransferLimit, Controller.InRange;
    hide Stores, Sgl.WalkSegment, Sgl.Ranges, Sgl.Descriptors, Sgl.LengthsFit, EachWithin;
    var m := |Used(ns, req)|;
    SectorsInRange(ns, req);
    Sgl.DescriptorFields(clean.dptr2, SGL_LAST_SEGMENT, 16 * m);
    DivModUnique(16 * m, 0, 16 * m, TWO32);
    Sgl.WalkInverts(mem, ns.DescriptorAddress(cid), previous, Used(ns, req), ns.ctl.sectorSize);
  }

  lemma {:induction false} SglInMemory(ns: IoConfig, req: Request, cid: nat, previous: seq<nat>, words: seq<nat>)
    requires ns.Valid() && |req.blocks| >= 1 && !req.op.WriteZeroes? && ns.ctl.sgl && |previous| == ns.Stride()
    requires HasDescriptors(ns, words, cid, EncodeDescriptors(ns, req, cid, previous))
    ensures Stores(Memory(ns.base, words), ns.DescriptorAddress(cid),
                      Sgl.Descriptors(previous, Used(ns, req), ns.ctl.sectorSize))
  {
    hide Used, HasDescriptors, Sgl.Descriptors, Load, MaxSize, TransferLimit, Controller.InRange;
    hide IoConfig.DescriptorAddress;
    var descriptors := Sgl.Descriptors(previous, Used(ns, req), ns.ctl.sectorSize);
    forall j: nat | j < |descriptors|
      ensures Load(Memory(ns.base, words), ns.DescriptorAddress(cid) + 8 * j) == Some(descriptors[j])
    {
      LoadDescriptor(ns, words, cid, EncodeDescriptors(ns, req, cid, previous), j);
    }
  }

  /** Every command's list starts on a page boundary. */
  lemma ListAligned(ns: IoConfig, cid: nat)
    requires ns.Valid() && !ns.ctl.sgl
    ensures ns.DescriptorAddress(cid) % Prp.PageSize(ns.ctl.n) == 0
  {
    hide Controller.InRange, Protocol.Offset;
    ControllerBounds(ns.ctl);
    var pg, k, n := Prp.PageSize(ns.ctl.n), ns.ctl.k, ns.ctl.n;
    DescriptorAddressAsComputed(ns, cid);
    MulAssoc(cid, k, n);
    MulAssoc(cid * k, n, 8);
    MulMonotone(0, cid, k);
    ModShift(ns.base, cid * k, pg);
  }

  lemma {:induction false} PrpInMemory(ns: IoConfig, req: Request, cid: nat, previous: seq<nat>, words: seq<nat>)
    requires ns.Valid() && RequestOk(ns, req) && !req.op.WriteZeroes? && !ns.ctl.sgl && |previous| == ns.Stride()
    requires HasDescriptors(ns, words, cid, EncodeDescriptors(ns, req, cid, previous))
    ensures 0 < Sectors(ns, req) * ns.ctl.sectorSize
    ensures Stores(Memory(ns.base, words), ns.DescriptorAddress(cid),
              Prp.ListWords(ns.ctl.n, ns.DescriptorAddress(cid), req.blocks[0].dma,
                            Sectors(ns, req) * ns.ctl.sectorSize))
  {
    var n, k := ns.ctl.n, ns.ctl.k;
    hide Used, Sectors, HasDescriptors, Prp.ListWords, Load, MaxSize, TransferLimit, Controller.InRange;
    hide IoConfig.DescriptorAddress, Prp.FitsList;
    var here, dma, sz := ns.DescriptorAddress(cid), req.blocks[0].dma, Sectors(ns, req) * ns.ctl.sectorSize;
    assert n >= 2 && k >= 1 && ns.ctl.sectorSize >= 1 by {
      ControllerBounds(ns.ctl);
    }
    SectorsInRange(ns, req);
    MulMonotone(1, Sectors(ns, req), ns.ctl.sectorSize);
    Prp.Capacity(n, k, dma, sz, here);
    var list := Prp.ListWords(n, here, dma, sz);
    var region := EncodeDescriptors(ns, req, cid, previous);
    forall j: nat | j < |list|
      ensures Load(Memory(ns.base, words), here + 8 * j) == Some(list[j])
    {
      LoadDescriptor(ns, words, cid, region, j);
    }
  }

  lemma ControllerBounds(c: Controller)
    requires c.InRange()
    ensures c.n >= 2 && c.k >= 1 && c.sectorSize >= 1 && c.segments >= 1 && c.k * c.n >= 0
  {
  }

  lemma PrpPointer(ns: IoConfig, req: Request, clean: Sqe, cid: nat, mem: Memory)
    requires ns.Valid() && RequestOk(ns, req) && !req.op.WriteZeroes? && !ns.ctl.sgl
    requires 0 < Sectors(ns, req) * ns.ctl.sectorSize
    requires Stores(mem, ns.DescriptorAddress(cid),
               Prp.ListWords(ns.ctl.n, ns.DescriptorAddress(cid), req.blocks[0].dma,
                             Sectors(ns, req) * ns.ctl.sectorSize))
    ensures var e := Encode(ns, req, clean, cid);
            Prp.Maps(Prp.Walk(ns.ctl.n, mem, e.dptr1, e.dptr2, Sectors(ns, req) * ns.ctl.sectorSize),
                     req.blocks[0].dma, Sectors(ns, req) * ns.ctl.sectorSize)
  {
    hide Get, Set, Used, Sectors, CommandWord, Prp.ChoosePrp2, Prp.ListWords, Stores, Prp.Walk, Prp.Maps;
    hide MaxSize, TransferLimit, IoConfig.DescriptorAddress, Controller.InRange;
    ListAligned(ns, cid);
    ControllerBounds(ns.ctl);
    Prp.WalkInverts(ns.ctl.n, mem, req.blocks[0].dma, Sectors(ns, req) * ns.ctl.sectorSize, ns.DescriptorAddress(cid));
  }

  lemma OneRange(b: Block, ss: nat)
    ensures Bytes(Sgl.Ranges([b], ss)) == Interval(b.dma, b.sectors * ss)
  {
    MulMonotone(0, b.sectors, ss);
    assert [b][1..] == [];
    var r := Sgl.Ranges([b], ss);
    assert r == [Range(b.dma, b.sectors * ss)] && r[1..] == [];
    assert Bytes(r) == Interval(b.dma, b.sectors * ss) + Bytes([]);
  }

  /** With PRPs the bytes asked for are one interval. */
  lemma PrpBytes(ns: IoConfig, req: Request)
    requires ns.Valid() && |req.blocks| >= 1 && !req.op.WriteZeroes? && !ns.ctl.sgl
    ensures Bytes(Sgl.Ranges(Used(ns, req), ns.ctl.sectorSize))
         == Interval(req.blocks[0].dma, Sectors(ns, req) * ns.ctl.sectorSize)
  {
    hide MaxSize, TransferLimit, Sgl.Ranges, Sgl.SumSectors;
    OneBlock(Used(ns, req)[0]);
    OneRange(Used(ns, req)[0], ns.ctl.sectorSize);
  }

  /** Filling keeps the identifier that `produce` stored in the shared word. */
  lemma EncodeKeepsCid(ns: IoConfig, req: Request, clean: Sqe, cid: nat)
    requires ns.Valid() && Formed(ns, req)
    ensures Encode(ns, req, clean, cid).Cid() == clean.Cid()
  {
    hide Used, Sectors, MaxSize, TransferLimit, Controller.InRange, Get, Set, LessOne, CommandWord, Prp.ChoosePrp2;
    hide Sgl.DescriptorWord;
    if req.op.WriteZeroes? {
      SetKeepsUpper(clean.cdw0, OPC, CID, 0x100, OP_WRITE_ZEROES);
    } else {
      CommandWordFields(clean.cdw0, OpcodeOf(req.op), if ns.ctl.sgl then USE_SGLS else USE_PRPS);
    }
  }

  /** The heart of the matter: from the entry and the descriptors the driver prepares
      for a request, a controller carries out exactly that request: its operation, its
      blocks, and its memory bytes in order. The identifier `produce` chose is kept. */
  lemma {:induction false} CarriedOutAsRequested(ns: IoConfig, req: Request, clean: Sqe, cid: nat, previous: seq<nat>,
                                                 words: seq<nat>)
    requires ns.Valid() && RequestOk(ns, req) && |previous| == ns.Stride() && Blank(clean, cid) && cid < TWO16
    requires HasDescriptors(ns, words, cid, EncodeDescriptors(ns, req, cid, previous))
    ensures Interpret(ns.ctl.n, ns.ctl.sectorSize, Memory(ns.base, words), Encode(ns, req, clean, cid))
         == Some(Requested(ns, req))
  {
    hide Encode, EncodeDescriptors, HasDescriptors, Used, Sectors, Get, MaxSize, TransferLimit, Controller.InRange;
    hide IoConfig.DescriptorAddress, Sgl.Walk, Prp.Walk, Sgl.Ranges, Bytes, Interval, TotalLength, Blank;
    hide Contiguous, RequestOk, Requested;
    var mem := Memory(ns.base, words);
    ControllerBounds(ns.ctl);
    if req.op.WriteZeroes? {
      ZeroesExact(ns, req, clean, cid, mem);
    } else {
      if ns.ctl.sgl {
        SglTransfer(ns, req, clean, cid, previous, words);
      } else {
        PrpTransfer(ns, req, clean, cid, previous, words);
      }
    }
  }

  lemma UsedBound(ns: IoConfig, req: Request)
    requires ns.Valid() && RequestOk(ns, req) && ns.ctl.sgl
    ensures |req.blocks| >= 1 && |Used(ns, req)| <= ns.ctl.segments
  {
  }

  /** Carrying out a plain read or write entry whose data pointer has been read. */
  lemma ReadsPrps(n: nat, ss: nat, mem: Memory, e: Sqe, count: nat, dma: nat)
    requires n >= 2 && Plain(e) && (e.cdw0 % 0x100 == 1 || e.cdw0 % 0x100 == 2) && e.cdw0 / 0x4000 % 4 == 0
    requires e.cdw12 < 0x1_0000 && e.cdw12 + 1 == count && 0 <= count * ss
    requires Prp.Maps(Prp.Walk(n, mem, e.dptr1, e.dptr2, count * ss), dma, count * ss)
    ensures Interpret(n, ss, mem, e)
         == Some(Transfer(e.cdw0 % 0x100 == 2, e.nsid, e.cdw11 * 0x1_0000_0000 + e.cdw10, count,
                          Interval(dma, count * ss)))
  {
    hide Plain, Prp.Walk, Contiguous, Bytes, TotalLength, Interval;
    ContiguousBytes(Prp.Walk(n, mem, e.dptr1, e.dptr2, count * ss).value, dma, count * ss);
  }

  lemma {:induction false} ReadsSgls(n: nat, ss: nat, mem: Memory, e: Sqe, count: nat, ranges: seq<Range>)
    requires n >= 2 && Plain(e) && (e.cdw0 % 0x100 == 1 || e.cdw0 % 0x100 == 2) && e.cdw0 / 0x4000 % 4 == 1
    requires e.cdw12 < 0x1_0000 && e.cdw12 + 1 == count && e.dptr2 / 0x1_0000_0000 % 0x100_0000 == 0
    requires Sgl.Walk(mem, e.dptr1, e.dptr2) == Some(ranges) && TotalLength(ranges) == count * ss
    ensures Interpret(n, ss, mem, e)
         == Some(Transfer(e.cdw0 % 0x100 == 2, e.nsid, e.cdw11 * 0x1_0000_0000 + e.cdw10, count, Bytes(ranges)))
  {
    hide Plain, Prp.Walk, Sgl.Walk, Bytes, TotalLength;
  }

  lemma {:induction false} SglTransfer(ns: IoConfig, req: Request, clean: Sqe, cid: nat, previous: seq<nat>,
                                       words: seq<nat>)
    requires ns.Valid() && RequestOk(ns, req) && |previous| == ns.Stride() && !req.op.WriteZeroes? && ns.ctl.sgl
    requires Blank(clean, cid) && cid < TWO16
    requires HasDescriptors(ns, words, cid, EncodeDescriptors(ns, req, cid, previous))
    ensures Interpret(ns.ctl.n, ns.ctl.sectorSize, Memory(ns.base, words), Encode(ns, req, clean, cid))
         == Some(Requested(ns, req))
  {
    hide Encode, EncodeDescriptors, HasDescriptors, Used, Get, MaxSize, TransferLimit, Controller.InRange;
    hide IoConfig.DescriptorAddress, Sgl.Walk, Prp.Walk, Sgl.Ranges, Bytes, TotalLength, Blank, EachWithin, Plain;
    hide Interpret;
    ControllerBounds(ns.ctl);
    UsedBound(ns, req);
    TransferFields(ns, req, clean, cid);
    SectorsInRange(ns, req);
    SglInMemory(ns, req, cid, previous, words);
    SglPointer(ns, req, clean, cid, previous, Memory(ns.base, words));
    Sgl.RangesLength(Used(ns, req), ns.ctl.sectorSize);
    ReadsSgls(ns.ctl.n, ns.ctl.sectorSize, Memory(ns.base, words), Encode(ns, req, clean, cid), Sectors(ns, req),
              Sgl.Ranges(Used(ns, req), ns.ctl.sectorSize));
  }

  lemma {:induction false} PrpTransfer(ns: IoConfig, req: Request, clean: Sqe, cid: nat, previous: seq<nat>,
                                       words: seq<nat>)
    requires ns.Valid() && RequestOk(ns, req) && |previous| == ns.Stride() && !req.op.WriteZeroes? && !ns.ctl.sgl
    requires Blank(clean, cid) && cid < TWO16
    requires HasDescriptors(ns, words, cid, EncodeDescriptors(ns, req, cid, previous))
    ensures Interpret(ns.ctl.n, ns.ctl.sectorSize, Memory(ns.base, words), Encode(ns, req, clean, cid))
         == Some(Requested(ns, req))
  {
    hide Encode, EncodeDescriptors, HasDescriptors, Used, Sectors, Get, MaxSize, TransferLimit, Controller.InRange;
    hide IoConfig.DescriptorAddress, Sgl.Walk, Prp.Walk, Sgl.Ranges, Bytes, Interval, TotalLength, Contiguous;
    hide Blank, Plain, Interpret;
    ControllerBounds(ns.ctl);
    TransferFields(ns, req, clean, cid);
    SectorsInRange(ns, req);
    PrpInMemory(ns, req, cid, previous, words);
    PrpPointer(ns, req, clean, cid, Memory(ns.base, words));
    PrpBytes(ns, req);
    ReadsPrps(ns.ctl.n, ns.ctl.sectorSize, Memory(ns.base, words), Encode(ns, req, clean, cid), Sectors(ns, req),
              req.blocks[0].dma);
  }
}
