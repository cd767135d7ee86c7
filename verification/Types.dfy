/** Commands, completions and callbacks as the driver lays them out. */
module Types {
  import opened Arithmetic

  datatype Option<+T> = None | Some(value: T)

  // ---------------------------------------------------------------------
  // Bit fields
  // ---------------------------------------------------------------------

  /** A bit field: `unit` is two to the power of its lowest bit, `span` two to
      the power of its width. */
  datatype Field = Field(unit: nat, span: nat)

  ghost predicate FieldOk(f: Field) { f.unit > 0 && f.span > 0 }

  function Get(v: nat, f: Field): (r: nat)
    requires FieldOk(f)
    ensures r < f.span
  {
    DivModParts(v, f.unit);
    DivModParts(v / f.unit, f.span);
    (v / f.unit) % f.span
  }

  /** Storing into a bit field truncates the value to the width of the field. */
  function Set(v: nat, f: Field, x: nat): nat
    requires FieldOk(f)
  {
    SplitField(v, f);
    DivModParts(x, f.span);
    MulMonotone(0, x % f.span, f.unit);
    v - Get(v, f) * f.unit + (x % f.span) * f.unit
  }

  /** The value below, inside and above a field. */
  lemma SplitField(v: nat, f: Field)
    requires FieldOk(f)
    ensures v == ((v / f.unit / f.span) * f.span + Get(v, f)) * f.unit + v % f.unit
    ensures Get(v, f) * f.unit <= v
  {
    DivModParts(v, f.unit);
    DivModParts(v / f.unit, f.span);
    var hi, mid := v / f.unit / f.span, Get(v, f);
    MulMonotone(0, hi, f.span);
    MulMonotone(mid, hi * f.span + mid, f.unit);
  }

  lemma GetSet(v: nat, f: Field, x: nat)
    requires FieldOk(f)
    ensures Get(Set(v, f, x), f) == x % f.span
  {
    SplitField(v, f);
    DivModParts(x, f.span);
    var hi, mid, lo, y := v / f.unit / f.span, Get(v, f), v % f.unit, x % f.span;
    DivModParts(v, f.unit);
    Distribute(hi * f.span, mid, f.unit);
    Distribute(hi * f.span, y, f.unit);
    assert Set(v, f, x) == (hi * f.span + y) * f.unit + lo;
    DivModUnique(Set(v, f, x), hi * f.span + y, lo, f.unit);
    DivModUnique(hi * f.span + y, hi, y, f.span);
  }

  /** Storing into a field that is clear. */
  lemma SetClear(v: nat, f: Field, x: nat)
    requires FieldOk(f) && Get(v, f) == 0 && x < f.span
    ensures Set(v, f, x) == v + x * f.unit
  {
    DivModUnique(x, 0, x, f.span);
  }

  /** A field is clear in a value below it, and in a multiple of what lies above it. */
  lemma ClearAbove(v: nat, f: Field)
    requires FieldOk(f) && v < f.unit
    ensures Get(v, f) == 0
  {
    DivModUnique(v, 0, v, f.unit);
    DivModUnique(0, 0, 0, f.span);
  }

  lemma ClearBelow(k: nat, rest: nat, f: Field)
    requires FieldOk(f) && rest < f.unit
    ensures Get((k * f.span) * f.unit + rest, f) == 0
  {
    DivModUnique((k * f.span) * f.unit + rest, k * f.span, rest, f.unit);
    DivModUnique(k * f.span, k, 0, f.span);
  }

  /** Field `low` lies entirely below field `high`; the gap is `gap` bits wide, as a power of two. */
  ghost predicate Below(low: Field, high: Field, gap: nat)
  {
    FieldOk(low) && FieldOk(high) && gap > 0 && high.unit == (gap * low.span) * low.unit
  }

  lemma SetKeepsLower(v: nat, low: Field, high: Field, gap: nat, x: nat)
    requires Below(low, high, gap)
    ensures Get(Set(v, high, x), low) == Get(v, low)
  {
    var k := x % high.span - Get(v, high);
    var m := k * gap;
    Distribute(x % high.span, Get(v, high), high.unit);
    assert Set(v, high, x) == v + k * high.unit;
    MulAssoc(k, gap * low.span, low.unit);
    MulAssoc(k, gap, low.span);
    assert k * high.unit == (m * low.span) * low.unit;
    ModShift(v, m * low.span, low.unit);
    ModShift(v / low.unit, m, low.span);
  }

  lemma MulAssoc(a: int, b: int, c: int)
    ensures a * (b * c) == (a * b) * c
  {
  }

  lemma SetKeepsUpper(v: nat, low: Field, high: Field, gap: nat, x: nat)
    requires Below(low, high, gap)
    ensures Get(Set(v, low, x), high) == Get(v, high)
  {
    SplitField(v, low);
    DivModParts(x, low.span);
    DivModParts(v, low.unit);
    var hi, mid, lo, y := v / low.unit / low.span, Get(v, low), v % low.unit, x % low.span;
    Distribute(hi * low.span, mid, low.unit);
    Distribute(hi * low.span, y, low.unit);
    HighPart(hi, mid, lo, low, high, gap);
    HighPart(hi, y, lo, low, high, gap);
  }

  /** Above the low field only the high part of the value matters. */
  lemma HighPart(hi: nat, mid: nat, lo: nat, low: Field, high: Field, gap: nat)
    requires Below(low, high, gap) && mid < low.span && lo < low.unit
    ensures ((hi * low.span + mid) * low.unit + lo) / high.unit == hi / gap
  {
    var v := (hi * low.span + mid) * low.unit + lo;
    var d, r := hi / gap, hi % gap;
    DivModParts(hi, gap);
    var rest := (r * low.span + mid) * low.unit + lo;
    // rest is smaller than high.unit
    MulMonotone(r, gap - 1, low.span);
    Distribute(gap, 1, low.span);
    MulMonotone(r * low.span + mid, gap * low.span - 1, low.unit);
    Distribute(gap * low.span, 1, low.unit);
    MulMonotone(0, r, low.span);
    MulMonotone(0, r * low.span + mid, low.unit);
    // v == d * high.unit + rest
    Distribute(d * gap, r, low.span);
    MulAssoc(d, gap, low.span);
    Distribute(d * (gap * low.span), r * low.span + mid, low.unit);
    MulAssoc(d, gap * low.span, low.unit);
    assert hi * low.span + mid == d * (gap * low.span) + (r * low.span + mid);
    DivModUnique(v, d, rest, high.unit);
  }

  const TWO16: nat := 0x1_0000
  const TWO32: nat := 0x1_0000_0000
  const TWO64: nat := 0x1_0000_0000_0000_0000

  const OPC := Field(1, 0x100)              // cdw0 bits 0..7
  const PSDT := Field(0x4000, 4)            // cdw0 bits 14..15
  const CID := Field(0x1_0000, 0x1_0000)    // cdw0 bits 16..31
  const LOW16 := Field(1, 0x1_0000)         // bits 0..15: nlb, qid
  const HIGH16 := Field(0x1_0000, 0x1_0000) // bits 16..31: qsize, iv, cqid, cntid
  const CNS := Field(1, 0x100)              // cdw10 bits 0..7
  const BIT0 := Field(1, 2)                 // cdw11 bit 0: pc
  const BIT1 := Field(2, 2)                 // cdw11 bit 1: ien
  const DEAC := Field(0x200_0000, 2)        // cdw12 bit 25
  const SGL_LEN := Field(1, 0x1_0000_0000)            // second descriptor word, bits 0..31
  const SGL_ID := Field(0x100_0000_0000_0000, 0x100)  // second descriptor word, bits 56..63

  // ---------------------------------------------------------------------
  // Queue entries
  // ---------------------------------------------------------------------

  /** Submission queue entry. `dptr1` and `dptr2` are the two 64-bit words that the
      PRP pair and the SGL descriptor share. */
  datatype Sqe = Sqe(
    cdw0: nat, nsid: nat, res: nat, mptr: nat, dptr1: nat, dptr2: nat,
    cdw10: nat, cdw11: nat, cdw12: nat, cdw13: nat, cdw14: nat, cdw15: nat)
  {
    function Cid(): nat { Get(cdw0, CID) }

    /** `Sqe::init`: every field but the reserved one is cleared. */
    function Init(): Sqe { Sqe(0, 0, res, 0, 0, 0, 0, 0, 0, 0, 0, 0) }

    function WithCid(cid: nat): Sqe { this.(cdw0 := Set(cdw0, CID, cid)) }
  }

  /** All that is set in an entry is its identifier; the reserved field is not touched. */
  predicate Blank(e: Sqe, cid: nat)
  {
    e == Sqe(0x1_0000 * cid, 0, e.res, 0, 0, 0, 0, 0, 0, 0, 0, 0)
  }

  /** The entry `produce` hands out. */
  function FreshSqe(previous: Sqe, cid: nat): (r: Sqe)
    ensures cid < TWO16 ==> r.Cid() == cid && Blank(r, cid)
    ensures r.res == previous.res
  {
    GetSet(0, CID, cid);
    assert cid < TWO16 ==> cid % CID.span == cid;
    previous.Init().WithCid(cid)
  }

  /** Completion queue entry. */
  datatype Cqe = Cqe(sqid: nat, sqhd: nat, cid: nat, phase: bool, sf: nat)

  const OP_WRITE := 1
  const OP_READ := 2
  const OP_WRITE_ZEROES := 8
  const USE_PRPS := 0
  const USE_SGLS := 1
  const SGL_DATA := 0
  const SGL_LAST_SEGMENT := 0x30

  // ---------------------------------------------------------------------
  // Requests and callbacks
  // ---------------------------------------------------------------------

  /** One segment of a client request: its DMA address and length in sectors. */
  datatype Block = Block(dma: nat, sectors: nat)

  datatype Operation = Read | Write | WriteZeroes(unmap: bool)

  /** A client request: what to do, from which sector on, with which chain of
      segments, and which client callback to run. */
  datatype Request = Request(op: Operation, sector: nat, blocks: seq<Block>, client: nat)

  /** The closures the driver passes to `produce`, with the values they capture. */
  datatype Callback =
    | TransferDone(req: Request, bytes: nat)
    | ZeroesDone(req: Request)
    | ControllerIdentified
    | NamespaceIdentified(nn: nat, n: nat)
    | CqCreated(nn: nat, n: nat)
    | SqCreated(nn: nat, n: nat)
}
