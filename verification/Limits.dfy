/** The request size limits the device announces (server/src/nvme_device.h). */
module Limits {
  import opened Arithmetic
  import opened Types
  import opened Sgl
  import opened Prp

  /** What the limits depend on: whether SGLs are used, segments per request with
      SGLs, list pages and entries per page, sector size, `ps << mdts` if MDTS is set. */
  datatype Controller = Controller(
    sgl: bool, segments: nat, n: nat, k: nat, sectorSize: nat, maxTransfer: Option<nat>)
  {
    /** The ranges the arithmetic is exact for: no shift or product exceeds 64 bits. */
    ghost predicate InRange()
    {
      && segments > 0 && n >= 2 && k >= 1
      && 0 < sectorSize && TWO16 * sectorSize < TWO64
      && (maxTransfer.Some? ==> maxTransfer.value < TWO64)
      && DataEntries(n, k) * PageSize(n) < TWO64
    }
  }

  const FOUR_MIB: nat := 4 * 1024 * 1024

  function MaxSegments(c: Controller): nat
  {
    if c.sgl then c.segments else 1
  }

  /** `max_size`, with the 64-bit product of the NLB limit. */
  function MaxSize(c: Controller): nat
    requires c.InRange()
  {
    DivModParts(TWO16 * c.sectorSize, MaxSegments(c));
    var nlbLimit: nat := ((TWO16 * c.sectorSize) % TWO64) / MaxSegments(c);
    Min(TransferLimit(c), nlbLimit)
  }

  /** The limit per segment before the NLB limit. */
  function TransferLimit(c: Controller): nat
    requires c.InRange()
  {
    if c.sgl then
      match c.maxTransfer
      case None => FOUR_MIB
      case Some(t) => DivModParts(t, c.segments); Min(FOUR_MIB, t / c.segments)
    else
      MulMonotone(1, DataEntries(c.n, c.k), PageSize(c.n));
      Distribute(DataEntries(c.n, c.k), 1, PageSize(c.n));
      var max := (DataEntries(c.n, c.k) - 1) * PageSize(c.n);
      match c.maxTransfer
      case None => max
      case Some(t) => Min(max, t)
  }

  ghost predicate EachWithin(blocks: seq<Block>, ss: nat, max: nat)
  {
    blocks != [] ==> blocks[0].sectors * ss <= max && EachWithin(blocks[1..], ss, max)
  }

  /** Segments within a bound add up to at most that many times the bound. */
  lemma {:induction false} SumWithin(blocks: seq<Block>, ss: nat, max: nat)
    requires EachWithin(blocks, ss, max)
    ensures SumSectors(blocks) * ss <= |blocks| * max
  {
    if blocks == [] {
    } else {
      SumWithin(blocks[1..], ss, max);
      Distribute(blocks[0].sectors, SumSectors(blocks[1..]), ss);
      Distribute(|blocks| - 1, 1, max);
    }
  }

  lemma {:induction false} EachFits(blocks: seq<Block>, ss: nat, max: nat)
    requires EachWithin(blocks, ss, max) && max < TWO32
    ensures LengthsFit(blocks, ss)
  {
    if blocks == [] {
    } else {
      EachFits(blocks[1..], ss, max);
    }
  }

  /** The limit per segment times the number of segments stays within both limits on
      the whole transfer. */
  lemma LimitTimesSegments(c: Controller)
    requires c.InRange()
    ensures MaxSegments(c) * MaxSize(c) <= TWO16 * c.sectorSize
    ensures c.maxTransfer.Some? ==> MaxSegments(c) * MaxSize(c) <= c.maxTransfer.value
    ensures c.sgl ==> MaxSize(c) <= 4 * 1024 * 1024
    ensures !c.sgl ==> MaxSize(c) <= (DataEntries(c.n, c.k) - 1) * PageSize(c.n)
  {
    var s, nlb := MaxSegments(c), TWO16 * c.sectorSize;
    DivModUnique(nlb, 0, nlb, TWO64);
    DivModParts(nlb, s);
    MulMonotone(MaxSize(c), nlb / s, s);
    if c.maxTransfer.Some? {
      var t := c.maxTransfer.value;
      if c.sgl {
        DivModParts(t, s);
        MulMonotone(MaxSize(c), t / s, s);
      }
    }
  }

  /** The limits compose: a request of at most `max_segments` segments, none larger than
      `max_size`, has at most 65536 sectors, respects MDTS as a whole, and each of its
      SGL lengths fits 32 bits. */
  lemma {:induction false} LimitsCompose(c: Controller, blocks: seq<Block>)
    requires c.InRange() && |blocks| <= MaxSegments(c) && EachWithin(blocks, c.sectorSize, MaxSize(c))
    ensures SumSectors(blocks) <= TWO16
    ensures c.maxTransfer.Some? ==> SumSectors(blocks) * c.sectorSize <= c.maxTransfer.value
    ensures c.sgl ==> LengthsFit(blocks, c.sectorSize)
  {
    hide MaxSize;
    LimitTimesSegments(c);
    SumWithin(blocks, c.sectorSize, MaxSize(c));
    MulMonotone(|blocks|, MaxSegments(c), MaxSize(c));
    if SumSectors(blocks) > TWO16 {
      MulMonotone(TWO16 + 1, SumSectors(blocks), c.sectorSize);
    }
    if c.sgl {
      EachFits(blocks, c.sectorSize, MaxSize(c));
    }
  }

  /** The sectors of a PRP request after truncation to `max_size`: never more than asked
      for, within 65536, MDTS and the list's capacity at every page offset. */
  lemma TruncationFits(c: Controller, sectors: nat, dma: nat)
    requires c.InRange() && !c.sgl
    ensures var m := Min(sectors, MaxSize(c) / c.sectorSize);
            && m <= TWO16 && m * c.sectorSize <= MaxSize(c)
            && (c.maxTransfer.Some? ==> m * c.sectorSize <= c.maxTransfer.value)
            && FitsList(c.n, c.k, dma, m * c.sectorSize)
    ensures sectors * c.sectorSize <= MaxSize(c) ==> Min(sectors, MaxSize(c) / c.sectorSize) == sectors
    ensures Min(sectors, MaxSize(c) / c.sectorSize) >= 1 <==> sectors >= 1 && c.sectorSize <= MaxSize(c)
  {
    LimitTimesSegments(c);
    hide MaxSize, TransferLimit, FitsList, PageOffset;
    var max, ss := MaxSize(c), c.sectorSize;
    DivModParts(max, ss);
    var m := Min(sectors, max / ss);
    MulMonotone(m, max / ss, ss);
    DivBound(max, ss, sectors);
    DivBound(max, ss, 1);
    MaxSizeFits(c.n, c.k, dma, m * ss);
    if m > TWO16 {
      MulMonotone(TWO16 + 1, m, ss);
    }
  }

  /** The 16-bit block count field, which holds one less than the number of blocks,
      is exact if and only if there are between 1 and 65536 blocks: with none it
      encodes 65536. `count - 1` is computed on 64-bit unsigned integers. */
  lemma BlockCountField(count: nat, previous: nat)
    requires count < TWO64
    ensures Get(Set(previous, LOW16, (count + TWO64 - 1) % TWO64), LOW16) + 1 == count <==> 1 <= count <= TWO16
    ensures count == 0 ==> Get(Set(previous, LOW16, (count + TWO64 - 1) % TWO64), LOW16) + 1 == TWO16
  {
    GetSet(previous, LOW16, (count + TWO64 - 1) % TWO64);
    hide Get, Set;
    if count >= 1 {
      ModShift(count - 1, 1, TWO64);
      DivModUnique(count - 1, 0, count - 1, TWO64);
    }
  }

  /** The announced limit is the greatest one: anything larger breaks the block count of a
      request that uses all its segments, the transfer limit of the controller spread over
      these, the 4 MiB the driver allows itself, or the capacity of the PRP list. */
  lemma MaxSizeIsGreatest(c: Controller, m: nat)
    requires c.InRange() && m > MaxSize(c)
    ensures var segments := if c.sgl then c.segments else 1;
            || segments * m > 0x1_0000 * c.sectorSize
            || (c.maxTransfer.Some? && segments * m > c.maxTransfer.value)
            || (c.sgl && m > 4 * 1024 * 1024)
            || (!c.sgl && m > (DataEntries(c.n, c.k) - 1) * PageSize(c.n))
  {
    hide DataEntries, PageSize;
    var s, nlb := MaxSegments(c), TWO16 * c.sectorSize;
    DivModUnique(nlb, 0, nlb, TWO64);
    if m > TransferLimit(c) {
      BeyondTransferLimit(c, m);
    } else {
      DivBound(nlb, s, m);
    }
  }

  lemma BeyondTransferLimit(c: Controller, m: nat)
    requires c.InRange() && m > TransferLimit(c)
    ensures var segments := if c.sgl then c.segments else 1;
            || (c.maxTransfer.Some? && segments * m > c.maxTransfer.value)
            || (c.sgl && m > 4 * 1024 * 1024)
            || (!c.sgl && m > (DataEntries(c.n, c.k) - 1) * PageSize(c.n))
  {
    hide DataEntries, PageSize;
    if c.sgl && c.maxTransfer.Some? {
      DivBound(c.maxTransfer.value, c.segments, m);
    }
  }

  /** MDTS is a power of two of memory pages, the smallest of which the controller states as
      a power of two from 4096 on; zero means no limit. */
  function MdtsBytes(mpsmin: nat, mdts: nat): Option<nat>
  {
    if mdts == 0 then None else Some(Pow2(12 + mpsmin) * Pow2(mdts))
  }

  /** The driver's constants: 32 segments, two list pages of 512 entries, 4096-byte pages. */
  function DriverController(sgl: bool, ss: nat, maxTransfer: Option<nat>): Controller
  {
    Controller(sgl, 32, 512, 2, ss, maxTransfer)
  }

  /** With these constants PRP1, PRP2 and the list map 1024 pages; without MDTS a request
      may have 1023 pages with PRPs, and with SGLs 4 MiB or 2048 sectors per segment. */
  lemma DriverLimits(ss: nat)
    requires 512 <= ss < 0x1_0000_0000_0000
    ensures DataEntries(512, 2) == 1024 && PageSize(512) == 4096
    ensures DriverController(false, ss, None).InRange() && MaxSize(DriverController(false, ss, None)) == 1023 * 4096
    ensures DriverController(true, ss, None).InRange()
    ensures MaxSize(DriverController(true, ss, None)) == Min(4 * 1024 * 1024, 2048 * ss)
  {
    DivModUnique(TWO16 * ss, 0, TWO16 * ss, TWO64);
    DivModUnique(TWO16 * ss, 2048 * ss, 0, 32);
  }

  /** With MDTS the driver announces no more, spread over 32 segments with SGLs; and no less
      than these limits allow. With MDTS 5 that is 128 KiB, or 4 KiB for each segment. */
  lemma DriverMdts(ss: nat, t: nat)
    requires 512 <= ss < 0x1_0000_0000_0000 && t < TWO64
    ensures DriverController(false, ss, Some(t)).InRange() && DriverController(true, ss, Some(t)).InRange()
    ensures MaxSize(DriverController(false, ss, Some(t))) == Min(1023 * 4096, t)
    ensures MaxSize(DriverController(true, ss, Some(t))) == Min(Min(4 * 1024 * 1024, t / 32), 2048 * ss)
    ensures MdtsBytes(0, 5) == Some(131072) && MdtsBytes(0, 0) == None && MdtsBytes(0, 1) == Some(8192)
    ensures MaxSegments(DriverController(false, ss, Some(t))) == 1
    ensures MaxSegments(DriverController(true, ss, Some(t))) == 32
  {
    DriverLimits(ss);
    Pow2Values();
    Pow2Add(12, 5);
    assert Pow2(1) == 2;
    DivModUnique(TWO16 * ss, 0, TWO16 * ss, TWO64);
    DivModUnique(TWO16 * ss, 2048 * ss, 0, 32);
    DivModParts(t, 32);
  }
}
