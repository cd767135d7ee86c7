/** Scatter-gather lists: the descriptor array the driver builds
    (server/src/nvme_device.cc, server/src/ns.cc) and the controller's reading of it,
    which follows section 4.4 of the NVM Express Base Specification 1.4. A
    descriptor is two 64-bit words: the address, and length and identifier. */
module Sgl {
  import opened Arithmetic
  import opened Types
  import opened PhysicalMemory

  // ---------------------------------------------------------------------
  // The controller
  // ---------------------------------------------------------------------

  /** Reading a last segment: all descriptors are data blocks. */
  function WalkSegment(mem: Memory, addr: nat, count: nat): Option<seq<Range>>
    decreases count
  {
    if count == 0 then Some([]) else
    var address, word := Load(mem, addr), Load(mem, addr + 8);
    if address.None? || word.None? || TypeOf(word.value) != 0 then None else
    match WalkSegment(mem, addr + 16, count - 1)
    case None => None
    case Some(rest) => Some([Range(address.value, LengthOf(word.value))] + rest)
  }

  /** Type and length in the second word of a descriptor. */
  function TypeOf(word: nat): nat { word / 0x100_0000_0000_0000 % 0x100 }
  function LengthOf(word: nat): nat { word % 0x1_0000_0000 }

  /** Reading the descriptor in the command: a data block, or a pointer to the last segment. */
  function Walk(mem: Memory, word1: nat, word2: nat): Option<seq<Range>>
  {
    var id, len := TypeOf(word2), LengthOf(word2);
    if id == 0 then Some([Range(word1, len)])
    else if id == 0x30 && len % 16 == 0 && len > 0 then WalkSegment(mem, word1, len / 16)
    else None
  }

  // ---------------------------------------------------------------------
  // The driver
  // ---------------------------------------------------------------------

  /** A descriptor's second word after its identifier and length are stored. */
  function DescriptorWord(previous: nat, id: nat, len: nat): nat
  {
    Set(Set(previous, SGL_ID, id), SGL_LEN, len)
  }

  /** The identifier survives storing the length, which is cut to 32 bits. */
  lemma DescriptorFields(previous: nat, id: nat, len: nat)
    requires id < SGL_ID.span
    ensures TypeOf(DescriptorWord(previous, id, len)) == id
    ensures LengthOf(DescriptorWord(previous, id, len)) == len % TWO32
  {
    GetSet(previous, SGL_ID, id);
    GetSet(Set(previous, SGL_ID, id), SGL_LEN, len);
    SetKeepsUpper(Set(previous, SGL_ID, id), SGL_LEN, SGL_ID, 0x100_0000, len);
    DivModUnique(id, 0, id, SGL_ID.span);
  }

  /** The bits of a descriptor that are reserved. */
  function ReservedOf(word: nat): nat { word / 0x1_0000_0000 % 0x100_0000 }

  /** Storing identifier and length touches nothing else. */
  lemma DescriptorKeeps(previous: nat, id: nat, len: nat)
    requires id < 0x100
    ensures ReservedOf(DescriptorWord(previous, id, len)) == ReservedOf(previous)
    ensures previous < TWO64 ==> DescriptorWord(previous, id, len) < TWO64
  {
    var reserved, word := Field(0x1_0000_0000, 0x100_0000), Set(previous, SGL_ID, id);
    ReservedField(previous);
    ReservedField(DescriptorWord(previous, id, len));
    SetKeepsLower(previous, reserved, SGL_ID, 1, id);
    SetKeepsUpper(word, SGL_LEN, reserved, 1, len);
    if previous < TWO64 {
      SetStaysBelow(previous, SGL_ID, id);
      SetStaysBelow(word, SGL_LEN, len);
    }
  }

  lemma ReservedField(word: nat)
    ensures Get(word, Field(0x1_0000_0000, 0x100_0000)) == ReservedOf(word)
  {
  }

  /** A 64-bit word stays one. */
  lemma SetStaysBelow(v: nat, f: Field, x: nat)
    requires v < TWO64 && (f == SGL_ID || f == SGL_LEN)
    ensures Set(v, f, x) < TWO64
  {
    SplitField(v, f);
  }

  /** The words of the descriptors of `blocks`, stored over `previous`. */
  function Descriptors(previous: seq<nat>, blocks: seq<Block>, ss: nat): (r: seq<nat>)
    requires |previous| >= 2 * |blocks|
    ensures |r| == 2 * |blocks|
    decreases |blocks|
  {
    if blocks == [] then [] else
    MulMonotone(0, blocks[0].sectors, ss);
    [blocks[0].dma, DescriptorWord(previous[1], SGL_DATA, blocks[0].sectors * ss)]
    + Descriptors(previous[2..], blocks[1..], ss)
  }

  /** Every bit of the descriptors: address, type and length of each segment in turn; the
      reserved bits are as they were. */
  lemma {:induction false} DescriptorBits(previous: seq<nat>, blocks: seq<Block>, ss: nat, i: nat)
    requires |previous| >= 2 * |blocks| && i < |blocks|
    ensures var words := Descriptors(previous, blocks, ss);
            && words[2 * i] == blocks[i].dma && TypeOf(words[2 * i + 1]) == 0
            && LengthOf(words[2 * i + 1]) == (blocks[i].sectors * ss) % TWO32
            && ReservedOf(words[2 * i + 1]) == ReservedOf(previous[2 * i + 1])
            && (previous[2 * i + 1] < TWO64 ==> words[2 * i + 1] < TWO64)
    decreases |blocks|
  {
    hide DescriptorWord, TypeOf, LengthOf, ReservedOf;
    if i == 0 {
      MulMonotone(0, blocks[0].sectors, ss);
      DescriptorFields(previous[1], SGL_DATA, blocks[0].sectors * ss);
      DescriptorKeeps(previous[1], SGL_DATA, blocks[0].sectors * ss);
    } else {
      DescriptorBits(previous[2..], blocks[1..], ss, i - 1);
    }
  }

  /** The DMA ranges of `blocks`. */
  function Ranges(blocks: seq<Block>, ss: nat): (r: seq<Range>)
    ensures |r| == |blocks|
  {
    if blocks == [] then [] else
    MulMonotone(0, blocks[0].sectors, ss);
    [Range(blocks[0].dma, blocks[0].sectors * ss)] + Ranges(blocks[1..], ss)
  }

  function SumSectors(blocks: seq<Block>): nat
  {
    if blocks == [] then 0 else blocks[0].sectors + SumSectors(blocks[1..])
  }

  lemma {:induction false} RangesLength(blocks: seq<Block>, ss: nat)
    ensures TotalLength(Ranges(blocks, ss)) == SumSectors(blocks) * ss
  {
    if blocks == [] {
    } else {
      RangesLength(blocks[1..], ss);
      Distribute(blocks[0].sectors, SumSectors(blocks[1..]), ss);
    }
  }

  // ---------------------------------------------------------------------
  // The walk inverts the construction
  // ---------------------------------------------------------------------

  /** Every segment is short enough for the 32-bit length field. */
  ghost predicate LengthsFit(blocks: seq<Block>, ss: nat)
  {
    blocks != [] ==> blocks[0].sectors * ss < TWO32 && LengthsFit(blocks[1..], ss)
  }

  /** Reading the segment back gives the segments' DMA ranges in order, if and only if
      each length fits its field. */
  lemma {:induction false} WalkInverts(mem: Memory, addr: nat, previous: seq<nat>, blocks: seq<Block>, ss: nat)
    requires |previous| >= 2 * |blocks| && Stores(mem, addr, Descriptors(previous, blocks, ss))
    ensures WalkSegment(mem, addr, |blocks|).Some? && |WalkSegment(mem, addr, |blocks|).value| == |blocks|
    ensures WalkSegment(mem, addr, |blocks|).value == Ranges(blocks, ss) <==> LengthsFit(blocks, ss)
    decreases |blocks|
  {
    hide Stores, Load, TypeOf, LengthOf, DescriptorWord;
    if blocks == [] {
    } else {
      var words := Descriptors(previous, blocks, ss);
      MulMonotone(0, blocks[0].sectors, ss);
      var len := blocks[0].sectors * ss;
      DescriptorFields(previous[1], SGL_DATA, len);
      DivModParts(len, TWO32);
      StoresTail(mem, addr, words);
      StoresTail(mem, addr + 8, words[1..]);
      assert words[1..][1..] == words[2..];
      assert words[2..] == Descriptors(previous[2..], blocks[1..], ss);
      WalkInverts(mem, addr + 16, previous[2..], blocks[1..], ss);
      var walked := WalkSegment(mem, addr, |blocks|).value;
      assert walked[0] == Range(blocks[0].dma, len % TWO32);
      assert walked[1..] == WalkSegment(mem, addr + 16, |blocks[1..]|).value;
      assert Ranges(blocks, ss)[1..] == Ranges(blocks[1..], ss);
      assert walked == [walked[0]] + walked[1..];
      if walked == Ranges(blocks, ss) {
        assert walked[0] == Ranges(blocks, ss)[0];
      }
    }
  }

  // ---------------------------------------------------------------------
  // The two loops over the chain
  // ---------------------------------------------------------------------

  lemma {:induction false} SumAppend(blocks: seq<Block>, i: nat)
    requires i < |blocks|
    ensures SumSectors(blocks[..i + 1]) == SumSectors(blocks[..i]) + blocks[i].sectors
  {
    if i == 0 {
      assert blocks[..1][1..] == [];
    } else {
      SumAppend(blocks[1..], i - 1);
      assert blocks[..i + 1][1..] == blocks[1..][..i];
      assert blocks[..i][1..] == blocks[1..][..i - 1];
    }
  }

  /** The sectors of the first segments of the chain, at most `max` of them. */
  method CountSectors(blocks: seq<Block>, max: nat) returns (sectors: nat, count: nat)
    ensures count == if |blocks| < max then |blocks| else max
    ensures sectors == SumSectors(blocks[..count])
  {
    sectors, count := 0, 0;
    while count < |blocks| && count < max
      invariant count <= |blocks| && count <= max
      invariant sectors == SumSectors(blocks[..count])
    {
      SumAppend(blocks, count);
      sectors := sectors + blocks[count].sectors;
      count := count + 1;
    }
  }

  lemma {:induction false} DescriptorsAppend(previous: seq<nat>, blocks: seq<Block>, ss: nat, i: nat)
    requires i < |blocks| && |previous| >= 2 * |blocks| && 0 <= blocks[i].sectors * ss
    ensures Descriptors(previous, blocks[..i + 1], ss)
         == Descriptors(previous, blocks[..i], ss)
            + [blocks[i].dma, DescriptorWord(previous[2 * i + 1], SGL_DATA, blocks[i].sectors * ss)]
    decreases i
  {
    hide DescriptorWord;
    if i == 0 {
      assert blocks[..1][1..] == [];
      assert blocks[..1][0] == blocks[0];
    } else {
      DescriptorsAppend(previous[2..], blocks[1..], ss, i - 1);
      assert blocks[..i + 1][1..] == blocks[1..][..i];
      assert blocks[..i][1..] == blocks[1..][..i - 1];
    }
  }

  /** The array once the descriptors of the first `i` blocks are stored. */
  ghost function Stored(before: seq<nat>, at: nat, blocks: seq<Block>, ss: nat, i: nat): (r: seq<nat>)
    requires i <= |blocks| && at + 2 * |blocks| <= |before|
    ensures |r| == |before|
  {
    before[..at] + Descriptors(before[at..], blocks[..i], ss) + before[at + 2 * i..]
  }

  /** Storing one more descriptor. */
  lemma {:induction false} StoreStep(before: seq<nat>, at: nat, blocks: seq<Block>, ss: nat, i: nat)
    requires i < |blocks| && at + 2 * |blocks| <= |before| && 0 <= blocks[i].sectors * ss
    ensures var s := Stored(before, at, blocks, ss, i);
            var word := DescriptorWord(s[at + 2 * i + 1], SGL_DATA, blocks[i].sectors * ss);
            Stored(before, at, blocks, ss, i + 1) == s[at + 2 * i := blocks[i].dma][at + 2 * i + 1 := word]
  {
    hide DescriptorWord, Descriptors;
    var previous := before[at..];
    var done := Descriptors(previous, blocks[..i], ss);
    DescriptorsAppend(previous, blocks, ss, i);
    assert Stored(before, at, blocks, ss, i)[at + 2 * i + 1] == previous[2 * i + 1];
    WriteTwo(before, at, done, blocks[i].dma, DescriptorWord(previous[2 * i + 1], SGL_DATA, blocks[i].sectors * ss));
  }

  /** Stores the descriptors of `blocks` from word `at` on. */
  method ConstructSgl(blocks: seq<Block>, ss: nat, sgls: array<nat>, at: nat)
    requires at + 2 * |blocks| <= sgls.Length
    modifies sgls
    ensures sgls[..] == old(sgls[..at]) + Descriptors(old(sgls[at..]), blocks, ss) + old(sgls[at + 2 * |blocks|..])
  {
    hide DescriptorWord, Descriptors, Stored;
    ghost var before := sgls[..];
    StoredBounds(before, at, blocks, ss);
    var i := 0;
    while i < |blocks|
      invariant i <= |blocks|
      invariant sgls[..] == Stored(before, at, blocks, ss, i)
    {
      var b := blocks[i];
      MulMonotone(0, b.sectors, ss);
      StoreStep(before, at, blocks, ss, i);
      assert sgls[at + 2 * i + 1] == sgls[..][at + 2 * i + 1];
      sgls[at + 2 * i] := b.dma;
      sgls[at + 2 * i + 1] := DescriptorWord(sgls[at + 2 * i + 1], SGL_DATA, b.sectors * ss);
      i := i + 1;
    }
  }

  lemma {:induction false} StoredBounds(before: seq<nat>, at: nat, blocks: seq<Block>, ss: nat)
    requires at + 2 * |blocks| <= |before|
    ensures Stored(before, at, blocks, ss, 0) == before
    ensures Stored(before, at, blocks, ss, |blocks|)
         == before[..at] + Descriptors(before[at..], blocks, ss) + before[at + 2 * |blocks|..]
  {
    EmptyDescriptors(before[at..], ss);
    assert blocks[..0] == [] && blocks[..|blocks|] == blocks;
  }

  lemma {:induction false} WriteTwo(before: seq<nat>, at: nat, done: seq<nat>, x: nat, y: nat)
    requires at + |done| + 2 <= |before|
    ensures (before[..at] + done + before[at + |done|..])[at + |done| := x][at + |done| + 1 := y]
         == before[..at] + (done + [x, y]) + before[at + |done| + 2..]
  {
  }

  lemma {:induction false} EmptyDescriptors(previous: seq<nat>, ss: nat)
    ensures Descriptors(previous, [], ss) == []
  {
  }
}
