/** Physical memory as the controller reads it, and byte ranges of it. */
module PhysicalMemory {
  import opened Types

  /** A contiguous run of 64-bit words at physical address `base`. */
  datatype Memory = Memory(base: nat, words: seq<nat>)

  function Load(mem: Memory, addr: nat): Option<nat>
  {
    if mem.base <= addr && (addr - mem.base) % 8 == 0 && (addr - mem.base) / 8 < |mem.words|
    then Some(mem.words[(addr - mem.base) / 8]) else None
  }

  lemma LoadWord(mem: Memory, i: nat)
    requires i < |mem.words|
    ensures Load(mem, mem.base + 8 * i) == Some(mem.words[i])
  {
  }

  /** `words` are what memory holds from `addr` on. */
  ghost predicate Stores(mem: Memory, addr: nat, words: seq<nat>)
  {
    forall j: nat :: j < |words| ==> Load(mem, addr + 8 * j) == Some(words[j])
  }

  lemma {:induction false} StoresTail(mem: Memory, addr: nat, words: seq<nat>)
    requires Stores(mem, addr, words) && words != []
    ensures Load(mem, addr) == Some(words[0])
    ensures Stores(mem, addr + 8, words[1..])
  {
    assert Load(mem, addr + 8 * 0) == Some(words[0]);
    forall j: nat | j < |words[1..]|
      ensures Load(mem, addr + 8 + 8 * j) == Some(words[1..][j])
    {
      assert Load(mem, addr + 8 * (j + 1)) == Some(words[j + 1]);
    }
  }

  datatype Range = Range(addr: nat, len: nat)

  /** The byte addresses from `addr` on. */
  function Interval(addr: nat, len: nat): seq<nat>
  {
    seq(len, i requires 0 <= i < len => addr + i)
  }

  /** The byte addresses of a list of ranges, in order. */
  function Bytes(rs: seq<Range>): seq<nat>
  {
    if rs == [] then [] else Interval(rs[0].addr, rs[0].len) + Bytes(rs[1..])
  }

  function TotalLength(rs: seq<Range>): nat
  {
    if rs == [] then 0 else rs[0].len + TotalLength(rs[1..])
  }

  lemma {:induction false} BytesLength(rs: seq<Range>)
    ensures |Bytes(rs)| == TotalLength(rs)
  {
    if rs == [] {
    } else {
      BytesLength(rs[1..]);
    }
  }

  /** The ranges follow one another without gap, from `addr` for `len` bytes. */
  ghost predicate Contiguous(rs: seq<Range>, addr: nat, len: nat)
  {
    if rs == [] then len == 0
    else rs[0].addr == addr && 0 < rs[0].len <= len
         && Contiguous(rs[1..], addr + rs[0].len, len - rs[0].len)
  }

  lemma {:induction false} ContiguousBytes(rs: seq<Range>, addr: nat, len: nat)
    requires Contiguous(rs, addr, len)
    ensures Bytes(rs) == Interval(addr, len) && TotalLength(rs) == len
  {
    if rs == [] {
    } else {
      var first := rs[0].len;
      ContiguousBytes(rs[1..], addr + first, len - first);
      assert Interval(addr, len) == Interval(addr, first) + Interval(addr + first, len - first);
    }
  }
}
