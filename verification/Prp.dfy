/** Physical region pages: the list the driver builds (server/src/nvme_device.cc,
    server/src/ns.cc) and the controller's reading of it, which follows section 4.3
    of the NVM Express Base Specification 1.4. A page holds `n` entries of 8 bytes. */
module Prp {
  import opened Arithmetic
  import opened Types
  import opened PhysicalMemory

  function PageSize(n: nat): nat { 8 * n }

  /** `l4_trunc_page`. */
  function TruncPage(x: nat, pg: nat): (r: nat)
    requires pg > 0
    ensures r == x - x % pg
  {
    DivModParts(x, pg);
    MulMonotone(0, x / pg, pg);
    x - x % pg
  }

  /** The offset of an address within its page. */
  function PageOffset(x: nat, pg: nat): (r: nat)
    requires pg > 0
    ensures r < pg
  {
    DivModParts(x, pg);
    x % pg
  }

  function Min(a: nat, b: nat): nat { if a < b then a else b }

  // ---------------------------------------------------------------------
  // The controller
  // ---------------------------------------------------------------------

  /** Whether the list entry at `addr` is the last one of its memory page. */
  predicate LastSlot(n: nat, addr: nat)
    requires n > 0
  {
    addr % PageSize(n) == PageSize(n) - 8
  }

  /** Reading a PRP list: entries map one page each; the last entry of a list page
      points to the next list page if more than one page remains to be mapped. */
  function WalkList(n: nat, mem: Memory, addr: nat, remaining: nat): Option<seq<Range>>
    requires n >= 2
    decreases remaining, if LastSlot(n, addr) then 1 else 0
  {
    var pg := PageSize(n);
    if remaining == 0 then Some([]) else
    match Load(mem, addr)
    case None => None
    case Some(w) =>
      if w % pg != 0 then None
      else if LastSlot(n, addr) && remaining > pg then WalkList(n, mem, w, remaining)
      else
        var len := Min(remaining, pg);
        match WalkList(n, mem, addr + 8, remaining - len)
        case None => None
        case Some(rest) => Some([Range(w, len)] + rest)
  }

  /** Reading the PRP pair of a command that transfers `total` bytes. */
  function Walk(n: nat, mem: Memory, prp1: nat, prp2: nat, total: nat): Option<seq<Range>>
    requires n >= 2
  {
    var pg := PageSize(n);
    var first := Min(total, pg - PageOffset(prp1, pg));
    var rest := total - first;
    if rest == 0 then Some([Range(prp1, first)])
    else if rest <= pg then
      if prp2 % pg != 0 then None else Some([Range(prp1, first), Range(prp2, rest)])
    else
      match WalkList(n, mem, prp2, rest)
      case None => None
      case Some(rs) => Some([Range(prp1, first)] + rs)
  }

  // ---------------------------------------------------------------------
  // The driver
  // ---------------------------------------------------------------------

  /** How many bytes `inout_data` leaves to the list after PRP1, and zero if the
      second page is the last. */
  function ListBytes(pg: nat, dma: nat, sz: nat): nat
    requires pg > 0
  {
    DivModParts(dma, pg);
    ModShift(dma, 1, pg);
    var paddr := TruncPage(dma + pg, pg);
    var remains := if sz >= paddr - dma then sz - (paddr - dma) else 0;
    if remains <= pg then 0 else remains
  }

  /** Whether `readwrite_prepare_prp` makes PRP2 a list pointer. */
  predicate UsesList(pg: nat, dma: nat, sz: nat)
    requires pg > 0 && sz > 0
  {
    var last := TruncPage(dma + sz - 1, pg);
    TruncPage(dma, pg) != last && TruncPage(dma, pg) != last - pg
  }

  /** The PRP2 field as `readwrite_prepare_prp` computes it. */
  function ChoosePrp2(pg: nat, dma: nat, sz: nat, list: nat): nat
    requires pg > 0
  {
    // unsigned: for an empty transfer at address zero this wraps around
    var last := TruncPage(if dma + sz > 0 then dma + sz - 1 else TWO64 - 1, pg);
    if TruncPage(dma, pg) == last then 0
    else if TruncPage(dma, pg) != last - pg then list
    else last
  }

  /** The words the construction loop stores, from position `r` of list page `p` on,
      with `remains` bytes from `paddr` on still to be mapped, if space permits. */
  function Entries(n: nat, list: nat, r: nat, p: nat, paddr: nat, remains: nat): seq<nat>
    requires n >= 2 && r < n
    decreases remains, if r == n - 1 then 1 else 0
  {
    var pg := PageSize(n);
    if remains == 0 then []
    else if r == n - 1 && remains > pg then
      [NextPage(list, p, pg)] + Entries(n, list, 0, p + 1, paddr, remains)
    else
      [paddr] + Entries(n, list, if r == n - 1 then 0 else r + 1, p, paddr + pg, remains - Min(remains, pg))
  }

  /** All words of the list of a transfer. */
  function ListWords(n: nat, list: nat, dma: nat, sz: nat): seq<nat>
    requires n >= 2
  {
    var pg := PageSize(n);
    Entries(n, list, 0, 0, TruncPage(dma + pg, pg), ListBytes(pg, dma, sz))
  }

  /** `prp2 + p * L4_PAGESIZE` after the increment of `p`. */
  function NextPage(list: nat, p: nat, pg: nat): nat
  {
    MulMonotone(0, p + 1, pg);
    list + (p + 1) * pg
  }

  // ---------------------------------------------------------------------
  // Which page is touched
  // ---------------------------------------------------------------------

  /** The two decisions, made in different files, agree; and without a list PRP2 is
      zero for a transfer within one page and the second page otherwise. */
  lemma DecisionsAgree(pg: nat, dma: nat, sz: nat, list: nat)
    requires pg > 0 && sz > 0
    ensures UsesList(pg, dma, sz) <==> ListBytes(pg, dma, sz) != 0
    ensures UsesList(pg, dma, sz) <==> PageOffset(dma, pg) + sz > 2 * pg
    ensures UsesList(pg, dma, sz) ==> ListBytes(pg, dma, sz) == PageOffset(dma, pg) + sz - pg
    ensures UsesList(pg, dma, sz) ==> ChoosePrp2(pg, dma, sz, list) == list
    ensures PageOffset(dma, pg) + sz <= pg ==> ChoosePrp2(pg, dma, sz, list) == 0
    ensures pg < PageOffset(dma, pg) + sz <= 2 * pg ==> ChoosePrp2(pg, dma, sz, list) == TruncPage(dma, pg) + pg
  {
    ModShift(dma, 1, pg);
    DivModParts(dma, pg);
    LastPage(pg, dma, sz);
  }

  /** For an empty transfer `addr + sz - 1` is the byte before it, at address zero the last of
      all: PRP2 is zero unless the transfer starts on a page boundary. */
  lemma EmptyPrp2(pg: nat, dma: nat, list: nat)
    requires 1 < pg && 4 * pg <= TWO64
    ensures ChoosePrp2(pg, dma, 0, list) == if dma % pg == 0 then list else 0
  {
    if dma == 0 {
      DivModParts(TWO64 - 1, pg);
      DivModUnique(0, 0, 0, pg);
    } else {
      DivModParts(dma, pg);
      if dma % pg == 0 {
        Distribute(dma / pg, 1, pg);
        DivModUnique(dma - 1, dma / pg - 1, pg - 1, pg);
      } else {
        DivModUnique(dma - 1, dma / pg, dma % pg - 1, pg);
      }
    }
  }

  /** The page of the last byte, relative to the page of the first. */
  lemma LastPage(pg: nat, dma: nat, sz: nat)
    requires pg > 0 && sz > 0
    ensures TruncPage(dma + sz - 1, pg) == TruncPage(dma, pg) <==> dma % pg + sz <= pg
    ensures TruncPage(dma + sz - 1, pg) == TruncPage(dma, pg) + pg <==> pg < dma % pg + sz <= 2 * pg
    ensures TruncPage(dma + sz - 1, pg) >= TruncPage(dma, pg)
  {
    var d, off := dma / pg, dma % pg;
    DivModParts(dma, pg);
    var x := off + sz - 1;
    var e, y := x / pg, x % pg;
    DivModParts(x, pg);
    Distribute(d, e, pg);
    DivModUnique(dma + sz - 1, d + e, y, pg);
    assert TruncPage(dma + sz - 1, pg) == TruncPage(dma, pg) + e * pg;
    DivBound(x, pg, 1);
    DivBound(x, pg, 2);
    MulMonotone(0, e, pg);
    if e >= 2 {
      MulMonotone(2, e, pg);
    }
  }

  // ---------------------------------------------------------------------
  // The walk inverts the construction
  // ---------------------------------------------------------------------

  /** The position of entry `i` within its list page. */
  lemma EntryAddress(n: nat, list: nat, r: nat, p: nat, i: nat)
    requires n >= 2 && r < n && i == p * n + r && list % PageSize(n) == 0
    ensures LastSlot(n, list + 8 * i) <==> r == n - 1
    ensures NextPage(list, p, PageSize(n)) % PageSize(n) == 0
    ensures r == n - 1 ==> NextPage(list, p, PageSize(n)) == list + 8 * (i + 1)
  {
    var pg := PageSize(n);
    MulAssoc(8, p, n);
    MulAssoc(p, 8, n);
    assert 8 * i == p * pg + 8 * r;
    ModShift(8 * r + list, p, pg);
    DivModParts(list, pg);
    DivModUnique(8 * r + list, list / pg, 8 * r, pg);
    ModShift(list, p + 1, pg);
    Distribute(p, 1, pg);
  }

  // One step of the controller's reading of a list.

  lemma WalkLink(n: nat, mem: Memory, addr: nat, remaining: nat, w: nat)
    requires n >= 2 && Load(mem, addr) == Some(w) && w % PageSize(n) == 0
    requires LastSlot(n, addr) && remaining > PageSize(n)
    ensures WalkList(n, mem, addr, remaining) == WalkList(n, mem, w, remaining)
  {
  }

  lemma {:induction false} WalkData(n: nat, mem: Memory, addr: nat, remaining: nat, w: nat, rest: seq<Range>)
    requires n >= 2 && remaining > 0 && Load(mem, addr) == Some(w) && w % PageSize(n) == 0
    requires !(LastSlot(n, addr) && remaining > PageSize(n))
    requires WalkList(n, mem, addr + 8, remaining - Min(remaining, PageSize(n))) == Some(rest)
    ensures WalkList(n, mem, addr, remaining) == Some([Range(w, Min(remaining, PageSize(n)))] + rest)
  {
  }

  ghost predicate Maps(rs: Option<seq<Range>>, addr: nat, len: nat)
  {
    rs.Some? && Contiguous(rs.value, addr, len)
  }

  lemma {:induction false} WalkListInverts(n: nat, mem: Memory, list: nat, r: nat, p: nat, i: nat, paddr: nat,
                                           remains: nat)
    requires n >= 2 && r < n && i == p * n + r && list % PageSize(n) == 0 && paddr % PageSize(n) == 0
    requires Stores(mem, list + 8 * i, Entries(n, list, r, p, paddr, remains))
    ensures Maps(WalkList(n, mem, list + 8 * i, remains), paddr, remains)
    decreases remains, if r == n - 1 then 1 else 0
  {
    hide LastSlot, NextPage, Stores, Load, WalkList;
    var pg := PageSize(n);
    if remains == 0 {
      WalkNothing(n, mem, list + 8 * i, paddr);
    } else {
      EntryAddress(n, list, r, p, i);
      var words := Entries(n, list, r, p, paddr, remains);
      StoresTail(mem, list + 8 * i, words);
      if r == n - 1 && remains > pg {
        assert words[1..] == Entries(n, list, 0, p + 1, paddr, remains);
        Distribute(p, 1, n);
        WalkListInverts(n, mem, list, 0, p + 1, i + 1, paddr, remains);
        WalkLink(n, mem, list + 8 * i, remains, words[0]);
      } else {
        var len := Min(remains, pg);
        if r < n - 1 {
          assert words[1..] == Entries(n, list, r + 1, p, paddr + pg, remains - len);
          ModShift(paddr, 1, pg);
          WalkListInverts(n, mem, list, r + 1, p, i + 1, paddr + pg, remains - len);
        } else {
          WalkNothing(n, mem, list + 8 * (i + 1), paddr + pg);
        }
        var rest := WalkList(n, mem, list + 8 * (i + 1), remains - len).value;
        WalkData(n, mem, list + 8 * i, remains, paddr, rest);
        ContiguousCons(paddr, len, remains, rest, pg);
      }
    }
  }

  lemma WalkNothing(n: nat, mem: Memory, addr: nat, paddr: nat)
    requires n >= 2
    ensures Maps(WalkList(n, mem, addr, 0), paddr, 0)
  {
  }

  lemma {:induction false} ContiguousCons(paddr: nat, len: nat, remains: nat, rest: seq<Range>, pg: nat)
    requires 0 < len <= remains && (len < remains ==> len == pg)
    requires Contiguous(rest, paddr + pg, remains - len)
    ensures Contiguous([Range(paddr, len)] + rest, paddr, remains)
  {
  }

  /** The first page boundary after an address. */
  lemma FirstBoundary(pg: nat, dma: nat)
    requires pg > 0
    ensures TruncPage(dma + pg, pg) == dma + (pg - PageOffset(dma, pg)) == TruncPage(dma, pg) + pg
    ensures (dma + (pg - PageOffset(dma, pg))) % pg == 0
  {
    DivModParts(dma, pg);
    ModShift(dma, 1, pg);
    DivModUnique(TruncPage(dma, pg), dma / pg, 0, pg);
    ModShift(TruncPage(dma, pg), 1, pg);
  }

  // The controller's reading of the PRP pair, by the number of pages touched.

  lemma WalkOnePage(n: nat, mem: Memory, dma: nat, prp2: nat, sz: nat)
    requires n >= 2 && sz > 0 && PageOffset(dma, PageSize(n)) + sz <= PageSize(n)
    ensures Maps(Walk(n, mem, dma, prp2, sz), dma, sz)
  {
    hide PageOffset, WalkList;
    assert Contiguous([Range(dma, sz)][1..], dma + sz, 0);
  }

  lemma WalkTwoPages(n: nat, mem: Memory, dma: nat, prp2: nat, sz: nat, first: nat)
    requires n >= 2 && first == PageSize(n) - PageOffset(dma, PageSize(n))
    requires first < sz <= first + PageSize(n) && prp2 == dma + first && prp2 % PageSize(n) == 0
    ensures Maps(Walk(n, mem, dma, prp2, sz), dma, sz)
  {
    hide PageOffset, WalkList;
    ContiguousCons(prp2, sz - first, sz - first, [], sz - first);
    ContiguousCons(dma, first, sz, [Range(prp2, sz - first)], first);
  }

  lemma WalkManyPages(n: nat, mem: Memory, dma: nat, prp2: nat, sz: nat, first: nat)
    requires n >= 2 && first == PageSize(n) - PageOffset(dma, PageSize(n))
    requires sz > first + PageSize(n) && Maps(WalkList(n, mem, prp2, sz - first), dma + first, sz - first)
    ensures Maps(Walk(n, mem, dma, prp2, sz), dma, sz)
  {
    hide PageOffset, WalkList;
    ContiguousCons(dma, first, sz, WalkList(n, mem, prp2, sz - first).value, first);
  }

  /** For every address and size the controller reads back exactly the transfer's
      bytes, one contiguous range in order, from what the driver set up. */
  lemma WalkInverts(n: nat, mem: Memory, dma: nat, sz: nat, list: nat)
    requires n >= 2 && sz > 0 && list % PageSize(n) == 0
    requires Stores(mem, list, ListWords(n, list, dma, sz))
    ensures Maps(Walk(n, mem, dma, ChoosePrp2(PageSize(n), dma, sz, list), sz), dma, sz)
  {
    hide UsesList, ChoosePrp2, TruncPage, ListBytes, Entries, WalkList, Walk, PageOffset, Stores, Maps;
    var pg := PageSize(n);
    DecisionsAgree(pg, dma, sz, list);
    FirstBoundary(pg, dma);
    var first, prp2 := pg - PageOffset(dma, pg), ChoosePrp2(pg, dma, sz, list);
    if sz <= first {
      WalkOnePage(n, mem, dma, prp2, sz);
    } else if sz <= first + pg {
      WalkTwoPages(n, mem, dma, prp2, sz, first);
    } else {
      WalkListInverts(n, mem, list, 0, 0, 0, dma + first, sz - first);
      WalkManyPages(n, mem, dma, prp2, sz, first);
    }
  }

  // ---------------------------------------------------------------------
  // Shape of the list
  // ---------------------------------------------------------------------

  /** Every entry, data or link, is page-aligned. */
  lemma {:induction false} EntriesAligned(n: nat, list: nat, r: nat, p: nat, paddr: nat, remains: nat, j: nat)
    requires n >= 2 && r < n && list % PageSize(n) == 0 && paddr % PageSize(n) == 0
    requires j < |Entries(n, list, r, p, paddr, remains)|
    ensures Entries(n, list, r, p, paddr, remains)[j] % PageSize(n) == 0
    decreases remains, if r == n - 1 then 1 else 0
  {
    var pg := PageSize(n);
    ModShift(list, p + 1, pg);
    ModShift(paddr, 1, pg);
    if j > 0 {
      if r == n - 1 && remains > pg {
        EntriesAligned(n, list, 0, p + 1, paddr, remains, j - 1);
      } else {
        EntriesAligned(n, list, if r == n - 1 then 0 else r + 1, p, paddr + pg, remains - Min(remains, pg), j - 1);
      }
    }
  }

  /** The last entry of a list page, unless it is the very last of the list, is a link and
      points to the list page that follows. */
  lemma {:induction false} LinksChainPages(n: nat, list: nat, r: nat, p: nat, i: nat, paddr: nat, remains: nat, j: nat)
    requires n >= 2 && r < n && i == p * n + r && list % PageSize(n) == 0
    requires j + 1 < |Entries(n, list, r, p, paddr, remains)| && LastSlot(n, list + 8 * (i + j))
    ensures Entries(n, list, r, p, paddr, remains)[j] == list + 8 * (i + j + 1)
    decreases remains, if r == n - 1 then 1 else 0
  {
    var pg := PageSize(n);
    EntryAddress(n, list, r, p, i);
    hide LastSlot, NextPage;
    if j > 0 {
      if r == n - 1 && remains > pg {
        Distribute(p, 1, n);
        LinksChainPages(n, list, 0, p + 1, i + 1, paddr, remains, j - 1);
      } else if r < n - 1 {
        LinksChainPages(n, list, r + 1, p, i + 1, paddr + pg, remains - Min(remains, pg), j - 1);
      }
    }
  }

  // ---------------------------------------------------------------------
  // Capacity of `k` list pages
  // ---------------------------------------------------------------------

  /** Pages needed for a number of bytes that start on a page boundary. */
  function Pages(bytes: nat, pg: nat): nat
    requires pg > 0
  {
    DivModParts(bytes + pg - 1, pg);
    (bytes + pg - 1) / pg
  }

  lemma PagesStep(bytes: nat, pg: nat)
    requires pg > 0
    ensures bytes > pg ==> Pages(bytes, pg) > 1 && Pages(bytes - pg, pg) == Pages(bytes, pg) - 1
    ensures 0 < bytes <= pg ==> Pages(bytes, pg) == 1
    ensures bytes == 0 ==> Pages(bytes, pg) == 0
  {
    DivBound(bytes + pg - 1, pg, 1);
    DivBound(bytes + pg - 1, pg, 2);
    if bytes > pg {
      ModShift(bytes - pg + pg - 1, 1, pg);
    }
  }

  lemma PagesBound(bytes: nat, pg: nat, x: nat)
    requires pg > 0
    ensures Pages(bytes, pg) <= x <==> bytes <= x * pg
  {
    DivBound(bytes + pg - 1, pg, x + 1);
    Distribute(x, 1, pg);
  }

  /** List entries used for `m` pages from position `r` of a list page on. */
  function EntryCount(n: nat, r: nat, m: nat): nat
    requires n >= 2 && r < n
    decreases m, if r == n - 1 then 1 else 0
  {
    if m == 0 then 0
    else if r == n - 1 && m > 1 then 1 + EntryCount(n, 0, m)
    else 1 + EntryCount(n, if r == n - 1 then 0 else r + 1, m - 1)
  }

  lemma {:induction false} EntriesCount(n: nat, list: nat, r: nat, p: nat, paddr: nat, remains: nat)
    requires n >= 2 && r < n
    ensures |Entries(n, list, r, p, paddr, remains)| == EntryCount(n, r, Pages(remains, PageSize(n)))
    decreases remains, if r == n - 1 then 1 else 0
  {
    var pg := PageSize(n);
    PagesStep(remains, pg);
    hide Pages;
    if remains != 0 {
      if r == n - 1 && remains > pg {
        EntriesCount(n, list, 0, p + 1, paddr, remains);
      } else {
        PagesStep(0, pg);
        EntriesCount(n, list, if r == n - 1 then 0 else r + 1, p, paddr + pg, remains - Min(remains, pg));
      }
    }
  }

  /** One list page: either all remaining pages fit in it, or it is filled with data
      but for its last entry, the link. */
  lemma {:induction false} RowCount(n: nat, r: nat, m: nat)
    requires n >= 2 && r < n
    ensures m <= n - r ==> EntryCount(n, r, m) == m
    ensures m > n - r ==> EntryCount(n, r, m) == n - r + EntryCount(n, 0, m - (n - 1 - r))
    decreases n - r
  {
    if m > 0 {
      if r < n - 1 {
        RowCount(n, r + 1, m - 1);
      }
    }
  }

  lemma {:induction false} FitsPages(n: nat, k: nat, m: nat)
    requires n >= 2 && k >= 1
    ensures EntryCount(n, 0, m) <= k * n <==> m <= k * (n - 1) + 1
    decreases k
  {
    RowCount(n, 0, m);
    if k == 1 {
      assert k * n == n && k * (n - 1) == n - 1;
      if m > n {
        RowCount(n, 0, m - (n - 1));
      }
    } else {
      Distribute(k, 1, n);
      Distribute(k, 1, n - 1);
      MulMonotone(1, k, n);
      MulMonotone(1, k, n - 1);
      if m > n {
        FitsPages(n, k - 1, m - (n - 1));
      }
    }
  }

  /** `Prp_data_entries` for `k` list pages of `n` entries. */
  function DataEntries(n: nat, k: nat): nat
    requires n >= 2
  {
    MulMonotone(0, k, n - 1);
    2 + k * (n - 1)
  }

  /** The pages a transfer touches are no more than the data entries. */
  ghost predicate FitsList(n: nat, k: nat, dma: nat, sz: nat)
    requires n >= 2
  {
    PageOffset(dma, PageSize(n)) + sz <= DataEntries(n, k) * PageSize(n)
  }

  lemma DataEntriesAsDeclared(n: nat, k: nat)
    requires n >= 2
    ensures DataEntries(n, k) == 2 + k * n - k
  {
    Distribute(k, 1, n - 1);
  }

  /** The construction ends with nothing left to map if and only if the transfer
      touches no more pages than PRP1, PRP2 and the list can hold. */
  lemma Capacity(n: nat, k: nat, dma: nat, sz: nat, list: nat)
    requires n >= 2 && k >= 1
    ensures |ListWords(n, list, dma, sz)| <= k * n
       <==> FitsList(n, k, dma, sz)
  {
    if sz == 0 {
      EmptyTransfer(n, k, dma, list);
    } else {
      CapacityNonEmpty(n, k, dma, sz, list);
    }
  }

  lemma EmptyTransfer(n: nat, k: nat, dma: nat, list: nat)
    requires n >= 2 && k >= 1
    ensures ListWords(n, list, dma, 0) == [] && FitsList(n, k, dma, 0) && 0 <= k * n
  {
    FirstBoundary(PageSize(n), dma);
    MulMonotone(1, DataEntries(n, k), PageSize(n));
    MulMonotone(0, k, n);
  }

  lemma CapacityNonEmpty(n: nat, k: nat, dma: nat, sz: nat, list: nat)
    requires n >= 2 && k >= 1 && sz > 0
    ensures |ListWords(n, list, dma, sz)| <= k * n
       <==> FitsList(n, k, dma, sz)
  {
    var pg := PageSize(n);
    var remains, x := ListBytes(pg, dma, sz), k * (n - 1) + 1;
    DecisionsAgree(pg, dma, sz, list);
    EntriesCount(n, list, 0, 0, TruncPage(dma + pg, pg), remains);
    FitsPages(n, k, Pages(remains, pg));
    MulMonotone(0, k, n - 1);
    MulMonotone(0, k, n);
    PagesBound(remains, pg, x);
    assert DataEntries(n, k) == x + 1;
    Distribute(x, 1, pg);
    MulMonotone(1, x, pg);
    hide ListBytes, Entries, Pages, TruncPage, PageOffset;
  }

  /** A transfer of at most one page less than the data entries can map fits at any
      page offset; at the worst offset two bytes more do not. */
  lemma MaxSizeFits(n: nat, k: nat, dma: nat, sz: nat)
    requires n >= 2 && k >= 1
    ensures sz <= (DataEntries(n, k) - 1) * PageSize(n) ==> FitsList(n, k, dma, sz)
    ensures PageOffset(dma, PageSize(n)) == PageSize(n) - 1 ==>
              (sz >= (DataEntries(n, k) - 1) * PageSize(n) + 2 ==> !FitsList(n, k, dma, sz))
  {
    Distribute(DataEntries(n, k), 1, PageSize(n));
  }

  // ---------------------------------------------------------------------
  // The construction loop
  // ---------------------------------------------------------------------

  /** The construction loop of `inout_data`, from list entry 0 on, into the `k * n`
      words of `prps` from `at` on; the result is what could not be mapped. */
  method FillList(n: nat, k: nat, list: nat, paddr0: nat, remains0: nat, prps: array<nat>, at: nat)
    returns (remains: nat)
    requires n >= 2 && 0 <= k * n && at + k * n <= prps.Length
    modifies prps
    ensures var words := Entries(n, list, 0, 0, paddr0, remains0);
            && (remains == 0 <==> |words| <= k * n)
            && prps[..] == Written(old(prps[..]), at, words[..Min(|words|, k * n)])
  {
    var pg := PageSize(n);
    var paddr := paddr0;
    remains := remains0;
    ghost var words := Entries(n, list, 0, 0, paddr, remains);
    ghost var r: nat := 0;
    ghost var before := prps[..];
    var i, p: nat := 0, 0;
    while remains != 0 && i < k * n
      invariant i <= k * n && i <= |words|
      invariant remains != 0 ==> r < n && i == p * n + r && words[i..] == Entries(n, list, r, p, paddr, remains)
      invariant remains == 0 ==> i == |words|
      invariant prps[..] == Written(before, at, words[..i])
      decreases k * n - i
    {
      hide Entries, Written, NextPage;
      FillStep(n, list, r, p, paddr, remains, words, i);
      if i % n == n - 1 && remains > pg {
        p := p + 1;
        MulMonotone(0, p, pg);
        prps[at + i] := list + p * pg;
        r := 0;
      } else {
        prps[at + i] := paddr;
        paddr := paddr + pg;
        remains := remains - Min(remains, pg);
        r := if r == n - 1 then 0 else r + 1;
      }
      WriteOne(before, at, words, i, prps[at + i]);
      i := i + 1;
    }
  }

  /** One turn of the loop: the entry to store, and the words that are left. */
  lemma {:induction false} FillStep(n: nat, list: nat, r: nat, p: nat, paddr: nat, remains: nat, words: seq<nat>,
                                    i: nat)
    requires n >= 2 && r < n && i == p * n + r && i <= |words| && remains != 0
    requires words[i..] == Entries(n, list, r, p, paddr, remains)
    ensures i < |words| && i % n == r
    ensures r == n - 1 && remains > PageSize(n) ==>
              && words[i] == NextPage(list, p, PageSize(n)) == list + (p + 1) * PageSize(n)
              && i + 1 == (p + 1) * n + 0 && words[i + 1..] == Entries(n, list, 0, p + 1, paddr, remains)
    ensures !(r == n - 1 && remains > PageSize(n)) ==>
              var r', left := if r == n - 1 then 0 else r + 1, remains - Min(remains, PageSize(n));
              && words[i] == paddr && words[i + 1..] == Entries(n, list, r', p, paddr + PageSize(n), left)
              && (left != 0 ==> i + 1 == p * n + r')
              && (left == 0 ==> i + 1 == |words|)
  {
    DivModUnique(i, p, r, n);
    Distribute(p, 1, n);
    var tail := words[i..];
    assert tail[0] == words[i] && tail[1..] == words[i + 1..];
  }

  /** `words` with `values` stored from position `at` on. */
  function Written(words: seq<nat>, at: nat, values: seq<nat>): (r: seq<nat>)
    requires at + |values| <= |words|
    ensures |r| == |words|
  {
    words[..at] + values + words[at + |values|..]
  }

  lemma {:induction false} WriteOne(before: seq<nat>, at: nat, words: seq<nat>, i: nat, w: nat)
    requires i < |words| && at + i < |before| && words[i] == w
    ensures Written(before, at, words[..i + 1]) == Written(before, at, words[..i])[at + i := w]
  {
    assert words[..i + 1] == words[..i] + [w];
  }

  /** Everything `inout_data` does to build the list of one transfer. */
  method ConstructList(n: nat, k: nat, list: nat, dma: nat, sz: nat, prps: array<nat>, at: nat) returns (remains: nat)
    requires n >= 2 && k >= 1 && 0 <= k * n && at + k * n <= prps.Length
    modifies prps
    ensures remains == 0 <==> FitsList(n, k, dma, sz)
    ensures var words := ListWords(n, list, dma, sz);
            prps[..] == Written(old(prps[..]), at, words[..Min(|words|, k * n)])
  {
    hide PageOffset, Entries, Written;
    var pg := PageSize(n);
    // the first page boundary: PRP1 maps everything before it
    var paddr := TruncPage(dma + pg, pg);
    FirstBoundary(pg, dma);
    remains := 0;
    if sz >= paddr - dma {
      remains := sz - (paddr - dma);
    }
    // what fits into one more page needs no list
    if remains <= pg {
      remains := 0;
    }
    assert remains == ListBytes(pg, dma, sz);
    Capacity(n, k, dma, sz, list);
    remains := FillList(n, k, list, paddr, remains, prps, at);
  }
}
