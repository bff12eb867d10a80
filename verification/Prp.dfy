/** Scatter-gather lists and Physical Region Pages.
  *
  * A transfer is a list of physically contiguous extents.  What it denotes is one physical
  * address per byte.  The controller recovers those addresses from PRP1, PRP2 and a list of
  * 64-bit entries by the rules of section 4.3 of NVM Express 1.4, which are written here as
  * the decoder, without looking at how the driver builds the entries. */
module Prp {
  import opened Base
  import opened Endian
  import opened Memory
  import opened Modular

  /** One DMAEntry of GetDMAList: a non-empty piece of the 32-bit physical address space. */
  datatype DmaEntry = Extent(phys: nat, len: nat)
  type Extent = e: DmaEntry | e.len > 0 && e.phys + e.len <= TWO32 witness Extent(0, 1)

  predicate Page(ps: nat) {
    ps >= 4096 && ps % 8 == 0
  }

  // ----- What an SG list denotes ---------------------------------------------------------

  function Total(sg: seq<Extent>): nat {
    if sg == [] then 0 else sg[0].len + Total(sg[1..])
  }

  /** The physical address of byte `i` of the transfer. */
  function AddrAt(sg: seq<Extent>, i: nat): u32
    requires i < Total(sg)
  {
    if i < sg[0].len then sg[0].phys + i else AddrAt(sg[1..], i - sg[0].len)
  }

  function Denotes(sg: seq<Extent>): (a: seq<u32>)
    ensures |a| == Total(sg)
    ensures forall i :: 0 <= i < |a| ==> a[i] == AddrAt(sg, i)
  {
    seq(Total(sg), i requires 0 <= i < Total(sg) => AddrAt(sg, i))
  }

  /** The contract of GetDMAList: only the first extent may start inside a page and only the
    * last may end inside one. */
  predicate WellFormed(sg: seq<Extent>, ps: nat)
    requires ps > 0
  {
    && sg != []
    && (forall k :: 0 < k < |sg| ==> Aligned(sg[k].phys, ps))
    && (forall k :: 0 <= k < |sg| - 1 ==> Aligned(sg[k].phys + sg[k].len, ps))
  }

  // ----- The controller's reading of PRPs ------------------------------------------------

  /** Bytes covered by PRP1: from its offset to the end of its page. */
  function FirstBytes(prp1: nat, ps: nat): (f: nat)
    requires ps > 0
    ensures 0 < f <= ps
  {
    ps - Rem(prp1, ps)
  }

  /** Pages needed for `rest` bytes that start on a page boundary. */
  function NumPages(rest: nat, ps: nat): nat
    requires ps > 0
  {
    Quot(rest + ps - 1, ps)
  }

  /** The `k`-th 64-bit entry of the PRP list at `list`. */
  function ListEntry(m: Mem, list: nat, k: nat): nat {
    ReadLe64(Gather(m, Span(list + 8 * k, 8)))
  }

  /** Section 4.3: bits 1:0 of PRP1 are reserved; every later entry has offset zero; PRP2 is
    * itself an entry when it covers the rest, and otherwise points at a list whose entries
    * end before the page does (a longer list would chain, which the driver never builds). */
  predicate Decodable(m: Mem, prp1: nat, prp2: nat, len: nat, ps: nat)
    requires ps > 0
  {
    var first := FirstBytes(prp1, ps);
    && prp1 % 4 == 0
    && (first < len <= first + ps ==> Aligned(prp2, ps))
    && (first + ps < len ==>
          && prp2 % 8 == 0
          && NumPages(len - first, ps) <= (ps - Rem(prp2, ps)) / 8
          && forall k: nat :: k < NumPages(len - first, ps) ==> Aligned(ListEntry(m, prp2, k), ps))
  }

  function DecodedAddr(m: Mem, prp1: nat, prp2: nat, len: nat, ps: nat, i: nat): nat
    requires ps > 0 && i < len
  {
    var first := FirstBytes(prp1, ps);
    if i < first then prp1 + i
    else if len <= first + ps then prp2 + (i - first)
    else ListEntry(m, prp2, Quot(i - first, ps)) + Rem(i - first, ps)
  }

  /** The addresses the controller moves data through, in transfer order. */
  function Decode(m: Mem, prp1: nat, prp2: nat, len: nat, ps: nat): Option<seq<nat>>
    requires ps > 0
  {
    if Decodable(m, prp1, prp2, len, ps)
    then Some(seq(len, i requires 0 <= i < len => DecodedAddr(m, prp1, prp2, len, ps, i)))
    else None
  }

  /** Page boundary `k` of a transfer whose first page holds `first` bytes. */
  function Boundary(first: nat, ps: nat, k: nat): nat {
    if k == 0 then first else Boundary(first, ps, k - 1) + ps
  }

  // ----- What the driver must put into PRP1, PRP2 and the list ---------------------------

  /** The physical page at every page boundary of the transfer from boundary `b` on. */
  function PagesFrom(sg: seq<Extent>, ps: nat, b: nat): seq<u32>
    requires ps > 0
    decreases if b < Total(sg) then Total(sg) - b else 0
  {
    if b >= Total(sg) then [] else [AddrAt(sg, b)] + PagesFrom(sg, ps, b + ps)
  }

  /** The pages after PRP1's. */
  function ExtraPages(sg: seq<Extent>, ps: nat): seq<u32>
    requires ps > 0 && sg != []
  {
    PagesFrom(sg, ps, FirstBytes(sg[0].phys, ps))
  }

  /** The little-endian image of a PRP list: low word, then a zero high word. */
  function ListImage(entries: seq<u32>): (b: seq<byte>)
    ensures |b| == 8 * |entries|
  {
    if entries == [] then []
    else
      var n := |entries| - 1;
      ListImage(entries[..n]) + Le32(entries[n]) + Le32(0)
  }

  function PutList(m: Mem, list: nat, entries: seq<u32>): Mem
  {
    Scatter(m, Span(list, 8 * |entries|), ListImage(entries))
  }

  datatype Built = Prps(prp1: nat, prp2: nat, mem: Mem) | TooManyPages(mem: Mem)

  /** Direct path: the outcome of the SG walk. */
  function Direct(m: Mem, sg: seq<Extent>, ps: nat, list: nat): Built
    requires ps > 0 && sg != []
  {
    var pages := ExtraPages(sg, ps);
    if pages == [] then Prps(sg[0].phys, 0, m)
    else if |pages| > ps / 8 then TooManyPages(PutList(m, list, pages[..ps / 8]))
    else Prps(sg[0].phys, if |pages| == 1 then pages[0] else list, PutList(m, list, pages))
  }

  /** The pages of a contiguous buffer from `b` up to `end`. */
  function ContiguousPages(b: nat, end: nat, ps: nat): seq<u32>
    requires ps > 0 && end <= TWO32
    decreases if b < end then end - b else 0
  {
    if b >= end then [] else [b] + ContiguousPages(b + ps, end, ps)
  }

  /** Bounce path: one page-aligned contiguous buffer. */
  function Bounce(m: Mem, phys: nat, len: nat, ps: nat, list: nat): Built
    requires Page(ps) && phys + len <= TWO32
  {
    if len <= ps then Prps(phys, 0, m)
    else if len <= 2 * ps then Prps(phys, phys + ps, m)
    else if NumPages(len, ps) - 1 > ps / 8 then TooManyPages(m)
    else Prps(phys, list, PutList(m, list, ContiguousPages(phys + ps, phys + len, ps)))
  }

  // ----- Page arithmetic -----------------------------------------------------------------

  /** Page `k` exists exactly when its first byte does. */
  lemma PageIndex(k: nat, rest: nat, ps: nat)
    requires ps > 0
    ensures k < NumPages(rest, ps) <==> Times(k, ps) < rest
  {
    RoundUp(k, rest, ps);
  }

  lemma {:induction false} BoundaryValue(first: nat, ps: nat, k: nat)
    ensures Boundary(first, ps, k) == first + Times(k, ps)
  {
    if k > 0 {
      BoundaryValue(first, ps, k - 1);
    }
  }

  /** Page boundary `k` lies inside the transfer exactly when the transfer has that page. */
  lemma BoundaryExists(len: nat, first: nat, ps: nat, k: nat)
    requires ps > 0 && first < len
    ensures k < NumPages(len - first, ps) <==> Boundary(first, ps, k) < len
  {
    BoundaryValue(first, ps, k);
    PageIndex(k, len - first, ps);
  }

  lemma FirstAligned(prp1: nat, ps: nat)
    requires ps > 0
    ensures Aligned(prp1 + FirstBytes(prp1, ps), ps)
  {
    ToNextUnit(prp1, ps);
  }

  /** Consecutive bytes are adjacent, except that after a page's last byte another page may follow. */
  lemma {:induction false} NextByte(sg: seq<Extent>, ps: nat, i: nat)
    requires ps > 0 && WellFormed(sg, ps) && i + 1 < Total(sg)
    ensures !Aligned(AddrAt(sg, i) + 1, ps) ==> AddrAt(sg, i + 1) == AddrAt(sg, i) + 1
    ensures Aligned(AddrAt(sg, i) + 1, ps) ==> Aligned(AddrAt(sg, i + 1), ps)
  {
    if i + 1 < sg[0].len {
    } else if i < sg[0].len {
      assert sg[1..] != [];
      assert AddrAt(sg, i + 1) == AddrAt(sg[1..], 0) == sg[1].phys;
    } else {
      assert WellFormed(sg[1..], ps);
      NextByte(sg[1..], ps, i - sg[0].len);
    }
  }

  /** From a page boundary on, a whole page is contiguous. */
  lemma {:induction false} PageRun(sg: seq<Extent>, ps: nat, i: nat, j: nat)
    requires ps > 0 && WellFormed(sg, ps) && j < ps && i + j < Total(sg) && Aligned(AddrAt(sg, i), ps)
    ensures AddrAt(sg, i + j) == AddrAt(sg, i) + j
  {
    if j > 0 {
      PageRun(sg, ps, i, j - 1);
      NextByte(sg, ps, i + j - 1);
      Inside(AddrAt(sg, i), j, ps);
    }
  }

  /** Up to the first page boundary the transfer stays in the first extent. */
  lemma {:induction false} FirstRun(sg: seq<Extent>, ps: nat, j: nat)
    requires ps > 0 && WellFormed(sg, ps) && j < Total(sg) && j < FirstBytes(sg[0].phys, ps)
    ensures AddrAt(sg, j) == sg[0].phys + j
  {
    if j > 0 {
      FirstRun(sg, ps, j - 1);
      NextByte(sg, ps, j - 1);
      Inside(sg[0].phys, j, ps);
    }
  }

  /** Every page boundary of the transfer falls on a physical page boundary. */
  lemma {:induction false} BoundaryAligned(sg: seq<Extent>, ps: nat, k: nat)
    requires ps > 0 && WellFormed(sg, ps)
    requires Boundary(FirstBytes(sg[0].phys, ps), ps, k) < Total(sg)
    ensures Aligned(AddrAt(sg, Boundary(FirstBytes(sg[0].phys, ps), ps, k)), ps)
  {
    var first := FirstBytes(sg[0].phys, ps);
    if k == 0 {
      FirstRun(sg, ps, first - 1);
      FirstAligned(sg[0].phys, ps);
      NextByte(sg, ps, first - 1);
    } else {
      var i := Boundary(first, ps, k - 1);
      BoundaryAligned(sg, ps, k - 1);
      PageRun(sg, ps, i, ps - 1);
      NextByte(sg, ps, i + ps - 1);
    }
  }

  // ----- Reading the list back -----------------------------------------------------------

  lemma {:induction false} ImageEntry(entries: seq<u32>, k: nat)
    requires k < |entries|
    ensures ListImage(entries)[8 * k..8 * k + 8] == Le32(entries[k]) + Le32(0)
  {
    var n := |entries| - 1;
    var init := ListImage(entries[..n]);
    if k < n {
      ImageEntry(entries[..n], k);
      assert ListImage(entries)[8 * k..8 * k + 8] == init[8 * k..8 * k + 8];
    } else {
      assert ListImage(entries) == init + (Le32(entries[n]) + Le32(0));
    }
  }

  /** The controller reads the entries the driver stored. */
  lemma ListReadBack(m: Mem, list: nat, entries: seq<u32>, k: nat)
    requires k < |entries|
    ensures ListEntry(PutList(m, list, entries), list, k) == entries[k]
  {
    var addrs, image := Span(list, 8 * |entries|), ListImage(entries);
    var m' := PutList(m, list, entries);
    GatherScattered(m, addrs, image);
    ImageEntry(entries, k);
    Le64OfWords(entries[k], 0);
    var word := Span(list + 8 * k, 8);
    forall i | 0 <= i < 8
      ensures Peek(m', word[i]) == image[8 * k + i]
    {
      assert addrs[8 * k + i] == word[i];
      assert Gather(m', addrs)[8 * k + i] == image[8 * k + i];
    }
    assert Gather(m', word) == image[8 * k..8 * k + 8];
  }

  // ----- Main results --------------------------------------------------------------------

  /** Where byte `i`, past PRP1's page, falls. */
  lemma PageOfByte(i: nat, first: nat, len: nat, ps: nat)
    requires ps > 0 && first <= i < len
    ensures var k, j := Quot(i - first, ps), Rem(i - first, ps);
      && 0 <= k < NumPages(len - first, ps)
      && i == Boundary(first, ps, k) + j
      && (len <= first + ps ==> k == 0 && j == i - first)
  {
    Split(i - first, ps);
    PageIndex(Quot(i - first, ps), len - first, ps);
    BoundaryValue(first, ps, Quot(i - first, ps));
  }

  lemma {:induction false} BoundaryShift(b: nat, ps: nat, k: nat)
    ensures Boundary(b, ps, k + 1) == Boundary(b + ps, ps, k)
  {
    if k > 0 { BoundaryShift(b, ps, k - 1); }
  }

  lemma {:induction false} PageAt(sg: seq<Extent>, ps: nat, b: nat, k: nat)
    requires ps > 0
    decreases k
    ensures k < |PagesFrom(sg, ps, b)| <==> Boundary(b, ps, k) < Total(sg)
    ensures k < |PagesFrom(sg, ps, b)| ==> PagesFrom(sg, ps, b)[k] == AddrAt(sg, Boundary(b, ps, k))
  {
    if k > 0 {
      BoundaryShift(b, ps, k - 1);
      if b < Total(sg) {
        PageAt(sg, ps, b + ps, k - 1);
      } else {
        BoundaryValue(b, ps, k);
      }
    }
  }

  lemma PageExists(sg: seq<Extent>, ps: nat, k: nat)
    requires ps > 0 && sg != []
    ensures var b := Boundary(FirstBytes(sg[0].phys, ps), ps, k);
      && (k < |ExtraPages(sg, ps)| <==> b < Total(sg))
      && (b < Total(sg) ==> ExtraPages(sg, ps)[k] == AddrAt(sg, b))
  {
    PageAt(sg, ps, FirstBytes(sg[0].phys, ps), k);
  }

  lemma ExtraPagesCount(sg: seq<Extent>, ps: nat)
    requires ps > 0 && sg != [] && FirstBytes(sg[0].phys, ps) < Total(sg)
    ensures |ExtraPages(sg, ps)| == NumPages(Total(sg) - FirstBytes(sg[0].phys, ps), ps)
  {
    var first := FirstBytes(sg[0].phys, ps);
    var n, p := NumPages(Total(sg) - first, ps), |ExtraPages(sg, ps)|;
    PageExists(sg, ps, n);
    BoundaryExists(Total(sg), first, ps, n);
    PageExists(sg, ps, p);
    BoundaryExists(Total(sg), first, ps, p);
  }

  lemma ExtraPageAligned(sg: seq<Extent>, ps: nat, k: nat)
    requires ps > 0 && WellFormed(sg, ps) && k < |ExtraPages(sg, ps)|
    ensures Aligned(ExtraPages(sg, ps)[k], ps)
  {
    PageExists(sg, ps, k);
    BoundaryAligned(sg, ps, k);
  }

  /** How many pages there are decides which of the three PRP2 forms applies. */
  lemma PageCount(len: nat, first: nat, ps: nat)
    requires ps > 0 && first < len
    ensures NumPages(len - first, ps) >= 1
    ensures NumPages(len - first, ps) == 1 <==> len <= first + ps
  {
    PageIndex(0, len - first, ps);
    PageIndex(1, len - first, ps);
  }

  lemma AlignedQword(list: nat, ps: nat)
    requires Page(ps) && Aligned(list, ps)
    ensures list % 8 == 0
  {
    Builtin(ps, 8);
    Divides(list, ps, 8);
    Builtin(list, 8);
  }

  lemma DecodeIs(m: Mem, prp1: nat, prp2: nat, len: nat, ps: nat, addrs: seq<nat>)
    requires ps > 0 && Decodable(m, prp1, prp2, len, ps) && |addrs| == len
    requires forall i :: 0 <= i < len ==> DecodedAddr(m, prp1, prp2, len, ps, i) == addrs[i]
    ensures Decode(m, prp1, prp2, len, ps) == Some(addrs)
  {
    assert Decode(m, prp1, prp2, len, ps).value == addrs;
  }

  lemma DirectDecodable(m: Mem, sg: seq<Extent>, ps: nat, list: nat)
    requires Page(ps) && WellFormed(sg, ps) && Aligned(list, ps)
    requires Direct(m, sg, ps, list).Prps?
    ensures var b := Direct(m, sg, ps, list);
      Decodable(b.mem, b.prp1, b.prp2, Total(sg), ps) <==> sg[0].phys % 4 == 0
  {
    var b := Direct(m, sg, ps, list);
    var len, first, pages := Total(sg), FirstBytes(sg[0].phys, ps), ExtraPages(sg, ps);
    if len > first {
      PageCount(len, first, ps);
      ExtraPagesCount(sg, ps);
      AlignedQword(list, ps);
      forall k: nat | k < |pages|
        ensures Aligned(ListEntry(b.mem, list, k), ps)
      {
        ExtraPageAligned(sg, ps, k);
        ListReadBack(m, list, pages, k);
      }
      ExtraPageAligned(sg, ps, 0);
    }
  }

  /** A byte past PRP1's page lies on the extra page that its offset selects. */
  lemma ByteOnPage(sg: seq<Extent>, ps: nat, i: nat)
    requires ps > 0 && WellFormed(sg, ps) && FirstBytes(sg[0].phys, ps) <= i < Total(sg)
    ensures var off := i - FirstBytes(sg[0].phys, ps);
      && 0 <= Quot(off, ps) < |ExtraPages(sg, ps)|
      && AddrAt(sg, i) == ExtraPages(sg, ps)[Quot(off, ps)] + Rem(off, ps)
  {
    hide Total, AddrAt;
    var first := FirstBytes(sg[0].phys, ps);
    var k, j := Quot(i - first, ps), Rem(i - first, ps);
    PageOfByte(i, first, Total(sg), ps);
    ExtraPagesCount(sg, ps);
    PageExists(sg, ps, k);
    BoundaryAligned(sg, ps, k);
    PageRun(sg, ps, Boundary(first, ps, k), j);
  }

  lemma DirectByte(m: Mem, sg: seq<Extent>, ps: nat, list: nat, i: nat)
    requires Page(ps) && WellFormed(sg, ps)
    requires Direct(m, sg, ps, list).Prps? && i < Total(sg)
    ensures var b := Direct(m, sg, ps, list);
      DecodedAddr(b.mem, b.prp1, b.prp2, Total(sg), ps, i) == AddrAt(sg, i)
  {
    var first := FirstBytes(sg[0].phys, ps);
    if i < first {
      FirstRun(sg, ps, i);
    } else {
      ByteOnPage(sg, ps, i);
      ExtraPagesCount(sg, ps);
      LaterByte(m, sg, ps, list, i, first, ExtraPages(sg, ps));
    }
  }

  lemma LaterByte(m: Mem, sg: seq<Extent>, ps: nat, list: nat, i: nat, first: nat, pages: seq<u32>)
    requires Page(ps) && sg != [] && first == FirstBytes(sg[0].phys, ps) <= i < Total(sg)
    requires pages == ExtraPages(sg, ps) && |pages| == NumPages(Total(sg) - first, ps)
    requires Direct(m, sg, ps, list).Prps? && Quot(i - first, ps) < |pages|
    ensures var b := Direct(m, sg, ps, list);
      DecodedAddr(b.mem, b.prp1, b.prp2, Total(sg), ps, i) == pages[Quot(i - first, ps)] + Rem(i - first, ps)
  {
    hide Total, PagesFrom;
    PageCount(Total(sg), first, ps);
    PageOfByte(i, first, Total(sg), ps);
    if Total(sg) > first + ps {
      ListReadBack(m, list, pages, Quot(i - first, ps));
    }
  }

  /** Direct path: whatever the SG list, the controller recovers exactly the addresses it denotes,
    * in order -- if and only if the transfer starts on a dword boundary, which the driver does
    * not check before it sends a large buffer down this path. */
  lemma DirectPreservesMeaning(m: Mem, sg: seq<Extent>, ps: nat, list: nat)
    requires Page(ps) && WellFormed(sg, ps) && Aligned(list, ps)
    requires Direct(m, sg, ps, list).Prps?
    ensures var b := Direct(m, sg, ps, list);
      Decode(b.mem, b.prp1, b.prp2, Total(sg), ps)
        == if sg[0].phys % 4 == 0 then Some(Denotes(sg)) else None
  {
    var b := Direct(m, sg, ps, list);
    DirectDecodable(m, sg, ps, list);
    if sg[0].phys % 4 == 0 {
      forall i | 0 <= i < Total(sg)
        ensures DecodedAddr(b.mem, b.prp1, b.prp2, Total(sg), ps, i) == AddrAt(sg, i)
      {
        DirectByte(m, sg, ps, list, i);
      }
      DecodeIs(b.mem, b.prp1, b.prp2, Total(sg), ps, Denotes(sg));
    }
  }

  /** A contiguous aligned buffer, as an SG list. */
  lemma SingleExtent(phys: nat, len: nat, ps: nat)
    requires Page(ps) && Aligned(phys, ps) && 0 < len && phys + len <= TWO32
    ensures var sg := [Extent(phys, len)];
      WellFormed(sg, ps) && Total(sg) == len && Denotes(sg) == Span(phys, len) && FirstBytes(phys, ps) == ps
  {
    var sg := [Extent(phys, len)];
    assert Total(sg) == len + Total(sg[1..]);
    assert Denotes(sg) == Span(phys, len);
  }

  /** The pages of a single extent, from boundary `b` on. */
  lemma {:induction false} SingleExtentPages(phys: nat, len: nat, ps: nat, b: nat)
    requires ps > 0 && 0 < len && phys + len <= TWO32
    ensures PagesFrom([Extent(phys, len)], ps, b) == ContiguousPages(phys + b, phys + len, ps)
    decreases if b < len then len - b else 0
  {
    var sg := [Extent(phys, len)];
    assert Total(sg) == len + Total(sg[1..]);
    if b < len { SingleExtentPages(phys, len, ps, b + ps); }
  }

  /** The bounce arithmetic is the walk over the single extent (bounce buffer, length): same PRPs,
    * and the same list whenever PRP2 points at it. */
  lemma BounceRefinesWalk(m: Mem, phys: nat, len: nat, ps: nat, list: nat)
    requires Page(ps) && Aligned(phys, ps) && 0 < len <= BOUNCE_SIZE && phys + len <= TWO32
    ensures var sg := [Extent(phys, len)];
      WellFormed(sg, ps)
      && var w, b := Direct(m, sg, ps, list), Bounce(m, phys, len, ps, list);
      && w.Prps? && b.Prps? && w.prp1 == b.prp1 && w.prp2 == b.prp2
      && (len > 2 * ps ==> w.mem == b.mem)
  {
    var sg := [Extent(phys, len)];
    SingleExtent(phys, len, ps);
    SingleExtentPages(phys, len, ps, ps);
    ListPageSuffices(sg, ps, m, list);
    if len > ps {
      PageCount(len, ps, ps);
      ExtraPagesCount(sg, ps);
    }
  }

  lemma FewPages(rest: nat, ps: nat)
    requires Page(ps) && rest < 0x20_0000
    ensures NumPages(rest, ps) <= 512 <= ps / 8
  {
    PageIndex(512, rest, ps);
    BuiltinTimes(512, ps);
  }

  /** Bounce path: the controller recovers the bounce buffer, byte for byte. */
  lemma BouncePreservesMeaning(m: Mem, phys: nat, len: nat, ps: nat, list: nat)
    requires Page(ps) && Aligned(phys, ps) && Aligned(list, ps) && 0 < len <= BOUNCE_SIZE && phys + len <= TWO32
    ensures var b := Bounce(m, phys, len, ps, list);
      b.Prps? && Decode(b.mem, b.prp1, b.prp2, len, ps) == Some(Span(phys, len))
  {
    var sg := [Extent(phys, len)];
    SingleExtent(phys, len, ps);
    BounceRefinesWalk(m, phys, len, ps, list);
    WalkDecodes(m, phys, len, ps, list);
    if len <= 2 * ps {
      var w, b := Direct(m, sg, ps, list), Bounce(m, phys, len, ps, list);
      SmallDecode(w.mem, b.mem, b.prp1, b.prp2, len, ps);
    }
  }

  lemma WalkDecodes(m: Mem, phys: nat, len: nat, ps: nat, list: nat)
    requires Page(ps) && Aligned(phys, ps) && Aligned(list, ps) && 0 < len && phys + len <= TWO32
    requires WellFormed([Extent(phys, len)], ps) && Direct(m, [Extent(phys, len)], ps, list).Prps?
    ensures var w := Direct(m, [Extent(phys, len)], ps, list);
      Decode(w.mem, w.prp1, w.prp2, len, ps) == Some(Span(phys, len))
  {
    SingleExtent(phys, len, ps);
    DirectPreservesMeaning(m, [Extent(phys, len)], ps, list);
    AlignedQword(phys, ps);
  }

  /** Without a list, what the controller recovers does not depend on memory. */
  lemma SmallDecode(m: Mem, m': Mem, prp1: nat, prp2: nat, len: nat, ps: nat)
    requires ps > 0 && len <= FirstBytes(prp1, ps) + ps
    ensures Decode(m, prp1, prp2, len, ps) == Decode(m', prp1, prp2, len, ps)
  {
    if Decodable(m, prp1, prp2, len, ps) {
      DecodeIs(m, prp1, prp2, len, ps, Decode(m', prp1, prp2, len, ps).value);
    }
  }

  lemma EntryFrame(m: Mem, m': Mem, list: nat, ps: nat, k: nat)
    requires Gather(m, Span(list, ps)) == Gather(m', Span(list, ps)) && 8 * k + 8 <= ps
    ensures ListEntry(m, list, k) == ListEntry(m', list, k)
  {
    var word, page := Span(list + 8 * k, 8), Span(list, ps);
    forall i | 0 <= i < 8
      ensures Peek(m, word[i]) == Peek(m', word[i])
    {
      assert word[i] == page[8 * k + i];
      assert Gather(m, page)[8 * k + i] == Gather(m', page)[8 * k + i];
    }
    assert Gather(m, word) == Gather(m', word);
  }

  /** With a list, it depends on memory only through the list page. */
  lemma DecodeFrame(m: Mem, m': Mem, prp1: nat, prp2: nat, len: nat, ps: nat)
    requires Page(ps) && Aligned(prp2, ps) && len > FirstBytes(prp1, ps) + ps
    requires Gather(m, Span(prp2, ps)) == Gather(m', Span(prp2, ps))
    requires Decodable(m, prp1, prp2, len, ps)
    ensures Decode(m, prp1, prp2, len, ps) == Decode(m', prp1, prp2, len, ps)
  {
    var first := FirstBytes(prp1, ps);
    var n := NumPages(len - first, ps);
    forall k: nat | k < n
      ensures ListEntry(m, prp2, k) == ListEntry(m', prp2, k)
    {
      EntryFrame(m, m', prp2, ps, k);
    }
    var addrs := Decode(m, prp1, prp2, len, ps).value;
    forall i | 0 <= i < len
      ensures DecodedAddr(m', prp1, prp2, len, ps, i) == addrs[i]
    {
      if i >= first { PageOfByte(i, first, len, ps); }
    }
    DecodeIs(m', prp1, prp2, len, ps, addrs);
  }

  // ----- Contiguous buffers ---------------------------------------------------------------

  /** The k-th page is at `phys + (k + 1) * page_size`. */
  lemma ContiguousAt(phys: nat, len: nat, ps: nat, k: nat)
    requires ps > 0 && phys + len <= TWO32 && k < |ContiguousPages(phys + ps, phys + len, ps)|
    ensures ContiguousPages(phys + ps, phys + len, ps)[k] == phys + (k + 1) * ps
  {
    ContiguousBoundary(phys + ps, phys + len, ps, k);
    BoundaryValue(phys + ps, ps, k);
    BuiltinTimes(k + 1, ps);
  }

  lemma {:induction false} ContiguousBoundary(b: nat, end: nat, ps: nat, k: nat)
    requires ps > 0 && end <= TWO32
    ensures k < |ContiguousPages(b, end, ps)| <==> Boundary(b, ps, k) < end
    ensures k < |ContiguousPages(b, end, ps)| ==> ContiguousPages(b, end, ps)[k] == Boundary(b, ps, k)
    decreases k
  {
    if k > 0 {
      BoundaryShift(b, ps, k - 1);
      if b < end {
        ContiguousBoundary(b + ps, end, ps, k - 1);
      } else {
        BoundaryValue(b, ps, k);
      }
    }
  }

  lemma ContiguousCount(phys: nat, len: nat, ps: nat)
    requires ps > 0 && phys + len <= TWO32 && ps < len
    ensures |ContiguousPages(phys + ps, phys + len, ps)| == NumPages(len, ps) - 1
  {
    var c, n := |ContiguousPages(phys + ps, phys + len, ps)|, NumPages(len, ps) - 1;
    PageIndex(0, len, ps);
    PageIndex(n + 1, len, ps);
    PageIndex(c + 1, len, ps);
    ContiguousBoundary(phys + ps, phys + len, ps, n);
    ContiguousBoundary(phys + ps, phys + len, ps, c);
    BoundaryValue(phys + ps, ps, n);
    BoundaryValue(phys + ps, ps, c);
  }

  // ----- Capacity ------------------------------------------------------------------------

  /** A command of at most 2 MiB never needs a second list page. */
  lemma ListPageSuffices(sg: seq<Extent>, ps: nat, m: Mem, list: nat)
    requires Page(ps) && WellFormed(sg, ps) && Total(sg) <= 0x20_0000
    ensures |ExtraPages(sg, ps)| <= ps / 8 && Direct(m, sg, ps, list).Prps?
  {
    var first := FirstBytes(sg[0].phys, ps);
    if Total(sg) > first {
      ExtraPagesCount(sg, ps);
      FewPages(Total(sg) - first, ps);
    }
  }

  /** Every extent but the first opens a new page of the transfer. */
  lemma {:induction false} ExtentsWithinPages(sg: seq<Extent>, ps: nat)
    requires ps > 0 && WellFormed(sg, ps)
    ensures Times(|sg| - 1, ps) < Rem(sg[0].phys, ps) + Total(sg)
  {
    if |sg| == 1 {
      assert Total(sg) == sg[0].len + Total(sg[1..]);
    } else {
      assert WellFormed(sg[1..], ps);
      ExtentsWithinPages(sg[1..], ps);
      var first := FirstBytes(sg[0].phys, ps);
      FirstAligned(sg[0].phys, ps);
      if sg[0].len < first {
        AlignedClose(sg[0].phys + first, sg[0].phys + sg[0].len, ps);
      }
    }
  }

  /** The pre-allocated DMAEntry pool holds the SG list of every command the MDTS cap lets through. */
  lemma PoolSuffices(sg: seq<Extent>, ps: nat, maxTransfer: nat)
    requires ps > 0 && WellFormed(sg, ps) && Total(sg) <= maxTransfer
    ensures |sg| <= Quot(maxTransfer + ps - 1, ps) + 1
  {
    ExtentsWithinPages(sg, ps);
    var cap := NumPages(maxTransfer, ps);
    PageIndex(cap, maxTransfer, ps);
    if |sg| - 1 >= cap + 1 {
      TimesMonotone(cap + 1, |sg| - 1, ps);
    }
  }
}
