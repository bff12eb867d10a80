/** The loops that fill a slot's PRP list page: the scatter-gather walk of the direct path and
  * the contiguous fill of the bounce path, each proved to leave exactly the entries, PRP2 and
  * memory that module Prp specifies. */
module PrpBuild {
  import opened Base
  import opened Endian
  import opened Memory
  import opened Modular
  import opened Prp

  /** DMA-visible RAM, written through byte-reversed word stores. */
  class Ram {
    var bytes: Mem

    constructor ()
      ensures bytes == map[]
    {
      bytes := map[];
    }

    method W32(a: nat, v: u32)
      modifies this
      ensures bytes == Scatter(old(bytes), Span(a, 4), Le32(v))
    {
      var b := Le32(v);
      bytes := bytes[a := b[0]][a + 1 := b[1]][a + 2 := b[2]][a + 3 := b[3]];
      FourBytes(old(bytes), a, b);
    }

    method Copy(src: seq<nat>, dst: seq<nat>)
      requires |src| == |dst| && Apart(src, dst)
      modifies this
      ensures bytes == Scatter(old(bytes), dst, Gather(old(bytes), src))
    {
      var i := 0;
      while i < |src|
        invariant 0 <= i <= |src|
        invariant bytes == Scatter(old(bytes), dst[..i], Gather(old(bytes), src)[..i])
      {
        assert src[i] in src;
        assert src[i] !in dst[..i] by {
          assert forall x :: x in dst[..i] ==> x in dst;
        }
        ScatterElsewhere(old(bytes), dst[..i], Gather(old(bytes), src)[..i], src[i]);
        bytes := bytes[dst[i] := if src[i] in bytes then bytes[src[i]] else 0];
        assert dst[..i + 1][..i] == dst[..i];
        assert Gather(old(bytes), src)[..i + 1][..i] == Gather(old(bytes), src)[..i];
        i := i + 1;
      }
      assert dst[..i] == dst && Gather(old(bytes), src)[..i] == Gather(old(bytes), src);
    }

    /** prp_list[n] := pages[n]: the low word, then a zero high word. */
    method PutEntry(ghost m: Mem, list: nat, ghost pages: seq<u32>, n: nat, entry: u32)
      requires n < |pages| && entry == pages[n] && bytes == PutList(m, list, pages[..n])
      modifies this
      ensures bytes == PutList(m, list, pages[..n + 1])
    {
      W32(list + 8 * n, entry);
      W32(list + 8 * n + 4, 0);
      ListGrows(m, list, pages[..n], entry);
      assert pages[..n + 1] == pages[..n] + [entry];
    }
  }

  lemma FourBytes(m: Mem, a: nat, b: seq<byte>)
    requires |b| == 4
    ensures m[a := b[0]][a + 1 := b[1]][a + 2 := b[2]][a + 3 := b[3]] == Scatter(m, Span(a, 4), b)
  {
    var s := Span(a, 4);
    assert s[..3][..2] == s[..2] && b[..3][..2] == b[..2];
    assert s[..2][..1] == s[..1] && b[..2][..1] == b[..1];
    assert Scatter(m, s[..1], b[..1]) == m[a := b[0]] by {
      assert s[..1][..0] == [] && b[..1][..0] == [];
    }
    assert Scatter(m, s[..2], b[..2]) == m[a := b[0]][a + 1 := b[1]];
    assert Scatter(m, s[..3], b[..3]) == m[a := b[0]][a + 1 := b[1]][a + 2 := b[2]];
  }

  /** Appending one entry to a stored list. */
  lemma ListGrows(m: Mem, list: nat, written: seq<u32>, entry: u32)
    ensures var n := |written|;
      Scatter(Scatter(PutList(m, list, written), Span(list + 8 * n, 4), Le32(entry)), Span(list + 8 * n + 4, 4), Le32(0))
        == PutList(m, list, written + [entry])
  {
    var n := |written|;
    var a, d := Span(list, 8 * n), ListImage(written);
    var b, e := Span(list + 8 * n, 4), Le32(entry);
    var c, f := Span(list + 8 * n + 4, 4), Le32(0);
    ScatterConcat(m, a, d, b, e);
    ScatterConcat(m, a + b, d + e, c, f);
    assert a + b + c == Span(list, 8 * (n + 1));
    assert (written + [entry])[..n] == written;
  }

  // ----- The direct walk -----------------------------------------------------------------

  /** Bytes before extent `e`: the walk's `global_off`. */
  function Before(sg: seq<Extent>, e: nat): nat
    requires e <= |sg|
  {
    if e == 0 then 0 else Before(sg, e - 1) + sg[e - 1].len
  }

  lemma {:induction false} BeforeShift(sg: seq<Extent>, e: nat)
    requires 0 < e <= |sg|
    ensures Before(sg, e) == sg[0].len + Before(sg[1..], e - 1)
  {
    if e > 1 {
      BeforeShift(sg, e - 1);
    }
  }

  lemma {:induction false} BeforeTotal(sg: seq<Extent>)
    ensures Before(sg, |sg|) == Total(sg)
  {
    if sg != [] {
      BeforeShift(sg, |sg|);
      BeforeTotal(sg[1..]);
    }
  }

  lemma {:induction false} BeforeBound(sg: seq<Extent>, e: nat)
    requires e <= |sg|
    ensures Before(sg, e) <= Total(sg)
    decreases |sg| - e
  {
    if e < |sg| { BeforeBound(sg, e + 1); } else { BeforeTotal(sg); }
  }

  /** Byte `i` of the transfer, found in its extent. */
  lemma {:induction false} AddrInExtent(sg: seq<Extent>, e: nat, i: nat)
    requires e < |sg| && Before(sg, e) <= i < Before(sg, e) + sg[e].len
    ensures i < Total(sg) && AddrAt(sg, i) == sg[e].phys + (i - Before(sg, e))
  {
    BeforeBound(sg, e + 1);
    if e > 0 {
      BeforeShift(sg, e);
      AddrInExtent(sg[1..], e - 1, i - sg[0].len);
    }
  }

  /** Between extents of a well-formed list the next page boundary is the extent boundary. */
  lemma BoundaryAtExtentEnd(sg: seq<Extent>, ps: nat, e: nat, scan: nat, off: nat)
    requires ps > 0 && WellFormed(sg, ps) && e < |sg| - 1
    requires off + sg[e].len <= scan < off + sg[e].len + ps && Aligned(sg[e].phys + (scan - off), ps)
    ensures scan == off + sg[e].len
  {
    AlignedClose(sg[e].phys + (scan - off), sg[e].phys + sg[e].len, ps);
  }

  ghost predicate LastBefore(first: nat, pg: nat, ps: nat, end: nat) {
    pg > 0 ==> Boundary(first, ps, pg - 1) < end
  }

  /** The walk's state between extents: `pg` entries stored, and the next boundary to emit is
    * either the extent about to be visited or past the end of the transfer. */
  ghost predicate WalkAt(sg: seq<Extent>, ps: nat, e: nat, off: nat, pg: nat)
    requires ps > 0 && sg != []
  {
    var first := FirstBytes(sg[0].phys, ps);
    && e <= |sg| && off == Before(sg, e)
    && (e == 0 ==> pg == 0)
    && (0 < e < |sg| ==> off == Boundary(first, ps, pg))
    && (e == |sg| ==> off <= Boundary(first, ps, pg))
    && LastBefore(first, pg, ps, off)
  }

  /** The inner `while (scan < entry_end)`: emit the page boundaries inside one extent. */
  method WalkExtent(ram: Ram, ghost m: Mem, sg: seq<Extent>, ps: nat, list: nat, first: nat, e: nat, off: nat, start: nat)
      returns (overflow: bool, pg: nat)
    requires Page(ps) && WellFormed(sg, ps) && first == FirstBytes(sg[0].phys, ps)
    requires e < |sg| && WalkAt(sg, ps, e, off, start) && first < off + sg[e].len
    requires start <= |ExtraPages(sg, ps)| && start <= ps / 8
    requires ram.bytes == PutList(m, list, ExtraPages(sg, ps)[..start])
    modifies ram
    ensures start <= pg <= |ExtraPages(sg, ps)| && pg <= ps / 8
    ensures ram.bytes == PutList(m, list, ExtraPages(sg, ps)[..pg])
    ensures !overflow ==> WalkAt(sg, ps, e + 1, off + sg[e].len, pg)
    ensures overflow ==> pg == ps / 8 < |ExtraPages(sg, ps)|
  {
    hide Total, ExtraPages, PutList, AddrAt;
    ghost var pages := ExtraPages(sg, ps);
    var base, end := sg[e].phys, off + sg[e].len;
    var scan := if off < first then first else off;
    StartOfScan(sg, ps, e, off, start, first);
    pg := start;
    while scan < end
      invariant start <= pg <= |pages| && pg <= ps / 8
      invariant ram.bytes == PutList(m, list, pages[..pg])
      invariant scan == Boundary(first, ps, pg) && off <= scan < end + ps
      invariant Aligned(base + (scan - off), ps)
      invariant LastBefore(first, pg, ps, end)
      decreases end + ps - scan
    {
      EmitPage(sg, ps, e, scan, pg);
      if pg >= ps / 8 {
        return true, pg;
      }
      var pagePhys := base + (scan - off);
      ram.PutEntry(m, list, pages, pg, pagePhys);
      pg := pg + 1;
      scan := scan + ps;
    }
    if e < |sg| - 1 {
      BoundaryAtExtentEnd(sg, ps, e, scan, off);
    }
    EndOfScan(sg, ps, e, off, pg, scan, first);
    return false, pg;
  }

  method BuildDirect(ram: Ram, sg: seq<Extent>, len: nat, ps: nat, list: nat)
      returns (ok: bool, prp1: nat, prp2: nat)
    requires Page(ps) && WellFormed(sg, ps) && len == Total(sg)
    modifies ram
    ensures Direct(old(ram.bytes), sg, ps, list) == if ok then Prps(prp1, prp2, ram.bytes) else TooManyPages(ram.bytes)
  {
    hide Total, AddrAt;
    ghost var m, pages := ram.bytes, ExtraPages(sg, ps);
    prp1, prp2 := sg[0].phys, 0;
    var prp1Offset := Rem(prp1, ps);  // prp1_phys & page_mask
    var first := if prp1Offset == 0 then ps else ps - prp1Offset;
    if len <= first {
      return true, prp1, 0;
    }
    var pg: nat, off: nat, overflow, firstExtra: nat := 0, 0, false, 0;
    var e := 0;
    while e < |sg| && !overflow
      invariant e <= |sg| && 0 <= pg <= |pages| && pg <= ps / 8
      invariant ram.bytes == PutList(m, list, pages[..pg])
      invariant !overflow ==> WalkAt(sg, ps, e, off, pg)
      invariant overflow ==> pg == ps / 8 < |pages|
      invariant pg > 0 ==> firstExtra == pages[0]
    {
      if off + sg[e].len <= first {
        FirstExtentOnly(sg, ps, e, off, pg, first);
      } else {
        if pg == 0 {
          var scan := if off < first then first else off;
          StartOfScan(sg, ps, e, off, pg, first);
          EmitPage(sg, ps, e, scan, pg);
          firstExtra := sg[e].phys + (scan - off);
        }
        overflow, pg := WalkExtent(ram, m, sg, ps, list, first, e, off, pg);
      }
      off := off + sg[e].len;
      e := e + 1;
    }
    if overflow {
      return false, prp1, prp2;
    }
    AllPages(sg, ps, pg);
    assert pages[..pg] == pages;
    prp2 := if pg == 1 then firstExtra else list;
    return true, prp1, prp2;
  }

  /** Only the first extent can lie inside PRP1's page, and then it ends with it. */
  lemma FirstExtentOnly(sg: seq<Extent>, ps: nat, e: nat, off: nat, pg: nat, first: nat)
    requires ps > 0 && WellFormed(sg, ps) && first == FirstBytes(sg[0].phys, ps) < Total(sg)
    requires e < |sg| && WalkAt(sg, ps, e, off, pg) && off + sg[e].len <= first
    ensures WalkAt(sg, ps, e + 1, off + sg[e].len, pg)
  {
    BoundaryValue(first, ps, pg);
    if e == 0 {
      BeforeTotal(sg);
      FirstAligned(sg[0].phys, ps);
      if |sg| > 1 && sg[0].len < first {
        AlignedClose(sg[0].phys + first, sg[0].phys + sg[0].len, ps);
      }
    }
  }

  lemma StartOfScan(sg: seq<Extent>, ps: nat, e: nat, off: nat, pg: nat, first: nat)
    requires ps > 0 && WellFormed(sg, ps) && first == FirstBytes(sg[0].phys, ps)
    requires e < |sg| && WalkAt(sg, ps, e, off, pg) && first < off + sg[e].len
    ensures var scan := if off < first then first else off;
      scan == Boundary(first, ps, pg) && Aligned(sg[e].phys + (scan - off), ps)
  {
    BoundaryValue(first, ps, pg);
    if e == 0 { FirstAligned(sg[0].phys, ps); }
  }

  /** The page address the walk computes is the next one the specification lists. */
  lemma EmitPage(sg: seq<Extent>, ps: nat, e: nat, scan: nat, pg: nat)
    requires ps > 0 && WellFormed(sg, ps) && e < |sg|
    requires scan == Boundary(FirstBytes(sg[0].phys, ps), ps, pg)
    requires Before(sg, e) <= scan < Before(sg, e) + sg[e].len
    ensures pg < |ExtraPages(sg, ps)|
    ensures ExtraPages(sg, ps)[pg] == sg[e].phys + (scan - Before(sg, e))
  {
    AddrInExtent(sg, e, scan);
    PageExists(sg, ps, pg);
  }

  lemma EndOfScan(sg: seq<Extent>, ps: nat, e: nat, off: nat, pg: nat, scan: nat, first: nat)
    requires ps > 0 && e < |sg| && off == Before(sg, e) && first == FirstBytes(sg[0].phys, ps)
    requires scan == Boundary(first, ps, pg) && off + sg[e].len <= scan
    requires LastBefore(first, pg, ps, off + sg[e].len)
    requires e + 1 < |sg| ==> scan == off + sg[e].len
    ensures WalkAt(sg, ps, e + 1, off + sg[e].len, pg)
  {
  }

  lemma AllPages(sg: seq<Extent>, ps: nat, pg: nat)
    requires ps > 0 && WellFormed(sg, ps) && FirstBytes(sg[0].phys, ps) < Total(sg)
    requires WalkAt(sg, ps, |sg|, Before(sg, |sg|), pg) && pg <= |ExtraPages(sg, ps)|
    ensures pg == |ExtraPages(sg, ps)|
  {
    BeforeTotal(sg);
    PageExists(sg, ps, pg);
    if pg > 0 { PageExists(sg, ps, pg - 1); }
  }

  // ----- The bounce fill -----------------------------------------------------------------

  method BuildBounce(ram: Ram, phys: nat, len: nat, ps: nat, list: nat)
      returns (ok: bool, prp1: nat, prp2: nat)
    requires Page(ps) && phys + len <= TWO32
    modifies ram
    ensures Bounce(old(ram.bytes), phys, len, ps, list) == if ok then Prps(prp1, prp2, ram.bytes) else TooManyPages(ram.bytes)
  {
    prp1, prp2 := phys, 0;
    if len <= ps {
      return true, prp1, 0;
    } else if len <= 2 * ps {
      return true, prp1, phys + ps;
    }
    Builtin(len + ps - 1, ps);
    PageIndex(0, len, ps);
    var extra := (len + ps - 1) / ps - 1;
    if extra > ps / 8 {
      return false, prp1, prp2;
    }
    FillList(ram, phys, len, ps, list, extra);
    return true, prp1, list;
  }

  method FillList(ram: Ram, phys: nat, len: nat, ps: nat, list: nat, extra: nat)
    requires Page(ps) && phys + len <= TWO32 && ps < len && extra == NumPages(len, ps) - 1
    modifies ram
    ensures ram.bytes == PutList(old(ram.bytes), list, ContiguousPages(phys + ps, phys + len, ps))
  {
    ghost var m, pages := ram.bytes, ContiguousPages(phys + ps, phys + len, ps);
    ContiguousCount(phys, len, ps);
    var p := 0;
    while p < extra
      invariant 0 <= p <= extra
      invariant ram.bytes == PutList(m, list, pages[..p])
    {
      ContiguousAt(phys, len, ps, p);
      ram.PutEntry(m, list, pages, p, phys + (p + 1) * ps);
      p := p + 1;
    }
    assert pages[..p] == pages;
  }
}
