/** SCSI UNMAP translated to an NVMe Dataset Management command. */
module Unmap {
  import opened Base
  import opened Endian
  import opened Scsi
  import opened Pipeline

  const OP_DSM: nat := 9
  const ATTR_DEALLOCATE: nat := 4
  const MAX_RANGES: nat := 256
  const DSM_BYTES: nat := 4096

  /** A run of logical blocks to deallocate. */
  datatype Range = Range(lba: u64, blocks: u32)

  /** UNMAP block descriptor `i` of SCSI parameter data. */
  function ScsiRange(data: seq<byte>, i: nat): Range
    requires |data| >= 8 + 16 * i + 12
  {
    Range(Be64(data[8 + 16 * i..16 + 16 * i]), Be32(data[16 + 16 * i..20 + 16 * i]))
  }

  /** Range `i` of a Dataset Management buffer, as the controller reads it (section 6.7 of NVM Express
    * 1.4): context attributes, length, starting LBA, all little-endian. */
  function DsmRange(buf: seq<byte>, i: nat): Range
    requires |buf| >= 16 * i + 16
  {
    Range(ReadLe64(buf[16 * i + 8..16 * i + 16]), ReadLe32(buf[16 * i + 4..16 * i + 8]))
  }

  function Attributes(buf: seq<byte>, i: nat): u32
    requires |buf| >= 16 * i + 16
  {
    ReadLe32(buf[16 * i..16 * i + 4])
  }

  /** Number of descriptors the parameter header announces. */
  function Announced(data: seq<byte>): nat
    requires |data| >= 4
  {
    Be16(data[2..4]) / 16
  }

  function ScsiRanges(data: seq<byte>, n: nat): (rs: seq<Range>)
    requires |data| >= 8 + 16 * n
    ensures |rs| == n
  {
    seq(n, i requires 0 <= i < n => ScsiRange(data, i))
  }

  /** What the controller deallocates: NR is zero-based. */
  function DsmRanges(buf: seq<byte>, cdw10: u32): (rs: seq<Range>)
    requires |buf| >= DSM_BYTES
    ensures |rs| == cdw10 % 0x100 + 1
  {
    seq(cdw10 % 0x100 + 1, i requires 0 <= i <= cdw10 % 0x100 => DsmRange(buf, i))
  }

  /** `s` with `b` stored at `off`. */
  function Splice(s: seq<byte>, off: nat, b: seq<byte>): (r: seq<byte>)
    requires off + |b| <= |s|
    ensures |r| == |s|
  {
    s[..off] + b + s[off + |b|..]
  }

  lemma SpliceMore(s: seq<byte>, off: nat, a: seq<byte>, b: seq<byte>)
    requires off + |a| + |b| <= |s|
    ensures Splice(Splice(s, off, a), off + |a|, b) == Splice(s, off, a + b)
  {
  }

  method StoreLe32(buf: array<byte>, off: nat, v: u32)
    requires off + 4 <= buf.Length
    modifies buf
    ensures buf[..] == Splice(old(buf[..]), off, Le32(v))
  {
    var b := Le32(v);
    buf[off], buf[off + 1], buf[off + 2], buf[off + 3] := b[0], b[1], b[2], b[3];
  }

  /** One turn of the translation loop: descriptor `i` becomes range `i`, nothing else changes. */
  method Translate(buf: array<byte>, data: seq<byte>, i: nat)
    requires 16 * i + 16 <= buf.Length && |data| >= 8 + 16 * i + 16
    modifies buf
    ensures DsmRange(buf[..], i) == ScsiRange(data, i) && Attributes(buf[..], i) == 0
    ensures buf[..][..16 * i] == old(buf[..])[..16 * i] && buf[..][16 * i + 16..] == old(buf[..])[16 * i + 16..]
  {
    hide Le32, Splice;
    var r := ScsiRange(data, i);
    ghost var was := buf[..];
    var dst := 16 * i;
    StoreLe32(buf, dst, 0);
    StoreLe32(buf, dst + 4, r.blocks);
    SpliceMore(was, dst, Le32(0), Le32(r.blocks));
    StoreLe32(buf, dst + 8, r.lba % TWO32);
    SpliceMore(was, dst, Le32(0) + Le32(r.blocks), Le32(r.lba % TWO32));
    StoreLe32(buf, dst + 12, r.lba / TWO32);
    SpliceMore(was, dst, Le32(0) + Le32(r.blocks) + Le32(r.lba % TWO32), Le32(r.lba / TWO32));
    Spliced(was, buf[..], i, r);
  }

  lemma Spliced(was: seq<byte>, buf: seq<byte>, i: nat, r: Range)
    requires 16 * i + 16 <= |was|
    requires buf == Splice(was, 16 * i, Le32(0) + Le32(r.blocks) + Le32(r.lba % TWO32) + Le32(r.lba / TWO32))
    ensures DsmRange(buf, i) == r && Attributes(buf, i) == 0
    ensures buf[..16 * i] == was[..16 * i] && buf[16 * i + 16..] == was[16 * i + 16..]
  {
    hide Le32;
    var image := Le32(0) + Le32(r.blocks) + (Le32(r.lba % TWO32) + Le32(r.lba / TWO32));
    assert Le32(0) + Le32(r.blocks) + Le32(r.lba % TWO32) + Le32(r.lba / TWO32) == image;
    ImageReads(was[..16 * i], image, was[16 * i + 16..], r);
  }

  lemma ImageReads(before: seq<byte>, image: seq<byte>, after: seq<byte>, r: Range)
    requires |before| % 16 == 0
    requires image == Le32(0) + Le32(r.blocks) + (Le32(r.lba % TWO32) + Le32(r.lba / TWO32))
    ensures var buf, i := before + image + after, |before| / 16;
      DsmRange(buf, i) == r && Attributes(buf, i) == 0
  {
    hide Le32, ReadLe32, ReadLe64;
    Le32RoundTrip(0);
    Le32RoundTrip(r.blocks);
    Le64OfWords(r.lba % TWO32, r.lba / TWO32);
    Inside(before, image, after, 0, 4);
    Inside(before, image, after, 4, 8);
    Inside(before, image, after, 8, 16);
    var words := Le32(r.lba % TWO32) + Le32(r.lba / TWO32);
    assert image[0..4] == Le32(0) && image[4..8] == Le32(r.blocks) && image[8..16] == words;
  }

  lemma Inside(before: seq<byte>, s: seq<byte>, after: seq<byte>, lo: nat, hi: nat)
    requires lo <= hi <= |s|
    ensures (before + s + after)[|before| + lo..|before| + hi] == s[lo..hi]
  {
    var d, t := |before|, before + s + after;
    assert forall k :: lo <= k < hi ==> t[d + k] == s[k];
  }

  /** The translation loop of NVMe_SCSI_HandleUnmap. */
  method TranslateAll(buf: array<byte>, data: seq<byte>, n: nat)
    requires 1 <= n <= MAX_RANGES && buf.Length >= DSM_BYTES && |data| >= 8 + 16 * n
    modifies buf
    ensures DsmRanges(buf[..], n - 1) == ScsiRanges(data, n)
    ensures forall i :: 0 <= i < n ==> Attributes(buf[..], i) == 0
    ensures buf[..][16 * n..] == old(buf[..])[16 * n..]
  {
    hide DsmRange, ScsiRange, Attributes;
    ghost var all := buf[..];
    var i := 0;
    while i < n
      invariant 0 <= i <= n
      invariant forall j :: 0 <= j < i ==> DsmRange(buf[..], j) == ScsiRange(data, j) && Attributes(buf[..], j) == 0
      invariant buf[..][16 * i..] == all[16 * i..]
    {
      ghost var was := buf[..];
      Translate(buf, data, i);
      assert was[16 * i..][16..] == was[16 * i + 16..] && all[16 * i..][16..] == all[16 * i + 16..];
      forall j | 0 <= j < i
        ensures DsmRange(buf[..], j) == DsmRange(was, j) && Attributes(buf[..], j) == Attributes(was, j)
      {
        SamePrefix(was, buf[..], 16 * i, j);
      }
      i := i + 1;
    }
  }

  lemma SamePrefix(a: seq<byte>, b: seq<byte>, n: nat, j: nat)
    requires n <= |a| && n <= |b| && a[..n] == b[..n] && 16 * j + 16 <= n
    ensures DsmRange(a, j) == DsmRange(b, j) && Attributes(a, j) == Attributes(b, j)
  {
    assert forall lo, hi :: 0 <= lo <= hi <= n ==> a[lo..hi] == a[..n][lo..hi] && b[lo..hi] == b[..n][lo..hi];
  }

  // ----- Parameter lists, by bytes -------------------------------------------------------

  /** The 16 bytes of an UNMAP block descriptor: LBA, number of blocks, four reserved bytes. */
  function Descriptor(r: Range): (b: seq<byte>)
    ensures |b| == 16
  {
    BigEndian(r.lba, 8) + BigEndian(r.blocks, 4) + [0, 0, 0, 0]
  }

  function Descriptors(rs: seq<Range>): (b: seq<byte>)
    ensures |b| == 16 * |rs|
  {
    if rs == [] then [] else Descriptors(rs[..|rs| - 1]) + Descriptor(rs[|rs| - 1])
  }

  /** The parameter list an initiator sends for `rs` (SBC, UNMAP command): the number of bytes that follow, the
    * length of the descriptors, four reserved bytes, the descriptors. */
  function ParameterList(rs: seq<Range>): (b: seq<byte>)
    ensures |b| == 8 + 16 * |rs|
  {
    BigEndian(6 + 16 * |rs|, 2) + BigEndian(16 * |rs|, 2) + [0, 0, 0, 0] + Descriptors(rs)
  }

  lemma {:induction false} DescriptorAt(rs: seq<Range>, i: nat)
    requires i < |rs|
    ensures Descriptors(rs)[16 * i..16 * i + 16] == Descriptor(rs[i])
  {
    hide Descriptor;
    if i < |rs| - 1 { DescriptorAt(rs[..|rs| - 1], i); }
  }

  lemma SliceOfSlice(s: seq<byte>, a: nat, b: nat, lo: nat, hi: nat)
    requires a <= b <= |s| && lo <= hi <= b - a
    ensures s[a..b][lo..hi] == s[a + lo..a + hi]
  {
    var t, u := s[a..b][lo..hi], s[a + lo..a + hi];
    assert forall k :: 0 <= k < hi - lo ==> t[k] == s[a..b][lo + k] && u[k] == s[a + lo + k];
  }

  lemma DescriptorReads(data: seq<byte>, i: nat, r: Range)
    requires |data| >= 8 + 16 * i + 16 && data[8 + 16 * i..8 + 16 * i + 16] == Descriptor(r)
    ensures ScsiRange(data, i) == r
  {
    hide BigEndian, Be32, Be64;
    Be64OfField(r.lba);
    Be32OfField(r.blocks);
    var d := Descriptor(r);
    assert d[0..8] == BigEndian(r.lba, 8) && d[8..12] == BigEndian(r.blocks, 4);
    var at := 8 + 16 * i;
    SliceOfSlice(data, at, at + 16, 0, 8);
    SliceOfSlice(data, at, at + 16, 8, 12);
    assert 16 + 16 * i == at + 8 && 20 + 16 * i == at + 12;
  }

  /** Reading is the inverse of laying out, for any number of ranges the two length bytes can announce. */
  lemma ParameterListRoundTrip(rs: seq<Range>)
    requires |rs| < 0x1000
    ensures Announced(ParameterList(rs)) == |rs| && ScsiRanges(ParameterList(rs), |rs|) == rs
  {
    hide BigEndian, Be16, Descriptor, ScsiRange, Descriptors;
    var data := ParameterList(rs);
    Be16OfField(16 * |rs|);
    assert data[2..4] == BigEndian(16 * |rs|, 2);
    assert data[8..] == Descriptors(rs);
    forall i | 0 <= i < |rs|
      ensures ScsiRange(data, i) == rs[i]
    {
      DescriptorAt(rs, i);
      assert data[8 + 16 * i..8 + 16 * i + 16] == data[8..][16 * i..16 * i + 16];
      DescriptorReads(data, i, rs[i]);
    }
  }

  // ----- The command ---------------------------------------------------------------------

  /** NVMe_SCSI_HandleUnmap up to SubmitAndWait: the command to be issued, or the answer.  `data` is the
    * caller's parameter data, as long as scsi_Length says; `dsmPhys` is zero without a buffer. */
  method Prepare(buf: array<byte>, dsmPhys: nat, hasDsm: bool, cdb: seq<byte>, hasData: bool, data: seq<byte>)
      returns (issued: Option<Sqe>, scsiStatus: nat, sense: Sense)
    requires buf.Length >= DSM_BYTES && |cdb| == 10
    modifies buf
    // A command for exactly a well-formed, non-empty list of at most 256 descriptors.
    ensures issued.Some? <==> Wellformed(dsmPhys, hasDsm, cdb, hasData, data)
    // The controller will then read the very ranges the descriptors name, and nothing behind them changed.
    ensures issued.Some? ==>
      && issued.value == Sqe(9, 0, dsmPhys, 0, Announced(data) - 1, 4, 0)
      && DsmRanges(buf[..], issued.value.cdw10) == ScsiRanges(data, Announced(data))
      && (forall i :: 0 <= i < Announced(data) ==> Attributes(buf[..], i) == 0)
      && buf[DSM_BYTES..] == old(buf[DSM_BYTES..])
    // Whatever list of ranges has been laid out in the data is the one the controller will read.
    ensures forall rs: seq<Range> :: data == ParameterList(rs) && 1 <= |rs| <= MAX_RANGES ==>
      && (issued.Some? <==> hasDsm && dsmPhys != 0 && cdb[1] % 2 == 0 && (cdb[7] != 0 || cdb[8] != 0) && hasData)
      && (issued.Some? ==> DsmRanges(buf[..], issued.value.cdw10) == rs)
    // Otherwise the buffer is untouched, and an empty request is good while a bad one is refused.
    ensures issued.None? ==> buf[..] == old(buf[..])
    ensures issued.None? ==>
      (scsiStatus == 0 <==>
         && hasDsm && dsmPhys != 0 && cdb[1] % 2 == 0
         && ((cdb[7] == 0 && cdb[8] == 0) || (hasData && |data| >= 8 && Announced(data) == 0)))
    ensures issued.None? && scsiStatus != 0 ==>
      && scsiStatus == 2 && sense.Sense? && sense.key == ILLEGAL_REQUEST
      && sense.asc == if !hasDsm || dsmPhys == 0 then 0x20 else if cdb[1] % 2 != 0 then 0x24
                      else if hasData && |data| >= 8 && Announced(data) > MAX_RANGES then 0x26 else 0x1A
  {
    issued, scsiStatus, sense := None, 2, NoSense;
    AnyList(data);
    if !hasDsm || dsmPhys == 0 {
      sense := Sense(ILLEGAL_REQUEST, 0x20, 0);
      return;
    }
    if cdb[1] % 2 != 0 {
      sense := Sense(ILLEGAL_REQUEST, 0x24, 0);
      return;
    }
    if Be16(cdb[7..9]) == 0 {
      scsiStatus := 0;
      return;
    }
    if !hasData || |data| < 8 {
      sense := Sense(ILLEGAL_REQUEST, 0x1A, 0);
      return;
    }
    var n := Announced(data);
    if n == 0 {
      scsiStatus := 0;
      return;
    }
    if n > MAX_RANGES {
      sense := Sense(ILLEGAL_REQUEST, 0x26, 0);
      return;
    }
    if |data| < 8 + 16 * n {
      sense := Sense(ILLEGAL_REQUEST, 0x1A, 0);
      return;
    }
    TranslateAll(buf, data, n);
    Behind(buf[..], old(buf[..]), 16 * n);
    issued := Some(Sqe(OP_DSM, 0, dsmPhys, 0, (n - 1) % 0x100, ATTR_DEALLOCATE, 0));
  }

  /** What the handler asks of its CDB and data. */
  predicate Wellformed(dsmPhys: nat, hasDsm: bool, cdb: seq<byte>, hasData: bool, data: seq<byte>)
    requires |cdb| == 10
  {
    && hasDsm && dsmPhys != 0 && cdb[1] % 2 == 0 && (cdb[7] != 0 || cdb[8] != 0) && hasData && |data| >= 8
    && 1 <= Announced(data) <= MAX_RANGES && |data| >= 8 + 16 * Announced(data)
  }

  lemma AnyList(data: seq<byte>)
    ensures forall rs: seq<Range> :: data == ParameterList(rs) && 1 <= |rs| <= MAX_RANGES ==>
      |data| == 8 + 16 * |rs| && Announced(data) == |rs| && ScsiRanges(data, |rs|) == rs
  {
    forall rs: seq<Range> | data == ParameterList(rs) && 1 <= |rs| <= MAX_RANGES
      ensures Announced(data) == |rs| && ScsiRanges(data, |rs|) == rs
    {
      ParameterListRoundTrip(rs);
    }
  }

  lemma Behind(a: seq<byte>, b: seq<byte>, n: nat)
    requires n <= DSM_BYTES <= |a| == |b| && a[n..] == b[n..]
    ensures a[DSM_BYTES..] == b[DSM_BYTES..]
  {
    assert a[DSM_BYTES..] == a[n..][DSM_BYTES - n..] && b[DSM_BYTES..] == b[n..][DSM_BYTES - n..];
  }
}
