/** Byte order: the stwbrx/lwbrx stores and loads of DMA memory are little-endian,
  * SCSI parameter data is big-endian. */
module Endian {
  import opened Base

  /** dma_w32 / dsm_w32_le: the four bytes a byte-reversed store leaves in memory. */
  function Le32(v: u32): (b: seq<byte>)
    ensures |b| == 4
  {
    [v % 0x100, v / 0x100 % 0x100, v / 0x1_0000 % 0x100, v / 0x100_0000]
  }

  /** A 32-bit little-endian field, as the controller reads it. */
  function ReadLe32(b: seq<byte>): u32
    requires |b| == 4
  {
    b[0] as int + 0x100 * b[1] as int + 0x1_0000 * b[2] as int + 0x100_0000 * b[3] as int
  }

  /** A 64-bit little-endian field, as the controller reads it. */
  function ReadLe64(b: seq<byte>): u64
    requires |b| == 8
  {
    ReadLe32(b[..4]) + TWO32 * ReadLe32(b[4..])
  }

  lemma Le32RoundTrip(v: u32)
    ensures ReadLe32(Le32(v)) == v
  {
    var q := v / 0x100;
    var r := q / 0x100;
    assert v / 0x1_0000 == r && v / 0x100_0000 == r / 0x100;
  }

  /** Two 32-bit stores, low word first, are one 64-bit little-endian field. */
  lemma Le64OfWords(lo: u32, hi: u32)
    ensures ReadLe64(Le32(lo) + Le32(hi)) == lo + TWO32 * hi
  {
    Le32RoundTrip(lo);
    Le32RoundTrip(hi);
    var b := Le32(lo) + Le32(hi);
    assert b[..4] == Le32(lo) && b[4..] == Le32(hi);
  }

  function Be16(b: seq<byte>): u32
    requires |b| == 2
  {
    0x100 * b[0] as int + b[1] as int
  }

  function Be32(b: seq<byte>): u32
    requires |b| == 4
  {
    0x100_0000 * b[0] as int + 0x1_0000 * b[1] as int + 0x100 * b[2] as int + b[3] as int
  }

  function Be64(b: seq<byte>): u64
    requires |b| == 8
  {
    TWO32 * Be32(b[..4]) + Be32(b[4..])
  }

  /** The `n`-byte big-endian field that holds `v`: the most significant byte first. */
  function BigEndian(v: nat, n: nat): (b: seq<byte>)
    ensures |b| == n
  {
    if n == 0 then [] else BigEndian(v / 0x100, n - 1) + [v % 0x100]
  }

  lemma BigEndianStep(v: nat, n: nat)
    requires n > 0
    ensures var b := BigEndian(v, n); b[n - 1] as int == v % 0x100 && b[..n - 1] == BigEndian(v / 0x100, n - 1)
  {
  }

  lemma Be16OfField(v: nat)
    requires v < 0x1_0000
    ensures Be16(BigEndian(v, 2)) == v
  {
    BigEndianStep(v, 2);
    BigEndianStep(v / 0x100, 1);
  }

  lemma Be32OfField(v: nat)
    requires v < TWO32
    ensures Be32(BigEndian(v, 4)) == v
  {
    BigEndianStep(v, 4);
    BigEndianStep(v / 0x100, 3);
    BigEndianStep(v / 0x100 / 0x100, 2);
    BigEndianStep(v / 0x100 / 0x100 / 0x100, 1);
  }

  /** A field splits into its upper and lower halves. */
  lemma {:induction false} BigEndianSplit(hi: nat, lo: nat, n: nat)
    requires n <= 4 && lo < Power256(n)
    ensures BigEndian(Power256(n) * hi + lo, 4 + n) == BigEndian(hi, 4) + BigEndian(lo, n)
  {
    if n > 0 {
      var v := Power256(n) * hi + lo;
      BigEndianSplit(hi, lo / 0x100, n - 1);
      assert v / 0x100 == Power256(n - 1) * hi + lo / 0x100 && v % 0x100 == lo % 0x100;
      hide Power256;
      assert BigEndian(v, 4 + n) == BigEndian(v / 0x100, 3 + n) + [v % 0x100];
      assert BigEndian(lo, n) == BigEndian(lo / 0x100, n - 1) + [lo % 0x100];
      hide BigEndian;
    }
  }

  function Power256(n: nat): nat
    requires n <= 4
  {
    match n
    case 0 => 1
    case 1 => 0x100
    case 2 => 0x1_0000
    case 3 => 0x100_0000
    case _ => 0x1_0000_0000
  }

  lemma Be64OfField(v: u64)
    ensures Be64(BigEndian(v, 8)) == v
  {
    hide BigEndian, Be32;
    var hi, lo := v / TWO32, v % TWO32;
    assert v == Power256(4) * hi + lo;
    BigEndianSplit(hi, lo, 4);
    Be32OfField(hi);
    Be32OfField(lo);
    var b := BigEndian(v, 8);
    assert b[..4] == BigEndian(hi, 4) && b[4..] == BigEndian(lo, 4);
  }
}
