/** The trackdisk and NSD commands, and what a read or write request asks for. */
module Commands {
  import opened Base
  import opened Prp

  /** The commands BeginIO knows, by name. */
  datatype Command =
    | CMD_READ | ETD_READ | TD_READ64 | NSCMD_TD_READ64 | NSCMD_ETD_READ64
    | CMD_WRITE | ETD_WRITE | TD_WRITE64 | NSCMD_TD_WRITE64 | NSCMD_ETD_WRITE64
    | TD_FORMAT | ETD_FORMAT | TD_FORMAT64 | NSCMD_TD_FORMAT64 | NSCMD_ETD_FORMAT64
    | CMD_UPDATE | CMD_FLUSH | ETD_UPDATE
    | TD_GETGEOMETRY | NSCMD_TD_GETGEOMETRY64 | NSCMD_ETD_SEEK64 | HD_SCSICMD
    | TD_ADDCHANGEINT | TD_REMCHANGEINT | TD_REMOVE
    | NSCMD_DEVICEQUERY | NSCMD_NVME_GETSTATS | NSCMD_TD_ADDSTATCALLBACK | NSCMD_TD_REMSTATCALLBACK
    | NoOperation     // MOTOR, START, STOP, SEEK, EJECT, CLEAR and the plain queries: always good
    | UnknownCommand

  predicate IsRead(c: Command) {
    c in {CMD_READ, ETD_READ, TD_READ64, NSCMD_TD_READ64, NSCMD_ETD_READ64}
  }

  predicate IsWrite(c: Command) {
    c in {CMD_WRITE, ETD_WRITE, TD_WRITE64, NSCMD_TD_WRITE64, NSCMD_ETD_WRITE64,
          TD_FORMAT, ETD_FORMAT, TD_FORMAT64, NSCMD_TD_FORMAT64, NSCMD_ETD_FORMAT64}
  }

  predicate IsFlush(c: Command) {
    c in {CMD_UPDATE, CMD_FLUSH, ETD_UPDATE}
  }

  /** What dispatch_ioreq makes of a command. */
  datatype Handling = Rw(isWrite: bool) | FlushCommand | ScsiCommand | Geometry(bytes: nat) | Seek | NotHandled

  /** The switch of dispatch_ioreq; a geometry query needs room for its structure. */
  function Handled(c: Command): Handling {
    match c
    case CMD_READ | TD_READ64 | NSCMD_TD_READ64 | NSCMD_ETD_READ64 | ETD_READ => Rw(false)
    case CMD_WRITE | TD_WRITE64 | NSCMD_TD_WRITE64 | NSCMD_ETD_WRITE64 | ETD_WRITE
      | TD_FORMAT | ETD_FORMAT | TD_FORMAT64 | NSCMD_TD_FORMAT64 | NSCMD_ETD_FORMAT64 => Rw(true)
    case CMD_UPDATE | CMD_FLUSH | ETD_UPDATE => FlushCommand
    case TD_GETGEOMETRY => Geometry(DRIVE_GEOMETRY_BYTES)
    case NSCMD_TD_GETGEOMETRY64 => Geometry(DRIVE_GEOMETRY64_BYTES)
    case NSCMD_ETD_SEEK64 => Seek
    case HD_SCSICMD => ScsiCommand
    case _ => NotHandled
  }

  /** sizeof(struct DriveGeometry) and sizeof(struct DriveGeometry64). */
  const DRIVE_GEOMETRY_BYTES: nat := 32
  const DRIVE_GEOMETRY64_BYTES: nat := 24

  /** Each command goes the way its name says: the five reads are submitted as reads, the ten writes and
    * formats as writes, the three flushes as flushes, and no other command is. */
  lemma SwitchExact(c: Command)
    ensures Handled(c) == Rw(false) <==> IsRead(c)
    ensures Handled(c) == Rw(true) <==> IsWrite(c)
    ensures Handled(c) == FlushCommand <==> IsFlush(c)
    ensures Handled(c) == ScsiCommand <==> c == HD_SCSICMD
    ensures Handled(c).Geometry? <==> c == TD_GETGEOMETRY || c == NSCMD_TD_GETGEOMETRY64
  {
  }

  /** The six commands whose io_Actual carries the high half of the byte offset. */
  predicate HasHighWord(c: Command) {
    c in {TD_READ64, TD_WRITE64, NSCMD_TD_READ64, NSCMD_TD_WRITE64, NSCMD_ETD_READ64, NSCMD_ETD_WRITE64}
  }

  /** The byte offset SubmitNoRing uses. */
  function ByteOffset(c: Command, actual: u32, offset: u32): (o: u64) {
    if HasHighWord(c) then TWO32 * actual + offset else offset
  }

  /** The 64-bit trackdisk commands: every command named ..64 that addresses the disk takes the high word of
    * its byte offset from io_Actual. */
  predicate Named64(c: Command) {
    c in {TD_READ64, TD_WRITE64, TD_FORMAT64, NSCMD_TD_READ64, NSCMD_TD_WRITE64, NSCMD_TD_FORMAT64,
          NSCMD_ETD_READ64, NSCMD_ETD_WRITE64, NSCMD_ETD_FORMAT64}
  }

  predicate IsFormat64(c: Command) {
    c in {TD_FORMAT64, NSCMD_TD_FORMAT64, NSCMD_ETD_FORMAT64}
  }

  /** The byte offset a request names. */
  function RequestedOffset(c: Command, actual: u32, offset: u32): (o: u64) {
    if Named64(c) then TWO32 * actual + offset else offset
  }

  /** The driver addresses the bytes that were asked for, except for a FORMAT64 above 4 GiB. */
  lemma OffsetFaithful(c: Command, actual: u32, offset: u32)
    ensures ByteOffset(c, actual, offset) == RequestedOffset(c, actual, offset) <==> actual == 0 || !IsFormat64(c)
  {
  }

  lemma Format64IgnoresHighWord()
    ensures RequestedOffset(TD_FORMAT64, 1, 0) == TWO32 && ByteOffset(TD_FORMAT64, 1, 0) == 0
  {
  }

  /** io_Error values. */
  datatype IoError = NoError | BadAddress | BadLength | Aborted | UnitBusy | OpenFail | NoCmd | BadStatus

  /** The checks at the head of SubmitNoRing. */
  datatype Verdict = Reject(error: IoError) | Nothing | Transfer(lba: nat, nlb: nat)

  function Validate(offset: u64, len: u32, hasData: bool, bs: nat): Verdict
    requires bs > 0
  {
    if offset % bs != 0 then Reject(BadAddress)
    else if len % bs != 0 || (len != 0 && !hasData) then Reject(BadLength)
    else if len / bs == 0 then Nothing
    else if len / bs > 0x1_0000 then Reject(BadLength)
    else Transfer(offset / bs, len / bs)
  }

  /** An accepted request addresses exactly its own bytes, and its block count fits the 16-bit
    * zero-based field of CDW12.  A misaligned offset is a bad address; a misaligned length, a missing buffer
    * and too many blocks are a bad length. */
  lemma ValidateExact(offset: u64, len: u32, hasData: bool, bs: nat)
    requires bs > 0
    ensures var v := Validate(offset, len, hasData, bs);
      && (v.Transfer? ==> v.lba * bs == offset && v.nlb * bs == len && 1 <= v.nlb <= 0x1_0000 && hasData)
      && (v.Nothing? <==> offset % bs == 0 && len == 0)
      && (v.Transfer? <==> offset % bs == 0 && len % bs == 0 && 0 < len <= 0x1_0000 * bs && hasData)
      && (v == Reject(BadAddress) <==> offset % bs != 0)
      && (v == Reject(BadLength) <==> offset % bs == 0 && (len % bs != 0 || len > 0x1_0000 * bs || (len > 0 && !hasData)))
  {
    Blocks(offset, bs, 0x1_0000);
    Blocks(len, bs, 0x1_0000);
    Blocks(len, bs, 0);
  }

  /** A multiple of the block size, in blocks. */
  lemma Blocks(x: nat, bs: nat, limit: nat)
    requires bs > 0
    ensures x % bs == 0 ==> x / bs * bs == x && (x / bs <= limit <==> x <= limit * bs)
  {
    var q := x / bs;
    assert x == bs * q + x % bs;
    if x % bs == 0 {
      if q > limit { assert bs * q >= bs * (limit + 1) == bs * limit + bs; }
      if q <= limit { assert bs * q <= bs * limit; }
    }
  }

  /** should_use_bounce. */
  predicate UseBounce(len: nat, data: nat, ps: nat)
    requires ps > 0
  {
    len <= BOUNCE_SIZE && (len < DIRECT_MIN_PAGES * ps || data % ps != 0)
  }
}
