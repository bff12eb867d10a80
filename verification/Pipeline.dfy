/** The per-unit I/O pipeline as a step system.
  *
  * Three actors share one state: the unit task (slots, submission, harvest), the controller
  * (fetch in order, execute in any order, post in any order) and the clients (who may touch only
  * memory the driver does not own).  The queues are the ones module Rings implements.  Every
  * step is a function; a run is a sequence of enabled steps. */
module Pipeline {
  import opened Base
  import opened Memory
  import opened Modular
  import opened Prp
  import opened Commands

  const OP_FLUSH: nat := 0
  const OP_WRITE: nat := 1
  const OP_READ: nat := 2

  /** The SQE words the model uses. */
  datatype Sqe = Sqe(opcode: nat, cid: nat, prp1: nat, prp2: nat, cdw10: u32, cdw11: u32, cdw12: u32)

  /** The command NVMeIO_Flush builds; the command id is filled in when it is placed. */
  const FLUSH_SQE: Sqe := Sqe(OP_FLUSH, 0, 0, 0, 0, 0, 0)

  /** A command that moves no data of a request. */
  predicate Dataless(e: Sqe) {
    e.opcode != OP_READ && e.opcode != OP_WRITE
  }

  /** A completion: what the CQE says, and the disk around the moment the command was executed. */
  datatype Cqe = Cqe(cid: nat, ok: bool, before: Mem, after: Mem)

  /** An IOStdReq as submitted.  `sg` is what GetDMAList reports for `data`; for a write,
    * `payload` is what the client stored there before it issued the request. */
  datatype Request = Request(id: nat, command: Command, offset: u32, actual: u32, length: u32, data: nat,
                             sg: seq<Extent>, payload: seq<byte>)

  /** One StartDMA waiting for its EndDMA. */
  datatype Pin = Pin(buf: nat, size: nat, flags: nat)

  const DMA_READ_FROM_RAM: nat := 8
  const POOL_MARK: nat := 0x8000_0000

  /** How a slot moves its data: not at all, through its bounce buffer, or directly, with the
    * dma_buf / dma_size / dma_flags that Harvest will hand to EndDMA. */
  datatype Path = NoData | Bounced | Mapped(buf: nat, size: nat, flags: nat)

  datatype Slot = Free | Busy(req: Request, isWrite: bool, path: Path, suppress: bool)

  /** What a harvested slot leaves behind; `replied` unless suppress_reply was set. */
  datatype Outcome = Outcome(req: Request, isWrite: bool, path: Path, replied: bool, ok: bool, actual: nat,
                             mem: Mem, before: Mem, after: Mem)

  datatype Config = Config(ps: nat, bs: nat, bounce: seq<nat>, list: seq<nat>, pool: seq<bool>, poolCapacity: nat)

  datatype Sys = Sys(
    slots: seq<Slot>,
    unpublished: seq<Sqe>, published: seq<Sqe>,        // the SQ
    fetched: seq<Sqe>, done: seq<Cqe>,                 // inside the controller
    posted: seq<Cqe>,                                  // the CQ
    mem: Mem, disk: Mem,
    pins: multiset<Pin>, heapLists: int,               // StartDMA and per-I/O DMAEntry balance
    outcomes: seq<Outcome>,
    placed: nat)                                       // SQEs ever placed

  function Init(mem: Mem, disk: Mem): Sys {
    Sys(seq(MAX_INFLIGHT, _ => Free), [], [], [], [], [], mem, disk, multiset{}, 0, [], 0)
  }

  // ----- SQE encoding --------------------------------------------------------------------

  function Encode(isWrite: bool, cid: nat, prp1: nat, prp2: nat, lba: u64, nlb: nat): Sqe
    requires 1 <= nlb <= 0x1_0000
  {
    Sqe(if isWrite then OP_WRITE else OP_READ, cid, prp1, prp2, lba % TWO32, lba / TWO32, (nlb - 1) % 0x1_0000)
  }

  /** Starting LBA: CDW11 above CDW10. */
  function Slba(e: Sqe): nat {
    e.cdw10 + TWO32 * e.cdw11
  }

  /** Number of logical blocks: a 16-bit zero-based field. */
  function Nlb(e: Sqe): nat {
    e.cdw12 % 0x1_0000 + 1
  }

  lemma EncodeRoundTrip(isWrite: bool, cid: nat, prp1: nat, prp2: nat, lba: u64, nlb: nat)
    requires 1 <= nlb <= 0x1_0000
    ensures var e := Encode(isWrite, cid, prp1, prp2, lba, nlb); Slba(e) == lba && Nlb(e) == nlb
  {
  }

  // ----- Unit task -----------------------------------------------------------------------

  function FindFree(slots: seq<Slot>): (f: Option<nat>)
    ensures f.Some? ==> f.value < |slots| && slots[f.value] == Free
    ensures f.Some? ==> forall i :: 0 <= i < f.value ==> slots[i].Busy?
    ensures f.None? ==> forall i :: 0 <= i < |slots| ==> slots[i].Busy?
  {
    FindFreeFrom(slots, 0)
  }

  function FindFreeFrom(slots: seq<Slot>, i: nat): (f: Option<nat>)
    requires i <= |slots|
    ensures f.Some? ==> i <= f.value < |slots| && slots[f.value] == Free
    ensures f.Some? ==> forall k :: i <= k < f.value ==> slots[k].Busy?
    ensures f.None? ==> forall k :: i <= k < |slots| ==> slots[k].Busy?
    decreases |slots| - i
  {
    if i == |slots| then None else if slots[i].Free? then Some(i) else FindFreeFrom(slots, i + 1)
  }

  /** Page-aligned buffers and list pages, one per slot. */
  predicate Layout(cfg: Config) {
    && Page(cfg.ps) && cfg.bs > 0
    && |cfg.bounce| == |cfg.list| == |cfg.pool| == MAX_INFLIGHT
    && (forall i :: 0 <= i < MAX_INFLIGHT ==> Aligned(cfg.bounce[i], cfg.ps) && cfg.bounce[i] + BOUNCE_SIZE <= TWO32)
    && (forall i :: 0 <= i < MAX_INFLIGHT ==> Aligned(cfg.list[i], cfg.ps))
  }

  /** Sixteen slots; one that moves data does so for a non-empty buffer its SG list describes. */
  predicate Shape(cfg: Config, s: Sys) {
    && Layout(cfg) && |s.slots| == MAX_INFLIGHT
    && (forall i :: 0 <= i < MAX_INFLIGHT && MovesData(s.slots[i]) ==>
          s.slots[i].req.length > 0 && Described(cfg, s.slots[i].req))
  }

  predicate MovesData(b: Slot) {
    b.Busy? && !b.path.NoData?
  }

  /** The SG list of a request describes its buffer. */
  predicate Described(cfg: Config, r: Request)
    requires cfg.ps > 0
  {
    r.length > 0 ==> WellFormed(r.sg, cfg.ps) && Total(r.sg) == r.length
  }

  function Offset(r: Request): u64 {
    ByteOffset(r.command, r.actual, r.offset)
  }

  /** Slot `k` taken for `b`, SQE `e` at the shadow tail. */
  function Place(s: Sys, k: nat, b: Slot, e: Sqe): Sys
    requires k < |s.slots|
  {
    s.(slots := s.slots[k := b], unpublished := s.unpublished + [e], placed := s.placed + 1)
  }

  /** Return codes of SubmitNoRing; `Failed` carries the code and the io_Error it set. */
  datatype Rc = Submitted | NoSlot | NothingToDo | Failed(code: int, error: IoError)

  /** StartDMA may refuse a buffer, AllocSysObject may fail. */
  datatype DmaEnv = DmaEnv(refuses: bool, allocFails: bool)

  function SubmitNoRing(cfg: Config, s: Sys, r: Request, isWrite: bool, env: DmaEnv): (o: (Rc, Sys))
    requires Shape(cfg, s) && Described(cfg, r)
    ensures Shape(cfg, o.1)
  {
    var free := FindFree(s.slots);
    if free.None? then (NoSlot, s)
    else
      match Validate(Offset(r), r.length, r.data != 0, cfg.bs)
      case Reject(error) => (Failed(-5, error), s)
      case Nothing => (NothingToDo, s)
      case Transfer(lba, nlb) =>
        ValidateExact(Offset(r), r.length, r.data != 0, cfg.bs);
        var k := free.value;
        if UseBounce(r.length, r.data, cfg.ps)
        then SubmitBounced(cfg, s, k, r, isWrite, lba, nlb)
        else SubmitMapped(cfg, s, k, r, isWrite, lba, nlb, env)
  }

  function BounceIn(cfg: Config, m: Mem, k: nat, r: Request, isWrite: bool): Mem
    requires Layout(cfg) && k < MAX_INFLIGHT && Described(cfg, r) && r.length > 0
  {
    if isWrite then Scatter(m, Span(cfg.bounce[k], r.length), Gather(m, Denotes(r.sg))) else m
  }

  function SubmitBounced(cfg: Config, s: Sys, k: nat, r: Request, isWrite: bool, lba: nat, nlb: nat): (o: (Rc, Sys))
    requires Shape(cfg, s) && k < MAX_INFLIGHT && Described(cfg, r) && 0 < r.length <= BOUNCE_SIZE
    requires lba < TWO64 && 1 <= nlb <= 0x1_0000
    ensures Shape(cfg, o.1)
  {
    var m := BounceIn(cfg, s.mem, k, r, isWrite);
    match Bounce(m, cfg.bounce[k], r.length, cfg.ps, cfg.list[k])
    case TooManyPages(m') => (Failed(-4, BadLength), s.(mem := m'))
    case Prps(prp1, prp2, m') =>
      (Submitted, Place(s.(mem := m'), k, Busy(r, isWrite, Bounced, false),
                        Encode(isWrite, k + 1, prp1, prp2, lba, nlb)))
  }

  /** StartDMA flags: DMA_ReadFromRAM if the device reads the buffer. */
  function Flags(isWrite: bool): nat {
    if isWrite then DMA_READ_FROM_RAM else 0
  }

  /** StartDMA has accepted the buffer, and a DMAEntry array is at hand. */
  function StartDma(s: Sys, r: Request, isWrite: bool, pooled: bool): Sys {
    s.(pins := s.pins + multiset{Pin(r.data, r.length, Flags(isWrite))}, heapLists := s.heapLists + if pooled then 0 else 1)
  }

  /** EndDMA, and the array freed unless it came from the pool. */
  function EndDma(s: Sys, r: Request, isWrite: bool, pooled: bool): Sys {
    s.(pins := s.pins - multiset{Pin(r.data, r.length, Flags(isWrite))}, heapLists := s.heapLists - if pooled then 0 else 1)
  }

  /** dma_buf, dma_size and dma_flags as recorded for Harvest. */
  function MappedPath(r: Request, isWrite: bool, pooled: bool): Path {
    Mapped(r.data, r.length, Flags(isWrite) + if pooled then POOL_MARK else 0)
  }

  function SubmitMapped(cfg: Config, s: Sys, k: nat, r: Request, isWrite: bool, lba: nat, nlb: nat, env: DmaEnv): (o: (Rc, Sys))
    requires Shape(cfg, s) && k < MAX_INFLIGHT && Described(cfg, r) && 0 < r.length
    requires lba < TWO64 && 1 <= nlb <= 0x1_0000
    ensures Shape(cfg, o.1)
  {
    var pooled := |r.sg| <= cfg.poolCapacity && cfg.pool[k];
    if env.refuses || (!pooled && env.allocFails) then (Failed(-3, Aborted), s)
    else PlaceMapped(cfg, StartDma(s, r, isWrite, pooled), k, r, isWrite, lba, nlb, pooled)
  }

  function PlaceMapped(cfg: Config, s: Sys, k: nat, r: Request, isWrite: bool, lba: nat, nlb: nat, pooled: bool): (o: (Rc, Sys))
    requires Shape(cfg, s) && k < MAX_INFLIGHT && Described(cfg, r) && 0 < r.length
    requires lba < TWO64 && 1 <= nlb <= 0x1_0000
    ensures Shape(cfg, o.1)
  {
    match Direct(s.mem, r.sg, cfg.ps, cfg.list[k])
    case TooManyPages(m) => (Failed(-4, BadLength), EndDma(s, r, isWrite, pooled).(mem := m))
    case Prps(prp1, prp2, m) =>
      (Submitted, Place(s.(mem := m), k, Busy(r, isWrite, MappedPath(r, isWrite, pooled), false),
                        Encode(isWrite, k + 1, prp1, prp2, lba, nlb)))
  }

  /** Flush and SubmitAndWait: a caller-built SQE without data of its own, in which only the command id
    * is filled in. */
  function SubmitControl(s: Sys, r: Request, sqe: Sqe, suppress: bool): (Rc, Sys)
    requires Dataless(sqe)
  {
    var free := FindFree(s.slots);
    if free.None? then (NoSlot, s)
    else (Submitted, Place(s, free.value, Busy(r, false, NoData, suppress), sqe.(cid := free.value + 1)))
  }

  /** `e` is what was asked for, with the command id of slot `k`: all other words are as asked. */
  predicate Carries(e: Sqe, asked: Sqe, k: nat) {
    && e.opcode == asked.opcode && e.cid == k + 1 && e.prp1 == asked.prp1 && e.prp2 == asked.prp2
    && e.cdw10 == asked.cdw10 && e.cdw11 == asked.cdw11 && e.cdw12 == asked.cdw12
  }

  /** A free slot has been taken for `r`, and the newest SQE is the command asked for, under that slot's id. */
  predicate Commanded(s: Sys, s': Sys, r: Request, asked: Sqe, suppress: bool) {
    && |s'.unpublished| == |s.unpublished| + 1
    && var e := s'.unpublished[|s.unpublished|];
    && 1 <= e.cid <= |s.slots| == |s'.slots| && Carries(e, asked, e.cid - 1)
    && s.slots[e.cid - 1].Free? && s'.slots[e.cid - 1] == Busy(r, false, NoData, suppress)
  }

  /** An accepted command without data is the newest SQE, word for word as the caller built it but for the
    * command id, which is that of the slot taken; it is refused only if all slots are. */
  lemma ControlCarries(s: Sys, r: Request, sqe: Sqe, sup: bool)
    requires Dataless(sqe)
    ensures var (rc, s') := SubmitControl(s, r, sqe, sup);
      if rc == Submitted then Commanded(s, s', r, sqe, sup)
      else rc == NoSlot && s' == s && forall i :: 0 <= i < |s.slots| ==> s.slots[i].Busy?
  {
  }

  function RingSQ(s: Sys): Sys {
    s.(published := s.published + s.unpublished, unpublished := [])
  }

  /** NVMeIO_Submit: submit, and ring if there is something to ring for. */
  function Submit(cfg: Config, s: Sys, r: Request, isWrite: bool, env: DmaEnv): (o: (Rc, Sys))
    requires Shape(cfg, s) && Described(cfg, r)
    ensures Shape(cfg, o.1)
  {
    var (rc, s') := SubmitNoRing(cfg, s, r, isWrite, env);
    (rc, if rc == Submitted then RingSQ(s') else s')
  }

  /** NVMeIO_Flush: a control command that rings at once. */
  function Flush(s: Sys, r: Request): (Rc, Sys) {
    var (rc, s') := SubmitControl(s, r, FLUSH_SQE, false);
    (rc, if rc == Submitted then RingSQ(s') else s')
  }

  /** EndDMA and FreeSysObject for a slot that mapped its buffer: the marker is stripped first. */
  function Unmap(s: Sys, path: Path): Sys {
    if path.Mapped? then
      var pooled := path.flags >= POOL_MARK;
      s.(pins := s.pins - multiset{Pin(path.buf, path.size, if pooled then path.flags - POOL_MARK else path.flags)},
         heapLists := s.heapLists - if pooled then 0 else 1)
    else s
  }

  /** One turn of Harvest's loop: take the CQE at the head, then deal with it. */
  function HarvestOne(cfg: Config, s: Sys): (s': Sys)
    requires Shape(cfg, s) && s.posted != []
    ensures Shape(cfg, s') && s'.posted == s.posted[1..]
  {
    Consume(cfg, s.(posted := s.posted[1..]), s.posted[0])
  }

  /** A CQE with an unmatched cid is dropped. */
  function Consume(cfg: Config, s: Sys, c: Cqe): (s': Sys)
    requires Shape(cfg, s)
    ensures Shape(cfg, s') && s'.posted == s.posted
  {
    if !(1 <= c.cid <= MAX_INFLIGHT) || s.slots[c.cid - 1].Free? then s
    else Complete(cfg, s, c.cid - 1, c)
  }

  function BounceOut(cfg: Config, m: Mem, k: nat, b: Slot, ok: bool): Mem
    requires Layout(cfg) && k < MAX_INFLIGHT && b.Busy?
    requires MovesData(b) ==> b.req.length > 0 && Described(cfg, b.req)
  {
    if b.path.Bounced? && !b.isWrite && ok && b.req.data != 0
    then Scatter(m, Denotes(b.req.sg), Gather(m, Span(cfg.bounce[k], b.req.length)))
    else m
  }

  function Complete(cfg: Config, s: Sys, k: nat, c: Cqe): (s': Sys)
    requires Shape(cfg, s) && k < MAX_INFLIGHT && s.slots[k].Busy?
    ensures Shape(cfg, s') && s'.posted == s.posted
  {
    var b := s.slots[k];
    var m := BounceOut(cfg, s.mem, k, b, c.ok);
    Unmap(s, b.path).(
      mem := m,
      slots := s.slots[k := Free],
      outcomes := s.outcomes + [Outcome(b.req, b.isWrite, b.path, !b.suppress, c.ok,
                                        if c.ok then b.req.length else 0, m, c.before, c.after)])
  }

  /** Harvest drains the CQ. */
  function Harvest(cfg: Config, s: Sys): (s': Sys)
    requires Shape(cfg, s)
    ensures Shape(cfg, s') && s'.posted == []
    decreases |s.posted|
  {
    if s.posted == [] then s else Harvest(cfg, HarvestOne(cfg, s))
  }

  /** Slot `k` with its reply suppressed. */
  function Suppressed(s: Sys, k: nat): Sys
    requires k < |s.slots| && s.slots[k].Busy?
  {
    s.(slots := s.slots[k := s.slots[k].(suppress := true)])
  }

  /** dispatch_rw and SubmitAndWait give up on a slot: its pin is released, its command is not. */
  function GiveUp(s: Sys, k: nat): Sys
    requires k < |s.slots| && s.slots[k].Busy?
  {
    Unmap(s, s.slots[k].path).(slots := s.slots[k := Free])
  }

  // ----- Controller ----------------------------------------------------------------------

  function Fetch(s: Sys): Sys
    requires s.published != []
  {
    s.(published := s.published[1..], fetched := s.fetched + [s.published[0]])
  }

  /** What executing a command needs to be told: success, and what a failed or a dataset
    * management command leaves behind. */
  datatype Effect = Effect(ok: bool, junk: seq<byte>, disk: Mem)

  function DiskSpan(cfg: Config, e: Sqe): seq<nat> {
    Span(Slba(e) * cfg.bs, Nlb(e) * cfg.bs)
  }

  function Pages(cfg: Config, m: Mem, e: Sqe): Option<seq<nat>>
    requires cfg.ps > 0
  {
    Decode(m, e.prp1, e.prp2, Nlb(e) * cfg.bs, cfg.ps)
  }

  /** A data command succeeds only if its PRPs decode; when it fails, any part of its target may
    * have been written. */
  predicate Executable(cfg: Config, m: Mem, e: Sqe, f: Effect)
    requires cfg.ps > 0
  {
    e.opcode == OP_READ || e.opcode == OP_WRITE ==>
      && (f.ok ==> Pages(cfg, m, e).Some?)
      && (!f.ok ==> |f.junk| == Nlb(e) * cfg.bs)
  }

  /** Memory after the data phase. */
  function MemAfter(cfg: Config, m: Mem, disk: Mem, e: Sqe, f: Effect): Mem
    requires cfg.ps > 0 && Executable(cfg, m, e, f)
  {
    if e.opcode != OP_READ then m
    else
      match Pages(cfg, m, e)
      case None => m
      case Some(addrs) => Scatter(m, addrs, if f.ok then Gather(disk, DiskSpan(cfg, e)) else f.junk)
  }

  /** Disk after the data phase. */
  function DiskAfter(cfg: Config, m: Mem, disk: Mem, e: Sqe, f: Effect): Mem
    requires cfg.ps > 0 && Executable(cfg, m, e, f)
  {
    if e.opcode == OP_READ then disk
    else if e.opcode == OP_WRITE then
      Scatter(disk, DiskSpan(cfg, e), if f.ok then Gather(m, Pages(cfg, m, e).value) else f.junk)
    else f.disk
  }

  function Execute(cfg: Config, s: Sys, i: nat, f: Effect): Sys
    requires cfg.ps > 0 && i < |s.fetched| && Executable(cfg, s.mem, s.fetched[i], f)
  {
    var e := s.fetched[i];
    s.(fetched := RemoveAt(s.fetched, i),
       mem := MemAfter(cfg, s.mem, s.disk, e, f), disk := DiskAfter(cfg, s.mem, s.disk, e, f),
       done := s.done + [Cqe(e.cid, f.ok, s.disk, DiskAfter(cfg, s.mem, s.disk, e, f))])
  }

  function Post(s: Sys, i: nat): Sys
    requires i < |s.done|
  {
    s.(done := RemoveAt(s.done, i), posted := s.posted + [s.done[i]])
  }

  // ----- Runs ----------------------------------------------------------------------------

  datatype Step =
    | DoSubmit(req: Request, isWrite: bool, env: DmaEnv)
    | Control(req: Request, sqe: Sqe, suppress: bool)
    | Suppress(slot: nat)
    | Publish
    | DoFetch
    | DoExecute(i: nat, effect: Effect)
    | DoPost(i: nat)
    | DoHarvest
    | Timeout(slot: nat)
    | ClientStore(addr: nat, value: byte)

  /** Memory the driver allocated for itself. */
  predicate DriverOwned(cfg: Config, a: nat)
    requires Layout(cfg)
  {
    exists i :: 0 <= i < MAX_INFLIGHT && (cfg.bounce[i] <= a < cfg.bounce[i] + BOUNCE_SIZE || cfg.list[i] <= a < cfg.list[i] + cfg.ps)
  }

  /** A request submitted in the direction its command names. */
  predicate Directed(r: Request, isWrite: bool) {
    Handled(r.command) == Rw(isWrite)
  }

  /** A request whose command is carried out by a command without data: a flush, or one of a SCSI handler. */
  predicate Controlling(r: Request) {
    Handled(r.command) == FlushCommand || Handled(r.command) == ScsiCommand
  }

  /** A buffer a client may pass: its own bytes, not shared with a request in flight unless both
    * only get written to the disk; a write has its payload in place.  dispatch_ioreq submits it in the
    * direction its command names. */
  predicate ClientBuffer(cfg: Config, s: Sys, r: Request, isWrite: bool)
    requires Shape(cfg, s)
  {
    && Described(cfg, r) && Directed(r, isWrite)
    && (r.length > 0 ==>
          && Distinct(Denotes(r.sg))
          && (forall a :: a in Denotes(r.sg) ==> !DriverOwned(cfg, a))
          && (isWrite ==> Gather(s.mem, Denotes(r.sg)) == r.payload)
          && (forall i :: 0 <= i < MAX_INFLIGHT && MovesData(s.slots[i]) ==>
                (isWrite && s.slots[i].isWrite) || Apart(Denotes(r.sg), Denotes(s.slots[i].req.sg))))
  }

  /** A client may store where neither the driver nor a request in flight has its data. */
  predicate ClientMay(cfg: Config, slots: seq<Slot>, a: nat)
    requires Layout(cfg)
  {
    !DriverOwned(cfg, a) && forall i :: 0 <= i < |slots| && MovesData(slots[i]) ==> a !in Denotes(slots[i].req.sg)
  }

  predicate Enabled(cfg: Config, s: Sys, st: Step)
    requires Shape(cfg, s)
  {
    match st
    case DoSubmit(r, w, _) => ClientBuffer(cfg, s, r, w)
    case Control(r, sqe, _) => Dataless(sqe) && Controlling(r)
    case Suppress(k) => k < MAX_INFLIGHT && s.slots[k].Busy?
    case Publish => true
    case DoFetch => s.published != []
    case DoExecute(i, f) => i < |s.fetched| && Executable(cfg, s.mem, s.fetched[i], f)
    case DoPost(i) => i < |s.done|
    case DoHarvest => s.posted != []
    case Timeout(k) => k < MAX_INFLIGHT && s.slots[k].Busy?
    case ClientStore(a, _) => ClientMay(cfg, s.slots, a)
  }

  function Next(cfg: Config, s: Sys, st: Step): (s': Sys)
    requires Shape(cfg, s) && Enabled(cfg, s, st)
    ensures Shape(cfg, s')
  {
    match st
    case DoSubmit(r, w, env) => SubmitNoRing(cfg, s, r, w, env).1
    case Control(r, sqe, sup) => SubmitControl(s, r, sqe, sup).1
    case Suppress(k) => Suppressed(s, k)
    case Publish => RingSQ(s)
    case DoFetch => Fetch(s)
    case DoExecute(i, f) => Execute(cfg, s, i, f)
    case DoPost(i) => Post(s, i)
    case DoHarvest => HarvestOne(cfg, s)
    case Timeout(k) => GiveUp(s, k)
    case ClientStore(a, v) => s.(mem := s.mem[a := v])
  }

  /** `s` is reached from `s0` by enabled steps; `timeouts` says whether any may be a timeout. */
  ghost predicate Run(cfg: Config, s0: Sys, steps: seq<Step>, s: Sys, timeouts: bool)
    requires Shape(cfg, s0)
    decreases |steps|
  {
    if steps == [] then s == s0
    else
      && Enabled(cfg, s0, steps[0]) && (timeouts || !steps[0].Timeout?)
      && Run(cfg, Next(cfg, s0, steps[0]), steps[1..], s, timeouts)
  }
}
