/** Concrete inputs on which the driver falls short of what it is for. */
module Counterexamples {
  import opened Base
  import opened Memory
  import opened Modular
  import opened Prp
  import opened Commands
  import opened Pipeline
  import opened Matching
  import opened EndToEnd
  import opened Waiting
  import opened Chunking
  import opened Dispatch
  import opened ChunkEffects
  import opened Slack
  import opened Answering
  import opened Drain
  import opened Completion
  import opened UnitTask
  import Task

  // ----- A prompt controller -------------------------------------------------------------

  const SUCCESS := Effect(true, [], map[])

  /** The controller fetches, executes and completes `n` commands one after the other. */
  function ServeTurn(n: nat): Turn {
    if n == 0 then [] else [DoFetch, DoExecute(0, SUCCESS), DoPost(0)] + ServeTurn(n - 1)
  }

  /** A read or write whose PRPs decode. */
  predicate Feasible(cfg: Config, m: Mem, e: Sqe)
    requires cfg.ps > 0
  {
    (e.opcode == OP_READ || e.opcode == OP_WRITE) && Pages(cfg, m, e).Some?
  }

  /** Nothing is inside the controller. */
  predicate Quiescent(s: Sys) {
    s.fetched == [] && s.done == []
  }

  lemma ServeOne(cfg: Config, s: Sys)
    requires Shape(cfg, s) && Quiescent(s) && s.published != [] && Feasible(cfg, s.mem, s.published[0])
    ensures var s' := Happen(cfg, Happen(cfg, Happen(cfg, s, DoFetch), DoExecute(0, SUCCESS)), DoPost(0));
      && Quiescent(s') && s'.published == s.published[1..] && s'.unpublished == s.unpublished && s'.slots == s.slots
      && |s'.posted| == |s.posted| + 1 && s'.posted[..|s.posted|] == s.posted && s'.outcomes == s.outcomes && s'.placed == s.placed
      && s'.posted[|s.posted|].cid == s.published[0].cid && s'.posted[|s.posted|].ok
  {
    ShapeSize(cfg, s);
    hide Pages, MemAfter, DiskAfter, Layout, Described;
    var e := s.published[0];
    var s1 := Happen(cfg, s, DoFetch);
    assert s1 == Fetch(s) && s1.fetched == [e];
    var s2 := Happen(cfg, s1, DoExecute(0, SUCCESS));
    assert Executable(cfg, s1.mem, e, SUCCESS);
    assert s2 == Execute(cfg, s1, 0, SUCCESS);
  }

  lemma {:induction false} ServeMany(cfg: Config, s: Sys, n: nat)
    requires Shape(cfg, s) && Quiescent(s) && |s.published| == n && AllAnywhere(cfg, s.published)
    ensures var s' := Elapse(cfg, s, ServeTurn(n));
      && Quiescent(s') && s'.published == [] && s'.unpublished == s.unpublished && s'.slots == s.slots
      && |s'.posted| == |s.posted| + n && s'.outcomes == s.outcomes && s'.placed == s.placed
    decreases n
  {
    if n > 0 {
      var e := s.published[0];
      assert e in s.published && Anywhere(cfg, e) && Feasible(cfg, s.mem, e);
      ServeOne(cfg, s);
      var a := Happen(cfg, s, DoFetch);
      var b := Happen(cfg, a, DoExecute(0, SUCCESS));
      var c := Happen(cfg, b, DoPost(0));
      hide Shape, Happen, Anywhere, Feasible;
      ServeMany(cfg, c, n - 1);
      var turn := ServeTurn(n);
      assert turn[0] == DoFetch && turn[1] == DoExecute(0, SUCCESS) && turn[2] == DoPost(0);
      assert turn[1..][0] == turn[1] && turn[1..][1..][0] == turn[2] && turn[1..][1..][1..] == ServeTurn(n - 1);
      assert Elapse(cfg, s, turn) == Elapse(cfg, a, turn[1..]);
      assert Elapse(cfg, a, turn[1..]) == Elapse(cfg, b, turn[1..][1..]);
      assert Elapse(cfg, b, turn[1..][1..]) == Elapse(cfg, c, ServeTurn(n - 1));
    }
  }

  /** An SQE whose PRPs decode whatever memory holds. */
  ghost predicate Anywhere(cfg: Config, e: Sqe)
    requires cfg.ps > 0
  {
    forall m: Mem :: Feasible(cfg, m, e)
  }

  ghost predicate AllAnywhere(cfg: Config, q: seq<Sqe>)
    requires cfg.ps > 0
  {
    forall e :: e in q ==> Anywhere(cfg, e)
  }

  lemma {:induction false} HarvestedQueues(cfg: Config, s: Sys)
    requires Shape(cfg, s)
    ensures var s' := Harvest(cfg, s);
      && s'.unpublished == s.unpublished && s'.published == s.published && s'.fetched == s.fetched && s'.done == s.done
      && s'.posted == [] && s'.placed == s.placed
    decreases |s.posted|
  {
    hide Shape, HarvestOne;
    if s.posted != [] {
      HarvestQueues(cfg, s);
      HarvestOneSlots(cfg, s);
      HarvestPosted(cfg, s);
      HarvestedQueues(cfg, HarvestOne(cfg, s));
    }
  }

  lemma HarvestPosted(cfg: Config, s: Sys)
    requires Shape(cfg, s) && s.posted != []
    ensures HarvestOne(cfg, s).posted == s.posted[1..]
  {
    hide Shape;
  }

  // ----- A drain that leaves commands unpublished ----------------------------------------

  function OneExtent(data: nat, len: nat): seq<Extent> {
    if len > 0 && data + len <= TWO32 then [Extent(data, len)] else []
  }

  /** The `i`-th of a burst of one-block reads, each into a page of its own. */
  function BlockRead(i: nat): Request
    requires i < 64
  {
    var data := 0x100_0000 + 4096 * i;
    Request(i, CMD_READ, 0, 0, 512, data, OneExtent(data, 512), seq(512, _ => 0))
  }

  /** While it waits for a slot, a prompt controller serves all that is published. */
  function PromptWait(): ChunkEnv {
    ChunkEnv(WILLING, WILLING, [ServeTurn(16), [], []], [])
  }

  function BlockMessage(i: nat): Message
    requires i < 64
  {
    Message.Transfer(BlockRead(i), false, 0x20_0000, PromptWait(), (d: nat) => PromptWait(), OneExtent)
  }

  function BurstFrom(i: nat): (ms: seq<Message>)
    requires i <= 64
    ensures |ms| == 64 - i
    decreases 64 - i
  {
    if i == 64 then [] else [BlockMessage(i)] + BurstFrom(i + 1)
  }

  lemma BlockSound(cfg: Config, i: nat)
    requires cfg.ps > 0 && i < 64
    ensures Sound(cfg, BlockMessage(i)) && Described(cfg, BlockRead(i))
  {
    var sg := BlockRead(i).sg;
    assert Total(sg) == 512 + Total(sg[1..]);
  }

  lemma {:induction false} BurstSound(cfg: Config, i: nat)
    requires cfg.ps > 0 && i <= 64
    ensures forall m :: m in BurstFrom(i) ==> Sound(cfg, m)
    decreases 64 - i
  {
    if i < 64 {
      BlockSound(cfg, i);
      BurstSound(cfg, i + 1);
    }
  }

  /** `u` commands placed and not yet published, and no others. */
  ghost predicate Batched(cfg: Config, s: Sys, u: nat) {
    && Shape(cfg, s) && Matched(s) && Quiescent(s) && s.published == [] && s.posted == []
    && |s.unpublished| == u && cfg.ps > 0 && AllAnywhere(cfg, s.unpublished)
  }

  lemma SubmitBlock(cfg: Config, s: Sys, u: nat, i: nat)
    requires Batched(cfg, s, u) && cfg.bs == 512 && u < 16 && i < 64
    ensures Described(cfg, BlockRead(i))
    ensures var (rc, s') := SubmitNoRing(cfg, s, BlockRead(i), false, WILLING);
      rc == Submitted && Batched(cfg, s', u + 1) && s'.placed == s.placed + 1
  {
    var r := BlockRead(i);
    BlockSound(cfg, i);
    hide Anywhere, Matched, Shape, FindFree;
    BlockAccepted(cfg, r);
    RoomForMore(cfg, s, u);
    AcceptableIsSubmitted(cfg, s, r, false);
    SubmitPlaces(cfg, s, r, false, WILLING);
    SubmitMatched(cfg, s, r, false, WILLING);
    BlockSqe(cfg, s, r);
    hide SubmitNoRing;
  }

  lemma BlockAccepted(cfg: Config, r: Request)
    requires cfg.ps > 0 && cfg.bs == 512 && r.length == 512 && r.offset == 0 && r.command == CMD_READ && r.data != 0
    requires r.sg != [] && r.sg[0].phys == r.data
    ensures Acceptable(cfg, r)
  {
  }

  lemma RoomForMore(cfg: Config, s: Sys, u: nat)
    requires Batched(cfg, s, u)
    ensures |s.slots| == MAX_INFLIGHT
    ensures u < 16 ==> FindFree(s.slots).Some?
    ensures u == 16 ==> FindFree(s.slots).None?
  {
    ShapeSize(cfg, s);
    Occupancy(s);
    if FindFree(s.slots).None? { FullPipeline(s); }
  }

  /** The SQE of a one-block read. */
  lemma BlockSqe(cfg: Config, s: Sys, r: Request)
    requires Shape(cfg, s) && Described(cfg, r) && r.length == 512 == cfg.bs && SubmitNoRing(cfg, s, r, false, WILLING).0 == Submitted
    requires r.sg != [] && r.sg[0].phys == r.data
    ensures var s' := SubmitNoRing(cfg, s, r, false, WILLING).1;
      && cfg.ps > 0 && |s'.unpublished| == |s.unpublished| + 1 && s'.unpublished[..|s.unpublished|] == s.unpublished
      && Anywhere(cfg, s'.unpublished[|s.unpublished|])
  {
    SubmittedDecodes(cfg, s, r, false, WILLING);
    var bounced, mapped, k, lba, nlb := SubmitCases(cfg, s, r, false, WILLING);
    var s' := SubmitNoRing(cfg, s, r, false, WILLING).1;
    assert cfg.ps >= 4096;
    assert bounced;
    BouncedIs(cfg, s, k, r, false, lba, nlb);
    var e := s'.unpublished[|s.unpublished|];
    var b := Bounce(BounceIn(cfg, s.mem, k, r, false), cfg.bounce[k], r.length, cfg.ps, cfg.list[k]);
    EncodeRoundTrip(false, k + 1, b.prp1, b.prp2, lba, nlb);
    hide Decode, Bounce, BounceIn, SubmitNoRing, SubmitBounced, Shape, Described;
    assert nlb == 1;
    forall m: Mem
      ensures Feasible(cfg, m, e)
    {
      SmallDecode(m, s'.mem, e.prp1, e.prp2, 512, cfg.ps);
    }
  }

  lemma WaitServed(cfg: Config, s: Sys)
    requires Batched(cfg, s, 16)
    ensures Shape(cfg, RingSQ(s))
    ensures var (freed, s') := AwaitSlot(cfg, RingSQ(s), PromptWait().slotScript);
      freed && Batched(cfg, s', 0) && s'.placed == s.placed
  {
    BatchShape(cfg, s, 16);
    ShapeSize(cfg, s);
    RoomForMore(cfg, s, 16);
    var t, t1, t2 := Served(cfg, s);
    assert HarvestsNothing(cfg, t) by { HarvestNothing(cfg, t); }
    hide Shape, FindFree, ServeTurn, Batched, Harvest;
    var script := PromptWait().slotScript;
    RoomForMore(cfg, t2, 0);
    assert Elapse(cfg, t2, []) == t2;
    assert script[1..] == [[], []] && script[1..][1..] == [[]];
    assert AwaitSlot(cfg, t2, [[]]) == (true, t2);
    assert AwaitSlot(cfg, t1, [[], []]) == AwaitSlot(cfg, t2, [[]]);
    assert AwaitSlot(cfg, t, script) == AwaitSlot(cfg, t1, script[1..]);
  }

  predicate HarvestsNothing(cfg: Config, s: Sys)
    requires Shape(cfg, s)
  {
    Harvest(cfg, s) == s
  }

  lemma HarvestNothing(cfg: Config, s: Sys)
    requires Shape(cfg, s) && s.posted == []
    ensures HarvestsNothing(cfg, s)
  {
    hide Shape;
  }

  /** The batch published, then served, then harvested. */
  lemma Served(cfg: Config, s: Sys) returns (t: Sys, t1: Sys, t2: Sys)
    requires Batched(cfg, s, 16)
    ensures Shape(cfg, RingSQ(s)) && t == RingSQ(s) && t.posted == [] && t.slots == s.slots
    ensures t1 == Elapse(cfg, t, ServeTurn(16)) && t1.slots == t.slots && t2 == Harvest(cfg, t1)
    ensures Batched(cfg, t2, 0) && t2.placed == s.placed
  {
    ShapeSize(cfg, s);
    PublishMatched(s);
    t := RingSQ(s);
    ServeMany(cfg, t, 16);
    t1 := Elapse(cfg, t, ServeTurn(16));
    ElapseMatched(cfg, t, ServeTurn(16));
    HarvestedQueues(cfg, t1);
    HarvestAllMatched(cfg, t1);
    t2 := Harvest(cfg, t1);
    hide Matched, Shape, Anywhere, ServeTurn, Harvest;
  }

  /** One request of the burst. */
  lemma BlockDispatched(cfg: Config, s: Sys, u: nat, i: nat)
    requires Batched(cfg, s, u) && cfg.bs == 512 && u <= 16 && i < 64
    ensures Sound(cfg, BlockMessage(i))
    ensures var (fate, s') := Dispatched(cfg, s, BlockMessage(i));
      fate == Pending && Batched(cfg, s', if u == 16 then 1 else u + 1) && s'.placed == s.placed + 1
  {
    BlockSound(cfg, i);
    var r := BlockRead(i);
    hide Batched, SubmitNoRing, AwaitSlot, Described, FindFree;
    BatchShape(cfg, s, u);
    NoSlotMeans(cfg, s, r, false, WILLING);
    RoomForMore(cfg, s, u);
    if u < 16 {
      SubmitBlock(cfg, s, u, i);
    } else {
      WaitServed(cfg, s);
      SubmitBlock(cfg, AwaitSlot(cfg, RingSQ(s), PromptWait().slotScript).1, 0, i);
    }
  }

  lemma BatchShape(cfg: Config, s: Sys, u: nat)
    requires Batched(cfg, s, u)
    ensures Shape(cfg, s) && cfg.ps > 0 && |s.unpublished| == u
  {
    hide Matched;
  }

  /** How many are unpublished after `i` requests: sixteen at most, and then the wait publishes them. */
  function UnpublishedAfter(i: nat): nat {
    if i == 0 then 0 else (i - 1) % 16 + 1
  }

  lemma {:induction false} BurstStalls(cfg: Config, s: Sys, i: nat)
    requires i <= 64 && Batched(cfg, s, UnpublishedAfter(i)) && cfg.bs == 512
    requires Shape(cfg, s) && forall m :: m in BurstFrom(i) ==> Sound(cfg, m)
    ensures var s' := Drained(cfg, s, BurstFrom(i));
      && |s'.unpublished| == 16 && s'.placed == s.placed + 64 - i && LostIn(cfg, s, BurstFrom(i)) == 0
      && FindFree(s'.slots).None?
    decreases 64 - i
  {
    hide *;
    BatchShape(cfg, s, UnpublishedAfter(i));
    NextUnpublished(i);
    if i < 64 {
      BlockDispatched(cfg, s, UnpublishedAfter(i), i);
      var s1 := Dispatched(cfg, s, BlockMessage(i)).1;
      BurstSound(cfg, i + 1);
      DrainedFirst(cfg, s, i);
      BatchShape(cfg, s1, UnpublishedAfter(i + 1));
      BurstStalls(cfg, s1, i + 1);
    } else {
      BurstOver(cfg, s);
      RoomForMore(cfg, s, 16);
    }
  }

  lemma NextUnpublished(i: nat)
    ensures UnpublishedAfter(i) <= 16 && UnpublishedAfter(64) == 16
    ensures UnpublishedAfter(i + 1) == if UnpublishedAfter(i) == 16 then 1 else UnpublishedAfter(i) + 1
  {
  }

  lemma BurstOver(cfg: Config, s: Sys)
    requires Shape(cfg, s)
    ensures BurstFrom(64) == [] && Drained(cfg, s, BurstFrom(64)) == s && LostIn(cfg, s, BurstFrom(64)) == 0
  {
    hide Shape;
  }

  lemma DrainedFirst(cfg: Config, s: Sys, i: nat)
    requires Shape(cfg, s) && i < 64 && Sound(cfg, BlockMessage(i)) && forall m :: m in BurstFrom(i + 1) ==> Sound(cfg, m)
    ensures forall m :: m in BurstFrom(i) ==> Sound(cfg, m)
    ensures var (fate, s1) := Dispatched(cfg, s, BlockMessage(i));
      && Drained(cfg, s, BurstFrom(i)) == Drained(cfg, s1, BurstFrom(i + 1))
      && LostIn(cfg, s, BurstFrom(i)) == (if fate == Lost then 1 else 0) + LostIn(cfg, s1, BurstFrom(i + 1))
  {
    hide Shape, Dispatched, Sound, BlockMessage;
    assert BurstFrom(i)[0] == BlockMessage(i) && BurstFrom(i)[1..] == BurstFrom(i + 1);
  }

  /** A drain of 64 one-block reads on a fresh unit of depth 64: all are accepted, back-pressure publishes
    * the first 48 on the way, and at the end the tail is back where it was -- so the doorbell is not
    * rung, and the last sixteen wait unpublished, each in its slot. */
  method StalledDrain() returns (unit: Unit)
    ensures unit.Valid() && unit.qp.depth == IO_QUEUE_DEPTH && unit.cfg == SomeConfig()
    ensures unit.Abs().placed == 64 && |unit.Abs().unpublished| == 16 && unit.qp.sqTail == 0
    ensures forall k :: 0 <= k < MAX_INFLIGHT ==> unit.inflight[k].Busy?
  {
    SomeStart(map[], map[]);
    unit := new Unit(SomeConfig(), IO_QUEUE_DEPTH, map[], map[]);
    BurstFits(unit);
    Task.DrainPort(unit, BurstFrom(0));
    Task.SqTail(unit);
    TailAtZero();
    AllTaken(unit);
  }

  lemma AllTaken(unit: Unit)
    requires unit.Valid() && FindFree(unit.Abs().slots).None?
    ensures forall k :: 0 <= k < MAX_INFLIGHT ==> unit.inflight[k].Busy?
  {
    unit.Table();
    assert forall k :: 0 <= k < MAX_INFLIGHT ==> unit.Abs().slots[k] == unit.inflight[k];
  }

  lemma TailAtZero()
    ensures Rem(64, 64) == 0 && (64 - 0) % 64 == 0
  {
  }

  /** The drain, on values. */
  lemma StalledSpec()
    ensures var cfg, s := SomeConfig(), Init(map[], map[]);
      && Layout(cfg) && Shape(cfg, s) && NoneSuppressed(s.slots) && Load(s) == MAX_INFLIGHT
      && (forall m :: m in BurstFrom(0) ==> Sound(cfg, m)) && LostIn(cfg, s, BurstFrom(0)) == 0
      && var s' := Drained(cfg, s, BurstFrom(0));
      RungIfMoved(s, s', IO_QUEUE_DEPTH) == s' && s'.placed == 64 && |s'.unpublished| == 16 && FindFree(s'.slots).None?
  {
    hide *;
    SomeStart(map[], map[]);
    var cfg, s := SomeConfig(), Init(map[], map[]);
    StartNumbers(cfg, s);
    FreshBatch(cfg);
    BurstSound(cfg, 0);
    MatchedLoad(s);
    BurstStalls(cfg, s, 0);
    NotRung(s, Drained(cfg, s, BurstFrom(0)));
  }

  lemma BurstFits(unit: Unit)
    requires unit.Valid() && unit.qp.depth == IO_QUEUE_DEPTH && unit.cfg == SomeConfig() && unit.Abs() == Init(map[], map[])
    ensures Layout(unit.cfg) && NoneSuppressed(unit.Abs().slots) && Shape(unit.cfg, unit.Abs())
    ensures forall m :: m in BurstFrom(0) ==> Sound(unit.cfg, m) && Task.Apart(unit, m)
    ensures Load(unit.Abs()) + LostIn(unit.cfg, unit.Abs(), BurstFrom(0)) < unit.qp.depth
    ensures var s' := RungIfMoved(unit.Abs(), Drained(unit.cfg, unit.Abs(), BurstFrom(0)), IO_QUEUE_DEPTH);
      s'.placed == 64 && |s'.unpublished| == 16 && FindFree(s'.slots).None?
  {
    assert MAX_INFLIGHT < IO_QUEUE_DEPTH;
    hide *;
    unit.Table();
    StalledSpec();
    BurstApart(unit, 0);
  }

  lemma StartNumbers(cfg: Config, s: Sys)
    requires cfg == SomeConfig() && s == Init(map[], map[])
    ensures cfg.bs == 512 && cfg.ps == 4096 && UnpublishedAfter(0) == 0 && s.placed == 0
  {
  }

  lemma NotRung(before: Sys, s: Sys)
    requires s.placed == before.placed + 64
    ensures RungIfMoved(before, s, IO_QUEUE_DEPTH) == s
  {
    hide RingSQ;
  }

  lemma FreshBatch(cfg: Config)
    requires Shape(cfg, Init(map[], map[]))
    ensures Batched(cfg, Init(map[], map[]), 0) && Matched(Init(map[], map[])) && |Init(map[], map[]).slots| == MAX_INFLIGHT
    ensures NoneSuppressed(Init(map[], map[]).slots)
  {
    InitMatched(map[], map[]);
    hide Matched;
  }

  lemma {:induction false} BurstApart(unit: Unit, i: nat)
    requires unit.cfg == SomeConfig() && Layout(unit.cfg) && i <= 64
    ensures forall m :: m in BurstFrom(i) ==> Task.Apart(unit, m)
    decreases 64 - i
  {
    if i < 64 {
      BlockApart(unit, i);
      BurstApart(unit, i + 1);
    }
  }

  lemma BlockApart(unit: Unit, i: nat)
    requires unit.cfg == SomeConfig() && Layout(unit.cfg) && i < 64
    ensures Task.Apart(unit, BlockMessage(i))
  {
    var r := BlockRead(i);
    hide DriverOwned, Layout;
    forall a | a in Denotes(r.sg)
      ensures !DriverOwned(unit.cfg, a)
    {
      InOneExtent(r.data, 512, a);
      SomeApart(a);
    }
  }

  lemma InOneExtent(data: nat, len: nat, a: nat)
    requires len > 0 && data + len <= TWO32 && a in Denotes(OneExtent(data, len))
    ensures a >= data
  {
    var sg := OneExtent(data, len);
    var i :| 0 <= i < |Denotes(sg)| && Denotes(sg)[i] == a;
    assert Total(sg) == len + Total(sg[1..]);
    assert AddrAt(sg, i) == data + i;
  }

  // ----- A large buffer off a dword boundary ---------------------------------------------

  lemma OneExtentIs(data: nat, len: nat, ps: nat)
    requires len > 0 && data + len <= TWO32 && ps > 0
    ensures var sg := OneExtent(data, len);
      sg == [Extent(data, len)] && WellFormed(sg, ps) && Total(sg) == len && Denotes(sg) == Span(data, len) && Distinct(Denotes(sg))
  {
    var sg := OneExtent(data, len);
    assert Total(sg) == len + Total(sg[1..]);
    forall i | 0 <= i < len
      ensures Denotes(sg)[i] == data + i
    {
      assert AddrAt(sg, i) == data + i;
    }
  }

  /** A read of 128 KiB into a buffer two bytes off a dword. */
  function OffDword(): Request {
    Request(0, CMD_READ, 0, 0, 0x2_0000, 0x100_0002, OneExtent(0x100_0002, 0x2_0000), seq(0x2_0000, _ => 0))
  }

  /** The driver accepts it, as a client's own buffer, and the controller can only fail it. */
  lemma OffDwordFails()
    ensures var cfg, s, r := SomeConfig(), Init(map[], map[]), OffDword();
      && Shape(cfg, s) && ClientBuffer(cfg, s, r, false) && Described(cfg, r)
      && var (rc, s') := SubmitNoRing(cfg, s, r, false, WILLING);
      && rc == Submitted && |s'.unpublished| == 1 && s'.unpublished[0].opcode == OP_READ
      && forall f :: Executable(cfg, s'.mem, s'.unpublished[0], f) ==> !f.ok
  {
    hide *;
    var cfg, s, r := SomeConfig(), Init(map[], map[]), OffDword();
    OffDwordBuffer();
    AcceptableIsSubmitted(cfg, s, r, false);
    SubmittedDecodes(cfg, s, r, false, WILLING);
    ReadsStayReads(cfg, s, r);
    var s' := SubmitNoRing(cfg, s, r, false, WILLING).1;
    DecodingIs(cfg, s, s', FindFree(s.slots).value);
    OnlyFailure(cfg, s'.mem, s'.unpublished[0]);
  }

  lemma OffDwordBuffer()
    ensures var cfg, s, r := SomeConfig(), Init(map[], map[]), OffDword();
      && Shape(cfg, s) && cfg.ps > 0 && cfg.bs > 0 && ClientBuffer(cfg, s, r, false) && Described(cfg, r) && Acceptable(cfg, r)
      && FindFree(s.slots).Some? && s.unpublished == [] && r.sg != [] && Rem(r.data, cfg.ps) == Rem(r.sg[0].phys, cfg.ps)
      && r.length > BOUNCE_SIZE && r.data % 4 != 0
  {
    SomeStart(map[], map[]);
    var cfg, s, r := SomeConfig(), Init(map[], map[]), OffDword();
    OneExtentIs(0x100_0002, 0x2_0000, cfg.ps);
    forall a | a in Denotes(r.sg)
      ensures !DriverOwned(cfg, a)
    {
      InOneExtent(0x100_0002, 0x2_0000, a);
      SomeApart(a);
    }
    SomeFree(s.slots, 0);
    hide DriverOwned, Layout, Denotes, FindFree;
  }

  lemma DecodingIs(cfg: Config, s: Sys, s': Sys, k: nat)
    requires cfg.ps > 0 && Decoding(cfg, s, s', k, None) && s.unpublished == []
    ensures |s'.unpublished| == 1 && Pages(cfg, s'.mem, s'.unpublished[0]) == None
  {
    hide Pages;
  }

  lemma OnlyFailure(cfg: Config, m: Mem, e: Sqe)
    requires cfg.ps > 0 && Pages(cfg, m, e) == None && e.opcode == OP_READ
    ensures forall f :: Executable(cfg, m, e, f) ==> !f.ok
  {
    hide Pages;
  }

  lemma ReadsStayReads(cfg: Config, s: Sys, r: Request)
    requires Shape(cfg, s) && Described(cfg, r) && SubmitNoRing(cfg, s, r, false, WILLING).0 == Submitted
    ensures var s' := SubmitNoRing(cfg, s, r, false, WILLING).1;
      |s'.unpublished| == |s.unpublished| + 1 && s'.unpublished[|s.unpublished|].opcode == OP_READ
  {
    ValidateExact(Offset(r), r.length, r.data != 0, cfg.bs);
    hide Bounce, Direct, BounceIn, Described, Layout, FindFree;
  }

  // ----- A chunk that wraps --------------------------------------------------------------

  /** CMD_READ of 3 MiB from 1 MiB below 4 GiB on, into a page-aligned buffer. */
  function LongRead(): Request {
    Request(0, CMD_READ, 0xFFF0_0000, 0, 0x30_0000, 0x100_0000, OneExtent(0x100_0000, 0x30_0000), seq(0x30_0000, _ => 0))
  }

  const TWO_MIB: nat := 0x20_0000

  /** The prompt controller answers each chunk before the second poll. */
  function PromptChunk(): ChunkEnv {
    ChunkEnv(WILLING, WILLING, [], [ServeTurn(1), []])
  }

  function PromptChunks(): nat -> ChunkEnv {
    (d: nat) => PromptChunk()
  }

  /** A chunk at the head of an idle pipeline is done. */
  lemma PromptlyDone(cfg: Config, s: Sys, c: Request)
    requires Shape(cfg, s) && Ready(cfg, s, c, false) && Described(cfg, c) && Count(s) == 0 && Serviceable(cfg, c)
    ensures var (end, s') := OneChunk(cfg, s, c, false, PromptChunk());
      end == ChunkDone && Count(s') == 0 && Absent(s.slots, c.id)
  {
    hide *;
    IdlePipeline(cfg, s, c);
    ReadyBuffer(cfg, s, c, false);
    var k, e := Begun(cfg, s, c, false);
    PromptlySubmitted(cfg, s, c, k, e);
    var s1 := SubmitPatiently(cfg, s, c, false, PromptChunk()).1;
    ShapeSize(cfg, s1);
    FinishChunkIs(cfg, s1, k, PromptChunk().doneScript);
    PromptlyAnswered(cfg, s1, k, e);
  }

  lemma IdlePipeline(cfg: Config, s: Sys, c: Request)
    requires Shape(cfg, s) && Ready(cfg, s, c, false) && Count(s) == 0
    ensures DataInv(cfg, s) && Matched(s) && Absent(s.slots, c.id)
  {
    GoodParts(cfg, s, Denotes(c.sg), true);
    NobodyWaits(cfg, s);
    hide Good, DataInv, Matched;
  }

  /** Submission of a chunk to an idle pipeline. */
  lemma PromptlySubmitted(cfg: Config, s: Sys, c: Request, k: nat, e: Sqe)
    requires Shape(cfg, s) && Described(cfg, c) && Count(s) == 0 && Serviceable(cfg, c) && k < MAX_INFLIGHT == |s.slots| && Matched(s)
    requires var s1 := SubmitNoRing(cfg, s, c, false, WILLING).1;
      && |s1.slots| == MAX_INFLIGHT && s1.unpublished == [e] && Count(s1) == 1 && e.cid == k + 1 && Pages(cfg, s1.mem, e).Some?
      && s1.slots == s.slots[k := s1.slots[k]] && s1.slots[k].Busy? && s1.slots[k].req == c
    ensures var (rc, s1) := SubmitPatiently(cfg, s, c, false, PromptChunk());
      && rc == Submitted && |s1.slots| == MAX_INFLIGHT && s1.unpublished == [] && s1.published == [e] && Count(s1) == 1 && e.cid == k + 1
      && Feasible(cfg, s1.mem, e) && s1.slots[k].Busy? && s1.slots[k].req == c && FindRequest(s1.slots, c.id) == Some(k)
      && OneChunk(cfg, s, c, false, PromptChunk()) == FinishChunk(cfg, s1, k, PromptChunk().doneScript)
  {
    NobodyWaits(cfg, s);
    assert FindFree(s.slots).Some? by { SomeFree(s.slots, k); }
    AcceptableIsSubmitted(cfg, s, c, false);
    ReadsStayReads(cfg, s, c);
    var s1 := SubmitNoRing(cfg, s, c, false, WILLING).1;
    hide SubmitNoRing, Shape, Described, Pages, Serviceable, FinishChunk, FindFree, Matched;
    assert SubmitPatiently(cfg, s, c, false, PromptChunk()) == (Submitted, RingSQ(s1));
    FindsOnly(s1.slots, k, 0);
  }

  /** Its answer. */
  lemma PromptlyAnswered(cfg: Config, s: Sys, k: nat, e: Sqe)
    requires Shape(cfg, s) && k < MAX_INFLIGHT == |s.slots| && s.slots[k].Busy? && s.unpublished == [] && s.published == [e]
    requires Count(s) == 1 && e.cid == k + 1 && Feasible(cfg, s.mem, e)
    ensures var (end, s') := FinishChunk(cfg, s, k, PromptChunk().doneScript); end == ChunkDone && Count(s') == 0
  {
    var t, script := Suppressed(s, k), PromptChunk().doneScript;
    SuppressedShape(cfg, s, k);
    ServeMany1(cfg, t, e);
    var t1 := Elapse(cfg, t, ServeTurn(1));
    HarvestsOne(cfg, t1, k);
    var t2 := Harvest(cfg, t1);
    FinishChunkIs(cfg, s, k, script);
    hide Shape, FinishChunk, Elapse, ServeTurn, Results, Feasible;
    assert Harvest(cfg, t) == t;
    hide Harvest;
    assert script[1..] == [[]];
    assert AwaitDone(cfg, t1, k, [[]]) == (true, t2);
    assert AwaitDone(cfg, t, k, script) == AwaitDone(cfg, t1, k, script[1..]);
  }

  lemma SuppressedShape(cfg: Config, s: Sys, k: nat)
    requires Shape(cfg, s) && k < MAX_INFLIGHT == |s.slots| && s.slots[k].Busy?
    ensures Shape(cfg, Suppressed(s, k)) && Suppressed(s, k).slots[k].Busy?
  {
    hide Described, Layout;
  }

  lemma ServeMany1(cfg: Config, s: Sys, e: Sqe)
    requires Shape(cfg, s) && s.published == [e] && Count(s) == 1 && Feasible(cfg, s.mem, e)
    ensures var s' := Elapse(cfg, s, ServeTurn(1));
      && Quiescent(s') && s'.published == [] && s'.unpublished == [] && s'.slots == s.slots && s'.outcomes == s.outcomes
      && |s'.posted| == 1 && s'.posted[0].cid == e.cid && s'.posted[0].ok
  {
    ServeOne(cfg, s);
    var a := Happen(cfg, s, DoFetch);
    var b := Happen(cfg, a, DoExecute(0, SUCCESS));
    var c := Happen(cfg, b, DoPost(0));
    hide Shape, Happen, Feasible;
    var turn := ServeTurn(1);
    assert ServeTurn(0) == [];
    assert turn[1..][1..][1..] == [];
    assert Elapse(cfg, s, turn) == Elapse(cfg, a, turn[1..]);
    assert Elapse(cfg, a, turn[1..]) == Elapse(cfg, b, turn[1..][1..]);
    assert Elapse(cfg, b, turn[1..][1..]) == Elapse(cfg, c, []);
  }

  lemma HarvestsOne(cfg: Config, s: Sys, k: nat)
    requires Shape(cfg, s) && k < MAX_INFLIGHT == |s.slots| && s.slots[k].Busy? && Count(s) == |s.posted| == 1
    requires s.posted[0].cid == k + 1 && s.posted[0].ok
    ensures var s', id := Harvest(cfg, s), s.slots[k].req.id;
      && |s'.slots| == MAX_INFLIGHT && s'.slots[k].Free? && Count(s') == 0
      && var rs := Results(s'.outcomes, id); rs != [] && rs[|rs| - 1].ok
  {
    HeadHandsOver(cfg, s);
    HarvestedQueues(cfg, s);
    HarvestPosted(cfg, s);
    hide Shape, HarvestOne;
    var s1 := HarvestOne(cfg, s);
    assert Harvest(cfg, s) == s1;
    assert s1.outcomes[..|s.outcomes|] == s.outcomes;
  }

  lemma LongReadFits(cfg: Config, s: Sys)
    requires cfg == SomeConfig() && s == Init(map[], map[])
    ensures Shape(cfg, s) && cfg.ps > 0 && |Denotes(LongRead().sg)| == LongRead().length == |LongRead().payload|
    ensures Consistent(cfg.ps, LongRead(), OneExtent) && Head(cfg, s, LongRead(), false, 0) && Matched(s) && Count(s) == 0
  {
    SomeStart(map[], map[]);
    var r := LongRead();
    OneExtentIs(0x100_0000, 0x30_0000, cfg.ps);
    forall off: nat, n: nat | n > 0 && off + n <= r.length
      ensures Part(cfg.ps, r, OneExtent, off, n)
    {
      OneExtentIs(0x100_0000 + off, n, cfg.ps);
      assert Span(0x100_0000 + off, n) == Span(0x100_0000, 0x30_0000)[off..off + n];
    }
    forall a | a in Denotes(r.sg)
      ensures !DriverOwned(cfg, a)
    {
      InOneExtent(0x100_0000, 0x30_0000, a);
      SomeApart(a);
    }
    assert Safe(cfg, s.slots, Denotes(r.sg), true);
    assert Denotes(r.sg)[0..] == Denotes(r.sg);
    hide DataInv, AllFaithful, Disjoint, Safe, Denotes, Layout;
  }

  /** Where its chunks go: the second one to 1 MiB instead of 4 GiB + 1 MiB. */
  lemma LongReadChunks(cfg: Config)
    requires cfg == SomeConfig()
    ensures cfg.ps > 0 && cfg.bs > 0
    ensures forall done :: done == 0 || done == TWO_MIB ==> Serviceable(cfg, Chunk(LongRead(), done, TWO_MIB, OneExtent))
    ensures var c0, c1 := Chunk(LongRead(), 0, TWO_MIB, OneExtent), Chunk(LongRead(), TWO_MIB, TWO_MIB, OneExtent);
      && c0.length == TWO_MIB && c1.length == 0x10_0000 && c0.id == c1.id == 0
      && Range(c0) == Span(0xFFF0_0000, TWO_MIB) && Range(c1) == Span(0x10_0000, 0x10_0000)
      && ChunkList(LongRead(), 0, TWO_MIB, OneExtent) == [c0, c1]
  {
    var r := LongRead();
    OneExtentIs(0x100_0000, TWO_MIB, cfg.ps);
    OneExtentIs(0x100_0000 + TWO_MIB, 0x10_0000, cfg.ps);
    var c0, c1 := Chunk(r, 0, TWO_MIB, OneExtent), Chunk(r, TWO_MIB, TWO_MIB, OneExtent);
    hide Denotes, Total, WellFormed;
    assert ChunkList(r, 0x30_0000, TWO_MIB, OneExtent) == [];
    assert ChunkList(r, TWO_MIB, TWO_MIB, OneExtent) == [c1];
  }

  lemma NobodyDisturbs(x: seq<nat>)
    ensures QuietFor(PromptChunks(), x)
  {
    assert ServeTurn(0) == [];
    assert ServeTurn(1) == [DoFetch, DoExecute(0, SUCCESS), DoPost(0)];
  }

  /** The run: both chunks succeed, dispatch_rw reports success, and what the second one has put into the
    * last mebibyte of the buffer is the disk from 1 MiB on. */
  lemma ChunkWrapsAround() returns (outs: seq<Outcome>)
    ensures var cfg, s, r := SomeConfig(), Init(map[], map[]), LongRead();
      && Shape(cfg, s) && Consistent(cfg.ps, r, OneExtent)
      && var (end, at, s') := ChunkLoop(cfg, s, r, false, TWO_MIB, 0, PromptChunks(), OneExtent);
      && end == ChunkDone && Results(s'.outcomes, r.id) == outs && |outs| == 2 && outs[1].ok
      && Denotes(outs[1].req.sg) == Denotes(r.sg)[TWO_MIB..0x30_0000]
      && Gather(outs[1].mem, Denotes(outs[1].req.sg)) == Gather(outs[1].before, Span(0x10_0000, 0x10_0000))
      && Range(r)[TWO_MIB..] == Span(0x1_0010_0000, 0x10_0000)
  {
    var cfg, s, r := SomeConfig(), Init(map[], map[]), LongRead();
    assert Range(r)[TWO_MIB..] == Span(0x1_0010_0000, 0x10_0000);
    LongReadFits(cfg, s);
    LongReadChunks(cfg);
    LongReadLoop(cfg, s);
    NobodyDisturbs(Denotes(r.sg));
    NothingHead(cfg, s, r);
    ChunkSlice(cfg, r, TWO_MIB, TWO_MIB, OneExtent);
    hide Shape, Consistent, Head, ChunkLoop, Denotes, Gather, Chunk, Matched, Good, QuietFor, ChunkList, Range;
    var (end, at, s') := ChunkLoop(cfg, s, r, false, TWO_MIB, 0, PromptChunks(), OneExtent);
    outs := ChunkLoopAdds(cfg, s, r, false, TWO_MIB, 0, PromptChunks(), OneExtent);
    assert Results(s.outcomes, r.id) == [];
    assert Results(s'.outcomes, r.id) == outs;
    LoopFaithful(cfg, s, r, false, TWO_MIB, PromptChunks(), OneExtent, outs);
    assert outs[1] in outs;
  }

  lemma NothingHead(cfg: Config, s: Sys, r: Request)
    requires Shape(cfg, s) && Head(cfg, s, r, false, 0) && Count(s) == 0
    ensures Good(cfg, s, [], false) && Absent(s.slots, r.id)
  {
    HeadMatched(cfg, s, r);
    NobodyWaits(cfg, s);
    hide Good, Head, Matched;
  }

  lemma LongReadLoop(cfg: Config, s: Sys)
    requires cfg == SomeConfig() && s == Init(map[], map[])
    ensures Shape(cfg, s) && Consistent(cfg.ps, LongRead(), OneExtent)
    ensures ChunkLoop(cfg, s, LongRead(), false, TWO_MIB, 0, PromptChunks(), OneExtent).0 == ChunkDone
  {
    assert LongRead().length == 0x30_0000;
    hide *;
    LongReadFits(cfg, s);
    LongReadChunks(cfg);
    PromptEnv(0);
    var s1 := LongReadStep(cfg, s, 0);
    var s2 := LongReadStep(cfg, s1, TWO_MIB);
    LoopOver(cfg, s2, LongRead(), false, TWO_MIB, PromptChunks(), OneExtent);
  }

  lemma LongReadStep(cfg: Config, s: Sys, done: nat) returns (s1: Sys)
    requires Shape(cfg, s) && cfg == SomeConfig() && (done == 0 || done == TWO_MIB) && Count(s) == 0
    requires |Denotes(LongRead().sg)| == 0x30_0000 == LongRead().length == |LongRead().payload|
    requires Consistent(cfg.ps, LongRead(), OneExtent) && Head(cfg, s, LongRead(), false, done)
    ensures var next := if done == 0 then TWO_MIB else 0x30_0000;
      && next <= LongRead().length && Shape(cfg, s1) && Count(s1) == 0 && Head(cfg, s1, LongRead(), false, next)
      && ChunkLoop(cfg, s, LongRead(), false, TWO_MIB, done, PromptChunks(), OneExtent)
         == ChunkLoop(cfg, s1, LongRead(), false, TWO_MIB, next, PromptChunks(), OneExtent)
  {
    var r, envs := LongRead(), PromptChunks();
    PromptEnv(done);
    hide *;
    LongReadChunks(cfg);
    NobodyDisturbs(Denotes(r.sg));
    QuietAt(envs, Denotes(r.sg));
    LoopUnfolds(cfg, s, r, false, TWO_MIB, done, envs, OneExtent);
    HeadReady(cfg, s, r, false, done, TWO_MIB, OneExtent);
    PromptlyDone(cfg, s, Chunk(r, done, TWO_MIB, OneExtent));
    HeadNext(cfg, s, r, false, done, TWO_MIB, envs(done), OneExtent);
    s1 := OneChunk(cfg, s, Chunk(r, done, TWO_MIB, OneExtent), false, envs(done)).1;
  }

  lemma PromptEnv(d: nat)
    ensures PromptChunks()(d) == PromptChunk() && TWO_MIB == 0x20_0000
  {
  }

  // ----- A late completion ---------------------------------------------------------------

  /** A cache flush that a SCSI command asks for. */
  function SlowFlush(): Request {
    Request(1, HD_SCSICMD, 0, 0, 0, 0, [], [])
  }

  /** A disk whose first byte is 1; everything else reads as 0. */
  const MARKED: Mem := map[0 := 1]

  /** The only poll there is time for lets the controller fetch the flush, and no more. */
  const ONLY_FETCHED: seq<Turn> := [[DoFetch]]

  /** Later it completes what it has fetched. */
  const LATE: Turn := [DoExecute(0, Effect(true, [], MARKED)), DoPost(0)]

  /** SubmitAndWait gives up on the flush. */
  lemma FlushGivenUp(cfg: Config, s: Sys) returns (s1: Sys)
    requires cfg == SomeConfig() && s == Init(map[], MARKED)
    ensures Shape(cfg, s) && SubmitAndWait(cfg, s, SlowFlush(), FLUSH_SQE, [], ONLY_FETCHED) == (NoAnswer, s1)
    ensures Shape(cfg, s1) && s1.slots == s.slots && Count(s1) == |s1.fetched| == 1 && s1.outcomes == []
    ensures s1.fetched[0].cid == 1 && s1.fetched[0].opcode == OP_FLUSH && s1.mem == map[] && s1.disk == MARKED
  {
    SomeStart(map[], MARKED);
    assert s.slots[0].Free?;
    assert FindFree(s.slots) == Some(0);
    var t := RingSQ(SubmitControl(s, SlowFlush(), FLUSH_SQE, true).1);
    hide FindFree, Layout, Described;
    assert t.slots == s.slots[0 := Busy(SlowFlush(), false, NoData, true)];
    assert Shape(cfg, t);
    var t1 := Fetch(t);
    assert Elapse(cfg, t, [DoFetch]) == t1 by { assert Happen(cfg, t, DoFetch) == t1; }
    assert Harvest(cfg, t) == t;
    assert ONLY_FETCHED[1..] == [];
    assert AwaitDone(cfg, t1, 0, []) == (false, t1);
    assert AwaitDone(cfg, t, 0, ONLY_FETCHED) == (false, t1);
    s1 := Pipeline.GiveUp(t1, 0);
    assert s1.slots == s.slots;
    WaitUnfolds(cfg, s, SlowFlush(), FLUSH_SQE, [], ONLY_FETCHED);
    AnswerIs(cfg, t, 0, ONLY_FETCHED);
  }

  /** The next read takes the freed slot and with it the flush's cid. */
  lemma SlotReused(cfg: Config, s: Sys) returns (s': Sys)
    requires cfg == SomeConfig() && Shape(cfg, s) && s.slots == Init(map[], MARKED).slots && s.mem == map[]
    ensures Described(cfg, BlockRead(0)) && SubmitNoRing(cfg, s, BlockRead(0), false, WILLING) == (Submitted, s')
    ensures Shape(cfg, s') && |s'.slots| == MAX_INFLIGHT && s'.slots[0] == Busy(BlockRead(0), false, Bounced, false) && s'.mem == map[]
    ensures |s'.unpublished| == |s.unpublished| + 1
    ensures s'.published == s.published && s'.fetched == s.fetched && s'.done == s.done && s'.posted == s.posted
    ensures s'.outcomes == s.outcomes && s'.disk == s.disk
  {
    var r := BlockRead(0);
    BlockSound(cfg, 0);
    assert s.slots[0].Free?;
    assert FindFree(s.slots) == Some(0);
    BlockAccepted(cfg, r);
    AcceptableIsSubmitted(cfg, s, r, false);
    SubmitPlaces(cfg, s, r, false, WILLING);
    var bounced, mapped, k, lba, nlb := SubmitCases(cfg, s, r, false, WILLING);
    BouncedIs(cfg, s, k, r, false, lba, nlb);
    s' := SubmitNoRing(cfg, s, r, false, WILLING).1;
    hide SubmitNoRing, SubmitBounced, Shape, Described, FindFree, Denotes;
  }

  /** The flush's completion arrives, and is taken for the read's. */
  lemma TakenForAnother(cfg: Config, s: Sys) returns (s': Sys)
    requires cfg == SomeConfig() && Shape(cfg, s) && |s.slots| == MAX_INFLIGHT && s.slots[0] == Busy(BlockRead(0), false, Bounced, false)
    requires s.mem == map[] && s.disk == MARKED && s.done == [] && s.posted == [] && s.outcomes == []
    requires |s.fetched| == 1 && s.fetched[0].cid == 1 && s.fetched[0].opcode == OP_FLUSH
    ensures s' == Harvest(cfg, Elapse(cfg, s, LATE)) && s'.unpublished == s.unpublished
    ensures |s'.outcomes| == 1 && var o := s'.outcomes[0];
      && o.req == BlockRead(0) && o.ok && o.replied && !o.isWrite && !o.path.NoData? && o.before == MARKED && cfg.bounce != []
      && o.mem == Scatter(map[], Denotes(o.req.sg), Gather(map[], Span(cfg.bounce[0], 512)))
  {
    var b := LateArrives(cfg, s);
    hide Elapse, Layout, Described, Denotes, Pages, WellFormed, Total;
    s' := HarvestOne(cfg, b);
    assert Harvest(cfg, b) == s';
  }

  lemma LateArrives(cfg: Config, s: Sys) returns (b: Sys)
    requires Shape(cfg, s) && s.disk == MARKED && s.done == [] && s.posted == []
    requires |s.fetched| == 1 && s.fetched[0].cid == 1 && s.fetched[0].opcode == OP_FLUSH
    ensures b == Elapse(cfg, s, LATE) && b.posted == [Cqe(1, true, MARKED, MARKED)]
    ensures b.slots == s.slots && b.mem == s.mem && b.outcomes == s.outcomes && b.unpublished == s.unpublished
  {
    ShapeSize(cfg, s);
    var f := Effect(true, [], MARKED);
    assert Executable(cfg, s.mem, s.fetched[0], f);
    var a := Execute(cfg, s, 0, f);
    b := Post(a, 0);
    hide Layout, Described, Pages;
    assert Happen(cfg, s, DoExecute(0, f)) == a;
    assert Happen(cfg, a, DoPost(0)) == b;
    hide Happen, Shape;
    assert LATE[0] == DoExecute(0, f) && LATE[1..] == [DoPost(0)] && LATE[1..][1..] == [];
    assert Elapse(cfg, b, []) == b;
    assert Elapse(cfg, a, [DoPost(0)]) == Elapse(cfg, b, LATE[1..][1..]);
    assert Elapse(cfg, s, LATE) == Elapse(cfg, a, LATE[1..]);
  }

  /** The run: SubmitAndWait gives up on a flush, a read takes its slot, the flush completes -- and the read
    * is replied as successful although its own command has not even been published, with a buffer
    * that does not hold the disk range. */
  lemma LateCompletionMisleads()
    ensures var cfg, s := SomeConfig(), Init(map[], MARKED);
      && Shape(cfg, s) && Described(cfg, BlockRead(0))
      && var (end, s1) := SubmitAndWait(cfg, s, SlowFlush(), FLUSH_SQE, [], ONLY_FETCHED);
      && end == NoAnswer
      && var (rc, s2) := SubmitNoRing(cfg, s1, BlockRead(0), false, WILLING);
      && rc == Submitted
      && var s3 := Harvest(cfg, Elapse(cfg, s2, LATE));
      && |s3.unpublished| == 1 && |s3.outcomes| == 1
      && var o := s3.outcomes[0]; o.req == BlockRead(0) && o.ok && o.replied && !Faithful(o)
  {
    var cfg, s := SomeConfig(), Init(map[], MARKED);
    assert cfg.bs == 512;
    hide *;
    var s1 := FlushGivenUp(cfg, s);
    var s2 := SlotReused(cfg, s1);
    NothingQueued(s1);
    var s3 := TakenForAnother(cfg, s2);
    StaleRead(s3.outcomes[0], cfg.bounce[0]);
  }

  lemma NothingQueued(s: Sys)
    requires Count(s) == |s.fetched|
    ensures s.unpublished == [] && s.published == [] && s.done == [] && s.posted == []
  {
  }

  lemma StaleRead(o: Outcome, bounce: nat)
    requires o.req == BlockRead(0) && o.ok && !o.isWrite && !o.path.NoData? && o.before == MARKED && |Denotes(o.req.sg)| == 512
    requires o.mem == Scatter(map[], Denotes(o.req.sg), Gather(map[], Span(bounce, 512)))
    ensures !Faithful(o)
  {
    var x := Denotes(o.req.sg);
    OneExtentIs(0x100_0000, 512, 4096);
    GatherScattered(map[], x, Gather(map[], Span(bounce, 512)));
    assert Gather(o.mem, x)[0] == 0;
    assert Gather(o.before, Range(o.req))[0] == Peek(MARKED, 0) == 1;
  }
}
