/** What a chunked transfer does to the disk and to the caller's buffer.
  *
  * Module Dispatch says which results the chunk loop collects; here each of them is shown to be
  * faithful, because while the loop runs nobody touches the buffer of the request it serves. */
module ChunkEffects {
  import opened Base
  import opened Memory
  import opened Prp
  import opened Commands
  import opened Pipeline
  import opened Matching
  import opened EndToEnd
  import opened Waiting
  import opened Chunking
  import opened Dispatch

  /** No part of the driver's own memory and no read in flight shares an address with `x`, and, if
    * `all`, no write does either. */
  ghost predicate Safe(cfg: Config, slots: seq<Slot>, x: seq<nat>, all: bool)
    requires Layout(cfg)
  {
    && (forall a :: a in x ==> !DriverOwned(cfg, a))
    && forall j :: 0 <= j < |slots| ==> Avoids(slots[j], x, all)
  }

  predicate Avoids(b: Slot, x: seq<nat>, all: bool) {
    MovesData(b) && (all || !b.isWrite) ==> Apart(Denotes(b.req.sg), x)
  }

  /** All is well, and `x` is safe. */
  ghost predicate Good(cfg: Config, s: Sys, x: seq<nat>, all: bool) {
    Shape(cfg, s) && Disjoint(cfg) && DataInv(cfg, s) && AllFaithful(s) && Safe(cfg, s.slots, x, all)
  }

  /** Everything still is, and memory at `x` has not changed. */
  ghost predicate Left(cfg: Config, s: Sys, s': Sys, x: seq<nat>, all: bool) {
    Good(cfg, s', x, all) && Gather(s'.mem, x) == Gather(s.mem, x)
  }

  predicate QuietStep(st: Step, x: seq<nat>) {
    st.ClientStore? ==> st.addr !in x
  }

  ghost predicate QuietTurn(turn: Turn, x: seq<nat>) {
    forall st :: st in turn ==> QuietStep(st, x)
  }

  /** No client stores at `x`. */
  ghost predicate Quiet(script: seq<Turn>, x: seq<nat>) {
    forall t :: t in script ==> QuietTurn(t, x)
  }

  // ----- One step ------------------------------------------------------------------------

  lemma TargetElsewhere(cfg: Config, s: Sys, k: nat, x: seq<nat>, all: bool)
    requires Shape(cfg, s) && Safe(cfg, s.slots, x, all) && k < MAX_INFLIGHT && MovesData(s.slots[k]) && !s.slots[k].isWrite
    requires s.slots[k].path.Bounced? ==> s.slots[k].req.length <= BOUNCE_SIZE
    ensures Apart(Target(cfg, k, s.slots[k]), x)
  {
    assert Avoids(s.slots[k], x, all);
    if s.slots[k].path.Bounced? {
      OwnedApart(cfg, k, cfg.bounce[k], s.slots[k].req.length, x);
    }
  }

  lemma ExecuteLeaves(cfg: Config, s: Sys, k: nat, e: Sqe, f: Effect, x: seq<nat>, all: bool)
    requires Shape(cfg, s) && k < MAX_INFLIGHT && s.slots[k].Busy? && Owns(cfg, s.slots, k)
    requires SqeFits(cfg, s.mem, k, s.slots[k], e) && Executable(cfg, s.mem, e, f) && Safe(cfg, s.slots, x, all)
    ensures Gather(MemAfter(cfg, s.mem, s.disk, e, f), x) == Gather(s.mem, x)
  {
    if e.opcode == OP_READ && Pages(cfg, s.mem, e).Some? {
      TargetElsewhere(cfg, s, k, x, all);
      var data := if f.ok then Gather(s.disk, DiskSpan(cfg, e)) else f.junk;
      assert Pages(cfg, s.mem, e).value == Target(cfg, k, s.slots[k]);
      hide Safe, Owns, Layout, Described, Target, Pages;
      GatherElsewhere(s.mem, Target(cfg, k, s.slots[k]), data, x);
    }
  }

  lemma HarvestStepLeaves(cfg: Config, s: Sys, k: nat, ok: bool, x: seq<nat>, all: bool)
    requires Shape(cfg, s) && k < MAX_INFLIGHT && s.slots[k].Busy? && Safe(cfg, s.slots, x, all)
    ensures Gather(BounceOut(cfg, s.mem, k, s.slots[k], ok), x) == Gather(s.mem, x)
  {
    var b := s.slots[k];
    assert Avoids(b, x, all);
    if b.path.Bounced? && !b.isWrite && ok && b.req.data != 0 {
      hide Safe, Layout;
      GatherElsewhere(s.mem, Denotes(b.req.sg), Gather(s.mem, Span(cfg.bounce[k], b.req.length)), x);
    }
  }

  lemma FreeSafe(cfg: Config, slots: seq<Slot>, k: nat, x: seq<nat>, all: bool)
    requires Layout(cfg) && Safe(cfg, slots, x, all) && k < |slots|
    ensures Safe(cfg, slots[k := Free], x, all)
  {
    assert Avoids(Free, x, all);
    hide Avoids, DriverOwned;
  }

  lemma HarvestOneLeaves(cfg: Config, s: Sys, x: seq<nat>, all: bool)
    requires Good(cfg, s, x, all) && s.posted != []
    ensures Left(cfg, s, HarvestOne(cfg, s), x, all)
  {
    hide *;
    GoodParts(cfg, s, x, all);
    var k := s.posted[0].cid - 1;
    HeadIsMatched(s);
    HarvestIs(cfg, s);
    HarvestStepLeaves(cfg, s, k, s.posted[0].ok, x, all);
    FreeSafe(cfg, s.slots, k, x, all);
    HarvestStep(cfg, s);
    LeftWhole(cfg, s, HarvestOne(cfg, s), x, all);
  }

  lemma GoodParts(cfg: Config, s: Sys, x: seq<nat>, all: bool)
    requires Good(cfg, s, x, all)
    ensures Shape(cfg, s) && Disjoint(cfg) && DataInv(cfg, s) && AllFaithful(s) && Safe(cfg, s.slots, x, all) && Matched(s) && Layout(cfg)
    ensures |s.slots| == MAX_INFLIGHT
  {
    hide Matched, AllFaithful, Safe;
  }

  lemma LeftWhole(cfg: Config, s: Sys, s': Sys, x: seq<nat>, all: bool)
    requires Shape(cfg, s') && Disjoint(cfg) && DataInv(cfg, s') && AllFaithful(s') && Layout(cfg) && Safe(cfg, s'.slots, x, all)
    requires Gather(s'.mem, x) == Gather(s.mem, x)
    ensures Left(cfg, s, s', x, all)
  {
  }

  lemma LeftSame(cfg: Config, s: Sys, x: seq<nat>, all: bool)
    requires Good(cfg, s, x, all)
    ensures Left(cfg, s, s, x, all)
  {
  }

  lemma LeftThen(cfg: Config, s0: Sys, s1: Sys, s2: Sys, x: seq<nat>, all: bool)
    requires Left(cfg, s0, s1, x, all) && Left(cfg, s1, s2, x, all)
    ensures Left(cfg, s0, s2, x, all)
  {
  }

  lemma LeftGood(cfg: Config, s: Sys, s': Sys, x: seq<nat>, all: bool)
    requires Left(cfg, s, s', x, all)
    ensures Good(cfg, s', x, all) && Shape(cfg, s') && |s'.slots| == MAX_INFLIGHT && Gather(s'.mem, x) == Gather(s.mem, x)
  {
    hide DataInv, AllFaithful, Safe;
  }

  lemma HarvestStep(cfg: Config, s: Sys)
    requires Shape(cfg, s) && Disjoint(cfg) && DataInv(cfg, s) && AllFaithful(s) && s.posted != []
    ensures Shape(cfg, HarvestOne(cfg, s)) && DataInv(cfg, HarvestOne(cfg, s)) && AllFaithful(HarvestOne(cfg, s))
  {
    hide DataInv, Shape, AllFaithful, HarvestOne;
    assert Enabled(cfg, s, DoHarvest);
    StepFits(cfg, s, DoHarvest);
    StepFaithful(cfg, s, DoHarvest);
  }

  lemma HappenLeaves(cfg: Config, s: Sys, st: Step, x: seq<nat>, all: bool)
    requires Good(cfg, s, x, all) && QuietStep(st, x)
    ensures Shape(cfg, s) && Left(cfg, s, Happen(cfg, s, st), x, all)
  {
    hide *;
    GoodParts(cfg, s, x, all);
    HappenStep(cfg, s, st);
    var s' := Happen(cfg, s, st);
    HappenMemory(cfg, s, st, x, all);
    LeftWhole(cfg, s, s', x, all);
  }

  lemma HappenStep(cfg: Config, s: Sys, st: Step)
    requires Shape(cfg, s) && Disjoint(cfg) && DataInv(cfg, s) && AllFaithful(s)
    ensures var s' := Happen(cfg, s, st);
      Shape(cfg, s') && DataInv(cfg, s') && AllFaithful(s') && s'.slots == s.slots
  {
    hide DataInv, Shape, AllFaithful, Next, Enabled, Disjoint;
    if Outside(st) && Enabled(cfg, s, st) {
      StepFits(cfg, s, st);
      StepFaithful(cfg, s, st);
    }
  }

  lemma HappenMemory(cfg: Config, s: Sys, st: Step, x: seq<nat>, all: bool)
    requires Shape(cfg, s) && DataInv(cfg, s) && Safe(cfg, s.slots, x, all) && QuietStep(st, x)
    ensures Gather(Happen(cfg, s, st).mem, x) == Gather(s.mem, x)
  {
    if st.DoExecute? && Enabled(cfg, s, st) {
      FetchedFits(cfg, s, st.i);
      ExecuteIs(cfg, s, st.i, st.effect);
      hide DataInv, Safe, Executable, MemAfter, SqeFits, Owns, Execute;
      ExecuteLeaves(cfg, s, s.fetched[st.i].cid - 1, s.fetched[st.i], st.effect, x, all);
    } else if st.ClientStore? {
      hide DataInv, Safe, ClientMay;
      assert forall i :: 0 <= i < |x| ==> x[i] in x;
    } else {
      hide DataInv, Safe, Executable;
    }
  }

  // ----- Many steps ----------------------------------------------------------------------

  lemma {:induction false} HarvestLeft(cfg: Config, s: Sys, x: seq<nat>, all: bool)
    requires Good(cfg, s, x, all) && Shape(cfg, s)
    ensures Left(cfg, s, Harvest(cfg, s), x, all)
    decreases |s.posted|
  {
    hide Good, Left, Shape, HarvestOne;
    LeftSame(cfg, s, x, all);
    if s.posted != [] {
      var s1 := HarvestOne(cfg, s);
      HarvestOneLeaves(cfg, s, x, all);
      LeftGood(cfg, s, s1, x, all);
      HarvestLeft(cfg, s1, x, all);
      LeftThen(cfg, s, s1, Harvest(cfg, s), x, all);
    }
  }

  lemma {:induction false} ElapseLeft(cfg: Config, s: Sys, turn: Turn, x: seq<nat>, all: bool)
    requires Good(cfg, s, x, all) && Shape(cfg, s) && QuietTurn(turn, x)
    ensures Left(cfg, s, Elapse(cfg, s, turn), x, all)
    decreases |turn|
  {
    hide Good, Left, Shape, Happen, QuietStep;
    LeftSame(cfg, s, x, all);
    if turn != [] {
      var s1 := Happen(cfg, s, turn[0]);
      HappenLeaves(cfg, s, turn[0], x, all);
      LeftGood(cfg, s, s1, x, all);
      ElapseLeft(cfg, s1, turn[1..], x, all);
      LeftThen(cfg, s, s1, Elapse(cfg, s, turn), x, all);
    }
  }

  lemma PollLeft(cfg: Config, s: Sys, turn: Turn, x: seq<nat>, all: bool)
    requires Good(cfg, s, x, all) && Shape(cfg, s) && QuietTurn(turn, x)
    ensures Left(cfg, s, Elapse(cfg, Harvest(cfg, s), turn), x, all)
  {
    hide Good, Left, Shape, Harvest, Elapse, QuietTurn;
    var s1 := Harvest(cfg, s);
    HarvestLeft(cfg, s, x, all);
    LeftGood(cfg, s, s1, x, all);
    ElapseLeft(cfg, s1, turn, x, all);
    LeftThen(cfg, s, s1, Elapse(cfg, s1, turn), x, all);
  }

  lemma QuietRest(script: seq<Turn>, x: seq<nat>)
    requires Quiet(script, x) && script != []
    ensures Quiet(script[1..], x) && QuietTurn(script[0], x)
  {
    hide QuietTurn;
  }

  lemma {:induction false} AwaitSlotLeft(cfg: Config, s: Sys, script: seq<Turn>, x: seq<nat>, all: bool)
    requires Good(cfg, s, x, all) && Shape(cfg, s) && Quiet(script, x)
    ensures Left(cfg, s, AwaitSlot(cfg, s, script).1, x, all)
    decreases |script|
  {
    hide Good, Left, Shape, Harvest, Elapse, Quiet, QuietTurn, FindFree;
    LeftSame(cfg, s, x, all);
    if script != [] && FindFree(s.slots).None? {
      var s1 := Elapse(cfg, Harvest(cfg, s), script[0]);
      QuietRest(script, x);
      PollLeft(cfg, s, script[0], x, all);
      LeftGood(cfg, s, s1, x, all);
      AwaitSlotLeft(cfg, s1, script[1..], x, all);
      LeftThen(cfg, s, s1, AwaitSlot(cfg, s, script).1, x, all);
    }
  }

  lemma {:induction false} AwaitDoneLeft(cfg: Config, s: Sys, k: nat, script: seq<Turn>, x: seq<nat>, all: bool)
    requires Good(cfg, s, x, all) && Shape(cfg, s) && Quiet(script, x) && k < MAX_INFLIGHT
    ensures Left(cfg, s, AwaitDone(cfg, s, k, script).1, x, all)
    decreases |script|
  {
    hide Good, Left, Shape, Harvest, Elapse, Quiet, QuietTurn;
    LeftSame(cfg, s, x, all);
    if script != [] {
      var s1 := Harvest(cfg, s);
      HarvestLeft(cfg, s, x, all);
      LeftGood(cfg, s, s1, x, all);
      if s1.slots[k].Busy? {
        var s2 := Elapse(cfg, s1, script[0]);
        QuietRest(script, x);
        PollLeft(cfg, s, script[0], x, all);
        LeftGood(cfg, s, s2, x, all);
        AwaitDoneLeft(cfg, s2, k, script[1..], x, all);
        LeftThen(cfg, s, s2, AwaitDone(cfg, s, k, script).1, x, all);
      }
    }
  }

  // ----- Submission ----------------------------------------------------------------------

  lemma SubmitMemory(cfg: Config, s: Sys, c: Request, isWrite: bool, env: DmaEnv, x: seq<nat>)
    requires Shape(cfg, s) && Described(cfg, c) && forall a :: a in x ==> !DriverOwned(cfg, a)
    ensures Gather(SubmitNoRing(cfg, s, c, isWrite, env).1.mem, x) == Gather(s.mem, x)
  {
    hide DriverOwned;
    var bounced, mapped, k, lba, nlb := SubmitCases(cfg, s, c, isWrite, env);
    if bounced {
      BouncedMemory(cfg, s.mem, k, c, isWrite, x);
      hide BounceIn, Bounce, Described, Layout;
    } else if mapped {
      var data := DirectIsStore(s.mem, c.sg, cfg.ps, cfg.list[k]);
      OwnedApart(cfg, k, cfg.list[k], |data|, x);
      GatherElsewhere(s.mem, Span(cfg.list[k], |data|), data, x);
      hide Direct, Described, Layout;
    }
  }

  lemma BouncedMemory(cfg: Config, m: Mem, k: nat, c: Request, isWrite: bool, x: seq<nat>)
    requires Layout(cfg) && k < MAX_INFLIGHT && Described(cfg, c) && 0 < c.length <= BOUNCE_SIZE
    requires forall a :: a in x ==> !DriverOwned(cfg, a)
    ensures Gather(Bounce(BounceIn(cfg, m, k, c, isWrite), cfg.bounce[k], c.length, cfg.ps, cfg.list[k]).mem, x) == Gather(m, x)
  {
    hide DriverOwned, Bounce;
    var m1 := BounceIn(cfg, m, k, c, isWrite);
    if isWrite {
      OwnedApart(cfg, k, cfg.bounce[k], c.length, x);
      GatherElsewhere(m, Span(cfg.bounce[k], c.length), Gather(m, Denotes(c.sg)), x);
    }
    var data := BounceIsStore(cfg, m1, k, c.length);
    OwnedApart(cfg, k, cfg.list[k], |data|, x);
    GatherElsewhere(m1, Span(cfg.list[k], |data|), data, x);
  }

  lemma SubmitStep(cfg: Config, s: Sys, c: Request, isWrite: bool, env: DmaEnv)
    requires Shape(cfg, s) && Disjoint(cfg) && DataInv(cfg, s) && AllFaithful(s) && ClientBuffer(cfg, s, c, isWrite)
    ensures Described(cfg, c)
    ensures var s' := SubmitNoRing(cfg, s, c, isWrite, env).1;
      && DataInv(cfg, s') && AllFaithful(s') && Shape(cfg, RingSQ(s')) && DataInv(cfg, RingSQ(s')) && AllFaithful(RingSQ(s'))
  {
    hide DataInv, Shape, Disjoint, AllFaithful, SubmitNoRing, ClientBuffer;
    var st := DoSubmit(c, isWrite, env);
    assert Described(cfg, c) by { BufferDescribed(cfg, s, c, isWrite); }
    assert Enabled(cfg, s, st);
    StepFits(cfg, s, st);
    StepFaithful(cfg, s, st);
    var s' := SubmitNoRing(cfg, s, c, isWrite, env).1;
    StepFits(cfg, s', Publish);
    StepFaithful(cfg, s', Publish);
  }

  lemma BufferDescribed(cfg: Config, s: Sys, c: Request, isWrite: bool)
    requires Shape(cfg, s) && ClientBuffer(cfg, s, c, isWrite)
    ensures Described(cfg, c) && cfg.ps > 0 && Directed(c, isWrite)
  {
    hide DriverOwned, Described;
  }

  /** Submission leaves `x` alone; a read may not be for `x` itself. */
  lemma SubmitLeft(cfg: Config, s: Sys, c: Request, isWrite: bool, env: DmaEnv, x: seq<nat>, all: bool)
    requires Good(cfg, s, x, all) && Shape(cfg, s) && ClientBuffer(cfg, s, c, isWrite)
    requires (isWrite && !all) || Apart(Denotes(c.sg), x)
    ensures Described(cfg, c) && Left(cfg, s, Submit(cfg, s, c, isWrite, env).1, x, all)
  {
    hide *;
    GoodParts(cfg, s, x, all);
    SubmitStep(cfg, s, c, isWrite, env);
    SafeOwned(cfg, s.slots, x, all);
    SubmitMemory(cfg, s, c, isWrite, env, x);
    SubmitSafe(cfg, s, c, isWrite, env, x, all);
    var (rc, s') := SubmitNoRing(cfg, s, c, isWrite, env);
    SubmitUnfold(cfg, s, c, isWrite, env);
    LeftWhole(cfg, s, if rc == Submitted then RingSQ(s') else s', x, all);
  }

  lemma SubmitUnfold(cfg: Config, s: Sys, c: Request, isWrite: bool, env: DmaEnv)
    requires Shape(cfg, s) && Described(cfg, c)
    ensures var (rc, s') := SubmitNoRing(cfg, s, c, isWrite, env);
      && Submit(cfg, s, c, isWrite, env) == (rc, if rc == Submitted then RingSQ(s') else s')
      && RingSQ(s').mem == s'.mem && RingSQ(s').slots == s'.slots
  {
    hide SubmitNoRing;
  }

  lemma SafeOwned(cfg: Config, slots: seq<Slot>, x: seq<nat>, all: bool)
    requires Layout(cfg) && Safe(cfg, slots, x, all)
    ensures forall a :: a in x ==> !DriverOwned(cfg, a)
  {
    hide DriverOwned, Avoids;
  }

  lemma SubmitSafe(cfg: Config, s: Sys, c: Request, isWrite: bool, env: DmaEnv, x: seq<nat>, all: bool)
    requires Shape(cfg, s) && Described(cfg, c) && Safe(cfg, s.slots, x, all) && ((isWrite && !all) || Apart(Denotes(c.sg), x))
    ensures Safe(cfg, SubmitNoRing(cfg, s, c, isWrite, env).1.slots, x, all)
  {
    SubmitPlaces(cfg, s, c, isWrite, env);
    SubmitSlot(cfg, s, c, isWrite, env);
    hide SubmitNoRing, DriverOwned, Described, Layout;
    var (rc, s') := SubmitNoRing(cfg, s, c, isWrite, env);
    if rc == Submitted {
      var b := s'.slots[FindFree(s.slots).value];
      assert Avoids(b, x, all);
      hide Avoids;
    }
  }

  // ----- One chunk -----------------------------------------------------------------------

  /** A chunk that may be submitted: nobody else uses its part of the buffer, and for a write the
    * bytes are in place. */
  ghost predicate Ready(cfg: Config, s: Sys, c: Request, isWrite: bool) {
    && Good(cfg, s, Denotes(c.sg), !isWrite) && cfg.ps > 0 && Described(cfg, c) && Directed(c, isWrite) && Distinct(Denotes(c.sg))
    && (isWrite ==> Gather(s.mem, Denotes(c.sg)) == c.payload)
  }

  lemma ReadyBuffer(cfg: Config, s: Sys, c: Request, isWrite: bool)
    requires Ready(cfg, s, c, isWrite)
    ensures Shape(cfg, s) && ClientBuffer(cfg, s, c, isWrite) && Described(cfg, c)
  {
    hide DataInv, AllFaithful, Disjoint, DriverOwned, Described;
    forall i | 0 <= i < MAX_INFLIGHT && MovesData(s.slots[i])
      ensures (isWrite && s.slots[i].isWrite) || Apart(Denotes(c.sg), Denotes(s.slots[i].req.sg))
    {
      assert Avoids(s.slots[i], Denotes(c.sg), !isWrite);
    }
  }

  lemma ReadyStays(cfg: Config, s: Sys, s': Sys, c: Request, isWrite: bool)
    requires Ready(cfg, s, c, isWrite) && Left(cfg, s, s', Denotes(c.sg), !isWrite)
    ensures Ready(cfg, s', c, isWrite)
  {
    hide Good, Described;
  }

  lemma RingLeft(cfg: Config, s: Sys, x: seq<nat>, all: bool)
    requires Good(cfg, s, x, all)
    ensures Left(cfg, s, RingSQ(s), x, all)
  {
    hide *;
    GoodParts(cfg, s, x, all);
    ShapeSize(cfg, s);
    PublishFits(cfg, s);
    RingSame(s);
    LeftWhole(cfg, s, RingSQ(s), x, all);
  }

  lemma RingSame(s: Sys)
    ensures var s' := RingSQ(s);
      s'.mem == s.mem && s'.slots == s.slots && s'.outcomes == s.outcomes && (AllFaithful(s) ==> AllFaithful(s'))
  {
    hide Faithful;
  }

  lemma SubmitPatientlyLeft(cfg: Config, s: Sys, c: Request, isWrite: bool, env: ChunkEnv, x: seq<nat>, all: bool)
    requires Shape(cfg, s) && Good(cfg, s, x, all) && Ready(cfg, s, c, isWrite) && Described(cfg, c)
    requires (isWrite && !all) || Apart(Denotes(c.sg), x)
    requires Quiet(env.slotScript, x) && Quiet(env.slotScript, Denotes(c.sg))
    ensures Left(cfg, s, SubmitPatiently(cfg, s, c, isWrite, env).1, x, all)
  {
    ReadyGood(cfg, s, c, isWrite);
    hide Good, Left, Shape, Described, Ready, Submit, AwaitSlot, ClientBuffer, Quiet, RingSQ;
    var own := Denotes(c.sg);
    ReadyBuffer(cfg, s, c, isWrite);
    SubmitLeft(cfg, s, c, isWrite, env.dma, x, all);
    var (rc, s1) := Submit(cfg, s, c, isWrite, env.dma);
    if rc == NoSlot {
      NoSlotSame(cfg, s, c, isWrite, env.dma);
      WaitLeft(cfg, s, env.slotScript, x, all);
      WaitLeft(cfg, s, env.slotScript, own, !isWrite);
      var (freed, s2) := AwaitSlot(cfg, RingSQ(s), env.slotScript);
      if freed {
        ReadyStays(cfg, s, s2, c, isWrite);
        LeftGood(cfg, s, s2, x, all);
        ReadyBuffer(cfg, s2, c, isWrite);
        SubmitLeft(cfg, s2, c, isWrite, env.retry, x, all);
        LeftThen(cfg, s, s2, Submit(cfg, s2, c, isWrite, env.retry).1, x, all);
      }
    }
  }

  lemma ReadyGood(cfg: Config, s: Sys, c: Request, isWrite: bool)
    requires Ready(cfg, s, c, isWrite)
    ensures Good(cfg, s, Denotes(c.sg), !isWrite)
  {
    hide Good;
  }

  lemma NoSlotSame(cfg: Config, s: Sys, c: Request, isWrite: bool, env: DmaEnv)
    requires Shape(cfg, s) && Described(cfg, c) && Submit(cfg, s, c, isWrite, env).0 == NoSlot
    ensures Submit(cfg, s, c, isWrite, env).1 == s
  {
    NoSlotMeans(cfg, s, c, isWrite, env);
    hide SubmitNoRing;
  }

  lemma WaitLeft(cfg: Config, s: Sys, script: seq<Turn>, x: seq<nat>, all: bool)
    requires Shape(cfg, s) && Good(cfg, s, x, all) && Quiet(script, x)
    ensures Shape(cfg, RingSQ(s)) && Left(cfg, s, AwaitSlot(cfg, RingSQ(s), script).1, x, all)
  {
    hide Good, Left, Shape, Quiet, AwaitSlot, RingSQ;
    RingLeft(cfg, s, x, all);
    LeftGood(cfg, s, RingSQ(s), x, all);
    AwaitSlotLeft(cfg, RingSQ(s), script, x, all);
    LeftThen(cfg, s, RingSQ(s), AwaitSlot(cfg, RingSQ(s), script).1, x, all);
  }

  lemma SuppressLeft(cfg: Config, s: Sys, k: nat, x: seq<nat>, all: bool)
    requires Good(cfg, s, x, all) && k < |s.slots| && s.slots[k].Busy?
    ensures Left(cfg, s, Suppressed(s, k), x, all)
  {
    SuppressFits(cfg, s, k);
    SuppressSafe(cfg, s.slots, k, x, all);
    hide DataInv, Safe, Described, Layout, Disjoint;
  }

  lemma SuppressSafe(cfg: Config, slots: seq<Slot>, k: nat, x: seq<nat>, all: bool)
    requires Layout(cfg) && Safe(cfg, slots, x, all) && k < |slots| && slots[k].Busy?
    ensures Safe(cfg, slots[k := slots[k].(suppress := true)], x, all)
  {
    assert Avoids(slots[k].(suppress := true), x, all) by { assert Avoids(slots[k], x, all); }
    hide Avoids, DriverOwned;
  }

  lemma FinishChunkLeft(cfg: Config, s: Sys, k: nat, script: seq<Turn>, x: seq<nat>, all: bool)
    requires Shape(cfg, s) && Good(cfg, s, x, all) && k < MAX_INFLIGHT && s.slots[k].Busy? && Quiet(script, x)
    ensures var (end, s') := FinishChunk(cfg, s, k, script);
      && AllFaithful(s') && Gather(s'.mem, x) == Gather(s.mem, x)
      && (end != TimedOut ==> Left(cfg, s, s', x, all))
  {
    hide *;
    FinishChunkIs(cfg, s, k, script);
    ShapeSize(cfg, s);
    SuppressLeft(cfg, s, k, x, all);
    var t := Suppressed(s, k);
    LeftGood(cfg, s, t, x, all);
    AwaitDoneLeft(cfg, t, k, script, x, all);
    var (done, s1) := AwaitDone(cfg, t, k, script);
    LeftThen(cfg, s, t, s1, x, all);
    LeftGood(cfg, s, s1, x, all);
    GoodParts(cfg, s1, x, all);
    if !done { GiveUpSame(s1, k); }
  }

  lemma GiveUpSame(s: Sys, k: nat)
    requires k < |s.slots| && s.slots[k].Busy?
    ensures GiveUp(s, k).mem == s.mem && (AllFaithful(s) ==> AllFaithful(GiveUp(s, k)))
  {
    hide Faithful;
  }

  lemma OneChunkLeft(cfg: Config, s: Sys, c: Request, isWrite: bool, env: ChunkEnv, x: seq<nat>, all: bool)
    requires Shape(cfg, s) && Good(cfg, s, x, all) && Ready(cfg, s, c, isWrite) && Described(cfg, c)
    requires (isWrite && !all) || Apart(Denotes(c.sg), x)
    requires Quiet(env.slotScript, x) && Quiet(env.slotScript, Denotes(c.sg)) && Quiet(env.doneScript, x)
    ensures var (end, s') := OneChunk(cfg, s, c, isWrite, env);
      && AllFaithful(s') && Gather(s'.mem, x) == Gather(s.mem, x)
      && (end != TimedOut ==> Left(cfg, s, s', x, all))
  {
    hide Good, Left, Shape, Described, Ready, SubmitPatiently, FinishChunk, Quiet, FindRequest, AllFaithful;
    SubmitPatientlyLeft(cfg, s, c, isWrite, env, x, all);
    var (rc, s1) := SubmitPatiently(cfg, s, c, isWrite, env);
    LeftGood(cfg, s, s1, x, all);
    GoodParts(cfg, s1, x, all);
    if rc == Submitted {
      match FindRequest(s1.slots, c.id) {
        case None =>
        case Some(k) =>
          var (end, s') := FinishChunk(cfg, s1, k, env.doneScript);
          FinishChunkLeft(cfg, s1, k, env.doneScript, x, all);
          if end != TimedOut { LeftThen(cfg, s, s1, s', x, all); }
      }
    }
  }

  // ----- What a finished read has left in the buffer -------------------------------------

  /** Memory at `x` is as it was when the last result for request `id` was handed over. */
  ghost predicate HandedOver(s: Sys, id: nat, x: seq<nat>) {
    var rs := Results(s.outcomes, id);
    rs != [] && Gather(s.mem, x) == Gather(rs[|rs| - 1].mem, x)
  }

  /** All but slot `k` stay clear of `x`. */
  ghost predicate SafeBut(cfg: Config, s: Sys, k: nat, x: seq<nat>) {
    Good(cfg, s, [], false) && k < |s.slots| && Safe(cfg, s.slots[k := Free], x, false)
  }

  lemma SafeButFree(cfg: Config, s: Sys, k: nat, j: nat, s': Sys, x: seq<nat>)
    requires SafeBut(cfg, s, k, x) && j < |s.slots| && Good(cfg, s', [], false) && s'.slots == s.slots[j := Free]
    ensures if j == k then Good(cfg, s', x, false) else SafeBut(cfg, s', k, x)
  {
    hide DataInv, AllFaithful, Disjoint, Safe;
    if j != k {
      FreeSafe(cfg, s.slots[k := Free], j, x, false);
      assert s'.slots[k := Free] == s.slots[k := Free][j := Free];
    }
  }

  lemma HarvestOneTracks(cfg: Config, s: Sys, k: nat, id: nat, x: seq<nat>)
    requires Shape(cfg, s) && s.posted != [] && SafeBut(cfg, s, k, x) && OnlySlot(s.slots, k) && s.slots[k].req.id == id
    ensures var s' := HarvestOne(cfg, s);
      if k < |s'.slots| && s'.slots[k].Busy? then SafeBut(cfg, s', k, x) && OnlySlot(s'.slots, k) && s'.slots[k].req.id == id
      else Good(cfg, s', x, false) && Absent(s'.slots, id) && HandedOver(s', id, x)
  {
    hide *;
    SafeButGood(cfg, s, k, x);
    GoodParts(cfg, s, [], false);
    HeadIsMatched(s);
    HarvestIs(cfg, s);
    HarvestOneLeaves(cfg, s, [], false);
    var s', j := HarvestOne(cfg, s), s.posted[0].cid - 1;
    LeftGood(cfg, s, s', [], false);
    SafeButFree(cfg, s, k, j, s', x);
    FreedOthers(s.slots, k, j);
    LastResult(s.outcomes, s'.outcomes[|s.outcomes|], id);
    HandedOverIs(s', id, x);
  }

  lemma SafeButGood(cfg: Config, s: Sys, k: nat, x: seq<nat>)
    requires SafeBut(cfg, s, k, x)
    ensures Good(cfg, s, [], false) && k < |s.slots|
  {
    hide Good;
  }

  lemma FreedOthers(slots: seq<Slot>, k: nat, j: nat)
    requires OnlySlot(slots, k) && j < |slots|
    ensures slots[k].Busy?
    ensures j == k ==> Absent(slots[j := Free], slots[k].req.id)
    ensures j != k && slots[j].Busy? ==> slots[j].req.id != slots[k].req.id
    ensures j != k ==> slots[j := Free][k] == slots[k] && OnlySlot(slots[j := Free], k)
  {
  }

  lemma LastResult(outcomes: seq<Outcome>, o: Outcome, id: nat)
    ensures Results(outcomes + [o], id) == Results(outcomes, id) + if o.req.id == id then [o] else []
  {
    assert (outcomes + [o])[..|outcomes|] == outcomes;
  }

  lemma HandedOverIs(s: Sys, id: nat, x: seq<nat>)
    ensures HandedOver(s, id, x) <==>
      Results(s.outcomes, id) != [] && Gather(s.mem, x) == Gather(Results(s.outcomes, id)[|Results(s.outcomes, id)| - 1].mem, x)
  {
  }

  lemma HarvestStays(cfg: Config, s: Sys, id: nat, x: seq<nat>)
    requires Shape(cfg, s) && Good(cfg, s, x, false) && Absent(s.slots, id) && HandedOver(s, id, x)
    ensures HandedOver(Harvest(cfg, s), id, x) && Good(cfg, Harvest(cfg, s), x, false) && Absent(Harvest(cfg, s).slots, id)
  {
    hide *;
    GoodParts(cfg, s, x, false);
    HarvestAbsent(cfg, s, id);
    HarvestLeft(cfg, s, x, false);
    LeftGood(cfg, s, Harvest(cfg, s), x, false);
    HandedOverIs(s, id, x);
    HandedOverIs(Harvest(cfg, s), id, x);
  }

  lemma {:induction false} HarvestTracks(cfg: Config, s: Sys, k: nat, id: nat, x: seq<nat>)
    requires Shape(cfg, s) && SafeBut(cfg, s, k, x) && OnlySlot(s.slots, k) && s.slots[k].req.id == id
    ensures var s' := Harvest(cfg, s);
      if k < |s'.slots| && s'.slots[k].Busy? then SafeBut(cfg, s', k, x) && OnlySlot(s'.slots, k) && s'.slots[k].req.id == id
      else HandedOver(s', id, x) && Good(cfg, s', x, false)
    decreases |s.posted|
  {
    hide SafeBut, Shape, HarvestOne, HandedOver, Good, Absent, OnlySlot;
    if s.posted != [] {
      var s1 := HarvestOne(cfg, s);
      HarvestOneTracks(cfg, s, k, id, x);
      if k < |s1.slots| && s1.slots[k].Busy? {
        HarvestTracks(cfg, s1, k, id, x);
      } else {
        HarvestStays(cfg, s1, id, x);
        StillFree(cfg, s1, k, x);
      }
    } else {
      assert s.slots[k].Busy? by { OnlyBusy(s.slots, k); }
    }
  }

  lemma OnlyBusy(slots: seq<Slot>, k: nat)
    requires OnlySlot(slots, k)
    ensures k < |slots| && slots[k].Busy?
  {
  }

  lemma StillFree(cfg: Config, s: Sys, k: nat, x: seq<nat>)
    requires Shape(cfg, s) && Good(cfg, s, x, false) && !(k < |s.slots| && s.slots[k].Busy?)
    ensures !(k < |Harvest(cfg, s).slots| && Harvest(cfg, s).slots[k].Busy?)
  {
    hide Good;
    GoodParts(cfg, s, x, false);
    HarvestFrees(cfg, s);
    ShapeSize(cfg, s);
    ShapeSize(cfg, Harvest(cfg, s));
  }

  lemma {:induction false} AwaitDoneTracks(cfg: Config, s: Sys, k: nat, script: seq<Turn>, id: nat, x: seq<nat>)
    requires Shape(cfg, s) && k < MAX_INFLIGHT && SafeBut(cfg, s, k, x) && OnlySlot(s.slots, k) && s.slots[k].req.id == id
    ensures var (done, s') := AwaitDone(cfg, s, k, script); done ==> HandedOver(s', id, x) && Good(cfg, s', x, false)
    decreases |script|
  {
    OnlyBusy(s.slots, k);
    hide SafeBut, Shape, Harvest, HandedOver, Good, Elapse, OnlySlot;
    if script != [] {
      var s1 := Harvest(cfg, s);
      ShapeSize(cfg, s1);
      HarvestTracks(cfg, s, k, id, x);
      if s1.slots[k].Busy? {
        var s2 := Elapse(cfg, s1, script[0]);
        ElapseSafeBut(cfg, s1, script[0], k, x);
        AwaitDoneTracks(cfg, s2, k, script[1..], id, x);
      }
    }
  }

  lemma ElapseSafeBut(cfg: Config, s: Sys, turn: Turn, k: nat, x: seq<nat>)
    requires Shape(cfg, s) && SafeBut(cfg, s, k, x)
    ensures SafeBut(cfg, Elapse(cfg, s, turn), k, x)
  {
    hide Good, Safe, Elapse;
    var s' := Elapse(cfg, s, turn);
    assert QuietTurn(turn, []);
    ElapseLeft(cfg, s, turn, [], false);
    LeftGood(cfg, s, s', [], false);
  }

  lemma SubmitSafeBut(cfg: Config, s: Sys, c: Request, env: DmaEnv)
    requires Shape(cfg, s) && Ready(cfg, s, c, false) && Described(cfg, c)
    ensures var (rc, s') := Submit(cfg, s, c, false, env);
      rc == Submitted ==>
        && FindFree(s.slots).Some? && var k := FindFree(s.slots).value;
        k < |s'.slots| && s'.slots[k].Busy? && s'.slots[k].req == c && SafeBut(cfg, s', k, Denotes(c.sg))
  {
    hide Good, Ready, Described, SubmitNoRing, Submit, ClientBuffer, Safe, Layout;
    ReadyBuffer(cfg, s, c, false);
    ReadySafe(cfg, s, c);
    SubmitLeft(cfg, s, c, false, env, [], false);
    SubmitPlaces(cfg, s, c, false, env);
    SubmitSlot(cfg, s, c, false, env);
    SubmitUnfold(cfg, s, c, false, env);
    var (rc, s') := Submit(cfg, s, c, false, env);
    LeftGood(cfg, s, s', [], false);
    if rc == Submitted {
      var k := FindFree(s.slots).value;
      assert s'.slots[k := Free] == s.slots;
    }
  }

  lemma ReadySafe(cfg: Config, s: Sys, c: Request)
    requires Ready(cfg, s, c, false)
    ensures Layout(cfg) && Safe(cfg, s.slots, Denotes(c.sg), false) && Good(cfg, s, [], false)
  {
    hide DataInv, AllFaithful, Disjoint, DriverOwned, Described;
    forall j | 0 <= j < |s.slots|
      ensures Avoids(s.slots[j], Denotes(c.sg), false) && Avoids(s.slots[j], [], false)
    {
      assert Avoids(s.slots[j], Denotes(c.sg), true);
    }
  }

  lemma SubmitPatientlySafeBut(cfg: Config, s: Sys, c: Request, env: ChunkEnv, k: nat)
    requires Shape(cfg, s) && Ready(cfg, s, c, false) && Described(cfg, c) && Quiet(env.slotScript, Denotes(c.sg))
    requires var (rc, s1) := SubmitPatiently(cfg, s, c, false, env); rc == Submitted && OnlySlot(s1.slots, k) && s1.slots[k].req == c
    ensures SafeBut(cfg, SubmitPatiently(cfg, s, c, false, env).1, k, Denotes(c.sg))
  {
    ReadyGood(cfg, s, c, false);
    hide Good, Shape, Described, Ready, Submit, AwaitSlot, Quiet, RingSQ, SafeBut, FindFree;
    SubmitSafeBut(cfg, s, c, env.dma);
    var (rc, s1) := Submit(cfg, s, c, false, env.dma);
    if rc == NoSlot {
      NoSlotSame(cfg, s, c, false, env.dma);
      WaitLeft(cfg, s, env.slotScript, Denotes(c.sg), true);
      var (freed, s2) := AwaitSlot(cfg, RingSQ(s), env.slotScript);
      if freed {
        ReadyStays(cfg, s, s2, c, false);
        SubmitSafeBut(cfg, s2, c, env.retry);
      }
    }
  }

  lemma SuppressSafeBut(cfg: Config, s: Sys, k: nat, x: seq<nat>)
    requires SafeBut(cfg, s, k, x) && s.slots[k].Busy?
    ensures SafeBut(cfg, Suppressed(s, k), k, x)
  {
    hide Good, Safe;
    SuppressLeft(cfg, s, k, [], false);
    LeftGood(cfg, s, Suppressed(s, k), [], false);
    assert Suppressed(s, k).slots[k := Free] == s.slots[k := Free];
  }

  /** A chunk of a read that is done leaves its part of the buffer as its result says. */
  lemma OneChunkHandsOver(cfg: Config, s: Sys, c: Request, env: ChunkEnv)
    requires Shape(cfg, s) && Ready(cfg, s, c, false) && Described(cfg, c) && Matched(s) && Absent(s.slots, c.id)
    requires Quiet(env.slotScript, Denotes(c.sg))
    ensures var (end, s') := OneChunk(cfg, s, c, false, env);
      end == ChunkDone ==> HandedOver(s', c.id, Denotes(c.sg)) && Good(cfg, s', Denotes(c.sg), false)
  {
    var (rc, s1) := SubmitPatiently(cfg, s, c, false, env);
    hide Shape, Ready, Described, SubmitPatiently, FinishChunk, FindRequest, Quiet, Matched, SafeBut, HandedOver;
    var k := SubmitPatientlyTakes(cfg, s, c, false, env);
    if rc == Submitted {
      SubmitPatientlySafeBut(cfg, s, c, env, k);
      SuppressSafeBut(cfg, s1, k, Denotes(c.sg));
      SuppressKeeps(cfg, s1, k, c, false);
      FinishChunkIs(cfg, s1, k, env.doneScript);
      AwaitDoneTracks(cfg, Suppressed(s1, k), k, env.doneScript, c.id, Denotes(c.sg));
    }
  }

  // ----- The whole loop ------------------------------------------------------------------

  /** No client stores at `x` while the loop waits. */
  ghost predicate QuietFor(envs: nat -> ChunkEnv, x: seq<nat>) {
    forall d: nat :: Quiet(envs(d).slotScript, x) && Quiet(envs(d).doneScript, x)
  }

  /** At the head of the loop: what is left of the buffer is nobody else's, and for a write all of it
    * is in place. */
  ghost predicate Head(cfg: Config, s: Sys, r: Request, isWrite: bool, done: nat)
    requires done <= |Denotes(r.sg)|
  {
    && Directed(r, isWrite) && Distinct(Denotes(r.sg))
    && Good(cfg, s, if isWrite then Denotes(r.sg) else Denotes(r.sg)[done..], !isWrite)
    && (isWrite ==> Gather(s.mem, Denotes(r.sg)) == r.payload)
  }

  lemma SliceGood(cfg: Config, s: Sys, x: seq<nat>, a: nat, b: nat, all: bool)
    requires a <= b <= |x| && Good(cfg, s, x, all)
    ensures Good(cfg, s, x[a..b], all)
  {
    hide DataInv, AllFaithful, Disjoint, Safe;
    SliceSafe(cfg, s.slots, x, a, b, all);
  }

  lemma SliceSafe(cfg: Config, slots: seq<Slot>, x: seq<nat>, a: nat, b: nat, all: bool)
    requires Layout(cfg) && a <= b <= |x| && Safe(cfg, slots, x, all)
    ensures Safe(cfg, slots, x[a..b], all)
  {
    hide DriverOwned, Layout;
    assert forall y :: y in x[a..b] ==> y in x;
    forall j | 0 <= j < |slots|
      ensures Avoids(slots[j], x[a..b], all)
    {
      assert Avoids(slots[j], x, all);
    }
  }

  lemma SliceQuiet(script: seq<Turn>, x: seq<nat>, a: nat, b: nat)
    requires a <= b <= |x| && Quiet(script, x)
    ensures Quiet(script, x[a..b])
  {
    assert forall y :: y in x[a..b] ==> y in x;
    forall t | t in script
      ensures QuietTurn(t, x[a..b])
    {
      assert QuietTurn(t, x);
    }
  }

  lemma SliceGather(m: Mem, x: seq<nat>, a: nat, b: nat)
    requires a <= b <= |x|
    ensures Gather(m, x[a..b]) == Gather(m, x)[a..b]
  {
  }

  lemma SlicesApart(x: seq<nat>, a: nat, b: nat)
    requires a <= b <= |x| && Distinct(x)
    ensures Apart(x[a..b], x[b..]) && Distinct(x[a..b])
  {
  }

  /** The addresses of a chunk. */
  lemma ChunkSlice(cfg: Config, r: Request, done: nat, cap: nat, sgOf: SgOf)
    requires cfg.ps > 0 && done < r.length && Consistent(cfg.ps, r, sgOf) && cap > 0
    ensures r.length == |r.payload| == |Denotes(r.sg)|
    ensures var c := Chunk(r, done, cap, sgOf);
      && 0 < c.length && done + c.length <= r.length
      && Denotes(c.sg) == Denotes(r.sg)[done..done + c.length] && c.payload == r.payload[done..done + c.length]
      && Described(cfg, c)
  {
    ChunkDescribed(cfg, r, done, cap, sgOf);
    hide WellFormed, Total, ChunkOffset;
    assert Part(cfg.ps, r, sgOf, done, ChunkLen(r.length, done, cap));
  }

  lemma ChunkCommand(r: Request, done: nat, cap: nat, sgOf: SgOf)
    requires done < r.length == |r.payload|
    ensures Chunk(r, done, cap, sgOf).command == r.command
  {
  }

  lemma SameDirection(r: Request, c: Request, isWrite: bool)
    requires Directed(r, isWrite) && c.command == r.command
    ensures Directed(c, isWrite)
  {
  }

  lemma HeadReady(cfg: Config, s: Sys, r: Request, isWrite: bool, done: nat, cap: nat, sgOf: SgOf)
    requires cfg.ps > 0 && done < r.length && Consistent(cfg.ps, r, sgOf) && cap > 0
    requires done <= |Denotes(r.sg)| && Head(cfg, s, r, isWrite, done)
    ensures r.length == |r.payload| && Ready(cfg, s, Chunk(r, done, cap, sgOf), isWrite)
  {
    ChunkSlice(cfg, r, done, cap, sgOf);
    var c, x := Chunk(r, done, cap, sgOf), Denotes(r.sg);
    hide Good, Described, Chunk, Consistent, Denotes;
    assert c.command == r.command by { ChunkCommand(r, done, cap, sgOf); }
    hide Directed;
    assert Directed(c, isWrite) by { SameDirection(r, c, isWrite); }
    SlicesApart(x, done, done + c.length);
    SliceGather(s.mem, x, done, done + c.length);
    if isWrite {
      SliceGood(cfg, s, x, done, done + c.length, false);
    } else {
      assert x[done..][0..c.length] == x[done..done + c.length];
      SliceGood(cfg, s, x[done..], 0, c.length, true);
    }
  }

  /** One successful chunk on, the head condition holds again. */
  lemma HeadNext(cfg: Config, s: Sys, r: Request, isWrite: bool, done: nat, cap: nat, env: ChunkEnv, sgOf: SgOf)
    requires Shape(cfg, s) && done < r.length && Consistent(cfg.ps, r, sgOf) && cap > 0
    requires done <= |Denotes(r.sg)| && Head(cfg, s, r, isWrite, done)
    requires Quiet(env.slotScript, Denotes(r.sg)) && Quiet(env.doneScript, Denotes(r.sg))
    ensures r.length == |r.payload| == |Denotes(r.sg)| && Described(cfg, Chunk(r, done, cap, sgOf))
    ensures var c := Chunk(r, done, cap, sgOf);
      var (end, s') := OneChunk(cfg, s, c, isWrite, env);
      && AllFaithful(s') && done + c.length <= r.length
      && (end == ChunkDone ==> Head(cfg, s', r, isWrite, done + c.length))
  {
    ShapeSize(cfg, s);
    ChunkSlice(cfg, r, done, cap, sgOf);
    HeadReady(cfg, s, r, isWrite, done, cap, sgOf);
    var c, all := Chunk(r, done, cap, sgOf), Denotes(r.sg);
    var x := if isWrite then all else all[done + c.length..];
    HeadSlice(cfg, s, r, isWrite, done, c.length);
    hide Good, Described, Chunk, Consistent, Denotes, Shape, OneChunk, Ready, Quiet;
    SlicesApart(all, done, done + c.length);
    SliceQuiet(env.slotScript, all, done, done + c.length);
    if !isWrite {
      SliceQuiet(env.slotScript, all, done + c.length, |all|);
      SliceQuiet(env.doneScript, all, done + c.length, |all|);
      assert all[done + c.length..|all|] == all[done + c.length..];
    }
    OneChunkLeft(cfg, s, c, isWrite, env, x, !isWrite);
  }

  /** What later chunks of a read may still use. */
  lemma HeadSlice(cfg: Config, s: Sys, r: Request, isWrite: bool, done: nat, n: nat)
    requires done + n <= |Denotes(r.sg)| && Head(cfg, s, r, isWrite, done)
    ensures Good(cfg, s, if isWrite then Denotes(r.sg) else Denotes(r.sg)[done + n..], !isWrite)
  {
    hide Good, Denotes;
    var all := Denotes(r.sg);
    if !isWrite {
      SliceGood(cfg, s, all[done..], n, |all| - done, true);
      assert all[done..][n..|all| - done] == all[done + n..];
    }
  }

  /** One chunk leaves alone what the rest of the loop does not read into. */
  lemma ChunkLeaves(cfg: Config, s: Sys, r: Request, isWrite: bool, done: nat, cap: nat, env: ChunkEnv, sgOf: SgOf, x: seq<nat>)
    requires Shape(cfg, s) && done < r.length && Consistent(cfg.ps, r, sgOf) && cap > 0 && r.length == |Denotes(r.sg)|
    requires Head(cfg, s, r, isWrite, done) && Good(cfg, s, x, false) && (isWrite || Apart(Denotes(r.sg)[done..], x))
    requires Quiet(env.slotScript, Denotes(r.sg)) && Quiet(env.slotScript, x) && Quiet(env.doneScript, x)
    ensures r.length == |r.payload| && Described(cfg, Chunk(r, done, cap, sgOf))
    ensures var c := Chunk(r, done, cap, sgOf);
      var (end, s') := OneChunk(cfg, s, c, isWrite, env);
      && done < done + c.length <= r.length
      && AllFaithful(s') && Gather(s'.mem, x) == Gather(s.mem, x)
      && (end != TimedOut ==> Good(cfg, s', x, false))
      && (end == ChunkDone ==> isWrite || Apart(Denotes(r.sg)[done + c.length..], x))
  {
    ShapeSize(cfg, s);
    ChunkSlice(cfg, r, done, cap, sgOf);
    HeadReady(cfg, s, r, isWrite, done, cap, sgOf);
    var c, all := Chunk(r, done, cap, sgOf), Denotes(r.sg);
    hide *;
    SliceQuiet(env.slotScript, all, done, done + c.length);
    if !isWrite { ApartSlices(all, done, done + c.length, x); }
    OneChunkLeft(cfg, s, c, isWrite, env, x, false);
    var (end, s1) := OneChunk(cfg, s, c, isWrite, env);
    if end != TimedOut { LeftGood(cfg, s, s1, x, false); }
  }

  lemma QuietAt(envs: nat -> ChunkEnv, x: seq<nat>)
    requires QuietFor(envs, x)
    ensures forall d: nat :: Quiet(envs(d).slotScript, x) && Quiet(envs(d).doneScript, x)
  {
    hide Quiet;
  }

  /** The loop leaves alone whatever it does not read into, and all its results are faithful; unless it
    * times out, all is still well at its end. */
  lemma {:induction false} LoopLeaves(cfg: Config, s: Sys, r: Request, isWrite: bool, cap: nat, done: nat,
                                      envs: nat -> ChunkEnv, sgOf: SgOf, x: seq<nat>)
    requires Shape(cfg, s) && done <= r.length && Consistent(cfg.ps, r, sgOf) && cap > 0 && r.length == |Denotes(r.sg)|
    requires Head(cfg, s, r, isWrite, done) && Good(cfg, s, x, false)
    requires isWrite || Apart(Denotes(r.sg)[done..], x)
    requires QuietFor(envs, Denotes(r.sg)) && QuietFor(envs, x)
    ensures var (end, at, s') := ChunkLoop(cfg, s, r, isWrite, cap, done, envs, sgOf);
      && AllFaithful(s') && Gather(s'.mem, x) == Gather(s.mem, x)
      && (end != TimedOut ==> Good(cfg, s', x, false))
    decreases r.length - done
  {
    hide *;
    GoodParts(cfg, s, x, false);
    ShapeSize(cfg, s);
    QuietAt(envs, Denotes(r.sg));
    QuietAt(envs, x);
    if done == r.length {
      LoopOver(cfg, s, r, isWrite, cap, envs, sgOf);
    } else {
      LoopUnfolds(cfg, s, r, isWrite, cap, done, envs, sgOf);
      HeadNext(cfg, s, r, isWrite, done, cap, envs(done), sgOf);
      ChunkLeaves(cfg, s, r, isWrite, done, cap, envs(done), sgOf, x);
      var c := Chunk(r, done, cap, sgOf);
      var (end, s1) := OneChunk(cfg, s, c, isWrite, envs(done));
      if end == ChunkDone {
        LoopLeaves(cfg, s1, r, isWrite, cap, done + c.length, envs, sgOf, x);
      }
    }
  }

  lemma ApartSlices(all: seq<nat>, a: nat, b: nat, x: seq<nat>)
    requires a <= b <= |all| && Apart(all[a..], x)
    ensures Apart(all[a..b], x) && Apart(all[b..], x)
  {
    assert forall y :: y in all[a..b] ==> y in all[a..];
    assert forall y :: y in all[b..] ==> y in all[a..];
  }

  /** Every result the loop adds is faithful. */
  lemma LoopFaithful(cfg: Config, s: Sys, r: Request, isWrite: bool, cap: nat, envs: nat -> ChunkEnv, sgOf: SgOf, outs: seq<Outcome>)
    requires Shape(cfg, s) && Consistent(cfg.ps, r, sgOf) && cap > 0 && r.length == |Denotes(r.sg)|
    requires Head(cfg, s, r, isWrite, 0) && Good(cfg, s, [], false) && QuietFor(envs, Denotes(r.sg))
    requires Results(ChunkLoop(cfg, s, r, isWrite, cap, 0, envs, sgOf).2.outcomes, r.id) == Results(s.outcomes, r.id) + outs
    ensures forall o :: o in outs ==> Faithful(o)
  {
    hide Good, Described, Consistent, Denotes, Shape, Head, Faithful;
    NothingStored(envs);
    LoopLeaves(cfg, s, r, isWrite, cap, 0, envs, sgOf, []);
    var s' := ChunkLoop(cfg, s, r, isWrite, cap, 0, envs, sgOf).2;
    forall o | o in outs
      ensures o in s'.outcomes
    {
      assert o in Results(s.outcomes, r.id) + outs;
      ResultsIn(s'.outcomes, r.id, o);
    }
  }

  lemma NothingStored(envs: nat -> ChunkEnv)
    ensures QuietFor(envs, [])
  {
  }

  lemma {:induction false} ResultsIn(outcomes: seq<Outcome>, id: nat, o: Outcome)
    requires o in Results(outcomes, id)
    ensures o in outcomes
  {
    if outcomes != [] && o in Results(outcomes[..|outcomes| - 1], id) {
      ResultsIn(outcomes[..|outcomes| - 1], id, o);
    }
  }

  /** A chunked write: if the loop succeeds and nobody else writes in the named range meanwhile -- other
    * slots may write elsewhere -- the range afterwards holds the caller's bytes, as after one ideal
    * command for the whole request, provided the last chunk's offset fits the command. */
  lemma ChunkedWrite(cfg: Config, s: Sys, r: Request, cap: nat, envs: nat -> ChunkEnv, sgOf: SgOf) returns (outs: seq<Outcome>)
    requires Shape(cfg, s) && Consistent(cfg.ps, r, sgOf) && cap > 0 && 0 < r.length == |Denotes(r.sg)|
    requires Absent(s.slots, r.id) && Head(cfg, s, r, true, 0) && QuietFor(envs, Denotes(r.sg))
    requires Offset(r) + LastStart(r.length, 0, cap) < OffsetLimit(r.command)
    ensures var (end, at, s') := ChunkLoop(cfg, s, r, true, cap, 0, envs, sgOf);
      && Results(s'.outcomes, r.id) == Results(s.outcomes, r.id) + outs
      && (forall o :: o in outs ==> Faithful(o))
      && (end == ChunkDone ==> outs != [])
      && (end == ChunkDone && Calm(outs, Range(r)) ==> Gather(outs[|outs| - 1].after, Range(r)) == r.payload)
      && (end == ChunkDone && Chained(outs) ==> outs[|outs| - 1].after == Scatter(outs[0].before, Range(r), r.payload))
  {
    SliceGood(cfg, s, Denotes(r.sg), 0, 0, false);
    GoodParts(cfg, s, Denotes(r.sg), false);
    ShapeSize(cfg, s);
    hide Good, Described, Denotes, Shape, Head, Faithful, ChunkLoop, Matched, Absent, QuietFor, Calm, Gather, Scatter, Range;
    var (end, at, s') := ChunkLoop(cfg, s, r, true, cap, 0, envs, sgOf);
    outs := ChunkLoopAdds(cfg, s, r, true, cap, 0, envs, sgOf);
    LoopFaithful(cfg, s, r, true, cap, envs, sgOf, outs);
    if end == ChunkDone {
      DoneAllDone(ChunkList(r, 0, cap, sgOf), true, outs);
      hide Consistent;
      ChunkedWriteIsOneWrite(cfg.ps, r, cap, sgOf, outs);
    }
  }

  lemma DoneAllDone(cs: seq<Request>, isWrite: bool, outs: seq<Outcome>)
    requires LoopAdds(cs, isWrite, ChunkDone, outs) && forall o :: o in outs ==> Faithful(o)
    ensures AllDone(outs, cs, isWrite)
  {
    hide Faithful;
  }

  /** The first result of a successful read loop, and what it left in its part of the buffer. */
  lemma FirstChunkReads(cfg: Config, s: Sys, r: Request, cap: nat, done: nat, envs: nat -> ChunkEnv, sgOf: SgOf)
      returns (o: Outcome)
    requires Shape(cfg, s) && done < r.length && Consistent(cfg.ps, r, sgOf) && cap > 0 && r.length == |Denotes(r.sg)|
    requires Head(cfg, s, r, false, done) && QuietFor(envs, Denotes(r.sg)) && Absent(s.slots, r.id)
    ensures r.length == |r.payload| && Described(cfg, Chunk(r, done, cap, sgOf))
    ensures var c := Chunk(r, done, cap, sgOf);
      var (end, s1) := OneChunk(cfg, s, c, false, envs(done));
      && done < done + c.length <= r.length
      && (end == ChunkDone ==>
            && Results(s1.outcomes, r.id) == Results(s.outcomes, r.id) + [o] && Absent(s1.slots, r.id)
            && Head(cfg, s1, r, false, done + c.length)
            && Gather(ChunkLoop(cfg, s1, r, false, cap, done + c.length, envs, sgOf).2.mem, Denotes(c.sg)) == Gather(o.mem, Denotes(c.sg)))
  {
    hide *;
    ShapeSize(cfg, s);
    ChunkSlice(cfg, r, done, cap, sgOf);
    HeadReady(cfg, s, r, false, done, cap, sgOf);
    SliceQuietFor(envs, Denotes(r.sg), 0, |Denotes(r.sg)|);
    HeadNext(cfg, s, r, false, done, cap, envs(done), sgOf);
    var c, all := Chunk(r, done, cap, sgOf), Denotes(r.sg);
    var own := Denotes(c.sg);
    ReadyMatched(cfg, s, c);
    HeadDistinct(cfg, s, r, false, done);
    SliceQuietFor(envs, all, done, done + c.length);
    OneChunkHandsOver(cfg, s, c, envs(done));
    var added := OneChunkAdds(cfg, s, c, false, envs(done));
    var (end, s1) := OneChunk(cfg, s, c, false, envs(done));
    o := if |added| == 1 then added[0] else Outcome(r, false, NoData, false, false, 0, map[], map[], map[]);
    if end == ChunkDone {
      OneAdded(s, c, false, s1, added);
      HandedOverIs(s1, r.id, own);
      SlicesApart(all, done, done + c.length);
      ApartBoth(all[done..done + c.length], all[done + c.length..]);
      LoopLeaves(cfg, s1, r, false, cap, done + c.length, envs, sgOf, own);
    }
  }

  lemma HeadDistinct(cfg: Config, s: Sys, r: Request, isWrite: bool, done: nat)
    requires done <= |Denotes(r.sg)| && Head(cfg, s, r, isWrite, done)
    ensures Distinct(Denotes(r.sg))
  {
    hide Good;
  }

  lemma ReadyMatched(cfg: Config, s: Sys, c: Request)
    requires Ready(cfg, s, c, false)
    ensures Matched(s)
  {
    GoodParts(cfg, s, Denotes(c.sg), true);
    hide Good;
  }

  lemma ApartBoth(a: seq<nat>, b: seq<nat>)
    requires Apart(a, b)
    ensures Apart(b, a)
  {
  }

  lemma SliceQuietFor(envs: nat -> ChunkEnv, x: seq<nat>, a: nat, b: nat)
    requires a <= b <= |x| && QuietFor(envs, x)
    ensures QuietFor(envs, x[a..b])
    ensures forall d: nat :: Quiet(envs(d).slotScript, x[a..b])
    ensures forall d: nat :: Quiet(envs(d).slotScript, x) && Quiet(envs(d).doneScript, x)
  {
    hide Quiet;
    forall d: nat
      ensures Quiet(envs(d).slotScript, x[a..b]) && Quiet(envs(d).doneScript, x[a..b])
    {
      SliceQuiet(envs(d).slotScript, x, a, b);
      SliceQuiet(envs(d).doneScript, x, a, b);
    }
  }

  lemma OneAdded(s: Sys, c: Request, isWrite: bool, s1: Sys, outs: seq<Outcome>)
    requires ChunkAdds(s, c, isWrite, ChunkDone, s1, outs)
    ensures |outs| == 1 && Results(s1.outcomes, c.id) == Results(s.outcomes, c.id) + [outs[0]] && Absent(s1.slots, c.id) && c.id == c.id
  {
    hide Matched;
    assert outs == [outs[0]];
  }

  /** A successful read loop leaves every chunk's part of the buffer as that chunk's result says. */
  lemma {:induction false} LoopReads(cfg: Config, s: Sys, r: Request, cap: nat, done: nat, envs: nat -> ChunkEnv, sgOf: SgOf)
      returns (outs: seq<Outcome>)
    requires Shape(cfg, s) && done <= r.length == |r.payload| && Consistent(cfg.ps, r, sgOf) && cap > 0 && r.length == |Denotes(r.sg)|
    requires Head(cfg, s, r, false, done) && QuietFor(envs, Denotes(r.sg)) && Absent(s.slots, r.id)
    requires ChunkLoop(cfg, s, r, false, cap, done, envs, sgOf).0 == ChunkDone
    ensures var s', cs := ChunkLoop(cfg, s, r, false, cap, done, envs, sgOf).2, ChunkList(r, done, cap, sgOf);
      && Results(s'.outcomes, r.id) == Results(s.outcomes, r.id) + outs && LeftAs(s'.mem, cs, outs)
    decreases r.length - done
  {
    hide Described, Chunk, Consistent, Denotes, Shape, OneChunk, Head, Absent, QuietFor, Gather;
    outs := [];
    if done == r.length {
      assert Results(s.outcomes, r.id) + [] == Results(s.outcomes, r.id);
    } else {
      var o := FirstChunkReads(cfg, s, r, cap, done, envs, sgOf);
      var c := Chunk(r, done, cap, sgOf);
      var (end, s1) := OneChunk(cfg, s, c, false, envs(done));
      var rest := LoopReads(cfg, s1, r, cap, done + c.length, envs, sgOf);
      outs := [o] + rest;
      Associative(Results(s.outcomes, r.id), [o], rest);
    }
  }

  ghost predicate LeftAs(mem: Mem, cs: seq<Request>, outs: seq<Outcome>) {
    |outs| == |cs| && forall i :: 0 <= i < |outs| ==> Gather(mem, Denotes(cs[i].sg)) == Gather(outs[i].mem, Denotes(cs[i].sg))
  }

  lemma SameTail(a: seq<Outcome>, b: seq<Outcome>, c: seq<Outcome>)
    requires a + b == a + c
    ensures b == c
  {
    assert (a + b)[|a|..] == b && (a + c)[|a|..] == c;
  }

  /** A chunked read: if the loop succeeds and the range it names does not change on the disk
    * meanwhile, the caller's buffer ends up with what one ideal command would have put there --
    * provided the last chunk's offset fits the command. */
  lemma ChunkedRead(cfg: Config, s: Sys, r: Request, cap: nat, envs: nat -> ChunkEnv, sgOf: SgOf, disk: Mem) returns (outs: seq<Outcome>)
    requires Shape(cfg, s) && Consistent(cfg.ps, r, sgOf) && cap > 0 && 0 < r.length == |r.payload| == |Denotes(r.sg)|
    requires Absent(s.slots, r.id) && Head(cfg, s, r, false, 0) && QuietFor(envs, Denotes(r.sg))
    requires Offset(r) + LastStart(r.length, 0, cap) < OffsetLimit(r.command)
    ensures var (end, at, s') := ChunkLoop(cfg, s, r, false, cap, 0, envs, sgOf);
      && Results(s'.outcomes, r.id) == Results(s.outcomes, r.id) + outs
      && (end == ChunkDone ==> |outs| == |ChunkList(r, 0, cap, sgOf)|)
      && (end == ChunkDone && RangeUnchanged(outs, disk) ==> Gather(s'.mem, Denotes(r.sg)) == Gather(disk, Range(r)))
  {
    HeadMatched(cfg, s, r);
    hide Described, Denotes, Shape, Head, Faithful, ChunkLoop, Matched, Absent, QuietFor, Good;
    var (end, at, s') := ChunkLoop(cfg, s, r, false, cap, 0, envs, sgOf);
    outs := ChunkLoopAdds(cfg, s, r, false, cap, 0, envs, sgOf);
    LoopFaithful(cfg, s, r, false, cap, envs, sgOf, outs);
    if end == ChunkDone && RangeUnchanged(outs, disk) {
      var outs' := LoopReads(cfg, s, r, cap, 0, envs, sgOf);
      SameTail(Results(s.outcomes, r.id), outs, outs');
      DoneAllDone(ChunkList(r, 0, cap, sgOf), false, outs);
      AllUndisturbed(outs, ChunkList(r, 0, cap, sgOf), s'.mem, disk);
      hide Consistent;
      ChunkedReadIsOneRead(cfg.ps, r, cap, sgOf, outs, s'.mem, disk);
    }
  }

  lemma HeadMatched(cfg: Config, s: Sys, r: Request)
    requires Shape(cfg, s) && Head(cfg, s, r, false, 0)
    ensures Good(cfg, s, [], false) && Matched(s) && cfg.ps > 0
  {
    SliceGood(cfg, s, Denotes(r.sg)[0..], 0, 0, true);
    assert Good(cfg, s, [], true);
    GoodParts(cfg, s, [], true);
    NoneSafe(cfg, s.slots);
    hide DataInv, AllFaithful, Safe, Disjoint;
  }

  lemma NoneSafe(cfg: Config, slots: seq<Slot>)
    requires Layout(cfg)
    ensures Safe(cfg, slots, [], false)
  {
  }

  /** Every chunk found its part of the range on the disk as `disk` has it. */
  ghost predicate RangeUnchanged(outs: seq<Outcome>, disk: Mem) {
    forall i :: 0 <= i < |outs| ==> Gather(outs[i].before, Range(outs[i].req)) == Gather(disk, Range(outs[i].req))
  }

  lemma AllUndisturbed(outs: seq<Outcome>, cs: seq<Request>, mem: Mem, disk: Mem)
    requires AllDone(outs, cs, false) && LeftAs(mem, cs, outs) && RangeUnchanged(outs, disk)
    ensures Undisturbed(outs, cs, mem, disk)
  {
    hide Faithful, Gather, Range, Denotes;
  }
}
