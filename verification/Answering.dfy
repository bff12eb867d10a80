/** Who still owes a reply.
  *
  * For each request: the replies Harvest has given and those a slot still owes.  No wait changes
  * their sum, whatever is harvested meanwhile -- late completions of commands that were given up
  * on included. */
module Answering {
  import opened Base
  import opened Memory
  import opened Prp
  import opened Commands
  import opened Pipeline
  import opened Matching
  import opened Waiting
  import opened Dispatch
  import Chunking

  /** A slot answers for its request, unless the reply is suppressed: then its dispatcher does. */
  function Answers(b: Slot, x: nat): nat {
    if b.Busy? && !b.suppress && b.req.id == x then 1 else 0
  }

  function Owned(slots: seq<Slot>, x: nat): nat {
    if slots == [] then 0 else Owned(slots[..|slots| - 1], x) + Answers(slots[|slots| - 1], x)
  }

  function Tells(o: Outcome, x: nat): nat {
    if o.replied && o.req.id == x then 1 else 0
  }

  /** How often Harvest has replied to request `x`. */
  function Told(outcomes: seq<Outcome>, x: nat): nat {
    if outcomes == [] then 0 else Told(outcomes[..|outcomes| - 1], x) + Tells(outcomes[|outcomes| - 1], x)
  }

  /** Replies to `x` that Harvest has given or will give. */
  function Due(s: Sys, x: nat): nat {
    Owned(s.slots, x) + Told(s.outcomes, x)
  }

  lemma {:induction false} OwnedUpdate(slots: seq<Slot>, k: nat, b: Slot, x: nat)
    requires k < |slots|
    ensures Owned(slots[k := b], x) + Answers(slots[k], x) == Owned(slots, x) + Answers(b, x)
  {
    var n := |slots| - 1;
    if k < n {
      OwnedUpdate(slots[..n], k, b, x);
      assert slots[k := b][..n] == slots[..n][k := b];
    } else {
      assert slots[k := b][..n] == slots[..n];
    }
  }

  lemma {:induction false} OwnedNone(slots: seq<Slot>, x: nat)
    ensures Owned(slots, x) == 0 <==> forall k :: 0 <= k < |slots| ==> Answers(slots[k], x) == 0
  {
    if slots != [] {
      OwnedNone(slots[..|slots| - 1], x);
    }
  }

  lemma ToldMore(outcomes: seq<Outcome>, o: Outcome, x: nat)
    ensures Told(outcomes + [o], x) == Told(outcomes, x) + Tells(o, x)
  {
    assert (outcomes + [o])[..|outcomes|] == outcomes;
  }

  /** No slot belongs to a dispatcher. */
  predicate NoneSuppressed(slots: seq<Slot>) {
    forall k :: 0 <= k < |slots| && slots[k].Busy? ==> !slots[k].suppress
  }

  /** What a wait leaves alone: nothing is placed, slots are at most freed, replies are given only where
    * a slot owed them. */
  ghost predicate Waited(s: Sys, s': Sys) {
    && s'.placed == s.placed && |s'.unpublished| <= |s.unpublished|
    && OnlyFreed(s.slots, s'.slots)
    && forall x: nat :: Due(s', x) == Due(s, x)
  }

  lemma WaitedThen(a: Sys, b: Sys, c: Sys)
    requires Waited(a, b) && Waited(b, c)
    ensures Waited(a, c)
  {
    hide Due;
  }

  lemma WaitedNot(s: Sys)
    ensures Waited(s, s)
  {
  }

  lemma RingWaited(s: Sys)
    ensures Waited(s, RingSQ(s))
  {
  }

  lemma HarvestOneWaited(cfg: Config, s: Sys)
    requires Shape(cfg, s) && s.posted != []
    ensures Waited(s, HarvestOne(cfg, s))
  {
    var k, s' := s.posted[0].cid - 1, HarvestOne(cfg, s);
    HarvestQueues(cfg, s);
    HarvestOneSlots(cfg, s);
    hide HarvestOne, Shape, Owned, Told, Answers;
    if 0 <= k < MAX_INFLIGHT && s.slots[k].Busy? {
      HeadHandsOver(cfg, s);
      forall x: nat
        ensures Due(s', x) == Due(s, x)
      {
        OwnedUpdate(s.slots, k, Free, x);
        ToldMore(s.outcomes, s'.outcomes[|s.outcomes|], x);
        SameAnswer(s.slots[k], s'.outcomes[|s.outcomes|], x);
      }
    }
  }

  lemma SameAnswer(b: Slot, o: Outcome, x: nat)
    requires b.Busy? && ReportsOn(b, o)
    ensures Answers(b, x) == Tells(o, x) && Answers(Free, x) == 0
  {
  }

  lemma HarvestOneSlots(cfg: Config, s: Sys)
    requires Shape(cfg, s) && s.posted != []
    ensures var k, s' := s.posted[0].cid - 1, HarvestOne(cfg, s);
      && |s.slots| == MAX_INFLIGHT && s'.placed == s.placed
      && if 0 <= k < MAX_INFLIGHT && s.slots[k].Busy? then s'.slots == s.slots[k := Free]
         else s'.slots == s.slots && s'.outcomes == s.outcomes
  {
    hide BounceOut, Described, Layout;
  }

  lemma {:induction false} HarvestWaited(cfg: Config, s: Sys)
    requires Shape(cfg, s)
    ensures Waited(s, Harvest(cfg, s))
    decreases |s.posted|
  {
    hide Shape, HarvestOne, Waited;
    WaitedNot(s);
    if s.posted != [] {
      HarvestOneWaited(cfg, s);
      HarvestWaited(cfg, HarvestOne(cfg, s));
      WaitedThen(s, HarvestOne(cfg, s), Harvest(cfg, s));
    }
  }

  lemma HappenWaited(cfg: Config, s: Sys, st: Step)
    requires Shape(cfg, s)
    ensures Waited(s, Happen(cfg, s, st))
  {
    HappenOutcomes(cfg, s, st);
    HappenPlaced(cfg, s, st);
    hide Happen, Shape;
  }

  lemma HappenPlaced(cfg: Config, s: Sys, st: Step)
    requires Shape(cfg, s)
    ensures Happen(cfg, s, st).placed == s.placed && Happen(cfg, s, st).slots == s.slots
  {
    hide MemAfter, DiskAfter, Executable, ClientMay, Described, Layout;
  }

  lemma {:induction false} ElapseWaited(cfg: Config, s: Sys, turn: Turn)
    requires Shape(cfg, s)
    ensures Waited(s, Elapse(cfg, s, turn))
    decreases |turn|
  {
    hide Shape, Happen, Waited;
    WaitedNot(s);
    if turn != [] {
      HappenWaited(cfg, s, turn[0]);
      ElapseWaited(cfg, Happen(cfg, s, turn[0]), turn[1..]);
      WaitedThen(s, Happen(cfg, s, turn[0]), Elapse(cfg, s, turn));
    }
  }

  lemma PollWaited(cfg: Config, s: Sys, turn: Turn)
    requires Shape(cfg, s)
    ensures Waited(s, Harvest(cfg, s)) && Waited(s, Elapse(cfg, Harvest(cfg, s), turn))
  {
    hide Shape, Harvest, Elapse, Waited;
    HarvestWaited(cfg, s);
    ElapseWaited(cfg, Harvest(cfg, s), turn);
    WaitedThen(s, Harvest(cfg, s), Elapse(cfg, Harvest(cfg, s), turn));
  }

  lemma {:induction false} AwaitSlotWaited(cfg: Config, s: Sys, script: seq<Turn>)
    requires Shape(cfg, s)
    ensures Waited(s, AwaitSlot(cfg, s, script).1)
    decreases |script|
  {
    hide Shape, Harvest, Elapse, FindFree, Waited;
    WaitedNot(s);
    if script != [] && FindFree(s.slots).None? {
      var s1 := Elapse(cfg, Harvest(cfg, s), script[0]);
      PollWaited(cfg, s, script[0]);
      AwaitSlotWaited(cfg, s1, script[1..]);
      WaitedThen(s, s1, AwaitSlot(cfg, s, script).1);
    }
  }

  lemma {:induction false} AwaitSlotLateWaited(cfg: Config, s: Sys, script: seq<Turn>)
    requires Shape(cfg, s)
    ensures Waited(s, AwaitSlotLate(cfg, s, script).1)
    decreases |script|
  {
    hide Shape, Harvest, Elapse, FindFree, Waited;
    WaitedNot(s);
    if script != [] {
      PollWaited(cfg, s, script[0]);
      if FindFree(Harvest(cfg, s).slots).None? {
        var s1 := Elapse(cfg, Harvest(cfg, s), script[0]);
        AwaitSlotLateWaited(cfg, s1, script[1..]);
        WaitedThen(s, s1, AwaitSlotLate(cfg, s, script).1);
      }
    }
  }

  lemma {:induction false} AwaitDoneWaited(cfg: Config, s: Sys, k: nat, script: seq<Turn>)
    requires Shape(cfg, s) && k < MAX_INFLIGHT
    ensures Waited(s, AwaitDone(cfg, s, k, script).1)
    decreases |script|
  {
    hide Shape, Harvest, Elapse, Waited;
    WaitedNot(s);
    if script != [] {
      PollWaited(cfg, s, script[0]);
      ShapeSize(cfg, Harvest(cfg, s));
      if Harvest(cfg, s).slots[k].Busy? {
        var s1 := Elapse(cfg, Harvest(cfg, s), script[0]);
        AwaitDoneWaited(cfg, s1, k, script[1..]);
        WaitedThen(s, s1, AwaitDone(cfg, s, k, script).1);
      }
    }
  }

  // ----- Dispatching ---------------------------------------------------------------------

  /** A dispatch of request `id`: at most as many SQEs are unpublished as have been placed, `n` more
    * replies are due from slots to this request, none to any other, and no slot is left suppressed. */
  ghost predicate Owes(s: Sys, s': Sys, id: nat, n: int) {
    && s.placed <= s'.placed && |s'.unpublished| <= |s.unpublished| + (s'.placed - s.placed)
    && (NoneSuppressed(s.slots) ==> NoneSuppressed(s'.slots))
    && forall x: nat :: Due(s', x) == Due(s, x) + if x == id then n else 0
  }

  lemma WaitedOwes(s: Sys, s': Sys, id: nat)
    requires Waited(s, s')
    ensures Owes(s, s', id, 0)
  {
    hide Due;
  }

  lemma OwesThen(a: Sys, b: Sys, c: Sys, id: nat, m: int, n: int)
    requires Owes(a, b, id, m) && Owes(b, c, id, n)
    ensures Owes(a, c, id, m + n)
  {
    hide Due, NoneSuppressed;
  }

  lemma SubmitOwes(cfg: Config, s: Sys, r: Request, w: bool, env: DmaEnv)
    requires Shape(cfg, s) && Described(cfg, r)
    ensures var (rc, s') := SubmitNoRing(cfg, s, r, w, env); Owes(s, s', r.id, if rc == Submitted then 1 else 0)
  {
    SubmitPlaces(cfg, s, r, w, env);
    SubmitSlot(cfg, s, r, w, env);
    hide SubmitNoRing, Shape, Described, FindFree;
    var (rc, s') := SubmitNoRing(cfg, s, r, w, env);
    if rc == Submitted {
      var k := FindFree(s.slots).value;
      forall x: nat
        ensures Due(s', x) == Due(s, x) + if x == r.id then 1 else 0
      {
        OwnedUpdate(s.slots, k, s'.slots[k], x);
      }
    }
  }

  lemma ControlOwes(s: Sys, r: Request, sqe: Sqe, sup: bool)
    requires Dataless(sqe)
    ensures var (rc, s') := SubmitControl(s, r, sqe, sup);
      && s.placed <= s'.placed && |s'.unpublished| <= |s.unpublished| + (s'.placed - s.placed)
      && (forall x: nat :: Due(s', x) == Due(s, x) + if x == r.id && rc == Submitted && !sup then 1 else 0)
      && (!sup ==> Owes(s, s', r.id, if rc == Submitted then 1 else 0))
  {
    hide FindFree;
    var f := FindFree(s.slots);
    if f.Some? {
      var b := Busy(r, false, NoData, sup);
      forall x: nat
        ensures Owned(s.slots[f.value := b], x) == Owned(s.slots, x) + if x == r.id && !sup then 1 else 0
      {
        OwnedUpdate(s.slots, f.value, b, x);
      }
    }
  }

  /** A suppressed reply is the dispatcher's to give. */
  lemma SuppressDue(s: Sys, k: nat, x: nat)
    requires k < |s.slots| && s.slots[k].Busy?
    ensures Due(Suppressed(s, k), x) + Answers(s.slots[k], x) == Due(s, x)
  {
    OwnedUpdate(s.slots, k, s.slots[k].(suppress := true), x);
  }

  lemma GiveUpDue(s: Sys, k: nat, x: nat)
    requires k < |s.slots| && s.slots[k].Busy?
    ensures Due(GiveUp(s, k), x) + Answers(s.slots[k], x) == Due(s, x)
    ensures var s' := GiveUp(s, k);
      s'.slots == s.slots[k := Free] && s'.placed == s.placed && s'.unpublished == s.unpublished && s'.outcomes == s.outcomes
  {
    OwnedUpdate(s.slots, k, Free, x);
  }

  /** Waiting for slot `k`, whose reply is suppressed, and giving up on it if need be. */
  lemma AwaitOwes(cfg: Config, s: Sys, k: nat, script: seq<Turn>)
    requires Shape(cfg, s) && k < MAX_INFLIGHT && s.slots[k].Busy? && s.slots[k].suppress
    requires forall j :: 0 <= j < MAX_INFLIGHT && j != k && s.slots[j].Busy? ==> !s.slots[j].suppress
    ensures var (done, s1) := AwaitDone(cfg, s, k, script);
      && |s1.slots| == MAX_INFLIGHT && (!done ==> s1.slots[k].Busy?)
      && var s' := if done then s1 else GiveUp(s1, k);
      && s'.placed == s.placed && |s'.unpublished| <= |s.unpublished| && NoneSuppressed(s'.slots)
      && forall x: nat :: Due(s', x) == Due(s, x)
  {
    AwaitDoneWaited(cfg, s, k, script);
    var (done, s1) := AwaitDone(cfg, s, k, script);
    ShapeSize(cfg, s);
    ShapeSize(cfg, s1);
    hide AwaitDone, Shape, Due;
    if !done {
      forall x: nat
        ensures Due(GiveUp(s1, k), x) == Due(s1, x)
      {
        GiveUpDue(s1, k, x);
      }
      GiveUpDue(s1, k, 0);
    }
  }

  lemma FlushOwes(s: Sys, r: Request)
    ensures var (rc, s') := Flush(s, r); Owes(s, s', r.id, if rc == Submitted then 1 else 0)
  {
    ControlOwes(s, r, FLUSH_SQE, false);
    var (rc, s1) := SubmitControl(s, r, FLUSH_SQE, false);
    RingWaited(s1);
    WaitedOwes(s1, RingSQ(s1), r.id);
    hide SubmitControl, Owes;
    if rc == Submitted { OwesThen(s, s1, RingSQ(s1), r.id, 1, 0); }
  }

  lemma SubmitRingOwes(cfg: Config, s: Sys, r: Request, w: bool, env: DmaEnv)
    requires Shape(cfg, s) && Described(cfg, r)
    ensures var (rc, s') := Submit(cfg, s, r, w, env); Owes(s, s', r.id, if rc == Submitted then 1 else 0)
  {
    SubmitOwes(cfg, s, r, w, env);
    var (rc, s1) := SubmitNoRing(cfg, s, r, w, env);
    RingWaited(s1);
    WaitedOwes(s1, RingSQ(s1), r.id);
    hide SubmitNoRing, Owes, Shape, Described;
    if rc == Submitted { OwesThen(s, s1, RingSQ(s1), r.id, 1, 0); }
  }

  /** wait_for_free_slot, its doorbell write included. */
  lemma RungWaitOwes(cfg: Config, s: Sys, script: seq<Turn>, id: nat)
    requires Shape(cfg, s)
    ensures Shape(cfg, RingSQ(s)) && Owes(s, AwaitSlot(cfg, RingSQ(s), script).1, id, 0)
  {
    hide AwaitSlot, Shape, Waited, Owes;
    ShapeSize(cfg, s);
    RingWaited(s);
    AwaitSlotWaited(cfg, RingSQ(s), script);
    WaitedThen(s, RingSQ(s), AwaitSlot(cfg, RingSQ(s), script).1);
    WaitedOwes(s, AwaitSlot(cfg, RingSQ(s), script).1, id);
  }

  lemma FastPathOwes(cfg: Config, s: Sys, r: Request, w: bool, env: ChunkEnv)
    requires Shape(cfg, s) && Described(cfg, r)
    ensures var (rc, s') := FastPath(cfg, s, r, w, env); Owes(s, s', r.id, if rc == Submitted then 1 else 0)
  {
    hide Shape, Described, SubmitNoRing, AwaitSlot, Owes;
    SubmitOwes(cfg, s, r, w, env.dma);
    var (rc, s1) := SubmitNoRing(cfg, s, r, w, env.dma);
    if rc == NoSlot {
      RungWaitOwes(cfg, s1, env.slotScript, r.id);
      var (freed, s2) := AwaitSlot(cfg, RingSQ(s1), env.slotScript);
      OwesThen(s, s1, s2, r.id, 0, 0);
      if freed {
        SubmitOwes(cfg, s2, r, w, env.retry);
        var (rc', s') := SubmitNoRing(cfg, s2, r, w, env.retry);
        OwesThen(s, s2, s', r.id, 0, if rc' == Submitted then 1 else 0);
      }
    }
  }

  lemma SubmitPatientlyOwes(cfg: Config, s: Sys, r: Request, w: bool, env: ChunkEnv)
    requires Shape(cfg, s) && Described(cfg, r)
    ensures var (rc, s') := SubmitPatiently(cfg, s, r, w, env); Owes(s, s', r.id, if rc == Submitted then 1 else 0)
  {
    hide Shape, Described, Submit, AwaitSlot, Owes;
    SubmitRingOwes(cfg, s, r, w, env.dma);
    var (rc, s1) := Submit(cfg, s, r, w, env.dma);
    if rc == NoSlot {
      RungWaitOwes(cfg, s1, env.slotScript, r.id);
      var (freed, s2) := AwaitSlot(cfg, RingSQ(s1), env.slotScript);
      OwesThen(s, s1, s2, r.id, 0, 0);
      if freed {
        SubmitRingOwes(cfg, s2, r, w, env.retry);
        var (rc', s') := Submit(cfg, s2, r, w, env.retry);
        OwesThen(s, s2, s', r.id, 0, if rc' == Submitted then 1 else 0);
      }
    }
  }

  /** A chunk takes its slot's reply away again. */
  lemma FinishChunkOwes(cfg: Config, s: Sys, k: nat, script: seq<Turn>)
    requires Shape(cfg, s) && k < MAX_INFLIGHT && s.slots[k].Busy? && NoneSuppressed(s.slots)
    ensures Owes(s, FinishChunk(cfg, s, k, script).1, s.slots[k].req.id, -1)
  {
    FinishChunkIs(cfg, s, k, script);
    ShapeSize(cfg, s);
    var t := Suppressed(s, k);
    AwaitOwes(cfg, t, k, script);
    hide FinishChunk, AwaitDone, Shape, Due;
    forall x: nat
      ensures Due(t, x) == Due(s, x) - if x == s.slots[k].req.id then 1 else 0
    {
      SuppressDue(s, k, x);
    }
  }

  lemma OneChunkOwes(cfg: Config, s: Sys, c: Request, w: bool, env: ChunkEnv)
    requires Shape(cfg, s) && Described(cfg, c) && NoneSuppressed(s.slots)
    ensures Owes(s, OneChunk(cfg, s, c, w, env).1, c.id, 0)
  {
    SubmitPatientlyOwes(cfg, s, c, w, env);
    var (rc, s1) := SubmitPatiently(cfg, s, c, w, env);
    if rc == Submitted {
      SubmittedFound(cfg, s, c, w, env);
      assert NoneSuppressed(s1.slots);
      hide Owes, Shape, Described, SubmitPatiently, FinishChunk, FindRequest, NoneSuppressed;
      var k := FindRequest(s1.slots, c.id).value;
      ShapeSize(cfg, s1);
      FinishChunkOwes(cfg, s1, k, env.doneScript);
      OwesThen(s, s1, FinishChunk(cfg, s1, k, env.doneScript).1, c.id, 1, -1);
    }
    hide Owes, Shape, Described, SubmitPatiently, FinishChunk, FindRequest, NoneSuppressed;
  }

  /** What has just been submitted is found. */
  lemma SubmittedFound(cfg: Config, s: Sys, c: Request, w: bool, env: ChunkEnv)
    requires Shape(cfg, s) && Described(cfg, c) && SubmitPatiently(cfg, s, c, w, env).0 == Submitted
    ensures FindRequest(SubmitPatiently(cfg, s, c, w, env).1.slots, c.id).Some?
  {
    hide Shape, Described, SubmitNoRing, AwaitSlot, FindFree;
    SubmitSlot(cfg, s, c, w, env.dma);
    var (rc, s1) := Submit(cfg, s, c, w, env.dma);
    ShapeSize(cfg, s1);
    var (freed, s2) := AwaitSlot(cfg, RingSQ(s1), env.slotScript);
    if freed { SubmitSlot(cfg, s2, c, w, env.retry); }
  }

  lemma {:induction false} ChunkLoopOwes(cfg: Config, s: Sys, r: Request, w: bool, cap: nat, done: nat, envs: nat -> ChunkEnv, sgOf: Chunking.SgOf)
    requires Shape(cfg, s) && done <= r.length && Chunking.Consistent(cfg.ps, r, sgOf) && NoneSuppressed(s.slots)
    ensures Owes(s, ChunkLoop(cfg, s, r, w, cap, done, envs, sgOf).2, r.id, 0)
    decreases r.length - done
  {
    hide *;
    ShapeSize(cfg, s);
    if done == r.length {
      LoopOver(cfg, s, r, w, cap, envs, sgOf);
      WaitedNot(s);
      WaitedOwes(s, s, r.id);
    } else {
      LoopUnfolds(cfg, s, r, w, cap, done, envs, sgOf);
      ChunkGoesOn(cfg, s, r, w, cap, done, envs, sgOf);
      var c := Chunking.Chunk(r, done, cap, sgOf);
      OneChunkOwes(cfg, s, c, w, envs(done));
      var (end, s1) := OneChunk(cfg, s, c, w, envs(done));
      if end == ChunkDone {
        OwesNone(s, s1, r.id, 0);
        ChunkLoopOwes(cfg, s1, r, w, cap, done + c.length, envs, sgOf);
        OwesThen(s, s1, ChunkLoop(cfg, s1, r, w, cap, done + c.length, envs, sgOf).2, r.id, 0, 0);
      }
    }
  }

  lemma OwesNone(s: Sys, s': Sys, id: nat, n: int)
    requires Owes(s, s', id, n) && NoneSuppressed(s.slots)
    ensures NoneSuppressed(s'.slots)
  {
  }

  lemma ChunkGoesOn(cfg: Config, s: Sys, r: Request, w: bool, cap: nat, done: nat, envs: nat -> ChunkEnv, sgOf: Chunking.SgOf)
    requires Shape(cfg, s) && done < r.length && Chunking.Consistent(cfg.ps, r, sgOf)
    ensures cfg.ps > 0 && r.length == |r.payload| && Described(cfg, Chunking.Chunk(r, done, cap, sgOf))
    ensures var c := Chunking.Chunk(r, done, cap, sgOf);
      c.id == r.id && done + c.length <= r.length && (OneChunk(cfg, s, c, w, envs(done)).0 == ChunkDone ==> c.length > 0)
  {
    ShapeSize(cfg, s);
    ChunkDescribed(cfg, r, done, cap, sgOf);
    hide Shape, OneChunk, Described, Chunking.Consistent;
  }

  lemma SubmitAndWaitOwes(cfg: Config, s: Sys, r: Request, sqe: Sqe, slotScript: seq<Turn>, doneScript: seq<Turn>)
    requires Shape(cfg, s) && Dataless(sqe) && NoneSuppressed(s.slots)
    ensures Owes(s, SubmitAndWait(cfg, s, r, sqe, slotScript, doneScript).1, r.id, 0)
  {
    WaitUnfolds(cfg, s, r, sqe, slotScript, doneScript);
    SlotForWaitWaited(cfg, s, slotScript);
    var (got, s1) := SlotForWait(cfg, s, slotScript);
    WaitedOwes(s, s1, r.id);
    assert NoneSuppressed(s1.slots);
    if got {
      var k, t := FindFree(s1.slots).value, RingSQ(SubmitControl(s1, r, sqe, true).1);
      ControlTaken(s1, r, sqe);
      ControlOwes(s1, r, sqe, true);
      hide SubmitAndWait, SlotForWait, Shape, Due, SubmitControl, FindFree;
      ShapeSize(cfg, s1);
      AwaitOwes(cfg, t, k, doneScript);
      AnswerIs(cfg, t, k, doneScript);
      assert forall x: nat :: Due(t, x) == Due(SubmitControl(s1, r, sqe, true).1, x) by { RingWaited(SubmitControl(s1, r, sqe, true).1); }
    }
    hide SubmitAndWait, SlotForWait, Shape, Due;
  }

  lemma ControlTaken(s: Sys, r: Request, sqe: Sqe)
    requires FindFree(s.slots).Some? && Dataless(sqe)
    ensures var t := SubmitControl(s, r, sqe, true).1;
      t.slots == s.slots[FindFree(s.slots).value := Busy(r, false, NoData, true)]
  {
  }

  lemma SlotForWaitWaited(cfg: Config, s: Sys, script: seq<Turn>)
    requires Shape(cfg, s)
    ensures Waited(s, SlotForWait(cfg, s, script).1)
  {
    hide Shape, AwaitSlotLate, FindFree, Waited;
    WaitedNot(s);
    ShapeSize(cfg, s);
    RingWaited(s);
    if FindFree(s.slots).None? {
      AwaitSlotLateWaited(cfg, RingSQ(s), script);
      WaitedThen(s, RingSQ(s), AwaitSlotLate(cfg, RingSQ(s), script).1);
    }
  }
}
