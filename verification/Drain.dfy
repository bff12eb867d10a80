/** A drain of the unit's port: one dispatch after the other, and the doorbell at its end.
  *
  * dispatch_ioreq leaves within-cap transfers unpublished; whether they are published when the
  * drain is over depends on a comparison of tails.  A burst of requests longer than the pipeline
  * leans on back-pressure. */
module Drain {
  import opened Base
  import opened Memory
  import opened Modular
  import opened Prp
  import opened Commands
  import opened Pipeline
  import opened Matching
  import opened Waiting
  import opened Chunking
  import opened Dispatch
  import opened Answering

  /** A message on the port, and what the environment does while it is dispatched. */
  datatype Message =
    | Transfer(req: Request, isWrite: bool, cap: nat, env: ChunkEnv, envs: nat -> ChunkEnv, sgOf: SgOf)
    | FlushCache(req: Request, slotScript: seq<Turn>)
    | Synchronous(req: Request, sqe: Sqe, slotScript: seq<Turn>, doneScript: seq<Turn>)  // through SubmitAndWait
    | Immediate(req: Request, error: IoError)                                            // replied at once

  /** What the dispatcher is left with: Harvest will reply, the request is replied with an error code, or
    * a SCSI handler replies with what SubmitAndWait told it. */
  datatype Fate = Pending | Answered(error: IoError) | Reported(end: WaitEnd) | Lost

  /** Which command is dispatched how, what GetDMAList reports about the message's buffer, and that a
    * synchronous command moves no data. */
  ghost predicate Sound(cfg: Config, m: Message)
    requires cfg.ps > 0
  {
    match m
    case Transfer(r, isWrite, cap, _, _, sgOf) =>
      Directed(r, isWrite) && Described(cfg, r) && r.sg == sgOf(r.data, r.length) && (r.length > cap ==> Consistent(cfg.ps, r, sgOf))
    case FlushCache(r, _) => Handled(r.command) == FlushCommand
    case Synchronous(r, sqe, _, _) => Handled(r.command) == ScsiCommand && Dataless(sqe)
    case Immediate(r, error) => AnsweredAtOnce(r, error)
  }

  /** The answers dispatch_ioreq or a SCSI handler gives without a command of its own. */
  predicate AnsweredAtOnce(r: Request, error: IoError) {
    match Handled(r.command)
    case Geometry(bytes) => error == if r.data == 0 || r.length < bytes then BadLength else NoError
    case Seek => error == NoError
    case NotHandled => error == NoCmd
    case ScsiCommand => error == NoError || error == BadStatus
    case _ => false
  }

  /** Flush in dispatch_ioreq: submit; if the pipeline is full, wait for a slot and submit again. */
  function FlushPatiently(cfg: Config, s: Sys, r: Request, script: seq<Turn>): (o: (Rc, Sys))
    requires Shape(cfg, s)
    ensures Shape(cfg, o.1)
  {
    var (rc, s1) := Flush(s, r);
    if rc != NoSlot then (rc, s1)
    else
      var (freed, s2) := AwaitSlot(cfg, RingSQ(s1), script);
      if freed then Flush(s2, r) else (NoSlot, s2)
  }

  function FateOf(rc: Rc): Fate {
    if rc == Submitted then Pending else Answered(ErrorOf(rc))
  }

  /** dispatch_ioreq. */
  ghost function Dispatched(cfg: Config, s: Sys, m: Message): (o: (Fate, Sys))
    requires Shape(cfg, s) && Sound(cfg, m)
    ensures Shape(cfg, o.1)
  {
    match m
    case Transfer(r, isWrite, cap, env, envs, sgOf) =>
      if r.length <= cap then
        var (rc, s') := FastPath(cfg, s, r, isWrite, env);
        (FateOf(rc), s')
      else
        var (end, at, s') := ChunkLoop(cfg, s, r, isWrite, cap, 0, envs, sgOf);
        (if end == TimedOut then Lost else Answered(EndError(end)), s')
    case FlushCache(r, script) =>
      var (rc, s') := FlushPatiently(cfg, s, r, script);
      (FateOf(rc), s')
    case Synchronous(r, sqe, slotScript, doneScript) =>
      var (end, s') := SubmitAndWait(cfg, s, r, sqe, slotScript, doneScript);
      (if end == NoAnswer then Lost else Reported(end), s')
    case Immediate(_, error) => (Answered(error), s)
  }

  ghost function Drained(cfg: Config, s: Sys, ms: seq<Message>): (s': Sys)
    requires Shape(cfg, s) && forall m :: m in ms ==> Sound(cfg, m)
    ensures Shape(cfg, s')
    decreases |ms|
  {
    if ms == [] then s else Drained(cfg, Dispatched(cfg, s, ms[0]).1, ms[1..])
  }

  /** How many of the messages time out. */
  ghost function LostIn(cfg: Config, s: Sys, ms: seq<Message>): nat
    requires Shape(cfg, s) && forall m :: m in ms ==> Sound(cfg, m)
    decreases |ms|
  {
    if ms == [] then 0
    else
      var (fate, s1) := Dispatched(cfg, s, ms[0]);
      (if fate == Lost then 1 else 0) + LostIn(cfg, s1, ms[1..])
  }

  // ----- Nothing is left unpublished -----------------------------------------------------

  /** `if (unit->io_sq_tail != tail_before) NVMeIO_RingSQ(unit)`, with tails modulo the depth. */
  function RungIfMoved(before: Sys, s: Sys, depth: nat): Sys
    requires depth > 0
  {
    if (s.placed - before.placed) % depth != 0 then RingSQ(s) else s
  }

  /** An occupied slot that works for `r` in the way its command names: without data for a flush, into memory
    * for a read, onto the disk for a write or format, and it will be replied by Harvest. */
  predicate WorksFor(b: Slot, r: Request) {
    && b.Busy? && b.req == r && !b.suppress
    && (b.path.NoData? <==> IsFlush(r.command))
    && (MovesData(b) && !b.isWrite <==> IsRead(r.command))
    && (MovesData(b) && b.isWrite <==> IsWrite(r.command))
  }

  /** What dispatch leaves in the pipeline goes in the direction its command names; and a command that moves
    * data is never answered at once. */
  lemma DispatchedAsNamed(cfg: Config, s: Sys, m: Message)
    requires Shape(cfg, s) && Sound(cfg, m)
    ensures var (fate, s') := Dispatched(cfg, s, m);
      && (fate == Pending ==> exists k :: 0 <= k < MAX_INFLIGHT == |s'.slots| && WorksFor(s'.slots[k], m.req))
      && (m.Immediate? || m.Synchronous? ==> fate != Pending && !IsRead(m.req.command) && !IsWrite(m.req.command) && !IsFlush(m.req.command))
  {
    SwitchExact(m.req.command);
    hide FastPath, ChunkLoop, SubmitAndWait, FlushPatiently, Shape, Described, Consistent, IsRead, IsWrite, IsFlush, Handled;
    match m
    case Transfer(r, isWrite, cap, env, envs, sgOf) =>
      if r.length <= cap && FastPath(cfg, s, r, isWrite, env).0 == Submitted { FastPathSlot(cfg, s, r, isWrite, env); }
    case FlushCache(r, script) =>
      if FlushPatiently(cfg, s, r, script).0 == Submitted { FlushSlot(cfg, s, r, script); }
    case _ =>
  }

  lemma FastPathSlot(cfg: Config, s: Sys, r: Request, w: bool, env: ChunkEnv)
    requires Shape(cfg, s) && Described(cfg, r) && Directed(r, w) && FastPath(cfg, s, r, w, env).0 == Submitted
    ensures var s' := FastPath(cfg, s, r, w, env).1; exists k :: 0 <= k < MAX_INFLIGHT == |s'.slots| && WorksFor(s'.slots[k], r)
  {
    SwitchExact(r.command);
    hide SubmitNoRing, AwaitSlot, Described, FindFree, IsRead, IsWrite, IsFlush, Handled, Layout;
    var (rc, s1) := SubmitNoRing(cfg, s, r, w, env.dma);
    ShapeSize(cfg, s1);
    var t := if rc != NoSlot then s else AwaitSlot(cfg, RingSQ(s1), env.slotScript).1;
    var dma := if rc != NoSlot then env.dma else env.retry;
    SubmitSlot(cfg, t, r, w, dma);
    assert FastPath(cfg, s, r, w, env) == SubmitNoRing(cfg, t, r, w, dma);
    assert WorksFor(FastPath(cfg, s, r, w, env).1.slots[FindFree(t.slots).value], r);
  }

  lemma FlushSlot(cfg: Config, s: Sys, r: Request, script: seq<Turn>)
    requires Shape(cfg, s) && Handled(r.command) == FlushCommand && FlushPatiently(cfg, s, r, script).0 == Submitted
    ensures var s' := FlushPatiently(cfg, s, r, script).1; exists k :: 0 <= k < MAX_INFLIGHT == |s'.slots| && WorksFor(s'.slots[k], r)
  {
    SwitchExact(r.command);
    hide AwaitSlot, Described, FindFree, IsRead, IsWrite, IsFlush, Handled, Layout;
    FlushShape(cfg, s, r);
    var (rc, s1) := Flush(s, r);
    var t := if rc != NoSlot then s else AwaitSlot(cfg, RingSQ(s1), script).1;
    assert FlushPatiently(cfg, s, r, script) == Flush(t, r);
    assert WorksFor(Flush(t, r).1.slots[FindFree(t.slots).value], r);
  }

  lemma DispatchedOwes(cfg: Config, s: Sys, m: Message)
    requires Shape(cfg, s) && Sound(cfg, m) && NoneSuppressed(s.slots)
    ensures var (fate, s') := Dispatched(cfg, s, m); Owes(s, s', m.req.id, if fate == Pending then 1 else 0)
  {
    hide FastPath, ChunkLoop, SubmitAndWait, FlushPatiently, Shape, Owes, NoneSuppressed, Described, Consistent;
    match m
    case Transfer(r, isWrite, cap, env, envs, sgOf) =>
      if r.length <= cap {
        FastPathOwes(cfg, s, r, isWrite, env);
      } else {
        ChunkLoopOwes(cfg, s, r, isWrite, cap, 0, envs, sgOf);
      }
    case FlushCache(r, script) => FlushPatientlyOwes(cfg, s, r, script);
    case Synchronous(r, sqe, slotScript, doneScript) => SubmitAndWaitOwes(cfg, s, r, sqe, slotScript, doneScript);
    case Immediate(r, _) =>
      WaitedNot(s);
      WaitedOwes(s, s, r.id);
  }

  lemma FlushPatientlyOwes(cfg: Config, s: Sys, r: Request, script: seq<Turn>)
    requires Shape(cfg, s)
    ensures var (rc, s') := FlushPatiently(cfg, s, r, script); Owes(s, s', r.id, if rc == Submitted then 1 else 0)
  {
    hide Shape, Flush, AwaitSlot, Owes;
    FlushOwes(s, r);
    var (rc, s1) := Flush(s, r);
    if rc == NoSlot {
      FlushShape(cfg, s, r);
      RungWaitOwes(cfg, s1, script, r.id);
      var (freed, s2) := AwaitSlot(cfg, RingSQ(s1), script);
      OwesThen(s, s1, s2, r.id, 0, 0);
      if freed {
        FlushOwes(s2, r);
        var (rc', s') := Flush(s2, r);
        OwesThen(s, s2, s', r.id, 0, if rc' == Submitted then 1 else 0);
      }
    }
  }

  lemma FlushShape(cfg: Config, s: Sys, r: Request)
    requires Shape(cfg, s)
    ensures Shape(cfg, Flush(s, r).1) && (Flush(s, r).0 == NoSlot <==> FindFree(s.slots).None?)
    ensures Flush(s, r).0 == NoSlot ==> Flush(s, r).1 == s
  {
    hide Described, Layout;
  }

  /** What a whole drain places and leaves unpublished; what slots owe afterwards. */
  lemma {:induction false} DrainPlaces(cfg: Config, s: Sys, ms: seq<Message>)
    requires Shape(cfg, s) && (forall m :: m in ms ==> Sound(cfg, m)) && NoneSuppressed(s.slots)
    ensures var s' := Drained(cfg, s, ms);
      && s.placed <= s'.placed && |s'.unpublished| <= |s.unpublished| + (s'.placed - s.placed) && NoneSuppressed(s'.slots)
    decreases |ms|
  {
    hide Shape, Dispatched, Sound, NoneSuppressed;
    if ms != [] {
      var s1 := Dispatched(cfg, s, ms[0]).1;
      DispatchedOwes(cfg, s, ms[0]);
      OwesNone(s, s1, ms[0].req.id, if Dispatched(cfg, s, ms[0]).0 == Pending then 1 else 0);
      DrainPlaces(cfg, s1, ms[1..]);
    }
  }

  /** A drain that starts with everything published ends so if and only if nothing was placed since the
    * last doorbell, or what was placed in all is not a multiple of the depth; in particular whenever
    * the messages cannot place as many as depth, which can be counted before the drain. */
  lemma DrainPublishes(cfg: Config, s: Sys, ms: seq<Message>, depth: nat)
    requires Shape(cfg, s) && (forall m :: m in ms ==> Sound(cfg, m)) && NoneSuppressed(s.slots) && s.unpublished == [] && depth > 0
    ensures var s1 := Drained(cfg, s, ms);
      && s.placed <= s1.placed <= s.placed + TotalCost(ms)
      && var s' := RungIfMoved(s, s1, depth);
      && (s'.unpublished == [] <==> s1.unpublished == [] || (s1.placed - s.placed) % depth != 0)
      && (s1.placed - s.placed < depth ==> s'.unpublished == [])
      && (TotalCost(ms) < depth ==> s'.unpublished == [])
  {
    hide Drained, Shape, Sound, TotalCost;
    DrainPlaces(cfg, s, ms);
    DrainCosts(cfg, s, ms);
    var n := Drained(cfg, s, ms).placed - s.placed;
    if n < depth { assert n % depth == n; }
  }

  // ----- What messages can place ---------------------------------------------------------

  /** SQEs a message can place at most: one, or one for each chunk. */
  function Cost(m: Message): nat {
    match m
    case Transfer(r, _, cap, _, _, _) => if r.length <= cap then 1 else if cap == 0 then 0 else NumPages(r.length, cap)
    case FlushCache(_, _) => 1
    case Synchronous(_, _, _, _) => 1
    case Immediate(_, _) => 0
  }

  function TotalCost(ms: seq<Message>): nat {
    if ms == [] then 0 else Cost(ms[0]) + TotalCost(ms[1..])
  }

  lemma SubmitCosts(cfg: Config, s: Sys, r: Request, w: bool, env: DmaEnv)
    requires Shape(cfg, s) && Described(cfg, r)
    ensures SubmitNoRing(cfg, s, r, w, env).1.placed == s.placed + if SubmitNoRing(cfg, s, r, w, env).0 == Submitted then 1 else 0
  {
    SubmitPlaces(cfg, s, r, w, env);
    hide SubmitNoRing, Shape, Described, FindFree;
  }

  lemma RungWaitCosts(cfg: Config, s: Sys, script: seq<Turn>)
    requires Shape(cfg, s)
    ensures Shape(cfg, RingSQ(s)) && AwaitSlot(cfg, RingSQ(s), script).1.placed == s.placed
  {
    ShapeSize(cfg, s);
    AwaitSlotWaited(cfg, RingSQ(s), script);
    hide AwaitSlot, Shape, Due;
  }

  lemma FastPathCosts(cfg: Config, s: Sys, r: Request, w: bool, env: ChunkEnv)
    requires Shape(cfg, s) && Described(cfg, r)
    ensures FastPath(cfg, s, r, w, env).1.placed <= s.placed + 1
  {
    hide Shape, Described, SubmitNoRing, AwaitSlot;
    SubmitCosts(cfg, s, r, w, env.dma);
    var (rc, s1) := SubmitNoRing(cfg, s, r, w, env.dma);
    if rc == NoSlot {
      RungWaitCosts(cfg, s1, env.slotScript);
      var (freed, s2) := AwaitSlot(cfg, RingSQ(s1), env.slotScript);
      if freed { SubmitCosts(cfg, s2, r, w, env.retry); }
    }
  }

  lemma PatientCosts(cfg: Config, s: Sys, c: Request, w: bool, env: ChunkEnv)
    requires Shape(cfg, s) && Described(cfg, c)
    ensures var (rc, s') := SubmitPatiently(cfg, s, c, w, env); s'.placed == s.placed + if rc == Submitted then 1 else 0
  {
    hide Shape, Described, SubmitNoRing, AwaitSlot;
    SubmitCosts(cfg, s, c, w, env.dma);
    var (rc, s1) := Submit(cfg, s, c, w, env.dma);
    if rc == NoSlot {
      RungWaitCosts(cfg, s1, env.slotScript);
      var (freed, s2) := AwaitSlot(cfg, RingSQ(s1), env.slotScript);
      if freed { SubmitCosts(cfg, s2, c, w, env.retry); }
    }
  }

  lemma AwaitCosts(cfg: Config, s: Sys, k: nat, script: seq<Turn>)
    requires Shape(cfg, s) && k < MAX_INFLIGHT
    ensures AwaitDone(cfg, s, k, script).1.placed == s.placed
  {
    AwaitDoneWaited(cfg, s, k, script);
    hide AwaitDone, Shape, Due;
  }

  lemma OneChunkCosts(cfg: Config, s: Sys, c: Request, w: bool, env: ChunkEnv)
    requires Shape(cfg, s) && Described(cfg, c)
    ensures OneChunk(cfg, s, c, w, env).1.placed <= s.placed + if c.length > 0 then 1 else 0
  {
    PatientCosts(cfg, s, c, w, env);
    var (rc, s1) := SubmitPatiently(cfg, s, c, w, env);
    if rc == Submitted {
      SubmittedLength(cfg, s, c, w, env);
      ShapeSize(cfg, s1);
      var f := FindRequest(s1.slots, c.id);
      if f.Some? {
        FinishChunkIs(cfg, s1, f.value, env.doneScript);
        AwaitCosts(cfg, Suppressed(s1, f.value), f.value, env.doneScript);
        var s2 := AwaitDone(cfg, Suppressed(s1, f.value), f.value, env.doneScript).1;
        if s2.slots[f.value].Busy? { GiveUpDue(s2, f.value, 0); }
      }
    }
    hide Shape, Described, SubmitPatiently, FinishChunk, AwaitDone, FindRequest;
  }

  lemma {:induction false} ChunkLoopCosts(cfg: Config, s: Sys, r: Request, w: bool, cap: nat, done: nat, envs: nat -> ChunkEnv, sgOf: SgOf)
    requires Shape(cfg, s) && done <= r.length && Consistent(cfg.ps, r, sgOf)
    ensures ChunkLoop(cfg, s, r, w, cap, done, envs, sgOf).2.placed <= s.placed + if cap == 0 then 0 else NumPages(r.length - done, cap)
    decreases r.length - done
  {
    hide *;
    ShapeSize(cfg, s);
    if done == r.length {
      LoopOver(cfg, s, r, w, cap, envs, sgOf);
    } else {
      LoopUnfolds(cfg, s, r, w, cap, done, envs, sgOf);
      ChunkGoesOn(cfg, s, r, w, cap, done, envs, sgOf);
      ChunkCounts(r, cap, done, sgOf);
      var c := Chunk(r, done, cap, sgOf);
      OneChunkCosts(cfg, s, c, w, envs(done));
      var (end, s1) := OneChunk(cfg, s, c, w, envs(done));
      if end == ChunkDone { ChunkLoopCosts(cfg, s1, r, w, cap, done + c.length, envs, sgOf); }
    }
  }

  lemma ChunkCounts(r: Request, cap: nat, done: nat, sgOf: SgOf)
    requires done < r.length == |r.payload|
    ensures var c := Chunk(r, done, cap, sgOf);
      && done + c.length <= r.length && (c.length > 0 <==> cap > 0)
      && (cap > 0 ==> NumPages(r.length - done, cap) == 1 + NumPages(r.length - (done + c.length), cap))
  {
    var rest, n := r.length - done, ChunkLen(r.length, done, cap);
    if cap > 0 {
      assert Quot(rest + cap - 1, cap) == 1 + Quot(rest - 1, cap);
      assert Quot(rest - n + cap - 1, cap) == Quot(rest - 1, cap);
    }
  }

  lemma DispatchedCosts(cfg: Config, s: Sys, m: Message)
    requires Shape(cfg, s) && Sound(cfg, m)
    ensures Dispatched(cfg, s, m).1.placed <= s.placed + Cost(m)
  {
    hide FastPath, ChunkLoop, SubmitAndWait, FlushPatiently, Shape, Described, Consistent, NumPages;
    match m
    case Transfer(r, w, cap, env, envs, sgOf) =>
      if r.length <= cap {
        FastPathCosts(cfg, s, r, w, env);
      } else {
        ChunkLoopCosts(cfg, s, r, w, cap, 0, envs, sgOf);
      }
    case FlushCache(r, script) => FlushCosts(cfg, s, r, script);
    case Synchronous(r, sqe, slotScript, doneScript) => WaitCosts(cfg, s, r, sqe, slotScript, doneScript);
    case Immediate(_, _) =>
  }

  lemma FlushCosts(cfg: Config, s: Sys, r: Request, script: seq<Turn>)
    requires Shape(cfg, s)
    ensures FlushPatiently(cfg, s, r, script).1.placed <= s.placed + 1
  {
    hide Shape, Flush, AwaitSlot, FindFree;
    FlushPlacesOne(s, r);
    FlushShape(cfg, s, r);
    var (rc, s1) := Flush(s, r);
    if rc == NoSlot {
      RungWaitCosts(cfg, s1, script);
      FlushPlacesOne(AwaitSlot(cfg, RingSQ(s1), script).1, r);
    }
  }

  lemma FlushPlacesOne(s: Sys, r: Request)
    ensures Flush(s, r).1.placed <= s.placed + 1
  {
    hide FindFree;
  }

  lemma WaitCosts(cfg: Config, s: Sys, r: Request, sqe: Sqe, slotScript: seq<Turn>, doneScript: seq<Turn>)
    requires Shape(cfg, s) && Dataless(sqe)
    ensures SubmitAndWait(cfg, s, r, sqe, slotScript, doneScript).1.placed <= s.placed + 1
  {
    WaitUnfolds(cfg, s, r, sqe, slotScript, doneScript);
    SlotForWaitWaited(cfg, s, slotScript);
    var (got, s1) := SlotForWait(cfg, s, slotScript);
    if got {
      var k, t := FindFree(s1.slots).value, RingSQ(SubmitControl(s1, r, sqe, true).1);
      assert t.placed == s1.placed + 1;
      AwaitCosts(cfg, t, k, doneScript);
      AnswerIs(cfg, t, k, doneScript);
      var s2 := AwaitDone(cfg, t, k, doneScript).1;
      if s2.slots[k].Busy? { GiveUpDue(s2, k, 0); }
    }
    hide SubmitAndWait, SlotForWait, Shape, Due, SubmitControl, FindFree, AwaitDone, Answer;
  }

  lemma {:induction false} DrainCosts(cfg: Config, s: Sys, ms: seq<Message>)
    requires Shape(cfg, s) && forall m :: m in ms ==> Sound(cfg, m)
    ensures Drained(cfg, s, ms).placed <= s.placed + TotalCost(ms)
    decreases |ms|
  {
    hide Shape, Dispatched, Sound, Cost;
    if ms != [] {
      DispatchedCosts(cfg, s, ms[0]);
      DrainCosts(cfg, Dispatched(cfg, s, ms[0]).1, ms[1..]);
    }
  }

  // ----- Bursts --------------------------------------------------------------------------

  /** The dispatch did not end in UNITBUSY, or in SubmitAndWait's counterpart of it. */
  predicate NotBusy(f: Fate) {
    f != Answered(UnitBusy) && f != Reported(NoFreeSlot)
  }

  ghost predicate NeverBusy(cfg: Config, s: Sys, ms: seq<Message>)
    requires Shape(cfg, s) && forall m :: m in ms ==> Sound(cfg, m)
    decreases |ms|
  {
    ms == [] || (NotBusy(Dispatched(cfg, s, ms[0]).0) && NeverBusy(cfg, Dispatched(cfg, s, ms[0]).1, ms[1..]))
  }

  /** The turns the message's dispatch can wait for a slot. */
  function SlotScript(m: Message): seq<Turn> {
    match m
    case Transfer(r, _, cap, env, envs, _) => if r.length <= cap then env.slotScript else envs(0).slotScript
    case FlushCache(_, script) => script
    case Synchronous(_, _, script, _) => script
    case Immediate(_, _) => []
  }

  /** Whenever a message has to wait for a slot, the device never sits on work for `n` polls, and 33 n + 2
    * of them are to come. */
  ghost predicate LivelyDrain(cfg: Config, s: Sys, ms: seq<Message>, n: nat)
    requires Shape(cfg, s) && forall m :: m in ms ==> Sound(cfg, m)
    decreases |ms|
  {
    ms != [] ==>
      && Shape(cfg, RingSQ(s))
      && (!ms[0].Immediate? ==> Lively(cfg, RingSQ(s), SlotScript(ms[0]), n, 0) && |SlotScript(ms[0])| >= 33 * n + 2)
      && LivelyDrain(cfg, Dispatched(cfg, s, ms[0]).1, ms[1..], n)
  }

  /** A burst of any length, of requests of any kind, goes through without UNITBUSY, as long as no command
    * is lost. */
  lemma {:induction false} BurstNeverBusy(cfg: Config, s: Sys, ms: seq<Message>, n: nat)
    requires Shape(cfg, s) && (forall m :: m in ms ==> Sound(cfg, m)) && Matched(s)
    requires n > 0 && LivelyDrain(cfg, s, ms, n) && LostIn(cfg, s, ms) == 0
    ensures NeverBusy(cfg, s, ms) && Matched(Drained(cfg, s, ms))
    decreases |ms|
  {
    hide Shape, Dispatched, Sound, Matched, Lively, NotBusy;
    if ms != [] {
      if ms[0].Immediate? {
        ImmediateSame(cfg, s, ms[0]);
      } else {
        DispatchedBusy(cfg, s, ms[0], n);
      }
      BurstNeverBusy(cfg, Dispatched(cfg, s, ms[0]).1, ms[1..], n);
    }
  }

  lemma ImmediateSame(cfg: Config, s: Sys, m: Message)
    requires Shape(cfg, s) && Sound(cfg, m) && m.Immediate?
    ensures Dispatched(cfg, s, m) == (Answered(m.error), s) && NotBusy(Answered(m.error))
  {
  }

  lemma DispatchedBusy(cfg: Config, s: Sys, m: Message, n: nat)
    requires Shape(cfg, s) && Sound(cfg, m) && Matched(s) && Shape(cfg, RingSQ(s)) && !m.Immediate?
    requires n > 0 && Lively(cfg, RingSQ(s), SlotScript(m), n, 0) && |SlotScript(m)| >= 33 * n + 2
    ensures var (fate, s') := Dispatched(cfg, s, m);
      NotBusy(fate) && (fate != Lost ==> Matched(s'))
  {
    hide FastPath, ChunkLoop, SubmitAndWait, FlushPatiently, Shape, Matched, Described, Consistent, Lively, AwaitSlot, AwaitSlotLate, RingSQ;
    var script := SlotScript(m);
    RungMatched(cfg, s);
    match m
    case Transfer(r, isWrite, cap, env, envs, sgOf) =>
      BackPressureProgress(cfg, RingSQ(s), script, n);
      if r.length <= cap {
        FastPathNotBusy(cfg, s, r, isWrite, env);
      } else {
        ChunkLoopNotBusy(cfg, s, r, isWrite, cap, 0, envs, sgOf);
      }
    case FlushCache(r, script) =>
      BackPressureProgress(cfg, RingSQ(s), script, n);
      FlushNotBusy(cfg, s, r, script);
    case Synchronous(r, sqe, slotScript, doneScript) =>
      LateProgress(cfg, RingSQ(s), slotScript, n);
      WaitNotBusy(cfg, s, r, sqe, slotScript, doneScript);
  }

  lemma RungMatched(cfg: Config, s: Sys)
    requires Shape(cfg, s) && Matched(s)
    ensures Matched(RingSQ(s)) && RingSQ(s).unpublished == []
  {
    PublishMatched(s);
  }

  lemma {:induction false} AwaitSlotMatched(cfg: Config, s: Sys, script: seq<Turn>)
    requires Shape(cfg, s) && Matched(s)
    ensures Matched(AwaitSlot(cfg, s, script).1)
    decreases |script|
  {
    hide Matched, Shape, FindFree, Harvest, Elapse;
    if script != [] && FindFree(s.slots).None? {
      HarvestAllMatched(cfg, s);
      ElapseMatched(cfg, Harvest(cfg, s), script[0]);
      AwaitSlotMatched(cfg, Elapse(cfg, Harvest(cfg, s), script[0]), script[1..]);
    }
  }

  lemma {:induction false} AwaitSlotLateMatched(cfg: Config, s: Sys, script: seq<Turn>)
    requires Shape(cfg, s) && Matched(s)
    ensures Matched(AwaitSlotLate(cfg, s, script).1)
    decreases |script|
  {
    hide Matched, Shape, FindFree, Harvest, Elapse;
    if script != [] {
      HarvestAllMatched(cfg, s);
      if FindFree(Harvest(cfg, s).slots).None? {
        ElapseMatched(cfg, Harvest(cfg, s), script[0]);
        AwaitSlotLateMatched(cfg, Elapse(cfg, Harvest(cfg, s), script[0]), script[1..]);
      }
    }
  }

  lemma {:induction false} AwaitDoneMatched(cfg: Config, s: Sys, k: nat, script: seq<Turn>)
    requires Shape(cfg, s) && Matched(s) && k < MAX_INFLIGHT
    ensures Matched(AwaitDone(cfg, s, k, script).1)
    decreases |script|
  {
    hide Matched, Shape, Harvest, Elapse;
    if script != [] {
      HarvestAllMatched(cfg, s);
      ShapeSize(cfg, Harvest(cfg, s));
      if Harvest(cfg, s).slots[k].Busy? {
        ElapseMatched(cfg, Harvest(cfg, s), script[0]);
        AwaitDoneMatched(cfg, Elapse(cfg, Harvest(cfg, s), script[0]), k, script[1..]);
      }
    }
  }

  /** A rejected submission is never rejected as UNITBUSY. */
  lemma RejectedWhy(cfg: Config, s: Sys, r: Request, w: bool, env: DmaEnv)
    requires Shape(cfg, s) && Described(cfg, r)
    ensures var rc := SubmitNoRing(cfg, s, r, w, env).0;
      && (rc == NoSlot <==> FindFree(s.slots).None?) && (rc != NoSlot ==> ErrorOf(rc) != UnitBusy)
      && (rc == NoSlot ==> SubmitNoRing(cfg, s, r, w, env).1 == s)
  {
    NoSlotMeans(cfg, s, r, w, env);
    ValidateExact(Offset(r), r.length, r.data != 0, cfg.bs);
    hide Direct, Bounce, BounceIn, Described, Layout, Encode, FindFree;
  }

  /** A transfer within the cap is answered by the dispatcher with UNITBUSY exactly if all slots are taken
    * and none is freed in time, and never without an error unless it is empty. */
  lemma FastPathAnswers(cfg: Config, s: Sys, r: Request, w: bool, env: ChunkEnv)
    requires Shape(cfg, s) && Described(cfg, r)
    ensures var fate := FateOf(FastPath(cfg, s, r, w, env).0);
      && (fate == Answered(UnitBusy) <==> FindFree(s.slots).None? && !AwaitSlot(cfg, RingSQ(s), env.slotScript).0)
      && (r.length > 0 ==> fate != Answered(NoError))
  {
    hide Shape, Described, SubmitNoRing, AwaitSlot, FindFree;
    RejectedWhy(cfg, s, r, w, env.dma);
    SubmitSlot(cfg, s, r, w, env.dma);
    ShapeSize(cfg, s);
    var (freed, s2) := AwaitSlot(cfg, RingSQ(s), env.slotScript);
    if freed {
      RejectedWhy(cfg, s2, r, w, env.retry);
      SubmitSlot(cfg, s2, r, w, env.retry);
    }
  }

  /** A transfer that moves data is answered by the dispatcher without an error only when all its chunks have
    * been done, each with a successful result. */
  lemma GoodMeansDone(cfg: Config, s: Sys, m: Message)
    requires Shape(cfg, s) && Sound(cfg, m) && m.Transfer? && m.req.length > 0 && m.cap > 0
    ensures Dispatched(cfg, s, m).0 == Answered(NoError)
      <==> m.req.length > m.cap && ChunkLoop(cfg, s, m.req, m.isWrite, m.cap, 0, m.envs, m.sgOf).0 == ChunkDone
  {
    var r := m.req;
    hide FastPath, ChunkLoop, Shape, Described, Consistent, Directed;
    if r.length <= m.cap {
      FastPathAnswers(cfg, s, r, m.isWrite, m.env);
    } else {
      NoErrorMeansDone(cfg, s, r, m.isWrite, m.cap, 0, m.envs, m.sgOf);
    }
  }

  lemma FastPathNotBusy(cfg: Config, s: Sys, r: Request, w: bool, env: ChunkEnv)
    requires Shape(cfg, s) && Described(cfg, r) && Matched(s) && Shape(cfg, RingSQ(s)) && AwaitSlot(cfg, RingSQ(s), env.slotScript).0
    ensures var (rc, s') := FastPath(cfg, s, r, w, env); NotBusy(FateOf(rc)) && Matched(s')
  {
    hide Shape, Described, SubmitNoRing, AwaitSlot, Matched, FindFree, RingSQ;
    RejectedWhy(cfg, s, r, w, env.dma);
    SubmitMatched(cfg, s, r, w, env.dma);
    var (freed, s2) := AwaitSlot(cfg, RingSQ(s), env.slotScript);
    RungMatched(cfg, s);
    AwaitSlotMatched(cfg, RingSQ(s), env.slotScript);
    if freed {
      RejectedWhy(cfg, s2, r, w, env.retry);
      SubmitMatched(cfg, s2, r, w, env.retry);
    }
  }

  lemma FlushNotBusy(cfg: Config, s: Sys, r: Request, script: seq<Turn>)
    requires Shape(cfg, s) && Matched(s) && Shape(cfg, RingSQ(s)) && AwaitSlot(cfg, RingSQ(s), script).0
    ensures var (rc, s') := FlushPatiently(cfg, s, r, script); NotBusy(FateOf(rc)) && Matched(s')
  {
    hide Shape, Flush, AwaitSlot, Matched, FindFree, RingSQ;
    FlushShape(cfg, s, r);
    FlushMatched(cfg, s, r);
    var (freed, s2) := AwaitSlot(cfg, RingSQ(s), script);
    RungMatched(cfg, s);
    AwaitSlotMatched(cfg, RingSQ(s), script);
    if freed {
      FlushShape(cfg, s2, r);
      FlushMatched(cfg, s2, r);
    }
  }

  lemma FlushMatched(cfg: Config, s: Sys, r: Request)
    requires Shape(cfg, s) && Matched(s)
    ensures Matched(Flush(s, r).1) && (Flush(s, r).0 == Submitted || Flush(s, r).0 == NoSlot)
  {
    ControlMatched(s, r, FLUSH_SQE, false);
    PublishMatched(SubmitControl(s, r, FLUSH_SQE, false).1);
    hide Matched;
  }

  /** SubmitAndWait finds a slot if its wait does. */
  lemma WaitNotBusy(cfg: Config, s: Sys, r: Request, sqe: Sqe, slotScript: seq<Turn>, doneScript: seq<Turn>)
    requires Shape(cfg, s) && Matched(s) && Shape(cfg, RingSQ(s)) && Dataless(sqe)
    requires AwaitSlotLate(cfg, RingSQ(s), slotScript).0
    ensures var (end, s') := SubmitAndWait(cfg, s, r, sqe, slotScript, doneScript);
      end != NoFreeSlot && (end != NoAnswer ==> Matched(s'))
  {
    hide Shape, AwaitSlotLate, Matched, FindFree, RingSQ, SubmitControl, SubmitAndWait, AwaitDone, Answer;
    WaitUnfolds(cfg, s, r, sqe, slotScript, doneScript);
    RungMatched(cfg, s);
    AwaitSlotLateMatched(cfg, RingSQ(s), slotScript);
    var (got, s1) := SlotForWait(cfg, s, slotScript);
    if got {
      var k, t := FindFree(s1.slots).value, RingSQ(SubmitControl(s1, r, sqe, true).1);
      ControlMatched(s1, r, sqe, true);
      PublishMatched(SubmitControl(s1, r, sqe, true).1);
      AwaitDoneMatched(cfg, t, k, doneScript);
      AnswerIs(cfg, t, k, doneScript);
    }
  }

  /** After a chunk that is done its slot is free again, so only the first chunk can find the pipeline full. */
  lemma {:induction false} ChunkLoopNotBusy(cfg: Config, s: Sys, r: Request, w: bool, cap: nat, done: nat, envs: nat -> ChunkEnv, sgOf: SgOf)
    requires Shape(cfg, s) && done <= r.length && Consistent(cfg.ps, r, sgOf) && Matched(s) && Shape(cfg, RingSQ(s))
    requires FindFree(s.slots).Some? || AwaitSlot(cfg, RingSQ(s), envs(done).slotScript).0
    ensures var (end, at, s') := ChunkLoop(cfg, s, r, w, cap, done, envs, sgOf);
      end != ChunkStop(UnitBusy) && (end != TimedOut ==> Matched(s'))
    decreases r.length - done
  {
    hide *;
    ShapeSize(cfg, s);
    if done == r.length {
      LoopOver(cfg, s, r, w, cap, envs, sgOf);
    } else {
      LoopUnfolds(cfg, s, r, w, cap, done, envs, sgOf);
      ChunkGoesOn(cfg, s, r, w, cap, done, envs, sgOf);
      var c := Chunk(r, done, cap, sgOf);
      OneChunkNotBusy(cfg, s, c, w, envs(done));
      var (end, s1) := OneChunk(cfg, s, c, w, envs(done));
      if end == ChunkDone {
        ShapeSize(cfg, s1);
        ChunkLoopNotBusy(cfg, s1, r, w, cap, done + c.length, envs, sgOf);
      }
    }
  }

  lemma OneChunkNotBusy(cfg: Config, s: Sys, c: Request, w: bool, env: ChunkEnv)
    requires Shape(cfg, s) && Described(cfg, c) && Matched(s) && Shape(cfg, RingSQ(s))
    requires FindFree(s.slots).Some? || AwaitSlot(cfg, RingSQ(s), env.slotScript).0
    ensures var (end, s') := OneChunk(cfg, s, c, w, env);
      && end != ChunkStop(UnitBusy) && (end != TimedOut ==> Matched(s'))
      && (end == ChunkDone ==> FindFree(s'.slots).Some?)
  {
    hide Shape, Described, SubmitPatiently, FinishChunk, FindRequest, FindFree, Matched, AwaitSlot, RingSQ;
    PatientNotBusy(cfg, s, c, w, env);
    var (rc, s1) := SubmitPatiently(cfg, s, c, w, env);
    if rc == Submitted && FindRequest(s1.slots, c.id).Some? {
      ShapeSize(cfg, s1);
      FinishFrees(cfg, s1, FindRequest(s1.slots, c.id).value, env.doneScript);
    }
  }

  lemma PatientNotBusy(cfg: Config, s: Sys, c: Request, w: bool, env: ChunkEnv)
    requires Shape(cfg, s) && Described(cfg, c) && Matched(s) && Shape(cfg, RingSQ(s))
    requires FindFree(s.slots).Some? || AwaitSlot(cfg, RingSQ(s), env.slotScript).0
    ensures var (rc, s') := SubmitPatiently(cfg, s, c, w, env);
      ErrorOf(rc) != UnitBusy && Matched(s')
  {
    hide Shape, Described, SubmitNoRing, AwaitSlot, Matched, FindFree, RingSQ;
    RejectedWhy(cfg, s, c, w, env.dma);
    SubmitMatched(cfg, s, c, w, env.dma);
    var (rc, s1) := SubmitNoRing(cfg, s, c, w, env.dma);
    PublishMatched(s1);
    var (freed, s2) := AwaitSlot(cfg, RingSQ(s), env.slotScript);
    RungMatched(cfg, s);
    AwaitSlotMatched(cfg, RingSQ(s), env.slotScript);
    if rc == NoSlot && freed {
      RejectedWhy(cfg, s2, c, w, env.retry);
      SubmitMatched(cfg, s2, c, w, env.retry);
      PublishMatched(SubmitNoRing(cfg, s2, c, w, env.retry).1);
    }
  }

  lemma FinishFrees(cfg: Config, s: Sys, k: nat, script: seq<Turn>)
    requires Shape(cfg, s) && Matched(s) && k < MAX_INFLIGHT && s.slots[k].Busy?
    ensures var (end, s') := FinishChunk(cfg, s, k, script);
      && (end == ChunkDone || end == ChunkStop(BadStatus) || end == TimedOut)
      && (end != TimedOut ==> Matched(s') && FindFree(s'.slots).Some?)
  {
    hide Shape, Matched, AwaitDone, FindFree, Results;
    FinishChunkIs(cfg, s, k, script);
    ShapeSize(cfg, s);
    SuppressedMatched(s, k);
    AwaitDoneMatched(cfg, Suppressed(s, k), k, script);
    var (done, s1) := AwaitDone(cfg, Suppressed(s, k), k, script);
    if done { SomeFree(s1.slots, k); }
  }

  lemma SuppressedMatched(s: Sys, k: nat)
    requires Matched(s) && k < |s.slots| && s.slots[k].Busy?
    ensures Matched(Suppressed(s, k))
  {
    OccupiedReplace(s.slots, k, s.slots[k].(suppress := true));
    hide Occupied;
  }
}
