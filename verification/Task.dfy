/** The unit task's own loops over a unit: waiting for a slot or a completion, dispatching a read
  * or a write, and the end of a port drain. */
module Task {
  import opened Base
  import opened Memory
  import opened Modular
  import opened Prp
  import opened Rings
  import opened Commands
  import opened Pipeline
  import opened Matching
  import opened Waiting
  import opened Chunking
  import opened Dispatch
  import opened UnitTask
  import opened EndToEnd
  import opened ChunkEffects
  import opened Slack
  import opened Requests
  import opened Answering
  import Drain
  import opened Sessions

  /** wait_for_free_slot. */
  method WaitForFreeSlot(unit: Unit, script: seq<Turn>) returns (freed: bool)
    requires unit.Valid() && Load(unit.Abs()) < unit.qp.depth
    modifies unit, unit.inflight, unit.qp, unit.qp.sq, unit.qp.cq, unit.ram
    ensures unit.Valid() && Load(unit.Abs()) <= old(Load(unit.Abs()))
    ensures (freed, unit.Abs()) == AwaitSlot(unit.cfg, Pipeline.RingSQ(old(unit.Abs())), script)
  {
    hide *;
    unit.Table();
    RungShape(unit.cfg, unit.Abs());
    unit.RingSQ();
    unit.Table();
    ghost var load, goal := Load(unit.Abs()), AwaitSlot(unit.cfg, unit.Abs(), script);
    var poll := 0;
    AllTurns(script);
    while poll < |script|
      invariant 0 <= poll <= |script|
      invariant unit.Valid() && unit.qp.announced <= |unit.qp.queued| && Shape(unit.cfg, unit.Abs())
      invariant Load(unit.Abs()) <= load && unit.Abs().unpublished == []
      invariant AwaitSlot(unit.cfg, unit.Abs(), script[poll..]) == goal
    {
      ghost var s := unit.Abs();
      AwaitSlotUnfolds(unit.cfg, s, script, poll);
      unit.Table();
      var slot := unit.FindFreeSlot();
      if slot >= 0 {
        return true;
      }
      HarvestPublished(unit.cfg, s);
      unit.Harvest();
      unit.Yield(script[poll]);
      unit.Table();
      poll := poll + 1;
    }
    AwaitSlotOver(unit.cfg, unit.Abs(), script);
    return false;
  }

  lemma RungShape(cfg: Config, s: Sys)
    requires Shape(cfg, s)
    ensures Shape(cfg, RingSQ(s)) && RingSQ(s).unpublished == []
  {
  }

  lemma HarvestPublished(cfg: Config, s: Sys)
    requires Shape(cfg, s)
    ensures |Harvest(cfg, s).unpublished| <= |s.unpublished|
  {
    HarvestWaited(cfg, s);
    hide Shape, Harvest, Due;
  }

  lemma AllTurns(script: seq<Turn>)
    ensures script[0..] == script
  {
  }

  lemma AwaitSlotUnfolds(cfg: Config, s: Sys, script: seq<Turn>, poll: nat)
    requires Shape(cfg, s) && poll < |script|
    ensures AwaitSlot(cfg, s, script[poll..])
      == if FindFree(s.slots).Some? then (true, s) else AwaitSlot(cfg, Elapse(cfg, Harvest(cfg, s), script[poll]), script[poll + 1..])
  {
    hide Harvest, Elapse, FindFree, Shape;
    assert script[poll..][1..] == script[poll + 1..];
  }

  lemma AwaitSlotOver(cfg: Config, s: Sys, script: seq<Turn>)
    requires Shape(cfg, s)
    ensures AwaitSlot(cfg, s, script[|script|..]) == (false, s)
  {
  }

  /** The poll loop for slot `k` in dispatch_rw and SubmitAndWait. */
  method WaitForSlot(unit: Unit, k: nat, script: seq<Turn>) returns (done: bool)
    requires unit.Valid() && Load(unit.Abs()) < unit.qp.depth && unit.Abs().unpublished == [] && k < MAX_INFLIGHT
    modifies unit, unit.inflight, unit.qp, unit.qp.sq, unit.qp.cq, unit.ram
    ensures unit.Valid() && Load(unit.Abs()) <= old(Load(unit.Abs())) && unit.Abs().unpublished == []
    ensures (done, unit.Abs()) == AwaitDone(unit.cfg, old(unit.Abs()), k, script)
  {
    hide *;
    unit.Table();
    ghost var load, goal := Load(unit.Abs()), AwaitDone(unit.cfg, unit.Abs(), k, script);
    var poll := 0;
    AllTurns(script);
    while poll < |script|
      invariant 0 <= poll <= |script|
      invariant unit.Valid() && unit.qp.announced <= |unit.qp.queued| && Shape(unit.cfg, unit.Abs())
      invariant Load(unit.Abs()) <= load && unit.Abs().unpublished == []
      invariant AwaitDone(unit.cfg, unit.Abs(), k, script[poll..]) == goal
    {
      ghost var s := unit.Abs();
      AwaitDoneUnfolds(unit.cfg, s, k, script, poll);
      HarvestPublished(unit.cfg, s);
      unit.Harvest();
      unit.Table();
      if unit.inflight[k].Free? {
        return true;
      }
      unit.Yield(script[poll]);
      unit.Table();
      poll := poll + 1;
    }
    AwaitDoneOver(unit.cfg, unit.Abs(), k, script);
    unit.Table();
    return unit.inflight[k].Free?;
  }

  lemma AwaitDoneUnfolds(cfg: Config, s: Sys, k: nat, script: seq<Turn>, poll: nat)
    requires Shape(cfg, s) && poll < |script| && k < MAX_INFLIGHT
    ensures var s1 := Harvest(cfg, s);
      |s1.slots| == MAX_INFLIGHT
      && AwaitDone(cfg, s, k, script[poll..])
        == if s1.slots[k].Free? then (true, s1) else AwaitDone(cfg, Elapse(cfg, s1, script[poll]), k, script[poll + 1..])
  {
    hide Harvest, Elapse, Shape;
    ShapeSize(cfg, Harvest(cfg, s));
    assert script[poll..][1..] == script[poll + 1..];
  }

  lemma AwaitDoneOver(cfg: Config, s: Sys, k: nat, script: seq<Turn>)
    requires Shape(cfg, s) && k < MAX_INFLIGHT
    ensures |s.slots| == MAX_INFLIGHT && AwaitDone(cfg, s, k, script[|script|..]) == (s.slots[k].Free?, s)
  {
  }

  // ----- SubmitAndWait -------------------------------------------------------------------

  /** The wait for a slot at the head of NVMeIO_SubmitAndWait. */
  method WaitForSlotLate(unit: Unit, script: seq<Turn>) returns (slot: int)
    requires unit.Valid() && Load(unit.Abs()) < unit.qp.depth
    modifies unit, unit.inflight, unit.qp, unit.qp.sq, unit.qp.cq, unit.ram
    ensures unit.Valid() && Load(unit.Abs()) <= old(Load(unit.Abs()))
    ensures slot >= 0 ==> FindFree(unit.Abs().slots) == Some(slot)
    ensures (slot >= 0, unit.Abs()) == AwaitSlotLate(unit.cfg, Pipeline.RingSQ(old(unit.Abs())), script)
  {
    hide *;
    unit.Table();
    RungShape(unit.cfg, unit.Abs());
    unit.RingSQ();
    unit.Table();
    ghost var load, goal := Load(unit.Abs()), AwaitSlotLate(unit.cfg, unit.Abs(), script);
    var poll := 0;
    AllTurns(script);
    while poll < |script|
      invariant 0 <= poll <= |script|
      invariant unit.Valid() && unit.qp.announced <= |unit.qp.queued| && Shape(unit.cfg, unit.Abs())
      invariant Load(unit.Abs()) <= load && unit.Abs().unpublished == []
      invariant AwaitSlotLate(unit.cfg, unit.Abs(), script[poll..]) == goal
    {
      ghost var s := unit.Abs();
      LateUnfolds(unit.cfg, s, script, poll);
      HarvestPublished(unit.cfg, s);
      unit.Harvest();
      unit.Table();
      slot := unit.FindFreeSlot();
      if slot >= 0 {
        return;
      }
      unit.Yield(script[poll]);
      unit.Table();
      poll := poll + 1;
    }
    LateOver(unit.cfg, unit.Abs(), script);
    return -1;
  }

  lemma LateUnfolds(cfg: Config, s: Sys, script: seq<Turn>, poll: nat)
    requires Shape(cfg, s) && poll < |script|
    ensures var s1 := Harvest(cfg, s);
      AwaitSlotLate(cfg, s, script[poll..])
        == if FindFree(s1.slots).Some? then (true, s1) else AwaitSlotLate(cfg, Elapse(cfg, s1, script[poll]), script[poll + 1..])
  {
    hide Harvest, Elapse, FindFree, Shape;
    assert script[poll..][1..] == script[poll + 1..];
  }

  lemma LateOver(cfg: Config, s: Sys, script: seq<Turn>)
    requires Shape(cfg, s)
    ensures AwaitSlotLate(cfg, s, script[|script|..]) == (false, s)
  {
  }

  /** NVMeIO_SubmitAndWait. */
  method SubmitAndWait(unit: Unit, r: Request, sqe: Sqe, slotScript: seq<Turn>, doneScript: seq<Turn>) returns (end: WaitEnd)
    requires unit.Valid() && Load(unit.Abs()) < unit.qp.depth && Dataless(sqe)
    modifies unit, unit.inflight, unit.qp, unit.qp.sq, unit.qp.cq, unit.ram
    ensures unit.Valid() && Load(unit.Abs()) <= old(Load(unit.Abs())) + if end == NoAnswer then 1 else 0
    ensures (end, unit.Abs()) == Dispatch.SubmitAndWait(unit.cfg, old(unit.Abs()), r, sqe, slotScript, doneScript)
  {
    hide *;
    unit.Table();
    ghost var s := unit.Abs();
    WaitUnfolds(unit.cfg, s, r, sqe, slotScript, doneScript);
    SlotForWaitIs(unit.cfg, s, slotScript);
    var slot := unit.FindFreeSlot();
    if slot < 0 {
      slot := WaitForSlotLate(unit, slotScript);
      if slot < 0 {
        return NoFreeSlot;
      }
    }
    unit.Table();
    var rc := unit.SubmitControl(r, sqe, true);
    unit.Table();
    ghost var s1 := unit.Abs();
    RungShape(unit.cfg, s1);
    unit.RingSQ();
    unit.Table();
    end := Await(unit, slot, doneScript);
  }

  lemma SlotForWaitIs(cfg: Config, s: Sys, script: seq<Turn>)
    requires Shape(cfg, s)
    ensures Shape(cfg, RingSQ(s))
    ensures SlotForWait(cfg, s, script) == if FindFree(s.slots).Some? then (true, s) else AwaitSlotLate(cfg, RingSQ(s), script)
  {
  }

  method Await(unit: Unit, k: nat, script: seq<Turn>) returns (end: WaitEnd)
    requires unit.Valid() && Load(unit.Abs()) < unit.qp.depth && unit.Abs().unpublished == [] && k < MAX_INFLIGHT && unit.inflight[k].Busy?
    modifies unit, unit.inflight, unit.qp, unit.qp.sq, unit.qp.cq, unit.ram
    ensures unit.Valid() && Load(unit.Abs()) <= old(Load(unit.Abs())) + if end == NoAnswer then 1 else 0
    ensures old(unit.Abs()).slots[k].Busy? && (end, unit.Abs()) == Answer(unit.cfg, old(unit.Abs()), k, script)
  {
    hide *;
    unit.Table();
    ghost var s := unit.Abs();
    AnswerIs(unit.cfg, s, k, script);
    var id := unit.inflight[k].req.id;
    var done := WaitForSlot(unit, k, script);
    unit.Table();
    if !done {
      unit.GiveUp(k);
      return NoAnswer;
    }
    var results := Results(unit.outcomes, id);
    unit.TableOutcomes();
    return Completed(results != [] && results[|results| - 1].ok);
  }

  // ----- dispatch_rw ---------------------------------------------------------------------

  /** The first slot whose ioreq is this one, or -1. */
  method FindSlotOf(unit: Unit, id: nat) returns (slot: int)
    requires unit.inflight.Length == MAX_INFLIGHT
    ensures FindRequest(unit.inflight[..], id) == if slot < 0 then None else Some(slot)
  {
    var i := 0;
    while i < MAX_INFLIGHT
      invariant 0 <= i <= MAX_INFLIGHT
      invariant FindRequest(unit.inflight[..], id) == FindRequestFrom(unit.inflight[..], id, i)
    {
      if unit.inflight[i].Busy? && unit.inflight[i].req.id == id {
        return i;
      }
      i := i + 1;
    }
    return -1;
  }

  /** Submit a chunk, waiting for a slot if the pipeline is full. */
  method SubmitPatiently(unit: Unit, c: Request, isWrite: bool, env: ChunkEnv) returns (rc: Rc)
    requires unit.Valid() && Load(unit.Abs()) < unit.qp.depth && Described(unit.cfg, c) && (c.length > 0 ==> BufferApart(unit.cfg, c))
    modifies unit, unit.inflight, unit.qp, unit.qp.sq, unit.qp.cq, unit.ram
    ensures unit.Valid() && Load(unit.Abs()) <= old(Load(unit.Abs()))
    ensures (rc, unit.Abs()) == Dispatch.SubmitPatiently(unit.cfg, old(unit.Abs()), c, isWrite, env)
  {
    hide *;
    unit.Table();
    ghost var s := unit.Abs();
    PatientUnfolds(unit.cfg, s, c, isWrite, env);
    rc := unit.Submit(c, isWrite, env.dma);
    if rc == NoSlot {
      var freed := WaitForFreeSlot(unit, env.slotScript);
      if freed {
        rc := unit.Submit(c, isWrite, env.retry);
      }
    }
  }

  lemma PatientUnfolds(cfg: Config, s: Sys, c: Request, isWrite: bool, env: ChunkEnv)
    requires Shape(cfg, s) && Described(cfg, c)
    ensures Shape(cfg, RingSQ(Submit(cfg, s, c, isWrite, env.dma).1))
    ensures var o := Submit(cfg, s, c, isWrite, env.dma);
      Dispatch.SubmitPatiently(cfg, s, c, isWrite, env)
        == if o.0 != NoSlot then o
           else
             var w := AwaitSlot(cfg, RingSQ(o.1), env.slotScript);
             if w.0 then Submit(cfg, w.1, c, isWrite, env.retry) else (NoSlot, w.1)
  {
    ShapeSize(cfg, Submit(cfg, s, c, isWrite, env.dma).1);
    hide Submit, AwaitSlot, Described, Shape;
  }

  /** Suppress the chunk's reply and wait for it; on a timeout release its slot and pin. */
  method FinishChunk(unit: Unit, k: nat, script: seq<Turn>) returns (end: ChunkEnd)
    requires unit.Valid() && Load(unit.Abs()) < unit.qp.depth && unit.Abs().unpublished == [] && k < MAX_INFLIGHT && unit.inflight[k].Busy?
    modifies unit, unit.inflight, unit.qp, unit.qp.sq, unit.qp.cq, unit.ram
    ensures unit.Valid() && Load(unit.Abs()) <= old(Load(unit.Abs())) + if end == TimedOut then 1 else 0
    ensures old(unit.Abs()).slots[k].Busy? && (end, unit.Abs()) == Dispatch.FinishChunk(unit.cfg, old(unit.Abs()), k, script)
  {
    hide *;
    unit.Table();
    ghost var s := unit.Abs();
    FinishChunkIs(unit.cfg, s, k, script);
    var id := unit.inflight[k].req.id;
    unit.Suppress(k);
    var done := WaitForSlot(unit, k, script);
    unit.Table();
    if !done {
      unit.GiveUp(k);
      return TimedOut;
    }
    var results := Results(unit.outcomes, id);
    unit.TableOutcomes();
    return if results != [] && results[|results| - 1].ok then ChunkDone else ChunkStop(BadStatus);
  }

  /** One turn of the chunk loop. */
  method DispatchChunk(unit: Unit, c: Request, isWrite: bool, env: ChunkEnv) returns (end: ChunkEnd)
    requires unit.Valid() && Load(unit.Abs()) < unit.qp.depth && Described(unit.cfg, c) && (c.length > 0 ==> BufferApart(unit.cfg, c))
    modifies unit, unit.inflight, unit.qp, unit.qp.sq, unit.qp.cq, unit.ram
    ensures unit.Valid() && Load(unit.Abs()) <= old(Load(unit.Abs())) + if end == TimedOut then 1 else 0
    ensures (end, unit.Abs()) == OneChunk(unit.cfg, old(unit.Abs()), c, isWrite, env)
  {
    hide *;
    unit.Table();
    ghost var s := unit.Abs();
    OneChunkUnfolds(unit.cfg, s, c, isWrite, env);
    var rc := SubmitPatiently(unit, c, isWrite, env);
    if rc != Submitted {
      return ChunkStop(ErrorOf(rc));
    }
    unit.Table();
    var slot := FindSlotOf(unit, c.id);
    if slot < 0 {
      return ChunkStop(Aborted);
    }
    end := FinishChunk(unit, slot, env.doneScript);
  }

  lemma OneChunkUnfolds(cfg: Config, s: Sys, c: Request, isWrite: bool, env: ChunkEnv)
    requires Shape(cfg, s) && Described(cfg, c)
    ensures var p, out := Dispatch.SubmitPatiently(cfg, s, c, isWrite, env), OneChunk(cfg, s, c, isWrite, env);
      var f := FindRequest(p.1.slots, c.id);
      && (p.0 != Submitted ==> out == (ChunkStop(ErrorOf(p.0)), p.1))
      && (p.0 == Submitted ==> p.1.unpublished == [])
      && (p.0 == Submitted && f.None? ==> out == (ChunkStop(Aborted), p.1))
      && (p.0 == Submitted && f.Some? ==>
            && f.value < MAX_INFLIGHT && f.value < |p.1.slots| && p.1.slots[f.value].Busy?
            && out == Dispatch.FinishChunk(cfg, p.1, f.value, env.doneScript))
  {
    PatientUnfolds(cfg, s, c, isWrite, env);
    ShapeSize(cfg, Dispatch.SubmitPatiently(cfg, s, c, isWrite, env).1);
    SubmittedRings(cfg, s, c, isWrite, env.dma);
    var w := AwaitSlot(cfg, RingSQ(Submit(cfg, s, c, isWrite, env.dma).1), env.slotScript);
    if w.0 { SubmittedRings(cfg, w.1, c, isWrite, env.retry); }
    hide Submit, AwaitSlot, Described, Shape, Dispatch.FinishChunk, Dispatch.SubmitPatiently;
  }

  lemma SubmittedRings(cfg: Config, s: Sys, c: Request, isWrite: bool, env: DmaEnv)
    requires Shape(cfg, s) && Described(cfg, c)
    ensures Submit(cfg, s, c, isWrite, env).0 == Submitted ==> Submit(cfg, s, c, isWrite, env).1.unpublished == []
  {
    hide SubmitNoRing;
  }

  /** The chunk loop of dispatch_rw, for the request whose own fields are given. */
  method RunChunks(unit: Unit, io: IORequest, offset: u32, actual: u32, data: nat, length: u32, ghost r: Request,
                   isWrite: bool, cap: nat, envs: nat -> ChunkEnv, sgOf: SgOf) returns (end: ChunkEnd)
    requires unit.Valid() && Load(unit.Abs()) < unit.qp.depth && Consistent(unit.cfg.ps, r, sgOf) && BufferApart(unit.cfg, r)
    requires r == Request(io.id, io.command, offset, actual, length, data, sgOf(data, length), io.payload)
    modifies io`offset, io`actual, io`data, io`length, unit, unit.inflight, unit.qp, unit.qp.sq, unit.qp.cq, unit.ram
    ensures unit.Valid() && Load(unit.Abs()) <= old(Load(unit.Abs())) + if end == TimedOut then 1 else 0
    ensures var out := ChunkLoop(unit.cfg, old(unit.Abs()), r, isWrite, cap, 0, envs, sgOf); unit.Abs() == out.2 && end == out.0
  {
    hide *;
    unit.Table();
    PayloadFits(unit.cfg.ps, r, sgOf);
    ghost var load, goal := Load(unit.Abs()), ChunkLoop(unit.cfg, unit.Abs(), r, isWrite, cap, 0, envs, sgOf);
    var done := 0;
    end := ChunkDone;
    while done < length && end == ChunkDone
      invariant 0 <= done <= length && unit.Valid() && unit.qp.announced <= |unit.qp.queued| && Shape(unit.cfg, unit.Abs())
      invariant if end == ChunkDone then ChunkLoop(unit.cfg, unit.Abs(), r, isWrite, cap, done, envs, sgOf) == goal
                else goal == (end, done, unit.Abs())
      invariant Load(unit.Abs()) <= load + if end == TimedOut then 1 else 0
      decreases length - done, end == ChunkDone
    {
      ghost var s := unit.Abs();
      unit.Table();
      LoopUnfolds(unit.cfg, s, r, isWrite, cap, done, envs, sgOf);
      ChunkApart(unit.cfg, r, done, cap, sgOf);
      var c := io.Aim(offset, actual, data, length, done, cap, sgOf);
      end := DispatchChunk(unit, c, isWrite, envs(done));
      unit.Table();
      if end == ChunkDone {
        done := done + c.length;
      }
    }
    if end == ChunkDone {
      LoopOver(unit.cfg, unit.Abs(), r, isWrite, cap, envs, sgOf);
    }
  }

  /** The chunked path of dispatch_rw.  It does to the unit what ChunkLoop says; the request ends with
    * its own offset, data and length back in place, io_Actual the whole length or zero, and exactly
    * one reply. */
  method DispatchChunked(unit: Unit, io: IORequest, isWrite: bool, cap: nat, envs: nat -> ChunkEnv, sgOf: SgOf) returns (end: ChunkEnd)
    requires unit.Valid() && Load(unit.Abs()) < unit.qp.depth && unit.cfg.ps > 0
    requires Consistent(unit.cfg.ps, io.Current(sgOf, io.payload), sgOf) && BufferApart(unit.cfg, io.Current(sgOf, io.payload))
    modifies io, unit, unit.inflight, unit.qp, unit.qp.sq, unit.qp.cq, unit.ram
    ensures unit.Valid()
    ensures var out := ChunkLoop(unit.cfg, old(unit.Abs()), old(io.Current(sgOf, io.payload)), isWrite, cap, 0, envs, sgOf);
      && unit.Abs() == out.2 && end == out.0 && io.error == EndError(out.0)
      && Load(unit.Abs()) <= old(Load(unit.Abs())) + if out.0 == TimedOut then 1 else 0
    ensures io.offset == old(io.offset) && io.data == old(io.data) && io.length == old(io.length)
    ensures io.actual == if io.error == NoError then io.length else 0
    ensures cap > 0 ==> (io.error == NoError <==> end == ChunkDone)
    ensures io.replies == old(io.replies) + 1
  {
    hide *;
    unit.Table();
    ghost var r := io.Current(sgOf, io.payload);
    CurrentIs(io, sgOf, io.payload);
    if cap > 0 { NoErrorMeansDone(unit.cfg, unit.Abs(), r, isWrite, cap, 0, envs, sgOf); }
    var offset, actual, data, length := io.offset, io.actual, io.data, io.length;
    io.error := NoError;
    end := RunChunks(unit, io, offset, actual, data, length, r, isWrite, cap, envs, sgOf);
    unit.Table();
    io.error := EndError(end);
    io.offset, io.data, io.length := offset, data, length;
    io.actual := if io.error == NoError then length else 0;
    io.Reply();
  }

  lemma PayloadFits(ps: nat, r: Request, sgOf: SgOf)
    requires ps > 0 && Consistent(ps, r, sgOf)
    ensures r.length == |r.payload|
  {
  }

  lemma ChunkApart(cfg: Config, r: Request, done: nat, cap: nat, sgOf: SgOf)
    requires Layout(cfg) && done < r.length && Consistent(cfg.ps, r, sgOf) && BufferApart(cfg, r)
    ensures r.length == |r.payload|
    ensures Chunk(r, done, cap, sgOf).length > 0 ==> BufferApart(cfg, Chunk(r, done, cap, sgOf))
  {
    hide WellFormed, Total, DriverOwned, ChunkOffset;
    var c := Chunk(r, done, cap, sgOf);
    if c.length > 0 {
      assert Part(cfg.ps, r, sgOf, done, c.length);
      assert forall a :: a in Denotes(r.sg)[done..done + c.length] ==> a in Denotes(r.sg);
    }
  }

  lemma FastBusy(cfg: Config, s: Sys, r: Request, isWrite: bool, env: ChunkEnv)
    requires Shape(cfg, s) && Described(cfg, r)
    ensures var rc := FastPath(cfg, s, r, isWrite, env).0; ErrorOf(rc) == UnitBusy <==> rc == NoSlot
  {
    Drain.FastPathAnswers(cfg, s, r, isWrite, env);
    hide Described, Shape, SubmitNoRing, AwaitSlot, FindFree;
  }

  /** The fast path of dispatch_rw: no doorbell; a reply only if nothing was submitted. */
  method DispatchWhole(unit: Unit, io: IORequest, isWrite: bool, env: ChunkEnv, sgOf: SgOf) returns (rc: Rc)
    requires unit.Valid() && Load(unit.Abs()) < unit.qp.depth && Described(unit.cfg, io.Current(sgOf, io.payload))
    requires io.length > 0 ==> BufferApart(unit.cfg, io.Current(sgOf, io.payload))
    modifies io`error, io`actual, io`replies, unit, unit.inflight, unit.qp, unit.qp.sq, unit.qp.cq, unit.ram
    ensures unit.Valid() && Load(unit.Abs()) <= old(Load(unit.Abs()))
    ensures (rc, unit.Abs()) == FastPath(unit.cfg, old(unit.Abs()), old(io.Current(sgOf, io.payload)), isWrite, env)
    ensures io.replies == old(io.replies) + if rc == Submitted then 0 else 1
    ensures rc != Submitted ==> io.error == ErrorOf(rc) && (io.error == UnitBusy <==> rc == NoSlot)
    ensures io.actual == if rc == NothingToDo || (rc.Failed? && rc.code == -5) then 0 else old(io.actual)
  {
    hide *;
    unit.Table();
    ghost var s := unit.Abs();
    var r := io.Current(sgOf, io.payload);
    CurrentIs(io, sgOf, io.payload);
    FastBusy(unit.cfg, s, r, isWrite, env);
    FastUnfolds(unit.cfg, s, r, isWrite, env);
    rc := unit.SubmitNoRing(r, isWrite, env.dma);
    if rc == NoSlot {
      var freed := WaitForFreeSlot(unit, env.slotScript);
      if freed {
        rc := unit.SubmitNoRing(r, isWrite, env.retry);
      }
    }
    unit.Table();
    if rc == NothingToDo || (rc.Failed? && rc.code == -5) {
      io.actual := 0;
    }
    if rc != Submitted {
      io.error := ErrorOf(rc);
      io.Reply();
    }
  }

  lemma FastUnfolds(cfg: Config, s: Sys, r: Request, isWrite: bool, env: ChunkEnv)
    requires Shape(cfg, s) && Described(cfg, r)
    ensures Shape(cfg, RingSQ(SubmitNoRing(cfg, s, r, isWrite, env.dma).1))
    ensures var o := SubmitNoRing(cfg, s, r, isWrite, env.dma);
      FastPath(cfg, s, r, isWrite, env)
        == if o.0 != NoSlot then o
           else
             var w := AwaitSlot(cfg, RingSQ(o.1), env.slotScript);
             if w.0 then SubmitNoRing(cfg, w.1, r, isWrite, env.retry) else (NoSlot, w.1)
  {
    ShapeSize(cfg, SubmitNoRing(cfg, s, r, isWrite, env.dma).1);
    hide SubmitNoRing, AwaitSlot, Described, Shape;
  }

  /** dispatch_rw.  A transfer that exceeds the cap takes the chunked path and is always replied to
    * here; any other one is submitted, to be replied to by Harvest, or replied to with its error. */
  method DispatchRw(unit: Unit, io: IORequest, isWrite: bool, cap: nat, env: ChunkEnv, envs: nat -> ChunkEnv, sgOf: SgOf)
      returns (fate: Drain.Fate)
    requires unit.Valid() && Load(unit.Abs()) < unit.qp.depth && unit.cfg.ps > 0 && Layout(unit.cfg)
    requires Described(unit.cfg, io.Current(sgOf, io.payload))
    requires io.length > 0 ==> BufferApart(unit.cfg, io.Current(sgOf, io.payload))
    requires io.length > cap ==> Consistent(unit.cfg.ps, io.Current(sgOf, io.payload), sgOf)
    modifies io, unit, unit.inflight, unit.qp, unit.qp.sq, unit.qp.cq, unit.ram
    ensures unit.Valid() && Load(unit.Abs()) <= old(Load(unit.Abs())) + if fate == Drain.Lost then 1 else 0
    ensures io.replies == old(io.replies) + if fate == Drain.Pending then 0 else 1
    ensures fate.Answered? ==> io.error == fate.error
    ensures fate == Drain.Lost ==> io.error == Aborted
    ensures io.offset == old(io.offset) && io.data == old(io.data) && io.length == old(io.length)
    ensures io.length > cap ==> io.actual == if io.error == NoError then io.length else 0
    ensures if io.length <= cap then
              var out := FastPath(unit.cfg, old(unit.Abs()), old(io.Current(sgOf, io.payload)), isWrite, env);
              unit.Abs() == out.1 && fate == Drain.FateOf(out.0)
            else
              var out := ChunkLoop(unit.cfg, old(unit.Abs()), old(io.Current(sgOf, io.payload)), isWrite, cap, 0, envs, sgOf);
              unit.Abs() == out.2 && fate == if out.0 == TimedOut then Drain.Lost else Drain.Answered(EndError(out.0))
  {
    hide *;
    FatesAre();
    if io.length <= cap {
      var rc := DispatchWhole(unit, io, isWrite, env, sgOf);
      fate := Drain.FateOf(rc);
    } else {
      var end := DispatchChunked(unit, io, isWrite, cap, envs, sgOf);
      fate := if end == TimedOut then Drain.Lost else Drain.Answered(EndError(end));
    }
    unit.Table();
  }

  lemma FatesAre()
    ensures forall rc :: Drain.FateOf(rc) != Drain.Lost && (Drain.FateOf(rc) == Drain.Pending <==> rc == Submitted)
    ensures forall rc :: rc != Submitted ==> Drain.FateOf(rc) == Drain.Answered(ErrorOf(rc))
    ensures EndError(TimedOut) == Aborted
  {
  }

  // ----- dispatch_ioreq ------------------------------------------------------------------

  /** Flush in dispatch_ioreq. */
  method FlushPatiently(unit: Unit, r: Request, script: seq<Turn>) returns (rc: Rc)
    requires unit.Valid() && Load(unit.Abs()) < unit.qp.depth
    modifies unit, unit.inflight, unit.qp, unit.qp.sq, unit.qp.cq, unit.ram
    ensures unit.Valid() && Load(unit.Abs()) <= old(Load(unit.Abs()))
    ensures (rc, unit.Abs()) == Drain.FlushPatiently(unit.cfg, old(unit.Abs()), r, script)
  {
    hide *;
    unit.Table();
    ghost var s := unit.Abs();
    FlushUnfolds(unit.cfg, s, r, script);
    rc := unit.Flush(r);
    if rc == NoSlot {
      var freed := WaitForFreeSlot(unit, script);
      if freed {
        rc := unit.Flush(r);
      }
    }
  }

  lemma FlushUnfolds(cfg: Config, s: Sys, r: Request, script: seq<Turn>)
    requires Shape(cfg, s)
    ensures var o := Pipeline.Flush(s, r);
      && Shape(cfg, RingSQ(o.1))
      && Drain.FlushPatiently(cfg, s, r, script)
        == if o.0 != NoSlot then o
           else
             var w := AwaitSlot(cfg, RingSQ(o.1), script);
             if w.0 then Pipeline.Flush(w.1, r) else (NoSlot, w.1)
  {
    Drain.FlushShape(cfg, s, r);
    ShapeSize(cfg, Pipeline.Flush(s, r).1);
    hide AwaitSlot, Shape, Pipeline.Flush;
  }

  /** No message is about the driver's own memory. */
  ghost predicate Apart(unit: Unit, m: Drain.Message)
    requires Layout(unit.cfg)
  {
    m.Transfer? && m.req.length > 0 ==> BufferApart(unit.cfg, m.req)
  }

  /** dispatch_ioreq, for a message that has just been taken off the port: its command alone decides. */
  method DispatchMessage(unit: Unit, m: Drain.Message) returns (fate: Drain.Fate)
    requires unit.Valid() && Load(unit.Abs()) < unit.qp.depth && Layout(unit.cfg) && Drain.Sound(unit.cfg, m) && Apart(unit, m)
    modifies unit, unit.inflight, unit.qp, unit.qp.sq, unit.qp.cq, unit.ram
    ensures unit.Valid() && Load(unit.Abs()) <= old(Load(unit.Abs())) + if fate == Drain.Lost then 1 else 0
    ensures (fate, unit.Abs()) == Drain.Dispatched(unit.cfg, old(unit.Abs()), m)
  {
    assert m.Transfer? && m.req.length > 0 ==> BufferApart(unit.cfg, m.req);
    hide *;
    unit.Table();
    ghost var s := unit.Abs();
    MessageMeans(unit.cfg, s, m);
    match Handled(m.req.command) {
      case Rw(isWrite) =>
        fate := DispatchTransfer(unit, m.req, isWrite, m.cap, m.env, m.envs, m.sgOf);
      case FlushCommand =>
        var rc := FlushPatiently(unit, m.req, m.slotScript);
        fate := Drain.FateOf(rc);
      case ScsiCommand =>
        if m.Synchronous? {
          var end := SubmitAndWait(unit, m.req, m.sqe, m.slotScript, m.doneScript);
          fate := if end == NoAnswer then Drain.Lost else Drain.Reported(end);
        } else {
          fate := Drain.Answered(m.error);
        }
      case Geometry(bytes) =>
        fate := Drain.Answered(if m.req.data == 0 || m.req.length < bytes then BadLength else NoError);
      case Seek =>
        fate := Drain.Answered(NoError);
      case NotHandled =>
        fate := Drain.Answered(NoCmd);
    }
    FatesAre();
    unit.Table();
  }

  /** A read or write, whose fields stand in an IOStdReq. */
  method DispatchTransfer(unit: Unit, r: Request, isWrite: bool, cap: nat, env: ChunkEnv, envs: nat -> ChunkEnv, sgOf: SgOf)
      returns (fate: Drain.Fate)
    requires unit.Valid() && Load(unit.Abs()) < unit.qp.depth && unit.cfg.ps > 0 && Layout(unit.cfg)
    requires Described(unit.cfg, r) && r.sg == sgOf(r.data, r.length) && (r.length > 0 ==> BufferApart(unit.cfg, r))
    requires r.length > cap ==> Consistent(unit.cfg.ps, r, sgOf)
    modifies unit, unit.inflight, unit.qp, unit.qp.sq, unit.qp.cq, unit.ram
    ensures unit.Valid() && Load(unit.Abs()) <= old(Load(unit.Abs())) + if fate == Drain.Lost then 1 else 0
    ensures r.length <= cap ==>
      var out := FastPath(unit.cfg, old(unit.Abs()), r, isWrite, env); unit.Abs() == out.1 && fate == Drain.FateOf(out.0)
    ensures r.length > cap ==>
      var out := ChunkLoop(unit.cfg, old(unit.Abs()), r, isWrite, cap, 0, envs, sgOf);
      unit.Abs() == out.2 && fate == if out.0 == TimedOut then Drain.Lost else Drain.Answered(EndError(out.0))
  {
    hide *;
    unit.Table();
    ghost var s := unit.Abs();
    var io := new IORequest(r.id, r.command, false, r.payload, r.offset, r.actual, r.data, r.length);
    assert io.Current(sgOf, io.payload) == r by { CurrentIs(io, sgOf, io.payload); }
    assert unit.Abs() == s;
    fate := DispatchRw(unit, io, isWrite, cap, env, envs, sgOf);
    unit.Table();
  }

  lemma MessageMeans(cfg: Config, s: Sys, m: Drain.Message)
    requires Shape(cfg, s) && Drain.Sound(cfg, m)
    ensures var h := Handled(m.req.command);
      && (h.Rw? ==> m.Transfer? && m.isWrite == h.isWrite) && (h.FlushCommand? ==> m.FlushCache?)
      && (h.ScsiCommand? ==> m.Synchronous? || m.Immediate?)
      && (h.Geometry? ==> m.Immediate? && m.error == if m.req.data == 0 || m.req.length < h.bytes then BadLength else NoError)
      && (h.Seek? ==> m.Immediate? && m.error == NoError) && (h.NotHandled? ==> m.Immediate? && m.error == NoCmd)
    ensures m.Transfer? ==>
      Described(cfg, m.req) && m.req.sg == m.sgOf(m.req.data, m.req.length) && (m.req.length > m.cap ==> Consistent(cfg.ps, m.req, m.sgOf))
    ensures m.Transfer? && m.req.length <= m.cap ==>
      var out := FastPath(cfg, s, m.req, m.isWrite, m.env); Drain.Dispatched(cfg, s, m) == (Drain.FateOf(out.0), out.1)
    ensures m.Transfer? && m.req.length > m.cap ==>
      var out := ChunkLoop(cfg, s, m.req, m.isWrite, m.cap, 0, m.envs, m.sgOf);
      Drain.Dispatched(cfg, s, m) == (if out.0 == TimedOut then Drain.Lost else Drain.Answered(EndError(out.0)), out.2)
    ensures m.FlushCache? ==>
      var out := Drain.FlushPatiently(cfg, s, m.req, m.slotScript); Drain.Dispatched(cfg, s, m) == (Drain.FateOf(out.0), out.1)
    ensures m.Synchronous? ==>
      && Dataless(m.sqe)
      && var out := Dispatch.SubmitAndWait(cfg, s, m.req, m.sqe, m.slotScript, m.doneScript);
      Drain.Dispatched(cfg, s, m) == (if out.0 == NoAnswer then Drain.Lost else Drain.Reported(out.0), out.1)
    ensures m.Immediate? ==> Drain.Dispatched(cfg, s, m) == (Drain.Answered(m.error), s)
  {
    hide FastPath, ChunkLoop, Dispatch.SubmitAndWait, Drain.FlushPatiently, Shape, Described, Consistent, Drain.FateOf, EndError, Handled;
  }

  // ----- The port drain ------------------------------------------------------------------

  /** `if (unit->io_sq_tail != tail_before) NVMeIO_RingSQ(unit)`: tails are compared modulo the depth,
    * so the doorbell is rung exactly if no multiple of depth SQEs has been placed since `before`. */
  method RingIfMoved(unit: Unit, tailBefore: nat, ghost before: Sys)
    requires unit.Valid() && before.placed <= unit.Abs().placed && tailBefore == Rem(before.placed, unit.qp.depth)
    modifies unit.qp`sqDoorbell, unit.qp`announced
    ensures unit.Valid() && unit.qp.depth > 0 && Load(unit.Abs()) == old(Load(unit.Abs()))
    ensures unit.Abs() == Drain.RungIfMoved(before, old(unit.Abs()), unit.qp.depth)
  {
    SqTail(unit);
    TailsAgree(before.placed, unit.Abs().placed, unit.qp.depth);
    hide *;
    unit.Table();
    ghost var s := unit.Abs();
    RungIs(before, s, unit.qp.depth);
    if unit.qp.sqTail != tailBefore {
      RungShape(unit.cfg, s);
      unit.RingSQ();
    }
  }

  lemma RungIs(before: Sys, s: Sys, depth: nat)
    requires depth > 0
    ensures Drain.RungIfMoved(before, s, depth) == if (s.placed - before.placed) % depth != 0 then RingSQ(s) else s
  {
    hide RingSQ;
  }

  /** The shadow tail is the number of SQEs ever placed, modulo the depth. */
  lemma SqTail(unit: Unit)
    requires unit.Valid()
    ensures unit.qp.depth > 1 && unit.qp.sqTail == Rem(unit.Abs().placed, unit.qp.depth)
  {
  }

  lemma TailsAgree(a: nat, b: nat, d: nat)
    requires a <= b && d > 0
    ensures Rem(a, d) == Rem(b, d) <==> (b - a) % d == 0
    ensures b - a < d && b != a ==> (b - a) % d != 0
  {
    Builtin(a, d);
    Builtin(b, d);
    Builtin(b - a, d);
    CongruentGap(a, b - a, d);
    if b - a < d && b != a { DistinctPositions(a, b, d); }
  }

  lemma {:induction false} CongruentGap(a: nat, gap: nat, d: nat)
    requires d > 0
    ensures Rem(a, d) == Rem(a + gap, d) <==> Rem(gap, d) == 0
    decreases gap
  {
    if gap >= d {
      CongruentGap(a, gap - d, d);
      assert Rem(a + gap, d) == Rem(a + gap - d, d);
    } else if gap > 0 {
      DistinctPositions(a, a + gap, d);
    }
  }

  /** The port drain of the event loop: every message is dispatched, then the doorbell is rung if the
    * tail has moved. */
  method DrainPort(unit: Unit, ms: seq<Drain.Message>)
    requires unit.Valid() && Layout(unit.cfg) && (forall m :: m in ms ==> Drain.Sound(unit.cfg, m) && Apart(unit, m))
    requires NoneSuppressed(unit.Abs().slots) && Load(unit.Abs()) + Drain.LostIn(unit.cfg, unit.Abs(), ms) < unit.qp.depth
    modifies unit, unit.inflight, unit.qp, unit.qp.sq, unit.qp.cq, unit.ram
    ensures unit.Valid() && unit.qp.depth > 0 && NoneSuppressed(unit.Abs().slots)
    ensures Load(unit.Abs()) <= old(Load(unit.Abs())) + Drain.LostIn(unit.cfg, old(unit.Abs()), ms)
    ensures unit.Abs() == Drain.RungIfMoved(old(unit.Abs()), Drain.Drained(unit.cfg, old(unit.Abs()), ms), unit.qp.depth)
  {
    SqTail(unit);
    hide *;
    unit.Table();
    ghost var before := unit.Abs();
    Drain.DrainPlaces(unit.cfg, before, ms);
    ghost var goal, load := Drain.Drained(unit.cfg, before, ms), Load(before) + Drain.LostIn(unit.cfg, before, ms);
    var tailBefore := unit.qp.sqTail;
    var i := 0;
    AllMessages(ms);
    while i < |ms|
      invariant 0 <= i <= |ms| && unit.Valid() && unit.qp.announced <= |unit.qp.queued| && Shape(unit.cfg, unit.Abs())
      invariant forall m :: m in ms[i..] ==> Drain.Sound(unit.cfg, m) && Apart(unit, m)
      invariant Drain.Drained(unit.cfg, unit.Abs(), ms[i..]) == goal
      invariant Load(unit.Abs()) + Drain.LostIn(unit.cfg, unit.Abs(), ms[i..]) <= load
    {
      NextMessage(unit.cfg, unit.Abs(), ms, i);
      var fate := DispatchMessage(unit, ms[i]);
      unit.Table();
      i := i + 1;
    }
    DrainOver(unit.cfg, unit.Abs(), ms);
    RungSlots(before, goal, unit.qp.depth);
    RingIfMoved(unit, tailBefore, before);
    unit.Table();
  }

  lemma AllMessages(ms: seq<Drain.Message>)
    ensures ms[0..] == ms
  {
  }

  lemma NextMessage(cfg: Config, s: Sys, ms: seq<Drain.Message>, i: nat)
    requires Shape(cfg, s) && i < |ms| && forall m :: m in ms[i..] ==> Drain.Sound(cfg, m)
    ensures ms[i] in ms[i..] && Drain.Sound(cfg, ms[i]) && forall m :: m in ms[i + 1..] ==> m in ms[i..]
    ensures var (fate, s') := Drain.Dispatched(cfg, s, ms[i]);
      && Drain.Drained(cfg, s, ms[i..]) == Drain.Drained(cfg, s', ms[i + 1..])
      && Drain.LostIn(cfg, s, ms[i..]) == (if fate == Drain.Lost then 1 else 0) + Drain.LostIn(cfg, s', ms[i + 1..])
  {
    hide Shape, Drain.Dispatched, Drain.Sound;
    assert ms[i..][0] == ms[i] && ms[i..][1..] == ms[i + 1..];
  }

  lemma DrainOver(cfg: Config, s: Sys, ms: seq<Drain.Message>)
    requires Shape(cfg, s)
    ensures Drain.Drained(cfg, s, ms[|ms|..]) == s && Drain.LostIn(cfg, s, ms[|ms|..]) == 0
  {
    hide Shape;
  }

  lemma RungSlots(before: Sys, s: Sys, depth: nat)
    requires depth > 0
    ensures Drain.RungIfMoved(before, s, depth).slots == s.slots
  {
  }

  // ----- The event loop ------------------------------------------------------------------

  /** Woken up: harvest, drain the port, harvest again. */
  method WakeUp(unit: Unit, ms: seq<Drain.Message>)
    requires unit.Valid() && Layout(unit.cfg) && (forall m :: m in ms ==> Drain.Sound(unit.cfg, m) && Apart(unit, m))
    requires NoneSuppressed(unit.Abs().slots)
    requires Load(unit.Abs()) + Drain.LostIn(unit.cfg, Pipeline.Harvest(unit.cfg, unit.Abs()), ms) < unit.qp.depth
    modifies unit, unit.inflight, unit.qp, unit.qp.sq, unit.qp.cq, unit.ram
    ensures unit.Valid() && unit.qp.depth > 0 && NoneSuppressed(unit.Abs().slots)
    ensures unit.Abs() == After(unit.cfg, old(unit.Abs()), Wake(ms), unit.qp.depth)
  {
    hide *;
    unit.Table();
    WakeIs(unit.cfg, unit.Abs(), ms, unit.qp.depth);
    HarvestedSlots(unit.cfg, unit.Abs());
    unit.Harvest();
    DrainPort(unit, ms);
    unit.Table();
    HarvestedSlots(unit.cfg, unit.Abs());
    unit.Harvest();
    unit.Table();
  }

  lemma WakeIs(cfg: Config, s: Sys, ms: seq<Drain.Message>, depth: nat)
    requires Shape(cfg, s) && depth > 0 && forall m :: m in ms ==> Drain.Sound(cfg, m)
    ensures var h := Pipeline.Harvest(cfg, s);
      var r := Drain.RungIfMoved(h, Drain.Drained(cfg, h, ms), depth);
      Shape(cfg, r) && SoundEvent(cfg, Wake(ms)) && After(cfg, s, Wake(ms), depth) == Pipeline.Harvest(cfg, r)
  {
    ShapeSize(cfg, Drain.Drained(cfg, Pipeline.Harvest(cfg, s), ms));
    hide Shape, Pipeline.Harvest, Drain.Drained, Drain.Sound;
  }

  lemma HarvestedSlots(cfg: Config, s: Sys)
    requires Shape(cfg, s) && NoneSuppressed(s.slots)
    ensures NoneSuppressed(Pipeline.Harvest(cfg, s).slots)
  {
    HarvestWaited(cfg, s);
    hide Shape, Pipeline.Harvest, Due;
  }

  /** Not woken up: yield, then harvest.  The event loop does not look whether everything is published. */
  method PollOnce(unit: Unit, turn: Turn)
    requires unit.Valid() && Load(unit.Abs()) < unit.qp.depth && NoneSuppressed(unit.Abs().slots)
    modifies unit, unit.inflight, unit.qp, unit.qp.sq, unit.qp.cq, unit.ram
    ensures unit.Valid() && unit.qp.depth > 0 && NoneSuppressed(unit.Abs().slots)
    ensures unit.Abs() == After(unit.cfg, old(unit.Abs()), Poll(turn), unit.qp.depth)
  {
    hide *;
    unit.Table();
    PollIs(unit.cfg, unit.Abs(), turn, unit.qp.depth);
    unit.LetRun(turn);
    unit.Table();
    HarvestedSlots(unit.cfg, unit.Abs());
    unit.Harvest();
    unit.Table();
  }

  lemma PollIs(cfg: Config, s: Sys, turn: Turn, depth: nat)
    requires Shape(cfg, s) && depth > 0
    ensures SoundEvent(cfg, Poll(turn)) && After(cfg, s, Poll(turn), depth) == Pipeline.Harvest(cfg, Elapse(cfg, s, turn))
    ensures Elapse(cfg, s, turn).slots == s.slots
  {
    hide Shape, Pipeline.Harvest;
  }

  /** Whole sessions of the event loop: transfers with their waits and chunks, flushes, synchronous
    * commands, in any order, with whatever the controller and the clients do at each yield.  As long as
    * clients keep to their buffers and nothing times out, every result handed back is faithful. */
  method Session(unit: Unit, events: seq<Event>)
    requires unit.Valid() && Layout(unit.cfg) && (forall e :: e in events ==> SoundEvent(unit.cfg, e) && ApartEvent(unit, e))
    requires Good(unit.cfg, unit.Abs(), [], false) && NoneSuppressed(unit.Abs().slots)
    requires unit.qp.depth > 0 && FairSession(unit.cfg, unit.Abs(), events, unit.qp.depth)
    modifies unit, unit.inflight, unit.qp, unit.qp.sq, unit.qp.cq, unit.ram
    ensures unit.Valid() && unit.Abs() == AfterAll(unit.cfg, old(unit.Abs()), events, unit.qp.depth)
    ensures forall o :: o in unit.outcomes ==> Faithful(o) && AsRequested(o)
  {
    hide *;
    unit.Table();
    ghost var goal := AfterAll(unit.cfg, unit.Abs(), events, unit.qp.depth);
    AllEvents(events);
    SessionFaithful(unit.cfg, unit.Abs(), events, unit.qp.depth);
    var i := 0;
    while i < |events|
      invariant 0 <= i <= |events| && unit.Valid() && unit.qp.announced <= |unit.qp.queued| && Shape(unit.cfg, unit.Abs())
      invariant forall e :: e in events[i..] ==> SoundEvent(unit.cfg, e) && ApartEvent(unit, e)
      invariant Good(unit.cfg, unit.Abs(), [], false) && NoneSuppressed(unit.Abs().slots)
      invariant FairSession(unit.cfg, unit.Abs(), events[i..], unit.qp.depth)
      invariant AfterAll(unit.cfg, unit.Abs(), events[i..], unit.qp.depth) == goal
    {
      NextEvent(unit, events, i);
      match events[i] {
        case Poll(turn) => PollOnce(unit, turn);
        case Wake(ms) => WakeUp(unit, ms);
      }
      unit.Table();
      i := i + 1;
    }
    SessionOver(unit.cfg, unit.Abs(), events, unit.qp.depth);
    unit.TableOutcomes();
  }

  ghost predicate ApartEvent(unit: Unit, e: Event)
    requires Layout(unit.cfg)
  {
    e.Wake? ==> forall m :: m in e.messages ==> Apart(unit, m)
  }

  lemma AllEvents(events: seq<Event>)
    ensures events[0..] == events
  {
  }

  lemma NextEvent(unit: Unit, events: seq<Event>, i: nat)
    requires unit.Valid() && Layout(unit.cfg) && i < |events| && unit.qp.depth > 0
    requires Shape(unit.cfg, unit.Abs()) && Good(unit.cfg, unit.Abs(), [], false)
    requires forall e :: e in events[i..] ==> SoundEvent(unit.cfg, e) && ApartEvent(unit, e)
    requires FairSession(unit.cfg, unit.Abs(), events[i..], unit.qp.depth)
    ensures events[i] in events[i..] && (forall e :: e in events[i + 1..] ==> e in events[i..])
    ensures SoundEvent(unit.cfg, events[i]) && Load(unit.Abs()) < unit.qp.depth
    ensures events[i].Wake? ==>
      && (forall m :: m in events[i].messages ==> Drain.Sound(unit.cfg, m) && Apart(unit, m))
      && Drain.LostIn(unit.cfg, Pipeline.Harvest(unit.cfg, unit.Abs()), events[i].messages) == 0
    ensures var s' := After(unit.cfg, unit.Abs(), events[i], unit.qp.depth);
      && Good(unit.cfg, s', [], false) && FairSession(unit.cfg, s', events[i + 1..], unit.qp.depth)
      && AfterAll(unit.cfg, unit.Abs(), events[i..], unit.qp.depth) == AfterAll(unit.cfg, s', events[i + 1..], unit.qp.depth)
  {
    unit.Table();
    GoodParts(unit.cfg, unit.Abs(), [], false);
    MatchedLoad(unit.Abs());
    hide Unit.Valid, Shape, Good, After, Drain.Sound, Drain.LostIn, FairDrain, Pipeline.Harvest, Unit.Abs, Load, Apart, Matched;
    assert events[i..][0] == events[i] && events[i..][1..] == events[i + 1..];
    assert events[i] in events[i..];
    AfterGood(unit.cfg, unit.Abs(), events[i], unit.qp.depth);
    if events[i].Wake? {
      HarvestGood(unit.cfg, unit.Abs());
      DrainedGood(unit.cfg, Pipeline.Harvest(unit.cfg, unit.Abs()), events[i].messages);
    }
  }

  lemma SessionOver(cfg: Config, s: Sys, events: seq<Event>, depth: nat)
    requires Shape(cfg, s) && depth > 0
    ensures AfterAll(cfg, s, events[|events|..], depth) == s
  {
    hide Shape;
  }
}
