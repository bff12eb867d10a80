/** dispatch_rw: one transfer as one command, or, if it exceeds the controller's MDTS, as chunks
  * that are submitted and waited for one by one. */
module Dispatch {
  import opened Base
  import opened Memory
  import opened Prp
  import opened Commands
  import opened Pipeline
  import opened Matching
  import opened Waiting
  import opened Chunking

  /** What the environment decides while a chunk is dispatched. */
  datatype ChunkEnv = ChunkEnv(dma: DmaEnv, retry: DmaEnv, slotScript: seq<Turn>, doneScript: seq<Turn>)

  /** How a chunk ended; `TimedOut` is the stop after which a command may still be under way. */
  datatype ChunkEnd = ChunkDone | ChunkStop(error: IoError) | TimedOut

  /** Submit; if the pipeline is full, wait for a slot and submit again. */
  function SubmitPatiently(cfg: Config, s: Sys, c: Request, isWrite: bool, env: ChunkEnv): (o: (Rc, Sys))
    requires Shape(cfg, s) && Described(cfg, c)
    ensures Shape(cfg, o.1)
  {
    var (rc, s1) := Submit(cfg, s, c, isWrite, env.dma);
    if rc != NoSlot then (rc, s1)
    else
      var (freed, s2) := AwaitSlot(cfg, RingSQ(s1), env.slotScript);
      if freed then Submit(cfg, s2, c, isWrite, env.retry) else (NoSlot, s2)
  }

  /** io_Error after a submission that did not go through. */
  function ErrorOf(rc: Rc): IoError {
    match rc
    case NoSlot => UnitBusy
    case Failed(_, error) => error
    case _ => NoError
  }

  /** The first slot whose ioreq is this one. */
  function FindRequest(slots: seq<Slot>, id: nat): (f: Option<nat>)
    ensures f.Some? ==> f.value < |slots| && slots[f.value].Busy? && slots[f.value].req.id == id
  {
    FindRequestFrom(slots, id, 0)
  }

  function FindRequestFrom(slots: seq<Slot>, id: nat, i: nat): (f: Option<nat>)
    requires i <= |slots|
    ensures f.Some? ==> i <= f.value < |slots| && slots[f.value].Busy? && slots[f.value].req.id == id
    ensures f.None? ==> forall k :: i <= k < |slots| ==> slots[k].Free? || slots[k].req.id != id
    decreases |slots| - i
  {
    if i == |slots| then None
    else if slots[i].Busy? && slots[i].req.id == id then Some(i)
    else FindRequestFrom(slots, id, i + 1)
  }

  /** Wait for the chunk in slot `k`, with its reply suppressed. */
  function FinishChunk(cfg: Config, s: Sys, k: nat, script: seq<Turn>): (o: (ChunkEnd, Sys))
    requires Shape(cfg, s) && k < MAX_INFLIGHT && s.slots[k].Busy?
    ensures Shape(cfg, o.1)
  {
    var (done, s1) := AwaitDone(cfg, Suppressed(s, k), k, script);
    if !done then (TimedOut, GiveUp(s1, k))
    else
      var results := Results(s1.outcomes, s.slots[k].req.id);
      (if results != [] && results[|results| - 1].ok then ChunkDone else ChunkStop(BadStatus), s1)
  }

  /** One turn of the chunk loop. */
  function OneChunk(cfg: Config, s: Sys, c: Request, isWrite: bool, env: ChunkEnv): (o: (ChunkEnd, Sys))
    requires Shape(cfg, s) && Described(cfg, c)
    ensures Shape(cfg, o.1)
    ensures o.0 == ChunkDone ==> c.length > 0
  {
    var (rc, s1) := SubmitPatiently(cfg, s, c, isWrite, env);
    if rc != Submitted then (ChunkStop(ErrorOf(rc)), s1)
    else
      match FindRequest(s1.slots, c.id)
      case None => (ChunkStop(Aborted), s1)
      case Some(k) =>
        SubmittedLength(cfg, s, c, isWrite, env);
        FinishChunk(cfg, s1, k, env.doneScript)
  }

  lemma SubmittedLength(cfg: Config, s: Sys, c: Request, isWrite: bool, env: ChunkEnv)
    requires Shape(cfg, s) && Described(cfg, c) && SubmitPatiently(cfg, s, c, isWrite, env).0 == Submitted
    ensures c.length > 0
  {
    hide SubmitBounced, SubmitMapped, AwaitSlot, Described;
  }

  /** The chunk loop from byte `done` on: how it ends, and where. */
  function ChunkLoop(cfg: Config, s: Sys, r: Request, isWrite: bool, cap: nat, done: nat, envs: nat -> ChunkEnv, sgOf: SgOf)
      : (o: (ChunkEnd, nat, Sys))
    requires Shape(cfg, s) && done <= r.length && Consistent(cfg.ps, r, sgOf)
    ensures Shape(cfg, o.2) && done <= o.1 <= r.length
    decreases r.length - done
  {
    if done == r.length then (ChunkDone, done, s)
    else
      ChunkDescribed(cfg, r, done, cap, sgOf);
      var c := Chunk(r, done, cap, sgOf);
      var (end, s1) := OneChunk(cfg, s, c, isWrite, envs(done));
      if end == ChunkDone then ChunkLoop(cfg, s1, r, isWrite, cap, done + c.length, envs, sgOf) else (end, done, s1)
  }

  /** io_Error after the chunk loop. */
  function EndError(end: ChunkEnd): IoError {
    match end
    case ChunkDone => NoError
    case ChunkStop(error) => error
    case TimedOut => Aborted
  }

  lemma ChunkDescribed(cfg: Config, r: Request, done: nat, cap: nat, sgOf: SgOf)
    requires cfg.ps > 0 && done < r.length && Consistent(cfg.ps, r, sgOf)
    ensures r.length == |r.payload| && Described(cfg, Chunk(r, done, cap, sgOf))
  {
    var n := ChunkLen(r.length, done, cap);
    if n > 0 { assert Part(cfg.ps, r, sgOf, done, n); }
    hide WellFormed, Total;
  }

  /** The chunk loop, one chunk at a time. */
  lemma LoopUnfolds(cfg: Config, s: Sys, r: Request, isWrite: bool, cap: nat, done: nat, envs: nat -> ChunkEnv, sgOf: SgOf)
    requires Shape(cfg, s) && done < r.length && Consistent(cfg.ps, r, sgOf)
    ensures cfg.ps > 0 && r.length == |r.payload| && Described(cfg, Chunk(r, done, cap, sgOf))
    ensures var out := ChunkLoop(cfg, s, r, isWrite, cap, done, envs, sgOf);
      var c := Chunk(r, done, cap, sgOf);
      var o := OneChunk(cfg, s, c, isWrite, envs(done));
      && (o.0 == ChunkDone ==> out == ChunkLoop(cfg, o.1, r, isWrite, cap, done + c.length, envs, sgOf))
      && (o.0 != ChunkDone ==> out == (o.0, done, o.1))
  {
    hide Shape, OneChunk, Chunk, Described, Consistent;
    ShapeSize(cfg, s);
    ChunkDescribed(cfg, r, done, cap, sgOf);
    var c := Chunk(r, done, cap, sgOf);
    var o := OneChunk(cfg, s, c, isWrite, envs(done));
    if o.0 == ChunkDone {
      assert ChunkLoop(cfg, s, r, isWrite, cap, done, envs, sgOf)
          == ChunkLoop(cfg, o.1, r, isWrite, cap, done + c.length, envs, sgOf);
    }
  }

  lemma LoopOver(cfg: Config, s: Sys, r: Request, isWrite: bool, cap: nat, envs: nat -> ChunkEnv, sgOf: SgOf)
    requires Shape(cfg, s) && Consistent(cfg.ps, r, sgOf)
    ensures ChunkLoop(cfg, s, r, isWrite, cap, r.length, envs, sgOf) == (ChunkDone, r.length, s)
  {
    hide Shape, Consistent, OneChunk, Chunk;
  }

  // ----- What a request is refused for -----------------------------------------------------

  /** Which refusal stands for what: all slots taken; a misaligned offset; a misaligned length, one of more than
    * 65536 blocks, or no buffer; a buffer that StartDMA refuses or for which there is no DMAEntry array; and a
    * buffer in more pages than the list page has room for.  Only an empty request is nothing to do. */
  lemma RefusalsExact(cfg: Config, s: Sys, r: Request, w: bool, env: DmaEnv)
    requires Shape(cfg, s) && Described(cfg, r)
    ensures var rc, free := SubmitNoRing(cfg, s, r, w, env).0, FindFree(s.slots);
      var direct := r.length > 0x1_0000 || (r.length >= 2 * cfg.ps && r.data % cfg.ps == 0);
      var aligned := Offset(r) % cfg.bs == 0;
      var good := aligned && r.length % cfg.bs == 0 && 0 < r.length <= 0x1_0000 * cfg.bs && r.data != 0;
      && (rc == NoSlot <==> free.None?)
      && (free.Some? ==>
            && free.value < MAX_INFLIGHT
            && (!aligned <==> rc == Failed(-5, BadAddress))
            && (aligned && r.length == 0 <==> rc == NothingToDo)
            && (aligned && r.length > 0 && !good <==> rc == Failed(-5, BadLength))
            && (good && direct && (env.refuses || (env.allocFails && !(|r.sg| <= cfg.poolCapacity && cfg.pool[free.value])))
                <==> rc == Failed(-3, Aborted))
            && (good && direct && rc != Failed(-3, Aborted) && |ExtraPages(r.sg, cfg.ps)| > cfg.ps / 8 <==> rc == Failed(-4, BadLength))
            && rc in {Submitted, NothingToDo, Failed(-5, BadAddress), Failed(-5, BadLength), Failed(-3, Aborted), Failed(-4, BadLength)})
  {
    ValidateExact(Offset(r), r.length, r.data != 0, cfg.bs);
    hide SubmitBounced, SubmitMapped, WellFormed, Total, ExtraPages;
    var free, v := FindFree(s.slots), Validate(Offset(r), r.length, r.data != 0, cfg.bs);
    if free.Some? && v.Transfer? {
      if UseBounce(r.length, r.data, cfg.ps) {
        BouncedAccepted(cfg, s, free.value, r, w, v.lba, v.nlb);
      } else {
        MappedRefusals(cfg, s, free.value, r, w, v.lba, v.nlb, env);
      }
    }
  }

  /** A transfer that fits a bounce buffer always fits its list page. */
  lemma BouncedAccepted(cfg: Config, s: Sys, k: nat, r: Request, w: bool, lba: nat, nlb: nat)
    requires Shape(cfg, s) && k < MAX_INFLIGHT && Described(cfg, r) && 0 < r.length <= BOUNCE_SIZE && lba < TWO64 && 1 <= nlb <= 0x1_0000
    ensures SubmitBounced(cfg, s, k, r, w, lba, nlb).0 == Submitted
  {
    FewPages(r.length, cfg.ps);
    hide BounceIn, Encode, Described, NumPages, PutList, ContiguousPages;
  }

  lemma MappedRefusals(cfg: Config, s: Sys, k: nat, r: Request, w: bool, lba: nat, nlb: nat, env: DmaEnv)
    requires Shape(cfg, s) && k < MAX_INFLIGHT && Described(cfg, r) && 0 < r.length && lba < TWO64 && 1 <= nlb <= 0x1_0000
    ensures r.sg != []
    ensures var rc := SubmitMapped(cfg, s, k, r, w, lba, nlb, env).0;
      && (rc == Failed(-3, Aborted) <==> env.refuses || (env.allocFails && !(|r.sg| <= cfg.poolCapacity && cfg.pool[k])))
      && (rc == Failed(-4, BadLength) <==> rc != Failed(-3, Aborted) && |ExtraPages(r.sg, cfg.ps)| > cfg.ps / 8)
      && rc in {Submitted, Failed(-3, Aborted), Failed(-4, BadLength)}
  {
    hide Encode, Layout, ExtraPages, PutList;
  }

  // ----- What a chunk leaves behind ------------------------------------------------------

  /** The slot of a request just submitted. */
  predicate Taken(s: Sys, k: nat, c: Request, isWrite: bool) {
    && OnlySlot(s.slots, k) && s.slots[k].req == c && s.slots[k].isWrite == isWrite
    && !s.slots[k].path.NoData? && !s.slots[k].suppress
  }

  lemma SubmitTakes(cfg: Config, s: Sys, c: Request, isWrite: bool, env: DmaEnv) returns (k: nat)
    requires Shape(cfg, s) && Described(cfg, c) && Matched(s) && Absent(s.slots, c.id)
    ensures var (rc, s') := Submit(cfg, s, c, isWrite, env);
      && Matched(s') && s'.outcomes == s.outcomes
      && (c.length > 0 && rc != Submitted && rc != NoSlot ==> ErrorOf(rc) != NoError)
      && if rc == Submitted then Taken(s', k, c, isWrite) && s'.unpublished == [] else s'.slots == s.slots
  {
    SubmitMatched(cfg, s, c, isWrite, env);
    SubmitPlaces(cfg, s, c, isWrite, env);
    SubmitSlot(cfg, s, c, isWrite, env);
    var (rc, s1) := SubmitNoRing(cfg, s, c, isWrite, env);
    k := if rc == Submitted then FindFree(s.slots).value else 0;
    if rc == Submitted { PublishMatched(s1); }
    hide SubmitNoRing, Matched, Described, Shape;
  }

  lemma SubmitSlot(cfg: Config, s: Sys, c: Request, isWrite: bool, env: DmaEnv)
    requires Shape(cfg, s) && Described(cfg, c)
    ensures var (rc, s') := SubmitNoRing(cfg, s, c, isWrite, env);
      && (c.length > 0 && rc != Submitted && rc != NoSlot ==> ErrorOf(rc) != NoError)
      && (rc == Submitted ==>
            && FindFree(s.slots).Some? && |s'.slots| == |s.slots|
            && var b := s'.slots[FindFree(s.slots).value];
            && b.Busy? && b.req == c && b.isWrite == isWrite && !b.path.NoData? && !b.suppress)
  {
    ValidateExact(Offset(c), c.length, c.data != 0, cfg.bs);
    hide SubmitBounced, SubmitMapped, WellFormed, Total;
    var free, v := FindFree(s.slots), Validate(Offset(c), c.length, c.data != 0, cfg.bs);
    if free.Some? && v.Transfer? {
      if UseBounce(c.length, c.data, cfg.ps) {
        BouncedSlot(cfg, s, free.value, c, isWrite, v.lba, v.nlb);
      } else {
        MappedSlot(cfg, s, free.value, c, isWrite, v.lba, v.nlb, env);
      }
    }
  }

  /** The slot as a submission leaves it, or the error it reports. */
  predicate Submission(c: Request, isWrite: bool, k: nat, n: nat, o: (Rc, Sys)) {
    && o.0 != NoSlot && o.0 != NothingToDo && (o.0 != Submitted ==> ErrorOf(o.0) != NoError)
    && (o.0 == Submitted ==>
          && k < |o.1.slots| == n
          && var b := o.1.slots[k];
          b.Busy? && b.req == c && b.isWrite == isWrite && !b.path.NoData? && !b.suppress)
  }

  lemma BouncedSlot(cfg: Config, s: Sys, k: nat, c: Request, isWrite: bool, lba: nat, nlb: nat)
    requires Shape(cfg, s) && k < MAX_INFLIGHT && Described(cfg, c) && 0 < c.length <= BOUNCE_SIZE && lba < TWO64 && 1 <= nlb <= 0x1_0000
    ensures Submission(c, isWrite, k, |s.slots|, SubmitBounced(cfg, s, k, c, isWrite, lba, nlb))
  {
    hide Bounce, BounceIn, Described, Encode;
  }

  lemma MappedSlot(cfg: Config, s: Sys, k: nat, c: Request, isWrite: bool, lba: nat, nlb: nat, env: DmaEnv)
    requires Shape(cfg, s) && k < MAX_INFLIGHT && Described(cfg, c) && 0 < c.length && lba < TWO64 && 1 <= nlb <= 0x1_0000
    ensures Submission(c, isWrite, k, |s.slots|, SubmitMapped(cfg, s, k, c, isWrite, lba, nlb, env))
  {
    hide Direct, Described, Encode;
  }

  lemma {:induction false} FindsOnly(slots: seq<Slot>, k: nat, i: nat)
    requires OnlySlot(slots, k) && i <= k
    ensures FindRequestFrom(slots, slots[k].req.id, i) == Some(k)
    decreases k - i
  {
    if i < k { FindsOnly(slots, k, i + 1); }
  }

  lemma SubmitPatientlyTakes(cfg: Config, s: Sys, c: Request, isWrite: bool, env: ChunkEnv) returns (k: nat)
    requires Shape(cfg, s) && Described(cfg, c) && Matched(s) && Absent(s.slots, c.id)
    ensures var (rc, s') := SubmitPatiently(cfg, s, c, isWrite, env);
      && Matched(s') && Results(s'.outcomes, c.id) == Results(s.outcomes, c.id)
      && (c.length > 0 && rc != Submitted ==> ErrorOf(rc) != NoError)
      && if rc == Submitted then
           && k < MAX_INFLIGHT && Taken(s', k, c, isWrite) && s'.unpublished == []
           && FindRequest(s'.slots, c.id) == Some(k)
         else Absent(s'.slots, c.id)
  {
    hide Matched, Shape, Described, Submit, AwaitSlot, FindRequestFrom;
    k := SubmitTakes(cfg, s, c, isWrite, env.dma);
    var (rc, s1) := Submit(cfg, s, c, isWrite, env.dma);
    ShapeSize(cfg, s1);
    if rc == NoSlot {
      PublishMatched(s1);
      var (freed, s2) := AwaitSlot(cfg, RingSQ(s1), env.slotScript);
      AwaitSlotAbsent(cfg, RingSQ(s1), env.slotScript, c.id);
      if freed { k := SubmitTakes(cfg, s2, c, isWrite, env.retry); }
    }
    var (rc', s') := SubmitPatiently(cfg, s, c, isWrite, env);
    ShapeSize(cfg, s');
    if rc' == Submitted { FindsOnly(s'.slots, k, 0); }
  }

  /** The result of one chunk. */
  predicate ChunkResult(o: Outcome, c: Request, isWrite: bool) {
    o.req == c && o.isWrite == isWrite && !o.path.NoData? && !o.replied && o.actual == if o.ok then c.length else 0
  }

  /** A chunk that is done adds its own successful result, one that stops adds at most a failed one,
    * a timed-out one adds none; nobody is replied to. */
  ghost predicate ChunkAdds(s: Sys, c: Request, isWrite: bool, end: ChunkEnd, s': Sys, outs: seq<Outcome>) {
    && Results(s'.outcomes, c.id) == Results(s.outcomes, c.id) + outs
    && |outs| <= 1 && (forall o :: o in outs ==> ChunkResult(o, c, isWrite) && o.ok == (end == ChunkDone))
    && (end == ChunkDone ==> |outs| == 1)
    && (end == TimedOut ==> outs == [])
    && (c.length > 0 ==> end != ChunkStop(NoError))
    && (end != TimedOut ==> Matched(s') && Absent(s'.slots, c.id))
  }

  lemma FinishChunkAdds(cfg: Config, s: Sys, k: nat, c: Request, isWrite: bool, script: seq<Turn>) returns (outs: seq<Outcome>)
    requires Shape(cfg, s) && Matched(s) && s.unpublished == [] && k < MAX_INFLIGHT && Taken(s, k, c, isWrite)
    ensures var (end, s') := FinishChunk(cfg, s, k, script);
      ChunkAdds(s, c, isWrite, end, s', outs) && |outs| == if end == TimedOut then 0 else 1
  {
    hide *;
    SuppressKeeps(cfg, s, k, c, isWrite);
    var t := Suppressed(s, k);
    AwaitDoneReports(cfg, t, k, script);
    FinishChunkIs(cfg, s, k, script);
    var (done, s1) := AwaitDone(cfg, t, k, script);
    outs := [];
    if done {
      outs := [Results(s1.outcomes, c.id)[|Results(s.outcomes, c.id)|]];
      FreedAbsent(t.slots, s1.slots, k);
      DoneAdds(s, c, isWrite, s1, t.slots[k]);
    } else {
      TimeoutAdds(s, c, isWrite, s1, k);
    }
  }

  lemma FinishChunkIs(cfg: Config, s: Sys, k: nat, script: seq<Turn>)
    requires Shape(cfg, s) && k < MAX_INFLIGHT && s.slots[k].Busy?
    ensures var t := Suppressed(s, k);
      Shape(cfg, t) && t.outcomes == s.outcomes && t.unpublished == s.unpublished && t.slots[k].Busy? && t.slots[k].req == s.slots[k].req
    ensures var (done, s1) := AwaitDone(cfg, Suppressed(s, k), k, script);
      var results := Results(s1.outcomes, s.slots[k].req.id);
      && |s1.slots| == MAX_INFLIGHT && (!done ==> s1.slots[k].Busy?)
      && FinishChunk(cfg, s, k, script)
      == if !done then (TimedOut, GiveUp(s1, k))
         else (if results != [] && results[|results| - 1].ok then ChunkDone else ChunkStop(BadStatus), s1)
  {
    hide AwaitDone, Described, Layout;
  }

  lemma DoneAdds(s: Sys, c: Request, isWrite: bool, s1: Sys, b: Slot)
    requires b.Busy? && b.suppress && b.req == c && b.isWrite == isWrite && !b.path.NoData?
    requires Matched(s1) && Absent(s1.slots, c.id)
    requires var before, after := Results(s.outcomes, c.id), Results(s1.outcomes, c.id);
      |after| == |before| + 1 && after[..|before|] == before && ReportsOn(b, after[|before|])
    ensures var before, after := Results(s.outcomes, c.id), Results(s1.outcomes, c.id);
      var o := after[|before|];
      ChunkAdds(s, c, isWrite, if o.ok then ChunkDone else ChunkStop(BadStatus), s1, [o])
  {
    hide Matched, Absent, Results;
    var before, after := Results(s.outcomes, c.id), Results(s1.outcomes, c.id);
    assert after == after[..|before|] + [after[|before|]];
  }

  lemma TimeoutAdds(s: Sys, c: Request, isWrite: bool, s1: Sys, k: nat)
    requires k < |s1.slots| && s1.slots[k].Busy? && Results(s1.outcomes, c.id) == Results(s.outcomes, c.id)
    ensures ChunkAdds(s, c, isWrite, TimedOut, GiveUp(s1, k), [])
  {
    hide Results;
    assert Results(s.outcomes, c.id) + [] == Results(s.outcomes, c.id);
  }

  lemma SuppressKeeps(cfg: Config, s: Sys, k: nat, c: Request, isWrite: bool)
    requires Shape(cfg, s) && Matched(s) && Taken(s, k, c, isWrite)
    ensures k < |s.slots| == MAX_INFLIGHT && s.slots[k].Busy? && s.slots[k].req == c
    ensures var t := Suppressed(s, k);
      && Shape(cfg, t) && Matched(t) && OnlySlot(t.slots, k) && k < |t.slots|
      && t.unpublished == s.unpublished && t.outcomes == s.outcomes
      && var b := t.slots[k];
      b.Busy? && b.suppress && b.req == c && b.isWrite == isWrite && !b.path.NoData?
  {
    OccupiedReplace(s.slots, k, Suppressed(s, k).slots[k]);
    hide Occupied, Described;
  }

  lemma FreedAbsent(slots: seq<Slot>, slots': seq<Slot>, k: nat)
    requires OnlySlot(slots, k) && OnlyFreed(slots, slots') && slots'[k].Free?
    ensures Absent(slots', slots[k].req.id)
  {
  }

  lemma OneChunkAdds(cfg: Config, s: Sys, c: Request, isWrite: bool, env: ChunkEnv) returns (outs: seq<Outcome>)
    requires Shape(cfg, s) && Described(cfg, c) && Matched(s) && Absent(s.slots, c.id)
    ensures var (end, s') := OneChunk(cfg, s, c, isWrite, env); ChunkAdds(s, c, isWrite, end, s', outs)
    ensures SubmitPatiently(cfg, s, c, isWrite, env).0 != Submitted ==> outs == []
    ensures SubmitPatiently(cfg, s, c, isWrite, env).0 == Submitted ==> |outs| == if OneChunk(cfg, s, c, isWrite, env).0 == TimedOut then 0 else 1
  {
    hide Matched, Shape, Described, SubmitPatiently, FinishChunk, FindRequest, Absent;
    var (rc, s1) := SubmitPatiently(cfg, s, c, isWrite, env);
    var k := SubmitPatientlyTakes(cfg, s, c, isWrite, env);
    outs := [];
    if rc == Submitted {
      outs := FinishChunkAdds(cfg, s1, k, c, isWrite, env.doneScript);
    }
  }

  /** What the chunk loop adds: the results of a prefix of the chunks, all but possibly the last one
    * successful; all of them if and only if the loop succeeds. */
  ghost predicate LoopAdds(cs: seq<Request>, isWrite: bool, end: ChunkEnd, outs: seq<Outcome>) {
    && |outs| <= |cs|
    && (forall i :: 0 <= i < |outs| ==> ChunkResult(outs[i], cs[i], isWrite))
    && (forall i :: 0 <= i < |outs| - 1 ==> outs[i].ok)
    && (end == ChunkDone <==> |outs| == |cs| && (outs != [] ==> outs[|outs| - 1].ok))
  }

  /** How many bytes a run of successful chunks has moved. */
  function Moved(outs: seq<Outcome>): nat {
    if outs == [] then 0 else outs[0].actual + Moved(outs[1..])
  }

  lemma LoopAddsMore(cs: seq<Request>, isWrite: bool, end: ChunkEnd, outs: seq<Outcome>, c: Request, o: Outcome)
    requires LoopAdds(cs, isWrite, end, outs) && ChunkResult(o, c, isWrite) && o.ok
    ensures LoopAdds([c] + cs, isWrite, end, [o] + outs) && Moved([o] + outs) == c.length + Moved(outs)
  {
    var outs' := [o] + outs;
    assert outs'[1..] == outs;
    if outs != [] { assert outs'[|outs'| - 1] == outs[|outs| - 1]; }
  }

  /** What the loop from byte `done` on amounts to. */
  ghost predicate LoopResult(s: Sys, r: Request, cs: seq<Request>, isWrite: bool, done: nat,
                             end: ChunkEnd, at: nat, s': Sys, outs: seq<Outcome>) {
    && Results(s'.outcomes, r.id) == Results(s.outcomes, r.id) + outs
    && LoopAdds(cs, isWrite, end, outs) && at == done + Moved(outs)
    && (end != TimedOut ==> Matched(s') && Absent(s'.slots, r.id))
  }

  lemma Associative(a: seq<Outcome>, b: seq<Outcome>, c: seq<Outcome>)
    ensures a + b + c == a + (b + c)
  {
  }

  lemma LoopGoesOn(s: Sys, s1: Sys, r: Request, c: Request, cs: seq<Request>, isWrite: bool, done: nat,
                   end: ChunkEnd, at: nat, s': Sys, first: seq<Outcome>, rest: seq<Outcome>)
    requires c.id == r.id && ChunkAdds(s, c, isWrite, ChunkDone, s1, first)
    requires LoopResult(s1, r, cs, isWrite, done + c.length, end, at, s', rest)
    ensures LoopResult(s, r, [c] + cs, isWrite, done, end, at, s', first + rest)
  {
    assert first[0] in first && first == [first[0]];
    LoopAddsMore(cs, isWrite, end, rest, c, first[0]);
    hide Matched, Absent, Results, LoopAdds, ChunkResult, Moved;
    Associative(Results(s.outcomes, r.id), first, rest);
  }

  lemma LoopStops(s: Sys, r: Request, c: Request, cs: seq<Request>, isWrite: bool, done: nat, end: ChunkEnd, s': Sys, outs: seq<Outcome>)
    requires c.id == r.id && ChunkAdds(s, c, isWrite, end, s', outs) && end != ChunkDone
    ensures LoopResult(s, r, [c] + cs, isWrite, done, end, done, s', outs)
  {
    hide Matched, Absent, Results;
    if outs != [] {
      assert outs[0] in outs && outs[1..] == [];
      assert !outs[0].ok && outs[0].actual == 0;
      assert Moved(outs) == 0 + Moved([]);
    }
    assert Moved(outs) == 0;
    assert |([c] + cs)| == 1 + |cs| && ([c] + cs)[0] == c;
  }

  lemma LoopEnds(s: Sys, r: Request, isWrite: bool, done: nat)
    requires Matched(s) && Absent(s.slots, r.id)
    ensures LoopResult(s, r, [], isWrite, done, ChunkDone, done, s, [])
  {
    hide Matched, Absent, Results;
    assert Results(s.outcomes, r.id) + [] == Results(s.outcomes, r.id);
  }

  /** Over the whole loop: exactly a prefix of the chunks completes, in order, each reported once and
    * none replied; the loop ends with the byte up to which everything has been moved; and on every
    * exit but a timeout no command of this request is left behind. */
  lemma {:induction false} ChunkLoopAdds(cfg: Config, s: Sys, r: Request, isWrite: bool, cap: nat, done: nat,
                                         envs: nat -> ChunkEnv, sgOf: SgOf) returns (outs: seq<Outcome>)
    requires Shape(cfg, s) && done <= r.length == |r.payload| && Consistent(cfg.ps, r, sgOf) && cap > 0
    requires Matched(s) && Absent(s.slots, r.id)
    ensures var (end, at, s') := ChunkLoop(cfg, s, r, isWrite, cap, done, envs, sgOf);
      LoopResult(s, r, ChunkList(r, done, cap, sgOf), isWrite, done, end, at, s', outs)
    decreases r.length - done
  {
    hide Matched, Shape, Described, OneChunk, Absent, Consistent, LoopResult, Chunk, ChunkAdds;
    outs := [];
    if done == r.length {
      LoopEnds(s, r, isWrite, done);
    } else {
      ShapeSize(cfg, s);
      ChunkDescribed(cfg, r, done, cap, sgOf);
      var c := Chunk(r, done, cap, sgOf);
      var cs := ChunkList(r, done + c.length, cap, sgOf);
      var (end, s1) := OneChunk(cfg, s, c, isWrite, envs(done));
      outs := OneChunkAdds(cfg, s, c, isWrite, envs(done));
      if end == ChunkDone {
        DoneChunkKeeps(s, c, isWrite, s1, outs);
        var rest := ChunkLoopAdds(cfg, s1, r, isWrite, cap, done + c.length, envs, sgOf);
        var (end', at, s') := ChunkLoop(cfg, s1, r, isWrite, cap, done + c.length, envs, sgOf);
        LoopGoesOn(s, s1, r, c, cs, isWrite, done, end', at, s', outs, rest);
        outs := outs + rest;
      } else {
        LoopStops(s, r, c, cs, isWrite, done, end, s1, outs);
      }
    }
  }

  /** A chunked transfer is answered without an error if and only if every chunk has been done; any other end
    * of the loop leaves an error. */
  lemma {:induction false} NoErrorMeansDone(cfg: Config, s: Sys, r: Request, isWrite: bool, cap: nat, done: nat,
                                            envs: nat -> ChunkEnv, sgOf: SgOf)
    requires Shape(cfg, s) && done <= r.length && Consistent(cfg.ps, r, sgOf) && cap > 0
    ensures var (end, at, s') := ChunkLoop(cfg, s, r, isWrite, cap, done, envs, sgOf);
      (EndError(end) == NoError <==> end == ChunkDone) && (end == ChunkDone ==> at == r.length)
    decreases r.length - done
  {
    hide Shape, OneChunk, Chunk, Consistent, ChunkLoop, Described;
    if done == r.length {
      LoopOver(cfg, s, r, isWrite, cap, envs, sgOf);
    } else {
      LoopUnfolds(cfg, s, r, isWrite, cap, done, envs, sgOf);
      ChunkMoves(r, cap, done, sgOf);
      var c := Chunk(r, done, cap, sgOf);
      OneChunkError(cfg, s, c, isWrite, envs(done));
      var (end, s1) := OneChunk(cfg, s, c, isWrite, envs(done));
      if end == ChunkDone { NoErrorMeansDone(cfg, s1, r, isWrite, cap, done + c.length, envs, sgOf); }
    }
  }

  lemma ChunkMoves(r: Request, cap: nat, done: nat, sgOf: SgOf)
    requires done < r.length == |r.payload| && cap > 0
    ensures var c := Chunk(r, done, cap, sgOf); 0 < c.length && done + c.length <= r.length
  {
  }

  lemma OneChunkError(cfg: Config, s: Sys, c: Request, isWrite: bool, env: ChunkEnv)
    requires Shape(cfg, s) && Described(cfg, c) && c.length > 0
    ensures OneChunk(cfg, s, c, isWrite, env).0 != ChunkStop(NoError)
  {
    hide Shape, Described, SubmitNoRing, AwaitSlot, AwaitDone, FindRequest, FindFree;
    RefusedError(cfg, s, c, isWrite, env.dma);
    var (rc, s1) := SubmitNoRing(cfg, s, c, isWrite, env.dma);
    if rc == NoSlot {
      ShapeSize(cfg, s1);
      RefusedError(cfg, AwaitSlot(cfg, RingSQ(s1), env.slotScript).1, c, isWrite, env.retry);
    }
  }

  lemma RefusedError(cfg: Config, s: Sys, c: Request, isWrite: bool, env: DmaEnv)
    requires Shape(cfg, s) && Described(cfg, c) && c.length > 0
    ensures SubmitNoRing(cfg, s, c, isWrite, env).0 != Submitted ==> ErrorOf(SubmitNoRing(cfg, s, c, isWrite, env).0) != NoError
  {
    RefusalsExact(cfg, s, c, isWrite, env);
    hide SubmitNoRing, Shape, Described, FindFree;
  }

  lemma DoneChunkKeeps(s: Sys, c: Request, isWrite: bool, s1: Sys, outs: seq<Outcome>)
    requires ChunkAdds(s, c, isWrite, ChunkDone, s1, outs)
    ensures Matched(s1) && Absent(s1.slots, c.id)
  {
  }

  // ----- The fast path -------------------------------------------------------------------

  /** A transfer within the cap: submitted without a doorbell, after a wait if the pipeline is full. */
  function FastPath(cfg: Config, s: Sys, r: Request, isWrite: bool, env: ChunkEnv): (o: (Rc, Sys))
    requires Shape(cfg, s) && Described(cfg, r)
    ensures Shape(cfg, o.1)
  {
    var (rc, s1) := SubmitNoRing(cfg, s, r, isWrite, env.dma);
    if rc != NoSlot then (rc, s1)
    else
      var (freed, s2) := AwaitSlot(cfg, RingSQ(s1), env.slotScript);
      if freed then SubmitNoRing(cfg, s2, r, isWrite, env.retry) else (NoSlot, s2)
  }

  /** A request within the cap is turned away as UNITBUSY exactly if all slots are taken and none is
    * freed in time; with a device that never sits on work for `n` polls, 33 n + 2 of them within
    * the script, it never is. */
  lemma FastPathBusy(cfg: Config, s: Sys, r: Request, isWrite: bool, env: ChunkEnv, n: nat)
    requires Shape(cfg, s) && Described(cfg, r) && Matched(s)
    ensures FastPath(cfg, s, r, isWrite, env).0 == NoSlot
      <==> FindFree(s.slots).None? && !AwaitSlot(cfg, RingSQ(s), env.slotScript).0
    ensures n > 0 && Lively(cfg, RingSQ(s), env.slotScript, n, 0) && |env.slotScript| >= 33 * n + 2
      ==> FastPath(cfg, s, r, isWrite, env).0 != NoSlot
    ensures 0 < n <= 151_515 && |env.slotScript| == POLL_BUDGET && Lively(cfg, RingSQ(s), env.slotScript, n, 0)
      ==> FastPath(cfg, s, r, isWrite, env).0 != NoSlot
  {
    NoSlotMeans(cfg, s, r, isWrite, env.dma);
    ShapeSize(cfg, s);
    PublishMatched(s);
    var (freed, s2) := AwaitSlot(cfg, RingSQ(s), env.slotScript);
    if freed { NoSlotMeans(cfg, s2, r, isWrite, env.retry); }
    if n > 0 && Lively(cfg, RingSQ(s), env.slotScript, n, 0) && |env.slotScript| >= 33 * n + 2 {
      hide SubmitNoRing, Matched, Described;
      BackPressureProgress(cfg, RingSQ(s), env.slotScript, n);
    }
    hide SubmitNoRing, AwaitSlot, Matched, Described, Shape, Lively, FindFree;
  }

  lemma NoSlotMeans(cfg: Config, s: Sys, r: Request, isWrite: bool, env: DmaEnv)
    requires Shape(cfg, s) && Described(cfg, r)
    ensures SubmitNoRing(cfg, s, r, isWrite, env).0 == NoSlot <==> FindFree(s.slots).None?
    ensures SubmitNoRing(cfg, s, r, isWrite, env).0 == NoSlot ==> SubmitNoRing(cfg, s, r, isWrite, env).1 == s
  {
    ValidateExact(Offset(r), r.length, r.data != 0, cfg.bs);
    hide Direct, Bounce, BounceIn, Described, Layout, Encode;
  }

  /** A cap of zero, which `(1 << mdts) * page_size` becomes when it wraps, makes every aligned
    * transfer "succeed" without moving a byte: the chunk loop stops at once, with no error. */
  lemma ZeroCapMovesNothing(cfg: Config, s: Sys, r: Request, isWrite: bool, envs: nat -> ChunkEnv, sgOf: SgOf)
    requires Shape(cfg, s) && Consistent(cfg.ps, r, sgOf) && r.length > 0
    requires FindFree(s.slots).Some? && Offset(r) % cfg.bs == 0 && Offset(r) < OffsetLimit(r.command)
    ensures ChunkLoop(cfg, s, r, isWrite, 0, 0, envs, sgOf) == (ChunkStop(NoError), 0, s)
  {
    ChunkDescribed(cfg, r, 0, 0, sgOf);
    ChunkLandsIff(r, 0, 0, sgOf);
    var c := Chunk(r, 0, 0, sgOf);
    ValidateExact(Offset(c), 0, c.data != 0, cfg.bs);
    assert Validate(Offset(c), 0, c.data != 0, cfg.bs) == Nothing;
    hide Consistent, Chunk, Described, Validate, SubmitBounced, SubmitMapped, Layout;
    assert SubmitNoRing(cfg, s, c, isWrite, envs(0).dma) == (NothingToDo, s);
    hide SubmitNoRing;
    assert OneChunk(cfg, s, c, isWrite, envs(0)) == (ChunkStop(NoError), s);
  }

  // ----- SubmitAndWait -------------------------------------------------------------------

  datatype WaitEnd = Completed(ok: bool) | NoFreeSlot | NoAnswer

  /** NVMeIO_SubmitAndWait: take a slot, waiting for one if need be, ring, and wait for the answer. */
  function SubmitAndWait(cfg: Config, s: Sys, r: Request, sqe: Sqe, slotScript: seq<Turn>, doneScript: seq<Turn>): (o: (WaitEnd, Sys))
    requires Shape(cfg, s) && Dataless(sqe)
    ensures Shape(cfg, o.1)
  {
    var (got, s1) := SlotForWait(cfg, s, slotScript);
    if !got then (NoFreeSlot, s1)
    else Answer(cfg, RingSQ(SubmitControl(s1, r, sqe, true).1), FindFree(s1.slots).value, doneScript)
  }

  /** A free slot, after a wait if there is none. */
  function SlotForWait(cfg: Config, s: Sys, script: seq<Turn>): (o: (bool, Sys))
    requires Shape(cfg, s)
    ensures Shape(cfg, o.1) && (o.0 ==> FindFree(o.1.slots).Some?)
  {
    if FindFree(s.slots).Some? then (true, s) else AwaitSlotLate(cfg, RingSQ(s), script)
  }

  function Answer(cfg: Config, s: Sys, k: nat, script: seq<Turn>): (o: (WaitEnd, Sys))
    requires Shape(cfg, s) && k < MAX_INFLIGHT && s.slots[k].Busy?
    ensures Shape(cfg, o.1)
  {
    var (done, s1) := AwaitDone(cfg, s, k, script);
    if !done then (NoAnswer, GiveUp(s1, k))
    else
      var results := Results(s1.outcomes, s.slots[k].req.id);
      (Completed(results != [] && results[|results| - 1].ok), s1)
  }

  /** The status SubmitAndWait returns is that of the caller's own command: exactly one result has
    * been added for it, unreplied, and its success is what is reported; without an answer none has. */
  lemma SubmitAndWaitReports(cfg: Config, s: Sys, r: Request, sqe: Sqe, slotScript: seq<Turn>, doneScript: seq<Turn>)
      returns (outs: seq<Outcome>)
    requires Shape(cfg, s) && Dataless(sqe) && Matched(s) && Absent(s.slots, r.id)
    ensures var (end, s') := SubmitAndWait(cfg, s, r, sqe, slotScript, doneScript);
      && Results(s'.outcomes, r.id) == Results(s.outcomes, r.id) + outs
      && (end.Completed? ==> |outs| == 1 && outs[0].req == r && outs[0].ok == end.ok && !outs[0].replied)
      && (!end.Completed? ==> outs == [])
      && (end != NoAnswer ==> Matched(s') && Absent(s'.slots, r.id))
      && (end.Completed? ==> s'.unpublished == [])
  {
    hide *;
    var s1 := SlotForWait(cfg, s, slotScript);
    SlotForWaitKeeps(cfg, s, slotScript, r.id);
    WaitUnfolds(cfg, s, r, sqe, slotScript, doneScript);
    outs := [];
    if s1.0 {
      var k := FindFree(s1.1.slots).value;
      var t := RingSQ(SubmitControl(s1.1, r, sqe, true).1);
      ControlTakes(cfg, s1.1, r, sqe);
      AwaitDoneReports(cfg, t, k, doneScript);
      var (done, s2) := AwaitDone(cfg, t, k, doneScript);
      AnswerIs(cfg, t, k, doneScript);
      if done {
        FreedAbsent(t.slots, s2.slots, k);
        outs := [Results(s2.outcomes, r.id)[|Results(s.outcomes, r.id)|]];
        OneMore(t.slots[k], Results(s.outcomes, r.id), Results(s2.outcomes, r.id));
      }
    }
  }

  /** Slot `k` works on `sqe`, the newest of the published commands, for a caller who will answer `r` itself. */
  predicate WorksOn(cfg: Config, t: Sys, k: nat, r: Request, sqe: Sqe) {
    && Shape(cfg, t) && k < MAX_INFLIGHT && t.slots[k] == Busy(r, false, NoData, true)
    && t.unpublished == [] && t.published != [] && Carries(t.published[|t.published| - 1], sqe, k)
  }

  /** The command SubmitAndWait waits for is the caller's own: it is the newest of the published ones, word for
    * word but for the id, which is that of the slot waited for. */
  lemma SubmitAndWaitPublishes(cfg: Config, s: Sys, r: Request, sqe: Sqe, slotScript: seq<Turn>, doneScript: seq<Turn>)
      returns (t: Sys, k: nat)
    requires Shape(cfg, s) && Dataless(sqe)
    ensures var out := SubmitAndWait(cfg, s, r, sqe, slotScript, doneScript);
      out.0 != NoFreeSlot ==> WorksOn(cfg, t, k, r, sqe) && out == Answer(cfg, t, k, doneScript)
  {
    WaitUnfolds(cfg, s, r, sqe, slotScript, doneScript);
    var s1 := SlotForWait(cfg, s, slotScript);
    t, k := s, 0;
    if s1.0 {
      ControlCarries(s1.1, r, sqe, true);
      t, k := RingSQ(SubmitControl(s1.1, r, sqe, true).1), FindFree(s1.1.slots).value;
    }
    hide SubmitAndWait, SlotForWait, Answer, Shape, FindFree;
  }

  lemma SlotForWaitKeeps(cfg: Config, s: Sys, script: seq<Turn>, id: nat)
    requires Shape(cfg, s) && Matched(s) && Absent(s.slots, id)
    ensures var s' := SlotForWait(cfg, s, script).1;
      Matched(s') && Absent(s'.slots, id) && Results(s'.outcomes, id) == Results(s.outcomes, id)
  {
    PublishMatched(s);
    ShapeSize(cfg, s);
    hide Matched, Shape, FindFree, AwaitSlotLate, Results;
    if FindFree(s.slots).None? { AwaitSlotLateAbsent(cfg, RingSQ(s), script, id); }
  }

  lemma {:induction false} AwaitSlotLateAbsent(cfg: Config, s: Sys, script: seq<Turn>, id: nat)
    requires Shape(cfg, s) && Matched(s) && Absent(s.slots, id)
    ensures var s' := AwaitSlotLate(cfg, s, script).1;
      Matched(s') && Absent(s'.slots, id) && Results(s'.outcomes, id) == Results(s.outcomes, id)
    decreases |script|
  {
    hide Matched, Shape, FindFree, Results, Absent;
    if script != [] {
      var s1 := Harvest(cfg, s);
      HarvestAbsent(cfg, s, id);
      HarvestAllMatched(cfg, s);
      if FindFree(s1.slots).None? {
        ElapseMatched(cfg, s1, script[0]);
        ElapseOutcomes(cfg, s1, script[0]);
        AwaitSlotLateAbsent(cfg, Elapse(cfg, s1, script[0]), script[1..], id);
      }
    }
  }

  lemma WaitUnfolds(cfg: Config, s: Sys, r: Request, sqe: Sqe, slotScript: seq<Turn>, doneScript: seq<Turn>)
    requires Shape(cfg, s) && Dataless(sqe)
    ensures var out, (got, s1) := SubmitAndWait(cfg, s, r, sqe, slotScript, doneScript), SlotForWait(cfg, s, slotScript);
      && (!got ==> out == (NoFreeSlot, s1))
      && (got ==>
            var k, t := FindFree(s1.slots).value, RingSQ(SubmitControl(s1, r, sqe, true).1);
            && Shape(cfg, t) && k < MAX_INFLIGHT && k < |t.slots| && t.slots[k].Busy? && t.slots[k].req == r && t.slots[k].suppress
            && out == Answer(cfg, t, k, doneScript))
  {
    hide AwaitSlotLate, Answer, Described;
  }

  lemma ControlTakes(cfg: Config, s: Sys, r: Request, sqe: Sqe)
    requires Shape(cfg, s) && Matched(s) && Absent(s.slots, r.id) && Dataless(sqe) && FindFree(s.slots).Some?
    ensures var k, t := FindFree(s.slots).value, RingSQ(SubmitControl(s, r, sqe, true).1);
      && Shape(cfg, t) && Matched(t) && OnlySlot(t.slots, k) && t.unpublished == [] && t.outcomes == s.outcomes
  {
    hide Matched, Described, FindFree, OnlySlot, Absent;
    var k, s1 := FindFree(s.slots).value, SubmitControl(s, r, sqe, true).1;
    ControlMatched(s, r, sqe, true);
    PublishMatched(s1);
    TakeOnly(s.slots, k, Busy(r, false, NoData, true));
  }

  lemma TakeOnly(slots: seq<Slot>, k: nat, b: Slot)
    requires b.Busy? && Absent(slots, b.req.id) && k < |slots|
    ensures OnlySlot(slots[k := b], k)
  {
  }

  lemma AnswerIs(cfg: Config, s: Sys, k: nat, script: seq<Turn>)
    requires Shape(cfg, s) && k < MAX_INFLIGHT && s.slots[k].Busy?
    ensures var (done, s1) := AwaitDone(cfg, s, k, script);
      var results := Results(s1.outcomes, s.slots[k].req.id);
      && |s1.slots| == MAX_INFLIGHT && (!done ==> s1.slots[k].Busy? && GiveUp(s1, k).outcomes == s1.outcomes)
      && Answer(cfg, s, k, script)
      == if !done then (NoAnswer, GiveUp(s1, k)) else (Completed(results != [] && results[|results| - 1].ok), s1)
  {
    hide AwaitDone, Described, Layout;
  }

  lemma OneMore(b: Slot, before: seq<Outcome>, after: seq<Outcome>)
    requires b.Busy? && |after| == |before| + 1 && after[..|before|] == before && ReportsOn(b, after[|before|])
    ensures after == before + [after[|before|]] && after[|before|].req == b.req && after[|before|].replied == !b.suppress
  {
    assert after == after[..|before|] + [after[|before|]];
  }
}
