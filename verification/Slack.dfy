/** How much room the rings have left, timeouts included.
  *
  * A command that was given up on is still somewhere in the rings although its slot is free.  The
  * load of a unit is what the rings would hold if every slot were taken: sixteen, plus one for each
  * command lost in this way and not answered since.  Below the queue depth nothing overflows. */
module Slack {
  import opened Base
  import opened Memory
  import opened Prp
  import opened Commands
  import opened Pipeline
  import opened Matching
  import opened Waiting

  function IsFree(b: Slot): nat {
    if b.Free? then 1 else 0
  }

  function FreeSlots(slots: seq<Slot>): nat {
    if slots == [] then 0 else FreeSlots(slots[..|slots| - 1]) + IsFree(slots[|slots| - 1])
  }

  function Load(s: Sys): nat {
    Count(s) + FreeSlots(s.slots)
  }

  lemma {:induction false} FreeUpdate(slots: seq<Slot>, k: nat, b: Slot)
    requires k < |slots|
    ensures FreeSlots(slots[k := b]) + IsFree(slots[k]) == FreeSlots(slots) + IsFree(b)
  {
    var n := |slots| - 1;
    if k < n {
      FreeUpdate(slots[..n], k, b);
      assert slots[k := b][..n] == slots[..n][k := b];
    } else {
      assert slots[k := b][..n] == slots[..n];
    }
  }

  lemma {:induction false} FreeAndOccupied(slots: seq<Slot>)
    ensures |Occupied(slots)| + FreeSlots(slots) == |slots|
  {
    if slots != [] { FreeAndOccupied(slots[..|slots| - 1]); }
  }

  /** As long as nothing has been lost the load is sixteen. */
  lemma MatchedLoad(s: Sys)
    requires Matched(s)
    ensures Load(s) == |s.slots|
  {
    FreeAndOccupied(s.slots);
    assert |Outstanding(s)| == Count(s);
  }

  /** Below the depth, a free slot means room in the SQ, and a finished command room in the CQ. */
  lemma LoadLeavesRoom(s: Sys, depth: nat)
    requires Load(s) < depth
    ensures FindFree(s.slots).Some? ==> |s.unpublished| + |s.published| < depth - 1
    ensures s.done != [] ==> |s.posted| < depth - 1
  {
    hide FindFree;
    var f := FindFree(s.slots);
    if f.Some? { FreeUpdate(s.slots, f.value, Busy(Request(0, CMD_FLUSH, 0, 0, 0, 0, [], []), false, NoData, false)); }
  }

  // ----- What each operation does to the load --------------------------------------------

  lemma RingLoad(s: Sys)
    ensures Load(RingSQ(s)) == Load(s)
  {
  }

  lemma SubmitLoad(cfg: Config, s: Sys, r: Request, w: bool, env: DmaEnv)
    requires Shape(cfg, s) && Described(cfg, r)
    ensures Load(SubmitNoRing(cfg, s, r, w, env).1) == Load(s)
  {
    SubmitPlaces(cfg, s, r, w, env);
    hide SubmitNoRing, Shape, Described, FindFree;
    var (rc, s') := SubmitNoRing(cfg, s, r, w, env);
    if rc == Submitted {
      var k := FindFree(s.slots).value;
      FreeUpdate(s.slots, k, s'.slots[k]);
    }
  }

  lemma ControlLoad(s: Sys, r: Request, sqe: Sqe, sup: bool)
    requires Dataless(sqe)
    ensures Load(SubmitControl(s, r, sqe, sup).1) == Load(s)
  {
    hide FindFree;
    var f := FindFree(s.slots);
    if f.Some? { FreeUpdate(s.slots, f.value, Busy(r, false, NoData, sup)); }
  }

  lemma SuppressLoad(s: Sys, k: nat)
    requires k < |s.slots| && s.slots[k].Busy?
    ensures Load(Suppressed(s, k)) == Load(s)
  {
    FreeUpdate(s.slots, k, s.slots[k].(suppress := true));
  }

  /** Giving up on a command costs one. */
  lemma GiveUpLoad(s: Sys, k: nat)
    requires k < |s.slots| && s.slots[k].Busy?
    ensures Load(GiveUp(s, k)) == Load(s) + 1
  {
    FreeUpdate(s.slots, k, Free);
  }

  /** A harvest never adds to it, and a late completion without a slot takes one off. */
  lemma HarvestOneLoad(cfg: Config, s: Sys)
    requires Shape(cfg, s) && s.posted != []
    ensures var k := s.posted[0].cid - 1;
      Load(HarvestOne(cfg, s)) == Load(s) - if 0 <= k < MAX_INFLIGHT && s.slots[k].Busy? then 0 else 1
  {
    var k := s.posted[0].cid - 1;
    if 0 <= k < MAX_INFLIGHT && s.slots[k].Busy? {
      FreeUpdate(s.slots, k, Free);
    }
    hide BounceOut, Described, Layout, FreeSlots;
  }

  lemma {:induction false} HarvestLoad(cfg: Config, s: Sys)
    requires Shape(cfg, s)
    ensures Load(Harvest(cfg, s)) <= Load(s)
    decreases |s.posted|
  {
    hide Shape, HarvestOne, Load;
    if s.posted != [] {
      HarvestOneLoad(cfg, s);
      HarvestLoad(cfg, HarvestOne(cfg, s));
    }
  }

  lemma HappenLoad(cfg: Config, s: Sys, st: Step)
    requires Shape(cfg, s)
    ensures Load(Happen(cfg, s, st)) == Load(s)
  {
    hide Happen, Shape;
    HappenWorks(cfg, s, st);
  }

  /** How many of a run's steps gave a command up. */
  function Losses(steps: seq<Step>): nat {
    if steps == [] then 0 else (if steps[0].Timeout? then 1 else 0) + Losses(steps[1..])
  }

  lemma StepLoad(cfg: Config, s: Sys, st: Step)
    requires Shape(cfg, s) && Enabled(cfg, s, st)
    ensures Load(Next(cfg, s, st)) <= Load(s) + if st.Timeout? then 1 else 0
  {
    hide Shape, SubmitNoRing, SubmitControl, HarvestOne, ClientBuffer, Load;
    match st
    case DoSubmit(r, w, env) => EnabledDescribed(cfg, s, st); SubmitLoad(cfg, s, r, w, env);
    case Control(r, sqe, sup) => ControlLoad(s, r, sqe, sup);
    case Suppress(k) => SlotsKept(cfg, s); SuppressLoad(s, k);
    case Publish => RingLoad(s);
    case DoHarvest => HarvestOneLoad(cfg, s);
    case Timeout(k) => SlotsKept(cfg, s); GiveUpLoad(s, k);
    case _ => HappenLoad(cfg, s, st);
  }

  lemma EnabledDescribed(cfg: Config, s: Sys, st: Step)
    requires Shape(cfg, s) && Enabled(cfg, s, st) && st.DoSubmit?
    ensures Described(cfg, st.req)
  {
  }

  lemma SlotsKept(cfg: Config, s: Sys)
    requires Shape(cfg, s)
    ensures |s.slots| == MAX_INFLIGHT
  {
  }

  lemma {:induction false} RunLoad(cfg: Config, s0: Sys, steps: seq<Step>, s: Sys)
    requires Shape(cfg, s0) && Run(cfg, s0, steps, s, true)
    ensures Load(s) <= Load(s0) + Losses(steps)
    decreases |steps|
  {
    hide Shape, Enabled, Next, Load;
    if steps != [] {
      StepLoad(cfg, s0, steps[0]);
      RunLoad(cfg, Next(cfg, s0, steps[0]), steps[1..], s);
    }
  }

  /** The rings survive timeouts: in every run in which fewer than depth - 16 commands are given up on,
    * a free slot means room in the SQ, and every finished command finds room in the CQ. */
  lemma RingsSurviveTimeouts(cfg: Config, mem: Mem, disk: Mem, steps: seq<Step>, s: Sys, depth: nat)
    requires Layout(cfg) && Run(cfg, Init(mem, disk), steps, s, true) && MAX_INFLIGHT + Losses(steps) < depth
    ensures FindFree(s.slots).Some? ==> |s.unpublished| + |s.published| < depth - 1
    ensures s.done != [] ==> |s.posted| < depth - 1
  {
    InitMatched(mem, disk);
    MatchedLoad(Init(mem, disk));
    RunLoad(cfg, Init(mem, disk), steps, s);
    LoadLeavesRoom(s, depth);
  }
}
