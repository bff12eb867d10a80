/** The bounded wait loops: back-pressure in wait_for_free_slot and SubmitAndWait, and the wait for
  * one slot's completion.
  *
  * Between two polls the unit task yields; a turn is what everybody else does meanwhile.  A wait
  * is given one turn per poll. */
module Waiting {
  import opened Base
  import opened Memory
  import opened Modular
  import opened Prp
  import opened Commands
  import opened Pipeline
  import opened Matching

  /** Steps that are not the unit task's. */
  predicate Outside(st: Step) {
    st.DoFetch? || st.DoExecute? || st.DoPost? || st.ClientStore?
  }

  type Turn = seq<Step>

  /** One outside step, if it is possible at all. */
  function Happen(cfg: Config, s: Sys, st: Step): (s': Sys)
    requires Shape(cfg, s)
    ensures Shape(cfg, s') && s'.slots == s.slots && s'.unpublished == s.unpublished
  {
    if Outside(st) && Enabled(cfg, s, st) then Next(cfg, s, st) else s
  }

  function Elapse(cfg: Config, s: Sys, turn: Turn): (s': Sys)
    requires Shape(cfg, s)
    ensures Shape(cfg, s') && s'.slots == s.slots && s'.unpublished == s.unpublished
    decreases |turn|
  {
    if turn == [] then s else Elapse(cfg, Happen(cfg, s, turn[0]), turn[1..])
  }

  /** wait_for_free_slot, after its doorbell write: test, harvest, yield. */
  function AwaitSlot(cfg: Config, s: Sys, script: seq<Turn>): (r: (bool, Sys))
    requires Shape(cfg, s)
    ensures Shape(cfg, r.1) && (r.0 ==> FindFree(r.1.slots).Some?)
    decreases |script|
  {
    if script == [] then (false, s)
    else if FindFree(s.slots).Some? then (true, s)
    else AwaitSlot(cfg, Elapse(cfg, Harvest(cfg, s), script[0]), script[1..])
  }

  /** The wait for a slot in SubmitAndWait, likewise: harvest, test, yield. */
  function AwaitSlotLate(cfg: Config, s: Sys, script: seq<Turn>): (r: (bool, Sys))
    requires Shape(cfg, s)
    ensures Shape(cfg, r.1) && (r.0 ==> FindFree(r.1.slots).Some?)
    decreases |script|
  {
    if script == [] then (false, s)
    else
      var s1 := Harvest(cfg, s);
      if FindFree(s1.slots).Some? then (true, s1) else AwaitSlotLate(cfg, Elapse(cfg, s1, script[0]), script[1..])
  }

  /** The wait for slot `k` in dispatch_rw and SubmitAndWait: harvest, test, yield. */
  function AwaitDone(cfg: Config, s: Sys, k: nat, script: seq<Turn>): (r: (bool, Sys))
    requires Shape(cfg, s) && k < MAX_INFLIGHT
    ensures Shape(cfg, r.1) && (r.0 <==> r.1.slots[k].Free?)
    decreases |script|
  {
    if script == [] then (s.slots[k].Free?, s)
    else
      var s1 := Harvest(cfg, s);
      if s1.slots[k].Free? then (true, s1) else AwaitDone(cfg, Elapse(cfg, s1, script[0]), k, script[1..])
  }

  // ----- What a turn and a harvest keep --------------------------------------------------

  lemma {:induction false} ElapseMatched(cfg: Config, s: Sys, turn: Turn)
    requires Shape(cfg, s) && Matched(s)
    ensures Matched(Elapse(cfg, s, turn))
    decreases |turn|
  {
    hide Matched, Shape, Enabled, Next;
    if turn != [] {
      if Outside(turn[0]) && Enabled(cfg, s, turn[0]) { StepMatched(cfg, s, turn[0]); }
      ElapseMatched(cfg, Happen(cfg, s, turn[0]), turn[1..]);
    }
  }

  lemma {:induction false} HarvestAllMatched(cfg: Config, s: Sys)
    requires Shape(cfg, s) && Matched(s)
    ensures Matched(Harvest(cfg, s)) && Harvest(cfg, s).unpublished == s.unpublished
    decreases |s.posted|
  {
    if s.posted != [] {
      HarvestMatched(cfg, s);
      HarvestQueues(cfg, s);
      hide Matched, Shape, HarvestOne;
      HarvestAllMatched(cfg, HarvestOne(cfg, s));
    }
  }

  lemma HarvestQueues(cfg: Config, s: Sys)
    requires Shape(cfg, s) && s.posted != []
    ensures var s' := HarvestOne(cfg, s);
      && s'.unpublished == s.unpublished && s'.published == s.published && s'.fetched == s.fetched && s'.done == s.done
      && forall k :: 0 <= k < MAX_INFLIGHT && s.slots[k].Free? ==> s'.slots[k].Free?
  {
    hide BounceOut, Described;
  }

  /** A harvest that finds anything frees a slot, and slots that were free stay free. */
  lemma {:induction false} HarvestFrees(cfg: Config, s: Sys)
    requires Shape(cfg, s) && Matched(s)
    ensures var s' := Harvest(cfg, s);
      && (forall k :: 0 <= k < MAX_INFLIGHT && s.slots[k].Free? ==> s'.slots[k].Free?)
      && (s.posted != [] ==> FindFree(s'.slots).Some?)
    decreases |s.posted|
  {
    if s.posted != [] {
      HeadIsMatched(s);
      HarvestQueues(cfg, s);
      HarvestMatched(cfg, s);
      var k := s.posted[0].cid - 1;
      FreesHead(cfg, s);
      hide Matched, Shape, HarvestOne, FindFree;
      HarvestFrees(cfg, HarvestOne(cfg, s));
      SomeFree(Harvest(cfg, s).slots, k);
    }
  }

  lemma FreesHead(cfg: Config, s: Sys)
    requires Shape(cfg, s) && s.posted != [] && 1 <= s.posted[0].cid <= MAX_INFLIGHT
    ensures HarvestOne(cfg, s).slots[s.posted[0].cid - 1].Free?
  {
    hide BounceOut, Described;
  }

  lemma SomeFree(slots: seq<Slot>, k: nat)
    requires k < |slots| && slots[k].Free?
    ensures FindFree(slots).Some?
  {
  }

  // ----- When a wait succeeds ------------------------------------------------------------

  /** How many turns pass before a harvest would find a completion. */
  function PostedAfter(cfg: Config, s: Sys, script: seq<Turn>): Option<nat>
    requires Shape(cfg, s)
    decreases |script|
  {
    if s.posted != [] then Some(0)
    else if script == [] then None
    else
      match PostedAfter(cfg, Elapse(cfg, s, script[0]), script[1..])
      case None => None
      case Some(n) => Some(n + 1)
  }

  /** wait_for_free_slot succeeds exactly when a completion is there after `n` turns with two polls
    * left: one to harvest it and one to see the slot.  What the very last harvest frees is not
    * looked at any more. */
  lemma {:induction false} AwaitSlotExact(cfg: Config, s: Sys, script: seq<Turn>)
    requires Shape(cfg, s) && Matched(s) && FindFree(s.slots).None?
    ensures AwaitSlot(cfg, s, script).0
      <==> PostedAfter(cfg, s, script).Some? && PostedAfter(cfg, s, script).value + 2 <= |script|
    decreases |script|
  {
    hide Matched, Shape, Next, Enabled, FindFree, HarvestOne;
    if script != [] {
      if s.posted != [] {
        HarvestFrees(cfg, s);
        FreeAtOnce(cfg, Elapse(cfg, Harvest(cfg, s), script[0]), script[1..]);
      } else {
        ElapseMatched(cfg, s, script[0]);
        AwaitSlotExact(cfg, Elapse(cfg, s, script[0]), script[1..]);
      }
    }
  }

  /** In SubmitAndWait one poll after the completion is enough. */
  lemma {:induction false} AwaitSlotLateExact(cfg: Config, s: Sys, script: seq<Turn>)
    requires Shape(cfg, s) && Matched(s) && FindFree(s.slots).None?
    ensures AwaitSlotLate(cfg, s, script).0
      <==> PostedAfter(cfg, s, script).Some? && PostedAfter(cfg, s, script).value + 1 <= |script|
    decreases |script|
  {
    hide Matched, Shape, Next, Enabled, FindFree, HarvestOne;
    if script != [] {
      if s.posted != [] {
        HarvestFrees(cfg, s);
      } else {
        ElapseMatched(cfg, s, script[0]);
        AwaitSlotLateExact(cfg, Elapse(cfg, s, script[0]), script[1..]);
      }
    }
  }

  lemma FreeAtOnce(cfg: Config, s: Sys, script: seq<Turn>)
    requires Shape(cfg, s) && FindFree(s.slots).Some?
    ensures AwaitSlot(cfg, s, script).0 <==> script != []
  {
  }

  // ----- Progress ------------------------------------------------------------------------

  /** Device work left: fetch, execute, post for a published command, and so on. */
  function Work(s: Sys): nat {
    3 * |s.published| + 2 * |s.fetched| + |s.done|
  }

  lemma HappenWorks(cfg: Config, s: Sys, st: Step)
    requires Shape(cfg, s)
    ensures var s' := Happen(cfg, s, st);
      Work(s') <= Work(s) && |s'.posted| >= |s.posted| && Count(s') == Count(s)
  {
    hide MemAfter, DiskAfter, Executable, ClientMay, Described, Layout;
  }

  lemma {:induction false} ElapseWorks(cfg: Config, s: Sys, turn: Turn)
    requires Shape(cfg, s)
    ensures var s' := Elapse(cfg, s, turn);
      Work(s') <= Work(s) && |s'.posted| >= |s.posted| && Count(s') == Count(s)
    decreases |turn|
  {
    hide Happen, Work, Count, Shape;
    if turn != [] {
      HappenWorks(cfg, s, turn[0]);
      ElapseWorks(cfg, Happen(cfg, s, turn[0]), turn[1..]);
    }
  }

  /** A device that never sits on work for `n` turns in a row; `quiet` counts the turns it has just
    * let pass. */
  ghost predicate Lively(cfg: Config, s: Sys, script: seq<Turn>, n: nat, quiet: nat)
    requires Shape(cfg, s)
    decreases |script|
  {
    script == [] ||
      var s1 := Harvest(cfg, s);
      var s2 := Elapse(cfg, s1, script[0]);
      if Work(s2) < Work(s1) || Work(s1) == 0 then Lively(cfg, s2, script[1..], n, 0)
      else quiet + 1 < n && Lively(cfg, s2, script[1..], n, quiet + 1)
  }

  /** With every slot taken there is one command under way per slot. */
  lemma FullPipeline(s: Sys)
    requires Matched(s) && |s.slots| == MAX_INFLIGHT && FindFree(s.slots).None?
    ensures Count(s) == MAX_INFLIGHT
  {
    OccupiedAll(s.slots);
    hide Occupied;
    assert |Outstanding(s)| == Count(s);
  }

  lemma {:induction false} OccupiedAll(slots: seq<Slot>)
    requires forall k :: 0 <= k < |slots| ==> slots[k].Busy?
    ensures |Occupied(slots)| == |slots|
  {
    if slots != [] { OccupiedAll(slots[..|slots| - 1]); }
  }

  /** A lively device posts a completion within `k` times `n` turns if only `k` pieces of work stand
    * between it and the first one. */
  lemma {:induction false} PostedSoon(cfg: Config, s: Sys, script: seq<Turn>, n: nat, quiet: nat, k: nat)
    requires Shape(cfg, s) && Matched(s) && s.unpublished == [] && FindFree(s.slots).None?
    requires quiet < n && Lively(cfg, s, script, n, quiet)
    requires s.posted != [] || (Work(s) <= MAX_INFLIGHT - 1 + k && |script| >= Times(k, n) - quiet)
    ensures var p := PostedAfter(cfg, s, script);
      p.Some? && (if s.posted != [] then p.value == 0 else p.value <= Times(k, n) - quiet)
    decreases |script|
  {
    hide Matched, Shape, FindFree, HarvestOne;
    if s.posted == [] {
      assert |s.slots| == MAX_INFLIGHT by { ShapeSize(cfg, s); }
      FullPipeline(s);
      assert k >= 1;
      var s2 := Elapse(cfg, s, script[0]);
      ElapseMatched(cfg, s, script[0]);
      ElapseWorks(cfg, s, script[0]);
      var moved := Work(s2) < Work(s);
      PostedSoon(cfg, s2, script[1..], n, if moved then 0 else quiet + 1, if moved then k - 1 else k);
    }
  }

  lemma ShapeSize(cfg: Config, s: Sys)
    requires Shape(cfg, s)
    ensures |s.slots| == MAX_INFLIGHT && cfg.ps > 0 && Shape(cfg, RingSQ(s))
  {
  }

  /** With all slots taken and everything published, the first completion of a device that never sits on
    * work for `n` polls is there after 33 n polls: at most 16 fetches and 16 executions come before it. */
  lemma FullPosts(cfg: Config, s: Sys, script: seq<Turn>, n: nat)
    requires Shape(cfg, s) && Matched(s) && s.unpublished == [] && FindFree(s.slots).None?
    requires n > 0 && Lively(cfg, s, script, n, 0) && |script| >= 33 * n
    ensures PostedAfter(cfg, s, script).Some? && PostedAfter(cfg, s, script).value <= 33 * n
  {
    BuiltinTimes(33, n);
    ShapeSize(cfg, s);
    Occupancy(s);
    hide Matched, Shape;
    PostedSoon(cfg, s, script, n, 0, 33);
  }

  /** Back-pressure makes progress: wait_for_free_slot succeeds within 33 n + 2 polls. */
  lemma BackPressureProgress(cfg: Config, s: Sys, script: seq<Turn>, n: nat)
    requires Shape(cfg, s) && Matched(s) && s.unpublished == []
    requires n > 0 && Lively(cfg, s, script, n, 0) && |script| >= 33 * n + 2
    ensures AwaitSlot(cfg, s, script).0
  {
    hide Matched, Shape, FindFree, Lively, PostedAfter;
    if FindFree(s.slots).None? {
      FullPosts(cfg, s, script, n);
      AwaitSlotExact(cfg, s, script);
    }
  }

  /** So does the wait in SubmitAndWait, one poll earlier. */
  lemma LateProgress(cfg: Config, s: Sys, script: seq<Turn>, n: nat)
    requires Shape(cfg, s) && Matched(s) && s.unpublished == []
    requires n > 0 && Lively(cfg, s, script, n, 0) && |script| >= 33 * n + 1
    ensures AwaitSlotLate(cfg, s, script).0
  {
    hide Matched, Shape, FindFree, Lively, PostedAfter, Harvest;
    if FindFree(s.slots).None? {
      FullPosts(cfg, s, script, n);
      AwaitSlotLateExact(cfg, s, script);
    } else {
      HarvestFrees(cfg, s);
      ShapeSize(cfg, s);
      ShapeSize(cfg, Harvest(cfg, s));
      SomeFree(Harvest(cfg, s).slots, FindFree(s.slots).value);
    }
  }

  // ----- Waits are runs ------------------------------------------------------------------

  lemma {:induction false} RunAppend(cfg: Config, s0: Sys, a: seq<Step>, s1: Sys, b: seq<Step>, s2: Sys, timeouts: bool)
    requires Shape(cfg, s0) && Run(cfg, s0, a, s1, timeouts)
    requires Shape(cfg, s1) && Run(cfg, s1, b, s2, timeouts)
    ensures Run(cfg, s0, a + b, s2, timeouts)
    decreases |a|
  {
    hide Shape, Enabled, Next;
    if a == [] {
      assert a + b == b;
    } else {
      RunAppend(cfg, Next(cfg, s0, a[0]), a[1..], s1, b, s2, timeouts);
      assert (a + b)[1..] == a[1..] + b && (a + b)[0] == a[0];
    }
  }

  lemma OneStep(cfg: Config, s: Sys, st: Step)
    requires Shape(cfg, s) && Enabled(cfg, s, st) && !st.Timeout?
    ensures Run(cfg, s, [st], Next(cfg, s, st), false)
  {
    hide Shape, Enabled, Next;
    assert Run(cfg, Next(cfg, s, st), [st][1..], Next(cfg, s, st), false);
  }

  lemma {:induction false} ElapseRun(cfg: Config, s: Sys, turn: Turn) returns (steps: seq<Step>)
    requires Shape(cfg, s)
    ensures Run(cfg, s, steps, Elapse(cfg, s, turn), false)
    decreases |turn|
  {
    hide Shape, Enabled, Next;
    steps := [];
    if turn != [] {
      var s1 := Happen(cfg, s, turn[0]);
      var rest := ElapseRun(cfg, s1, turn[1..]);
      steps := rest;
      if Outside(turn[0]) && Enabled(cfg, s, turn[0]) {
        OneStep(cfg, s, turn[0]);
        RunAppend(cfg, s, [turn[0]], s1, rest, Elapse(cfg, s, turn), false);
        steps := [turn[0]] + rest;
      }
    }
  }

  lemma {:induction false} HarvestRun(cfg: Config, s: Sys) returns (steps: seq<Step>)
    requires Shape(cfg, s)
    ensures Run(cfg, s, steps, Harvest(cfg, s), false)
    decreases |s.posted|
  {
    steps := [];
    if s.posted != [] {
      OneStep(cfg, s, DoHarvest);
      hide Shape, HarvestOne, Enabled;
      var rest := HarvestRun(cfg, HarvestOne(cfg, s));
      RunAppend(cfg, s, [DoHarvest], HarvestOne(cfg, s), rest, Harvest(cfg, s), false);
      steps := [DoHarvest] + rest;
    }
  }

  /** One poll: harvest, then yield. */
  lemma PollRun(cfg: Config, s: Sys, turn: Turn) returns (steps: seq<Step>)
    requires Shape(cfg, s)
    ensures Run(cfg, s, steps, Elapse(cfg, Harvest(cfg, s), turn), false)
  {
    hide Shape, Run, Harvest, Elapse;
    var a := HarvestRun(cfg, s);
    var b := ElapseRun(cfg, Harvest(cfg, s), turn);
    RunAppend(cfg, s, a, Harvest(cfg, s), b, Elapse(cfg, Harvest(cfg, s), turn), false);
    steps := a + b;
  }

  lemma {:induction false} AwaitSlotRun(cfg: Config, s: Sys, script: seq<Turn>) returns (steps: seq<Step>)
    requires Shape(cfg, s)
    ensures Run(cfg, s, steps, AwaitSlot(cfg, s, script).1, false)
    decreases |script|
  {
    hide Shape, Harvest, Elapse, FindFree, Enabled, Next;
    steps := [];
    if script != [] && FindFree(s.slots).None? {
      var s1 := Elapse(cfg, Harvest(cfg, s), script[0]);
      var a := PollRun(cfg, s, script[0]);
      var b := AwaitSlotRun(cfg, s1, script[1..]);
      RunAppend(cfg, s, a, s1, b, AwaitSlot(cfg, s, script).1, false);
      steps := a + b;
    }
  }

  lemma {:induction false} AwaitDoneRun(cfg: Config, s: Sys, k: nat, script: seq<Turn>) returns (steps: seq<Step>)
    requires Shape(cfg, s) && k < MAX_INFLIGHT
    ensures Run(cfg, s, steps, AwaitDone(cfg, s, k, script).1, false)
    decreases |script|
  {
    hide Shape, Harvest, Elapse, Enabled, Next;
    steps := [];
    if script != [] {
      var s1 := Harvest(cfg, s);
      ShapeSize(cfg, s1);
      if s1.slots[k].Free? {
        steps := HarvestRun(cfg, s);
      } else {
        var s2 := Elapse(cfg, s1, script[0]);
        var a := PollRun(cfg, s, script[0]);
        var b := AwaitDoneRun(cfg, s2, k, script[1..]);
        RunAppend(cfg, s, a, s2, b, AwaitDone(cfg, s, k, script).1, false);
        steps := a + b;
      }
    }
  }

  // ----- What a wait reports -------------------------------------------------------------

  /** What has been handed back for request `id`, in order: its io_Error is the last one's. */
  function Results(outcomes: seq<Outcome>, id: nat): seq<Outcome> {
    if outcomes == [] then []
    else
      var n := |outcomes| - 1;
      Results(outcomes[..n], id) + if outcomes[n].req.id == id then [outcomes[n]] else []
  }

  /** No other slot works for the request in slot `k`. */
  predicate OnlySlot(slots: seq<Slot>, k: nat) {
    k < |slots| && slots[k].Busy?
    && forall j :: 0 <= j < |slots| && j != k && slots[j].Busy? ==> slots[j].req.id != slots[k].req.id
  }

  /** Slots may only have been freed. */
  predicate OnlyFreed(slots: seq<Slot>, slots': seq<Slot>) {
    |slots'| == |slots| && forall j :: 0 <= j < |slots| ==> slots'[j] == slots[j] || slots'[j] == Free
  }

  /** What a wait has brought for the request that slot `k` held: nothing yet, or its one result. */
  ghost predicate Brought(slots: seq<Slot>, before: seq<Outcome>, k: nat, s: Sys)
    requires k < |slots| && slots[k].Busy?
  {
    var id := slots[k].req.id;
    && OnlyFreed(slots, s.slots)
    && if s.slots[k].Free? then
         && |Results(s.outcomes, id)| == |Results(before, id)| + 1
         && Results(s.outcomes, id)[..|Results(before, id)|] == Results(before, id)
         && ReportsOn(slots[k], Results(s.outcomes, id)[|Results(before, id)|])
       else Results(s.outcomes, id) == Results(before, id)
  }

  predicate ReportsOn(b: Slot, o: Outcome)
    requires b.Busy?
  {
    o.req == b.req && o.isWrite == b.isWrite && o.path == b.path && o.replied == !b.suppress
    && o.actual == if o.ok then b.req.length else 0
  }

  lemma HarvestOneBrings(cfg: Config, s: Sys, slots: seq<Slot>, before: seq<Outcome>, k: nat)
    requires Shape(cfg, s) && Matched(s) && s.posted != []
    requires |slots| == MAX_INFLIGHT && OnlySlot(slots, k) && Brought(slots, before, k, s)
    ensures Brought(slots, before, k, HarvestOne(cfg, s))
  {
    HeadIsMatched(s);
    HeadHandsOver(cfg, s);
    hide HarvestOne, Matched, Shape;
    var s', c := HarvestOne(cfg, s), s.posted[0];
    var o := s'.outcomes[|s.outcomes|];
    assert s'.outcomes[..|s.outcomes|] == s.outcomes;
    assert Results(s'.outcomes, slots[k].req.id)
        == Results(s.outcomes, slots[k].req.id) + if o.req.id == slots[k].req.id then [o] else [];
  }

  lemma HeadHandsOver(cfg: Config, s: Sys)
    requires Shape(cfg, s) && s.posted != []
    requires 1 <= s.posted[0].cid <= MAX_INFLIGHT && s.slots[s.posted[0].cid - 1].Busy?
    ensures var s', k := HarvestOne(cfg, s), s.posted[0].cid - 1;
      && s'.slots == s.slots[k := Free] && |s'.outcomes| == |s.outcomes| + 1
      && s'.outcomes == s.outcomes + [s'.outcomes[|s.outcomes|]]
      && ReportsOn(s.slots[k], s'.outcomes[|s.outcomes|]) && s'.outcomes[|s.outcomes|].ok == s.posted[0].ok
  {
    hide BounceOut, Described, Layout;
  }

  lemma {:induction false} HarvestBrings(cfg: Config, s: Sys, slots: seq<Slot>, before: seq<Outcome>, k: nat)
    requires Shape(cfg, s) && Matched(s)
    requires |slots| == MAX_INFLIGHT && OnlySlot(slots, k) && Brought(slots, before, k, s)
    ensures Brought(slots, before, k, Harvest(cfg, s))
    decreases |s.posted|
  {
    if s.posted != [] {
      HarvestOneBrings(cfg, s, slots, before, k);
      HarvestMatched(cfg, s);
      hide Brought, Matched, Shape, HarvestOne;
      HarvestBrings(cfg, HarvestOne(cfg, s), slots, before, k);
    }
  }

  lemma {:induction false} ElapseOutcomes(cfg: Config, s: Sys, turn: Turn)
    requires Shape(cfg, s)
    ensures Elapse(cfg, s, turn).outcomes == s.outcomes
    decreases |turn|
  {
    if turn != [] {
      HappenOutcomes(cfg, s, turn[0]);
      hide Happen, Shape;
      ElapseOutcomes(cfg, Happen(cfg, s, turn[0]), turn[1..]);
    }
  }

  lemma HappenOutcomes(cfg: Config, s: Sys, st: Step)
    requires Shape(cfg, s)
    ensures Happen(cfg, s, st).outcomes == s.outcomes
  {
    hide MemAfter, DiskAfter, Executable, ClientMay, Described, Layout;
  }

  lemma {:induction false} AwaitDoneBrings(cfg: Config, s: Sys, k: nat, script: seq<Turn>, slots: seq<Slot>, before: seq<Outcome>)
    requires Shape(cfg, s) && Matched(s) && s.unpublished == [] && k < MAX_INFLIGHT
    requires |slots| == MAX_INFLIGHT && OnlySlot(slots, k) && Brought(slots, before, k, s)
    ensures var s' := AwaitDone(cfg, s, k, script).1;
      Matched(s') && s'.unpublished == [] && Brought(slots, before, k, s')
    decreases |script|
  {
    hide Brought, Matched, Shape;
    if script != [] {
      var s1 := Harvest(cfg, s);
      HarvestBrings(cfg, s, slots, before, k);
      HarvestAllMatched(cfg, s);
      ShapeSize(cfg, s1);
      if s1.slots[k].Busy? {
        var s2 := Elapse(cfg, s1, script[0]);
        ElapseMatched(cfg, s1, script[0]);
        ElapseOutcomes(cfg, s1, script[0]);
        SameBrought(slots, before, k, s1, s2);
        AwaitDoneBrings(cfg, s2, k, script[1..], slots, before);
      }
    }
  }

  lemma SameBrought(slots: seq<Slot>, before: seq<Outcome>, k: nat, s: Sys, s': Sys)
    requires k < |slots| && slots[k].Busy? && Brought(slots, before, k, s)
    requires s'.slots == s.slots && s'.outcomes == s.outcomes
    ensures Brought(slots, before, k, s')
  {
  }

  // ----- Requests that are nowhere in flight ---------------------------------------------

  /** No slot works for request `id`. */
  predicate Absent(slots: seq<Slot>, id: nat) {
    forall j :: 0 <= j < |slots| && slots[j].Busy? ==> slots[j].req.id != id
  }

  lemma HarvestOneAbsent(cfg: Config, s: Sys, id: nat)
    requires Shape(cfg, s) && Matched(s) && s.posted != [] && Absent(s.slots, id)
    ensures var s' := HarvestOne(cfg, s);
      Matched(s') && Absent(s'.slots, id) && Results(s'.outcomes, id) == Results(s.outcomes, id)
  {
    HeadIsMatched(s);
    HeadHandsOver(cfg, s);
    HarvestMatched(cfg, s);
    hide HarvestOne, Matched, Shape;
    var s' := HarvestOne(cfg, s);
    assert s'.outcomes[..|s.outcomes|] == s.outcomes;
  }

  lemma {:induction false} HarvestAbsent(cfg: Config, s: Sys, id: nat)
    requires Shape(cfg, s) && Matched(s) && Absent(s.slots, id)
    ensures var s' := Harvest(cfg, s); Absent(s'.slots, id) && Results(s'.outcomes, id) == Results(s.outcomes, id)
    decreases |s.posted|
  {
    hide HarvestOne, Matched, Shape, Absent, Results;
    if s.posted != [] {
      HarvestOneAbsent(cfg, s, id);
      HarvestAbsent(cfg, HarvestOne(cfg, s), id);
    }
  }

  /** Waiting for a slot neither adds nor loses anything for a request that is not in flight. */
  lemma {:induction false} AwaitSlotAbsent(cfg: Config, s: Sys, script: seq<Turn>, id: nat)
    requires Shape(cfg, s) && Matched(s) && Absent(s.slots, id)
    ensures var s' := AwaitSlot(cfg, s, script).1;
      Matched(s') && Absent(s'.slots, id) && Results(s'.outcomes, id) == Results(s.outcomes, id)
    decreases |script|
  {
    hide Matched, Shape, FindFree;
    if script != [] && FindFree(s.slots).None? {
      var s1 := Harvest(cfg, s);
      HarvestAbsent(cfg, s, id);
      HarvestAllMatched(cfg, s);
      ElapseMatched(cfg, s1, script[0]);
      ElapseOutcomes(cfg, s1, script[0]);
      AwaitSlotAbsent(cfg, Elapse(cfg, s1, script[0]), script[1..], id);
    }
  }

  /** Waiting for a slot reports on the command in that very slot: when the wait succeeds, exactly
    * one result has been added for the slot's request, and it is that command's; when it does not,
    * none has, and the slot still holds the command.  Everything stays matched and published. */
  lemma AwaitDoneReports(cfg: Config, s: Sys, k: nat, script: seq<Turn>)
    requires Shape(cfg, s) && Matched(s) && s.unpublished == [] && OnlySlot(s.slots, k)
    ensures var (done, s') := AwaitDone(cfg, s, k, script);
      && Matched(s') && s'.unpublished == [] && OnlyFreed(s.slots, s'.slots)
      && var id := s.slots[k].req.id;
      if done then
        && s'.slots[k].Free? && |Results(s'.outcomes, id)| == |Results(s.outcomes, id)| + 1
        && Results(s'.outcomes, id)[..|Results(s.outcomes, id)|] == Results(s.outcomes, id)
        && ReportsOn(s.slots[k], Results(s'.outcomes, id)[|Results(s.outcomes, id)|])
      else s'.slots[k] == s.slots[k] && Results(s'.outcomes, id) == Results(s.outcomes, id)
  {
    hide Matched, AwaitDone;
    AwaitDoneBrings(cfg, s, k, script, s.slots, s.outcomes);
  }
}
