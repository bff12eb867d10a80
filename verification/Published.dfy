/** What the controller is told, run by run: which command stands for an occupied slot, and which way its
  * pinned buffer goes. */
module Published {
  import opened Base
  import opened Memory
  import opened Prp
  import opened Commands
  import opened Pipeline
  import opened Matching
  import opened EndToEnd
  import opened Ledger
  import opened Dispatch

  // ----- Commands without data -----------------------------------------------------------

  /** The command a run asked for when it last placed one without data in slot `k`, if it ever did. */
  ghost function Asked(cfg: Config, s0: Sys, steps: seq<Step>, s: Sys, k: nat): Option<Sqe>
    requires Shape(cfg, s0) && Run(cfg, s0, steps, s, false)
    decreases |steps|
  {
    if steps == [] then None
    else
      var later := Asked(cfg, Next(cfg, s0, steps[0]), steps[1..], s, k);
      if later.Some? then later else if PutsIn(s0, steps[0], k) then Some(steps[0].sqe) else None
  }

  /** The step places a command without data in slot `k`. */
  predicate PutsIn(s: Sys, st: Step, k: nat) {
    st.Control? && FindFree(s.slots) == Some(k)
  }

  /** A flush is opcode 0 with no other word set, and is on the published queue at once. */
  lemma FlushCarries(cfg: Config, s: Sys, r: Request)
    requires Shape(cfg, s)
    ensures var (rc, s') := Flush(s, r);
      && (rc != NoSlot ==>
            && rc == Submitted && s'.unpublished == [] && s'.published != []
            && var e := s'.published[|s'.published| - 1];
            && 1 <= e.cid <= MAX_INFLIGHT && e == Sqe(0, e.cid, 0, 0, 0, 0, 0)
            && s.slots[e.cid - 1].Free? && s'.slots[e.cid - 1] == Busy(r, false, NoData, false))
  {
    ControlCarries(s, r, FLUSH_SQE, false);
    hide Described, Layout, FindFree;
  }

  /** `e` is pending for a slot without data. */
  predicate Stands(s: Sys, e: Sqe) {
    e in Pending(s) && 1 <= e.cid <= |s.slots| && s.slots[e.cid - 1].Busy? && s.slots[e.cid - 1].path.NoData?
  }

  /** An old command of an occupied slot that keeps its path. */
  lemma OldStands(cfg: Config, s: Sys, s': Sys, e: Sqe)
    requires Shape(cfg, s) && DataInv(cfg, s) && |s'.slots| == MAX_INFLIGHT && e in Pending(s) && Stands(s', e)
    requires forall j :: 0 <= j < MAX_INFLIGHT && s.slots[j].Busy? ==> s'.slots[j].Free? || s'.slots[j].path == s.slots[j].path
    ensures Stands(s, e)
  {
    InvParts(cfg, s);
    hide Owns, Matched, SqeFits, CqesFit, Layout, Described, Pending;
  }

  lemma SubmitStands(cfg: Config, s: Sys, r: Request, w: bool, env: DmaEnv, e: Sqe)
    requires Shape(cfg, s) && DataInv(cfg, s) && Described(cfg, r) && Stands(SubmitNoRing(cfg, s, r, w, env).1, e)
    ensures Stands(s, e)
  {
    hide *;
    InvParts(cfg, s);
    SubmittedPending(cfg, s, r, w, env, e);
    OldStands(cfg, s, SubmitNoRing(cfg, s, r, w, env).1, e);
  }

  /** A submission adds one command, and that one's slot moves data. */
  lemma SubmittedPending(cfg: Config, s: Sys, r: Request, w: bool, env: DmaEnv, e: Sqe)
    requires Shape(cfg, s) && Described(cfg, r) && Stands(SubmitNoRing(cfg, s, r, w, env).1, e)
    ensures var s' := SubmitNoRing(cfg, s, r, w, env).1;
      && e in Pending(s) && |s'.slots| == MAX_INFLIGHT
      && forall j :: 0 <= j < MAX_INFLIGHT && s.slots[j].Busy? ==> s'.slots[j] == s.slots[j]
  {
    SubmitPlaces(cfg, s, r, w, env);
    SubmitSlot(cfg, s, r, w, env);
    hide SubmitNoRing, Described, Layout;
  }

  lemma ControlStands(cfg: Config, s: Sys, r: Request, sqe: Sqe, sup: bool, e: Sqe)
    requires Shape(cfg, s) && DataInv(cfg, s) && Dataless(sqe) && Stands(SubmitControl(s, r, sqe, sup).1, e)
    ensures if FindFree(s.slots) == Some(e.cid - 1) then Carries(e, sqe, e.cid - 1) else Stands(s, e)
  {
    InvParts(cfg, s);
    hide Owns, Matched, SqeFits, CqesFit, Layout, Described;
  }

  lemma ExecuteStands(cfg: Config, s: Sys, i: nat, f: Effect, e: Sqe)
    requires Shape(cfg, s) && Enabled(cfg, s, DoExecute(i, f)) && Stands(Execute(cfg, s, i, f), e)
    ensures Stands(s, e)
  {
    hide Executable, MemAfter, DiskAfter, Described, Layout;
  }

  lemma HarvestStands(cfg: Config, s: Sys, e: Sqe)
    requires Shape(cfg, s) && DataInv(cfg, s) && s.posted != [] && Stands(HarvestOne(cfg, s), e)
    ensures Stands(s, e)
  {
    InvParts(cfg, s);
    HeadFits(cfg, s);
    HarvestIs(cfg, s);
    hide Owns, Matched, SqesFit, CqesFit, Layout, Described, HarvestOne, BounceOut;
  }

  lemma SuppressStands(cfg: Config, s: Sys, k: nat, e: Sqe)
    requires Shape(cfg, s) && DataInv(cfg, s) && k < MAX_INFLIGHT && s.slots[k].Busy? && Stands(Suppressed(s, k), e)
    ensures Stands(s, e)
  {
    hide DataInv, Described, Layout;
  }

  /** Queues are only moved on. */
  lemma MovedStands(s: Sys, s': Sys, e: Sqe)
    requires s'.slots == s.slots && Stands(s', e)
    requires s' == RingSQ(s) || s' == s.(mem := s'.mem) || (s.published != [] && s' == Fetch(s))
             || (s'.unpublished == s.unpublished && s'.published == s.published && s'.fetched == s.fetched)
    ensures Stands(s, e)
  {
    if s.published != [] && s' == Fetch(s) {
      assert s.published == [s.published[0]] + s.published[1..];
    }
  }

  /** One step: a pending command of a slot without data has just been placed by it, or was pending before. */
  lemma StepCarries(cfg: Config, s: Sys, st: Step, e: Sqe)
    requires Shape(cfg, s) && DataInv(cfg, s) && Enabled(cfg, s, st) && !st.Timeout? && Stands(Next(cfg, s, st), e)
    ensures if PutsIn(s, st, e.cid - 1) then Carries(e, st.sqe, e.cid - 1) else Stands(s, e)
  {
    hide DataInv, SubmitNoRing, SubmitControl, Execute, HarvestOne, Executable, Shape, FindFree, Carries, DriverOwned;
    match st
    case DoSubmit(r, w, env) => SubmitStands(cfg, s, r, w, env, e);
    case Control(r, sqe, sup) => ControlStands(cfg, s, r, sqe, sup, e);
    case DoExecute(i, f) => ExecuteStands(cfg, s, i, f, e);
    case DoHarvest => HarvestStands(cfg, s, e);
    case Suppress(k) => SuppressStands(cfg, s, k, e);
    case Publish => MovedStands(s, RingSQ(s), e);
    case DoFetch => MovedStands(s, Fetch(s), e);
    case DoPost(i) => MovedStands(s, Post(s, i), e);
    case ClientStore(a, v) => MovedStands(s, s.(mem := s.mem[a := v]), e);
  }

  lemma {:induction false} RunCarries(cfg: Config, s0: Sys, steps: seq<Step>, s: Sys, e: Sqe)
    requires Shape(cfg, s0) && Disjoint(cfg) && DataInv(cfg, s0) && Run(cfg, s0, steps, s, false) && Stands(s, e)
    ensures var asked := Asked(cfg, s0, steps, s, e.cid - 1);
      if asked.Some? then Carries(e, asked.value, e.cid - 1) else Stands(s0, e)
    decreases |steps|
  {
    hide DataInv, Shape, Disjoint, Enabled, Next, Carries, Stands, PutsIn;
    if steps != [] {
      var s1 := Next(cfg, s0, steps[0]);
      StepFits(cfg, s0, steps[0]);
      RunCarries(cfg, s1, steps[1..], s, e);
      if Stands(s1, e) { StepCarries(cfg, s0, steps[0], e); }
    }
  }

  /** In every timeout-free run, the command pending for an occupied slot without data is the one asked for
    * by the step that took the slot, in every word but the command id. */
  lemma CommandAsAsked(cfg: Config, mem: Mem, disk: Mem, steps: seq<Step>, s: Sys, e: Sqe)
    requires Layout(cfg) && Disjoint(cfg) && Run(cfg, Init(mem, disk), steps, s, false) && Stands(s, e)
    ensures var asked := Asked(cfg, Init(mem, disk), steps, s, e.cid - 1);
      asked.Some? && Carries(e, asked.value, e.cid - 1)
  {
    InitMatched(mem, disk);
    hide Run, Asked, Carries, FindFree;
    RunCarries(cfg, Init(mem, disk), steps, s, e);
  }

  // ----- Directions ----------------------------------------------------------------------

  lemma {:induction false} AnyRun(cfg: Config, s0: Sys, steps: seq<Step>, s: Sys)
    requires Shape(cfg, s0) && Run(cfg, s0, steps, s, false)
    ensures Run(cfg, s0, steps, s, true)
    decreases |steps|
  {
    hide Shape, Enabled, Next;
    if steps != [] { AnyRun(cfg, Next(cfg, s0, steps[0]), steps[1..], s); }
  }

  /** In every timeout-free run, a pending command of a slot that moves data has the direction that the
    * request's command names: opcode 1 for a write or format, 2 for a read.  If its buffer is pinned, the
    * pin says that the device reads it exactly if the command makes the controller read it; otherwise the
    * controller does not touch the disk, and with a read pin it does not touch memory. */
  lemma PinFollowsCommand(cfg: Config, mem: Mem, disk: Mem, steps: seq<Step>, s: Sys, e: Sqe, f: Effect) returns (p: Pin)
    requires Layout(cfg) && Disjoint(cfg) && Run(cfg, Init(mem, disk), steps, s, false) && e in Pending(s)
    requires Executable(cfg, s.mem, e, f)
    requires 1 <= e.cid <= |s.slots| && MovesData(s.slots[e.cid - 1])
    ensures |s.slots| == MAX_INFLIGHT
    ensures var r := s.slots[e.cid - 1].req;
      if e.opcode == 1 then IsWrite(r.command) && MemAfter(cfg, s.mem, s.disk, e, f) == s.mem
      else e.opcode == 2 && IsRead(r.command) && DiskAfter(cfg, s.mem, s.disk, e, f) == s.disk
    ensures s.slots[e.cid - 1].path.Mapped? ==> PinOf(s, e.cid - 1, p) && (DeviceReads(p) <==> e.opcode == 1)
  {
    PendingDirection(cfg, mem, disk, steps, s, e);
    ExecutedDirection(cfg, s.mem, s.disk, e, f);
    hide *;
    p := Pin(0, 0, 0);
    if s.slots[e.cid - 1].path.Mapped? {
      AnyRun(cfg, Init(mem, disk), steps, s);
      p := PinDirection(cfg, mem, disk, steps, s, e.cid - 1);
    }
  }

  lemma PendingDirection(cfg: Config, mem: Mem, disk: Mem, steps: seq<Step>, s: Sys, e: Sqe)
    requires Layout(cfg) && Disjoint(cfg) && Run(cfg, Init(mem, disk), steps, s, false) && e in Pending(s)
    requires 1 <= e.cid <= |s.slots| && MovesData(s.slots[e.cid - 1])
    ensures |s.slots| == MAX_INFLIGHT && cfg.ps > 0 && Shape(cfg, Init(mem, disk))
    ensures var b := s.slots[e.cid - 1];
      && e.opcode == (if b.isWrite then 1 else 2)
      && (if b.isWrite then IsWrite(b.req.command) else IsRead(b.req.command))
  {
    InitMatched(mem, disk);
    assert Shape(cfg, Init(mem, disk)) && DataInv(cfg, Init(mem, disk)) && AllFaithful(Init(mem, disk)) && cfg.ps > 0;
    hide *;
    RunFaithful(cfg, Init(mem, disk), steps, s);
    DirectionOf(cfg, s, e);
  }

  lemma DirectionOf(cfg: Config, s: Sys, e: Sqe)
    requires Shape(cfg, s) && DataInv(cfg, s) && e in Pending(s) && 1 <= e.cid <= |s.slots| && MovesData(s.slots[e.cid - 1])
    ensures |s.slots| == MAX_INFLIGHT
    ensures var b := s.slots[e.cid - 1];
      && e.opcode == (if b.isWrite then 1 else 2)
      && (if b.isWrite then IsWrite(b.req.command) else IsRead(b.req.command))
  {
    InvParts(cfg, s);
    var k := e.cid - 1;
    assert SqeFits(cfg, s.mem, k, s.slots[k], e) && Owns(cfg, s.slots, k);
    SwitchExact(s.slots[k].req.command);
    hide SqesFit, CqesFit, Described, Layout, Matched, Handled, IsRead, IsWrite, DriverOwned, Pages, DiskSpan;
  }

  lemma ExecutedDirection(cfg: Config, m: Mem, disk: Mem, e: Sqe, f: Effect)
    requires cfg.ps > 0 && Executable(cfg, m, e, f)
    ensures e.opcode == 1 ==> MemAfter(cfg, m, disk, e, f) == m
    ensures e.opcode == 2 ==> DiskAfter(cfg, m, disk, e, f) == disk
  {
  }
}
