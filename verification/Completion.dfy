/** Commands are neither lost nor answered twice, and none can get stuck.
  *
  * Over every run each accepted request is either still in its slot or has its own one result; from
  * every state a run leads on to a state without anything under way; and a request the driver
  * accepts and the controller can decode can then be carried through to its success. */
module Completion {
  import opened Base
  import opened Modular
  import opened Memory
  import opened Prp
  import opened Commands
  import opened Pipeline
  import opened Matching
  import opened EndToEnd
  import opened Waiting
  import opened ChunkEffects
  import Dispatch
  import Sessions

  // ----- One result for each command -----------------------------------------------------

  function Is(q: Request, r: Request): nat {
    if q == r then 1 else 0
  }

  /** Whether a step gives the controller request `r` to do. */
  function Accepts(cfg: Config, s: Sys, st: Step, r: Request): nat
    requires Shape(cfg, s) && Enabled(cfg, s, st)
  {
    match st
    case DoSubmit(q, w, env) => if SubmitNoRing(cfg, s, q, w, env).0 == Submitted then Is(q, r) else 0
    case Control(q, sqe, sup) => if SubmitControl(s, q, sqe, sup).0 == Submitted then Is(q, r) else 0
    case _ => 0
  }

  /** How often request `r` is accepted in a run. */
  ghost function Accepted(cfg: Config, s: Sys, steps: seq<Step>, r: Request): nat
    requires Shape(cfg, s)
    decreases |steps|
  {
    if steps == [] || !Enabled(cfg, s, steps[0]) then 0
    else Accepts(cfg, s, steps[0], r) + Accepted(cfg, Next(cfg, s, steps[0]), steps[1..], r)
  }

  function Of(b: Slot, r: Request): nat {
    if b.Busy? then Is(b.req, r) else 0
  }

  /** How many slots work for request `r`. */
  function InSlots(slots: seq<Slot>, r: Request): nat {
    if slots == [] then 0 else InSlots(slots[..|slots| - 1], r) + Of(slots[|slots| - 1], r)
  }

  /** How many results have been handed back for request `r`. */
  function Reported(outcomes: seq<Outcome>, r: Request): nat {
    if outcomes == [] then 0 else Reported(outcomes[..|outcomes| - 1], r) + Is(outcomes[|outcomes| - 1].req, r)
  }

  function Books(s: Sys, r: Request): nat {
    Reported(s.outcomes, r) + InSlots(s.slots, r)
  }

  lemma {:induction false} InSlotsUpdate(slots: seq<Slot>, k: nat, b: Slot, r: Request)
    requires k < |slots|
    ensures InSlots(slots[k := b], r) + Of(slots[k], r) == InSlots(slots, r) + Of(b, r)
  {
    var n := |slots| - 1;
    if k < n {
      InSlotsUpdate(slots[..n], k, b, r);
      assert slots[k := b][..n] == slots[..n][k := b];
    } else {
      assert slots[k := b][..n] == slots[..n];
    }
  }

  lemma {:induction false} NoneInSlots(slots: seq<Slot>, r: Request)
    requires forall k :: 0 <= k < |slots| ==> slots[k].Free?
    ensures InSlots(slots, r) == 0
  {
    if slots != [] { NoneInSlots(slots[..|slots| - 1], r); }
  }

  lemma ReportedMore(outcomes: seq<Outcome>, o: Outcome, r: Request)
    ensures Reported(outcomes + [o], r) == Reported(outcomes, r) + Is(o.req, r)
  {
    assert (outcomes + [o])[..|outcomes|] == outcomes;
  }

  lemma StepBooks(cfg: Config, s: Sys, st: Step, r: Request)
    requires Shape(cfg, s) && Enabled(cfg, s, st) && !st.Timeout? && Matched(s)
    ensures Books(Next(cfg, s, st), r) == Books(s, r) + Accepts(cfg, s, st, r) && s.outcomes <= Next(cfg, s, st).outcomes
  {
    hide Shape, Matched, SubmitNoRing, SubmitControl, HarvestOne, Executable, ClientBuffer, Books, InSlots, Reported;
    match st
    case DoSubmit(q, w, env) => SubmitBooks(cfg, s, q, w, env, r);
    case Control(q, sqe, sup) => ControlBooks(s, q, sqe, sup, r);
    case Suppress(k) => SuppressBooks(cfg, s, k, r);
    case DoHarvest => HarvestBooks(cfg, s, r);
    case _ => StillBooks(cfg, s, st, r);
  }

  lemma StillBooks(cfg: Config, s: Sys, st: Step, r: Request)
    requires Shape(cfg, s) && Enabled(cfg, s, st) && (st.Publish? || Outside(st))
    ensures Books(Next(cfg, s, st), r) == Books(s, r) && Next(cfg, s, st).outcomes == s.outcomes
  {
    hide MemAfter, DiskAfter, Executable, ClientMay, Described, Layout, InSlots, Reported;
  }

  lemma SubmitBooks(cfg: Config, s: Sys, q: Request, w: bool, env: DmaEnv, r: Request)
    requires Shape(cfg, s) && ClientBuffer(cfg, s, q, w)
    ensures Described(cfg, q)
    ensures var (rc, s') := SubmitNoRing(cfg, s, q, w, env);
      Books(s', r) == Books(s, r) + (if rc == Submitted then Is(q, r) else 0) && s'.outcomes == s.outcomes
  {
    SubmitPlaces(cfg, s, q, w, env);
    Dispatch.SubmitSlot(cfg, s, q, w, env);
    hide SubmitNoRing, Shape, ClientBuffer, InSlots, Reported, FindFree;
    var (rc, s') := SubmitNoRing(cfg, s, q, w, env);
    if rc == Submitted {
      var k := FindFree(s.slots).value;
      InSlotsUpdate(s.slots, k, s'.slots[k], r);
    }
  }

  lemma ControlBooks(s: Sys, q: Request, sqe: Sqe, sup: bool, r: Request)
    requires Dataless(sqe)
    ensures var (rc, s') := SubmitControl(s, q, sqe, sup);
      Books(s', r) == Books(s, r) + (if rc == Submitted then Is(q, r) else 0) && s'.outcomes == s.outcomes
  {
    hide InSlots, Reported, FindFree;
    if FindFree(s.slots).Some? { InSlotsUpdate(s.slots, FindFree(s.slots).value, Busy(q, false, NoData, sup), r); }
  }

  lemma SuppressBooks(cfg: Config, s: Sys, k: nat, r: Request)
    requires Shape(cfg, s) && k < MAX_INFLIGHT && s.slots[k].Busy?
    ensures Books(Suppressed(s, k), r) == Books(s, r)
  {
    hide InSlots, Reported, Described, Layout;
    InSlotsUpdate(s.slots, k, s.slots[k].(suppress := true), r);
  }

  lemma HarvestBooks(cfg: Config, s: Sys, r: Request)
    requires Shape(cfg, s) && Matched(s) && s.posted != []
    ensures var s' := HarvestOne(cfg, s);
      Books(s', r) == Books(s, r) && s.outcomes <= s'.outcomes
  {
    HeadIsMatched(s);
    ShapeSize(cfg, s);
    HeadHandsOver(cfg, s);
    hide Matched, HarvestOne, Shape, InSlots, Reported;
    var k, s' := s.posted[0].cid - 1, HarvestOne(cfg, s);
    InSlotsUpdate(s.slots, k, Free, r);
    ReportedMore(s.outcomes, s'.outcomes[|s.outcomes|], r);
  }

  /** Over every timeout-free run each request has as many results more, or slots still working for it, as
    * it had slots at the start and has been accepted since: none is lost, none is answered twice or in
    * another's place.  Results once given stay, and every occupied slot has its one command. */
  lemma {:induction false} OneResultEach(cfg: Config, s0: Sys, steps: seq<Step>, s: Sys, r: Request)
    requires Shape(cfg, s0) && Matched(s0) && Run(cfg, s0, steps, s, false)
    ensures Shape(cfg, s) && Matched(s) && s0.outcomes <= s.outcomes
    ensures Reported(s.outcomes, r) + InSlots(s.slots, r)
      == Reported(s0.outcomes, r) + InSlots(s0.slots, r) + Accepted(cfg, s0, steps, r)
    decreases |steps|
  {
    hide Shape, Matched, Enabled, Next, Accepts, Reported, InSlots;
    if steps != [] {
      StepMatched(cfg, s0, steps[0]);
      StepBooks(cfg, s0, steps[0], r);
      OneResultEach(cfg, Next(cfg, s0, steps[0]), steps[1..], s, r);
    }
  }

  // ----- Nothing gets stuck --------------------------------------------------------------

  /** How far everything under way is from its result. */
  function Distance(s: Sys): nat {
    5 * |s.unpublished| + 4 * |s.published| + 3 * |s.fetched| + 2 * |s.done| + |s.posted|
  }

  /** The controller can always carry a command out, with success if its PRPs decode. */
  function ResponseTo(cfg: Config, s: Sys, e: Sqe): (f: Effect)
    requires cfg.ps > 0
    ensures Executable(cfg, s.mem, e, f) && (Pages(cfg, s.mem, e).Some? ==> f.ok)
  {
    if Pages(cfg, s.mem, e).Some? then Effect(true, [], s.disk) else Effect(false, seq(Nlb(e) * cfg.bs, _ => 0), s.disk)
  }

  /** What can be done next, closest to a result first. */
  function Onward(cfg: Config, s: Sys): (st: Step)
    requires Shape(cfg, s) && Count(s) > 0
    ensures Enabled(cfg, s, st) && (forall r :: Accepts(cfg, s, st, r) == 0) && (Outside(st) || st.DoHarvest? || st.Publish?) && !st.ClientStore?
  {
    if s.posted != [] then DoHarvest
    else if s.done != [] then DoPost(0)
    else if s.fetched != [] then DoExecute(0, ResponseTo(cfg, s, s.fetched[0]))
    else if s.published != [] then DoFetch
    else Publish
  }

  lemma OnwardCloser(cfg: Config, s: Sys)
    requires Shape(cfg, s) && Count(s) > 0
    ensures Distance(Next(cfg, s, Onward(cfg, s))) < Distance(s)
  {
    hide Shape, MemAfter, DiskAfter, Executable, BounceOut, ResponseTo;
  }

  /** From every matched state there is a way on, without any new submission, to a state in which every
    * slot is free and each request that had a slot has had its own one result.  On this way no memory
    * changes that is nobody's target. */
  lemma {:induction false} CanFinish(cfg: Config, s: Sys, x: seq<nat>, all: bool) returns (steps: seq<Step>, s': Sys)
    requires Shape(cfg, s) && Matched(s)
    ensures Run(cfg, s, steps, s', false) && |steps| <= Distance(s)
    ensures Shape(cfg, s') && Count(s') == 0 && forall k :: 0 <= k < MAX_INFLIGHT ==> s'.slots[k].Free?
    ensures s.outcomes <= s'.outcomes && forall r :: Reported(s'.outcomes, r) == Reported(s.outcomes, r) + InSlots(s.slots, r)
    ensures Good(cfg, s, x, all) ==> Left(cfg, s, s', x, all)
    decreases Distance(s)
  {
    hide *;
    if Count(s) == 0 {
      steps, s' := [], s;
      NobodyWaits(cfg, s);
      forall r ensures InSlots(s.slots, r) == 0 { NoneInSlots(s.slots, r); }
      NoSteps(cfg, s);
      if Good(cfg, s, x, all) { LeftSame(cfg, s, x, all); }
    } else {
      var st := Onward(cfg, s);
      var s1 := Next(cfg, s, st);
      OnwardCloser(cfg, s);
      OnwardKeeps(cfg, s);
      if Good(cfg, s, x, all) {
        OnwardLeft(cfg, s, x, all);
        LeftGood(cfg, s, s1, x, all);
      }
      var rest;
      rest, s' := CanFinish(cfg, s1, x, all);
      steps := [st] + rest;
      OneStep(cfg, s, st);
      RunAppend(cfg, s, [st], s1, rest, s', false);
      if Good(cfg, s, x, all) { LeftThen(cfg, s, s1, s', x, all); }
    }
  }

  lemma NoSteps(cfg: Config, s: Sys)
    requires Shape(cfg, s)
    ensures Run(cfg, s, [], s, false)
  {
    hide Shape;
  }

  lemma OnwardKeeps(cfg: Config, s: Sys)
    requires Shape(cfg, s) && Matched(s) && Count(s) > 0
    ensures var st := Onward(cfg, s);
      var s1 := Next(cfg, s, st);
      && !st.Timeout? && Matched(s1) && s.outcomes <= s1.outcomes
      && forall r :: Reported(s1.outcomes, r) + InSlots(s1.slots, r) == Reported(s.outcomes, r) + InSlots(s.slots, r)
  {
    hide Shape, Matched, Enabled, Next, Accepts, Reported, InSlots;
    StepMatched(cfg, s, Onward(cfg, s));
    var st := Onward(cfg, s);
    var s1 := Next(cfg, s, st);
    forall r
      ensures Reported(s1.outcomes, r) + InSlots(s1.slots, r) == Reported(s.outcomes, r) + InSlots(s.slots, r) && s.outcomes <= s1.outcomes
    {
      StepBooks(cfg, s, st, r);
    }
    StepBooks(cfg, s, st, Request(0, CMD_FLUSH, 0, 0, 0, 0, [], []));
  }

  lemma OnwardLeft(cfg: Config, s: Sys, x: seq<nat>, all: bool)
    requires Shape(cfg, s) && Count(s) > 0 && Good(cfg, s, x, all)
    ensures Left(cfg, s, Next(cfg, s, Onward(cfg, s)), x, all)
  {
    hide Shape, Enabled, Good, Left, HarvestOne, Next;
    var st := Onward(cfg, s);
    if st.DoHarvest? {
      OnwardHarvest(cfg, s);
      HarvestOneLeaves(cfg, s, x, all);
    } else if st.Publish? {
      OnwardPublish(cfg, s);
      RingLeft(cfg, s, x, all);
    } else {
      OnwardHappens(cfg, s);
      HappenLeaves(cfg, s, st, x, all);
    }
  }

  lemma OnwardHarvest(cfg: Config, s: Sys)
    requires Shape(cfg, s) && Count(s) > 0 && Onward(cfg, s).DoHarvest?
    ensures s.posted != [] && Next(cfg, s, Onward(cfg, s)) == HarvestOne(cfg, s)
  {
    hide Shape, HarvestOne;
  }

  lemma OnwardPublish(cfg: Config, s: Sys)
    requires Shape(cfg, s) && Count(s) > 0 && Onward(cfg, s).Publish?
    ensures Next(cfg, s, Onward(cfg, s)) == RingSQ(s)
  {
    hide Shape;
  }

  lemma OnwardHappens(cfg: Config, s: Sys)
    requires Shape(cfg, s) && Count(s) > 0 && Outside(Onward(cfg, s))
    ensures Next(cfg, s, Onward(cfg, s)) == Happen(cfg, s, Onward(cfg, s))
  {
    hide Shape, Next, Enabled;
  }

  lemma NobodyWaits(cfg: Config, s: Sys)
    requires Shape(cfg, s) && Matched(s) && Count(s) == 0
    ensures |s.slots| == MAX_INFLIGHT && forall k :: 0 <= k < MAX_INFLIGHT ==> s.slots[k].Free?
  {
    forall k | 0 <= k < MAX_INFLIGHT
      ensures s.slots[k].Free?
    {
      OccupiedAt(s.slots, k + 1);
    }
  }

  // ----- A good request does succeed -----------------------------------------------------

  /** A request the driver takes: block-aligned and not empty, with a buffer, within the transfer cap. */
  predicate Acceptable(cfg: Config, r: Request)
    requires cfg.ps > 0 && cfg.bs > 0
  {
    && Validate(Offset(r), r.length, r.data != 0, cfg.bs).Transfer?
    && r.length <= 0x20_0000 && r.sg != [] && Rem(r.data, cfg.ps) == Rem(r.sg[0].phys, cfg.ps)
  }

  /** And one that the controller can decode: its buffer is dword-aligned unless it fits the bounce buffer. */
  predicate Serviceable(cfg: Config, r: Request)
    requires cfg.ps > 0 && cfg.bs > 0
  {
    Acceptable(cfg, r) && (r.length <= BOUNCE_SIZE || r.data % 4 == 0)
  }

  const WILLING := DmaEnv(false, false)

  lemma AcceptableIsSubmitted(cfg: Config, s: Sys, r: Request, w: bool)
    requires Shape(cfg, s) && Described(cfg, r) && Acceptable(cfg, r) && FindFree(s.slots).Some?
    ensures r.length > 0 && SubmitNoRing(cfg, s, r, w, WILLING).0 == Submitted
  {
    ValidateExact(Offset(r), r.length, r.data != 0, cfg.bs);
    var k, v := FindFree(s.slots).value, Validate(Offset(r), r.length, r.data != 0, cfg.bs);
    hide Direct, Bounce, WellFormed, Total, BounceIn;
    if UseBounce(r.length, r.data, cfg.ps) {
      BouncePreservesMeaning(BounceIn(cfg, s.mem, k, r, w), cfg.bounce[k], r.length, cfg.ps, cfg.list[k]);
    } else {
      ListPageSuffices(r.sg, cfg.ps, s.mem, cfg.list[k]);
    }
  }

  /** The one command under way, up to its completion. */
  lemma Carry(cfg: Config, s: Sys, e: Sqe) returns (steps: seq<Step>, s': Sys)
    requires Shape(cfg, s) && s.unpublished == [e] && Count(s) == 1 && Pages(cfg, s.mem, e).Some?
    ensures Run(cfg, s, steps, s', false) && Shape(cfg, s')
    ensures Count(s') == 1 && |s'.posted| == 1 && s'.posted[0].cid == e.cid && s'.posted[0].ok
    ensures s'.slots == s.slots && s'.outcomes == s.outcomes
  {
    var f := Effect(true, [], s.disk);
    var s2 := Fetch(RingSQ(s));
    CanExecute(cfg, s2, e, f);
    var s3 := Execute(cfg, s2, 0, f);
    s' := Post(s3, 0);
    hide MemAfter, DiskAfter, Layout, Described, Executable;
    OneStep(cfg, s, Publish);
    OneStep(cfg, RingSQ(s), DoFetch);
    OneStep(cfg, s2, DoExecute(0, f));
    OneStep(cfg, s3, DoPost(0));
    RunAppend(cfg, s2, [DoExecute(0, f)], s3, [DoPost(0)], s', false);
    RunAppend(cfg, RingSQ(s), [DoFetch], s2, [DoExecute(0, f)] + [DoPost(0)], s', false);
    steps := [Publish] + ([DoFetch] + ([DoExecute(0, f)] + [DoPost(0)]));
    RunAppend(cfg, s, [Publish], RingSQ(s), [DoFetch] + ([DoExecute(0, f)] + [DoPost(0)]), s', false);
  }

  lemma CanExecute(cfg: Config, s: Sys, e: Sqe, f: Effect)
    requires Shape(cfg, s) && s.fetched == [e] && Pages(cfg, s.mem, e).Some? && f.ok
    ensures cfg.ps > 0 && Executable(cfg, s.mem, s.fetched[0], f)
  {
    hide Pages;
  }

  /** Its harvest. */
  lemma Bring(cfg: Config, s: Sys, k: nat)
    requires Shape(cfg, s) && k < MAX_INFLIGHT && s.slots[k].Busy? && Count(s) == |s.posted| == 1
    requires s.posted[0].cid == k + 1 && s.posted[0].ok
    ensures var s' := HarvestOne(cfg, s);
      && Run(cfg, s, [DoHarvest], s', false) && Count(s') == 0 && s'.slots == s.slots[k := Free]
      && |s'.outcomes| == |s.outcomes| + 1 && s'.outcomes[..|s.outcomes|] == s.outcomes
      && var o, b := s'.outcomes[|s.outcomes|], s.slots[k];
      o.ok && o.req == b.req && o.isWrite == b.isWrite && o.path == b.path && o.replied == !b.suppress
  {
    OneStep(cfg, s, DoHarvest);
    hide BounceOut, WellFormed, Total, Layout, Described, Run;
  }

  /** With nothing under way, a good request is carried through at once. */
  lemma ServedAtOnce(cfg: Config, s: Sys, r: Request, w: bool) returns (steps: seq<Step>, s': Sys)
    requires Shape(cfg, s) && DataInv(cfg, s) && Count(s) == 0 && ClientBuffer(cfg, s, r, w) && Serviceable(cfg, r)
    ensures Run(cfg, s, steps, s', false) && Shape(cfg, s') && Count(s') == 0 && s'.slots == s.slots
    ensures |s'.outcomes| == |s.outcomes| + 1 && s'.outcomes[..|s.outcomes|] == s.outcomes
    ensures var o := s'.outcomes[|s.outcomes|]; o.ok && o.replied && o.req == r && o.isWrite == w && !o.path.NoData?
  {
    hide *;
    SubmitEnabled(cfg, s, r, w);
    var k, e := Begun(cfg, s, r, w);
    var s1 := SubmitNoRing(cfg, s, r, w, WILLING).1;
    var carrying, s2 := Carry(cfg, s1, e);
    Bring(cfg, s2, k);
    s' := HarvestOne(cfg, s2);
    RunAppend(cfg, s1, carrying, s2, [DoHarvest], s', false);
    var first := DoSubmit(r, w, WILLING);
    OneStep(cfg, s, first);
    RunAppend(cfg, s, [first], s1, carrying + [DoHarvest], s', false);
    steps := [first] + (carrying + [DoHarvest]);
  }

  /** From every state that a run can lead to, a good request on a client's buffer can be carried
    * through: there is a run that ends with all slots free, with the one result of each request that
    * was under way, and last with this request's own -- replied, successful and faithful. */
  lemma ServiceableSucceeds(cfg: Config, s: Sys, r: Request, w: bool) returns (steps: seq<Step>, s': Sys)
    requires Shape(cfg, s) && Disjoint(cfg) && DataInv(cfg, s) && AllFaithful(s)
    requires ClientBuffer(cfg, s, r, w) && Serviceable(cfg, r)
    ensures Run(cfg, s, steps, s', false) && Count(s') == 0 && |s'.outcomes| > 0
    ensures forall q :: Reported(s'.outcomes, q) == Reported(s.outcomes, q) + InSlots(s.slots, q) + Is(r, q)
    ensures var o := s'.outcomes[|s'.outcomes| - 1];
      o.ok && o.replied && o.req == r && o.isWrite == w && !o.path.NoData? && Faithful(o)
  {
    hide *;
    ServiceableIs(cfg, s, r, w);
    BufferGood(cfg, s, r, w);
    var first, s1 := CanFinish(cfg, s, Denotes(r.sg), !w);
    LeftGood(cfg, s, s1, Denotes(r.sg), !w);
    ReadyStays(cfg, s, s1, r, w);
    ReadyBuffer(cfg, s1, r, w);
    GoodParts(cfg, s1, Denotes(r.sg), !w);
    var last;
    last, s' := ServedAtOnce(cfg, s1, r, w);
    steps := first + last;
    RunAppend(cfg, s, first, s1, last, s', false);
    RunFaithful(cfg, s, steps, s');
    LastFaithful(s');
    assert s'.outcomes == s1.outcomes + [s'.outcomes[|s1.outcomes|]];
    forall q
      ensures Reported(s'.outcomes, q) == Reported(s1.outcomes, q) + Is(r, q)
    {
      ReportedMore(s1.outcomes, s'.outcomes[|s1.outcomes|], q);
    }
  }

  lemma ServiceableIs(cfg: Config, s: Sys, r: Request, w: bool)
    requires Shape(cfg, s) && DataInv(cfg, s) && Serviceable(cfg, r)
    ensures Matched(s) && r.length > 0
  {
    ValidateExact(Offset(r), r.length, r.data != 0, cfg.bs);
    hide Matched, Shape;
  }

  lemma BufferGood(cfg: Config, s: Sys, r: Request, w: bool)
    requires Shape(cfg, s) && Disjoint(cfg) && DataInv(cfg, s) && AllFaithful(s) && ClientBuffer(cfg, s, r, w) && r.length > 0
    ensures Good(cfg, s, Denotes(r.sg), !w) && Ready(cfg, s, r, w)
  {
    NothingGood(cfg, s);
    hide *;
    Sessions.BufferReady(cfg, s, r, w);
    ReadyGood(cfg, s, r, w);
  }

  lemma NothingGood(cfg: Config, s: Sys)
    requires Shape(cfg, s) && Disjoint(cfg) && DataInv(cfg, s) && AllFaithful(s)
    ensures Good(cfg, s, [], false)
  {
    NoneSafe(cfg, s.slots);
    hide DataInv, AllFaithful, Disjoint, Safe;
  }

  lemma LastFaithful(s: Sys)
    requires AllFaithful(s) && s.outcomes != []
    ensures Faithful(s.outcomes[|s.outcomes| - 1])
  {
    hide Faithful;
  }

  lemma SubmitEnabled(cfg: Config, s: Sys, r: Request, w: bool)
    requires Shape(cfg, s) && ClientBuffer(cfg, s, r, w)
    ensures var st := DoSubmit(r, w, WILLING);
      Described(cfg, r) && Enabled(cfg, s, st) && Next(cfg, s, st) == SubmitNoRing(cfg, s, r, w, WILLING).1
  {
    hide SubmitNoRing;
  }

  /** The state after the submission. */
  lemma Begun(cfg: Config, s: Sys, r: Request, w: bool) returns (k: nat, e: Sqe)
    requires Shape(cfg, s) && DataInv(cfg, s) && Count(s) == 0 && ClientBuffer(cfg, s, r, w) && Serviceable(cfg, r)
    ensures Described(cfg, r) && k < MAX_INFLIGHT == |s.slots|
    ensures var s1 := SubmitNoRing(cfg, s, r, w, WILLING).1;
      && Shape(cfg, s1) && |s1.slots| == MAX_INFLIGHT
      && s1.unpublished == [e] && Count(s1) == 1 && e.cid == k + 1 && Pages(cfg, s1.mem, e).Some?
      && s1.outcomes == s.outcomes && s.slots[k] == Free && s1.slots == s.slots[k := s1.slots[k]]
      && s1.slots[k].Busy? && !s1.slots[k].path.NoData? && s1.slots[k].req == r && s1.slots[k].isWrite == w && !s1.slots[k].suppress
  {
    assert Described(cfg, r) && Layout(cfg) && Matched(s);
    NobodyWaits(cfg, s);
    AcceptableIsSubmitted(cfg, s, r, w);
    SubmittedDecodes(cfg, s, r, w, WILLING);
    SubmitPlaces(cfg, s, r, w, WILLING);
    Dispatch.SubmitSlot(cfg, s, r, w, WILLING);
    var s1 := SubmitNoRing(cfg, s, r, w, WILLING).1;
    k, e := FindFree(s.slots).value, s1.unpublished[0];
    hide SubmitNoRing, DataInv, Serviceable, ClientBuffer, Matched, Shape, Pages, FindFree;
  }

  /** Such a start exists: sixteen bounce buffers from 1 MiB on, sixteen list pages from 3 MiB on. */
  function SomeConfig(): Config {
    Config(4096, 512,
           seq(MAX_INFLIGHT, i requires 0 <= i < MAX_INFLIGHT => 4096 * (256 + 16 * i)),
           seq(MAX_INFLIGHT, i requires 0 <= i < MAX_INFLIGHT => 4096 * (768 + i)),
           seq(MAX_INFLIGHT, _ => false), 0)
  }

  lemma SomeStart(mem: Mem, disk: Mem)
    ensures var cfg := SomeConfig();
      && Layout(cfg) && Disjoint(cfg) && Shape(cfg, Init(mem, disk))
      && DataInv(cfg, Init(mem, disk)) && AllFaithful(Init(mem, disk)) && Count(Init(mem, disk)) == 0
  {
    var cfg := SomeConfig();
    forall i | 0 <= i < MAX_INFLIGHT
      ensures Aligned(cfg.bounce[i], 4096) && Aligned(cfg.list[i], 4096)
    {
      PageAligned(256 + 16 * i);
      PageAligned(768 + i);
    }
    InitMatched(mem, disk);
  }

  /** Above 4 MiB nothing is the driver's there. */
  lemma SomeApart(a: nat)
    requires a >= 0x40_0000 && Layout(SomeConfig())
    ensures !DriverOwned(SomeConfig(), a)
  {
  }

  lemma PageAligned(i: nat)
    ensures Aligned(4096 * i, 4096)
  {
    Builtin(4096 * i, 4096);
  }
}
