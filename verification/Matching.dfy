/** Every occupied slot has exactly one command under way, and it carries the slot's cid.
  *
  * This is what makes `cid - 1` a safe index in Harvest, and what bounds both rings. */
module Matching {
  import opened Base
  import opened Commands
  import opened Memory
  import opened Prp
  import opened Pipeline

  function SqeCids(q: seq<Sqe>): seq<nat> {
    seq(|q|, i requires 0 <= i < |q| => q[i].cid)
  }

  function CqeCids(q: seq<Cqe>): seq<nat> {
    seq(|q|, i requires 0 <= i < |q| => q[i].cid)
  }

  /** The cids of all commands submitted and not yet harvested, wherever they are. */
  function Outstanding(s: Sys): multiset<nat> {
    multiset(SqeCids(s.unpublished)) + multiset(SqeCids(s.published)) + multiset(SqeCids(s.fetched))
      + multiset(CqeCids(s.done)) + multiset(CqeCids(s.posted))
  }

  /** The cids of the occupied slots. */
  function Occupied(slots: seq<Slot>): multiset<nat> {
    if slots == [] then multiset{}
    else
      var n := |slots|;
      Occupied(slots[..n - 1]) + if slots[n - 1].Busy? then multiset{n} else multiset{}
  }

  /** One command per occupied slot, none for a free one, none with any other cid. */
  predicate Matched(s: Sys) {
    Outstanding(s) == Occupied(s.slots)
  }

  function Count(s: Sys): nat {
    |s.unpublished| + |s.published| + |s.fetched| + |s.done| + |s.posted|
  }

  // ----- Occupied slots ------------------------------------------------------------------

  /** A cid is occupied once, by its own slot, or not at all. */
  lemma {:induction false} OccupiedAt(slots: seq<Slot>, cid: nat)
    ensures Occupied(slots)[cid] == if 1 <= cid <= |slots| && slots[cid - 1].Busy? then 1 else 0
  {
    if slots != [] {
      OccupiedAt(slots[..|slots| - 1], cid);
    }
  }

  lemma OccupiedTake(slots: seq<Slot>, k: nat, b: Slot)
    requires k < |slots| && slots[k].Free? && b.Busy?
    ensures Occupied(slots[k := b]) == Occupied(slots) + multiset{k + 1}
  {
    var taken, want := Occupied(slots[k := b]), Occupied(slots) + multiset{k + 1};
    forall cid: nat
      ensures taken[cid] == want[cid]
    {
      OccupiedAt(slots, cid);
      OccupiedAt(slots[k := b], cid);
    }
  }

  lemma OccupiedReplace(slots: seq<Slot>, k: nat, b: Slot)
    requires k < |slots| && slots[k].Busy? && b.Busy?
    ensures Occupied(slots[k := b]) == Occupied(slots)
  {
    forall cid: nat
      ensures Occupied(slots[k := b])[cid] == Occupied(slots)[cid]
    {
      OccupiedAt(slots, cid);
      OccupiedAt(slots[k := b], cid);
    }
  }

  lemma {:induction false} OccupiedSize(slots: seq<Slot>)
    ensures |Occupied(slots)| <= |slots|
  {
    if slots != [] {
      OccupiedSize(slots[..|slots| - 1]);
    }
  }

  // ----- Moving commands between queues --------------------------------------------------

  lemma SqeAppend(a: seq<Sqe>, b: seq<Sqe>)
    ensures multiset(SqeCids(a + b)) == multiset(SqeCids(a)) + multiset(SqeCids(b))
  {
    assert SqeCids(a + b) == SqeCids(a) + SqeCids(b);
  }

  lemma SqeSplit(q: seq<Sqe>, i: nat)
    requires i < |q|
    ensures multiset(SqeCids(q)) == multiset(SqeCids(RemoveAt(q, i))) + multiset{q[i].cid}
  {
    assert q == q[..i] + ([q[i]] + q[i + 1..]);
    SqeAppend(q[..i], [q[i]] + q[i + 1..]);
    SqeAppend([q[i]], q[i + 1..]);
    SqeAppend(q[..i], q[i + 1..]);
    assert SqeCids([q[i]]) == [q[i].cid];
  }

  lemma CqeAppend(a: seq<Cqe>, b: seq<Cqe>)
    ensures multiset(CqeCids(a + b)) == multiset(CqeCids(a)) + multiset(CqeCids(b))
  {
    assert CqeCids(a + b) == CqeCids(a) + CqeCids(b);
  }

  lemma CqeSplit(q: seq<Cqe>, i: nat)
    requires i < |q|
    ensures multiset(CqeCids(q)) == multiset(CqeCids(RemoveAt(q, i))) + multiset{q[i].cid}
  {
    assert q == q[..i] + ([q[i]] + q[i + 1..]);
    CqeAppend(q[..i], [q[i]] + q[i + 1..]);
    CqeAppend([q[i]], q[i + 1..]);
    CqeAppend(q[..i], q[i + 1..]);
    assert CqeCids([q[i]]) == [q[i].cid];
  }

  lemma PlaceMatched(s: Sys, k: nat, b: Slot, e: Sqe)
    requires Matched(s) && k < |s.slots| && s.slots[k].Free? && b.Busy? && e.cid == k + 1
    ensures Matched(Place(s, k, b, e))
  {
    hide Occupied;
    OccupiedTake(s.slots, k, b);
    SqeAppend(s.unpublished, [e]);
    assert SqeCids([e]) == [e.cid];
  }

  /** The CQE at the head of the CQ belongs to an occupied slot, and to no other command. */
  lemma HeadIsMatched(s: Sys)
    requires Matched(s) && s.posted != []
    ensures var cid := s.posted[0].cid;
      1 <= cid <= |s.slots| && s.slots[cid - 1].Busy? && Outstanding(s)[cid] == 1
  {
    CqeSplit(s.posted, 0);
    OccupiedAt(s.slots, s.posted[0].cid);
  }

  lemma Cancel(a: multiset<nat>, b: multiset<nat>, x: nat)
    requires a + multiset{x} == b + multiset{x}
    ensures a == b
  {
    assert a == (a + multiset{x}) - multiset{x};
  }

  lemma FreeMatched(s: Sys, s': Sys, k: nat)
    requires Matched(s) && s.posted != [] && k < |s.slots| && s.slots[k].Busy? && s.posted[0].cid == k + 1
    requires s'.slots == s.slots[k := Free] && s'.posted == s.posted[1..]
    requires s'.unpublished == s.unpublished && s'.published == s.published && s'.fetched == s.fetched && s'.done == s.done
    ensures Matched(s')
  {
    hide Occupied;
    CqeSplit(s.posted, 0);
    assert RemoveAt(s.posted, 0) == s.posted[1..];
    OccupiedTake(s'.slots, k, s.slots[k]);
    assert s'.slots[k := s.slots[k]] == s.slots;
    assert Outstanding(s) == Outstanding(s') + multiset{k + 1};
    Cancel(Outstanding(s'), Occupied(s'.slots), k + 1);
  }

  // ----- The invariant over runs ---------------------------------------------------------

  /** All that SubmitNoRing does to slots and queues. */
  predicate Places(s: Sys, s': Sys, rc: Rc) {
    var t := s.(mem := s'.mem, pins := s'.pins, heapLists := s'.heapLists);
    if rc == Submitted then
      FindFree(s.slots).Some?
      && var k := FindFree(s.slots).value;
         |s'.slots| == |s.slots| && s'.slots[k].Busy? && |s'.unpublished| == |s.unpublished| + 1
         && s'.unpublished[|s.unpublished|].cid == k + 1
         && s' == Place(t, k, s'.slots[k], s'.unpublished[|s.unpublished|])
    else s' == t
  }

  lemma SubmitPlaces(cfg: Config, s: Sys, r: Request, w: bool, env: DmaEnv)
    requires Shape(cfg, s) && Described(cfg, r)
    ensures var (rc, s') := SubmitNoRing(cfg, s, r, w, env); Places(s, s', rc)
  {
    hide SubmitBounced, SubmitMapped, WellFormed, Total;
    var free := FindFree(s.slots);
    if free.Some? {
      var v := Validate(Offset(r), r.length, r.data != 0, cfg.bs);
      if v.Transfer? {
        ValidateExact(Offset(r), r.length, r.data != 0, cfg.bs);
        if UseBounce(r.length, r.data, cfg.ps) {
          BouncedPlaces(cfg, s, free.value, r, w, v.lba, v.nlb);
        } else {
          MappedPlaces(cfg, s, free.value, r, w, v.lba, v.nlb, env);
        }
      }
    }
  }

  lemma BouncedPlaces(cfg: Config, s: Sys, k: nat, r: Request, w: bool, lba: nat, nlb: nat)
    requires Shape(cfg, s) && FindFree(s.slots) == Some(k) && Described(cfg, r) && 0 < r.length <= BOUNCE_SIZE
    requires lba < TWO64 && 1 <= nlb <= 0x1_0000
    ensures var (rc, s') := SubmitBounced(cfg, s, k, r, w, lba, nlb); Places(s, s', rc)
  {
    hide Bounce, WellFormed, Total, BounceIn;
  }

  lemma MappedPlaces(cfg: Config, s: Sys, k: nat, r: Request, w: bool, lba: nat, nlb: nat, env: DmaEnv)
    requires Shape(cfg, s) && FindFree(s.slots) == Some(k) && Described(cfg, r) && 0 < r.length
    requires lba < TWO64 && 1 <= nlb <= 0x1_0000
    ensures var (rc, s') := SubmitMapped(cfg, s, k, r, w, lba, nlb, env); Places(s, s', rc)
  {
    hide Direct, WellFormed, Total;
  }

  lemma SameQueues(s: Sys, t: Sys)
    requires Matched(s) && t.slots == s.slots
    requires t.unpublished == s.unpublished && t.published == s.published && t.fetched == s.fetched
    requires t.done == s.done && t.posted == s.posted
    ensures Matched(t)
  {
  }

  lemma SubmitMatched(cfg: Config, s: Sys, r: Request, w: bool, env: DmaEnv)
    requires Shape(cfg, s) && Described(cfg, r) && Matched(s)
    ensures Matched(SubmitNoRing(cfg, s, r, w, env).1)
  {
    SubmitPlaces(cfg, s, r, w, env);
    hide SubmitNoRing, Matched;
    var (rc, s') := SubmitNoRing(cfg, s, r, w, env);
    var t := s.(mem := s'.mem, pins := s'.pins, heapLists := s'.heapLists);
    SameQueues(s, t);
    if rc == Submitted {
      var k := FindFree(s.slots).value;
      PlaceMatched(t, k, s'.slots[k], s'.unpublished[|s.unpublished|]);
    }
  }

  lemma ControlMatched(s: Sys, r: Request, sqe: Sqe, sup: bool)
    requires Dataless(sqe) && Matched(s)
    ensures Matched(SubmitControl(s, r, sqe, sup).1)
  {
    hide Matched;
    var s' := SubmitControl(s, r, sqe, sup).1;
    if FindFree(s.slots).Some? {
      var k := FindFree(s.slots).value;
      PlaceMatched(s, k, s'.slots[k], s'.unpublished[|s.unpublished|]);
    }
  }

  lemma FetchMatched(s: Sys)
    requires Matched(s) && s.published != []
    ensures Matched(Fetch(s))
  {
    hide Occupied;
    SqeSplit(s.published, 0);
    assert RemoveAt(s.published, 0) == s.published[1..];
    SqeAppend(s.fetched, [s.published[0]]);
    assert SqeCids([s.published[0]]) == [s.published[0].cid];
  }

  lemma ExecuteMatched(cfg: Config, s: Sys, i: nat, f: Effect)
    requires cfg.ps > 0 && i < |s.fetched| && Executable(cfg, s.mem, s.fetched[i], f) && Matched(s)
    ensures Matched(Execute(cfg, s, i, f))
  {
    hide Occupied, MemAfter, DiskAfter;
    SqeSplit(s.fetched, i);
    var c := Cqe(s.fetched[i].cid, f.ok, s.disk, DiskAfter(cfg, s.mem, s.disk, s.fetched[i], f));
    CqeAppend(s.done, [c]);
    assert CqeCids([c]) == [c.cid];
  }

  lemma PostMatched(s: Sys, i: nat)
    requires Matched(s) && i < |s.done|
    ensures Matched(Post(s, i))
  {
    hide Occupied;
    CqeSplit(s.done, i);
    CqeAppend(s.posted, [s.done[i]]);
    assert CqeCids([s.done[i]]) == [s.done[i].cid];
  }

  lemma PublishMatched(s: Sys)
    requires Matched(s)
    ensures Matched(RingSQ(s))
  {
    hide Occupied;
    SqeAppend(s.published, s.unpublished);
    assert SqeCids([]) == [];
  }

  lemma HarvestMatched(cfg: Config, s: Sys)
    requires Shape(cfg, s) && s.posted != [] && Matched(s)
    ensures Matched(HarvestOne(cfg, s))
  {
    HeadIsMatched(s);
    hide Matched, BounceOut;
    FreeMatched(s, HarvestOne(cfg, s), s.posted[0].cid - 1);
  }

  /** Every step but a timeout keeps the matching. */
  lemma StepMatched(cfg: Config, s: Sys, st: Step)
    requires Shape(cfg, s) && Enabled(cfg, s, st) && !st.Timeout? && Matched(s)
    ensures Matched(Next(cfg, s, st))
  {
    hide SubmitNoRing, SubmitControl, Execute, HarvestOne, Fetch, Post, RingSQ, Occupied, SqeCids, CqeCids, Executable;
    match st
    case DoSubmit(r, w, env) => SubmitMatched(cfg, s, r, w, env);
    case Control(r, sqe, sup) => ControlMatched(s, r, sqe, sup);
    case Suppress(k) => OccupiedReplace(s.slots, k, s.slots[k].(suppress := true));
    case Publish => PublishMatched(s);
    case DoFetch => FetchMatched(s);
    case DoExecute(i, f) => ExecuteMatched(cfg, s, i, f);
    case DoPost(i) => PostMatched(s, i);
    case DoHarvest => HarvestMatched(cfg, s);
    case ClientStore(_, _) =>
  }

  lemma {:induction false} AllFree(slots: seq<Slot>)
    requires forall i :: 0 <= i < |slots| ==> slots[i].Free?
    ensures Occupied(slots) == multiset{}
  {
    if slots != [] { AllFree(slots[..|slots| - 1]); }
  }

  lemma InitMatched(mem: Mem, disk: Mem)
    ensures Matched(Init(mem, disk))
  {
    AllFree(Init(mem, disk).slots);
    assert SqeCids([]) == [] && CqeCids([]) == [];
  }

  /** Slot/cid matching, over every timeout-free run of any length, with any interleaving of
    * submission, publication, fetching, out-of-order completion and harvesting. */
  lemma {:induction false} MatchedAlways(cfg: Config, s0: Sys, steps: seq<Step>, s: Sys)
    requires Shape(cfg, s0) && Matched(s0) && Run(cfg, s0, steps, s, false)
    ensures Shape(cfg, s) && Matched(s)
    decreases |steps|
  {
    if steps != [] {
      StepMatched(cfg, s0, steps[0]);
      MatchedAlways(cfg, Next(cfg, s0, steps[0]), steps[1..], s);
    }
  }

  /** Harvest completes the right request: the head CQE's slot is occupied (so the unmatched-cid
    * branch is not taken), and no other command under way carries the same cid. */
  lemma HarvestFindsItsRequest(cfg: Config, mem: Mem, disk: Mem, steps: seq<Step>, s: Sys)
    requires Layout(cfg) && Run(cfg, Init(mem, disk), steps, s, false) && s.posted != []
    ensures Shape(cfg, s)
    ensures var cid, s' := s.posted[0].cid, HarvestOne(cfg, s);
      && 1 <= cid <= MAX_INFLIGHT && s.slots[cid - 1].Busy? && Outstanding(s)[cid] == 1
      && s'.slots == s.slots[cid - 1 := Free]
      && |s'.outcomes| == |s.outcomes| + 1 && s'.outcomes[|s.outcomes|].req == s.slots[cid - 1].req
  {
    hide Run, Outstanding, Occupied, Described;
    InitMatched(mem, disk);
    MatchedAlways(cfg, Init(mem, disk), steps, s);
    HeadIsMatched(s);
  }

  // ----- Occupancy -----------------------------------------------------------------------

  /** At most sixteen commands are under way, and at most fifteen while a slot is free. */
  lemma Occupancy(s: Sys)
    requires Matched(s) && |s.slots| == MAX_INFLIGHT
    ensures Count(s) <= MAX_INFLIGHT
    ensures FindFree(s.slots).Some? ==> Count(s) < MAX_INFLIGHT
  {
    hide Occupied;
    assert |Outstanding(s)| == Count(s);
    OccupiedSize(s.slots);
    var f := FindFree(s.slots);
    if f.Some? {
      var b := Busy(Request(0, CMD_FLUSH, 0, 0, 0, 0, [], []), false, NoData, false);
      OccupiedTake(s.slots, f.value, b);
      OccupiedSize(s.slots[f.value := b]);
    }
  }

  /** Ring safety: with the depth InitNVMe insists on, in every reachable state the SQ holds fewer
    * than depth entries even after one more submission, and the CQ has room for every command
    * that can still complete; so no SQE is overwritten before it is fetched and no completion is
    * ever held back. */
  lemma RingsNeverFull(cfg: Config, mem: Mem, disk: Mem, steps: seq<Step>, s: Sys, depth: nat)
    requires Layout(cfg) && Run(cfg, Init(mem, disk), steps, s, false) && depth > MAX_INFLIGHT
    ensures |s.unpublished| + |s.published| <= depth - 1
    ensures FindFree(s.slots).Some? ==> |s.unpublished| + |s.published| < depth - 1
    ensures s.done != [] ==> |s.posted| < depth - 1
  {
    InitMatched(mem, disk);
    MatchedAlways(cfg, Init(mem, disk), steps, s);
    Occupancy(s);
  }

  /** InitNVMe: the I/O queue depth is 64, or what the controller supports if that is less; a
    * controller that leaves no spare entry is rejected. */
  function QueueDepth(mqes: nat): Option<nat> {
    var d := if mqes < IO_QUEUE_DEPTH then mqes else IO_QUEUE_DEPTH;
    if d <= MAX_INFLIGHT then None else Some(d)
  }

  /** Exactly the controllers with more than sixteen entries are accepted, with a depth they support; and
    * on rings of that depth no run, with whatever interleaving, overwrites an SQE that has not been
    * fetched or holds a completion back. */
  lemma AcceptedDepthIsSafe(mqes: nat, cfg: Config, mem: Mem, disk: Mem, steps: seq<Step>, s: Sys)
    requires Layout(cfg) && Run(cfg, Init(mem, disk), steps, s, false)
    ensures QueueDepth(mqes).Some? <==> mqes > MAX_INFLIGHT
    ensures QueueDepth(mqes).Some? ==>
      var depth := QueueDepth(mqes).value;
      && depth <= mqes && depth <= IO_QUEUE_DEPTH
      && (FindFree(s.slots).Some? ==> |s.unpublished| + |s.published| < depth - 1)
      && (s.done != [] ==> |s.posted| < depth - 1)
  {
    hide Run, FindFree, Layout;
    if QueueDepth(mqes).Some? { RingsNeverFull(cfg, mem, disk, steps, s, QueueDepth(mqes).value); }
  }

  /** A timeout breaks the matching: the slot is free but its command is not gone. */
  lemma TimeoutBreaksMatching(s: Sys, k: nat)
    requires Matched(s) && k < |s.slots| && s.slots[k].Busy?
    ensures !Matched(GiveUp(s, k))
  {
    GiveUpQueues(s, k);
    hide GiveUp, Occupied, Outstanding;
    OccupiedAt(s.slots, k + 1);
    OccupiedAt(GiveUp(s, k).slots, k + 1);
  }

  lemma GiveUpQueues(s: Sys, k: nat)
    requires k < |s.slots| && s.slots[k].Busy?
    ensures GiveUp(s, k).slots == s.slots[k := Free] && Outstanding(GiveUp(s, k)) == Outstanding(s)
  {
    hide SqeCids, CqeCids;
  }
}
