/** Whole sessions of the unit task's event loop: polls and port drains, with everything dispatch_ioreq
  * does in them, waits and chunks included.  As long as nothing times out, every result handed back
  * is faithful. */
module Sessions {
  import opened Base
  import opened Memory
  import opened Prp
  import opened Commands
  import opened Pipeline
  import opened Matching
  import opened EndToEnd
  import opened Waiting
  import opened Chunking
  import opened Dispatch
  import opened ChunkEffects
  import opened Answering
  import opened Drain

  /** One turn of the event loop: without a signal it yields and harvests; woken up, it harvests, drains
    * the port, rings if the tail has moved, and harvests again. */
  datatype Event = Poll(turn: Turn) | Wake(messages: seq<Message>)

  ghost predicate SoundEvent(cfg: Config, e: Event)
    requires cfg.ps > 0
  {
    e.Wake? ==> forall m :: m in e.messages ==> Sound(cfg, m)
  }

  ghost function After(cfg: Config, s: Sys, e: Event, depth: nat): (s': Sys)
    requires Shape(cfg, s) && SoundEvent(cfg, e) && depth > 0
    ensures Shape(cfg, s')
  {
    match e
    case Poll(turn) => Harvest(cfg, Elapse(cfg, s, turn))
    case Wake(ms) =>
      var h := Harvest(cfg, s);
      ShapeSize(cfg, Drained(cfg, h, ms));
      Harvest(cfg, RungIfMoved(h, Drained(cfg, h, ms), depth))
  }

  ghost function AfterAll(cfg: Config, s: Sys, events: seq<Event>, depth: nat): (s': Sys)
    requires Shape(cfg, s) && (forall e :: e in events ==> SoundEvent(cfg, e)) && depth > 0
    ensures Shape(cfg, s')
    decreases |events|
  {
    if events == [] then s else AfterAll(cfg, After(cfg, s, events[0], depth), events[1..], depth)
  }

  // ----- What is asked of clients --------------------------------------------------------

  /** The message's buffer is the client's to pass, and nobody stores into it while the dispatcher waits. */
  ghost predicate Fair(cfg: Config, s: Sys, m: Message)
    requires Shape(cfg, s)
  {
    m.Transfer? ==>
      && ClientBuffer(cfg, s, m.req, m.isWrite)
      && if m.req.length <= m.cap then Quiet(m.env.slotScript, Denotes(m.req.sg))
         else m.cap > 0 && QuietFor(m.envs, Denotes(m.req.sg))
  }

  /** Every message is fair when its turn comes, and none times out. */
  ghost predicate FairDrain(cfg: Config, s: Sys, ms: seq<Message>)
    requires Shape(cfg, s) && forall m :: m in ms ==> Sound(cfg, m)
    decreases |ms|
  {
    ms != [] ==>
      && Fair(cfg, s, ms[0]) && Dispatched(cfg, s, ms[0]).0 != Lost
      && FairDrain(cfg, Dispatched(cfg, s, ms[0]).1, ms[1..])
  }

  ghost predicate FairSession(cfg: Config, s: Sys, events: seq<Event>, depth: nat)
    requires Shape(cfg, s) && (forall e :: e in events ==> SoundEvent(cfg, e)) && depth > 0
    decreases |events|
  {
    events != [] ==>
      && (events[0].Wake? ==> SoundEvent(cfg, events[0]) && FairDrain(cfg, Harvest(cfg, s), events[0].messages))
      && FairSession(cfg, After(cfg, s, events[0], depth), events[1..], depth)
  }

  // ----- What each dispatch keeps --------------------------------------------------------

  lemma NothingSafe(cfg: Config, s: Sys, x: seq<nat>, all: bool)
    requires Good(cfg, s, x, all)
    ensures Good(cfg, s, [], false)
  {
    GoodParts(cfg, s, x, all);
    NoneSafe(cfg, s.slots);
    hide DataInv, AllFaithful, Safe, Disjoint, Shape;
  }

  lemma GoodLeft(cfg: Config, s: Sys, s': Sys, x: seq<nat>, all: bool)
    requires Left(cfg, s, s', x, all)
    ensures Good(cfg, s', [], false)
  {
    hide Good;
    NothingSafe(cfg, s', x, all);
  }

  /** A client's buffer is safe until the request is submitted. */
  lemma BufferReady(cfg: Config, s: Sys, r: Request, w: bool)
    requires Shape(cfg, s) && Good(cfg, s, [], false) && ClientBuffer(cfg, s, r, w) && r.length > 0
    ensures Described(cfg, r) && Ready(cfg, s, r, w) && |Denotes(r.sg)| == r.length
  {
    BufferSafe(cfg, s, r, w);
    hide DataInv, AllFaithful, Disjoint, Safe, DriverOwned, WellFormed;
  }

  lemma BufferSafe(cfg: Config, s: Sys, r: Request, w: bool)
    requires Shape(cfg, s) && ClientBuffer(cfg, s, r, w) && r.length > 0
    ensures Layout(cfg) && Safe(cfg, s.slots, Denotes(r.sg), !w)
  {
    hide DriverOwned, Described, Layout;
    forall j | 0 <= j < |s.slots|
      ensures Avoids(s.slots[j], Denotes(r.sg), !w)
    {
    }
  }

  /** Submitting a client's buffer. */
  lemma SubmitGood(cfg: Config, s: Sys, r: Request, w: bool, env: DmaEnv)
    requires Shape(cfg, s) && Good(cfg, s, [], false) && ClientBuffer(cfg, s, r, w)
    ensures Described(cfg, r) && Good(cfg, SubmitNoRing(cfg, s, r, w, env).1, [], false)
  {
    assert Apart(Denotes(r.sg), []);
    hide *;
    BufferDescribed(cfg, s, r, w);
    GoodParts(cfg, s, [], false);
    SubmitStep(cfg, s, r, w, env);
    SafeOwned(cfg, s.slots, [], false);
    SubmitSafe(cfg, s, r, w, env, [], false);
    SubmitMemory(cfg, s, r, w, env, []);
    var s' := SubmitNoRing(cfg, s, r, w, env).1;
    LeftWhole(cfg, s, s', [], false);
    LeftGood(cfg, s, s', [], false);
  }

  lemma FastPathGood(cfg: Config, s: Sys, r: Request, w: bool, env: ChunkEnv)
    requires Shape(cfg, s) && Good(cfg, s, [], false) && ClientBuffer(cfg, s, r, w) && Quiet(env.slotScript, Denotes(r.sg))
    ensures Described(cfg, r) && Good(cfg, FastPath(cfg, s, r, w, env).1, [], false)
  {
    BufferDescribed(cfg, s, r, w);
    hide Shape, Good, ClientBuffer, SubmitNoRing, AwaitSlot, Quiet, Directed, Described, RingSQ, Left, Ready;
    SubmitGood(cfg, s, r, w, env.dma);
    NoSlotMeans(cfg, s, r, w, env.dma);
    var (rc, s1) := SubmitNoRing(cfg, s, r, w, env.dma);
    if rc == NoSlot {
      NobodyQuiet(env.slotScript);
      WaitLeft(cfg, s, env.slotScript, [], false);
      var (freed, s2) := AwaitSlot(cfg, RingSQ(s), env.slotScript);
      GoodLeft(cfg, s, s2, [], false);
      if freed {
        if r.length > 0 {
          BufferReady(cfg, s, r, w);
          ReadyGood(cfg, s, r, w);
          WaitLeft(cfg, s, env.slotScript, Denotes(r.sg), !w);
          ReadyStays(cfg, s, s2, r, w);
          ReadyBuffer(cfg, s2, r, w);
        } else {
          EmptyBuffer(cfg, s2, r, w);
        }
        SubmitGood(cfg, s2, r, w, env.retry);
      }
    }
  }

  lemma NobodyQuiet(script: seq<Turn>)
    ensures Quiet(script, [])
  {
  }

  lemma EmptyBuffer(cfg: Config, s: Sys, r: Request, w: bool)
    requires Shape(cfg, s) && r.length == 0 && Directed(r, w)
    ensures ClientBuffer(cfg, s, r, w)
  {
  }

  lemma LoopGood(cfg: Config, s: Sys, r: Request, w: bool, cap: nat, envs: nat -> ChunkEnv, sgOf: SgOf)
    requires Shape(cfg, s) && Good(cfg, s, [], false) && ClientBuffer(cfg, s, r, w) && 0 < cap < r.length
    requires Consistent(cfg.ps, r, sgOf) && QuietFor(envs, Denotes(r.sg))
    ensures var (end, at, s') := ChunkLoop(cfg, s, r, w, cap, 0, envs, sgOf); end != TimedOut ==> Good(cfg, s', [], false)
  {
    hide *;
    BufferReady(cfg, s, r, w);
    ReadyHead(cfg, s, r, w);
    NothingStored(envs);
    NothingApart(Denotes(r.sg)[0..]);
    LoopLeaves(cfg, s, r, w, cap, 0, envs, sgOf, []);
  }

  lemma NothingApart(x: seq<nat>)
    ensures Apart(x, [])
  {
  }

  lemma ReadyHead(cfg: Config, s: Sys, r: Request, w: bool)
    requires Ready(cfg, s, r, w)
    ensures Head(cfg, s, r, w, 0)
  {
    hide Good;
    assert Denotes(r.sg)[0..] == Denotes(r.sg);
  }

  lemma FlushGood(cfg: Config, s: Sys, r: Request)
    requires Shape(cfg, s) && Good(cfg, s, [], false) && Controlling(r)
    ensures Good(cfg, Flush(s, r).1, [], false) && Shape(cfg, Flush(s, r).1)
  {
    ControlGood(cfg, s, r, FLUSH_SQE, false);
    var s1 := SubmitControl(s, r, FLUSH_SQE, false).1;
    hide Good, SubmitControl, Left;
    RingLeft(cfg, s1, [], false);
    GoodLeft(cfg, s1, RingSQ(s1), [], false);
    FlushShape(cfg, s, r);
  }

  lemma ControlGood(cfg: Config, s: Sys, r: Request, sqe: Sqe, sup: bool)
    requires Shape(cfg, s) && Good(cfg, s, [], false) && Dataless(sqe) && Controlling(r)
    ensures Good(cfg, SubmitControl(s, r, sqe, sup).1, [], false)
  {
    GoodParts(cfg, s, [], false);
    hide Good, DataInv, Disjoint, Safe, Described, Layout, SubmitControl;
    var st := Control(r, sqe, sup);
    StepFits(cfg, s, st);
    StepFaithful(cfg, s, st);
    var s1 := Next(cfg, s, st);
    ControlMemory(s, r, sqe, sup);
    NoneSafe(cfg, s1.slots);
    LeftWhole(cfg, s, s1, [], false);
    LeftGood(cfg, s, s1, [], false);
  }

  lemma ControlMemory(s: Sys, r: Request, sqe: Sqe, sup: bool)
    requires Dataless(sqe)
    ensures SubmitControl(s, r, sqe, sup).1.mem == s.mem
  {
  }

  lemma FlushPatientlyGood(cfg: Config, s: Sys, r: Request, script: seq<Turn>)
    requires Shape(cfg, s) && Good(cfg, s, [], false) && Controlling(r)
    ensures Good(cfg, FlushPatiently(cfg, s, r, script).1, [], false)
  {
    hide Shape, Good, Flush, AwaitSlot, Quiet, RingSQ, Left, FindFree;
    FlushGood(cfg, s, r);
    FlushShape(cfg, s, r);
    var (rc, s1) := Flush(s, r);
    if rc == NoSlot {
      NobodyQuiet(script);
      WaitLeft(cfg, s, script, [], false);
      var (freed, s2) := AwaitSlot(cfg, RingSQ(s), script);
      GoodLeft(cfg, s, s2, [], false);
      if freed { FlushGood(cfg, s2, r); }
    }
  }

  lemma {:induction false} AwaitSlotLateLeft(cfg: Config, s: Sys, script: seq<Turn>)
    requires Good(cfg, s, [], false) && Shape(cfg, s)
    ensures Left(cfg, s, AwaitSlotLate(cfg, s, script).1, [], false)
    decreases |script|
  {
    hide Good, Left, Shape, Harvest, Elapse, QuietTurn, FindFree;
    LeftSame(cfg, s, [], false);
    if script != [] {
      var s1 := Harvest(cfg, s);
      HarvestLeft(cfg, s, [], false);
      if FindFree(s1.slots).None? {
        var s2 := Elapse(cfg, s1, script[0]);
        NobodyStores(script[0]);
        PollLeft(cfg, s, script[0], [], false);
        LeftGood(cfg, s, s2, [], false);
        AwaitSlotLateLeft(cfg, s2, script[1..]);
        LeftThen(cfg, s, s2, AwaitSlotLate(cfg, s, script).1, [], false);
      }
    }
  }

  lemma NobodyStores(turn: Turn)
    ensures QuietTurn(turn, [])
  {
  }

  lemma WaitGood(cfg: Config, s: Sys, r: Request, sqe: Sqe, slotScript: seq<Turn>, doneScript: seq<Turn>)
    requires Shape(cfg, s) && Good(cfg, s, [], false) && Dataless(sqe) && Controlling(r)
    ensures var (end, s') := SubmitAndWait(cfg, s, r, sqe, slotScript, doneScript); end != NoAnswer ==> Good(cfg, s', [], false)
  {
    hide *;
    WaitUnfolds(cfg, s, r, sqe, slotScript, doneScript);
    SlotForWaitGood(cfg, s, slotScript);
    var (got, s1) := SlotForWait(cfg, s, slotScript);
    if got {
      var k, t0 := FindFree(s1.slots).value, SubmitControl(s1, r, sqe, true).1;
      ControlGood(cfg, s1, r, sqe, true);
      RingLeft(cfg, t0, [], false);
      GoodLeft(cfg, t0, RingSQ(t0), [], false);
      NobodyQuiet(doneScript);
      AwaitDoneLeft(cfg, RingSQ(t0), k, doneScript, [], false);
      var (done, s2) := AwaitDone(cfg, RingSQ(t0), k, doneScript);
      GoodLeft(cfg, RingSQ(t0), s2, [], false);
      AnswerIs(cfg, RingSQ(t0), k, doneScript);
    }
  }

  lemma SlotForWaitGood(cfg: Config, s: Sys, script: seq<Turn>)
    requires Shape(cfg, s) && Good(cfg, s, [], false)
    ensures Good(cfg, SlotForWait(cfg, s, script).1, [], false)
  {
    hide Good, Left, Shape, FindFree, AwaitSlotLate;
    if FindFree(s.slots).None? {
      ShapeSize(cfg, s);
      RingLeft(cfg, s, [], false);
      GoodLeft(cfg, s, RingSQ(s), [], false);
      AwaitSlotLateLeft(cfg, RingSQ(s), script);
      GoodLeft(cfg, RingSQ(s), AwaitSlotLate(cfg, RingSQ(s), script).1, [], false);
    }
  }

  lemma DispatchedGood(cfg: Config, s: Sys, m: Message)
    requires Shape(cfg, s) && Good(cfg, s, [], false) && Sound(cfg, m) && Fair(cfg, s, m)
    ensures var (fate, s') := Dispatched(cfg, s, m); fate != Lost ==> Good(cfg, s', [], false)
  {
    hide FastPath, ChunkLoop, SubmitAndWait, FlushPatiently, Shape, Good, Described, Consistent, ClientBuffer, Quiet, QuietFor;
    match m
    case Transfer(r, w, cap, env, envs, sgOf) =>
      if r.length <= cap {
        FastPathGood(cfg, s, r, w, env);
      } else {
        LoopGood(cfg, s, r, w, cap, envs, sgOf);
      }
    case FlushCache(r, script) => FlushPatientlyGood(cfg, s, r, script);
    case Synchronous(r, sqe, slotScript, doneScript) => WaitGood(cfg, s, r, sqe, slotScript, doneScript);
    case Immediate(_, _) =>
  }

  lemma {:induction false} DrainedGood(cfg: Config, s: Sys, ms: seq<Message>)
    requires Shape(cfg, s) && Good(cfg, s, [], false) && (forall m :: m in ms ==> Sound(cfg, m)) && FairDrain(cfg, s, ms)
    ensures Good(cfg, Drained(cfg, s, ms), [], false) && LostIn(cfg, s, ms) == 0
    decreases |ms|
  {
    hide Shape, Good, Dispatched, Sound, Fair;
    if ms != [] {
      DispatchedGood(cfg, s, ms[0]);
      DrainedGood(cfg, Dispatched(cfg, s, ms[0]).1, ms[1..]);
    }
  }

  lemma HarvestGood(cfg: Config, s: Sys)
    requires Shape(cfg, s) && Good(cfg, s, [], false)
    ensures Good(cfg, Harvest(cfg, s), [], false)
  {
    hide Shape, Good, Left, Harvest;
    HarvestLeft(cfg, s, [], false);
    GoodLeft(cfg, s, Harvest(cfg, s), [], false);
  }

  lemma AfterGood(cfg: Config, s: Sys, e: Event, depth: nat)
    requires Shape(cfg, s) && Good(cfg, s, [], false) && SoundEvent(cfg, e) && depth > 0
    requires e.Wake? ==> FairDrain(cfg, Harvest(cfg, s), e.messages)
    ensures Good(cfg, After(cfg, s, e, depth), [], false)
  {
    hide Shape, Good, Left, Harvest, Elapse, Drained, FairDrain, RingSQ, Sound;
    match e
    case Poll(turn) =>
      NobodyStores(turn);
      ElapseLeft(cfg, s, turn, [], false);
      GoodLeft(cfg, s, Elapse(cfg, s, turn), [], false);
      HarvestGood(cfg, Elapse(cfg, s, turn));
    case Wake(ms) =>
      HarvestGood(cfg, s);
      var h := Harvest(cfg, s);
      DrainedGood(cfg, h, ms);
      var d := Drained(cfg, h, ms);
      ShapeSize(cfg, d);
      RingLeft(cfg, d, [], false);
      GoodLeft(cfg, d, RingSQ(d), [], false);
      HarvestGood(cfg, RungIfMoved(h, d, depth));
  }

  /** Over a whole session in which nothing times out, whatever is dispatched and whatever happens in the
    * yields: every result handed back is faithful. */
  lemma {:induction false} SessionFaithful(cfg: Config, s: Sys, events: seq<Event>, depth: nat)
    requires Shape(cfg, s) && Good(cfg, s, [], false) && (forall e :: e in events ==> SoundEvent(cfg, e)) && depth > 0
    requires FairSession(cfg, s, events, depth)
    ensures var s' := AfterAll(cfg, s, events, depth);
      Good(cfg, s', [], false) && forall o :: o in s'.outcomes ==> Faithful(o) && AsRequested(o)
    decreases |events|
  {
    hide Shape, Good, After, FairDrain, SoundEvent, Faithful, AsRequested;
    if events == [] {
      GoodFaithful(cfg, s);
    } else {
      AfterGood(cfg, s, events[0], depth);
      SessionFaithful(cfg, After(cfg, s, events[0], depth), events[1..], depth);
    }
  }

  lemma GoodFaithful(cfg: Config, s: Sys)
    requires Good(cfg, s, [], false)
    ensures forall o :: o in s.outcomes ==> Faithful(o) && AsRequested(o)
  {
    forall o | o in s.outcomes ensures Faithful(o) && AsRequested(o) { FaithfulAsRequested(o); }
    hide AsRequested, DataInv, Safe, Faithful, Shape, Disjoint;
  }
}
