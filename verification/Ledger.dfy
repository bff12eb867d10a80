/** The DMA ledger: every StartDMA has its EndDMA, and every per-I/O DMAEntry array is freed once.
  *
  * Unlike the matching of completions this survives timeouts, so all runs are allowed here. */
module Ledger {
  import opened Base
  import opened Commands
  import opened Memory
  import opened Prp
  import opened Pipeline

  /** What slot `b` has pinned, in the terms of the StartDMA call that pinned it. */
  function SlotPins(b: Slot): multiset<Pin> {
    if b.Busy? && b.path.Mapped? then multiset{Pin(b.req.data, b.req.length, Flags(b.isWrite))} else multiset{}
  }

  /** Whether slot `b` owns a DMAEntry array of its own. */
  function SlotArrays(b: Slot): int {
    if b.Busy? && b.path.Mapped? && b.path.flags < POOL_MARK then 1 else 0
  }

  function PinsOf(slots: seq<Slot>): multiset<Pin> {
    if slots == [] then multiset{} else PinsOf(slots[..|slots| - 1]) + SlotPins(slots[|slots| - 1])
  }

  function ArraysOf(slots: seq<Slot>): int {
    if slots == [] then 0 else ArraysOf(slots[..|slots| - 1]) + SlotArrays(slots[|slots| - 1])
  }

  /** The slot's dma_buf, dma_size and dma_flags repeat its StartDMA, but for the pool marker. */
  predicate Remembers(b: Slot) {
    b.Busy? && b.path.Mapped? ==>
      && b.path.buf == b.req.data && b.path.size == b.req.length
      && (b.path.flags == Flags(b.isWrite) || b.path.flags == Flags(b.isWrite) + POOL_MARK)
  }

  ghost predicate Balanced(s: Sys) {
    && s.pins == PinsOf(s.slots)
    && s.heapLists == ArraysOf(s.slots)
    && forall k :: 0 <= k < |s.slots| ==> Remembers(s.slots[k])
  }

  lemma Swap(a: multiset<Pin>, b: multiset<Pin>, c: multiset<Pin>, x: multiset<Pin>, y: multiset<Pin>)
    requires a + x == b + y
    ensures (a + c) + x == (b + c) + y
  {
    assert (a + c) + x == (a + x) + c;
  }

  lemma {:induction false} PinsUpdate(slots: seq<Slot>, k: nat, b: Slot)
    requires k < |slots|
    ensures PinsOf(slots[k := b]) + SlotPins(slots[k]) == PinsOf(slots) + SlotPins(b)
    ensures ArraysOf(slots[k := b]) + SlotArrays(slots[k]) == ArraysOf(slots) + SlotArrays(b)
  {
    hide SlotPins, SlotArrays;
    var n, slots' := |slots| - 1, slots[k := b];
    if k < n {
      PinsUpdate(slots[..n], k, b);
      assert slots'[..n] == slots[..n][k := b];
      Swap(PinsOf(slots'[..n]), PinsOf(slots[..n]), SlotPins(slots[n]), SlotPins(slots[k]), SlotPins(b));
    } else {
      assert slots'[..n] == slots[..n];
    }
  }

  lemma {:induction false} PinsInclude(slots: seq<Slot>, k: nat)
    requires k < |slots|
    ensures SlotPins(slots[k]) <= PinsOf(slots)
  {
    if k < |slots| - 1 { PinsInclude(slots[..|slots| - 1], k); }
  }

  /** Taking or relabelling a slot together with its pins. */
  lemma TakeBalanced(s: Sys, s': Sys, k: nat, b: Slot)
    requires Balanced(s) && k < |s.slots| && s'.slots == s.slots[k := b] && Remembers(b)
    requires s'.pins + SlotPins(s.slots[k]) == s.pins + SlotPins(b)
    requires s'.heapLists + SlotArrays(s.slots[k]) == s.heapLists + SlotArrays(b)
    ensures Balanced(s')
  {
    hide Remembers, SlotPins, SlotArrays, PinsOf, ArraysOf;
    PinsUpdate(s.slots, k, b);
    var x := SlotPins(s.slots[k]);
    assert s'.pins == (s'.pins + x) - x;
    assert PinsOf(s'.slots) == (PinsOf(s'.slots) + x) - x;
  }

  /** EndDMA, wherever it is called for slot `k`, names a live pin: the one the slot's own StartDMA
    * made, with the same buffer, size and flags. */
  lemma UnmapReleasesOwnPin(s: Sys, k: nat)
    requires Balanced(s) && k < |s.slots| && s.slots[k].Busy?
    ensures var s' := Unmap(s, s.slots[k].path);
      && s'.pins + SlotPins(s.slots[k]) == s.pins
      && s'.heapLists + SlotArrays(s.slots[k]) == s.heapLists
      && s' == s.(pins := s'.pins, heapLists := s'.heapLists)
  {
    assert Remembers(s.slots[k]);
    PinsInclude(s.slots, k);
    UnmapIs(s, s.slots[k]);
    assert s.pins == PinsOf(s.slots);
    hide *;
    Back(s.pins, SlotPins(s.slots[k]));
  }

  /** Stripping the marker gives the flags back, and tells a pooled array from an own one. */
  lemma UnmapIs(s: Sys, b: Slot)
    requires b.Busy? && Remembers(b)
    ensures var s' := Unmap(s, b.path);
      && s'.pins == s.pins - SlotPins(b) && s'.heapLists == s.heapLists - SlotArrays(b)
      && s' == s.(pins := s'.pins, heapLists := s'.heapLists)
  {
  }

  lemma Back(a: multiset<Pin>, b: multiset<Pin>)
    requires b <= a
    ensures a - b + b == a
  {
  }

  lemma FreeBalanced(s: Sys, s': Sys, k: nat)
    requires Balanced(s) && k < |s.slots| && s.slots[k].Busy? && s'.slots == s.slots[k := Free]
    requires var u := Unmap(s, s.slots[k].path); s'.pins == u.pins && s'.heapLists == u.heapLists
    ensures Balanced(s')
  {
    UnmapReleasesOwnPin(s, k);
    TakeBalanced(s, s', k, Free);
  }

  lemma SameBalanced(s: Sys, s': Sys)
    requires Balanced(s) && s'.slots == s.slots && s'.pins == s.pins && s'.heapLists == s.heapLists
    ensures Balanced(s')
  {
  }

  lemma MappedBalanced(cfg: Config, s: Sys, k: nat, r: Request, w: bool, lba: nat, nlb: nat, env: DmaEnv)
    requires Shape(cfg, s) && k < MAX_INFLIGHT && Described(cfg, r) && 0 < r.length && s.slots[k].Free?
    requires lba < TWO64 && 1 <= nlb <= 0x1_0000 && Balanced(s)
    ensures Balanced(SubmitMapped(cfg, s, k, r, w, lba, nlb, env).1)
  {
    var pooled, p := |r.sg| <= cfg.poolCapacity && cfg.pool[k], multiset{Pin(r.data, r.length, Flags(w))};
    var (rc, s') := SubmitMapped(cfg, s, k, r, w, lba, nlb, env);
    MappedLedger(cfg, s, k, r, w, lba, nlb, env);
    hide *;
    if rc == Submitted {
      TakeBalanced(s, s', k, Busy(r, w, MappedPath(r, w, pooled), false));
    } else {
      SameBalanced(s, s');
    }
  }

  /** What the direct path does to the ledger: one pin for the slot it takes, none otherwise. */
  lemma MappedLedger(cfg: Config, s: Sys, k: nat, r: Request, w: bool, lba: nat, nlb: nat, env: DmaEnv)
    requires Shape(cfg, s) && k < MAX_INFLIGHT && Described(cfg, r) && 0 < r.length && s.slots[k].Free?
    requires lba < TWO64 && 1 <= nlb <= 0x1_0000
    ensures var (rc, s') := SubmitMapped(cfg, s, k, r, w, lba, nlb, env);
      var b := Busy(r, w, MappedPath(r, w, |r.sg| <= cfg.poolCapacity && cfg.pool[k]), false);
      if rc == Submitted then
        && s'.slots == s.slots[k := b] && Remembers(b)
        && s'.pins + SlotPins(s.slots[k]) == s.pins + SlotPins(b)
        && s'.heapLists + SlotArrays(s.slots[k]) == s.heapLists + SlotArrays(b)
      else s'.slots == s.slots && s'.pins == s.pins && s'.heapLists == s.heapLists
  {
    hide Direct, WellFormed, Total, Shape, Described;
    var p := multiset{Pin(r.data, r.length, Flags(w))};
    assert s.pins + p - p == s.pins;
  }

  lemma BouncedBalanced(cfg: Config, s: Sys, k: nat, r: Request, w: bool, lba: nat, nlb: nat)
    requires Shape(cfg, s) && k < MAX_INFLIGHT && Described(cfg, r) && 0 < r.length <= BOUNCE_SIZE && s.slots[k].Free?
    requires lba < TWO64 && 1 <= nlb <= 0x1_0000 && Balanced(s)
    ensures Balanced(SubmitBounced(cfg, s, k, r, w, lba, nlb).1)
  {
    hide Bounce, BounceIn, WellFormed, Total, Balanced, PinsOf, ArraysOf;
    var (rc, s') := SubmitBounced(cfg, s, k, r, w, lba, nlb);
    if rc == Submitted {
      TakeBalanced(s, s', k, s'.slots[k]);
    } else {
      SameBalanced(s, s');
    }
  }

  lemma SubmitBalanced(cfg: Config, s: Sys, r: Request, w: bool, env: DmaEnv)
    requires Shape(cfg, s) && Described(cfg, r) && Balanced(s)
    ensures Balanced(SubmitNoRing(cfg, s, r, w, env).1)
  {
    ValidateExact(Offset(r), r.length, r.data != 0, cfg.bs);
    hide SubmitBounced, SubmitMapped, WellFormed, Total, Balanced;
    var free, v := FindFree(s.slots), Validate(Offset(r), r.length, r.data != 0, cfg.bs);
    if free.Some? && v.Transfer? {
      if UseBounce(r.length, r.data, cfg.ps) {
        BouncedBalanced(cfg, s, free.value, r, w, v.lba, v.nlb);
      } else {
        MappedBalanced(cfg, s, free.value, r, w, v.lba, v.nlb, env);
      }
    }
  }

  lemma ControlBalanced(s: Sys, r: Request, sqe: Sqe, sup: bool)
    requires Dataless(sqe) && Balanced(s)
    ensures Balanced(SubmitControl(s, r, sqe, sup).1)
  {
    hide Balanced, PinsOf, ArraysOf;
    var f, s' := FindFree(s.slots), SubmitControl(s, r, sqe, sup).1;
    if f.Some? {
      TakeBalanced(s, s', f.value, s'.slots[f.value]);
    }
  }

  lemma ConsumeBalanced(cfg: Config, s: Sys, c: Cqe)
    requires Shape(cfg, s) && Balanced(s)
    ensures Balanced(Consume(cfg, s, c))
  {
    ConsumeLedger(cfg, s, c);
    hide *;
    if 1 <= c.cid <= MAX_INFLIGHT && s.slots[c.cid - 1].Busy? {
      FreeBalanced(s, Consume(cfg, s, c), c.cid - 1);
    }
  }

  lemma ConsumeLedger(cfg: Config, s: Sys, c: Cqe)
    requires Shape(cfg, s)
    ensures |s.slots| == MAX_INFLIGHT
    ensures var s' := Consume(cfg, s, c);
      if 1 <= c.cid <= MAX_INFLIGHT && s.slots[c.cid - 1].Busy? then
        var u := Unmap(s, s.slots[c.cid - 1].path);
        s'.slots == s.slots[c.cid - 1 := Free] && s'.pins == u.pins && s'.heapLists == u.heapLists
      else s' == s
  {
    hide Described, Layout, Complete, Unmap;
    if 1 <= c.cid <= MAX_INFLIGHT && s.slots[c.cid - 1].Busy? { CompleteLedger(cfg, s, c.cid - 1, c); }
  }

  lemma CompleteLedger(cfg: Config, s: Sys, k: nat, c: Cqe)
    requires Shape(cfg, s) && k < MAX_INFLIGHT && s.slots[k].Busy?
    ensures var s', u := Complete(cfg, s, k, c), Unmap(s, s.slots[k].path);
      s'.slots == s.slots[k := Free] && s'.pins == u.pins && s'.heapLists == u.heapLists
  {
    hide Described, BounceOut, Layout, Unmap;
  }

  lemma HarvestBalanced(cfg: Config, s: Sys)
    requires Shape(cfg, s) && s.posted != [] && Balanced(s)
    ensures Balanced(HarvestOne(cfg, s))
  {
    var t := s.(posted := s.posted[1..]);
    SameBalanced(s, t);
    hide Balanced, Consume, Layout, Described;
    ConsumeBalanced(cfg, t, s.posted[0]);
  }

  /** Every step keeps the ledger, timeouts included. */
  lemma StepBalanced(cfg: Config, s: Sys, st: Step)
    requires Shape(cfg, s) && Enabled(cfg, s, st) && Balanced(s)
    ensures Balanced(Next(cfg, s, st))
  {
    hide SubmitNoRing, SubmitControl, HarvestOne, Executable, PinsOf, ArraysOf, Balanced, Unmap, MemAfter, DiskAfter;
    match st
    case DoSubmit(r, w, env) => SubmitBalanced(cfg, s, r, w, env);
    case Control(r, sqe, sup) => ControlBalanced(s, r, sqe, sup);
    case Suppress(k) => SuppressBalanced(s, k);
    case DoHarvest => HarvestBalanced(cfg, s);
    case Timeout(k) => FreeBalanced(s, GiveUp(s, k), k);
    case _ => SameBalanced(s, Next(cfg, s, st));
  }

  lemma SuppressBalanced(s: Sys, k: nat)
    requires Balanced(s) && k < |s.slots| && s.slots[k].Busy?
    ensures Balanced(s.(slots := s.slots[k := s.slots[k].(suppress := true)]))
  {
    assert Remembers(s.slots[k]);
    var b := s.slots[k].(suppress := true);
    TakeBalanced(s, s.(slots := s.slots[k := b]), k, b);
  }

  lemma {:induction false} NothingPinned(slots: seq<Slot>)
    requires forall k :: 0 <= k < |slots| ==> slots[k].Free?
    ensures PinsOf(slots) == multiset{} && ArraysOf(slots) == 0
  {
    if slots != [] { NothingPinned(slots[..|slots| - 1]); }
  }

  lemma {:induction false} RunBalanced(cfg: Config, s0: Sys, steps: seq<Step>, s: Sys)
    requires Shape(cfg, s0) && Balanced(s0) && Run(cfg, s0, steps, s, true)
    ensures Shape(cfg, s) && Balanced(s)
    decreases |steps|
  {
    hide Balanced, Shape, Enabled, Next;
    if steps != [] {
      StepBalanced(cfg, s0, steps[0]);
      RunBalanced(cfg, Next(cfg, s0, steps[0]), steps[1..], s);
    }
  }

  /** The ledger is exact in every reachable state, over runs with any number of timeouts: the live
    * pins are those of the slots that move data directly, each slot will end its own pin with the
    * arguments it was started with, and with all slots free nothing is left pinned or allocated. */
  lemma LedgerExact(cfg: Config, mem: Mem, disk: Mem, steps: seq<Step>, s: Sys)
    requires Layout(cfg) && Run(cfg, Init(mem, disk), steps, s, true)
    ensures Shape(cfg, s) && s.pins == PinsOf(s.slots) && s.heapLists == ArraysOf(s.slots) >= 0
    ensures forall k :: 0 <= k < MAX_INFLIGHT && s.slots[k].Busy? ==>
              && Remembers(s.slots[k]) && SlotPins(s.slots[k]) <= s.pins
              && Unmap(s, s.slots[k].path).pins == s.pins - SlotPins(s.slots[k])
    ensures (forall k :: 0 <= k < MAX_INFLIGHT ==> s.slots[k].Free?) ==> s.pins == multiset{} && s.heapLists == 0
  {
    NothingPinned(Init(mem, disk).slots);
    hide Run, Unmap, Described, PinsOf;
    RunBalanced(cfg, Init(mem, disk), steps, s);
    ArraysNonNegative(s.slots);
    forall k | 0 <= k < MAX_INFLIGHT && s.slots[k].Busy?
      ensures SlotPins(s.slots[k]) <= s.pins && Unmap(s, s.slots[k].path).pins == s.pins - SlotPins(s.slots[k])
    {
      PinsInclude(s.slots, k);
      UnmapReleasesOwnPin(s, k);
    }
    if forall k :: 0 <= k < MAX_INFLIGHT ==> s.slots[k].Free? { NothingPinned(s.slots); }
  }

  /** DMA_ReadFromRAM is bit 3 of the flags: the device reads the buffer. */
  predicate DeviceReads(p: Pin) {
    p.flags / 8 % 2 == 1
  }

  /** `p` is live, is for the buffer of slot `k`, and is the one that slot's EndDMA ends. */
  ghost predicate PinOf(s: Sys, k: nat, p: Pin) {
    && k < |s.slots| && s.slots[k].Busy? && p in s.pins
    && p.buf == s.slots[k].req.data && p.size == s.slots[k].req.length
    && Unmap(s, s.slots[k].path).pins == s.pins - multiset{p}
  }

  /** In every reachable state, the live pin of a slot that moves data directly tells StartDMA that the
    * device reads the buffer if and only if the slot's command is a write. */
  lemma PinDirection(cfg: Config, mem: Mem, disk: Mem, steps: seq<Step>, s: Sys, k: nat) returns (p: Pin)
    requires Layout(cfg) && Run(cfg, Init(mem, disk), steps, s, true)
    requires k < |s.slots| && s.slots[k].Busy? && s.slots[k].path.Mapped?
    ensures PinOf(s, k, p) && (DeviceReads(p) <==> s.slots[k].isWrite)
  {
    NothingPinned(Init(mem, disk).slots);
    assert Balanced(Init(mem, disk)) && Shape(cfg, Init(mem, disk));
    hide *;
    RunBalanced(cfg, Init(mem, disk), steps, s);
    p := OwnPin(s, k);
  }

  lemma OwnPin(s: Sys, k: nat) returns (p: Pin)
    requires Balanced(s) && k < |s.slots| && s.slots[k].Busy? && s.slots[k].path.Mapped?
    ensures PinOf(s, k, p) && (DeviceReads(p) <==> s.slots[k].isWrite)
  {
    hide PinsOf, ArraysOf, Unmap;
    var b := s.slots[k];
    assert Remembers(b);
    PinsInclude(s.slots, k);
    UnmapIs(s, b);
    p := Pin(b.req.data, b.req.length, Flags(b.isWrite));
    Single(p, s.pins);
  }

  lemma Single(p: Pin, pins: multiset<Pin>)
    ensures multiset{p} <= pins ==> p in pins
  {
    if multiset{p} <= pins { assert p in multiset{p}; }
  }

  lemma {:induction false} ArraysNonNegative(slots: seq<Slot>)
    ensures ArraysOf(slots) >= 0
  {
    if slots != [] { ArraysNonNegative(slots[..|slots| - 1]); }
  }
}
