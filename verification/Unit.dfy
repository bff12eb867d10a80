/** A unit as nvme_io.c and unit_task.c keep it: an inflight table, a queue pair, DMA memory and
  * the DMA ledger, changed in place.  Every method is proved to do exactly what the step
  * functions of module Pipeline say, so all that is proved about runs holds of the unit. */
module UnitTask {
  import opened Base
  import opened Memory
  import opened Prp
  import opened PrpBuild
  import opened Modular
  import opened Rings
  import opened Commands
  import opened Pipeline
  import opened Matching
  import opened Ledger
  import opened Waiting
  import opened Slack
  import EndToEnd

  /** No slot's buffer overlaps the driver's own memory, so CopyMem never copies onto its source. */
  ghost predicate BuffersApart(cfg: Config, slots: seq<Slot>)
    requires Layout(cfg)
  {
    forall k :: 0 <= k < |slots| && MovesData(slots[k]) ==> BufferApart(cfg, slots[k].req) && BounceFits(slots[k])
  }

  predicate BounceFits(b: Slot) {
    b.Busy? && b.path.Bounced? ==> b.req.length <= BOUNCE_SIZE
  }

  ghost predicate BufferApart(cfg: Config, r: Request)
    requires Layout(cfg)
  {
    forall a :: a in Denotes(r.sg) ==> !DriverOwned(cfg, a)
  }

  class Unit {
    const cfg: Config
    const inflight: array<Slot>
    const qp: QueuePair<Sqe, Cqe>
    const ram: Ram
    // Live StartDMA calls, and DMAEntry arrays allocated per I/O.
    var pins: multiset<Pin>
    var heapLists: int
    // Requests handed back.
    var outcomes: seq<Outcome>
    // The controller's side of the I/O queues, and the namespace.
    var fetched: seq<Sqe>
    var done: seq<Cqe>
    var disk: Mem

    /** The unit as a state of module Pipeline. */
    ghost function Abs(): Sys
      requires qp.announced <= |qp.queued|
      reads this, inflight, qp, ram
    {
      Sys(inflight[..], qp.Unpublished(), qp.Published(), fetched, done, qp.posted, ram.bytes, disk, pins, heapLists, outcomes,
          qp.fetched + |qp.queued|)
    }

    ghost predicate Valid()
      reads this, inflight, qp, qp.sq, qp.cq, ram
    {
      && inflight as object != qp.sq as object && inflight as object != qp.cq as object
      && inflight.Length == MAX_INFLIGHT && qp.depth > MAX_INFLIGHT && qp.Valid()
      && Shape(cfg, Abs()) && BuffersApart(cfg, Abs().slots) && Balanced(Abs())
    }

    constructor (cfg: Config, depth: nat, mem: Mem, disk: Mem)
      requires Layout(cfg) && depth > MAX_INFLIGHT
      ensures Valid() && Abs() == Init(mem, disk) && this.cfg == cfg && qp.depth == depth
      ensures fresh(inflight) && fresh(qp) && fresh(qp.sq) && fresh(qp.cq) && fresh(ram)
    {
      this.cfg := cfg;
      inflight := new Slot[MAX_INFLIGHT](_ => Free);
      qp := new QueuePair<Sqe, Cqe>(depth, Sqe(0, 0, 0, 0, 0, 0, 0), Cqe(0, false, map[], map[]));
      ram := new Ram();
      pins, heapLists, outcomes, fetched, done := multiset{}, 0, [], [], [];
      this.disk := disk;
      new;
      ram.bytes := mem;
      hide *;
      Starts();
    }

    lemma Starts()
      requires inflight as object != qp.sq as object && inflight as object != qp.cq as object && qp.Valid()
      requires Layout(cfg) && qp.depth > MAX_INFLIGHT && inflight.Length == MAX_INFLIGHT
      requires (forall i :: 0 <= i < MAX_INFLIGHT ==> inflight[i] == Free) && qp.queued == [] && qp.announced == 0 && qp.posted == []
      requires qp.fetched == 0 && fetched == [] && done == [] && pins == multiset{} && heapLists == 0 && outcomes == []
      ensures Valid() && Abs() == Init(ram.bytes, disk)
    {
      assert inflight[..] == Init(ram.bytes, disk).slots;
      InitValid(cfg, ram.bytes, disk);
      hide Shape, Balanced, BuffersApart, Layout, QueuePair.Registers, QueuePair.Contents;
    }

    // ----- DMA ledger --------------------------------------------------------------------

    method StartDMA(buf: nat, size: nat, flags: nat)
      modifies this`pins
      ensures pins == old(pins) + multiset{Pin(buf, size, flags)}
    {
      pins := pins + multiset{Pin(buf, size, flags)};
    }

    /** EndDMA may only be called with the arguments of a StartDMA that is still open. */
    method EndDMA(buf: nat, size: nat, flags: nat)
      requires Pin(buf, size, flags) in pins
      modifies this`pins
      ensures pins == old(pins) - multiset{Pin(buf, size, flags)}
    {
      pins := pins - multiset{Pin(buf, size, flags)};
    }

    /** FreeSysObject of a DMAEntry array may only follow an allocation. */
    method FreeArray()
      requires heapLists > 0
      modifies this`heapLists
      ensures heapLists == old(heapLists) - 1
    {
      heapLists := heapLists - 1;
    }

    /** Release what a slot mapped: strip the pool marker, end the DMA, free an array of its own. */
    method ReleaseDma(path: Path)
      requires path.Mapped? && Live(path, pins, heapLists)
      modifies this`pins, this`heapLists
      ensures pins == old(pins) - multiset{Started(path)}
      ensures heapLists == old(heapLists) - if path.flags >= POOL_MARK then 0 else 1
    {
      var isPool := path.flags >= POOL_MARK;
      EndDMA(path.buf, path.size, if isPool then path.flags - POOL_MARK else path.flags);
      if !isPool {
        FreeArray();
      }
    }

    // ----- Submission --------------------------------------------------------------------

    method FindFreeSlot() returns (slot: int)
      requires inflight.Length == MAX_INFLIGHT
      ensures if slot < 0 then slot == -1 && FindFree(inflight[..]) == None else FindFree(inflight[..]) == Some(slot)
    {
      var i := 0;
      while i < MAX_INFLIGHT
        invariant 0 <= i <= MAX_INFLIGHT
        invariant FindFree(inflight[..]) == FindFreeFrom(inflight[..], i)
      {
        if inflight[i].Free? {
          return i;
        }
        i := i + 1;
      }
      return -1;
    }

    /** Bounce path of SubmitNoRing for the free slot `k`. */
    method SubmitBounced(k: nat, r: Request, isWrite: bool, lba: nat, nlb: nat) returns (rc: Rc)
      requires Valid() && k < MAX_INFLIGHT && inflight[k].Free? && |qp.queued| < qp.depth - 1
      requires Described(cfg, r) && BufferApart(cfg, r) && 0 < r.length <= BOUNCE_SIZE
      requires lba < TWO64 && 1 <= nlb <= 0x1_0000
      modifies inflight, qp`sqTail, qp`queued, qp.sq, ram
      ensures Valid() && (rc, Abs()) == Pipeline.SubmitBounced(cfg, old(Abs()), k, r, isWrite, lba, nlb)
    {
      ghost var s := Abs();
      hide Abs, Shape, Balanced, BuffersApart, BufferApart, Described, Layout, WellFormed, Total, Denotes, Span;
      hide Pipeline.SubmitBounced, BounceIn, Bounce, Encode, QueuePair.Registers, QueuePair.Contents;
      Table();
      CopyIn(k, r, isWrite);
      rc := PlaceBounced(k, r, isWrite, lba, nlb);
      BouncedUnfolds(cfg, s, k, r, isWrite, lba, nlb);
    }

    /** A bounced write is copied in. */
    method CopyIn(k: nat, r: Request, isWrite: bool)
      requires Layout(cfg) && k < MAX_INFLIGHT && qp.announced <= |qp.queued|
      requires Described(cfg, r) && BufferApart(cfg, r) && 0 < r.length <= BOUNCE_SIZE
      modifies ram
      ensures Abs() == old(Abs()).(mem := BounceIn(cfg, old(Abs()).mem, k, r, isWrite))
    {
      if isWrite {
        EndToEnd.OwnedApart(cfg, k, cfg.bounce[k], r.length, Denotes(r.sg));
        ram.Copy(Denotes(r.sg), Span(cfg.bounce[k], r.length));
      }
    }

    /** PRPs, slot and SQE of a bounced command. */
    method PlaceBounced(k: nat, r: Request, isWrite: bool, lba: nat, nlb: nat) returns (rc: Rc)
      requires inflight as object != qp.sq as object && inflight as object != qp.cq as object
      requires inflight.Length == MAX_INFLIGHT && qp.Valid() && |qp.queued| < qp.depth - 1
      requires Layout(cfg) && k < MAX_INFLIGHT && inflight[k].Free? && r.length <= BOUNCE_SIZE
      requires lba < TWO64 && 1 <= nlb <= 0x1_0000
      modifies inflight, qp`sqTail, qp`queued, qp.sq, ram
      ensures qp.Valid() && (rc, Abs()) == BouncedTail(cfg, old(Abs()), k, r, isWrite, lba, nlb)
    {
      ghost var s := Abs();
      hide Layout, Bounce, Encode, QueuePair.Registers, QueuePair.Contents;
      Areas(cfg, k);
      inflight[k] := Busy(r, isWrite, Bounced, false);
      var ok, prp1, prp2 := BuildBounce(ram, cfg.bounce[k], r.length, cfg.ps, cfg.list[k]);
      if !ok {
        inflight[k] := Free;
        assert inflight[..] == s.slots;
        return Failed(-4, BadLength);
      }
      assert inflight[..] == s.slots[k := Busy(r, isWrite, Bounced, false)];
      PlaceSqe(k, Encode(isWrite, k + 1, prp1, prp2, lba, nlb), s.(mem := ram.bytes));
      return Submitted;
    }

    /** Write the SQE for slot `k`, which has just been taken, at the shadow tail. */
    method PlaceSqe(k: nat, e: Sqe, ghost s: Sys)
      requires inflight as object != qp.sq as object && inflight as object != qp.cq as object
      requires inflight.Length == MAX_INFLIGHT && qp.Valid() && |qp.queued| < qp.depth - 1 && k < |s.slots| == MAX_INFLIGHT
      requires Abs() == s.(slots := s.slots[k := inflight[k]])
      modifies qp`sqTail, qp`queued, qp.sq
      ensures qp.Valid() && Abs() == Place(s, k, inflight[k], e)
    {
      hide QueuePair.Registers, QueuePair.Contents;
      qp.Place(e);
    }

    /** Direct path of SubmitNoRing for the free slot `k`. */
    method SubmitMapped(k: nat, r: Request, isWrite: bool, lba: nat, nlb: nat, env: DmaEnv) returns (rc: Rc)
      requires Valid() && k < MAX_INFLIGHT && inflight[k].Free? && |qp.queued| < qp.depth - 1
      requires Described(cfg, r) && BufferApart(cfg, r) && 0 < r.length
      requires lba < TWO64 && 1 <= nlb <= 0x1_0000
      modifies this`pins, this`heapLists, inflight, qp`sqTail, qp`queued, qp.sq, ram
      ensures Valid() && (rc, Abs()) == Pipeline.SubmitMapped(cfg, old(Abs()), k, r, isWrite, lba, nlb, env)
    {
      ghost var s := Abs();
      hide *;
      Table();
      var pooled := |r.sg| <= cfg.poolCapacity && cfg.pool[k];
      var mapped := MapBuffer(r, isWrite, pooled, env);
      ghost var s1 := Abs();
      if mapped {
        assert Shape(cfg, s1) by { StartShape(cfg, s, r, isWrite, pooled); }
        rc := PlaceMapped(k, r, isWrite, lba, nlb, pooled);
      } else {
        rc := Failed(-3, Aborted);
      }
      MappedUnfolds(cfg, s, k, r, isWrite, lba, nlb, env, pooled);
    }

    /** StartDMA and, without a pool, a DMAEntry array; nothing is left over if either is refused. */
    method MapBuffer(r: Request, isWrite: bool, pooled: bool, env: DmaEnv) returns (ok: bool)
      requires heapLists >= 0 && qp.announced <= |qp.queued|
      modifies this`pins, this`heapLists
      ensures ok <==> !env.refuses && (pooled || !env.allocFails)
      ensures Abs() == if ok then StartDma(old(Abs()), r, isWrite, pooled) else old(Abs())
      ensures ok ==> pins == old(pins) + multiset{Pin(r.data, r.length, if isWrite then 8 else 0)}
      ensures ok ==> Live(MappedPath(r, isWrite, pooled), pins, heapLists)
    {
      ghost var s := Abs();
      if env.refuses {
        return false;
      }
      StartDMA(r.data, r.length, Flags(isWrite));
      if !pooled {
        if env.allocFails {
          EndDMA(r.data, r.length, Flags(isWrite));
          assert pins == s.pins;
          return false;
        }
        heapLists := heapLists + 1;
      }
      return true;
    }

    /** The rest of the direct path, once the buffer is pinned: PRPs, slot and SQE -- or, if the PRP
      * list overflows, everything undone. */
    method PlaceMapped(k: nat, r: Request, isWrite: bool, lba: nat, nlb: nat, pooled: bool) returns (rc: Rc)
      requires inflight as object != qp.sq as object && inflight as object != qp.cq as object
      requires inflight.Length == MAX_INFLIGHT && qp.Valid() && |qp.queued| < qp.depth - 1
      requires Shape(cfg, Abs()) && Described(cfg, r) && 0 < r.length && k < MAX_INFLIGHT && inflight[k].Free?
      requires lba < TWO64 && 1 <= nlb <= 0x1_0000 && Live(MappedPath(r, isWrite, pooled), pins, heapLists)
      modifies this`pins, this`heapLists, inflight, qp`sqTail, qp`queued, qp.sq, ram
      ensures qp.Valid() && (rc, Abs()) == Pipeline.PlaceMapped(cfg, old(Abs()), k, r, isWrite, lba, nlb, pooled)
    {
      ghost var s := Abs();
      assert Page(cfg.ps) && |cfg.list| == MAX_INFLIGHT && WellFormed(r.sg, cfg.ps) && Total(r.sg) == r.length;
      hide Page, Shape, Described, WellFormed, Total, Direct, Encode, Denotes, QueuePair.Registers, QueuePair.Contents, Live, EndDma;
      inflight[k] := Busy(r, isWrite, MappedPath(r, isWrite, pooled), false);
      var ok, prp1, prp2 := BuildDirect(ram, r.sg, r.length, cfg.ps, cfg.list[k]);
      if !ok {
        CancelMapped(k, r, isWrite, pooled, s);
        return Failed(-4, BadLength);
      }
      assert inflight[..] == s.slots[k := Busy(r, isWrite, MappedPath(r, isWrite, pooled), false)];
      PlaceSqe(k, Encode(isWrite, k + 1, prp1, prp2, lba, nlb), s.(mem := ram.bytes));
      return Submitted;
    }

    /** The PRP list overflowed: give up pin, array and slot. */
    method CancelMapped(k: nat, r: Request, isWrite: bool, pooled: bool, ghost s: Sys)
      requires inflight.Length == MAX_INFLIGHT && k < MAX_INFLIGHT && qp.announced <= |qp.queued|
      requires |s.slots| == MAX_INFLIGHT && s.slots[k].Free?
      requires Abs() == s.(slots := s.slots[k := inflight[k]], mem := ram.bytes)
      requires Live(MappedPath(r, isWrite, pooled), pins, heapLists)
      modifies this`pins, this`heapLists, inflight
      ensures Abs() == EndDma(s, r, isWrite, pooled).(mem := ram.bytes)
    {
      ReleaseDma(MappedPath(r, isWrite, pooled));
      inflight[k] := Free;
      assert inflight[..] == s.slots;
    }

    /** NVMeIO_SubmitNoRing. */
    method SubmitNoRing(r: Request, isWrite: bool, env: DmaEnv) returns (rc: Rc)
      requires Valid() && Load(Abs()) < qp.depth && Described(cfg, r) && (r.length > 0 ==> BufferApart(cfg, r))
      modifies this`pins, this`heapLists, inflight, qp`sqTail, qp`queued, qp.sq, ram
      ensures Valid() && Load(Abs()) == old(Load(Abs()))
      ensures (rc, Abs()) == Pipeline.SubmitNoRing(cfg, old(Abs()), r, isWrite, env)
    {
      ghost var s := Abs();
      hide *;
      Table();
      var slot := FindFreeSlot();
      if slot < 0 {
        rc := NoSlot;
      } else {
        var verdict := Validate(Offset(r), r.length, r.data != 0, cfg.bs);
        match verdict
        case Reject(error) => rc := Failed(-5, error);
        case Nothing => rc := NothingToDo;
        case Transfer(lba, nlb) =>
          Accepted(Offset(r), r, cfg.bs, cfg.ps);
          Room();
          if UseBounce(r.length, r.data, cfg.ps) {
            rc := SubmitBounced(slot, r, isWrite, lba, nlb);
          } else {
            rc := SubmitMapped(slot, r, isWrite, lba, nlb, env);
          }
      }
      SubmitUnfolds(cfg, s, r, isWrite, env);
      SubmitLoad(cfg, s, r, isWrite, env);
    }

    lemma Table()
      requires Valid()
      ensures inflight.Length == |cfg.pool| == |cfg.list| == MAX_INFLIGHT && Layout(cfg) && cfg.ps > 0 && cfg.bs > 0
      ensures qp.announced <= |qp.queued| && Shape(cfg, Abs()) && Abs().slots == inflight[..] && heapLists >= 0
      ensures Balanced(Abs()) && BuffersApart(cfg, Abs().slots) && qp.Valid() && qp.depth > MAX_INFLIGHT
      ensures inflight as object != qp.sq as object && inflight as object != qp.cq as object
    {
      ArraysNonNegative(inflight[..]);
    }

    lemma TableOutcomes()
      requires Valid()
      ensures Abs().outcomes == outcomes
    {
    }

    /** A free slot means room in the SQ for one more entry. */
    lemma Room()
      requires Valid() && Load(Abs()) < qp.depth
      ensures FindFree(inflight[..]).Some? ==> |qp.queued| < qp.depth - 1
    {
      LoadLeavesRoom(Abs(), qp.depth);
    }

    /** NVMeIO_RingSQ. */
    method RingSQ()
      requires Valid()
      modifies qp`sqDoorbell, qp`announced
      ensures Valid() && Abs() == Pipeline.RingSQ(old(Abs())) && Load(Abs()) == old(Load(Abs()))
    {
      qp.Ring();
    }

    /** NVMeIO_Submit. */
    method Submit(r: Request, isWrite: bool, env: DmaEnv) returns (rc: Rc)
      requires Valid() && Load(Abs()) < qp.depth && Described(cfg, r) && (r.length > 0 ==> BufferApart(cfg, r))
      modifies this`pins, this`heapLists, inflight, qp`sqTail, qp`queued, qp`sqDoorbell, qp`announced, qp.sq, ram
      ensures Valid() && Load(Abs()) == old(Load(Abs())) && (rc, Abs()) == Pipeline.Submit(cfg, old(Abs()), r, isWrite, env)
    {
      hide *;
      Table();
      ghost var s := Abs();
      rc := SubmitNoRing(r, isWrite, env);
      Table();
      ghost var s1 := Abs();
      if rc == Submitted {
        RingSQ();
        RingLoad(s1);
      }
      SubmitIs(cfg, s, r, isWrite, env);
    }

    /** The common part of Flush and SubmitAndWait: a slot and an SQE without data of its own. */
    method SubmitControl(r: Request, sqe: Sqe, suppress: bool) returns (rc: Rc)
      requires Valid() && Load(Abs()) < qp.depth && Dataless(sqe)
      modifies inflight, qp`sqTail, qp`queued, qp.sq
      ensures Valid() && Load(Abs()) == old(Load(Abs())) && (rc, Abs()) == Pipeline.SubmitControl(old(Abs()), r, sqe, suppress)
      ensures if rc == Submitted then Commanded(old(Abs()), Abs(), r, sqe, suppress) else rc == NoSlot
    {
      ghost var s := Abs();
      hide *;
      Table();
      var slot := FindFreeSlot();
      if slot < 0 {
        rc := NoSlot;
      } else {
        Room();
        TakeControl(slot, r, sqe, suppress);
        rc := Submitted;
      }
      ControlUnfolds(cfg, s, r, sqe, suppress);
      ControlCarries(s, r, sqe, suppress);
    }

    /** NVMeIO_Flush. */
    method Flush(r: Request) returns (rc: Rc)
      requires Valid() && Load(Abs()) < qp.depth
      modifies inflight, qp`sqTail, qp`queued, qp`sqDoorbell, qp`announced, qp.sq
      ensures Valid() && Load(Abs()) == old(Load(Abs())) && (rc, Abs()) == Pipeline.Flush(old(Abs()), r)
    {
      assert Dataless(FLUSH_SQE);
      hide *;
      Table();
      ghost var s := Abs();
      rc := SubmitControl(r, FLUSH_SQE, false);
      Table();
      ghost var s1 := Abs();
      if rc == Submitted {
        RingSQ();
        RingLoad(s1);
      }
      FlushIs(s, r);
    }

    method TakeControl(k: nat, r: Request, sqe: Sqe, suppress: bool)
      requires inflight as object != qp.sq as object && inflight as object != qp.cq as object
      requires inflight.Length == MAX_INFLIGHT && qp.Valid() && |qp.queued| < qp.depth - 1 && k < MAX_INFLIGHT
      modifies inflight, qp`sqTail, qp`queued, qp.sq
      ensures qp.Valid() && Abs() == ControlPlaced(old(Abs()), k, r, sqe, suppress)
    {
      hide QueuePair.Registers, QueuePair.Contents;
      ghost var s := Abs();
      inflight[k] := Busy(r, false, NoData, suppress);
      assert inflight[..] == s.slots[k := inflight[k]];
      PlaceSqe(k, sqe.(cid := k + 1), s);
    }

    // ----- Harvest -----------------------------------------------------------------------

    /** NVMeIO_Harvest. */
    method Harvest()
      requires Valid()
      modifies this`pins, this`heapLists, this`outcomes, inflight, ram
      modifies qp`cqHead, qp`cqPhase, qp`cqDoorbell, qp`posted, qp`reaped
      ensures Valid() && Abs() == Pipeline.Harvest(cfg, old(Abs())) && Load(Abs()) <= old(Load(Abs()))
    {
      hide *;
      Table();
      HarvestLoad(cfg, Abs());
      ghost var goal := Pipeline.Harvest(cfg, Abs());
      while true
        invariant Valid() && Shape(cfg, Abs()) && Pipeline.Harvest(cfg, Abs()) == goal
        decreases |qp.posted|
      {
        ghost var s := Abs();
        var entry := Take();
        HarvestUnfolds(cfg, s);
        if entry.None? {
          break;
        }
        Deal(entry.value);
      }
    }

    /** The entry under the CQ head, if its phase says it is new. */
    method Take() returns (entry: Option<Cqe>)
      requires Valid()
      modifies qp`cqHead, qp`cqPhase, qp`cqDoorbell, qp`posted, qp`reaped
      ensures Valid() && qp.posted == if old(qp.posted) == [] then [] else old(qp.posted)[1..]
      ensures entry == (if old(Abs()).posted == [] then None else Some(old(Abs()).posted[0]))
      ensures Abs() == Taken(old(Abs())) && old(Abs()).posted == old(qp.posted)
    {
      TakenBalanced(cfg, Abs());
      hide Balanced, BuffersApart, Layout, Described, QueuePair.Registers, QueuePair.Contents;
      entry := qp.Reap();
    }

    /** The body of Harvest's loop, once the head has moved. */
    method Deal(c: Cqe)
      requires Valid()
      modifies this`pins, this`heapLists, this`outcomes, inflight, ram
      ensures Valid() && Abs() == Consume(cfg, old(Abs()), c)
    {
      ghost var s := Abs();
      hide *;
      Table();
      var slot := c.cid - 1;
      ConsumeUnfolds(cfg, s, c);
      if 0 <= slot < MAX_INFLIGHT && inflight[slot].Busy? {
        Settle(slot, c);
      }
    }

    /** Complete the request in slot `k`. */
    method Settle(k: nat, c: Cqe)
      requires Valid() && k < MAX_INFLIGHT && inflight[k].Busy?
      modifies this`pins, this`heapLists, this`outcomes, inflight, ram
      ensures Valid() && old(Abs()).slots[k].Busy? && Abs() == Complete(cfg, old(Abs()), k, c)
    {
      hide Abs, Shape, Balanced, BuffersApart, Unmap, Complete, BounceOut, Layout, Described, QueuePair.Registers, QueuePair.Contents;
      Table();
      ghost var s := Abs();
      var b := inflight[k];
      LiveSlot(k);
      var mem := CopyBack(k, c.ok);
      EndTransfer(b.path);
      FreeSlot(k, Outcome(b.req, b.isWrite, b.path, !b.suppress, c.ok, if c.ok then b.req.length else 0,
                          mem, c.before, c.after));
      CompleteUnfolds(cfg, s, k, c);
    }

    lemma LiveSlot(k: nat)
      requires Valid() && k < MAX_INFLIGHT && inflight[k].Busy?
      ensures inflight[k].path.Mapped? ==> Live(inflight[k].path, pins, heapLists)
      ensures MovesData(inflight[k]) ==> inflight[k].req.length > 0 && Described(cfg, inflight[k].req) && BufferApart(cfg, inflight[k].req)
      ensures BounceFits(inflight[k])
    {
      hide Balanced, Described, Layout, BufferApart, Live;
      if inflight[k].path.Mapped? { LiveDma(Abs(), k); }
    }

    /** A bounced read that succeeded is copied out; `mem` is memory as it then is. */
    method CopyBack(k: nat, ok: bool) returns (mem: Mem)
      requires inflight.Length == MAX_INFLIGHT && k < MAX_INFLIGHT && inflight[k].Busy? && Layout(cfg) && qp.announced <= |qp.queued|
      requires MovesData(inflight[k]) ==> inflight[k].req.length > 0 && Described(cfg, inflight[k].req) && BufferApart(cfg, inflight[k].req)
      requires BounceFits(inflight[k])
      modifies ram
      ensures mem == BounceOut(cfg, old(Abs()).mem, k, inflight[k], ok) && Abs() == old(Abs()).(mem := mem)
    {
      var b := inflight[k];
      if b.path.Bounced? && !b.isWrite && ok && b.req.data != 0 {
        EndToEnd.OwnedApart(cfg, k, cfg.bounce[k], b.req.length, Denotes(b.req.sg));
        ram.Copy(Span(cfg.bounce[k], b.req.length), Denotes(b.req.sg));
      }
      mem := ram.bytes;
    }

    method EndTransfer(path: Path)
      requires qp.announced <= |qp.queued| && (path.Mapped? ==> Live(path, pins, heapLists))
      modifies this`pins, this`heapLists
      ensures Abs() == Unmap(old(Abs()), path)
    {
      if path.Mapped? {
        ReleaseDma(path);
      }
    }

    method FreeSlot(k: nat, o: Outcome)
      requires inflight.Length == MAX_INFLIGHT && k < MAX_INFLIGHT && qp.announced <= |qp.queued|
      modifies inflight, this`outcomes
      ensures Abs() == old(Abs()).(slots := old(Abs()).slots[k := Free], outcomes := old(Abs()).outcomes + [o])
    {
      ghost var s := Abs();
      inflight[k] := Free;
      outcomes := outcomes + [o];
      assert inflight[..] == s.slots[k := Free];
    }

    /** Ask Harvest not to reply for slot `k`. */
    method Suppress(k: nat)
      requires Valid() && k < MAX_INFLIGHT && inflight[k].Busy?
      modifies inflight
      ensures Valid() && Load(Abs()) == old(Load(Abs())) && inflight[k].Busy? && Abs() == Suppressed(old(Abs()), k)
    {
      ghost var s := Abs();
      SuppressUnfolds(cfg, s, k);
      hide Shape, Balanced, BuffersApart, Load, QueuePair.Registers, QueuePair.Contents;
      inflight[k] := inflight[k].(suppress := true);
      assert inflight[..] == s.slots[k := s.slots[k].(suppress := true)];
    }

    /** Give up on the command in slot `k`: release its pin, free the slot. */
    method GiveUp(k: nat)
      requires Valid() && k < MAX_INFLIGHT && inflight[k].Busy?
      modifies this`pins, this`heapLists, inflight
      ensures Valid() && Abs() == Pipeline.GiveUp(old(Abs()), k) && Load(Abs()) == old(Load(Abs())) + 1
    {
      ghost var s := Abs();
      hide *;
      Table();
      LiveSlot(k);
      EndTransfer(inflight[k].path);
      ClearSlot(k);
      GiveUpUnfolds(cfg, s, k);
      GiveUpLoad(s, k);
    }

    method ClearSlot(k: nat)
      requires inflight.Length == MAX_INFLIGHT && k < MAX_INFLIGHT && qp.announced <= |qp.queued|
      modifies inflight
      ensures Abs() == old(Abs()).(slots := old(Abs()).slots[k := Free])
    {
      ghost var s := Abs();
      inflight[k] := Free;
      assert inflight[..] == s.slots[k := Free];
    }

    // ----- Everybody else ----------------------------------------------------------------

    /** Fetch at the doorbell. */
    method DeviceFetch()
      requires qp.Valid()
      modifies this`fetched, qp`sqHead, qp`queued, qp`announced, qp`fetched
      ensures qp.Valid()
      ensures Abs() == if old(Abs()).published == [] then old(Abs()) else Pipeline.Fetch(old(Abs()))
    {
      hide QueuePair.Registers, QueuePair.Contents;
      var e := qp.Fetch();
      if e.Some? {
        fetched := fetched + [e.value];
      }
    }

    method DeviceExecute(i: nat, f: Effect)
      requires qp.announced <= |qp.queued| && cfg.ps > 0 && i < |fetched| && Executable(cfg, ram.bytes, fetched[i], f)
      modifies this`fetched, this`done, this`disk, ram
      ensures Abs() == Pipeline.Execute(cfg, old(Abs()), i, f)
    {
      hide Executable, MemAfter, DiskAfter, RemoveAt;
      var e := fetched[i];
      var after := DiskAfter(cfg, ram.bytes, disk, e, f);
      done := done + [Cqe(e.cid, f.ok, disk, after)];
      ram.bytes := MemAfter(cfg, ram.bytes, disk, e, f);
      fetched, disk := RemoveAt(fetched, i), after;
    }

    method DevicePost(i: nat)
      requires qp.Valid() && i < |done| && |qp.posted| < qp.depth - 1
      modifies this`done, qp`cqTail, qp`devPhase, qp`posted, qp.cq
      ensures qp.Valid() && Abs() == Pipeline.Post(old(Abs()), i)
    {
      hide QueuePair.Registers, QueuePair.Contents, RemoveAt;
      var ok := qp.Post(done[i]);
      done := RemoveAt(done, i);
    }

    /** One step of the controller or of a client, if it is possible. */
    method Other(st: Step)
      requires Valid() && Load(Abs()) < qp.depth
      modifies this`fetched, this`done, this`disk, ram, qp.cq
      modifies qp`sqHead, qp`queued, qp`announced, qp`fetched, qp`cqTail, qp`devPhase, qp`posted
      ensures Valid() && Load(Abs()) == old(Load(Abs())) && Abs() == Happen(cfg, old(Abs()), st)
    {
      hide Shape, Balanced, BuffersApart, Load, Abs, Happen, Executable, ClientMay, QueuePair.Registers, QueuePair.Contents;
      hide Pipeline.Fetch, Pipeline.Execute, Pipeline.Post;
      Table();
      CqRoom();
      ghost var s := Abs();
      match st {
        case DoFetch => DeviceFetch();
        case DoExecute(i, f) =>
          if i < |fetched| && Executable(cfg, ram.bytes, fetched[i], f) { DeviceExecute(i, f); }
        case DoPost(i) =>
          if i < |done| { DevicePost(i); }
        case ClientStore(a, v) =>
          if ClientMay(cfg, inflight[..], a) { Store(a, v); }
        case _ =>
      }
      HappenUnfolds(cfg, s, st);
    }

    method Store(a: nat, v: byte)
      requires qp.announced <= |qp.queued|
      modifies ram
      ensures Abs() == old(Abs()).(mem := old(Abs()).mem[a := v])
    {
      ram.bytes := ram.bytes[a := v];
    }

    /** A completion still to be posted has room in the CQ. */
    lemma CqRoom()
      requires Valid() && Load(Abs()) < qp.depth
      ensures ram.bytes == Abs().mem && fetched == Abs().fetched && done == Abs().done && qp.Valid()
      ensures done != [] ==> |qp.posted| < qp.depth - 1
    {
      LoadLeavesRoom(Abs(), qp.depth);
    }

    /** The unit task lets the others run. */
    method LetRun(turn: Turn)
      requires Valid() && Load(Abs()) < qp.depth
      modifies this`fetched, this`done, this`disk, ram, qp.cq
      modifies qp`sqHead, qp`queued, qp`announced, qp`fetched, qp`cqTail, qp`devPhase, qp`posted
      ensures Valid() && Load(Abs()) == old(Load(Abs())) && Abs() == Elapse(cfg, old(Abs()), turn)
    {
      hide Valid, Abs, Shape, Load, Happen;
      Table();
      ghost var load, goal := Load(Abs()), Elapse(cfg, Abs(), turn);
      var i := 0;
      while i < |turn|
        invariant 0 <= i <= |turn|
        invariant Valid() && qp.announced <= |qp.queued| && Shape(cfg, Abs()) && Load(Abs()) == load
        invariant Elapse(cfg, Abs(), turn[i..]) == goal
      {
        Other(turn[i]);
        Table();
        assert turn[i..][0] == turn[i] && turn[i..][1..] == turn[i + 1..];
        i := i + 1;
      }
    }

    /** Forbid/Permit inside a bounded wait.  The unit task does so only with every SQE published, so that
      * what it waits for is under way. */
    method Yield(turn: Turn)
      requires Valid() && Load(Abs()) < qp.depth && Abs().unpublished == []
      modifies this`fetched, this`done, this`disk, ram, qp.cq
      modifies qp`sqHead, qp`queued, qp`announced, qp`fetched, qp`cqTail, qp`devPhase, qp`posted
      ensures Valid() && Load(Abs()) == old(Load(Abs())) && Abs() == Elapse(cfg, old(Abs()), turn) && Abs().unpublished == []
    {
      hide *;
      Table();
      ghost var s := Abs();
      ElapsePublished(cfg, s, turn);
      LetRun(turn);
    }
  }

  lemma ElapsePublished(cfg: Config, s: Sys, turn: Turn)
    requires Shape(cfg, s)
    ensures Elapse(cfg, s, turn).unpublished == s.unpublished
  {
    hide Shape;
  }

  lemma SuppressUnfolds(cfg: Config, s: Sys, k: nat)
    requires Shape(cfg, s) && Balanced(s) && BuffersApart(cfg, s.slots) && k < MAX_INFLIGHT && s.slots[k].Busy?
    ensures var s' := Suppressed(s, k); Shape(cfg, s') && Balanced(s') && BuffersApart(cfg, s'.slots) && Load(s') == Load(s)
  {
    SuppressBalanced(s, k);
    SuppressLoad(s, k);
    hide Balanced, Load, Described, BufferApart;
    TakeApart(cfg, s.slots, k, s.slots[k].(suppress := true));
  }

  lemma GiveUpUnfolds(cfg: Config, s: Sys, k: nat)
    requires Shape(cfg, s) && Balanced(s) && BuffersApart(cfg, s.slots) && k < MAX_INFLIGHT && s.slots[k].Busy?
    ensures var s' := Pipeline.GiveUp(s, k);
      && Shape(cfg, s') && Balanced(s') && BuffersApart(cfg, s'.slots)
      && var u := Unmap(s, s.slots[k].path); s' == u.(slots := u.slots[k := Free])
  {
    FreeBalanced(s, Pipeline.GiveUp(s, k), k);
    hide Balanced, Described, BufferApart;
    TakeApart(cfg, s.slots, k, Free);
  }

  lemma InitValid(cfg: Config, mem: Mem, disk: Mem)
    requires Layout(cfg)
    ensures var s := Init(mem, disk); Shape(cfg, s) && Balanced(s) && BuffersApart(cfg, s.slots)
  {
    NothingPinned(Init(mem, disk).slots);
  }

  lemma HappenUnfolds(cfg: Config, s: Sys, st: Step)
    requires Shape(cfg, s) && Balanced(s)
    ensures cfg.ps > 0
    ensures var s' := Happen(cfg, s, st);
      && Shape(cfg, s') && Balanced(s') && Load(s') == Load(s) && s'.slots == s.slots
      && s' == match st
           case DoFetch => if s.published == [] then s else Fetch(s)
           case DoExecute(i, f) =>
             if i < |s.fetched| && Executable(cfg, s.mem, s.fetched[i], f) then Execute(cfg, s, i, f) else s
           case DoPost(i) => if i < |s.done| then Post(s, i) else s
           case ClientStore(a, v) => if ClientMay(cfg, s.slots, a) then s.(mem := s.mem[a := v]) else s
           case _ => s
  {
    var s' := Happen(cfg, s, st);
    HappenLoad(cfg, s, st);
    if Outside(st) && Enabled(cfg, s, st) {
      StepBalanced(cfg, s, st);
    }
    hide Balanced, Load, Described, Executable, Execute, ClientMay;
  }

  // ----- The step functions, case by case ------------------------------------------------

  lemma Areas(cfg: Config, k: nat)
    requires Layout(cfg) && k < MAX_INFLIGHT
    ensures |cfg.bounce| == |cfg.list| == MAX_INFLIGHT && Page(cfg.ps) && cfg.bounce[k] + BOUNCE_SIZE <= TWO32
  {
  }

  /** SubmitBounced after the copy. */
  function BouncedTail(cfg: Config, s: Sys, k: nat, r: Request, isWrite: bool, lba: nat, nlb: nat): (Rc, Sys)
    requires Layout(cfg) && k < MAX_INFLIGHT && |s.slots| == MAX_INFLIGHT && r.length <= BOUNCE_SIZE
    requires lba < TWO64 && 1 <= nlb <= 0x1_0000
  {
    match Bounce(s.mem, cfg.bounce[k], r.length, cfg.ps, cfg.list[k])
    case TooManyPages(m) => (Failed(-4, BadLength), s.(mem := m))
    case Prps(prp1, prp2, m) =>
      (Submitted, Place(s.(mem := m), k, Busy(r, isWrite, Bounced, false), Encode(isWrite, k + 1, prp1, prp2, lba, nlb)))
  }

  lemma BouncedUnfolds(cfg: Config, s: Sys, k: nat, r: Request, w: bool, lba: nat, nlb: nat)
    requires Shape(cfg, s) && k < MAX_INFLIGHT && s.slots[k].Free? && Described(cfg, r) && 0 < r.length <= BOUNCE_SIZE
    requires lba < TWO64 && 1 <= nlb <= 0x1_0000 && Balanced(s) && BuffersApart(cfg, s.slots) && BufferApart(cfg, r)
    ensures var o := SubmitBounced(cfg, s, k, r, w, lba, nlb);
      && Shape(cfg, o.1) && Balanced(o.1) && BuffersApart(cfg, o.1.slots)
      && o == BouncedTail(cfg, s.(mem := BounceIn(cfg, s.mem, k, r, w)), k, r, w, lba, nlb)
  {
    BouncedBalanced(cfg, s, k, r, w, lba, nlb);
    hide Balanced, BuffersApart, WellFormed, Total, Bounce, BounceIn, Encode, Denotes, BufferApart;
    TakeApart(cfg, s.slots, k, Busy(r, w, Bounced, false));
  }

  lemma SubmitIs(cfg: Config, s: Sys, r: Request, w: bool, env: DmaEnv)
    requires Shape(cfg, s) && Described(cfg, r)
    ensures Pipeline.Submit(cfg, s, r, w, env)
      == var o := SubmitNoRing(cfg, s, r, w, env); if o.0 == Submitted then (o.0, RingSQ(o.1)) else o
  {
    hide SubmitNoRing;
  }

  lemma FlushIs(s: Sys, r: Request)
    ensures Pipeline.Flush(s, r) == var o := SubmitControl(s, r, FLUSH_SQE, false); if o.0 == Submitted then (o.0, RingSQ(o.1)) else o
  {
  }

  lemma TakenBalanced(cfg: Config, s: Sys)
    requires Shape(cfg, s) && Balanced(s)
    ensures Shape(cfg, Taken(s)) && Balanced(Taken(s))
  {
    hide Balanced;
    SameBalanced(s, Taken(s));
  }

  /** What Reap leaves of the CQ. */
  function Taken(s: Sys): Sys {
    if s.posted == [] then s else s.(posted := s.posted[1..])
  }

  lemma HarvestUnfolds(cfg: Config, s: Sys)
    requires Shape(cfg, s)
    ensures Shape(cfg, Taken(s))
    ensures Pipeline.Harvest(cfg, s) == if s.posted == [] then s else Pipeline.Harvest(cfg, Consume(cfg, Taken(s), s.posted[0]))
    ensures s.posted == [] ==> Taken(s) == s
    ensures s.posted != [] ==> Consume(cfg, Taken(s), s.posted[0]).posted == s.posted[1..]
  {
    hide Consume, Described;
  }

  lemma ConsumeUnfolds(cfg: Config, s: Sys, c: Cqe)
    requires Shape(cfg, s)
    ensures |s.slots| == MAX_INFLIGHT
    ensures Consume(cfg, s, c) == if 1 <= c.cid <= MAX_INFLIGHT && s.slots[c.cid - 1].Busy? then Complete(cfg, s, c.cid - 1, c) else s
  {
    hide Complete, Described, Layout;
  }

  lemma CompleteUnfolds(cfg: Config, s: Sys, k: nat, c: Cqe)
    requires Shape(cfg, s) && Balanced(s) && BuffersApart(cfg, s.slots) && k < MAX_INFLIGHT && s.slots[k].Busy?
    ensures var s', b := Complete(cfg, s, k, c), s.slots[k];
      var m := BounceOut(cfg, s.mem, k, b, c.ok);
      var u := Unmap(s.(mem := m), b.path);
      && Shape(cfg, s') && Balanced(s') && BuffersApart(cfg, s'.slots)
      && s' == u.(slots := u.slots[k := Free],
                  outcomes := u.outcomes + [Outcome(b.req, b.isWrite, b.path, !b.suppress, c.ok,
                                                    if c.ok then b.req.length else 0, m, c.before, c.after)])
  {
    CompleteIs(cfg, s, k, c);
    FreeBalanced(s, Complete(cfg, s, k, c), k);
    hide *;
    TakeApart(cfg, s.slots, k, Free);
  }

  lemma CompleteIs(cfg: Config, s: Sys, k: nat, c: Cqe)
    requires Shape(cfg, s) && k < MAX_INFLIGHT && s.slots[k].Busy?
    ensures var s', b := Complete(cfg, s, k, c), s.slots[k];
      var m := BounceOut(cfg, s.mem, k, b, c.ok);
      var u := Unmap(s.(mem := m), b.path);
      && s'.slots == s.slots[k := Free] && u.slots == s.slots && BounceFits(Free) && !MovesData(Free)
      && s'.pins == Unmap(s, b.path).pins && s'.heapLists == Unmap(s, b.path).heapLists
      && s' == u.(slots := u.slots[k := Free],
                  outcomes := u.outcomes + [Outcome(b.req, b.isWrite, b.path, !b.suppress, c.ok,
                                                    if c.ok then b.req.length else 0, m, c.before, c.after)])
  {
    hide BounceOut, Described, Layout;
  }

  function ControlPlaced(s: Sys, k: nat, r: Request, sqe: Sqe, sup: bool): Sys
    requires k < |s.slots|
  {
    Place(s, k, Busy(r, false, NoData, sup), sqe.(cid := k + 1))
  }

  lemma ControlUnfolds(cfg: Config, s: Sys, r: Request, sqe: Sqe, sup: bool)
    requires Shape(cfg, s) && Balanced(s) && BuffersApart(cfg, s.slots) && Dataless(sqe)
    ensures var (rc, s') := SubmitControl(s, r, sqe, sup);
      && Shape(cfg, s') && Balanced(s') && BuffersApart(cfg, s'.slots) && Load(s') == Load(s)
      && (rc, s') == if FindFree(s.slots).None? then (NoSlot, s)
                     else (Submitted, ControlPlaced(s, FindFree(s.slots).value, r, sqe, sup))
  {
    ControlBalanced(s, r, sqe, sup);
    ControlLoad(s, r, sqe, sup);
    hide Balanced, BuffersApart, Load, Described, BufferApart;
    if FindFree(s.slots).Some? { TakeApart(cfg, s.slots, FindFree(s.slots).value, Busy(r, false, NoData, sup)); }
  }

  lemma StartShape(cfg: Config, s: Sys, r: Request, w: bool, pooled: bool)
    requires Shape(cfg, s)
    ensures Shape(cfg, StartDma(s, r, w, pooled))
  {
  }

  /** The cases of the direct path, and what they keep. */
  lemma MappedUnfolds(cfg: Config, s: Sys, k: nat, r: Request, w: bool, lba: nat, nlb: nat, env: DmaEnv, pooled: bool)
    requires Shape(cfg, s) && k < MAX_INFLIGHT && s.slots[k].Free? && Described(cfg, r) && 0 < r.length
    requires pooled == (|r.sg| <= cfg.poolCapacity && cfg.pool[k])
    requires lba < TWO64 && 1 <= nlb <= 0x1_0000 && Balanced(s) && BuffersApart(cfg, s.slots) && BufferApart(cfg, r)
    ensures Shape(cfg, StartDma(s, r, w, pooled))
    ensures var o := SubmitMapped(cfg, s, k, r, w, lba, nlb, env);
      && Shape(cfg, o.1) && Balanced(o.1) && BuffersApart(cfg, o.1.slots)
      && o == if env.refuses || (!pooled && env.allocFails) then (Failed(-3, Aborted), s)
              else PlaceMapped(cfg, StartDma(s, r, w, pooled), k, r, w, lba, nlb, pooled)
  {
    MappedBalanced(cfg, s, k, r, w, lba, nlb, env);
    hide Balanced, BuffersApart, WellFormed, Total, Direct, Encode, Denotes, BufferApart;
    TakeApart(cfg, s.slots, k, Busy(r, w, MappedPath(r, w, pooled), false));
  }

  lemma Accepted(offset: u64, r: Request, bs: nat, ps: nat)
    requires bs > 0 && ps > 0
    ensures var v := Validate(offset, r.length, r.data != 0, bs);
      v.Transfer? ==> v.lba < TWO64 && 1 <= v.nlb <= 0x1_0000 && 0 < r.length
    ensures UseBounce(r.length, r.data, ps) ==> r.length <= BOUNCE_SIZE
  {
    ValidateExact(offset, r.length, r.data != 0, bs);
  }

  /** The cases of SubmitNoRing, one by one. */
  lemma SubmitUnfolds(cfg: Config, s: Sys, r: Request, w: bool, env: DmaEnv)
    requires Shape(cfg, s) && Described(cfg, r)
    ensures cfg.bs > 0 && cfg.ps > 0
    ensures var out, free, v := SubmitNoRing(cfg, s, r, w, env), FindFree(s.slots), Validate(Offset(r), r.length, r.data != 0, cfg.bs);
      && (free.None? ==> out == (NoSlot, s))
      && (free.Some? ==> free.value < MAX_INFLIGHT && s.slots[free.value].Free?)
      && (free.Some? && v.Reject? ==> out == (Failed(-5, v.error), s))
      && (free.Some? && v.Nothing? ==> out == (NothingToDo, s))
      && (v.Transfer? ==> v.lba < TWO64 && 1 <= v.nlb <= 0x1_0000 && 0 < r.length)
      && (free.Some? && v.Transfer? && UseBounce(r.length, r.data, cfg.ps) ==>
            r.length <= BOUNCE_SIZE && out == SubmitBounced(cfg, s, free.value, r, w, v.lba, v.nlb))
      && (free.Some? && v.Transfer? && !UseBounce(r.length, r.data, cfg.ps) ==>
            out == SubmitMapped(cfg, s, free.value, r, w, v.lba, v.nlb, env))
  {
    ValidateExact(Offset(r), r.length, r.data != 0, cfg.bs);
    hide SubmitBounced, SubmitMapped, WellFormed, Total;
  }

  /** Taking a slot for a buffer that is apart from the driver's memory. */
  lemma TakeApart(cfg: Config, slots: seq<Slot>, k: nat, b: Slot)
    requires Layout(cfg) && BuffersApart(cfg, slots) && k < |slots| && BounceFits(b) && (MovesData(b) ==> BufferApart(cfg, b.req))
    ensures BuffersApart(cfg, slots[k := b])
  {
    hide BufferApart;
  }

  /** The StartDMA call a slot's dma_* fields stand for. */
  function Started(path: Path): Pin
    requires path.Mapped?
  {
    Pin(path.buf, path.size, if path.flags >= POOL_MARK then path.flags - POOL_MARK else path.flags)
  }

  ghost predicate Live(path: Path, pins: multiset<Pin>, heapLists: int)
    requires path.Mapped?
  {
    Started(path) in pins && (path.flags < POOL_MARK ==> heapLists > 0)
  }

  /** A mapped slot's pin is live, and so is an array of its own. */
  lemma LiveDma(s: Sys, k: nat)
    requires Balanced(s) && k < |s.slots| && s.slots[k].Busy? && s.slots[k].path.Mapped?
    ensures Live(s.slots[k].path, s.pins, s.heapLists)
  {
    assert Remembers(s.slots[k]);
    PinsInclude(s.slots, k);
    ArraysInclude(s.slots, k);
    assert SlotPins(s.slots[k]) <= s.pins;
  }

  lemma {:induction false} ArraysInclude(slots: seq<Slot>, k: nat)
    requires k < |slots|
    ensures SlotArrays(slots[k]) <= ArraysOf(slots)
  {
    ArraysNonNegative(slots[..|slots| - 1]);
    if k < |slots| - 1 { ArraysInclude(slots[..|slots| - 1], k); }
  }
}
