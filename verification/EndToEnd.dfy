/** End to end: what a successful reply means for the caller's buffer and for the disk.
  *
  * The invariant follows each command from its SQE to its reply: as long as it is under way its
  * PRPs decode to its own buffer (or bounce buffer), a write's bytes are still in place, and a
  * finished read's bytes stay where the controller put them until Harvest hands them over. */
module EndToEnd {
  import opened Base
  import opened Memory
  import opened Modular
  import opened Prp
  import opened Commands
  import opened Pipeline
  import opened Matching

  /** No two of the driver's own regions overlap. */
  predicate Disjoint(cfg: Config)
    requires Layout(cfg)
  {
    && (forall i, j :: 0 <= i < j < MAX_INFLIGHT ==>
          cfg.bounce[i] + BOUNCE_SIZE <= cfg.bounce[j] || cfg.bounce[j] + BOUNCE_SIZE <= cfg.bounce[i])
    && (forall i, j :: 0 <= i < j < MAX_INFLIGHT ==>
          cfg.list[i] + cfg.ps <= cfg.list[j] || cfg.list[j] + cfg.ps <= cfg.list[i])
    && (forall i, j :: 0 <= i < MAX_INFLIGHT && 0 <= j < MAX_INFLIGHT ==>
          cfg.bounce[i] + BOUNCE_SIZE <= cfg.list[j] || cfg.list[j] + cfg.ps <= cfg.bounce[i])
  }

  /** Where the controller moves the data of slot `k`. */
  function Target(cfg: Config, k: nat, b: Slot): seq<nat>
    requires Layout(cfg) && k < MAX_INFLIGHT && MovesData(b)
  {
    if b.path.Bounced? then Span(cfg.bounce[k], b.req.length) else Denotes(b.req.sg)
  }

  function ListSpan(cfg: Config, k: nat): seq<nat>
    requires Layout(cfg) && k < MAX_INFLIGHT
  {
    Span(cfg.list[k], cfg.ps)
  }

  /** The disk range the driver addresses for a request. */
  function Range(r: Request): seq<nat> {
    Span(Offset(r), r.length)
  }

  /** The disk range a request asks for. */
  function RequestedRange(r: Request): seq<nat> {
    Span(RequestedOffset(r.command, r.actual, r.offset), r.length)
  }

  /** They are the same, except for a FORMAT64 above 4 GiB. */
  lemma RangeAsRequested(r: Request)
    ensures Range(r) == RequestedRange(r) <==> r.length == 0 || r.actual == 0 || !IsFormat64(r.command)
  {
    OffsetFaithful(r.command, r.actual, r.offset);
    if r.length > 0 {
      assert Range(r)[0] == Offset(r) && RequestedRange(r)[0] == RequestedOffset(r.command, r.actual, r.offset);
    }
  }

  /** A command not yet executed is the one its slot asked for. */
  predicate SqeFits(cfg: Config, m: Mem, k: nat, b: Slot, e: Sqe)
    requires Layout(cfg) && k < MAX_INFLIGHT && b.Busy?
  {
    if b.path.NoData? then Dataless(e)
    else
      && e.opcode == (if b.isWrite then OP_WRITE else OP_READ)
      && DiskSpan(cfg, e) == Range(b.req)
      && Nlb(e) * cfg.bs == b.req.length == |Target(cfg, k, b)|
      && (Pages(cfg, m, e).Some? ==> Pages(cfg, m, e).value == Target(cfg, k, b))
      && (b.req.length > FirstBytes(e.prp1, cfg.ps) + cfg.ps ==> e.prp2 == cfg.list[k])
      && (b.isWrite ==> Gather(m, Target(cfg, k, b)) == b.req.payload)
  }

  /** A command executed but not yet harvested has done what its slot asked for. */
  predicate CqeFits(cfg: Config, m: Mem, k: nat, b: Slot, c: Cqe)
    requires Layout(cfg) && k < MAX_INFLIGHT && b.Busy?
  {
    c.ok && !b.path.NoData? ==>
      if b.isWrite then |b.req.payload| == b.req.length && c.after == Scatter(c.before, Range(b.req), b.req.payload)
      else Gather(m, Target(cfg, k, b)) == Gather(c.before, Range(b.req))
  }

  /** The buffer of slot `k` is its own. */
  ghost predicate Owns(cfg: Config, slots: seq<Slot>, k: nat)
    requires Layout(cfg) && |slots| == MAX_INFLIGHT && k < MAX_INFLIGHT
  {
    && (slots[k].Busy? && slots[k].path.NoData? ==> Controlling(slots[k].req))
    && (MovesData(slots[k]) ==>
      && Directed(slots[k].req, slots[k].isWrite)
      && Distinct(Denotes(slots[k].req.sg))
      && |Denotes(slots[k].req.sg)| == slots[k].req.length
      && (slots[k].path.Bounced? ==> slots[k].req.length <= BOUNCE_SIZE && slots[k].req.data != 0)
      && (forall a :: a in Denotes(slots[k].req.sg) ==> !DriverOwned(cfg, a))
      && (forall j :: 0 <= j < MAX_INFLIGHT && j != k && MovesData(slots[j]) ==>
            (slots[k].isWrite && slots[j].isWrite) || Apart(Denotes(slots[k].req.sg), Denotes(slots[j].req.sg))))
  }

  function Pending(s: Sys): seq<Sqe> {
    s.unpublished + s.published + s.fetched
  }

  function Finished(s: Sys): seq<Cqe> {
    s.done + s.posted
  }

  ghost predicate SqesFit(cfg: Config, m: Mem, slots: seq<Slot>, q: seq<Sqe>)
    requires Layout(cfg) && |slots| == MAX_INFLIGHT
  {
    forall e :: e in q ==> 1 <= e.cid <= MAX_INFLIGHT && slots[e.cid - 1].Busy? && SqeFits(cfg, m, e.cid - 1, slots[e.cid - 1], e)
  }

  ghost predicate CqesFit(cfg: Config, m: Mem, slots: seq<Slot>, q: seq<Cqe>)
    requires Layout(cfg) && |slots| == MAX_INFLIGHT
  {
    forall c :: c in q ==> 1 <= c.cid <= MAX_INFLIGHT && slots[c.cid - 1].Busy? && CqeFits(cfg, m, c.cid - 1, slots[c.cid - 1], c)
  }

  ghost predicate DataInv(cfg: Config, s: Sys)
    requires Shape(cfg, s)
  {
    && Matched(s)
    && (forall k :: 0 <= k < MAX_INFLIGHT ==> Owns(cfg, s.slots, k))
    && SqesFit(cfg, s.mem, s.slots, Pending(s))
    && CqesFit(cfg, s.mem, s.slots, Finished(s))
  }

  /** What a harvested outcome guarantees.  A successful read has put into the caller's buffer the
    * named disk range as it was when the controller executed the command; a successful write has
    * changed the disk in exactly the named range, to exactly the caller's bytes.  The direction is the one
    * the command names, and only flushes and SCSI commands succeed without data. */
  predicate Faithful(o: Outcome) {
    o.ok ==>
      if o.path.NoData? then Controlling(o.req)
      else
      && o.actual == o.req.length && Directed(o.req, o.isWrite)
      && if o.isWrite then |o.req.payload| == o.req.length && o.after == Scatter(o.before, Range(o.req), o.req.payload)
         else Gather(o.mem, Denotes(o.req.sg)) == Gather(o.before, Range(o.req))
  }

  /** The same for the commands by name and the range they ask for, whatever way the request went. */
  predicate AsRequested(o: Outcome) {
    o.ok && (o.req.actual == 0 || !IsFormat64(o.req.command)) ==>
      && (IsRead(o.req.command) ==>
            o.actual == o.req.length && Gather(o.mem, Denotes(o.req.sg)) == Gather(o.before, RequestedRange(o.req)))
      && (IsWrite(o.req.command) ==>
            && o.actual == o.req.length == |o.req.payload|
            && o.after == Scatter(o.before, RequestedRange(o.req), o.req.payload))
      && (IsRead(o.req.command) || IsWrite(o.req.command) || IsFlush(o.req.command) || o.req.command == HD_SCSICMD)
  }

  lemma FaithfulAsRequested(o: Outcome)
    requires Faithful(o)
    ensures AsRequested(o)
  {
    SwitchExact(o.req.command);
    RangeAsRequested(o.req);
    hide Handled, IsRead, IsWrite, IsFlush, IsFormat64, Range, RequestedRange, Gather, Scatter;
  }

  // ----- Frames --------------------------------------------------------------------------

  /** Memory may change anywhere but in a slot's list page and target. */
  ghost predicate Keeps(cfg: Config, m: Mem, m': Mem, k: nat, b: Slot)
    requires Layout(cfg) && k < MAX_INFLIGHT
  {
    MovesData(b) ==>
      && Gather(m, ListSpan(cfg, k)) == Gather(m', ListSpan(cfg, k))
      && Gather(m, Target(cfg, k, b)) == Gather(m', Target(cfg, k, b))
  }

  lemma PagesFrame(cfg: Config, m: Mem, m': Mem, k: nat, b: Slot, e: Sqe)
    requires Layout(cfg) && k < MAX_INFLIGHT && MovesData(b) && SqeFits(cfg, m, k, b, e)
    requires Gather(m, ListSpan(cfg, k)) == Gather(m', ListSpan(cfg, k))
    ensures Pages(cfg, m', e) == Pages(cfg, m, e)
  {
    hide Total, WellFormed;
    var len := Nlb(e) * cfg.bs;
    if len <= FirstBytes(e.prp1, cfg.ps) + cfg.ps {
      SmallDecode(m, m', e.prp1, e.prp2, len, cfg.ps);
    } else if Decodable(m, e.prp1, e.prp2, len, cfg.ps) {
      DecodeFrame(m, m', e.prp1, e.prp2, len, cfg.ps);
    } else if Decodable(m', e.prp1, e.prp2, len, cfg.ps) {
      DecodeFrame(m', m, e.prp1, e.prp2, len, cfg.ps);
    }
  }

  lemma SqeFrame(cfg: Config, m: Mem, m': Mem, k: nat, b: Slot, e: Sqe)
    requires Layout(cfg) && k < MAX_INFLIGHT && b.Busy? && SqeFits(cfg, m, k, b, e) && Keeps(cfg, m, m', k, b)
    ensures SqeFits(cfg, m', k, b, e)
  {
    if !b.path.NoData? {
      PagesFrame(cfg, m, m', k, b, e);
      hide Pages, DiskSpan, Range, Target, FirstBytes, Nlb;
    }
  }

  /** `cid` is used by no command of `q`. */
  predicate Unused(cid: nat, sqes: seq<Sqe>, cqes: seq<Cqe>) {
    (forall e :: e in sqes ==> e.cid != cid) && (forall c :: c in cqes ==> c.cid != cid)
  }

  /** Commands of other slots survive a change to slot `k` and to memory they do not depend on. */
  lemma OthersFit(cfg: Config, s: Sys, m': Mem, slots': seq<Slot>, k: nat, sqes: seq<Sqe>, cqes: seq<Cqe>)
    requires Shape(cfg, s) && k < MAX_INFLIGHT && |slots'| == MAX_INFLIGHT
    requires SqesFit(cfg, s.mem, s.slots, sqes) && CqesFit(cfg, s.mem, s.slots, cqes)
    requires Unused(k + 1, sqes, cqes)
    requires forall j :: 0 <= j < MAX_INFLIGHT && j != k ==> slots'[j] == s.slots[j] && Keeps(cfg, s.mem, m', j, s.slots[j])
    ensures SqesFit(cfg, m', slots', sqes) && CqesFit(cfg, m', slots', cqes)
  {
    hide SqeFits, Layout, Described, Target, ListSpan;
    forall e | e in sqes
      ensures 1 <= e.cid <= MAX_INFLIGHT && slots'[e.cid - 1].Busy? && SqeFits(cfg, m', e.cid - 1, slots'[e.cid - 1], e)
    {
      SqeFrame(cfg, s.mem, m', e.cid - 1, s.slots[e.cid - 1], e);
    }
  }

  // ----- Uniqueness ----------------------------------------------------------------------

  lemma SqeCounted(q: seq<Sqe>, e: Sqe)
    requires e in q
    ensures multiset(SqeCids(q))[e.cid] >= 1
  {
    var i :| 0 <= i < |q| && q[i] == e;
    assert SqeCids(q)[i] == e.cid;
    assert e.cid in multiset(SqeCids(q));
  }

  lemma CqeCounted(q: seq<Cqe>, c: Cqe)
    requires c in q
    ensures multiset(CqeCids(q))[c.cid] >= 1
  {
    var i :| 0 <= i < |q| && q[i] == c;
    assert CqeCids(q)[i] == c.cid;
    assert c.cid in multiset(CqeCids(q));
  }

  lemma UnusedCid(s: Sys, cid: nat)
    requires Outstanding(s)[cid] == 0
    ensures Unused(cid, Pending(s), Finished(s))
  {
    forall e | e in Pending(s)
      ensures e.cid != cid
    {
      if e in s.unpublished { SqeCounted(s.unpublished, e); }
      else if e in s.published { SqeCounted(s.published, e); }
      else { SqeCounted(s.fetched, e); }
    }
    forall c | c in Finished(s)
      ensures c.cid != cid
    {
      if c in s.done { CqeCounted(s.done, c); } else { CqeCounted(s.posted, c); }
    }
  }

  // ----- Apartness -----------------------------------------------------------------------

  lemma InSpan(a: nat, base: nat, len: nat)
    ensures a in Span(base, len) <==> base <= a < base + len
  {
    if base <= a < base + len {
      assert Span(base, len)[a - base] == a;
    }
  }

  lemma SpansApart(b: nat, n: nat, c: nat, m: nat)
    requires b + n <= c || c + m <= b
    ensures Apart(Span(b, n), Span(c, m))
  {
    forall a | a in Span(b, n)
      ensures a !in Span(c, m)
    {
      InSpan(a, b, n);
      InSpan(a, c, m);
    }
  }

  /** A store inside slot `k`'s own bounce buffer or list page leaves every other slot alone. */
  lemma OwnRegionKeeps(cfg: Config, s: Sys, m: Mem, k: nat, base: nat, data: seq<byte>, j: nat)
    requires Shape(cfg, s) && Disjoint(cfg) && k < MAX_INFLIGHT && j < MAX_INFLIGHT && j != k && Owns(cfg, s.slots, j)
    requires (base == cfg.bounce[k] && |data| <= BOUNCE_SIZE) || (base == cfg.list[k] && |data| <= cfg.ps)
    ensures Keeps(cfg, m, Scatter(m, Span(base, |data|), data), j, s.slots[j])
  {
    if MovesData(s.slots[j]) {
      var w := Span(base, |data|);
      SpansApart(base, |data|, cfg.list[j], cfg.ps);
      GatherElsewhere(m, w, data, ListSpan(cfg, j));
      if s.slots[j].path.Bounced? {
        SpansApart(base, |data|, cfg.bounce[j], s.slots[j].req.length);
      } else {
        OwnedApart(cfg, k, base, |data|, Denotes(s.slots[j].req.sg));
      }
      GatherElsewhere(m, w, data, Target(cfg, j, s.slots[j]));
    }
  }

  /** Driver memory is apart from client memory. */
  lemma OwnedApart(cfg: Config, k: nat, base: nat, len: nat, addrs: seq<nat>)
    requires Layout(cfg) && k < MAX_INFLIGHT
    requires (base == cfg.bounce[k] && len <= BOUNCE_SIZE) || (base == cfg.list[k] && len <= cfg.ps)
    requires forall a :: a in addrs ==> !DriverOwned(cfg, a)
    ensures Apart(Span(base, len), addrs) && Apart(addrs, Span(base, len))
  {
    forall a | a in Span(base, len)
      ensures a !in addrs
    {
      InSpan(a, base, len);
      assert DriverOwned(cfg, a);
    }
  }

  /** A store into a read's buffer leaves every other slot alone. */
  lemma ClientBufferKeeps(cfg: Config, s: Sys, m: Mem, k: nat, data: seq<byte>, j: nat)
    requires Shape(cfg, s) && k < MAX_INFLIGHT && j < MAX_INFLIGHT && j != k
    requires Owns(cfg, s.slots, k) && Owns(cfg, s.slots, j) && MovesData(s.slots[k]) && !s.slots[k].isWrite
    requires |data| == |Denotes(s.slots[k].req.sg)|
    ensures Keeps(cfg, m, Scatter(m, Denotes(s.slots[k].req.sg), data), j, s.slots[j])
  {
    if MovesData(s.slots[j]) {
      var w := Denotes(s.slots[k].req.sg);
      OwnedApart(cfg, j, cfg.list[j], cfg.ps, w);
      GatherElsewhere(m, w, data, ListSpan(cfg, j));
      if s.slots[j].path.Bounced? {
        OwnedApart(cfg, j, cfg.bounce[j], s.slots[j].req.length, w);
      }
      GatherElsewhere(m, w, data, Target(cfg, j, s.slots[j]));
    }
  }

  // ----- Submission ----------------------------------------------------------------------

  /** Slot `k` newly taken for command `e`, and nothing else moved. */
  ghost predicate Placed(s: Sys, s': Sys, k: nat, e: Sqe) {
    && k < |s.slots| == |s'.slots| && s.slots[k].Free? && s'.slots[k].Busy? && e.cid == k + 1
    && s' == Place(s.(mem := s'.mem, pins := s'.pins, heapLists := s'.heapLists), k, s'.slots[k], e)
  }

  /** One more command that fits. */
  lemma SqesFitMore(cfg: Config, m: Mem, slots: seq<Slot>, q: seq<Sqe>, q': seq<Sqe>, e: Sqe)
    requires Layout(cfg) && |slots| == MAX_INFLIGHT && SqesFit(cfg, m, slots, q)
    requires forall x :: x in q' ==> x in q || x == e
    requires 1 <= e.cid <= MAX_INFLIGHT && slots[e.cid - 1].Busy? && SqeFits(cfg, m, e.cid - 1, slots[e.cid - 1], e)
    ensures SqesFit(cfg, m, slots, q')
  {
  }

  lemma OldCommandsFit(cfg: Config, s: Sys, s': Sys, k: nat)
    requires Shape(cfg, s) && DataInv(cfg, s) && k < MAX_INFLIGHT && s.slots[k].Free?
    requires |s'.slots| == MAX_INFLIGHT && s'.slots == s.slots[k := s'.slots[k]]
    requires forall j :: 0 <= j < MAX_INFLIGHT && j != k ==> Keeps(cfg, s.mem, s'.mem, j, s.slots[j])
    ensures SqesFit(cfg, s'.mem, s'.slots, Pending(s)) && CqesFit(cfg, s'.mem, s'.slots, Finished(s))
  {
    OccupiedAt(s.slots, k + 1);
    UnusedCid(s, k + 1);
    hide Matched, SqesFit, CqesFit, Keeps, Owns, Layout, Described, Outstanding, Occupied, Pending, Finished;
    OthersFit(cfg, s, s'.mem, s'.slots, k, Pending(s), Finished(s));
  }

  /** A newly taken slot whose command fits. */
  lemma NewSlotFits(cfg: Config, s: Sys, s': Sys, k: nat, e: Sqe)
    requires Shape(cfg, s) && Shape(cfg, s') && DataInv(cfg, s) && Matched(s') && Placed(s, s', k, e) && k < MAX_INFLIGHT
    requires forall j :: 0 <= j < MAX_INFLIGHT && j != k ==> Keeps(cfg, s.mem, s'.mem, j, s.slots[j])
    requires forall j :: 0 <= j < MAX_INFLIGHT ==> Owns(cfg, s'.slots, j)
    requires SqeFits(cfg, s'.mem, k, s'.slots[k], e)
    ensures DataInv(cfg, s')
  {
    hide Matched, SqeFits, SqesFit, CqesFit, Keeps, Owns, Layout, Described;
    OldCommandsFit(cfg, s, s', k);
    assert forall x :: x in Pending(s') ==> x in Pending(s) || x == e;
    SqesFitMore(cfg, s'.mem, s'.slots, Pending(s), Pending(s'), e);
    assert Finished(s') == Finished(s);
  }

  /** Giving a free slot to a client's buffer. */
  lemma TakeOwns(cfg: Config, s: Sys, k: nat, b: Slot, j: nat)
    requires Shape(cfg, s) && k < MAX_INFLIGHT && j < MAX_INFLIGHT && b.Busy? && s.slots[k].Free?
    requires forall i :: 0 <= i < MAX_INFLIGHT ==> Owns(cfg, s.slots, i)
    requires MovesData(b) ==> b.req.length > 0 && ClientBuffer(cfg, s, b.req, b.isWrite)
    requires b.path.NoData? ==> Controlling(b.req)
    requires b.path.Bounced? ==> b.req.length <= BOUNCE_SIZE && b.req.data != 0
    ensures Owns(cfg, s.slots[k := b], j)
  {
    hide DriverOwned, Layout, WellFormed;
    assert Owns(cfg, s.slots, j);
  }

  /** A slot taken without data. */
  lemma PlaceControlFits(cfg: Config, s: Sys, k: nat, b: Slot, e: Sqe)
    requires Shape(cfg, s) && DataInv(cfg, s) && k < MAX_INFLIGHT && s.slots[k].Free?
    requires b.Busy? && b.path.NoData? && e.cid == k + 1 && Dataless(e) && Controlling(b.req)
    requires Matched(Place(s, k, b, e))
    ensures DataInv(cfg, Place(s, k, b, e))
  {
    hide Matched, Owns, SqesFit, CqesFit, Described, Layout, Keeps;
    var s' := Place(s, k, b, e);
    forall j | 0 <= j < MAX_INFLIGHT
      ensures Owns(cfg, s'.slots, j)
    {
      TakeOwns(cfg, s, k, b, j);
    }
    forall j | 0 <= j < MAX_INFLIGHT && j != k
      ensures Keeps(cfg, s.mem, s'.mem, j, s.slots[j])
    {
      KeepsSame(cfg, s.mem, j, s.slots[j]);
    }
    NewSlotFits(cfg, s, s', k, e);
  }

  lemma ControlFits(cfg: Config, s: Sys, r: Request, sqe: Sqe, sup: bool)
    requires Shape(cfg, s) && DataInv(cfg, s) && Dataless(sqe) && Controlling(r)
    ensures DataInv(cfg, SubmitControl(s, r, sqe, sup).1)
  {
    ControlMatched(s, r, sqe, sup);
    var f, s' := FindFree(s.slots), SubmitControl(s, r, sqe, sup).1;
    if f.None? {
      assert s' == s;
    } else {
      var b, e := Busy(r, false, NoData, sup), sqe.(cid := f.value + 1);
      assert s' == Place(s, f.value, b, e) && f.value < MAX_INFLIGHT && s.slots[f.value].Free?;
      hide *;
      PlaceControlFits(cfg, s, f.value, b, e);
    }
  }

  lemma KeepsSame(cfg: Config, m: Mem, k: nat, b: Slot)
    requires Layout(cfg) && k < MAX_INFLIGHT
    ensures Keeps(cfg, m, m, k, b)
  {
  }

  lemma KeepsTwice(cfg: Config, m0: Mem, m1: Mem, m2: Mem, k: nat, b: Slot)
    requires Layout(cfg) && k < MAX_INFLIGHT && Keeps(cfg, m0, m1, k, b) && Keeps(cfg, m1, m2, k, b)
    ensures Keeps(cfg, m0, m2, k, b)
  {
  }

  /** The SQE of a bounced submission. */
  lemma BouncedSqeFits(cfg: Config, s: Sys, k: nat, r: Request, w: bool, lba: nat, nlb: nat)
    requires Shape(cfg, s) && Disjoint(cfg) && k < MAX_INFLIGHT && ClientBuffer(cfg, s, r, w)
    requires 0 < r.length <= BOUNCE_SIZE && lba < TWO64 && 1 <= nlb <= 0x1_0000
    requires lba * cfg.bs == Offset(r) && nlb * cfg.bs == r.length
    ensures var b := Bounce(BounceIn(cfg, s.mem, k, r, w), cfg.bounce[k], r.length, cfg.ps, cfg.list[k]);
      && b.Prps?
      && SqeFits(cfg, b.mem, k, Busy(r, w, Bounced, false), Encode(w, k + 1, b.prp1, b.prp2, lba, nlb))
  {
    assert Described(cfg, r) && (w ==> Gather(s.mem, Denotes(r.sg)) == r.payload);
    hide *;
    BounceArea(cfg, s, k, r);
    var m := BounceIn(cfg, s.mem, k, r, w);
    var b := Bounce(m, cfg.bounce[k], r.length, cfg.ps, cfg.list[k]);
    BouncePreservesMeaning(m, cfg.bounce[k], r.length, cfg.ps, cfg.list[k]);
    if w { BouncedPayload(cfg, s, k, r); }
    BouncePrp2(cfg, m, k, r.length);
    BouncedSqe(cfg, b.mem, k, r, w, b.prp1, b.prp2, lba, nlb);
  }

  lemma BounceArea(cfg: Config, s: Sys, k: nat, r: Request)
    requires Shape(cfg, s) && k < MAX_INFLIGHT && r.length <= BOUNCE_SIZE
    ensures Layout(cfg) && |cfg.bounce| == |cfg.list| == MAX_INFLIGHT && cfg.bounce[k] + r.length <= TWO32
    ensures Page(cfg.ps) && cfg.ps > 0 && Aligned(cfg.bounce[k], cfg.ps) && Aligned(cfg.list[k], cfg.ps)
  {
  }

  lemma BouncedSqe(cfg: Config, m: Mem, k: nat, r: Request, w: bool, prp1: nat, prp2: nat, lba: nat, nlb: nat)
    requires Layout(cfg) && k < MAX_INFLIGHT && lba < TWO64 && 1 <= nlb <= 0x1_0000
    requires lba * cfg.bs == Offset(r) && nlb * cfg.bs == r.length
    requires Decode(m, prp1, prp2, r.length, cfg.ps) == Some(Span(cfg.bounce[k], r.length))
    requires r.length > FirstBytes(prp1, cfg.ps) + cfg.ps ==> prp2 == cfg.list[k]
    requires w ==> Gather(m, Span(cfg.bounce[k], r.length)) == r.payload
    ensures SqeFits(cfg, m, k, Busy(r, w, Bounced, false), Encode(w, k + 1, prp1, prp2, lba, nlb))
  {
    EncodeRoundTrip(w, k + 1, prp1, prp2, lba, nlb);
    hide Decode, Gather;
  }

  /** A bounced write's bytes are in its bounce buffer. */
  lemma BouncedPayload(cfg: Config, s: Sys, k: nat, r: Request)
    requires Shape(cfg, s) && Disjoint(cfg) && k < MAX_INFLIGHT && Described(cfg, r) && 0 < r.length <= BOUNCE_SIZE
    ensures var b := Bounce(BounceIn(cfg, s.mem, k, r, true), cfg.bounce[k], r.length, cfg.ps, cfg.list[k]);
      Gather(b.mem, Span(cfg.bounce[k], r.length)) == Gather(s.mem, Denotes(r.sg))
  {
    hide Bounce, Disjoint, WellFormed, Total;
    GatherScattered(s.mem, Span(cfg.bounce[k], r.length), Gather(s.mem, Denotes(r.sg)));
    BounceListKeepsBuffer(cfg, BounceIn(cfg, s.mem, k, r, true), k, r.length);
  }

  lemma BouncePrp2(cfg: Config, m: Mem, k: nat, len: nat)
    requires Layout(cfg) && k < MAX_INFLIGHT && 0 < len <= BOUNCE_SIZE
    ensures var b := Bounce(m, cfg.bounce[k], len, cfg.ps, cfg.list[k]);
      b.Prps? && len > FirstBytes(b.prp1, cfg.ps) + cfg.ps ==> b.prp2 == cfg.list[k]
  {
  }

  /** Filling the list page does not disturb the slot's own bounce buffer. */
  lemma BounceListKeepsBuffer(cfg: Config, m: Mem, k: nat, len: nat)
    requires Layout(cfg) && Disjoint(cfg) && k < MAX_INFLIGHT && 0 < len <= BOUNCE_SIZE
    ensures var b := Bounce(m, cfg.bounce[k], len, cfg.ps, cfg.list[k]);
      Gather(b.mem, Span(cfg.bounce[k], len)) == Gather(m, Span(cfg.bounce[k], len))
  {
    var data := BounceIsStore(cfg, m, k, len);
    SpansApart(cfg.list[k], |data|, cfg.bounce[k], len);
    GatherElsewhere(m, Span(cfg.list[k], |data|), data, Span(cfg.bounce[k], len));
  }

  /** All that PRP construction does to memory is one store at the start of the list page. */
  lemma BounceIsStore(cfg: Config, m: Mem, k: nat, len: nat) returns (data: seq<byte>)
    requires Layout(cfg) && k < MAX_INFLIGHT && 0 < len <= BOUNCE_SIZE
    ensures |data| <= cfg.ps
    ensures Bounce(m, cfg.bounce[k], len, cfg.ps, cfg.list[k]).mem == Scatter(m, Span(cfg.list[k], |data|), data)
  {
    assert Page(cfg.ps) && cfg.bounce[k] + len <= TWO32;
    hide *;
    data := StoreOf(m, cfg.bounce[k], len, cfg.ps, cfg.list[k]);
  }

  lemma StoreOf(m: Mem, phys: nat, len: nat, ps: nat, list: nat) returns (data: seq<byte>)
    requires Page(ps) && phys + len <= TWO32 && 0 < len <= BOUNCE_SIZE
    ensures |data| <= ps && Bounce(m, phys, len, ps, list).mem == Scatter(m, Span(list, |data|), data)
  {
    data := [];
    assert Scatter(m, Span(list, |data|), data) == m;
    FewPages(len, ps);
    hide NumPages, ContiguousPages, ListImage, Scatter;
    if len > 2 * ps {
      ContiguousCount(phys, len, ps);
      data := ListImage(ContiguousPages(phys + ps, phys + len, ps));
    }
  }

  lemma BouncedKeeps(cfg: Config, s: Sys, k: nat, r: Request, w: bool, j: nat)
    requires Shape(cfg, s) && Disjoint(cfg) && k < MAX_INFLIGHT && Described(cfg, r) && 0 < r.length <= BOUNCE_SIZE
    requires j < MAX_INFLIGHT && j != k && Owns(cfg, s.slots, j)
    ensures Keeps(cfg, s.mem, Bounce(BounceIn(cfg, s.mem, k, r, w), cfg.bounce[k], r.length, cfg.ps, cfg.list[k]).mem, j, s.slots[j])
  {
    hide Keeps, Owns, Disjoint, WellFormed;
    var m := BounceIn(cfg, s.mem, k, r, w);
    if w {
      OwnRegionKeeps(cfg, s, s.mem, k, cfg.bounce[k], Gather(s.mem, Denotes(r.sg)), j);
    } else {
      KeepsSame(cfg, s.mem, j, s.slots[j]);
    }
    var data := BounceIsStore(cfg, m, k, r.length);
    OwnRegionKeeps(cfg, s, m, k, cfg.list[k], data, j);
    KeepsTwice(cfg, s.mem, m, Scatter(m, Span(cfg.list[k], |data|), data), j, s.slots[j]);
  }

  lemma BouncedFits(cfg: Config, s: Sys, k: nat, r: Request, w: bool, lba: nat, nlb: nat)
    requires Shape(cfg, s) && Disjoint(cfg) && DataInv(cfg, s) && FindFree(s.slots) == Some(k) && ClientBuffer(cfg, s, r, w)
    requires 0 < r.length <= BOUNCE_SIZE && r.data != 0 && lba < TWO64 && 1 <= nlb <= 0x1_0000
    requires lba * cfg.bs == Offset(r) && nlb * cfg.bs == r.length
    requires Matched(SubmitBounced(cfg, s, k, r, w, lba, nlb).1)
    ensures DataInv(cfg, SubmitBounced(cfg, s, k, r, w, lba, nlb).1)
  {
    hide Matched, SqeFits, SqesFit, CqesFit, Keeps, Owns, Bounce, BounceIn, WellFormed, Total;
    BouncedSqeFits(cfg, s, k, r, w, lba, nlb);
    var s' := SubmitBounced(cfg, s, k, r, w, lba, nlb).1;
    forall j | 0 <= j < MAX_INFLIGHT && j != k
      ensures Keeps(cfg, s.mem, s'.mem, j, s.slots[j])
    {
      BouncedKeeps(cfg, s, k, r, w, j);
    }
    forall j | 0 <= j < MAX_INFLIGHT
      ensures Owns(cfg, s'.slots, j)
    {
      TakeOwns(cfg, s, k, s'.slots[k], j);
    }
    NewSlotFits(cfg, s, s', k, s'.unpublished[|s.unpublished|]);
  }

  /** PRP construction on the direct path is one store at the start of the list page, too. */
  lemma DirectIsStore(m: Mem, sg: seq<Extent>, ps: nat, list: nat) returns (data: seq<byte>)
    requires Page(ps) && sg != []
    ensures |data| <= ps && Direct(m, sg, ps, list).mem == Scatter(m, Span(list, |data|), data)
  {
    hide Total, ListImage, PagesFrom;
    var pages := ExtraPages(sg, ps);
    var stored := if |pages| > ps / 8 then pages[..ps / 8] else pages;
    data := ListImage(stored);
  }

  lemma MappedKeeps(cfg: Config, s: Sys, k: nat, r: Request, j: nat)
    requires Shape(cfg, s) && Disjoint(cfg) && k < MAX_INFLIGHT && r.sg != []
    requires j < MAX_INFLIGHT && j != k && Owns(cfg, s.slots, j)
    ensures Keeps(cfg, s.mem, Direct(s.mem, r.sg, cfg.ps, cfg.list[k]).mem, j, s.slots[j])
  {
    hide Keeps, Owns, Disjoint, WellFormed, Direct, Described;
    var data := DirectIsStore(s.mem, r.sg, cfg.ps, cfg.list[k]);
    OwnRegionKeeps(cfg, s, s.mem, k, cfg.list[k], data, j);
  }

  lemma MappedSqeFits(cfg: Config, s: Sys, k: nat, r: Request, w: bool, lba: nat, nlb: nat, flags: nat)
    requires Shape(cfg, s) && k < MAX_INFLIGHT && ClientBuffer(cfg, s, r, w)
    requires 0 < r.length && lba < TWO64 && 1 <= nlb <= 0x1_0000
    requires lba * cfg.bs == Offset(r) && nlb * cfg.bs == r.length
    requires Direct(s.mem, r.sg, cfg.ps, cfg.list[k]).Prps?
    ensures var b := Direct(s.mem, r.sg, cfg.ps, cfg.list[k]);
      SqeFits(cfg, b.mem, k, Busy(r, w, Mapped(r.data, r.length, flags), false), Encode(w, k + 1, b.prp1, b.prp2, lba, nlb))
  {
    var b := Direct(s.mem, r.sg, cfg.ps, cfg.list[k]);
    DirectPreservesMeaning(s.mem, r.sg, cfg.ps, cfg.list[k]);
    EncodeRoundTrip(w, k + 1, b.prp1, b.prp2, lba, nlb);
    var data := DirectIsStore(s.mem, r.sg, cfg.ps, cfg.list[k]);
    OwnedApart(cfg, k, cfg.list[k], |data|, Denotes(r.sg));
    GatherElsewhere(s.mem, Span(cfg.list[k], |data|), data, Denotes(r.sg));
    DirectPrp2(s.mem, r.sg, cfg.ps, cfg.list[k]);
    hide Direct, Decode, WellFormed, Total;
  }

  lemma DirectPrp2(m: Mem, sg: seq<Extent>, ps: nat, list: nat)
    requires Page(ps) && sg != [] && Direct(m, sg, ps, list).Prps?
    ensures var b := Direct(m, sg, ps, list);
      b.prp1 == sg[0].phys && (Total(sg) > FirstBytes(b.prp1, ps) + ps ==> b.prp2 == list)
  {
    var first := FirstBytes(sg[0].phys, ps);
    if Total(sg) > first + ps {
      ExtraPagesCount(sg, ps);
      PageCount(Total(sg), first, ps);
    }
  }

  lemma MappedFits(cfg: Config, s: Sys, k: nat, r: Request, w: bool, lba: nat, nlb: nat, env: DmaEnv)
    requires Shape(cfg, s) && k < MAX_INFLIGHT && Disjoint(cfg) && DataInv(cfg, s) && FindFree(s.slots) == Some(k) && ClientBuffer(cfg, s, r, w)
    requires 0 < r.length && lba < TWO64 && 1 <= nlb <= 0x1_0000
    requires lba * cfg.bs == Offset(r) && nlb * cfg.bs == r.length
    requires Matched(SubmitMapped(cfg, s, k, r, w, lba, nlb, env).1)
    ensures DataInv(cfg, SubmitMapped(cfg, s, k, r, w, lba, nlb, env).1)
  {
    hide *;
    var flags, e := MappedIs(cfg, s, k, r, w, lba, nlb, env);
    var (rc, s') := SubmitMapped(cfg, s, k, r, w, lba, nlb, env);
    InvParts(cfg, s);
    InvWhole(cfg, s');
    forall j | 0 <= j < MAX_INFLIGHT && j != k
      ensures Keeps(cfg, s.mem, s'.mem, j, s.slots[j])
    {
      KeepsSame(cfg, s.mem, j, s.slots[j]);
      MappedKeeps(cfg, s, k, r, j);
    }
    if rc == Submitted {
      MappedSqeFits(cfg, s, k, r, w, lba, nlb, flags);
      forall j | 0 <= j < MAX_INFLIGHT
        ensures Owns(cfg, s'.slots, j)
      {
        TakeOwns(cfg, s, k, Busy(r, w, Mapped(r.data, r.length, flags), false), j);
      }
      NewSlotFits(cfg, s, s', k, e);
    } else {
      OldCommandsFit(cfg, s, s', k);
    }
  }

  /** What a direct submission does, apart from pins. */
  lemma MappedIs(cfg: Config, s: Sys, k: nat, r: Request, w: bool, lba: nat, nlb: nat, env: DmaEnv) returns (flags: nat, e: Sqe)
    requires Shape(cfg, s) && FindFree(s.slots) == Some(k) && k < MAX_INFLIGHT && ClientBuffer(cfg, s, r, w)
    requires 0 < r.length && lba < TWO64 && 1 <= nlb <= 0x1_0000
    ensures Layout(cfg) && r.sg != [] && Described(cfg, r) && s.slots[k].Free?
    ensures var (rc, s') := SubmitMapped(cfg, s, k, r, w, lba, nlb, env);
      var b := Direct(s.mem, r.sg, cfg.ps, cfg.list[k]);
      && (if rc == Submitted then
            var slot := Busy(r, w, Mapped(r.data, r.length, flags), false);
            && b.Prps? && s'.mem == b.mem && e == Encode(w, k + 1, b.prp1, b.prp2, lba, nlb)
            && MovesData(slot) && s'.slots == s.slots[k := slot] && Placed(s, s', k, e)
          else
            && (s'.mem == b.mem || s'.mem == s.mem) && s'.slots == s.slots
            && Pending(s') == Pending(s) && Finished(s') == Finished(s))
  {
    assert r.sg != [];
    hide Direct, WellFormed, Total, Denotes;
    var (rc, s') := SubmitMapped(cfg, s, k, r, w, lba, nlb, env);
    flags, e := 0, Sqe(0, 0, 0, 0, 0, 0, 0);
    if rc == Submitted {
      flags, e := s'.slots[k].path.flags, s'.unpublished[|s.unpublished|];
    }
  }

  lemma SubmitFits(cfg: Config, s: Sys, r: Request, w: bool, env: DmaEnv)
    requires Shape(cfg, s) && Disjoint(cfg) && DataInv(cfg, s) && ClientBuffer(cfg, s, r, w)
    ensures DataInv(cfg, SubmitNoRing(cfg, s, r, w, env).1)
  {
    assert Described(cfg, r);
    SubmitMatched(cfg, s, r, w, env);
    var bounced, mapped, k, lba, nlb := SubmitCases(cfg, s, r, w, env);
    assert DataInv(cfg, s) ==> Matched(s);
    hide *;
    if bounced {
      BouncedFits(cfg, s, k, r, w, lba, nlb);
    } else if mapped {
      MappedFits(cfg, s, k, r, w, lba, nlb, env);
    }
  }

  /** What an accepted submission hands to the bounce or the direct path. */
  lemma SubmitCases(cfg: Config, s: Sys, r: Request, w: bool, env: DmaEnv)
      returns (bounced: bool, mapped: bool, k: nat, lba: nat, nlb: nat)
    requires Shape(cfg, s) && Described(cfg, r)
    ensures bounced || mapped ==> k < MAX_INFLIGHT && FindFree(s.slots) == Some(k)
    ensures bounced || mapped ==> 0 < r.length && r.data != 0 && lba < TWO64 && 1 <= nlb <= 0x1_0000
    ensures bounced || mapped ==> lba * cfg.bs == Offset(r) && nlb * cfg.bs == r.length
    ensures bounced ==> r.length <= BOUNCE_SIZE && SubmitNoRing(cfg, s, r, w, env) == SubmitBounced(cfg, s, k, r, w, lba, nlb)
    ensures mapped ==> SubmitNoRing(cfg, s, r, w, env) == SubmitMapped(cfg, s, k, r, w, lba, nlb, env)
    ensures !bounced && !mapped ==> SubmitNoRing(cfg, s, r, w, env).1 == s && SubmitNoRing(cfg, s, r, w, env).0 != Submitted
    ensures cfg.ps > 0 && (bounced ==> UseBounce(r.length, r.data, cfg.ps)) && (mapped ==> !UseBounce(r.length, r.data, cfg.ps))
  {
    ValidateExact(Offset(r), r.length, r.data != 0, cfg.bs);
    hide SubmitBounced, SubmitMapped, WellFormed, Total;
    var free, v := FindFree(s.slots), Validate(Offset(r), r.length, r.data != 0, cfg.bs);
    bounced, mapped, k, lba, nlb := false, false, 0, 0, 0;
    if free.Some? && v.Transfer? {
      k, lba, nlb := free.value, v.lba, v.nlb;
      bounced := UseBounce(r.length, r.data, cfg.ps);
      mapped := !bounced;
    }
  }

  /** One SQE has been added, for slot `k`, and these are the addresses the controller gets from it. */
  ghost predicate Decoding(cfg: Config, s: Sys, s': Sys, k: nat, pages: Option<seq<nat>>)
    requires cfg.ps > 0
  {
    && |s'.unpublished| == |s.unpublished| + 1
    && s'.unpublished[|s.unpublished|].cid == k + 1
    && Pages(cfg, s'.mem, s'.unpublished[|s.unpublished|]) == pages
  }

  /** Which submitted transfers the controller can carry out at all.  Virtual and physical addresses
    * agree within a page; then the PRPs decode -- to the bounce buffer or to the caller's own bytes,
    * in order -- if and only if the transfer fits a bounce buffer or its buffer is dword-aligned. */
  lemma SubmittedDecodes(cfg: Config, s: Sys, r: Request, w: bool, env: DmaEnv)
    requires Shape(cfg, s) && Described(cfg, r) && r.length > 0
    requires Rem(r.data, cfg.ps) == Rem(r.sg[0].phys, cfg.ps)
    requires SubmitNoRing(cfg, s, r, w, env).0 == Submitted
    ensures FindFree(s.slots).Some? && FindFree(s.slots).value < MAX_INFLIGHT
    ensures var s', k := SubmitNoRing(cfg, s, r, w, env).1, FindFree(s.slots).value;
      && MovesData(s'.slots[k])
      && Decoding(cfg, s, s', k, if r.length <= BOUNCE_SIZE || r.data % 4 == 0 then Some(Target(cfg, k, s'.slots[k])) else None)
  {
    PathFits(cfg, s, r, w, env);
    var bounced, mapped, k, lba, nlb := SubmitCases(cfg, s, r, w, env);
    hide *;
    if bounced {
      BouncedDecodes(cfg, s, k, r, w, lba, nlb);
    } else {
      MappedDecodes(cfg, s, k, r, w, lba, nlb, env);
    }
  }

  /** The path chosen, and whether it starts on a dword. */
  lemma PathFits(cfg: Config, s: Sys, r: Request, w: bool, env: DmaEnv)
    requires Shape(cfg, s) && Described(cfg, r) && r.length > 0
    requires Rem(r.data, cfg.ps) == Rem(r.sg[0].phys, cfg.ps)
    ensures r.sg[0].phys % 4 == r.data % 4
    ensures UseBounce(r.length, r.data, cfg.ps) ==> r.length <= BOUNCE_SIZE
    ensures !UseBounce(r.length, r.data, cfg.ps) && r.length <= BOUNCE_SIZE ==> r.data % 4 == 0
  {
    DwordStart(r.data, r.sg[0].phys, cfg.ps);
    Builtin(r.data, cfg.ps);
  }

  lemma BouncedDecodes(cfg: Config, s: Sys, k: nat, r: Request, w: bool, lba: nat, nlb: nat)
    requires Shape(cfg, s) && Described(cfg, r) && k < MAX_INFLIGHT && 0 < r.length <= BOUNCE_SIZE
    requires lba < TWO64 && 1 <= nlb <= 0x1_0000 && nlb * cfg.bs == r.length
    requires SubmitBounced(cfg, s, k, r, w, lba, nlb).0 == Submitted
    ensures var s' := SubmitBounced(cfg, s, k, r, w, lba, nlb).1;
      MovesData(s'.slots[k]) && Decoding(cfg, s, s', k, Some(Target(cfg, k, s'.slots[k])))
  {
    assert lba < 0x1_0000_0000_0000_0000;
    hide *;
    BounceArea(cfg, s, k, r);
    var m := BounceIn(cfg, s.mem, k, r, w);
    var b := Bounce(m, cfg.bounce[k], r.length, cfg.ps, cfg.list[k]);
    BouncePreservesMeaning(m, cfg.bounce[k], r.length, cfg.ps, cfg.list[k]);
    PagesOfEncoded(cfg, b.mem, w, k + 1, b.prp1, b.prp2, lba, nlb, r.length);
    BouncedIs(cfg, s, k, r, w, lba, nlb);
    OneSqeMore(cfg, s, SubmitBounced(cfg, s, k, r, w, lba, nlb).1, k, Encode(w, k + 1, b.prp1, b.prp2, lba, nlb));
  }

  lemma PagesOfEncoded(cfg: Config, m: Mem, w: bool, cid: nat, prp1: nat, prp2: nat, lba: nat, nlb: nat, len: nat)
    requires lba < TWO64 && cfg.ps > 0 && 1 <= nlb <= 0x1_0000 && nlb * cfg.bs == len
    ensures var e := Encode(w, cid, prp1, prp2, lba, nlb);
      e.cid == cid && Pages(cfg, m, e) == Decode(m, prp1, prp2, len, cfg.ps)
  {
    EncodeRoundTrip(w, cid, prp1, prp2, lba, nlb);
    hide Decode;
  }

  /** What a bounced submission does. */
  lemma BouncedIs(cfg: Config, s: Sys, k: nat, r: Request, w: bool, lba: nat, nlb: nat)
    requires Shape(cfg, s) && Described(cfg, r) && k < MAX_INFLIGHT && 0 < r.length <= BOUNCE_SIZE
    requires lba < TWO64 && 1 <= nlb <= 0x1_0000
    ensures Layout(cfg) && |s.slots| == MAX_INFLIGHT
    ensures var (rc, s') := SubmitBounced(cfg, s, k, r, w, lba, nlb);
      var b := Bounce(BounceIn(cfg, s.mem, k, r, w), cfg.bounce[k], r.length, cfg.ps, cfg.list[k]);
      && s'.mem == b.mem
      && (rc == Submitted ==>
            && b.Prps? && s'.slots == s.slots[k := Busy(r, w, Bounced, false)]
            && MovesData(s'.slots[k]) && Target(cfg, k, s'.slots[k]) == Span(cfg.bounce[k], r.length)
            && s'.unpublished == s.unpublished + [Encode(w, k + 1, b.prp1, b.prp2, lba, nlb)])
  {
    hide Bounce, BounceIn, WellFormed, Total, Encode;
  }

  lemma OneSqeMore(cfg: Config, s: Sys, s': Sys, k: nat, e: Sqe)
    requires cfg.ps > 0 && s'.unpublished == s.unpublished + [e] && e.cid == k + 1
    ensures Decoding(cfg, s, s', k, Pages(cfg, s'.mem, e))
  {
    hide Pages;
  }

  lemma MappedDecodes(cfg: Config, s: Sys, k: nat, r: Request, w: bool, lba: nat, nlb: nat, env: DmaEnv)
    requires Shape(cfg, s) && Described(cfg, r) && k < MAX_INFLIGHT && r.length > 0
    requires lba < TWO64 && 1 <= nlb <= 0x1_0000 && nlb * cfg.bs == r.length
    requires SubmitMapped(cfg, s, k, r, w, lba, nlb, env).0 == Submitted
    ensures r.sg != []
    ensures var s' := SubmitMapped(cfg, s, k, r, w, lba, nlb, env).1;
      && MovesData(s'.slots[k])
      && Decoding(cfg, s, s', k, if r.sg[0].phys % 4 == 0 then Some(Target(cfg, k, s'.slots[k])) else None)
  {
    DirectPreservesMeaning(s.mem, r.sg, cfg.ps, cfg.list[k]);
    var b := Direct(s.mem, r.sg, cfg.ps, cfg.list[k]);
    EncodeRoundTrip(w, k + 1, b.prp1, b.prp2, lba, nlb);
    hide Decode, Direct, WellFormed, Total, Denotes;
  }

  lemma DwordStart(data: nat, phys: nat, ps: nat)
    requires Page(ps) && Rem(data, ps) == Rem(phys, ps)
    ensures data % 4 == phys % 4
    ensures Rem(data, ps) == 0 ==> data % 4 == 0
  {
    hide Rem;
    DwordOfPage(data, ps);
    DwordOfPage(phys, ps);
  }

  lemma {:induction false} DwordOfPage(a: nat, ps: nat)
    requires Page(ps)
    ensures a % 4 == Rem(a, ps) % 4
  {
    if a >= ps {
      DwordOfPage(a - ps, ps);
      LessFours(a, ps / 8);
    }
  }

  lemma LessFours(a: int, q: int)
    ensures (a - 8 * q) % 4 == a % 4
  {
  }

  // ----- The controller ------------------------------------------------------------------

  /** Commands moving between queues without any other effect. */
  lemma ShuffleFits(cfg: Config, s: Sys, s': Sys)
    requires Shape(cfg, s) && Shape(cfg, s') && DataInv(cfg, s) && Matched(s')
    requires s'.mem == s.mem && s'.slots == s.slots
    requires forall e :: e in Pending(s') ==> e in Pending(s)
    requires forall c :: c in Finished(s') ==> c in Finished(s)
    ensures DataInv(cfg, s')
  {
    hide Matched, SqeFits, CqeFits, Owns, Layout, Described;
  }

  lemma InRemoved<T>(q: seq<T>, i: nat, x: T)
    requires i < |q| && x in RemoveAt(q, i)
    ensures x in q
  {
  }

  lemma PublishFits(cfg: Config, s: Sys)
    requires Shape(cfg, s) && DataInv(cfg, s)
    ensures DataInv(cfg, RingSQ(s))
  {
    PublishMatched(s);
    hide Matched, SqesFit, CqesFit, Owns, Layout, Described;
    ShuffleFits(cfg, s, RingSQ(s));
  }

  lemma FetchFits(cfg: Config, s: Sys)
    requires Shape(cfg, s) && DataInv(cfg, s) && s.published != []
    ensures DataInv(cfg, Fetch(s))
  {
    FetchMatched(s);
    hide Matched, SqesFit, CqesFit, Owns, Layout, Described;
    assert s.published == [s.published[0]] + s.published[1..];
    ShuffleFits(cfg, s, Fetch(s));
  }

  lemma PostFits(cfg: Config, s: Sys, i: nat)
    requires Shape(cfg, s) && DataInv(cfg, s) && i < |s.done|
    ensures DataInv(cfg, Post(s, i))
  {
    PostMatched(s, i);
    hide Matched, SqesFit, CqesFit, Owns, Layout, Described, RemoveAt;
    var s' := Post(s, i);
    forall c | c in Finished(s')
      ensures c in Finished(s)
    {
      if c in s'.done { InRemoved(s.done, i, c); }
    }
    ShuffleFits(cfg, s, s');
  }

  /** The command picked for execution is its slot's only one. */
  lemma OnlyCommand(s: Sys, i: nat)
    requires Matched(s) && i < |s.fetched|
    ensures Unused(s.fetched[i].cid, s.unpublished + s.published + RemoveAt(s.fetched, i), Finished(s))
  {
    var cid := s.fetched[i].cid;
    var t := s.(fetched := RemoveAt(s.fetched, i));
    SqeSplit(s.fetched, i);
    assert Outstanding(s) == Outstanding(t) + multiset{cid};
    OccupiedAt(s.slots, cid);
    UnusedCid(t, cid);
  }

  /** A read's data phase disturbs no other slot. */
  lemma ReadKeeps(cfg: Config, s: Sys, m: Mem, k: nat, data: seq<byte>, j: nat)
    requires Shape(cfg, s) && Disjoint(cfg) && k < MAX_INFLIGHT && j < MAX_INFLIGHT && j != k
    requires Owns(cfg, s.slots, k) && Owns(cfg, s.slots, j) && MovesData(s.slots[k]) && !s.slots[k].isWrite
    requires |data| == |Target(cfg, k, s.slots[k])|
    ensures Keeps(cfg, m, Scatter(m, Target(cfg, k, s.slots[k]), data), j, s.slots[j])
  {
    hide Keeps, Disjoint, Described;
    if s.slots[k].path.Bounced? {
      OwnRegionKeeps(cfg, s, m, k, cfg.bounce[k], data, j);
    } else {
      ClientBufferKeeps(cfg, s, m, k, data, j);
    }
  }

  /** The completion of an executed command fits its slot. */
  lemma ExecutedCqeFits(cfg: Config, s: Sys, k: nat, e: Sqe, f: Effect)
    requires Shape(cfg, s) && k < MAX_INFLIGHT && s.slots[k].Busy? && Owns(cfg, s.slots, k)
    requires SqeFits(cfg, s.mem, k, s.slots[k], e) && Executable(cfg, s.mem, e, f)
    ensures CqeFits(cfg, MemAfter(cfg, s.mem, s.disk, e, f), k, s.slots[k], Cqe(e.cid, f.ok, s.disk, DiskAfter(cfg, s.mem, s.disk, e, f)))
  {
    var b := s.slots[k];
    if f.ok && !b.path.NoData? && !b.isWrite {
      var t := Target(cfg, k, b);
      assert Distinct(t);
      GatherScattered(s.mem, t, Gather(s.disk, DiskSpan(cfg, e)));
    }
    hide Pages, Target, DiskSpan, Range;
  }

  lemma ExecuteKeeps(cfg: Config, s: Sys, k: nat, e: Sqe, f: Effect, j: nat)
    requires Shape(cfg, s) && Disjoint(cfg) && k < MAX_INFLIGHT && j < MAX_INFLIGHT && j != k && s.slots[k].Busy?
    requires Owns(cfg, s.slots, k) && Owns(cfg, s.slots, j)
    requires SqeFits(cfg, s.mem, k, s.slots[k], e) && Executable(cfg, s.mem, e, f)
    ensures Keeps(cfg, s.mem, MemAfter(cfg, s.mem, s.disk, e, f), j, s.slots[j])
  {
    KeepsSame(cfg, s.mem, j, s.slots[j]);
    hide Keeps, Owns, Disjoint, Layout, Described, Target;
    if e.opcode == OP_READ && Pages(cfg, s.mem, e).Some? {
      ReadKeeps(cfg, s, s.mem, k, if f.ok then Gather(s.disk, DiskSpan(cfg, e)) else f.junk, j);
    }
  }

  lemma ExecuteFits(cfg: Config, s: Sys, i: nat, f: Effect)
    requires Shape(cfg, s) && Disjoint(cfg) && DataInv(cfg, s) && i < |s.fetched| && Executable(cfg, s.mem, s.fetched[i], f)
    ensures DataInv(cfg, Execute(cfg, s, i, f))
  {
    hide *;
    ExecuteIs(cfg, s, i, f);
    var s', e := Execute(cfg, s, i, f), s.fetched[i];
    var rest := s.unpublished + s.published + RemoveAt(s.fetched, i);
    InvParts(cfg, s);
    InvWhole(cfg, s');
    RestFits(cfg, s, i);
    FetchedFits(cfg, s, i);
    ExecuteMatched(cfg, s, i, f);
    OnlyCommand(s, i);
    forall j | 0 <= j < MAX_INFLIGHT && j != e.cid - 1
      ensures Keeps(cfg, s.mem, s'.mem, j, s.slots[j])
    {
      ExecuteKeeps(cfg, s, e.cid - 1, e, f, j);
    }
    OthersFit(cfg, s, s'.mem, s.slots, e.cid - 1, rest, Finished(s));
    ExecutedCqeFits(cfg, s, e.cid - 1, e, f);
    CqesFitMore(cfg, s'.mem, s.slots, Finished(s), Finished(s'), Cqe(e.cid, f.ok, s.disk, DiskAfter(cfg, s.mem, s.disk, e, f)));
  }

  lemma FetchedFits(cfg: Config, s: Sys, i: nat)
    requires Shape(cfg, s) && i < |s.fetched| && SqesFit(cfg, s.mem, s.slots, Pending(s))
    ensures var e := s.fetched[i];
      1 <= e.cid <= MAX_INFLIGHT && s.slots[e.cid - 1].Busy? && SqeFits(cfg, s.mem, e.cid - 1, s.slots[e.cid - 1], e)
  {
    hide SqeFits;
    assert s.fetched[i] in Pending(s);
  }

  lemma ExecuteIs(cfg: Config, s: Sys, i: nat, f: Effect)
    requires Shape(cfg, s) && i < |s.fetched| && Executable(cfg, s.mem, s.fetched[i], f)
    ensures cfg.ps > 0 && Shape(cfg, Execute(cfg, s, i, f))
    ensures var s', e := Execute(cfg, s, i, f), s.fetched[i];
      var c := Cqe(e.cid, f.ok, s.disk, DiskAfter(cfg, s.mem, s.disk, e, f));
      && s'.slots == s.slots && s'.mem == MemAfter(cfg, s.mem, s.disk, e, f) && |s'.slots| == |s.slots|
      && Pending(s') == s.unpublished + s.published + RemoveAt(s.fetched, i)
      && (forall x :: x in Finished(s') ==> x in Finished(s) || x == c)
  {
    hide MemAfter, DiskAfter, Executable, RemoveAt, Described;
  }

  lemma RestFits(cfg: Config, s: Sys, i: nat)
    requires Shape(cfg, s) && i < |s.fetched| && SqesFit(cfg, s.mem, s.slots, Pending(s))
    ensures SqesFit(cfg, s.mem, s.slots, s.unpublished + s.published + RemoveAt(s.fetched, i))
  {
    hide SqeFits, RemoveAt;
    forall e | e in s.unpublished + s.published + RemoveAt(s.fetched, i)
      ensures e in Pending(s)
    {
      if e in RemoveAt(s.fetched, i) { InRemoved(s.fetched, i, e); }
    }
  }

  lemma CqesFitMore(cfg: Config, m: Mem, slots: seq<Slot>, q: seq<Cqe>, q': seq<Cqe>, c: Cqe)
    requires Layout(cfg) && |slots| == MAX_INFLIGHT && CqesFit(cfg, m, slots, q)
    requires forall x :: x in q' ==> x in q || x == c
    requires 1 <= c.cid <= MAX_INFLIGHT && slots[c.cid - 1].Busy? && CqeFits(cfg, m, c.cid - 1, slots[c.cid - 1], c)
    ensures CqesFit(cfg, m, slots, q')
  {
  }

  // ----- Harvest -------------------------------------------------------------------------

  lemma HeadIsOnly(s: Sys)
    requires Matched(s) && s.posted != []
    ensures Unused(s.posted[0].cid, Pending(s), s.done + s.posted[1..])
  {
    var cid := s.posted[0].cid;
    var t := s.(posted := s.posted[1..]);
    CqeSplit(s.posted, 0);
    assert RemoveAt(s.posted, 0) == s.posted[1..];
    assert Outstanding(s) == Outstanding(t) + multiset{cid};
    OccupiedAt(s.slots, cid);
    UnusedCid(t, cid);
  }

  lemma HarvestKeeps(cfg: Config, s: Sys, k: nat, ok: bool, j: nat)
    requires Shape(cfg, s) && k < MAX_INFLIGHT && j < MAX_INFLIGHT && j != k && s.slots[k].Busy?
    requires Owns(cfg, s.slots, k) && Owns(cfg, s.slots, j)
    ensures Keeps(cfg, s.mem, BounceOut(cfg, s.mem, k, s.slots[k], ok), j, s.slots[j])
  {
    KeepsSame(cfg, s.mem, j, s.slots[j]);
    var b := s.slots[k];
    if b.path.Bounced? && !b.isWrite {
      ClientBufferKeeps(cfg, s, s.mem, k, Gather(s.mem, Span(cfg.bounce[k], b.req.length)), j);
    }
  }

  lemma FreedOwns(cfg: Config, s: Sys, k: nat, j: nat)
    requires Shape(cfg, s) && k < MAX_INFLIGHT && j < MAX_INFLIGHT && Owns(cfg, s.slots, j)
    ensures Owns(cfg, s.slots[k := Free], j)
  {
    hide DriverOwned, Layout, Described;
  }

  lemma HarvestFits(cfg: Config, s: Sys)
    requires Shape(cfg, s) && DataInv(cfg, s) && s.posted != []
    ensures DataInv(cfg, HarvestOne(cfg, s))
  {
    var s', left := HarvestOne(cfg, s), s.done + s.posted[1..];
    InvParts(cfg, s);
    InvWhole(cfg, s');
    hide *;
    HarvestMatched(cfg, s);
    HeadIsMatched(s);
    HeadIsOnly(s);
    HarvestIs(cfg, s);
    CqesFitFewer(cfg, s.mem, s.slots, Finished(s), left);
    HarvestLeaves(cfg, s, s'.mem, s'.slots, s.posted[0].cid - 1, left, s.posted[0].ok);
  }

  lemma InvParts(cfg: Config, s: Sys)
    requires Shape(cfg, s) && DataInv(cfg, s)
    ensures Layout(cfg) && |s.slots| == MAX_INFLIGHT && Matched(s)
    ensures forall k :: 0 <= k < MAX_INFLIGHT ==> Owns(cfg, s.slots, k)
    ensures SqesFit(cfg, s.mem, s.slots, Pending(s)) && CqesFit(cfg, s.mem, s.slots, Finished(s))
  {
  }

  lemma InvWhole(cfg: Config, s: Sys)
    requires Shape(cfg, s)
    ensures Layout(cfg) && |s.slots| == MAX_INFLIGHT
    ensures
      && Matched(s)
      && (forall k :: 0 <= k < MAX_INFLIGHT ==> Owns(cfg, s.slots, k))
      && SqesFit(cfg, s.mem, s.slots, Pending(s)) && CqesFit(cfg, s.mem, s.slots, Finished(s))
      ==> DataInv(cfg, s)
  {
  }

  lemma CqesFitFewer(cfg: Config, m: Mem, slots: seq<Slot>, q: seq<Cqe>, q': seq<Cqe>)
    requires Layout(cfg) && |slots| == MAX_INFLIGHT && CqesFit(cfg, m, slots, q)
    requires forall c :: c in q' ==> c in q
    ensures CqesFit(cfg, m, slots, q')
  {
  }

  /** What one turn of Harvest does when the cid is good. */
  lemma HarvestIs(cfg: Config, s: Sys)
    requires Shape(cfg, s) && s.posted != []
    requires 1 <= s.posted[0].cid <= MAX_INFLIGHT && s.slots[s.posted[0].cid - 1].Busy?
    ensures var c, s', left := s.posted[0], HarvestOne(cfg, s), s.done + s.posted[1..];
      var k := c.cid - 1;
      var b := s.slots[k];
      && s'.slots == s.slots[k := Free] && s'.mem == BounceOut(cfg, s.mem, k, b, c.ok)
      && Pending(s') == Pending(s) && Finished(s') == left
      && (forall c :: c in left ==> c in Finished(s))
      && s'.outcomes == s.outcomes + [Outcome(b.req, b.isWrite, b.path, !b.suppress, c.ok,
                                              if c.ok then b.req.length else 0, s'.mem, c.before, c.after)]
  {
    hide Layout, Described, BounceOut;
  }

  /** Freeing slot `k` and copying its bounce buffer out leaves the rest as it was. */
  lemma HarvestLeaves(cfg: Config, s: Sys, m': Mem, slots': seq<Slot>, k: nat, left: seq<Cqe>, ok: bool)
    requires Shape(cfg, s) && k < MAX_INFLIGHT && s.slots[k].Busy?
    requires slots' == s.slots[k := Free] && m' == BounceOut(cfg, s.mem, k, s.slots[k], ok)
    requires forall j :: 0 <= j < MAX_INFLIGHT ==> Owns(cfg, s.slots, j)
    requires SqesFit(cfg, s.mem, s.slots, Pending(s)) && CqesFit(cfg, s.mem, s.slots, left)
    requires Unused(k + 1, Pending(s), left)
    ensures forall j :: 0 <= j < MAX_INFLIGHT ==> Owns(cfg, slots', j)
    ensures SqesFit(cfg, m', slots', Pending(s)) && CqesFit(cfg, m', slots', left)
  {
    hide Owns, Layout, Described, BounceOut, Keeps, SqesFit, CqesFit, Pending, Unused;
    forall j | 0 <= j < MAX_INFLIGHT
      ensures Owns(cfg, slots', j)
    {
      FreedOwns(cfg, s, k, j);
    }
    forall j | 0 <= j < MAX_INFLIGHT && j != k
      ensures Keeps(cfg, s.mem, m', j, s.slots[j])
    {
      HarvestKeeps(cfg, s, k, ok, j);
    }
    OthersFit(cfg, s, m', slots', k, Pending(s), left);
  }

  lemma HeadFits(cfg: Config, s: Sys)
    requires Shape(cfg, s) && Layout(cfg) && |s.slots| == MAX_INFLIGHT && s.posted != []
    requires CqesFit(cfg, s.mem, s.slots, Finished(s))
    ensures var c := s.posted[0];
      1 <= c.cid <= MAX_INFLIGHT && s.slots[c.cid - 1].Busy? && CqeFits(cfg, s.mem, c.cid - 1, s.slots[c.cid - 1], c)
  {
    hide CqeFits, Layout, Described;
    assert s.posted[0] in Finished(s);
  }

  /** What Harvest hands over is faithful. */
  lemma HarvestFaithful(cfg: Config, s: Sys)
    requires Shape(cfg, s) && DataInv(cfg, s) && s.posted != []
    ensures var s' := HarvestOne(cfg, s);
      |s'.outcomes| == |s.outcomes| + 1 && s'.outcomes[..|s.outcomes|] == s.outcomes && Faithful(s'.outcomes[|s.outcomes|])
  {
    hide *;
    InvParts(cfg, s);
    HeadFits(cfg, s);
    HarvestIs(cfg, s);
    HandsOver(cfg, s, s.posted[0].cid - 1, s.posted[0]);
  }

  /** The outcome recorded for slot `k` when its completion `c` is harvested. */
  lemma HandsOver(cfg: Config, s: Sys, k: nat, c: Cqe)
    requires Shape(cfg, s) && k < MAX_INFLIGHT && s.slots[k].Busy?
    requires CqeFits(cfg, s.mem, k, s.slots[k], c) && Owns(cfg, s.slots, k)
    ensures var b, m := s.slots[k], BounceOut(cfg, s.mem, k, s.slots[k], c.ok);
      Faithful(Outcome(b.req, b.isWrite, b.path, !b.suppress, c.ok, if c.ok then b.req.length else 0, m, c.before, c.after))
  {
    var b := s.slots[k];
    if b.path.Bounced? && !b.isWrite && c.ok {
      GatherScattered(s.mem, Denotes(b.req.sg), Gather(s.mem, Span(cfg.bounce[k], b.req.length)));
    }
    hide Layout, DriverOwned, Described, Range, Scatter, Gather, Denotes;
  }

  // ----- Clients -------------------------------------------------------------------------

  lemma ClientKeeps(cfg: Config, s: Sys, a: nat, v: byte, j: nat)
    requires Shape(cfg, s) && Enabled(cfg, s, ClientStore(a, v)) && j < MAX_INFLIGHT && Owns(cfg, s.slots, j)
    ensures Keeps(cfg, s.mem, s.mem[a := v], j, s.slots[j])
  {
    if MovesData(s.slots[j]) {
      assert Scatter(s.mem, [a], [v]) == s.mem[a := v] by { assert [a][..0] == []; assert [v][..0] == []; }
      OwnedApart(cfg, j, cfg.list[j], cfg.ps, [a]);
      GatherElsewhere(s.mem, [a], [v], ListSpan(cfg, j));
      if s.slots[j].path.Bounced? {
        OwnedApart(cfg, j, cfg.bounce[j], s.slots[j].req.length, [a]);
      }
      GatherElsewhere(s.mem, [a], [v], Target(cfg, j, s.slots[j]));
    }
  }

  /** Memory changed only where no slot depends on it. */
  lemma AllKeepFits(cfg: Config, s: Sys, m': Mem)
    requires Shape(cfg, s) && DataInv(cfg, s)
    requires forall j :: 0 <= j < MAX_INFLIGHT ==> Keeps(cfg, s.mem, m', j, s.slots[j])
    ensures DataInv(cfg, s.(mem := m'))
  {
    hide SqeFits, Layout, Described, Target, ListSpan, Owns, Matched;
    forall e | e in Pending(s)
      ensures 1 <= e.cid <= MAX_INFLIGHT && s.slots[e.cid - 1].Busy? && SqeFits(cfg, m', e.cid - 1, s.slots[e.cid - 1], e)
    {
      SqeFrame(cfg, s.mem, m', e.cid - 1, s.slots[e.cid - 1], e);
    }
    SameQueues(s, s.(mem := m'));
  }

  lemma ClientFits(cfg: Config, s: Sys, a: nat, v: byte)
    requires Shape(cfg, s) && DataInv(cfg, s) && Enabled(cfg, s, ClientStore(a, v))
    ensures DataInv(cfg, s.(mem := s.mem[a := v]))
  {
    hide Matched, SqesFit, CqesFit, Owns, Layout, Described, Keeps;
    var m' := s.mem[a := v];
    forall j | 0 <= j < MAX_INFLIGHT
      ensures Keeps(cfg, s.mem, m', j, s.slots[j])
    {
      ClientKeeps(cfg, s, a, v, j);
    }
    AllKeepFits(cfg, s, m');
  }

  lemma SuppressFits(cfg: Config, s: Sys, k: nat)
    requires Shape(cfg, s) && DataInv(cfg, s) && k < MAX_INFLIGHT && s.slots[k].Busy?
    ensures DataInv(cfg, s.(slots := s.slots[k := s.slots[k].(suppress := true)]))
  {
    hide *;
    InvParts(cfg, s);
    var s' := Suppressed(s, k);
    SuppressParts(cfg, s, k);
    SuppressAllOwn(cfg, s.slots, s'.slots, k);
    SuppressSqes(cfg, s.mem, s.slots, k, Pending(s));
    SuppressCqes(cfg, s.mem, s.slots, k, Finished(s));
    InvWhole(cfg, s');
  }

  lemma SuppressParts(cfg: Config, s: Sys, k: nat)
    requires Shape(cfg, s) && Matched(s) && k < MAX_INFLIGHT && s.slots[k].Busy?
    ensures var s' := Suppressed(s, k);
      && s' == s.(slots := s.slots[k := s.slots[k].(suppress := true)])
      && Shape(cfg, s') && Matched(s') && Pending(s') == Pending(s) && Finished(s') == Finished(s)
  {
    OccupiedReplace(s.slots, k, s.slots[k].(suppress := true));
    hide Occupied, Described, Layout;
  }

  lemma SuppressAllOwn(cfg: Config, slots: seq<Slot>, slots': seq<Slot>, k: nat)
    requires Layout(cfg) && |slots| == MAX_INFLIGHT && k < MAX_INFLIGHT && slots[k].Busy?
    requires slots' == slots[k := slots[k].(suppress := true)]
    requires forall j :: 0 <= j < MAX_INFLIGHT ==> Owns(cfg, slots, j)
    ensures forall j :: 0 <= j < MAX_INFLIGHT ==> Owns(cfg, slots', j)
  {
    hide Owns, Layout;
    forall j | 0 <= j < MAX_INFLIGHT
      ensures Owns(cfg, slots', j)
    {
      SuppressOwns(cfg, slots, k, slots[k].(suppress := true), j);
    }
  }

  lemma SuppressSqes(cfg: Config, m: Mem, slots: seq<Slot>, k: nat, q: seq<Sqe>)
    requires Layout(cfg) && |slots| == MAX_INFLIGHT && k < MAX_INFLIGHT && slots[k].Busy? && SqesFit(cfg, m, slots, q)
    ensures SqesFit(cfg, m, slots[k := slots[k].(suppress := true)], q)
  {
    hide SqeFits, Layout;
    var slots' := slots[k := slots[k].(suppress := true)];
    forall e | e in q
      ensures 1 <= e.cid <= MAX_INFLIGHT && slots'[e.cid - 1].Busy? && SqeFits(cfg, m, e.cid - 1, slots'[e.cid - 1], e)
    {
      SuppressSqe(cfg, m, e.cid - 1, slots[e.cid - 1], slots'[e.cid - 1], e);
    }
  }

  lemma SuppressCqes(cfg: Config, m: Mem, slots: seq<Slot>, k: nat, q: seq<Cqe>)
    requires Layout(cfg) && |slots| == MAX_INFLIGHT && k < MAX_INFLIGHT && slots[k].Busy? && CqesFit(cfg, m, slots, q)
    ensures CqesFit(cfg, m, slots[k := slots[k].(suppress := true)], q)
  {
    hide CqeFits, Layout;
    var slots' := slots[k := slots[k].(suppress := true)];
    forall c | c in q
      ensures 1 <= c.cid <= MAX_INFLIGHT && slots'[c.cid - 1].Busy? && CqeFits(cfg, m, c.cid - 1, slots'[c.cid - 1], c)
    {
      SuppressCqe(cfg, m, c.cid - 1, slots[c.cid - 1], slots'[c.cid - 1], c);
    }
  }

  /** Slots that differ at most in whether a reply is wanted. */
  predicate SameWork(b: Slot, b': Slot) {
    b' == b || (b.Busy? && b'.Busy? && b' == b.(suppress := b'.suppress))
  }

  lemma SuppressOwns(cfg: Config, slots: seq<Slot>, k: nat, b: Slot, j: nat)
    requires Layout(cfg) && |slots| == MAX_INFLIGHT && k < MAX_INFLIGHT && j < MAX_INFLIGHT
    requires SameWork(slots[k], b) && Owns(cfg, slots, j)
    ensures Owns(cfg, slots[k := b], j)
  {
    hide Layout, DriverOwned, Denotes, Distinct;
  }

  lemma SuppressSqe(cfg: Config, m: Mem, k: nat, b: Slot, b': Slot, e: Sqe)
    requires Layout(cfg) && k < MAX_INFLIGHT && b.Busy? && SameWork(b, b') && SqeFits(cfg, m, k, b, e)
    ensures SqeFits(cfg, m, k, b', e)
  {
    hide Layout, Pages, DiskSpan, Range, FirstBytes, Nlb, Denotes, Gather;
  }

  lemma SuppressCqe(cfg: Config, m: Mem, k: nat, b: Slot, b': Slot, c: Cqe)
    requires Layout(cfg) && k < MAX_INFLIGHT && b.Busy? && SameWork(b, b') && CqeFits(cfg, m, k, b, c)
    ensures CqeFits(cfg, m, k, b', c)
  {
    hide Layout, Range, Scatter, Gather, Denotes;
  }

  // ----- The invariant over runs, and the main result ------------------------------------

  lemma StepFits(cfg: Config, s: Sys, st: Step)
    requires Shape(cfg, s) && Disjoint(cfg) && DataInv(cfg, s) && Enabled(cfg, s, st) && !st.Timeout?
    ensures DataInv(cfg, Next(cfg, s, st))
  {
    hide DataInv, SubmitNoRing, SubmitControl, Execute, HarvestOne, Fetch, Post, RingSQ, Executable, ClientBuffer, Shape;
    match st
    case DoSubmit(r, w, env) => SubmitFits(cfg, s, r, w, env);
    case Control(r, sqe, sup) => ControlFits(cfg, s, r, sqe, sup);
    case Suppress(k) => SuppressFits(cfg, s, k);
    case Publish => PublishFits(cfg, s);
    case DoFetch => FetchFits(cfg, s);
    case DoExecute(i, f) => ExecuteFits(cfg, s, i, f);
    case DoPost(i) => PostFits(cfg, s, i);
    case DoHarvest => HarvestFits(cfg, s);
    case ClientStore(a, v) => ClientFits(cfg, s, a, v);
  }

  ghost predicate AllFaithful(s: Sys) {
    forall o :: o in s.outcomes ==> Faithful(o)
  }

  lemma StepFaithful(cfg: Config, s: Sys, st: Step)
    requires Shape(cfg, s) && Disjoint(cfg) && DataInv(cfg, s) && Enabled(cfg, s, st) && !st.Timeout? && AllFaithful(s)
    ensures AllFaithful(Next(cfg, s, st))
  {
    var s' := Next(cfg, s, st);
    if st.DoHarvest? {
      HarvestFaithful(cfg, s);
      assert s'.outcomes == s'.outcomes[..|s.outcomes|] + [s'.outcomes[|s.outcomes|]];
    } else if st.DoSubmit? {
      SubmitPlaces(cfg, s, st.req, st.isWrite, st.env);
    }
    hide DataInv, Shape, Faithful, Executable, ClientBuffer, HarvestOne, SubmitNoRing;
  }

  lemma {:induction false} RunFaithful(cfg: Config, s0: Sys, steps: seq<Step>, s: Sys)
    requires Shape(cfg, s0) && Disjoint(cfg) && DataInv(cfg, s0) && AllFaithful(s0) && Run(cfg, s0, steps, s, false)
    ensures Shape(cfg, s) && DataInv(cfg, s) && AllFaithful(s)
    decreases |steps|
  {
    hide DataInv, Shape, Disjoint, AllFaithful, Enabled, Next;
    if steps != [] {
      StepFits(cfg, s0, steps[0]);
      StepFaithful(cfg, s0, steps[0]);
      RunFaithful(cfg, Next(cfg, s0, steps[0]), steps[1..], s);
    }
  }

  /** End-to-end refinement.  In every timeout-free run, whatever the order of submissions,
    * doorbells, fetches, executions, completions and client activity, each harvested success is
    * faithful, whether its data was bounced or moved directly: a successful read or write command has moved
    * exactly the bytes of the range it asked for, unless it is a FORMAT64 with a high word. */
  lemma EveryReplyFaithful(cfg: Config, mem: Mem, disk: Mem, steps: seq<Step>, s: Sys, o: Outcome)
    requires Layout(cfg) && Disjoint(cfg) && Run(cfg, Init(mem, disk), steps, s, false) && o in s.outcomes
    ensures Faithful(o) && AsRequested(o)
  {
    InitMatched(mem, disk);
    RunFaithful(cfg, Init(mem, disk), steps, s);
    FaithfulAsRequested(o);
  }
}
