/** Who holds a request: BeginIO, AbortIO, the unit task's dispatching and harvesting, and Close.
  *
  * Every request handed to BeginIO is, at any moment, queued on the port, in a slot or being
  * dispatched, held as a change notification, or completed -- and in exactly one of these.  The
  * slots are those of the unit itself, and what Harvest has replied to is what its results say.
  * Steps are as fine as the unit task's own, so that clients and completions may come in between,
  * also while a request is being dispatched. */
module Ownership {
  import opened Base
  import opened Memory
  import opened Prp
  import opened Commands
  import opened Pipeline
  import opened Dispatch
  import opened Slack
  import opened Answering
  import opened Requests
  import opened UnitTask
  import Waiting
  import Drain
  import Task

  /** The commands BeginIO puts on the unit's port. */
  predicate IsQueued(c: Command) {
    c in {CMD_READ, CMD_WRITE, CMD_UPDATE, CMD_FLUSH, ETD_READ, ETD_WRITE, ETD_UPDATE, TD_FORMAT, ETD_FORMAT,
          TD_FORMAT64, NSCMD_TD_FORMAT64, TD_GETGEOMETRY, TD_READ64, TD_WRITE64, NSCMD_TD_READ64, NSCMD_TD_WRITE64,
          NSCMD_ETD_READ64, NSCMD_ETD_WRITE64, NSCMD_ETD_SEEK64, NSCMD_ETD_FORMAT64, NSCMD_TD_GETGEOMETRY64, HD_SCSICMD}
  }

  /** BeginIO queues exactly the commands that dispatch_ioreq handles, and so every one that moves data. */
  lemma QueuedIsHandled(c: Command)
    ensures IsQueued(c) <==> Handled(c) != NotHandled
    ensures IsRead(c) || IsWrite(c) || IsFlush(c) ==> IsQueued(c)
  {
    SwitchExact(c);
  }

  /** The change notifications. */
  predicate IsNotification(c: Command) {
    c == TD_ADDCHANGEINT || c == TD_REMOVE || c == TD_REMCHANGEINT
  }

  /** io_Error of the commands that BeginIO answers itself. */
  function InlineError(c: Command, hasUnit: bool, data: nat, length: nat): IoError {
    match c
    case UnknownCommand => NoCmd
    case NSCMD_TD_ADDSTATCALLBACK => NoCmd
    case NSCMD_TD_REMSTATCALLBACK => NoCmd
    case NSCMD_DEVICEQUERY => if data == 0 || length < QUERY_BYTES then BadLength else NoError
    case NSCMD_NVME_GETSTATS => if !hasUnit then OpenFail else if data == 0 || length < 8 then BadLength else NoError
    case _ => NoError
  }

  lemma NotBoth(c: Command)
    ensures IsNotification(c) ==> !IsQueued(c)
  {
  }

  /** The commands that are not completed before BeginIO returns. */
  predicate Kept(c: Command, hasUnit: bool, portOpen: bool) {
    hasUnit && (c == TD_ADDCHANGEINT || c == TD_REMOVE || (IsQueued(c) && portOpen))
  }

  /** sizeof(struct NSDeviceQueryResult). */
  const QUERY_BYTES: nat := 16

  ghost function Hit(r: IORequest?, x: nat): nat {
    if r != null && r.id == x then 1 else 0
  }

  /** How often request `x` is in a list. */
  ghost function Occurs(s: seq<IORequest>, x: nat): nat {
    if s == [] then 0 else Occurs(s[..|s| - 1], x) + Hit(s[|s| - 1], x)
  }

  lemma Append(s: seq<IORequest>, r: IORequest)
    ensures forall x: nat :: Occurs(s + [r], x) == Occurs(s, x) + Hit(r, x)
  {
    assert (s + [r])[..|s|] == s;
  }

  lemma {:induction false} OccursRemove(s: seq<IORequest>, i: nat, x: nat)
    requires i < |s|
    ensures Occurs(s, x) == Occurs(RemoveAt(s, i), x) + Hit(s[i], x)
  {
    var n := |s| - 1;
    if i < n {
      OccursRemove(s[..n], i, x);
      assert RemoveAt(s, i)[..n - 1] == RemoveAt(s[..n], i);
    } else {
      assert RemoveAt(s, i) == s[..n];
    }
  }

  lemma Removed(s: seq<IORequest>, i: nat)
    requires i < |s|
    ensures forall x: nat :: Occurs(s, x) == Occurs(RemoveAt(s, i), x) + Hit(s[i], x)
  {
    forall x: nat ensures Occurs(s, x) == Occurs(RemoveAt(s, i), x) + Hit(s[i], x) { OccursRemove(s, i, x); }
  }

  class UnitOwner {
    const unit: Unit
    var portOpen: bool
    var openCount: nat
    var stopping: bool
    var port: seq<IORequest>
    var current: IORequest?
    var changeint: IORequest?
    var remove: IORequest?
    // Completed by ReplyMsg outside Harvest, and completed inline with IOF_QUICK still set.
    var replied: seq<IORequest>
    var finished: seq<IORequest>
    ghost var issued: seq<IORequest>

    /** Replies given here, inline completions, and the replies Harvest has given. */
    ghost function Completed(x: nat): nat
      reads this`replied, this`finished, unit`outcomes
    {
      Occurs(replied, x) + Occurs(finished, x) + Told(unit.outcomes, x)
    }

    ghost function Held(x: nat): nat
      reads this`current, this`changeint, this`remove
    {
      Hit(current, x) + Hit(changeint, x) + Hit(remove, x)
    }

    /** Conservation: every time `x` was issued it is now on the port, in a slot, being dispatched, held
      * or completed -- in exactly one of them.  A suppressed slot is the dispatched request's. */
    ghost predicate Valid()
      reads this, unit, unit.inflight
    {
      && unit.inflight.Length == MAX_INFLIGHT
      && (forall x: nat :: Occurs(issued, x) == Occurs(port, x) + Owned(unit.inflight[..], x) + Held(x) + Completed(x))
      && Suppressions(unit.inflight[..])
      && (!portOpen ==> port == [])
    }

    ghost predicate Suppressions(slots: seq<Slot>)
      reads this`current
    {
      forall k :: 0 <= k < |slots| && slots[k].Busy? && slots[k].suppress ==> current != null && slots[k].req.id == current.id
    }

    constructor (cfg: Config, depth: nat, mem: Mem, disk: Mem)
      requires Layout(cfg) && depth > MAX_INFLIGHT
      ensures Valid() && unit.Valid() && unit.Abs() == Init(mem, disk) && unit.cfg == cfg && unit.qp.depth == depth
      ensures fresh(unit) && fresh(unit.inflight) && fresh(unit.qp) && fresh(unit.qp.sq) && fresh(unit.qp.cq) && fresh(unit.ram)
      ensures portOpen && !stopping && openCount == 1 && issued == [] && port == [] && replied == [] && finished == []
      ensures current == null && changeint == null && remove == null
    {
      var u := new Unit(cfg, depth, mem, disk);
      u.Table();
      unit := u;
      portOpen, openCount, stopping, port, replied, finished, issued := true, 1, false, [], [], [], [];
      current, changeint, remove := null, null, null;
      new;
      hide *;
      unit.Table();
      FreshUnit(unit, mem, disk);
      Starts();
    }

    lemma Starts()
      requires unit.inflight.Length == MAX_INFLIGHT && NoneSuppressed(unit.inflight[..]) && portOpen
      requires issued == [] && port == [] && replied == [] && finished == [] && current == null && changeint == null && remove == null
      requires forall x: nat :: Owned(unit.inflight[..], x) + Told(unit.outcomes, x) == 0
      ensures Valid()
    {
    }

    /** ReplyMsg. */
    method ReplyMsg(r: IORequest)
      modifies this`replied
      ensures replied == old(replied) + [r] && forall x: nat :: Completed(x) == old(Completed(x)) + Hit(r, x)
    {
      Append(replied, r);
      replied := replied + [r];
    }

    /** inline_reply, for a request just issued: with IOF_QUICK the caller sees the result on return,
      * without a message. */
    method InlineReply(r: IORequest)
      requires Valid()
      modifies this`replied, this`finished, this`issued
      ensures Valid() && issued == old(issued) + [r]
      ensures replied == (if r.quick then old(replied) else old(replied) + [r])
      ensures finished == (if r.quick then old(finished) + [r] else old(finished))
    {
      hide Occurs, Owned, Hit;
      Append(issued, r);
      issued := issued + [r];
      if r.quick {
        Append(finished, r);
        finished := finished + [r];
      } else {
        ReplyMsg(r);
      }
    }

    ghost predicate Quick(r: IORequest?)
      reads if r == null then {} else {r}
    {
      r != null && r.quick
    }

    /** Let a held change-interrupt request go. */
    method ReleaseChangeInt(error: IoError)
      requires Valid()
      modifies this`changeint, this`replied, if changeint == null then {} else {changeint}
      ensures Valid() && changeint == null
      ensures replied == old(replied) + if old(changeint) == null then [] else [old(changeint)]
      ensures old(changeint) != null ==> old(changeint).error == error && old(changeint).quick == old(Quick(changeint))
    {
      hide Occurs, Owned;
      if changeint != null {
        changeint.error := error;
        ReplyMsg(changeint);
        changeint := null;
      }
    }

    method ReleaseRemove(error: IoError)
      requires Valid()
      modifies this`remove, this`replied, if remove == null then {} else {remove}
      ensures Valid() && remove == null
      ensures replied == old(replied) + if old(remove) == null then [] else [old(remove)]
      ensures old(remove) != null ==> old(remove).error == error && old(remove).quick == old(Quick(remove))
    {
      hide Occurs, Owned;
      if remove != null {
        remove.error := error;
        ReplyMsg(remove);
        remove := null;
      }
    }

    /** Keep a change-interrupt or remove request just issued. */
    method Hold(r: IORequest)
      requires Valid() && ((r.command == TD_ADDCHANGEINT && changeint == null) || (r.command == TD_REMOVE && remove == null))
      modifies this`changeint, this`remove, this`issued, r`quick
      ensures Valid() && issued == old(issued) + [r] && !r.quick
      ensures changeint == (if r.command == TD_ADDCHANGEINT then r else old(changeint))
      ensures remove == (if r.command == TD_REMOVE then r else old(remove))
    {
      hide Occurs, Owned;
      Append(issued, r);
      if r.command == TD_ADDCHANGEINT {
        changeint := r;
      } else {
        remove := r;
      }
      r.quick := false;
      issued := issued + [r];
    }

    method PutMsg(r: IORequest)
      requires Valid() && portOpen
      modifies this`port, this`issued, r`quick
      ensures Valid() && issued == old(issued) + [r] && port == old(port) + [r] && !r.quick
    {
      hide Occurs, Owned, Hit;
      Append(issued, r);
      Append(port, r);
      r.quick := false;
      port := port + [r];
      issued := issued + [r];
    }

    /** _manager_BeginIO.  A notification is held, displacing the one held before; a command for the
      * unit task goes to the end of the port; everything else is completed before it returns. */
    method BeginIO(r: IORequest, hasUnit: bool)
      requires Valid()
      modifies this`port, this`changeint, this`remove, this`replied, this`finished, this`issued, r`quick, r`error
      modifies if changeint == null then {} else {changeint}, if remove == null then {} else {remove}
      ensures Valid() && issued == old(issued) + [r]
      ensures port == if hasUnit && portOpen && IsQueued(r.command) then old(port) + [r] else old(port)
      ensures changeint == if hasUnit && r.command == TD_ADDCHANGEINT then r
                           else if hasUnit && r.command == TD_REMCHANGEINT then null else old(changeint)
      ensures remove == if hasUnit && r.command == TD_REMOVE then r else old(remove)
      ensures IsQueued(r.command) && !(hasUnit && portOpen) ==> r.error == OpenFail
      // A read, write, format or flush is never completed here without an error.
      ensures IsRead(r.command) || IsWrite(r.command) || IsFlush(r.command) ==>
        if hasUnit && portOpen then port == old(port) + [r] && replied == old(replied) && finished == old(finished)
        else r.error == OpenFail
      ensures !IsQueued(r.command) && !IsNotification(r.command) ==> r.error == InlineError(r.command, hasUnit, r.data, r.length)
      ensures IsNotification(r.command) && !Kept(r.command, hasUnit, portOpen) ==>
        r.error == if r.command == TD_REMCHANGEINT then NoError else OpenFail
      ensures if Kept(r.command, hasUnit, portOpen) then !r.quick && finished == old(finished)
              else if old(r.quick) then finished == old(finished) + [r]
              else finished == old(finished) && |replied| > 0 && replied[|replied| - 1] == r
      ensures r.command == TD_ADDCHANGEINT && hasUnit && old(changeint) != null
        ==> old(changeint).error == Aborted && replied == old(replied) + [old(changeint)]
      ensures r.command == TD_REMOVE && hasUnit && old(remove) != null
        ==> old(remove).error == Aborted && replied == old(replied) + [old(remove)]
      ensures r.command == TD_REMCHANGEINT && hasUnit && old(changeint) != null
        ==> (old(changeint) != r ==> old(changeint).error == NoError) && |replied| > |old(replied)|
            && replied[..|old(replied)| + 1] == old(replied) + [old(changeint)]
    {
      hide Occurs, Owned, Hit, Completed, Held, Valid, Told, InlineError;
      NotBoth(r.command);
      QueuedIsHandled(r.command);
      hide IsQueued, IsRead, IsWrite, IsFlush, Handled;
      r.error := NoError;
      if IsNotification(r.command) {
        BeginNotification(r, hasUnit);
      } else if IsQueued(r.command) {
        BeginQueued(r, hasUnit);
      } else {
        BeginInline(r, hasUnit);
      }
    }

    /** The commands for the unit task. */
    method BeginQueued(r: IORequest, hasUnit: bool)
      requires Valid() && r.error == NoError
      modifies this`port, this`replied, this`finished, this`issued, r`quick, r`error
      ensures Valid() && issued == old(issued) + [r]
      ensures port == if hasUnit && portOpen then old(port) + [r] else old(port)
      ensures if hasUnit && portOpen then !r.quick && finished == old(finished) && replied == old(replied)
              else
                && r.error == OpenFail
                && if old(r.quick) then finished == old(finished) + [r]
                   else finished == old(finished) && |replied| > 0 && replied[|replied| - 1] == r
    {
      hide Occurs, Owned, Hit, Completed, Held, Told;
      if !hasUnit || !portOpen {
        r.error := OpenFail;
        InlineReply(r);
      } else {
        PutMsg(r);
      }
    }

    /** The inline commands: what they leave in io_Error, and their reply. */
    method BeginInline(r: IORequest, hasUnit: bool)
      requires Valid() && r.error == NoError
      modifies this`replied, this`finished, this`issued, r`error
      ensures Valid() && issued == old(issued) + [r]
      ensures if r.quick then finished == old(finished) + [r]
              else finished == old(finished) && |replied| > 0 && replied[|replied| - 1] == r
      ensures r.error == InlineError(r.command, hasUnit, r.data, r.length)
    {
      hide Occurs, Owned, Hit, Completed, Held, Valid, Told;
      match r.command {
        case UnknownCommand => r.error := NoCmd;
        case NSCMD_TD_ADDSTATCALLBACK => r.error := NoCmd;
        case NSCMD_TD_REMSTATCALLBACK => r.error := NoCmd;
        case NSCMD_DEVICEQUERY =>
          if r.data == 0 || r.length < QUERY_BYTES {
            r.error := BadLength;
          }
        case NSCMD_NVME_GETSTATS =>
          if !hasUnit {
            r.error := OpenFail;
          } else if r.data == 0 || r.length < 8 {
            r.error := BadLength;
          }
        case _ =>
      }
      InlineReply(r);
    }

    /** The change notifications. */
    method BeginNotification(r: IORequest, hasUnit: bool)
      requires Valid() && IsNotification(r.command)
      modifies this`changeint, this`remove, this`replied, this`finished, this`issued, r`quick, r`error
      modifies if changeint == null then {} else {changeint}, if remove == null then {} else {remove}
      ensures Valid() && issued == old(issued) + [r]
      ensures r.command == TD_REMCHANGEINT ==> r.error == NoError
      ensures !hasUnit && r.command != TD_REMCHANGEINT ==> r.error == OpenFail
      ensures changeint == if hasUnit && r.command == TD_ADDCHANGEINT then r
                           else if hasUnit && r.command == TD_REMCHANGEINT then null else old(changeint)
      ensures remove == if hasUnit && r.command == TD_REMOVE then r else old(remove)
      ensures r.command == TD_ADDCHANGEINT && hasUnit && old(changeint) != null
        ==> old(changeint).error == Aborted && replied == old(replied) + [old(changeint)]
      ensures r.command == TD_REMOVE && hasUnit && old(remove) != null
        ==> old(remove).error == Aborted && replied == old(replied) + [old(remove)]
      ensures r.command == TD_REMCHANGEINT && hasUnit && old(changeint) != null
        ==> (old(changeint) != r ==> old(changeint).error == NoError) && |replied| > |old(replied)|
            && replied[..|old(replied)| + 1] == old(replied) + [old(changeint)]
      ensures if Kept(r.command, hasUnit, portOpen) then !r.quick && finished == old(finished)
              else if old(r.quick) then finished == old(finished) + [r]
              else finished == old(finished) && |replied| > 0 && replied[|replied| - 1] == r
    {
      hide Occurs, Owned, Hit, Completed, Held, Valid, Told;
      if !hasUnit && r.command != TD_REMCHANGEINT {
        r.error := OpenFail;
        InlineReply(r);
      } else if r.command == TD_ADDCHANGEINT {
        ReleaseChangeInt(Aborted);
        Hold(r);
      } else if r.command == TD_REMOVE {
        ReleaseRemove(Aborted);
        Hold(r);
      } else {
        if hasUnit {
          ReleaseChangeInt(NoError);
        }
        r.error := NoError;
        InlineReply(r);
      }
    }

    /** _manager_AbortIO: only a request still on the port can be aborted. */
    method AbortIO(r: IORequest) returns (aborted: bool)
      requires Valid()
      modifies this`port, this`replied, r`error
      ensures Valid() && (aborted <==> portOpen && r in old(port)) && forall q :: q in port ==> q in old(port)
      ensures !aborted ==> port == old(port) && replied == old(replied) && r.error == old(r.error)
      ensures aborted ==> replied == old(replied) + [r] && r.error == Aborted
      ensures aborted ==> exists i :: 0 <= i < |old(port)| && old(port)[i] == r && port == RemoveAt(old(port), i)
    {
      if !portOpen {
        return false;
      }
      var i := 0;
      while i < |port| && port[i] != r
        invariant 0 <= i <= |port| && r !in port[..i]
      {
        i := i + 1;
      }
      if i == |port| {
        return false;
      }
      Unlink(i);
      r.error := Aborted;
      return true;
    }

    /** Remove message `i` from the port and reply it. */
    method Unlink(i: nat)
      requires Valid() && i < |port|
      modifies this`port, this`replied
      ensures Valid() && port == RemoveAt(old(port), i) && replied == old(replied) + [old(port)[i]]
    {
      hide Occurs, Owned, Hit, RemoveAt;
      Removed(port, i);
      ReplyMsg(port[i]);
      port := RemoveAt(port, i);
    }

    // ----- Unit task ---------------------------------------------------------------------

    lemma Stands(h: Holders)
      requires Valid() && unit.Valid() && h == Standing(this)
      ensures unit.qp.announced <= |unit.qp.queued| && Holds(h, unit.Abs()) && unit.Abs().slots == unit.inflight[..]
      ensures h.current == current && h.replied == replied && |unit.Abs().slots| == MAX_INFLIGHT
    {
      unit.Table();
      unit.TableOutcomes();
      hide Occurs, Owned, Told, Unit.Valid;
    }

    lemma Restored(h: Holders, s: Sys)
      requires unit.Valid() && h == Standing(this) && unit.qp.announced <= |unit.qp.queued| && s == unit.Abs() && Holds(h, s)
      ensures Valid()
    {
      unit.Table();
      unit.TableOutcomes();
      hide Occurs, Owned, Told, Unit.Valid;
    }

    /** GetMsg. */
    method GetMsg()
      requires Valid() && current == null && port != []
      modifies this`port, this`current
      ensures Valid() && current == old(port)[0] && port == old(port)[1..]
    {
      hide Occurs, Owned, Told;
      Removed(port, 0);
      assert RemoveAt(port, 0) == port[1..];
      current := port[0];
      port := port[1..];
    }

    /** NVMeIO_Harvest, whenever it is called: whatever completions it finds, late ones included, a reply
      * goes only to a request whose slot owed it. */
    method Harvest()
      requires Valid() && unit.Valid()
      modifies unit`pins, unit`heapLists, unit`outcomes, unit.inflight, unit.ram
      modifies unit.qp`cqHead, unit.qp`cqPhase, unit.qp`cqDoorbell, unit.qp`posted, unit.qp`reaped
      ensures Valid() && unit.Valid() && Load(unit.Abs()) <= old(Load(unit.Abs()))
      ensures unit.Abs() == Pipeline.Harvest(unit.cfg, old(unit.Abs()))
    {
      hide *;
      ghost var before := Standing(this);
      StandingIs(this);
      Stands(before);
      unit.Table();
      ghost var s := unit.Abs();
      HarvestWaited(unit.cfg, s);
      unit.Harvest();
      unit.Table();
      WaitedHolds(before, s, unit.Abs());
      Restored(before, unit.Abs());
    }

    /** RingSQ. */
    method Ring()
      requires Valid() && unit.Valid()
      modifies unit.qp`sqDoorbell, unit.qp`announced
      ensures Valid() && unit.Valid() && unit.Abs() == Pipeline.RingSQ(old(unit.Abs())) && Load(unit.Abs()) == old(Load(unit.Abs()))
    {
      hide *;
      unit.RingSQ();
    }

    /** One step of the controller, or of a client's own program. */
    method Others(st: Step)
      requires Valid() && unit.Valid() && Load(unit.Abs()) < unit.qp.depth
      modifies unit`fetched, unit`done, unit`disk, unit.ram, unit.qp.cq
      modifies unit.qp`sqHead, unit.qp`queued, unit.qp`announced, unit.qp`fetched, unit.qp`cqTail, unit.qp`devPhase, unit.qp`posted
      ensures Valid() && unit.Valid() && Load(unit.Abs()) == old(Load(unit.Abs()))
      ensures unit.Abs() == Waiting.Happen(unit.cfg, old(unit.Abs()), st)
    {
      hide *;
      ghost var before := Standing(this);
      StandingIs(this);
      Stands(before);
      unit.Table();
      ghost var s := unit.Abs();
      HappenWaited(unit.cfg, s, st);
      unit.Other(st);
      unit.Table();
      WaitedHolds(before, s, unit.Abs());
      Restored(before, unit.Abs());
    }

    /** SubmitNoRing for the request being dispatched: once it has its slot, Harvest answers for it. */
    method Submit(r: Request, isWrite: bool, env: DmaEnv) returns (rc: Rc)
      requires Valid() && unit.Valid() && Load(unit.Abs()) < unit.qp.depth
      requires current != null && r.id == current.id && NoneSuppressed(unit.inflight[..])
      requires Described(unit.cfg, r) && Layout(unit.cfg) && (r.length > 0 ==> BufferApart(unit.cfg, r))
      modifies this`current, unit`pins, unit`heapLists, unit.inflight, unit.qp`sqTail, unit.qp`queued, unit.qp.sq, unit.ram
      ensures Valid() && unit.Valid() && Load(unit.Abs()) == old(Load(unit.Abs())) && NoneSuppressed(unit.inflight[..])
      ensures (rc, unit.Abs()) == Pipeline.SubmitNoRing(unit.cfg, old(unit.Abs()), r, isWrite, env)
      ensures current == if rc == Submitted then null else old(current)
    {
      hide *;
      ghost var before := Standing(this);
      StandingIs(this);
      Stands(before);
      unit.Table();
      ghost var s := unit.Abs();
      SubmitOwes(unit.cfg, s, r, isWrite, env);
      rc := unit.SubmitNoRing(r, isWrite, env);
      unit.Table();
      OwesNone(s, unit.Abs(), r.id, if rc == Submitted then 1 else 0);
      HandedOn(before, s, unit.Abs(), r.id, if rc == Submitted then 1 else 0);
      if rc == Submitted {
        current := null;
      }
      StandingIs(this);
      Restored(if rc == Submitted then before.(current := null) else before, unit.Abs());
    }

    /** Flush, likewise. */
    method SubmitFlush(r: Request) returns (rc: Rc)
      requires Valid() && unit.Valid() && Load(unit.Abs()) < unit.qp.depth
      requires current != null && r.id == current.id && NoneSuppressed(unit.inflight[..])
      modifies this`current, unit.inflight, unit.qp`sqTail, unit.qp`queued, unit.qp`sqDoorbell, unit.qp`announced, unit.qp.sq
      ensures Valid() && unit.Valid() && Load(unit.Abs()) == old(Load(unit.Abs())) && NoneSuppressed(unit.inflight[..])
      ensures (rc, unit.Abs()) == Pipeline.Flush(old(unit.Abs()), r)
      ensures current == if rc == Submitted then null else old(current)
    {
      hide *;
      ghost var before := Standing(this);
      StandingIs(this);
      Stands(before);
      ghost var s := unit.Abs();
      FlushOwes(s, r);
      rc := unit.Flush(r);
      unit.Table();
      OwesNone(s, unit.Abs(), r.id, if rc == Submitted then 1 else 0);
      HandedOn(before, s, unit.Abs(), r.id, if rc == Submitted then 1 else 0);
      if rc == Submitted {
        current := null;
      }
      StandingIs(this);
      Restored(if rc == Submitted then before.(current := null) else before, unit.Abs());
    }

    /** A chunk: submitted and published, and the reply of the first slot that works for this request taken
      * over at once.  The request stays with its dispatcher. */
    method StartChunk(c: Request, isWrite: bool, env: DmaEnv) returns (rc: Rc)
      requires Valid() && unit.Valid() && Load(unit.Abs()) < unit.qp.depth
      requires current != null && c.id == current.id && NoneSuppressed(unit.inflight[..])
      requires Described(unit.cfg, c) && Layout(unit.cfg) && (c.length > 0 ==> BufferApart(unit.cfg, c))
      modifies unit`pins, unit`heapLists, unit.inflight, unit.ram
      modifies unit.qp`sqTail, unit.qp`queued, unit.qp`sqDoorbell, unit.qp`announced, unit.qp.sq
      ensures Valid() && unit.Valid() && Load(unit.Abs()) == old(Load(unit.Abs())) && current == old(current)
      ensures rc == Pipeline.Submit(unit.cfg, old(unit.Abs()), c, isWrite, env).0
      ensures rc != Submitted ==> NoneSuppressed(unit.inflight[..])
    {
      hide *;
      ghost var before := Standing(this);
      StandingIs(this);
      Stands(before);
      unit.Table();
      ghost var s := unit.Abs();
      SubmitRingOwes(unit.cfg, s, c, isWrite, env);
      SubmittedSlot(unit.cfg, s, c, isWrite, env);
      rc := unit.Submit(c, isWrite, env);
      unit.Table();
      ghost var s1 := unit.Abs();
      OwesNone(s, s1, c.id, if rc == Submitted then 1 else 0);
      if rc == Submitted {
        var slot := Task.FindSlotOf(unit, c.id);
        FoundSlot(s1.slots, c.id);
        unit.Suppress(slot);
        unit.Table();
        TakenOver(before, s, s1, slot, c.id);
      } else {
        HandedOn(before, s, s1, c.id, 0);
      }
      Restored(before, unit.Abs());
    }

    /** The command of SubmitAndWait: placed with its reply suppressed, and published. */
    method StartCommand(r: Request, sqe: Sqe) returns (rc: Rc)
      requires Valid() && unit.Valid() && Load(unit.Abs()) < unit.qp.depth && Dataless(sqe)
      requires current != null && r.id == current.id && NoneSuppressed(unit.inflight[..])
      modifies unit.inflight, unit.qp`sqTail, unit.qp`queued, unit.qp`sqDoorbell, unit.qp`announced, unit.qp.sq
      ensures Valid() && unit.Valid() && Load(unit.Abs()) == old(Load(unit.Abs())) && current == old(current)
      ensures rc == SubmitControl(old(unit.Abs()), r, sqe, true).0
    {
      hide *;
      ghost var before := Standing(this);
      StandingIs(this);
      Stands(before);
      ghost var s := unit.Abs();
      ControlHeld(before, s, r, sqe);
      rc := unit.SubmitControl(r, sqe, true);
      unit.Table();
      ghost var s1 := unit.Abs();
      RingWaited(s1);
      unit.RingSQ();
      unit.Table();
      WaitedHolds(before, s1, unit.Abs());
      Restored(before, unit.Abs());
    }

    /** Free a suppressed slot whose command never answered; its late completion will find no reply to give
      * to this request. */
    method GiveUp(k: nat)
      requires Valid() && unit.Valid() && k < MAX_INFLIGHT && unit.inflight[k].Busy? && unit.inflight[k].suppress
      modifies unit`pins, unit`heapLists, unit.inflight
      ensures Valid() && unit.Valid() && unit.Abs() == Pipeline.GiveUp(old(unit.Abs()), k)
      ensures Load(unit.Abs()) == old(Load(unit.Abs())) + 1
    {
      hide *;
      ghost var before := Standing(this);
      StandingIs(this);
      Stands(before);
      unit.Table();
      ghost var s := unit.Abs();
      GivenUpHolds(before, s, k);
      unit.GiveUp(k);
      unit.Table();
      Restored(before, unit.Abs());
    }

    /** Reply the request being dispatched: not while a slot still works for the dispatcher. */
    method Reply(error: IoError)
      requires Valid() && current != null && NoneSuppressed(unit.inflight[..])
      modifies this`current, this`replied, current`error
      ensures Valid() && current == null && replied == old(replied) + [old(current)] && old(current).error == error
    {
      hide Occurs, Owned, Told;
      current.error := error;
      ReplyMsg(current);
      current := null;
    }

    /** dispatch_ioreq, as a whole: the request ends in a slot, or is replied once. */
    method Dispatch(m: Drain.Message) returns (fate: Drain.Fate)
      requires Valid() && unit.Valid() && Load(unit.Abs()) < unit.qp.depth
      requires current != null && m.req.id == current.id && m.req.command == current.command && NoneSuppressed(unit.inflight[..])
      requires Layout(unit.cfg) && Drain.Sound(unit.cfg, m) && Task.Apart(unit, m)
      modifies this`current, this`replied, current`error, unit, unit.inflight, unit.qp, unit.qp.sq, unit.qp.cq, unit.ram
      ensures Valid() && unit.Valid() && Load(unit.Abs()) <= old(Load(unit.Abs())) + if fate == Drain.Lost then 1 else 0
      ensures (fate, unit.Abs()) == Drain.Dispatched(unit.cfg, old(unit.Abs()), m)
      ensures current == null && NoneSuppressed(unit.inflight[..])
      ensures replied == if fate == Drain.Pending then old(replied) else old(replied) + [old(current)]
      // In a slot it is worked for in the direction its command names; otherwise io_Error says how it ended.
      ensures fate == Drain.Pending ==>
        exists k :: 0 <= k < MAX_INFLIGHT == unit.inflight.Length && Drain.WorksFor(unit.inflight[k], m.req)
      ensures fate.Answered? ==> old(current).error == fate.error
      ensures fate.Reported? ==> old(current).error == if fate.end == WaitEnd.Completed(true) then NoError else BadStatus
      ensures fate.Lost? ==> old(current).error == if m.Transfer? then Aborted else BadStatus
    {
      hide *;
      ghost var before := Standing(this);
      StandingIs(this);
      Stands(before);
      unit.Table();
      ghost var s := unit.Abs();
      Drain.DispatchedOwes(unit.cfg, s, m);
      Drain.DispatchedAsNamed(unit.cfg, s, m);
      fate := Task.DispatchMessage(unit, m);
      unit.Table();
      OwesNone(s, unit.Abs(), m.req.id, if fate == Drain.Pending then 1 else 0);
      HandedOn(before, s, unit.Abs(), m.req.id, if fate == Drain.Pending then 1 else 0);
      if fate == Drain.Pending {
        current := null;
      }
      StandingIs(this);
      Restored(if fate == Drain.Pending then before.(current := null) else before, unit.Abs());
      if fate != Drain.Pending {
        Reply(match fate
              case Answered(error) => error
              case Reported(end) => if end == WaitEnd.Completed(true) then NoError else BadStatus
              case Lost => if m.Transfer? then Aborted else BadStatus);
      }
    }

    // ----- Close -------------------------------------------------------------------------

    /** _manager_Close, up to the wait for the unit task: the last close lets the held requests go and asks
      * the unit task to stop.  It may come while a request is being dispatched. */
    method Close()
      requires Valid()
      modifies this`openCount, this`stopping, this`changeint, this`remove, this`replied
      modifies if changeint == null then {} else {changeint}, if remove == null then {} else {remove}
      ensures Valid()
      ensures openCount == if old(openCount) > 0 then old(openCount) - 1 else 0
      ensures old(openCount) == 1 ==> stopping && changeint == null && remove == null
      ensures old(openCount) == 1 && old(changeint) != null ==> old(changeint).error == NoError
      ensures old(openCount) == 1 && old(remove) != null ==> old(remove).error == NoError
      ensures old(openCount) == 1 ==>
        replied == old(replied) + (if old(changeint) == null then [] else [old(changeint)]) + if old(remove) == null then [] else [old(remove)]
      ensures old(openCount) != 1 ==>
        stopping == old(stopping) && changeint == old(changeint) && remove == old(remove) && replied == old(replied)
    {
      hide Occurs, Owned, Told, Hit, Completed, Held;
      if openCount > 0 {
        openCount := openCount - 1;
        if openCount == 0 {
          ReleaseChangeInt(NoError);
          ReleaseRemove(NoError);
          stopping := true;
        }
      }
    }

    /** The unit task's exit, once it has been asked to stop and has nothing in hand: whatever is still on
      * the port is aborted, in order.  If no notification is held, everything ever issued has then been
      * completed if and only if no slot was still occupied. */
    method TaskExit()
      requires Valid() && stopping && current == null
      modifies this`portOpen, this`port, this`replied, port
      ensures Valid() && !portOpen && port == [] && replied == old(replied) + old(port)
      ensures forall r :: r in old(port) ==> r.error == Aborted
      ensures changeint == null && remove == null ==>
        ((forall x: nat :: Occurs(issued, x) == Completed(x)) <==> forall k :: 0 <= k < MAX_INFLIGHT ==> unit.inflight[k].Free?)
    {
      ExitDrain();
      portOpen := false;
      if changeint == null && remove == null { AllCompleted(); }
    }

    /** The last close of a unit whose task has nothing in hand, from the held requests to the end of the unit task. */
    method LastClose()
      requires Valid() && openCount == 1 && current == null
      modifies this`openCount, this`stopping, this`changeint, this`remove, this`replied, this`portOpen, this`port, port
      modifies if changeint == null then {} else {changeint}, if remove == null then {} else {remove}
      ensures Valid() && openCount == 0 && !portOpen && port == [] && changeint == null && remove == null
      ensures (forall x: nat :: Occurs(issued, x) == Completed(x)) <==> forall k :: 0 <= k < MAX_INFLIGHT ==> unit.inflight[k].Free?
    {
      hide Valid, Occurs, Completed;
      Close();
      TaskExit();
    }

    /** What is left on the port. */
    method ExitDrain()
      requires Valid()
      modifies this`port, this`replied, port
      ensures Valid() && port == [] && replied == old(replied) + old(port)
      ensures forall r :: r in old(port) ==> r.error == Aborted
    {
      hide Occurs, Owned, Told, Hit, Completed, Held;
      ghost var all := port;
      var i := 0;
      while port != []
        invariant 0 <= i <= |all| && Valid() && port == all[i..] && replied == old(replied) + all[..i]
        invariant forall r :: r in all[..i] ==> r.error == Aborted
        decreases |port|
      {
        port[0].error := Aborted;
        assert all[..i + 1] == all[..i] + [port[0]] && RemoveAt(port, 0) == all[i + 1..];
        Unlink(0);
        i := i + 1;
      }
      assert all[..i] == all;
    }

    lemma AllCompleted()
      requires Valid() && current == null && port == [] && changeint == null && remove == null
      ensures (forall x: nat :: Occurs(issued, x) == Completed(x)) <==> forall k :: 0 <= k < MAX_INFLIGHT ==> unit.inflight[k].Free?
    {
      if forall k :: 0 <= k < MAX_INFLIGHT ==> unit.inflight[k].Free? {
        forall x: nat ensures Owned(unit.inflight[..], x) == 0 { OwnedNone(unit.inflight[..], x); }
      }
      if k :| 0 <= k < MAX_INFLIGHT && unit.inflight[k].Busy? {
        var x := unit.inflight[k].req.id;
        OwnedNone(unit.inflight[..], x);
        assert Answers(unit.inflight[..][k], x) == 1;
        assert Occurs(issued, x) != Completed(x);
      }
    }

    /** A request issued once is in exactly one place, and has been completed at most once. */
    lemma ExactlyOnePlace(x: nat)
      requires Valid() && Occurs(issued, x) == 1
      ensures var onPort, inSlot, held, completed := Occurs(port, x), Owned(unit.inflight[..], x), Held(x), Completed(x);
        && (onPort == 1 || inSlot == 1 || held == 1 || completed == 1)
        && onPort + inSlot + held + completed == 1
    {
      hide Occurs, Owned, Told, Hit;
    }

    // ----- Dispatching while others act --------------------------------------------------

    /** A yield of the unit task: any clients and the controller act, in any order. */
    method YieldTo(acts: seq<Action>, requests: set<IORequest>)
      requires Valid() && unit.Valid() && Known(requests) && Load(unit.Abs()) < unit.qp.depth && Layout(unit.cfg)
      requires forall a :: a in acts ==> IsOutsider(a) && (a.Begin? || a.Abort? ==> a.req in requests)
      modifies this`port, this`changeint, this`remove, this`replied, this`finished, this`issued, this`openCount, this`stopping, requests
      modifies unit`fetched, unit`done, unit`disk, unit.ram, unit.qp.cq
      modifies unit.qp`sqHead, unit.qp`queued, unit.qp`announced, unit.qp`fetched, unit.qp`cqTail, unit.qp`devPhase, unit.qp`posted
      ensures Valid() && unit.Valid() && Known(requests) && Load(unit.Abs()) == old(Load(unit.Abs()))
    {
      hide *;
      unit.Table();
      ghost var load := Load(unit.Abs());
      var i := 0;
      while i < |acts|
        invariant 0 <= i <= |acts| && Valid() && unit.Valid() && Known(requests) && unit.qp.announced <= |unit.qp.queued|
        invariant Load(unit.Abs()) == load
      {
        Outsider(acts[i], requests);
        unit.Table();
        i := i + 1;
      }
    }

    /** wait_for_free_slot with the request still in hand: harvests reply to others meanwhile, and clients
      * issue, abort and close. */
    method AwaitSlot(script: seq<seq<Action>>, requests: set<IORequest>) returns (freed: bool)
      requires Valid() && unit.Valid() && Known(requests) && Load(unit.Abs()) < unit.qp.depth && Layout(unit.cfg)
      requires NoneSuppressed(unit.inflight[..])
      requires forall acts, a :: acts in script && a in acts ==> IsOutsider(a) && (a.Begin? || a.Abort? ==> a.req in requests)
      modifies this`port, this`changeint, this`remove, this`replied, this`finished, this`issued, this`openCount, this`stopping, requests
      modifies unit, unit.inflight, unit.qp, unit.qp.sq, unit.qp.cq, unit.ram
      ensures Valid() && unit.Valid() && Known(requests) && Load(unit.Abs()) <= old(Load(unit.Abs()))
      ensures NoneSuppressed(unit.inflight[..])
    {
      hide *;
      unit.Table();
      ghost var load := Load(unit.Abs());
      Ring();
      unit.Table();
      var poll := 0;
      while poll < |script|
        invariant 0 <= poll <= |script| && Valid() && unit.Valid() && Known(requests) && unit.qp.announced <= |unit.qp.queued|
        invariant Load(unit.Abs()) <= load && NoneSuppressed(unit.inflight[..])
      {
        unit.Table();
        var slot := unit.FindFreeSlot();
        if slot >= 0 {
          return true;
        }
        Task.HarvestedSlots(unit.cfg, unit.Abs());
        Harvest();
        unit.Table();
        YieldTo(script[poll], requests);
        unit.Table();
        poll := poll + 1;
      }
      return false;
    }

    /** The fast path of dispatch_rw, with everything that may happen while it waits: the request ends in a
      * slot, or is replied once, with the error that stopped it. */
    method DispatchWhole(r: Request, isWrite: bool, dma: DmaEnv, retry: DmaEnv, script: seq<seq<Action>>, requests: set<IORequest>)
        returns (rc: Rc)
      requires Valid() && unit.Valid() && Known(requests) && Load(unit.Abs()) < unit.qp.depth && Layout(unit.cfg)
      requires current != null && r.id == current.id && NoneSuppressed(unit.inflight[..])
      requires Described(unit.cfg, r) && (r.length > 0 ==> BufferApart(unit.cfg, r))
      requires forall acts, a :: acts in script && a in acts ==> IsOutsider(a) && (a.Begin? || a.Abort? ==> a.req in requests)
      modifies this`port, this`changeint, this`remove, this`replied, this`finished, this`issued, this`openCount, this`stopping, this`current
      modifies requests, unit, unit.inflight, unit.qp, unit.qp.sq, unit.qp.cq, unit.ram
      ensures Valid() && unit.Valid() && Known(requests) && Load(unit.Abs()) <= old(Load(unit.Abs()))
      ensures current == null && NoneSuppressed(unit.inflight[..])
      ensures rc != Submitted ==> |replied| > 0 && replied[|replied| - 1] == old(current) && old(current).error == ErrorOf(rc)
    {
      hide *;
      rc := TrySubmit(r, isWrite, dma, requests);
      if rc == NoSlot {
        var freed := AwaitSlot(script, requests);
        if freed {
          rc := TrySubmit(r, isWrite, retry, requests);
        }
      }
      if rc != Submitted {
        CurrentKnown(requests);
        Conclude(rc, requests);
      }
    }

    /** A reply to the request in hand, when it could not be submitted. */
    method Conclude(rc: Rc, requests: set<IORequest>)
      requires Valid() && unit.Valid() && Known(requests) && current != null && NoneSuppressed(unit.inflight[..])
      modifies this`replied, this`current, current`error
      ensures Valid() && unit.Valid() && Known(requests) && current == null
      ensures |replied| > 0 && replied[|replied| - 1] == old(current) && old(current).error == ErrorOf(rc)
    {
      CurrentKnown(requests);
      hide *;
      Reply(ErrorOf(rc));
      StillKnown(requests);
    }

    /** Submit, as far as a dispatch needs it. */
    method TrySubmit(r: Request, isWrite: bool, env: DmaEnv, requests: set<IORequest>) returns (rc: Rc)
      requires Valid() && unit.Valid() && Known(requests) && Load(unit.Abs()) < unit.qp.depth
      requires current != null && r.id == current.id && NoneSuppressed(unit.inflight[..])
      requires Described(unit.cfg, r) && Layout(unit.cfg) && (r.length > 0 ==> BufferApart(unit.cfg, r))
      modifies this`current, unit`pins, unit`heapLists, unit.inflight, unit.qp`sqTail, unit.qp`queued, unit.qp.sq, unit.ram
      ensures Valid() && unit.Valid() && Known(requests) && Load(unit.Abs()) <= old(Load(unit.Abs())) && NoneSuppressed(unit.inflight[..])
      ensures current == if rc == Submitted then null else old(current)
    {
      CurrentKnown(requests);
      hide *;
      rc := Submit(r, isWrite, env);
      StillKnown(requests);
      unit.Table();
    }

    /** A synchronous command that has its slot, with everything that may happen while it is waited for: in
      * the end the slot is free, the request still in hand, and nobody has replied to it -- answered or
      * given up, in which case its late completion will not be this request's. */
    method FinishCommand(k: nat, script: seq<seq<Action>>, requests: set<IORequest>)
      requires Valid() && unit.Valid() && Known(requests) && Load(unit.Abs()) + 1 < unit.qp.depth && Layout(unit.cfg)
      requires current != null && k < MAX_INFLIGHT
      requires forall j :: 0 <= j < MAX_INFLIGHT && j != k && unit.inflight[j].Busy? ==> !unit.inflight[j].suppress
      requires unit.inflight[k].Busy? ==> unit.inflight[k].suppress
      requires forall acts, a :: acts in script && a in acts ==> IsOutsider(a) && (a.Begin? || a.Abort? ==> a.req in requests)
      modifies this`port, this`changeint, this`remove, this`replied, this`finished, this`issued, this`openCount, this`stopping
      modifies requests, unit, unit.inflight, unit.qp, unit.qp.sq, unit.qp.cq, unit.ram
      ensures Valid() && unit.Valid() && Known(requests) && Load(unit.Abs()) <= old(Load(unit.Abs())) + 1
      ensures unit.inflight[k].Free? && NoneSuppressed(unit.inflight[..])
    {
      hide *;
      unit.Table();
      ghost var load := Load(unit.Abs());
      OnlyOneIs(unit.inflight[..], k);
      var poll := 0;
      while poll < |script| && unit.inflight[k].Busy?
        invariant 0 <= poll <= |script| && Valid() && unit.Valid() && Known(requests) && unit.qp.announced <= |unit.qp.queued|
        invariant Load(unit.Abs()) <= load && OnlySuppressed(unit.inflight[..], k) && unit.inflight.Length == MAX_INFLIGHT
      {
        unit.Table();
        HarvestedOnly(unit.cfg, unit.Abs(), k);
        Harvest();
        unit.Table();
        if unit.inflight[k].Free? {
          break;
        }
        YieldTo(script[poll], requests);
        unit.Table();
        poll := poll + 1;
      }
      OnlyOneIs(unit.inflight[..], k);
      unit.Table();
      if unit.inflight[k].Busy? {
        ghost var s := unit.Abs();
        GiveUpDue(s, k, 0);
        GivenUpOnly(s.slots, k);
        GiveUp(k);
        unit.Table();
      }
    }

    lemma StillKnown(requests: set<IORequest>)
      requires forall r :: r in port ==> r in requests
      requires current == null || current in requests
      requires (changeint == null || changeint in requests) && (remove == null || remove in requests)
      ensures Known(requests)
    {
    }

    lemma CurrentKnown(requests: set<IORequest>)
      requires Known(requests)
      ensures current == null || current in requests
      ensures (forall r :: r in port ==> r in requests) && (changeint == null || changeint in requests) && (remove == null || remove in requests)
    {
    }

    // ----- Whole runs --------------------------------------------------------------------

    /** The requests the driver can still write to. */
    ghost predicate Known(requests: set<IORequest>)
      reads this
    {
      && (forall r :: r in port ==> r in requests) && (current == null || current in requests)
      && (changeint == null || changeint in requests) && (remove == null || remove in requests)
    }

    /** One action of a client or of the controller, as it may come while the unit task yields: it touches
      * neither the request in hand nor the slots. */
    method Outsider(a: Action, requests: set<IORequest>)
      requires Valid() && unit.Valid() && Known(requests) && Load(unit.Abs()) < unit.qp.depth && Layout(unit.cfg)
      requires IsOutsider(a) && (a.Begin? || a.Abort? ==> a.req in requests)
      modifies this`port, this`changeint, this`remove, this`replied, this`finished, this`issued, this`openCount, this`stopping, requests
      modifies unit`fetched, unit`done, unit`disk, unit.ram, unit.qp.cq
      modifies unit.qp`sqHead, unit.qp`queued, unit.qp`announced, unit.qp`fetched, unit.qp`cqTail, unit.qp`devPhase, unit.qp`posted
      ensures Valid() && unit.Valid() && Known(requests) && Load(unit.Abs()) == old(Load(unit.Abs()))
      ensures issued == old(issued) + if a.Begin? then [a.req] else []
    {
      hide *;
      CurrentKnown(requests);
      match a {
        case Begin(r, hasUnit) => BeginIO(r, hasUnit);
        case Abort(r) => var aborted := AbortIO(r);
        case CloseUnit => Close();
        case Other(st) => Others(st);
        case _ =>
      }
      StillKnown(requests);
    }

    /** One action, if it is possible. */
    method Act(a: Action, requests: set<IORequest>)
      requires Valid() && unit.Valid() && Known(requests) && Load(unit.Abs()) + Loses(a) < unit.qp.depth && Layout(unit.cfg) && Fit(unit.cfg, a)
      requires a.Begin? || a.Abort? ==> a.req in requests
      modifies this, requests, unit, unit.inflight, unit.qp, unit.qp.sq, unit.qp.cq, unit.ram
      ensures Valid() && unit.Valid() && Known(requests) && Load(unit.Abs()) <= old(Load(unit.Abs())) + Loses(a)
      ensures issued == old(issued) + if a.Begin? then [a.req] else []
    {
      hide Valid, Unit.Valid, Load, Occurs, Owned, Told, Hit, Held, Completed, Fit, Shape, Unit.Abs;
      if IsOutsider(a) {
        Outsider(a, requests);
      } else if a.Exit? {
        if stopping && current == null { TaskExit(); }
      } else {
        TaskAct(a);
      }
    }

    /** What the unit task does, and what happens to the unit meanwhile. */
    method TaskAct(a: Action)
      requires Valid() && unit.Valid() && Load(unit.Abs()) + Loses(a) < unit.qp.depth && Layout(unit.cfg) && Fit(unit.cfg, a)
      modifies this`port, this`current, this`replied, if current == null then {} else {current}
      modifies unit, unit.inflight, unit.qp, unit.qp.sq, unit.qp.cq, unit.ram
      ensures Valid() && unit.Valid() && Load(unit.Abs()) <= old(Load(unit.Abs())) + Loses(a)
      ensures (forall r :: r in port ==> r in old(port))
      ensures current == null || current == old(current) || (current in old(port))
    {
      unit.Table();
      hide Valid, Unit.Valid, Load, Occurs, Owned, Told, Hit, Held, Completed, Fit, Shape, Unit.Abs, NoneSuppressed, Described, BufferApart;
      match a {
        case Get => if current == null && port != [] { GetMsg(); }
        case HarvestNow => Harvest();
        case RingNow => Ring();
        case GiveUpOn(k) => if k < MAX_INFLIGHT && unit.inflight[k].Busy? && unit.inflight[k].suppress { GiveUp(k); }
        case ReplyWith(error) => if current != null && NoneSuppressed(unit.inflight[..]) { Reply(error); }
        case _ => Place(a);
      }
    }

    /** What the unit task places for the request it is dispatching. */
    method Place(a: Action)
      requires Valid() && unit.Valid() && Load(unit.Abs()) < unit.qp.depth && Layout(unit.cfg) && Fit(unit.cfg, a)
      modifies this`current, unit, unit.inflight, unit.qp, unit.qp.sq, unit.qp.cq, unit.ram
      ensures Valid() && unit.Valid() && Load(unit.Abs()) <= old(Load(unit.Abs()))
      ensures current == null || current == old(current)
    {
      unit.Table();
      hide Valid, Unit.Valid, Load, Occurs, Owned, Told, Hit, Held, Completed, Fit, Shape, Unit.Abs, NoneSuppressed, Described, BufferApart;
      if current != null && NoneSuppressed(unit.inflight[..]) {
        match a {
          case SubmitOne(r, isWrite, env) => if r.id == current.id { var rc := Submit(r, isWrite, env); }
          case Flush(r) => if r.id == current.id { var rc := SubmitFlush(r); }
          case ChunkOf(c, isWrite, env) => if c.id == current.id { var rc := StartChunk(c, isWrite, env); }
          case CommandFor(r, sqe) => if r.id == current.id { var rc := StartCommand(r, sqe); }
          case _ =>
        }
      }
    }

    /** Any run at all: clients issuing, aborting and closing at any moment, also while the unit task has a
      * request in hand; the unit task taking messages, submitting, publishing, harvesting, starting chunks and
      * commands, giving up on them, replying and exiting; the controller fetching, executing and
      * completing, early or late.  Conservation holds throughout, and everything issued is counted. */
    method Session(script: seq<Action>, requests: set<IORequest>)
      requires Valid() && unit.Valid() && Known(requests) && Layout(unit.cfg)
      requires forall a :: a in script ==> Fit(unit.cfg, a) && (a.Begin? || a.Abort? ==> a.req in requests)
      requires Load(unit.Abs()) + GivenUp(script) < unit.qp.depth
      modifies this, requests, unit, unit.inflight, unit.qp, unit.qp.sq, unit.qp.cq, unit.ram
      ensures Valid() && unit.Valid() && Known(requests)
      ensures forall x: nat :: Occurs(issued, x) == old(Occurs(issued, x)) + Begun(script, x)
    {
      hide *;
      AllActions(script);
      unit.Table();
      ghost var load, before := Load(unit.Abs()), issued;
      var i := 0;
      while i < |script|
        invariant 0 <= i <= |script| && Valid() && unit.Valid() && Known(requests) && unit.qp.announced <= |unit.qp.queued|
        invariant Load(unit.Abs()) <= load + GivenUp(script[..i])
        invariant forall x: nat :: Occurs(issued, x) == Occurs(before, x) + Begun(script[..i], x)
      {
        BegunStep(script, i);
        GivenUpTo(script, i);
        ghost var was := issued;
        if script[i].Begin? { Append(was, script[i].req); }
        Act(script[i], requests);
        assert !script[i].Begin? ==> issued == was;
        unit.Table();
        i := i + 1;
      }
      assert script[..i] == script;
    }
  }

  // ----- Conservation, on values ---------------------------------------------------------

  /** Who holds what outside the unit. */
  datatype Holders = Holders(port: seq<IORequest>, current: IORequest?, changeint: IORequest?, remove: IORequest?,
                             replied: seq<IORequest>, finished: seq<IORequest>, issued: seq<IORequest>, portOpen: bool)

  ghost function Standing(o: UnitOwner): Holders
    reads o
  {
    Holders(o.port, o.current, o.changeint, o.remove, o.replied, o.finished, o.issued, o.portOpen)
  }

  /** Request `x` outside the unit, completed or not. */
  ghost function Outside(h: Holders, x: nat): nat {
    Occurs(h.port, x) + Hit(h.current, x) + Hit(h.changeint, x) + Hit(h.remove, x) + Occurs(h.replied, x) + Occurs(h.finished, x)
  }

  /** Valid, for a unit in state `s`. */
  ghost predicate Holds(h: Holders, s: Sys) {
    && |s.slots| == MAX_INFLIGHT
    && (forall x: nat :: Occurs(h.issued, x) == Outside(h, x) + Due(s, x))
    && (forall k :: 0 <= k < |s.slots| && s.slots[k].Busy? && s.slots[k].suppress ==> h.current != null && s.slots[k].req.id == h.current.id)
    && (!h.portOpen ==> h.port == [])
  }

  lemma WaitedHolds(h: Holders, s: Sys, s': Sys)
    requires Holds(h, s) && Waited(s, s')
    ensures Holds(h, s')
  {
    hide Due, Outside, Occurs;
  }

  /** A dispatch after which `n` replies more are due from slots, and the dispatcher holds one fewer. */
  lemma HandedOn(h: Holders, s: Sys, s': Sys, id: nat, n: nat)
    requires Holds(h, s) && Owes(s, s', id, n) && NoneSuppressed(s.slots) && |s'.slots| == MAX_INFLIGHT
    requires h.current != null && h.current.id == id && n <= 1
    ensures Holds(if n == 1 then h.(current := null) else h, s')
  {
    hide Due, Occurs;
  }

  lemma StandingIs(o: UnitOwner)
    ensures Standing(o) == Holders(o.port, o.current, o.changeint, o.remove, o.replied, o.finished, o.issued, o.portOpen)
  {
  }

  /** A chunk has its slot, and the dispatcher has taken over a slot's reply. */
  lemma TakenOver(h: Holders, s: Sys, s': Sys, k: nat, id: nat)
    requires Holds(h, s) && Owes(s, s', id, 1) && NoneSuppressed(s.slots) && |s'.slots| == MAX_INFLIGHT
    requires h.current != null && h.current.id == id && k < MAX_INFLIGHT && s'.slots[k].Busy? && s'.slots[k].req.id == id
    ensures Holds(h, Suppressed(s', k))
  {
    hide Due, Outside, Occurs;
    forall x: nat
      ensures Due(Suppressed(s', k), x) == Due(s, x)
    {
      SuppressDue(s', k, x);
    }
  }

  lemma ControlHeld(h: Holders, s: Sys, r: Request, sqe: Sqe)
    requires Holds(h, s) && h.current != null && h.current.id == r.id && Dataless(sqe)
    ensures Holds(h, SubmitControl(s, r, sqe, true).1)
  {
    ControlOwes(s, r, sqe, true);
    hide Due, Outside, Occurs, FindFree;
  }

  lemma GivenUpHolds(h: Holders, s: Sys, k: nat)
    requires Holds(h, s) && k < MAX_INFLIGHT == |s.slots| && s.slots[k].Busy? && s.slots[k].suppress
    ensures Holds(h, Pipeline.GiveUp(s, k))
  {
    hide Due, Outside, Occurs;
    forall x: nat
      ensures Due(Pipeline.GiveUp(s, k), x) == Due(s, x)
    {
      GiveUpDue(s, k, x);
    }
    GiveUpDue(s, k, 0);
  }

  lemma SubmittedSlot(cfg: Config, s: Sys, c: Request, w: bool, env: DmaEnv)
    requires Shape(cfg, s) && Described(cfg, c)
    ensures Pipeline.Submit(cfg, s, c, w, env).0 == Submitted ==>
      exists k :: 0 <= k < |Pipeline.Submit(cfg, s, c, w, env).1.slots| && Working(Pipeline.Submit(cfg, s, c, w, env).1.slots[k], c.id)
  {
    SubmitSlot(cfg, s, c, w, env);
    hide SubmitNoRing, Shape, Described, FindFree;
    if Pipeline.Submit(cfg, s, c, w, env).0 == Submitted {
      assert Working(Pipeline.Submit(cfg, s, c, w, env).1.slots[FindFree(s.slots).value], c.id);
    }
  }

  predicate Working(b: Slot, id: nat) {
    b.Busy? && b.req.id == id
  }

  lemma FoundSlot(slots: seq<Slot>, id: nat)
    requires exists k :: 0 <= k < |slots| && Working(slots[k], id)
    ensures FindRequest(slots, id).Some? && FindRequest(slots, id).value < |slots|
    ensures slots[FindRequest(slots, id).value].Busy? && slots[FindRequest(slots, id).value].req.id == id
  {
  }

  /** No slot but `k` is suppressed, and `k` is if it is occupied. */
  predicate OnlySuppressed(slots: seq<Slot>, k: nat) {
    k < |slots| && (slots[k].Busy? ==> slots[k].suppress)
    && forall j :: 0 <= j < |slots| && j != k && slots[j].Busy? ==> !slots[j].suppress
  }

  lemma OnlyOneIs(slots: seq<Slot>, k: nat)
    requires k < |slots|
    ensures OnlySuppressed(slots, k) <==>
      (slots[k].Busy? ==> slots[k].suppress) && forall j :: 0 <= j < |slots| && j != k && slots[j].Busy? ==> !slots[j].suppress
    ensures OnlySuppressed(slots, k) && slots[k].Free? ==> NoneSuppressed(slots)
  {
  }

  lemma HarvestedOnly(cfg: Config, s: Sys, k: nat)
    requires Shape(cfg, s) && OnlySuppressed(s.slots, k)
    ensures OnlySuppressed(Pipeline.Harvest(cfg, s).slots, k)
  {
    HarvestWaited(cfg, s);
    hide Shape, Pipeline.Harvest, Due;
  }

  lemma GivenUpOnly(slots: seq<Slot>, k: nat)
    requires OnlySuppressed(slots, k)
    ensures k < |slots| && NoneSuppressed(slots[k := Free])
  {
  }

  lemma FreshUnit(unit: Unit, mem: Mem, disk: Mem)
    requires unit.Valid() && unit.Abs() == Init(mem, disk)
    ensures NoneSuppressed(unit.inflight[..]) && forall x: nat :: Owned(unit.inflight[..], x) + Told(unit.outcomes, x) == 0
  {
    unit.Table();
    unit.TableOutcomes();
    hide Unit.Valid, Shape;
    assert unit.inflight[..] == Init(mem, disk).slots;
    forall x: nat ensures Owned(unit.inflight[..], x) == 0 { OwnedNone(unit.inflight[..], x); }
  }

  // ----- Actions -------------------------------------------------------------------------

  datatype Action =
    | Begin(req: IORequest, hasUnit: bool) | Abort(req: IORequest) | CloseUnit        // clients
    | Get | HarvestNow | RingNow | GiveUpOn(slot: nat) | ReplyWith(error: IoError) | Exit
    | SubmitOne(r: Request, isWrite: bool, env: DmaEnv) | Flush(r: Request)
    | ChunkOf(r: Request, isWrite: bool, env: DmaEnv) | CommandFor(r: Request, sqe: Sqe)
    | Other(step: Step)                                                                // the controller, and memory

  /** What is submitted has the SG list of its own buffer, and commands carry no data. */
  ghost predicate Fit(cfg: Config, a: Action)
    requires Layout(cfg)
  {
    && (a.SubmitOne? || a.ChunkOf? ==> Described(cfg, a.r) && (a.r.length > 0 ==> BufferApart(cfg, a.r)))
    && (a.CommandFor? ==> Dataless(a.sqe))
  }

  /** What may happen in a yield. */
  predicate IsOutsider(a: Action) {
    a.Begin? || a.Abort? || a.CloseUnit? || a.Other?
  }

  function Loses(a: Action): nat {
    if a.GiveUpOn? then 1 else 0
  }

  /** How many commands a script may give up on. */
  function GivenUp(script: seq<Action>): nat {
    if script == [] then 0 else GivenUp(script[..|script| - 1]) + Loses(script[|script| - 1])
  }

  lemma {:induction false} GivenUpTo(script: seq<Action>, i: nat)
    requires i < |script|
    ensures GivenUp(script[..i + 1]) == GivenUp(script[..i]) + Loses(script[i]) && GivenUp(script[..i + 1]) <= GivenUp(script)
    decreases |script| - i
  {
    assert script[..i + 1][..i] == script[..i];
    if i + 1 < |script| {
      GivenUpTo(script, i + 1);
    } else {
      assert script[..i + 1] == script;
    }
  }

  lemma AllActions(script: seq<Action>)
    ensures GivenUp(script[..0]) == 0 && forall x: nat :: Begun(script[..0], x) == 0
  {
  }

  /** How often a script issues request `x`. */
  ghost function Begun(script: seq<Action>, x: nat): nat {
    if script == [] then 0
    else Begun(script[..|script| - 1], x) + (var a := script[|script| - 1]; if a.Begin? then Hit(a.req, x) else 0)
  }

  lemma BegunStep(script: seq<Action>, i: nat)
    requires i < |script|
    ensures forall x: nat :: Begun(script[..i + 1], x) == Begun(script[..i], x) + if script[i].Begin? then Hit(script[i].req, x) else 0
  {
    assert script[..i + 1][..i] == script[..i];
  }
}
