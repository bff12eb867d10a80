/** SCSI UNMAP on a unit: from the caller's parameter list to the command on the submission queue and back
  * to the SCSI status. */
module Trim {
  import opened Base
  import opened Endian
  import opened Scsi
  import opened Memory
  import opened Pipeline
  import opened Waiting
  import opened Dispatch
  import opened Slack
  import opened UnitTask
  import opened Unmap
  import Task

  /** The controller has been told to deallocate `rs` and nothing else: the newest published command is a
    * Dataset Management with the deallocate attribute, its range list is at `dsmPhys`, and the list in that
    * buffer is `rs`. */
  ghost predicate Deallocates(cfg: Config, t: Sys, k: nat, r: Request, dsmPhys: nat, buf: seq<byte>, rs: seq<Range>) {
    && |buf| >= DSM_BYTES
    && Shape(cfg, t) && k < MAX_INFLIGHT && t.slots[k] == Busy(r, false, NoData, true)
    && t.unpublished == [] && t.published != []
    && var e := t.published[|t.published| - 1];
    && e.opcode == 9 && e.cid == k + 1 && e.prp1 == dsmPhys && e.prp2 == 0 && e.cdw11 == 4
    && DsmRanges(buf, e.cdw10) == rs
  }

  /** NVMe_SCSI_HandleUnmap.  The status is good after a command exactly if that command has succeeded. */
  method HandleUnmap(unit: Unit, r: Request, buf: array<byte>, dsmPhys: nat, hasDsm: bool, cdb: seq<byte>, hasData: bool, data: seq<byte>,
                     slotScript: seq<Turn>, doneScript: seq<Turn>)
      returns (issued: Option<Sqe>, end: WaitEnd, scsiStatus: nat, sense: Sense)
    requires buf.Length >= DSM_BYTES && |cdb| == 10 && unit.Valid() && Load(unit.Abs()) < unit.qp.depth
    requires buf as object != unit.inflight && buf as object != unit.qp.sq && buf as object != unit.qp.cq
    modifies buf, unit, unit.inflight, unit.qp, unit.qp.sq, unit.qp.cq, unit.ram
    ensures unit.Valid() && (issued.Some? <==> Wellformed(dsmPhys, hasDsm, cdb, hasData, data))
    ensures issued.None? ==> unit.Abs() == old(unit.Abs()) && buf[..] == old(buf[..])
    ensures issued.Some? ==>
      && Dataless(issued.value)
      && (end, unit.Abs()) == SubmitAndWait(unit.cfg, old(unit.Abs()), r, issued.value, slotScript, doneScript)
      && (scsiStatus == 0 <==> end == WaitEnd.Completed(true))
      && (scsiStatus != 0 ==> scsiStatus == 2 && sense == Sense(MEDIUM_ERROR, 0, 0))
    // Whatever ranges the caller has laid out in its data are those the controller is told to deallocate.
    ensures forall rs: seq<Range> :: data == ParameterList(rs) && 1 <= |rs| <= MAX_RANGES && issued.Some? && end != NoFreeSlot ==>
      exists t: Sys, k: nat ::
        && Deallocates(unit.cfg, t, k, r, dsmPhys, buf[..], rs)
        && (end, unit.Abs()) == Answer(unit.cfg, t, k, doneScript)
  {
    hide *;
    unit.Table();
    ghost var s := unit.Abs();
    end := NoFreeSlot;
    issued, scsiStatus, sense := Prepare(buf, dsmPhys, hasDsm, cdb, hasData, data);
    assert unit.Valid() && unit.Abs() == s;
    if issued.Some? {
      DsmIsDataless(issued.value);
      end := Task.SubmitAndWait(unit, r, issued.value, slotScript, doneScript);
      if end == WaitEnd.Completed(true) {
        scsiStatus := 0;
      } else {
        scsiStatus, sense := 2, Sense(MEDIUM_ERROR, 0, 0);
      }
      ghost var t, k := SubmitAndWaitPublishes(unit.cfg, s, r, issued.value, slotScript, doneScript);
      if end != NoFreeSlot {
        WorkingDeallocates(unit.cfg, t, k, r, issued.value, buf[..]);
      }
    }
  }

  lemma DsmIsDataless(e: Sqe)
    requires e.opcode == 9
    ensures Dataless(e)
  {
  }

  lemma WorkingDeallocates(cfg: Config, t: Sys, k: nat, r: Request, e: Sqe, buf: seq<byte>)
    requires WorksOn(cfg, t, k, r, e) && e.opcode == 9 && e.prp2 == 0 && e.cdw11 == 4 && |buf| >= DSM_BYTES
    ensures Shape(cfg, t) && k < MAX_INFLIGHT && |t.slots| == MAX_INFLIGHT && t.slots[k].Busy?
    ensures Deallocates(cfg, t, k, r, e.prp1, buf, DsmRanges(buf, e.cdw10))
  {
    hide DsmRanges;
  }
}
