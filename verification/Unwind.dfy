/** Partial initialisation undone: the leak counters over every schedule of allocation failures, for
  * a controller and for a unit task. */
module Unwind {
  import opened Base

  /** The NVME_LEAK counters. */
  datatype Leaks = Leaks(vec: int, dma: int, entry: int, port: int, signal: int)

  function Bit(b: bool): int {
    if b then 1 else 0
  }

  // ----- Controller ----------------------------------------------------------------------

  /** What each step of InitNVMe that can fail does. */
  datatype InitEnv = InitEnv(deep: bool, disabled: bool, sqVec: bool, cqVec: bool, sqStart: bool, sqEntry: bool,
                             cqStart: bool, cqEntry: bool, enabled: bool, idVec: bool, idStart: bool, idEntry: bool,
                             identified: bool)

  predicate AllWell(e: InitEnv) {
    && e.deep && e.disabled && e.sqVec && e.cqVec && e.sqStart && e.sqEntry && e.cqStart && e.cqEntry
    && e.enabled && e.idVec && e.idStart && e.idEntry && e.identified
  }

  /** One memory area of the controller: its memory, its StartDMA, its DMAEntry array. */
  datatype Area = Area(vec: bool, dma: bool, entry: bool)

  const NOTHING: Area := Area(false, false, false)
  const MAPPED: Area := Area(true, true, true)

  function Minus(l: Leaks, a: Area): Leaks {
    l.(vec := l.vec - Bit(a.vec), dma := l.dma - Bit(a.dma), entry := l.entry - Bit(a.entry))
  }

  class Controller {
    var leaks: Leaks
    // admin_sq, admin_cq, identify_buf with their have_*_vec, have_*_dma and *_dma.
    var sq: Area
    var cq: Area
    var id: Area

    constructor (leaks: Leaks)
      ensures this.leaks == leaks && Clean()
    {
      this.leaks, sq, cq, id := leaks, NOTHING, NOTHING, NOTHING;
    }

    predicate Clean()
      reads this
    {
      sq == NOTHING && cq == NOTHING && id == NOTHING
    }

    /** Everything but what the areas still hold. */
    ghost function Rest(): Leaks
      reads this
    {
      Minus(Minus(Minus(leaks, sq), cq), id)
    }

    /** The allocation steps, up to the first that fails. */
    method Allocate(e: InitEnv) returns (ok: bool)
      requires Clean()
      modifies this
      ensures Rest() == old(leaks)
      ensures ok <==> AllWell(e)
      ensures ok ==> sq == cq == id == MAPPED
    {
      if !e.deep { return false; }
      if !e.disabled { return false; }
      if !e.sqVec { return false; }
      leaks, sq := leaks.(vec := leaks.vec + 1), sq.(vec := true);
      if !e.cqVec { return false; }
      leaks, cq := leaks.(vec := leaks.vec + 1), cq.(vec := true);
      // StartDMA is counted before its result is looked at.
      leaks, sq := leaks.(dma := leaks.dma + 1), sq.(dma := true);
      if !e.sqStart { return false; }
      if !e.sqEntry { return false; }
      leaks, sq := leaks.(entry := leaks.entry + 1), sq.(entry := true);
      leaks, cq := leaks.(dma := leaks.dma + 1), cq.(dma := true);
      if !e.cqStart { return false; }
      if !e.cqEntry { return false; }
      leaks, cq := leaks.(entry := leaks.entry + 1), cq.(entry := true);
      ok := Identify(e);
    }

    /** Enabling, and the Identify buffer and command. */
    method Identify(e: InitEnv) returns (ok: bool)
      requires id == NOTHING
      modifies this`leaks, this`id
      ensures Minus(leaks, id) == old(leaks)
      ensures ok <==> e.enabled && e.idVec && e.idStart && e.idEntry && e.identified
      ensures ok ==> id == MAPPED
    {
      if !e.enabled { return false; }
      if !e.idVec { return false; }
      leaks, id := leaks.(vec := leaks.vec + 1), id.(vec := true);
      leaks, id := leaks.(dma := leaks.dma + 1), id.(dma := true);
      if !e.idStart { return false; }
      if !e.idEntry { return false; }
      leaks, id := leaks.(entry := leaks.entry + 1), id.(entry := true);
      return e.identified;
    }

    /** Free one area: the array, the mapping, the memory, as far as it got. */
    method Release(a: Area)
      modifies this`leaks
      ensures leaks == Minus(old(leaks), a)
    {
      if a.entry { leaks := leaks.(entry := leaks.entry - 1); }
      if a.dma { leaks := leaks.(dma := leaks.dma - 1); }
      if a.vec { leaks := leaks.(vec := leaks.vec - 1); }
    }

    /** InitNVMe: whatever fails, every counter is back where it was. */
    method InitNVMe(e: InitEnv) returns (ok: bool)
      requires Clean()
      modifies this
      ensures ok <==> AllWell(e)
      ensures !ok ==> leaks == old(leaks) && Clean()
      ensures ok ==> Rest() == old(leaks) && sq == cq == id == MAPPED
    {
      ok := Allocate(e);
      if !ok {
        Release(id);
        Release(cq);
        Release(sq);
        sq, cq, id := NOTHING, NOTHING, NOTHING;
      }
    }

    /** CleanupNVMe: undoes a successful InitNVMe, and nothing if there was none. */
    method CleanupNVMe()
      requires (sq == cq == id == MAPPED) || Clean()
      modifies this
      ensures Clean() && leaks == old(Rest())
    {
      if !sq.vec {
        return;
      }
      if id.vec {
        Release(id);
        id := NOTHING;
      }
      if sq.entry {
        leaks := leaks.(dma := leaks.dma - 1, entry := leaks.entry - 1);
        sq := sq.(dma := false, entry := false);
      }
      if cq.entry {
        leaks := leaks.(dma := leaks.dma - 1, entry := leaks.entry - 1);
        cq := cq.(dma := false, entry := false);
      }
      if sq.vec {
        leaks, sq := leaks.(vec := leaks.vec - 1), NOTHING;
      }
      if cq.vec {
        leaks, cq := leaks.(vec := leaks.vec - 1), NOTHING;
      }
    }
  }

  /** Any number of starts, failing or not, each followed by a cleanup, leaves the counters alone. */
  method ManyControllers(c: Controller, schedule: seq<InitEnv>)
    requires c.Clean()
    modifies c
    ensures c.Clean() && c.leaks == old(c.leaks)
  {
    var i := 0;
    while i < |schedule|
      invariant 0 <= i <= |schedule| && c.Clean() && c.leaks == old(c.leaks)
    {
      var ok := c.InitNVMe(schedule[i]);
      c.CleanupNVMe();
      i := i + 1;
    }
  }

  // ----- Unit task -----------------------------------------------------------------------

  /** How mapping one buffer for the unit's lifetime goes: memory, StartDMA, the temporary array. */
  datatype Mapping = Mapping(vec: bool, start: bool, entry: bool)

  predicate Maps(m: Mapping) {
    m.vec && m.start && m.entry
  }

  datatype StartEnv = StartEnv(bounce: nat -> Mapping, list: nat -> Mapping, dsm: Mapping, pool: nat -> bool,
                               readyBit: bool, taskCreated: bool, taskPort: bool, taskSignal: bool)

  function Held(a: seq<bool>): int {
    if a == [] then 0 else Held(a[..|a| - 1]) + Bit(a[|a| - 1])
  }

  lemma {:induction false} HeldUpdate(a: seq<bool>, i: nat, b: bool)
    requires i < |a|
    ensures Held(a[i := b]) == Held(a) - Bit(a[i]) + Bit(b)
  {
    var n := |a| - 1;
    if i < n {
      HeldUpdate(a[..n], i, b);
      assert a[i := b][..n] == a[..n][i := b];
    } else {
      assert a[i := b][..n] == a[..n];
    }
  }

  lemma {:induction false} HeldNone(a: seq<bool>)
    requires forall i :: 0 <= i < |a| ==> !a[i]
    ensures Held(a) == 0
  {
    if a != [] { HeldNone(a[..|a| - 1]); }
  }

  lemma {:induction false} HeldAll(a: seq<bool>)
    requires forall i :: 0 <= i < |a| ==> a[i]
    ensures Held(a) == |a|
  {
    if a != [] { HeldAll(a[..|a| - 1]); }
  }

  class UnitResources {
    var leaks: Leaks
    const bounce: array<bool>
    const list: array<bool>
    const pool: array<bool>
    var dsm: bool
    // The unit task is running, with its port and its signal.
    var running: bool

    ghost predicate Valid()
      reads this
    {
      bounce.Length == list.Length == pool.Length == MAX_INFLIGHT && bounce != list && bounce != pool && list != pool
    }

    /** The counters without what this unit holds. */
    ghost function Rest(): Leaks
      reads this, bounce, list, pool
    {
      var buffers := Held(bounce[..]) + Held(list[..]) + Bit(dsm);
      Leaks(leaks.vec - buffers, leaks.dma - buffers, leaks.entry - Held(pool[..]),
            leaks.port - Bit(running), leaks.signal - Bit(running))
    }

    predicate Empty()
      reads this, bounce, list, pool
    {
      !dsm && !running
      && (forall i :: 0 <= i < bounce.Length ==> !bounce[i])
      && (forall i :: 0 <= i < list.Length ==> !list[i])
      && (forall i :: 0 <= i < pool.Length ==> !pool[i])
    }

    lemma EmptyHoldsNothing()
      requires Empty()
      ensures Rest() == leaks
    {
      HeldNone(bounce[..]);
      HeldNone(list[..]);
      HeldNone(pool[..]);
    }

    constructor (leaks: Leaks)
      ensures Valid() && Empty() && this.leaks == leaks && fresh(bounce) && fresh(list) && fresh(pool)
    {
      this.leaks := leaks;
      bounce := new bool[MAX_INFLIGHT](_ => false);
      list := new bool[MAX_INFLIGHT](_ => false);
      pool := new bool[MAX_INFLIGHT](_ => false);
      dsm, running := false, false;
    }

    /** AllocVec, StartDMA, a temporary DMAEntry array; on a failure all of it is given back. */
    method MapBuffer(m: Mapping) returns (ok: bool)
      modifies this`leaks
      ensures ok <==> Maps(m)
      ensures leaks == if ok then old(leaks).(vec := old(leaks).vec + 1, dma := old(leaks).dma + 1) else old(leaks)
    {
      if !m.vec {
        return false;
      }
      leaks := leaks.(vec := leaks.vec + 1);
      if !m.start {
        leaks := leaks.(vec := leaks.vec - 1);
        return false;
      }
      leaks := leaks.(dma := leaks.dma + 1);
      if !m.entry {
        leaks := leaks.(dma := leaks.dma - 1);
        leaks := leaks.(vec := leaks.vec - 1);
        return false;
      }
      leaks := leaks.(entry := leaks.entry + 1);
      leaks := leaks.(entry := leaks.entry - 1);
      return true;
    }

    /** The sixteen bounce buffers and list pages. */
    method MapSlots(e: StartEnv) returns (ok: bool)
      requires Valid() && Empty()
      modifies this`leaks, bounce, list
      ensures Rest() == old(Rest())
      ensures ok <==> forall i :: 0 <= i < MAX_INFLIGHT ==> Maps(e.bounce(i)) && Maps(e.list(i))
      ensures ok ==> forall i :: 0 <= i < MAX_INFLIGHT ==> bounce[i] && list[i]
      ensures forall i :: 0 <= i < MAX_INFLIGHT ==> !pool[i]
    {
      hide Held;
      var i := 0;
      while i < MAX_INFLIGHT
        invariant 0 <= i <= MAX_INFLIGHT && Rest() == old(Rest())
        invariant forall j :: 0 <= j < i ==> bounce[j] && list[j] && Maps(e.bounce(j)) && Maps(e.list(j))
        invariant forall j :: i <= j < MAX_INFLIGHT ==> !bounce[j] && !list[j]
      {
        var mapped := MapBuffer(e.bounce(i));
        if !mapped {
          return false;
        }
        Mark(bounce, i);
        mapped := MapBuffer(e.list(i));
        if !mapped {
          return false;
        }
        Mark(list, i);
        i := i + 1;
      }
      return true;
    }

    static method Mark(a: array<bool>, i: nat)
      requires i < a.Length && !a[i]
      modifies a
      ensures a[..] == old(a[..])[i := true] && Held(a[..]) == old(Held(a[..])) + 1
    {
      HeldUpdate(a[..], i, true);
      ghost var was := a[..];
      a[i] := true;
      assert a[..] == was[i := true];
    }

    static method Unmark(a: array<bool>, i: nat)
      requires i < a.Length && a[i]
      modifies a
      ensures a[..] == old(a[..])[i := false] && Held(a[..]) == old(Held(a[..])) - 1
    {
      HeldUpdate(a[..], i, false);
      ghost var was := a[..];
      a[i] := false;
      assert a[..] == was[i := false];
    }

    /** The optional DMAEntry pool. */
    method FillPool(e: StartEnv)
      requires Valid() && forall i :: 0 <= i < MAX_INFLIGHT ==> !pool[i]
      modifies this`leaks, pool
      ensures Rest() == old(Rest())
      ensures forall i :: 0 <= i < MAX_INFLIGHT ==> pool[i] == e.pool(i)
    {
      hide Held;
      var i := 0;
      while i < MAX_INFLIGHT
        invariant 0 <= i <= MAX_INFLIGHT && Rest() == old(Rest())
        invariant forall j :: 0 <= j < MAX_INFLIGHT ==> pool[j] == if j < i then e.pool(j) else false
      {
        if e.pool(i) {
          Mark(pool, i);
          leaks := leaks.(entry := leaks.entry + 1);
        }
        i := i + 1;
      }
    }

    /** What slot `i` holds. */
    method ReleaseSlot(i: nat)
      requires Valid() && i < MAX_INFLIGHT
      modifies this`leaks, bounce, list, pool
      ensures Rest() == old(Rest())
      ensures bounce[..] == old(bounce[..])[i := false] && list[..] == old(list[..])[i := false] && pool[..] == old(pool[..])[i := false]
    {
      hide Held;
      if bounce[i] {
        leaks := leaks.(dma := leaks.dma - 1, vec := leaks.vec - 1);
        Unmark(bounce, i);
      }
      if list[i] {
        leaks := leaks.(dma := leaks.dma - 1, vec := leaks.vec - 1);
        Unmark(list, i);
      }
      if pool[i] {
        leaks := leaks.(entry := leaks.entry - 1);
        Unmark(pool, i);
      }
    }

    /** Release every buffer and pool array: the `fail` label, and the end of UnitTask_Shutdown. */
    method ReleaseAll()
      requires Valid() && !running
      modifies this`leaks, this`dsm, bounce, list, pool
      ensures Empty() && leaks == old(Rest())
    {
      hide Held;
      var i := 0;
      while i < MAX_INFLIGHT
        invariant 0 <= i <= MAX_INFLIGHT && Rest() == old(Rest()) && dsm == old(dsm)
        invariant forall j :: 0 <= j < i ==> !bounce[..][j] && !list[..][j] && !pool[..][j]
      {
        ReleaseSlot(i);
        i := i + 1;
      }
      if dsm {
        leaks := leaks.(dma := leaks.dma - 1, vec := leaks.vec - 1);
        dsm := false;
      }
      EmptyHoldsNothing();
    }

    /** The head of unit_task_entry: a port, then a signal; without a signal no port either. */
    method EnterTask(e: StartEnv)
      requires !running
      modifies this`leaks, this`running
      ensures running <==> e.taskPort && e.taskSignal
      ensures leaks == if running then old(leaks).(port := old(leaks).port + 1, signal := old(leaks).signal + 1) else old(leaks)
    {
      if !e.taskPort {
        return;
      }
      leaks := leaks.(port := leaks.port + 1);
      if !e.taskSignal {
        leaks := leaks.(port := leaks.port - 1);
        return;
      }
      leaks := leaks.(signal := leaks.signal + 1);
      running := true;
    }

    /** UnitTask_Start.  A failure restores every counter -- except a failure of the unit task itself, which
      * leaves by another exit and keeps all sixteen pairs of buffers. */
    method Start(e: StartEnv) returns (ok: bool)
      requires Valid() && Empty()
      modifies this, bounce, list, pool
      ensures ok <==>
        (forall i :: 0 <= i < MAX_INFLIGHT ==> Maps(e.bounce(i)) && Maps(e.list(i)))
        && e.readyBit && e.taskCreated && e.taskPort && e.taskSignal
      ensures ok ==> running && Rest() == old(leaks)
      // Started, it holds all sixteen pairs, and the range list buffer and pool arrays that could be had.
      ensures ok ==> dsm == Maps(e.dsm) && forall i :: 0 <= i < MAX_INFLIGHT ==> bounce[i] && list[i] && pool[i] == e.pool(i)
      ensures !ok && !TaskFailed(e) ==> Empty() && leaks == old(leaks)
      ensures !ok && TaskFailed(e) ==> Rest() == old(leaks) && leaks.vec >= old(leaks).vec + 2 * MAX_INFLIGHT
    {
      EmptyHoldsNothing();
      hide Held;
      var mapped := MapSlots(e);
      if !mapped {
        ReleaseAll();
        return false;
      }
      dsm := MapBuffer(e.dsm);
      FillPool(e);
      if !e.readyBit || !e.taskCreated {
        ReleaseAll();
        return false;
      }
      EnterTask(e);
      AllMapped();
      return running;
    }

    lemma AllMapped()
      requires Valid() && forall i :: 0 <= i < MAX_INFLIGHT ==> bounce[i] && list[i]
      ensures Rest().vec <= leaks.vec - 2 * MAX_INFLIGHT
    {
      HeldAll(bounce[..]);
      HeldAll(list[..]);
    }

    /** The unit task came up far enough to fail on its own. */
    static predicate TaskFailed(e: StartEnv) {
      && (forall i :: 0 <= i < MAX_INFLIGHT ==> Maps(e.bounce(i)) && Maps(e.list(i)))
      && e.readyBit && e.taskCreated && !(e.taskPort && e.taskSignal)
    }

    /** UnitTask_Shutdown with the signal handshake: the unit task gives back port and signal, then all
      * buffers go.  Without an acknowledge bit it only waits for the unit task. */
    method Shutdown(ackBit: bool)
      requires Valid()
      modifies this, bounce, list, pool
      ensures old(running) && ackBit ==> Empty() && leaks == old(Rest())
      ensures !old(running) ==> leaks == old(leaks)
      ensures old(running) && !ackBit ==> !running && Rest() == old(Rest())
    {
      hide Held;
      if !running {
        return;
      }
      leaks := leaks.(signal := leaks.signal - 1, port := leaks.port - 1);
      running := false;
      if ackBit {
        ReleaseAll();
      }
    }
  }

  /** A unit started, unless its task fails, and shut down by handshake leaves the counters alone; so
    * does any number of such cycles. */
  method ManyUnits(u: UnitResources, schedule: seq<StartEnv>)
    requires u.Valid() && u.Empty()
    requires forall e :: e in schedule ==> !UnitResources.TaskFailed(e)
    modifies u, u.bounce, u.list, u.pool
    ensures u.Valid() && u.Empty() && u.leaks == old(u.leaks)
  {
    var i := 0;
    while i < |schedule|
      invariant 0 <= i <= |schedule| && u.Valid() && u.Empty() && u.leaks == old(u.leaks)
    {
      var ok := u.Start(schedule[i]);
      if ok {
        u.Shutdown(true);
      }
      i := i + 1;
    }
  }
}
