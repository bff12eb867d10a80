/** The polled admin queue of nvme_admin.c, and the transfer cap it reads from Identify. */
module Admin {
  import opened Base
  import opened Modular
  import opened Rings

  const STATUS_TIMEOUT: nat := 0xFFFF

  datatype AdminSqe = AdminSqe(cid: nat, opcode: nat, dwords: seq<nat>)
  datatype AdminCqe = AdminCqe(cid: nat, status: nat)

  /** What the controller will answer to a command. */
  type Controller = AdminSqe -> nat

  class AdminQueue {
    const qp: QueuePair<AdminSqe, AdminCqe>
    var nextCmdId: nat
    // How many calls have returned.
    ghost var calls: nat

    ghost predicate Valid()
      reads this, qp, qp.sq, qp.cq
    {
      qp.Valid() && qp.depth == ADMIN_QUEUE_DEPTH && qp.announced == |qp.queued| && nextCmdId < 0x1_0000
    }

    /** Nothing under way: every command so far has been answered and its answer consumed. */
    ghost predicate Idle()
      reads this, qp
    {
      qp.queued == [] && qp.posted == [] && qp.fetched == calls && qp.reaped == ADMIN_QUEUE_DEPTH + calls
      && nextCmdId == (1 + calls) % 0x1_0000
    }

    /** The admin part of InitNVMe. */
    constructor ()
      ensures Valid() && Idle() && calls == 0 && nextCmdId == 1
      ensures fresh(qp) && fresh(qp.sq) && fresh(qp.cq)
    {
      qp := new QueuePair<AdminSqe, AdminCqe>(ADMIN_QUEUE_DEPTH, AdminSqe(0, 0, []), AdminCqe(0, 0));
      nextCmdId, calls := 1, 0;
    }

    /** The controller's turn: fetch one command, if there is one, and post its answer. */
    method Serve(controller: Controller)
      requires Valid() && |qp.queued| + |qp.posted| < ADMIN_QUEUE_DEPTH
      modifies qp`sqHead, qp`queued, qp`announced, qp`fetched, qp`cqTail, qp`devPhase, qp`posted, qp.cq
      ensures Valid()
      ensures if old(qp.queued) == [] then qp.queued == [] && qp.posted == old(qp.posted) && qp.fetched == old(qp.fetched)
              else
                var e := old(qp.queued)[0];
                && qp.queued == old(qp.queued)[1..] && qp.fetched == old(qp.fetched) + 1
                && qp.posted == old(qp.posted) + [AdminCqe(e.cid, controller(e))]
    {
      hide QueuePair.Registers, QueuePair.Contents;
      var e := qp.Fetch();
      if e.Some? {
        var ok := qp.Post(AdminCqe(e.value.cid, controller(e.value)));
      }
    }

    /** NVMe_AdminCmd: place, ring, and poll until an entry carries the expected phase.  Before each
      * poll the controller may have had a turn. */
    method AdminCmd(opcode: nat, dwords: seq<nat>, controller: Controller, turns: seq<bool>) returns (status: nat)
      requires Valid() && |qp.queued| + |qp.posted| < ADMIN_QUEUE_DEPTH - 2
      modifies this, qp, qp.sq, qp.cq
      ensures Valid() && nextCmdId == (old(nextCmdId) + 1) % 0x1_0000
      // From an idle queue: the status of this very command, or a timeout that leaves it behind.
      ensures old(Idle()) && true in turns ==>
        Idle() && calls == old(calls) + 1 && status == controller(AdminSqe(old(nextCmdId), opcode, dwords))
      ensures old(Idle()) && true !in turns ==>
        status == STATUS_TIMEOUT && qp.queued == [AdminSqe(old(nextCmdId), opcode, dwords)] && qp.posted == []
      // In general: the oldest answer there is, or the first there will be, whichever command it is for.
      ensures var line := old(qp.queued) + [AdminSqe(old(nextCmdId), opcode, dwords)];
        if old(qp.posted) != [] && turns != [] then
          && status == old(qp.posted)[0].status
          && (if turns[0] then qp.queued == line[1..] && qp.posted == old(qp.posted)[1..] + [AdminCqe(line[0].cid, controller(line[0]))]
              else qp.queued == line && qp.posted == old(qp.posted)[1..])
        else if old(qp.posted) == [] && true in turns then
          status == controller(line[0]) && qp.queued == line[1..] && qp.posted == []
        else
          status == STATUS_TIMEOUT && qp.queued == line && qp.posted == old(qp.posted)
    {
      hide QueuePair.Registers, QueuePair.Contents, Rem, Quot;
      var cid := nextCmdId;
      nextCmdId := (nextCmdId + 1) % 0x1_0000;
      qp.Place(AdminSqe(cid, opcode, dwords));
      qp.Ring();
      status := Poll(controller, turns);
    }

    method Poll(controller: Controller, turns: seq<bool>) returns (status: nat)
      requires Valid() && |qp.queued| + |qp.posted| < ADMIN_QUEUE_DEPTH && qp.queued != []
      modifies this`calls, qp, qp.sq, qp.cq
      ensures Valid()
      ensures old(qp.posted) == [] && true in turns ==>
        && status == controller(old(qp.queued)[0]) && qp.queued == old(qp.queued)[1..] && qp.posted == [] && calls == old(calls) + 1
        && qp.fetched == old(qp.fetched) + 1 && qp.reaped == old(qp.reaped) + 1
      ensures old(qp.posted) != [] && turns != [] ==>
        && status == old(qp.posted)[0].status
        && var e := old(qp.queued)[0];
        if turns[0] then qp.queued == old(qp.queued)[1..] && qp.posted == old(qp.posted)[1..] + [AdminCqe(e.cid, controller(e))]
        else qp.queued == old(qp.queued) && qp.posted == old(qp.posted)[1..]
      ensures turns == [] || (old(qp.posted) == [] && true !in turns) ==>
        status == STATUS_TIMEOUT && qp.queued == old(qp.queued) && qp.posted == old(qp.posted)
    {
      hide QueuePair.Registers, QueuePair.Contents, Rem, Quot;
      var i := 0;
      while i < |turns|
        invariant 0 <= i <= |turns| && Valid() && |qp.queued| + |qp.posted| < ADMIN_QUEUE_DEPTH
        invariant old(qp.posted) == [] || i == 0
        invariant qp.posted == old(qp.posted) && qp.queued == old(qp.queued) && true !in turns[..i] && calls == old(calls)
        invariant qp.fetched == old(qp.fetched) && qp.reaped == old(qp.reaped)
      {
        if turns[i] {
          Serve(controller);
        }
        var entry := qp.Reap();
        if entry.Some? {
          calls := calls + 1;
          return entry.value.status;
        }
        i := i + 1;
      }
      return STATUS_TIMEOUT;
    }

    /** After n serial commands without a timeout, for any n: tail and head are n mod 64, the expected
      * phase is 1 exactly when n / 64 is even, and the 16-bit command id has wrapped accordingly. */
    lemma SerialState()
      requires Valid() && Idle()
      ensures qp.sqTail == qp.cqHead == calls % ADMIN_QUEUE_DEPTH
      ensures qp.cqPhase == 1 <==> calls / ADMIN_QUEUE_DEPTH % 2 == 0
      ensures nextCmdId == (1 + calls) % 0x1_0000
    {
      Builtin(calls, ADMIN_QUEUE_DEPTH);
      OneLapOn(calls, ADMIN_QUEUE_DEPTH);
    }

    /** A run of commands is a run of synchronous calls.  Every call comes with its own command, its own
      * schedule and the controller as it is then; call `i` returns what that controller posts for
      * command `i` -- also when an equal command with the same wrapped id went before it. */
    method RunAll(calls: seq<Call>) returns (statuses: seq<nat>)
      requires Valid() && Idle() && forall c :: c in calls ==> true in c.turns
      modifies this, qp, qp.sq, qp.cq
      ensures Valid() && Idle() && this.calls == old(this.calls) + |calls| && |statuses| == |calls|
      ensures forall i :: 0 <= i < |calls| ==> statuses[i] == PostedFor(old(this.calls) + i, calls[i])
    {
      hide QueuePair.Registers, QueuePair.Contents;
      statuses := [];
      var i := 0;
      while i < |calls|
        invariant 0 <= i <= |calls| && Valid() && Idle() && this.calls == old(this.calls) + i && |statuses| == i
        invariant forall j :: 0 <= j < i ==> statuses[j] == PostedFor(old(this.calls) + j, calls[j])
      {
        var c := calls[i];
        var status := AdminCmd(c.opcode, c.dwords, c.controller, c.turns);
        statuses := statuses + [status];
        i := i + 1;
      }
    }

    /** Before call `i` of a run with the commands `first` left behind. */
    ghost predicate Lagging(calls: seq<Call>, i: nat, id: nat, first: seq<AdminSqe>)
      reads this, qp
    {
      && nextCmdId == (id + i) % 0x1_0000
      && Behind(calls, LineOf(first, id, calls), |first|, i, i + |first|, qp.queued, qp.posted, i - 1)
    }

    lemma StartsLagging(calls: seq<Call>)
      requires Valid() && qp.posted == []
      ensures Lagging(calls, 0, nextCmdId, qp.queued)
    {
      StartsBehind(calls, nextCmdId, qp.queued);
    }

    lemma LagIs(calls: seq<Call>, i: nat, id: nat, first: seq<AdminSqe>)
      requires Lagging(calls, i, id, first)
      ensures |qp.queued| + |qp.posted| == |first|
    {
      BehindSize(calls, LineOf(first, id, calls), |first|, i, qp.queued, qp.posted, i - 1);
    }

    /** Call `i` of such a run. */
    method CallLate(calls: seq<Call>, i: nat, early: bool, ghost id: nat, ghost first: seq<AdminSqe>) returns (status: nat)
      requires Valid() && i < |calls| && true in calls[i].turns && |first| < ADMIN_QUEUE_DEPTH - 2 && Lagging(calls, i, id, first)
      modifies this, qp, qp.sq, qp.cq
      ensures Valid() && Lagging(calls, i + 1, id, first)
      ensures AnsweredBy(calls, LineOf(first, id, calls)[i], status, i - |first|, i)
    {
      ghost var lag, line := |first|, LineOf(first, id, calls);
      hide Valid, QueuePair.Registers, QueuePair.Contents, QueuePair.Valid, Behind, LineOf, AnsweredBy, Rem, Quot, Idle;
      BehindSize(calls, line, lag, i, qp.queued, qp.posted, i - 1);
      LaterBehind(calls, line, lag, i, i + lag, qp.queued, qp.posted);
      if early {
        ServeBehind(calls, line, lag, i, i + lag, qp.queued, qp.posted);
        Serve(calls[i].controller);
        BehindSize(calls, line, lag, i, qp.queued, qp.posted, i);
      }
      ghost var queued, posted := qp.queued, qp.posted;
      status := AdminCmd(calls[i].opcode, calls[i].dwords, calls[i].controller, calls[i].turns);
      CallBehind(calls, line, lag, i, queued, posted, id, first, qp.queued, qp.posted, status);
      NextId(id, i);
    }

    /** What follows timeouts.  With some commands left behind, say `lag`, every later call that is answered
      * returns the answer to the command `lag` before its own -- after one timeout, to its predecessor --
      * for as long as no further call times out.  The controller may have answered that command during
      * any call since the one that issued it, and between calls as well (`early`). */
    method RunBehind(calls: seq<Call>, early: seq<bool>) returns (statuses: seq<nat>)
      requires Valid() && qp.posted == [] && |qp.queued| < ADMIN_QUEUE_DEPTH - 2
      requires |early| == |calls| && forall i :: 0 <= i < |calls| ==> true in calls[i].turns
      modifies this, qp, qp.sq, qp.cq
      ensures Valid() && |statuses| == |calls| && |qp.queued| + |qp.posted| == |old(qp.queued)|
      ensures AllAnswered(calls, LineOf(old(qp.queued), old(nextCmdId), calls), statuses, |old(qp.queued)|)
    {
      hide *;
      ghost var id, first := nextCmdId, qp.queued;
      StartsLagging(calls);
      NoneAnswered(calls, LineOf(first, id, calls), |first|);
      statuses := [];
      var i := 0;
      while i < |calls|
        invariant 0 <= i <= |calls| && Valid() && |statuses| == i && Lagging(calls, i, id, first)
        invariant AllAnswered(calls, LineOf(first, id, calls), statuses, |first|)
      {
        var status := CallLate(calls, i, early[i], id, first);
        OneMoreAnswered(calls, LineOf(first, id, calls), statuses, status, |first|);
        statuses := statuses + [status];
        i := i + 1;
      }
      LagIs(calls, i, id, first);
    }
  }

  /** One call: the command, when the controller gets a turn, and how it answers commands meanwhile. */
  datatype Call = Call(opcode: nat, dwords: seq<nat>, controller: Controller, turns: seq<bool>)

  /** The commands that `calls` place, with ids counting up from `id` modulo 2^16. */
  function Issued(id: nat, calls: seq<Call>): (line: seq<AdminSqe>)
    ensures |line| == |calls|
  {
    seq(|calls|, i requires 0 <= i < |calls| => AdminSqe((id + i) % 0x1_0000, calls[i].opcode, calls[i].dwords))
  }

  /** The commands left behind and those that `calls` place, in order. */
  function LineOf(behind: seq<AdminSqe>, id: nat, calls: seq<Call>): (line: seq<AdminSqe>)
    ensures |line| == |behind| + |calls|
  {
    behind + Issued(id, calls)
  }

  /** `status` is what the controller of one of the calls `lo` to `hi` answers to command `e`. */
  predicate AnsweredBy(calls: seq<Call>, e: AdminSqe, status: nat, lo: int, hi: int) {
    exists j :: 0 <= j < |calls| && lo <= j <= hi && status == calls[j].controller(e)
  }

  /** Each status is the answer to the command `lag` places before the call's own, given in one of the calls
    * from the one that issued it to the one that returns it. */
  ghost predicate AllAnswered(calls: seq<Call>, line: seq<AdminSqe>, statuses: seq<nat>, lag: nat) {
    |statuses| <= |line| && forall i :: 0 <= i < |statuses| ==> AnsweredBy(calls, line[i], statuses[i], i - lag, i)
  }

  lemma OneMoreAnswered(calls: seq<Call>, line: seq<AdminSqe>, statuses: seq<nat>, status: nat, lag: nat)
    requires AllAnswered(calls, line, statuses, lag) && |statuses| < |line|
    requires AnsweredBy(calls, line[|statuses|], status, |statuses| - lag, |statuses|)
    ensures AllAnswered(calls, line, statuses + [status], lag)
  {
    hide AnsweredBy;
  }

  lemma NoneAnswered(calls: seq<Call>, line: seq<AdminSqe>, lag: nat)
    ensures AllAnswered(calls, line, [], lag)
  {
  }

  /** Before call `i` is answered, the commands of the line from `i` up to `end` are behind: the answers of
    * the first have been posted, the others are queued. */
  ghost predicate Behind(calls: seq<Call>, line: seq<AdminSqe>, lag: nat, i: nat, end: nat,
                         queued: seq<AdminSqe>, posted: seq<AdminCqe>, hi: int) {
    && i + |posted| + |queued| == end <= |line| && queued == line[i + |posted|..end]
    && forall j :: 0 <= j < |posted| ==> AnsweredBy(calls, line[i + j], posted[j].status, i + j - lag, hi)
  }

  lemma BehindSize(calls: seq<Call>, line: seq<AdminSqe>, lag: nat, i: nat, queued: seq<AdminSqe>, posted: seq<AdminCqe>, hi: int)
    requires Behind(calls, line, lag, i, i + lag, queued, posted, hi)
    ensures |queued| + |posted| == lag
  {
  }

  lemma NextId(id: nat, i: nat)
    ensures ((id + i) % 0x1_0000 + 1) % 0x1_0000 == (id + (i + 1)) % 0x1_0000
  {
  }

  lemma StartsBehind(calls: seq<Call>, id: nat, queued: seq<AdminSqe>)
    ensures Behind(calls, LineOf(queued, id, calls), |queued|, 0, |queued|, queued, [], -1)
  {
  }

  lemma LaterBehind(calls: seq<Call>, line: seq<AdminSqe>, lag: nat, i: nat, end: nat, queued: seq<AdminSqe>, posted: seq<AdminCqe>)
    requires Behind(calls, line, lag, i, end, queued, posted, i - 1)
    ensures Behind(calls, line, lag, i, end, queued, posted, i)
  {
    hide AnsweredBy;
    forall j | 0 <= j < |posted|
      ensures AnsweredBy(calls, line[i + j], posted[j].status, i + j - lag, i)
    {
      AnsweredWider(calls, line[i + j], posted[j].status, i + j - lag, i - 1);
    }
  }

  lemma AnsweredWider(calls: seq<Call>, e: AdminSqe, status: nat, lo: int, hi: int)
    requires AnsweredBy(calls, e, status, lo, hi)
    ensures AnsweredBy(calls, e, status, lo, hi + 1)
  {
  }

  /** A call places its command. */
  lemma PlaceBehind(calls: seq<Call>, line: seq<AdminSqe>, lag: nat, i: nat, end: nat, queued: seq<AdminSqe>, posted: seq<AdminCqe>, hi: int)
    requires Behind(calls, line, lag, i, end, queued, posted, hi) && end < |line|
    ensures Behind(calls, line, lag, i, end + 1, queued + [line[end]], posted, hi)
  {
    hide AnsweredBy;
  }

  /** The controller answers the oldest queued command during call `i`. */
  lemma ServeBehind(calls: seq<Call>, line: seq<AdminSqe>, lag: nat, i: nat, end: nat, queued: seq<AdminSqe>, posted: seq<AdminCqe>)
    requires i < |calls| && Behind(calls, line, lag, i, end, queued, posted, i) && end <= i + lag + 1
    ensures queued != [] ==>
      Behind(calls, line, lag, i, end, queued[1..], posted + [AdminCqe(queued[0].cid, calls[i].controller(queued[0]))], i)
  {
    if queued != [] {
      AnsweredNow(calls, queued[0], i + |posted| - lag, i);
      assert queued[0] == line[i + |posted|];
      hide AnsweredBy;
    }
  }

  lemma AnsweredNow(calls: seq<Call>, e: AdminSqe, lo: int, i: nat)
    requires i < |calls| && lo <= i
    ensures AnsweredBy(calls, e, calls[i].controller(e), lo, i)
  {
  }

  /** The call takes the oldest answer. */
  lemma ReapBehind(calls: seq<Call>, line: seq<AdminSqe>, lag: nat, i: nat, end: nat, queued: seq<AdminSqe>, posted: seq<AdminCqe>, hi: int)
    requires Behind(calls, line, lag, i, end, queued, posted, hi) && posted != []
    ensures AnsweredBy(calls, line[i], posted[0].status, i - lag, hi)
    ensures Behind(calls, line, lag, i + 1, end, queued, posted[1..], hi)
  {
    hide AnsweredBy;
    assert AnsweredBy(calls, line[i + 0], posted[0].status, i + 0 - lag, hi);
    forall j | 0 <= j < |posted| - 1
      ensures AnsweredBy(calls, line[i + 1 + j], posted[1..][j].status, i + 1 + j - lag, hi)
    {
      assert AnsweredBy(calls, line[i + (j + 1)], posted[j + 1].status, i + (j + 1) - lag, hi);
    }
  }

  /** Call `i`, as AdminCmd's contract describes it. */
  lemma CallBehind(calls: seq<Call>, line: seq<AdminSqe>, lag: nat, i: nat, queued: seq<AdminSqe>, posted: seq<AdminCqe>,
                   id: nat, first: seq<AdminSqe>, queued': seq<AdminSqe>, posted': seq<AdminCqe>, status: nat)
    requires i < |calls| && line == LineOf(first, id, calls) && |first| == lag
    requires Behind(calls, line, lag, i, i + lag, queued, posted, i) && calls[i].turns != []
    requires var c := calls[i];
      var all := queued + [AdminSqe((id + i) % 0x1_0000, c.opcode, c.dwords)];
      if posted != [] then
        && status == posted[0].status
        && (if c.turns[0] then queued' == all[1..] && posted' == posted[1..] + [AdminCqe(all[0].cid, c.controller(all[0]))]
            else queued' == all && posted' == posted[1..])
      else status == c.controller(all[0]) && queued' == all[1..] && posted' == []
    ensures Behind(calls, line, lag, i + 1, i + 1 + lag, queued', posted', i) && AnsweredBy(calls, line[i], status, i - lag, i)
  {
    var all, end := queued + [AdminSqe((id + i) % 0x1_0000, calls[i].opcode, calls[i].dwords)], i + 1 + lag;
    assert line[i + lag] == all[|queued|];
    hide Behind, AnsweredBy, LineOf;
    var more := posted + [AdminCqe(all[0].cid, calls[i].controller(all[0]))];
    PlaceBehind(calls, line, lag, i, i + lag, queued, posted, i);
    ServeBehind(calls, line, lag, i, end, all, posted);
    ReapBehind(calls, line, lag, i, end, all[1..], more, i);
    if posted == [] {
      assert more[1..] == [];
    } else {
      ReapBehind(calls, line, lag, i, end, all, posted, i);
      assert more[1..] == posted[1..] + [more[|posted|]];
    }
  }

  /** What is posted during the `n`-th call for the command that was submitted by it. */
  function PostedFor(n: nat, c: Call): nat {
    c.controller(AdminSqe((1 + n) % 0x1_0000, c.opcode, c.dwords))
  }

  /** The completion's cid is not looked at, so after a timeout the next call returns the answer to
    * the command that timed out. */
  method StaleStatus(controller: Controller) returns (first: nat, second: nat)
    ensures first == STATUS_TIMEOUT
    ensures second == controller(AdminSqe(1, 10, []))
  {
    hide QueuePair.Registers, QueuePair.Contents;
    var q := new AdminQueue();
    first := q.AdminCmd(10, [], controller, [false]);
    second := q.AdminCmd(20, [], controller, [true]);
  }

  // ----- Transfer cap --------------------------------------------------------------------

  const SANITY_CAP: nat := 0x20_0000

  /** max_transfer_bytes: `(1u << mdts) * page_size` in 32 bits, capped at 2 MiB; MDTS zero means no
    * limit. */
  function TransferCap(mdts: nat, ps: nat): nat {
    if mdts > 0 then
      var bytes := Pow2(mdts) * ps % TWO32;
      if bytes < SANITY_CAP then bytes else SANITY_CAP
    else SANITY_CAP
  }

  lemma {:induction false} Pow2Sum(a: nat, b: nat)
    ensures Pow2(a + b) == Pow2(a) * Pow2(b)
  {
    if a > 0 {
      Pow2Sum(a - 1, b);
      assert 2 * Pow2(a - 1) * Pow2(b) == 2 * (Pow2(a - 1) * Pow2(b));
    }
  }

  lemma {:induction false} Pow2Grows(a: nat, b: nat)
    requires a <= b
    ensures Pow2(a) <= Pow2(b)
  {
    if a < b { Pow2Grows(a, b - 1); }
  }

  lemma Pow2Word()
    ensures Pow2(32) == TWO32 && Pow2(12) == 4096 && Pow2(21) == SANITY_CAP
  {
    assert Pow2(8) == 0x100;
    Pow2Sum(8, 8);
    Pow2Sum(16, 16);
    Pow2Sum(8, 4);
    Pow2Sum(16, 5);
  }

  /** With a page of 4096 << k bytes the product wraps to zero exactly when mdts + 12 + k reaches 32;
    * then the cap is zero.  It is 2 MiB where MDTS sets no limit; otherwise the cap is the smaller of what MDTS allows and 2 MiB, and, for
    * pages up to that size, at least a page. */
  lemma CapWraps(mdts: nat, k: nat, ps: nat)
    requires mdts < 32 && k <= 15 && ps == 4096 * Pow2(k)
    ensures TransferCap(mdts, ps) == 0 <==> mdts > 0 && mdts + 12 + k >= 32
    ensures mdts == 0 ==> TransferCap(mdts, ps) == 0x20_0000
    ensures mdts > 0 && mdts + 12 + k < 32 ==>
      TransferCap(mdts, ps) == if Pow2(mdts) * ps < SANITY_CAP then Pow2(mdts) * ps else SANITY_CAP
    ensures TransferCap(mdts, ps) <= SANITY_CAP
    ensures TransferCap(mdts, ps) > 0 && k <= 9 ==> ps <= TransferCap(mdts, ps)
  {
    hide Pow2;
    Pow2Word();
    Pow2Sum(12, k);
    Wrapped(mdts, k, ps);
    Pow2Grows(12 + k, mdts + 12 + k);
    if k <= 9 { Pow2Grows(12 + k, 21); }
  }

  /** The 32-bit product. */
  lemma Wrapped(mdts: nat, k: nat, ps: nat)
    requires ps == 4096 * Pow2(k)
    ensures Pow2(mdts) * ps == Pow2(mdts + 12 + k) >= 1
    ensures Pow2(mdts) * ps % TWO32 == if mdts + 12 + k >= 32 then 0 else Pow2(mdts + 12 + k)
  {
    var e := mdts + 12 + k;
    hide Pow2;
    Pow2Word();
    Pow2Sum(12, k);
    Pow2Sum(mdts, 12 + k);
    assert Pow2(mdts) * ps == Pow2(e);
    if e >= 32 {
      Pow2Sum(32, e - 32);
      MultipleOfWord(Pow2(e - 32));
    } else {
      Pow2Grows(e + 1, 32);
      Pow2Doubles(e);
    }
  }

  lemma Pow2Doubles(e: nat)
    ensures Pow2(e + 1) == 2 * Pow2(e)
  {
  }

  lemma MultipleOfWord(x: nat)
    ensures TWO32 * x % TWO32 == 0
  {
  }
}
