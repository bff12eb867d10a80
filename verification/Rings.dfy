/** A submission/completion queue pair: two rings in shared memory, two doorbells, and the phase
  * tag that tells a fresh completion entry from a stale one (sections 4.1 and 4.6 of NVM Express
  * 1.4).  The host half is what nvme_io.c and nvme_admin.c do, the device half is what the
  * standard asks of a controller.  Both are proved to implement plain queues, across any number
  * of wraps of either ring. */
module Rings {
  import opened Base
  import opened Modular

  /** A completion queue entry as it lies in memory: its phase bit, and the rest. */
  datatype Entry<+C> = Entry(phase: nat, body: C)

  /** The ring holds `queue` in the slots from counter `lo` on. */
  ghost predicate Holds<T>(ring: seq<T>, lo: nat, queue: seq<T>)
    requires |ring| > 0
  {
    forall i :: 0 <= i < |queue| ==> ring[Rem(lo + i, |ring|)] == queue[i]
  }

  lemma HoldsPush<T>(ring: seq<T>, lo: nat, queue: seq<T>, x: T)
    requires |ring| > 0 && Holds(ring, lo, queue) && |queue| < |ring|
    ensures Holds(ring[Rem(lo + |queue|, |ring|) := x], lo, queue + [x])
  {
    var ring', queue' := ring[Rem(lo + |queue|, |ring|) := x], queue + [x];
    forall i | 0 <= i < |queue'|
      ensures ring'[Rem(lo + i, |ring|)] == queue'[i]
    {
      if i < |queue| { DistinctPositions(lo + i, lo + |queue|, |ring|); }
    }
  }

  lemma HoldsPop<T>(ring: seq<T>, lo: nat, queue: seq<T>)
    requires |ring| > 0 && Holds(ring, lo, queue) && queue != []
    ensures Holds(ring, lo + 1, queue[1..]) && ring[Rem(lo, |ring|)] == queue[0]
  {
    forall i | 0 <= i < |queue[1..]|
      ensures ring[Rem(lo + 1 + i, |ring|)] == queue[1..][i]
    {
      assert queue[1..][i] == queue[i + 1];
    }
  }

  /** The phase bit of the lap that counter `i` is on. */
  function Phase(i: nat, depth: nat): (p: nat)
    requires depth > 0
    ensures p <= 1
  {
    Quot(i, depth) % 2
  }

  /** Every slot carries the phase of the lap on which it was last written (before the first lap
    * the ring is zeroed, which is the phase of lap 0). */
  ghost predicate PhasesCurrent<C>(ring: seq<Entry<C>>, posted: nat)
    requires |ring| > 0
  {
    forall i: nat :: posted <= i + |ring| && i < posted ==> ring[Rem(i, |ring|)].phase == Phase(i, |ring|)
  }

  lemma PhasesPush<C>(ring: seq<Entry<C>>, posted: nat, body: C)
    requires |ring| > 0 && PhasesCurrent(ring, posted)
    ensures PhasesCurrent(ring[Rem(posted, |ring|) := Entry(Phase(posted, |ring|), body)], posted + 1)
  {
    forall i: nat | posted + 1 <= i + |ring| && i < posted
      ensures Rem(i, |ring|) != Rem(posted, |ring|)
    {
      DistinctPositions(i, posted, |ring|);
    }
  }

  lemma OneLapOn(i: nat, depth: nat)
    requires depth > 0
    ensures Rem(i + depth, depth) == Rem(i, depth) && Phase(i + depth, depth) == 1 - Phase(i, depth)
  {
  }

  /** The phase test: slot `i` matches its own lap's phase exactly when it has been posted. */
  lemma PhaseTells<C>(ring: seq<Entry<C>>, posted: nat, i: nat)
    requires |ring| > 0 && PhasesCurrent(ring, posted) && i < posted + |ring| && posted <= i + |ring| && |ring| <= posted
    ensures ring[Rem(i, |ring|)].phase == Phase(i, |ring|) <==> i < posted
  {
    if i >= posted {
      OneLapOn(i - |ring|, |ring|);
    }
  }

  lemma {:induction false} PhaseAhead(i: nat, k: nat, depth: nat)
    requires k < depth
    ensures Phase(i + k, depth) == if Rem(i, depth) + k < depth then Phase(i, depth) else 1 - Phase(i, depth)
  {
    if Rem(i, depth) + k < depth {
      Inside(i, k, depth);
    } else {
      var toWrap := depth - Rem(i, depth);
      ToNextUnit(i, depth);
      Inside(i + toWrap, k - toWrap, depth);
    }
  }

  lemma SamePosition(a: nat, b: nat, depth: nat)
    requires a <= b < a + depth
    ensures Rem(a, depth) == Rem(b, depth) <==> a == b
  {
    if a < b { DistinctPositions(a, b, depth); }
  }

  /** `x = (x + 1) % depth`, and how the lap moves. */
  method Advance(x: nat, depth: nat, ghost counter: nat) returns (y: nat)
    requires depth > 1 && x == Rem(counter, depth)
    ensures y == Rem(counter + 1, depth)
    ensures Phase(counter + 1, depth) == if y == 0 then 1 - Phase(counter, depth) else Phase(counter, depth)
  {
    NextPosition(counter, depth);
    Builtin(x + 1, depth);
    y := (x + 1) % depth;
  }

  class QueuePair<S, C> {
    const depth: nat
    const sq: array<S>
    const cq: array<Entry<C>>
    // Host: next SQ slot to write, next CQ slot to read, expected phase.
    var sqTail: nat
    var cqHead: nat
    var cqPhase: nat
    // Doorbell registers.
    var sqDoorbell: nat
    var cqDoorbell: nat
    // Device: next SQ slot to fetch, next CQ slot to post, phase to post with.
    var sqHead: nat
    var cqTail: nat
    var devPhase: nat
    // What the rings hold, as queues: SQEs not yet fetched, of which the first `announced` have
    // been published, and completions not yet consumed.
    ghost var queued: seq<S>
    ghost var announced: nat
    ghost var posted: seq<C>
    // How often the device has fetched; how often the host has consumed, plus one lap.
    ghost var fetched: nat
    ghost var reaped: nat

    ghost predicate Valid()
      reads this, sq, cq
    {
      && depth > 1 && sq.Length == depth && cq.Length == depth && sq as object != cq as object
      && announced <= |queued| < depth && |posted| < depth && reaped >= depth
      && Registers() && Contents()
    }

    /** Every index, doorbell and phase is the one its counter calls for. */
    ghost predicate Registers()
      requires depth > 1
      reads this
    {
      && sqHead == Rem(fetched, depth)
      && sqDoorbell == Rem(fetched + announced, depth)
      && sqTail == Rem(fetched + |queued|, depth)
      && cqHead == Rem(reaped, depth) && cqDoorbell == cqHead && cqPhase == Phase(reaped, depth)
      && cqTail == Rem(reaped + |posted|, depth) && devPhase == Phase(reaped + |posted|, depth)
    }

    /** The two rings hold what the queues say, and every CQ entry its current phase. */
    ghost predicate Contents()
      requires depth > 1 && sq.Length == depth && cq.Length == depth
      reads this, sq, cq
    {
      && Holds(sq[..], fetched, queued)
      && BodiesHold(cq[..], reaped, posted)
      && PhasesCurrent(cq[..], reaped + |posted|)
    }

    static ghost predicate BodiesHold(ring: seq<Entry<C>>, lo: nat, queue: seq<C>)
      requires |ring| > 0
    {
      forall i :: 0 <= i < |queue| ==> ring[Rem(lo + i, |ring|)].body == queue[i]
    }

    /** Placed but not announced to the device. */
    ghost function Unpublished(): seq<S>
      requires announced <= |queued|
      reads this
    {
      queued[announced..]
    }

    /** Announced but not fetched. */
    ghost function Published(): seq<S>
      requires announced <= |queued|
      reads this
    {
      queued[..announced]
    }

    constructor (depth: nat, blankSqe: S, blankCqe: C)
      requires depth > 1
      ensures Valid() && fresh(sq) && fresh(cq) && this.depth == depth
      ensures queued == [] && announced == 0 && posted == [] && fetched == 0 && reaped == depth
      ensures sqTail == 0 && cqHead == 0 && cqPhase == 1
    {
      this.depth := depth;
      sq := new S[depth](_ => blankSqe);
      cq := new Entry<C>[depth](_ => Entry(0, blankCqe));
      sqTail, cqHead, cqPhase := 0, 0, 1;
      sqDoorbell, cqDoorbell := 0, 0;
      sqHead, cqTail, devPhase := 0, 0, 1;
      queued, announced, posted, fetched, reaped := [], 0, [], 0, depth;
      new;
      LapOne(depth);
    }

    static lemma LapOne(depth: nat)
      requires depth > 1
      ensures Rem(depth, depth) == 0 && Phase(depth, depth) == 1
      ensures forall i: nat :: i < depth ==> Phase(i, depth) == 0
    {
      assert Rem(depth, depth) == Rem(0, depth) && Quot(depth, depth) == 1 + Quot(0, depth);
    }

    // ----- Host ------------------------------------------------------------------------

    /** Write an SQE at the shadow tail and advance it; no doorbell. */
    method Place(e: S)
      requires Valid() && |queued| < depth - 1
      modifies this`sqTail, this`queued, sq
      ensures Valid()
      ensures queued == old(queued) + [e]
      ensures Unpublished() == old(Unpublished()) + [e] && Published() == old(Published())
    {
      hide Rem, Quot, Phase, Holds, BodiesHold, PhasesCurrent;
      HoldsPush(sq[..], fetched, queued, e);
      ghost var before := sq[..];
      sq[sqTail] := e;
      assert sq[..] == before[sqTail := e];
      sqTail := Advance(sqTail, depth, fetched + |queued|);
      queued := queued + [e];
      assert queued[announced..] == old(queued)[announced..] + [e] && queued[..announced] == old(queued)[..announced];
    }

    /** Publish the shadow tail. */
    method Ring()
      requires Valid()
      modifies this`sqDoorbell, this`announced
      ensures Valid()
      ensures announced == |queued|
      ensures Unpublished() == [] && Published() == old(Published()) + old(Unpublished())
    {
      hide Rem, Quot, Phase, Holds, BodiesHold, PhasesCurrent;
      sqDoorbell := sqTail;
      announced := |queued|;
      assert queued[..announced] == old(queued[..announced]) + old(queued[announced..]);
    }

    /** Look at the entry under the head; consume it if its phase is the expected one. */
    method Reap() returns (c: Option<C>)
      requires Valid()
      modifies this`cqHead, this`cqPhase, this`cqDoorbell, this`posted, this`reaped
      ensures Valid()
      ensures if old(posted) == [] then c == None && posted == []
              else c == Some(old(posted)[0]) && posted == old(posted)[1..]
      ensures reaped == old(reaped) + if c.Some? then 1 else 0
    {
      hide Rem, Quot, Phase, Holds, BodiesHold, PhasesCurrent;
      PhaseTells(cq[..], reaped + |posted|, reaped);
      var entry := cq[cqHead];
      assert entry == cq[..][Rem(reaped, depth)];
      if entry.phase != cqPhase {
        return None;
      }
      BodiesPop(cq[..], reaped, posted);
      cqHead := Advance(cqHead, depth, reaped);
      if cqHead == 0 {
        cqPhase := 1 - cqPhase;
      }
      cqDoorbell := cqHead;
      posted := posted[1..];
      reaped := reaped + 1;
      return Some(entry.body);
    }

    // ----- Device ----------------------------------------------------------------------

    /** The oldest announced SQE, if head and doorbell differ. */
    method Fetch() returns (e: Option<S>)
      requires Valid()
      modifies this`sqHead, this`queued, this`announced, this`fetched
      ensures Valid()
      ensures if old(announced) == 0 then e == None && queued == old(queued) && announced == 0
              else e == Some(old(queued)[0]) && queued == old(queued)[1..] && announced == old(announced) - 1
      ensures fetched == old(fetched) + if e.Some? then 1 else 0
      ensures Unpublished() == old(Unpublished())
      ensures if old(Published()) == [] then e == None && Published() == []
              else e == Some(old(Published())[0]) && Published() == old(Published())[1..]
    {
      hide Rem, Quot, Phase, Holds, BodiesHold, PhasesCurrent;
      SamePosition(fetched, fetched + announced, depth);
      if sqHead == sqDoorbell {
        return None;
      }
      HoldsPop(sq[..], fetched, queued);
      e := Some(sq[sqHead]);
      assert sq[sqHead] == sq[..][Rem(fetched, depth)];
      sqHead := Advance(sqHead, depth, fetched);
      queued := queued[1..];
      announced := announced - 1;
      assert queued[announced..] == old(queued[announced..]) && queued[..announced] == old(queued[..announced])[1..];
      fetched := fetched + 1;
    }

    /** Post a completion with the current phase, unless the CQ is full. */
    method Post(c: C) returns (ok: bool)
      requires Valid()
      modifies this`cqTail, this`devPhase, this`posted, cq
      ensures Valid()
      ensures ok <==> |old(posted)| < depth - 1
      ensures posted == if ok then old(posted) + [c] else old(posted)
    {
      hide Rem, Quot, Phase, Holds, BodiesHold, PhasesCurrent;
      ghost var tail := reaped + |posted|;
      var next := Advance(cqTail, depth, tail);
      CqFull();
      if next == cqDoorbell {
        return false;
      }
      ghost var before := cq[..];
      BodiesPush(before, reaped, posted, Entry(devPhase, c));
      PhasesPush(before, tail, c);
      cq[cqTail] := Entry(devPhase, c);
      assert cq[..] == before[cqTail := Entry(devPhase, c)];
      cqTail := next;
      if cqTail == 0 {
        devPhase := 1 - devPhase;
      }
      posted := posted + [c];
      return true;
    }

    lemma CqFull()
      requires Valid()
      ensures Rem(reaped + |posted| + 1, depth) == cqHead <==> |posted| == depth - 1
    {
      if |posted| == depth - 1 {
        OneLapOn(reaped, depth);
      } else {
        SamePosition(reaped, reaped + |posted| + 1, depth);
      }
    }

    static lemma BodiesPush(ring: seq<Entry<C>>, lo: nat, queue: seq<C>, x: Entry<C>)
      requires |ring| > 0 && BodiesHold(ring, lo, queue) && |queue| < |ring|
      ensures BodiesHold(ring[Rem(lo + |queue|, |ring|) := x], lo, queue + [x.body])
    {
      var ring', queue' := ring[Rem(lo + |queue|, |ring|) := x], queue + [x.body];
      forall i | 0 <= i < |queue'|
        ensures ring'[Rem(lo + i, |ring|)].body == queue'[i]
      {
        if i < |queue| { DistinctPositions(lo + i, lo + |queue|, |ring|); }
      }
    }

    static lemma BodiesPop(ring: seq<Entry<C>>, lo: nat, queue: seq<C>)
      requires |ring| > 0 && BodiesHold(ring, lo, queue) && queue != []
      ensures BodiesHold(ring, lo + 1, queue[1..]) && ring[Rem(lo, |ring|)].body == queue[0]
    {
      forall i | 0 <= i < |queue[1..]|
        ensures ring[Rem(lo + 1 + i, |ring|)].body == queue[1..][i]
      {
        assert queue[1..][i] == queue[i + 1];
      }
    }

    /** Phase-tag agreement.  Walking the whole CQ from the host's head, with the expected phase
      * inverting where the index wraps, the matching entries are exactly the posted and
      * unconsumed ones, in posting order. */
    lemma PhaseTagAgreement(k: nat)
      requires Valid() && k < depth
      ensures var at := if cqHead + k < depth then cqHead + k else cqHead + k - depth;
        var expected := if cqHead + k < depth then cqPhase else 1 - cqPhase;
        && (cq[at].phase == expected <==> k < |posted|)
        && (k < |posted| ==> cq[at].body == posted[k])
    {
      PhaseTells(cq[..], reaped + |posted|, reaped + k);
      PhaseAhead(reaped, k, depth);
      PositionAhead(reaped, k, depth);
    }
  }

  lemma PositionAhead(i: nat, k: nat, depth: nat)
    requires k < depth
    ensures Rem(i + k, depth) == if Rem(i, depth) + k < depth then Rem(i, depth) + k else Rem(i, depth) + k - depth
  {
    if Rem(i, depth) + k < depth {
      Inside(i, k, depth);
    } else {
      var toWrap := depth - Rem(i, depth);
      ToNextUnit(i, depth);
      Inside(i + toWrap, k - toWrap, depth);
    }
  }
}
