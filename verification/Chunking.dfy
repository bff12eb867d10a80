/** How dispatch_rw cuts a transfer that exceeds the controller's MDTS into commands, and why the
  * commands together do what one command for the whole transfer would. */
module Chunking {
  import opened Base
  import opened Memory
  import opened Modular
  import opened Prp
  import opened Commands
  import opened Pipeline
  import opened EndToEnd

  /** GetDMAList for a part of a buffer, by address and length. */
  type SgOf = (nat, nat) -> seq<Extent>

  /** The parts of a buffer are the parts of what it denotes. */
  ghost predicate Consistent(ps: nat, r: Request, sgOf: SgOf)
    requires ps > 0
  {
    && Total(r.sg) == r.length == |r.payload|
    && forall off: nat, n: nat :: n > 0 && off + n <= r.length ==> Part(ps, r, sgOf, off, n)
  }

  predicate Part(ps: nat, r: Request, sgOf: SgOf, off: nat, n: nat)
    requires ps > 0 && off + n <= r.length == Total(r.sg)
  {
    var sg := sgOf(r.data + off, n);
    WellFormed(sg, ps) && Total(sg) == n && Denotes(sg) == Denotes(r.sg)[off..off + n]
  }

  /** Length of the chunk at `done`. */
  function ChunkLen(total: nat, done: nat, cap: nat): (n: nat)
    requires done <= total
  {
    if total - done > cap then cap else total - done
  }

  /** The 64-bit byte offset of the chunk at `done`: the high word is carried into for every command. */
  function ChunkOffset(r: Request, done: nat): u64 {
    (TWO32 * r.actual + r.offset + done) % TWO64
  }

  /** The request as dispatch_rw rewrites it for the chunk at `done`. */
  function Chunk(r: Request, done: nat, cap: nat, sgOf: SgOf): (c: Request)
    requires done < r.length == |r.payload|
    ensures c.id == r.id && c.command == r.command && c.length == ChunkLen(r.length, done, cap)
  {
    var n := ChunkLen(r.length, done, cap);
    Request(r.id, r.command, ChunkOffset(r, done) % TWO32, ChunkOffset(r, done) / TWO32, n, r.data + done,
            sgOf(r.data + done, n), r.payload[done..done + n])
  }

  /** All chunks from `done` on. */
  function ChunkList(r: Request, done: nat, cap: nat, sgOf: SgOf): seq<Request>
    requires cap > 0 && r.length == |r.payload|
    decreases r.length - done
  {
    if done >= r.length then []
    else [Chunk(r, done, cap, sgOf)] + ChunkList(r, done + ChunkLen(r.length, done, cap), cap, sgOf)
  }

  function AllAddrs(cs: seq<Request>): seq<nat> {
    if cs == [] then [] else Denotes(cs[0].sg) + AllAddrs(cs[1..])
  }

  function AllBytes(cs: seq<Request>): seq<nat> {
    if cs == [] then [] else Range(cs[0]) + AllBytes(cs[1..])
  }

  function AllPayload(cs: seq<Request>): seq<byte> {
    if cs == [] then [] else cs[0].payload + AllPayload(cs[1..])
  }

  // ----- Coverage ------------------------------------------------------------------------

  /** The chunks cover the caller's buffer exactly once, in order, and so does their payload. */
  lemma {:induction false} ChunksCoverBuffer(ps: nat, r: Request, done: nat, cap: nat, sgOf: SgOf)
    requires ps > 0 && cap > 0 && done <= r.length && Consistent(ps, r, sgOf)
    ensures AllAddrs(ChunkList(r, done, cap, sgOf)) == Denotes(r.sg)[done..]
    ensures AllPayload(ChunkList(r, done, cap, sgOf)) == r.payload[done..]
    decreases r.length - done
  {
    if done < r.length {
      var n := ChunkLen(r.length, done, cap);
      FirstPart(ps, r, done, cap, sgOf);
      ChunksCoverBuffer(ps, r, done + n, cap, sgOf);
      hide *;
      SliceSplit(Denotes(r.sg), done, n);
      SliceSplit(r.payload, done, n);
    } else {
      hide Denotes, WellFormed, Total, Part, Chunk;
      assert Denotes(r.sg)[done..] == [] && r.payload[done..] == [];
    }
  }

  lemma FirstPart(ps: nat, r: Request, done: nat, cap: nat, sgOf: SgOf)
    requires ps > 0 && cap > 0 && done < r.length && Consistent(ps, r, sgOf)
    ensures |Denotes(r.sg)| == r.length == |r.payload|
    ensures var n := ChunkLen(r.length, done, cap);
      var cs, rest := ChunkList(r, done, cap, sgOf), ChunkList(r, done + n, cap, sgOf);
      && AllAddrs(cs) == Denotes(r.sg)[done..done + n] + AllAddrs(rest)
      && AllPayload(cs) == r.payload[done..done + n] + AllPayload(rest)
      && done + n <= r.length && 0 < n
  {
    hide WellFormed, Total, ChunkOffset;
    var n := ChunkLen(r.length, done, cap);
    assert Part(ps, r, sgOf, done, n);
    var c, rest := Chunk(r, done, cap, sgOf), ChunkList(r, done + n, cap, sgOf);
    assert ([c] + rest)[1..] == rest;
  }

  lemma SliceSplit<T>(s: seq<T>, done: nat, n: nat)
    requires done + n <= |s|
    ensures s[done..] == s[done..done + n] + s[done + n..]
  {
  }

  /** Where the last chunk starts. */
  function LastStart(total: nat, done: nat, cap: nat): (s: nat)
    requires cap > 0 && done < total
    ensures done <= s < total <= s + cap
    decreases total - done
  {
    if total - done <= cap then done else LastStart(total, done + cap, cap)
  }

  /** The byte offsets a command can carry: the six with a high word 64 bits, the others 32. */
  function OffsetLimit(c: Command): nat {
    if HasHighWord(c) then TWO64 else TWO32
  }

  /** A chunk goes where it should exactly if its offset fits the command. */
  lemma ChunkLands(r: Request, done: nat, cap: nat, sgOf: SgOf)
    requires done < r.length == |r.payload|
    ensures Offset(Chunk(r, done, cap, sgOf)) == (Offset(r) + done) % OffsetLimit(r.command)
  {
    var x := ChunkOffset(r, done);
    Halves(x);
    if !HasHighWord(r.command) {
      WrapTwice(TWO32 * r.actual + r.offset + done);
      LowHalf(r.actual, r.offset + done);
    }
  }

  lemma Halves(x: u64)
    ensures TWO32 * (x / TWO32) + x % TWO32 == x
  {
  }

  lemma LowHalf(high: nat, low: nat)
    ensures (TWO32 * high + low) % TWO32 == low % TWO32
  {
  }

  lemma ChunkLandsIff(r: Request, done: nat, cap: nat, sgOf: SgOf)
    requires done < r.length == |r.payload|
    ensures Offset(Chunk(r, done, cap, sgOf)) == Offset(r) + done <==> Offset(r) + done < OffsetLimit(r.command)
  {
    ChunkLands(r, done, cap, sgOf);
    hide Chunk, Offset;
  }

  lemma WrapTwice(x: nat)
    ensures (x % TWO64) % TWO32 == x % TWO32
  {
    var q := x / TWO64;
    assert x == TWO32 * (TWO32 * q) + x % TWO64;
  }

  /** Consecutive addresses from `base`. */
  predicate From(s: seq<nat>, base: nat) {
    forall i :: 0 <= i < |s| ==> s[i] == base + i
  }

  lemma FromIsSpan(s: seq<nat>, base: nat)
    ensures From(s, base) <==> s == Span(base, |s|)
  {
  }

  lemma FromSplit(head: seq<nat>, x: nat, tail: seq<nat>, base: nat)
    requires head != [] && From(head, x)
    ensures From(head + tail, base) <==> x == base && From(tail, base + |head|)
  {
    var all := head + tail;
    assert all[0] == x;
    if From(all, base) {
      assert forall i :: 0 <= i < |tail| ==> tail[i] == all[|head| + i];
    }
  }

  lemma {:induction false} ChunksCoverDiskFrom(r: Request, done: nat, cap: nat, sgOf: SgOf)
    requires cap > 0 && done < r.length == |r.payload|
    ensures |AllBytes(ChunkList(r, done, cap, sgOf))| == r.length - done
    ensures From(AllBytes(ChunkList(r, done, cap, sgOf)), Offset(r) + done)
      <==> Offset(r) + LastStart(r.length, done, cap) < OffsetLimit(r.command)
    decreases r.length - done
  {
    hide From, Offset, OffsetLimit, ChunkList, Chunk;
    var n := ChunkLen(r.length, done, cap);
    var head, tail := FirstChunk(r, done, cap, sgOf);
    ChunkLandsIff(r, done, cap, sgOf);
    if n < r.length - done {
      ChunksCoverDiskFrom(r, done + n, cap, sgOf);
    }
    FromSplit(head, Offset(Chunk(r, done, cap, sgOf)), tail, Offset(r) + done);
  }

  lemma FirstChunk(r: Request, done: nat, cap: nat, sgOf: SgOf) returns (head: seq<nat>, tail: seq<nat>)
    requires cap > 0 && done < r.length == |r.payload|
    ensures var n := ChunkLen(r.length, done, cap);
      && AllBytes(ChunkList(r, done, cap, sgOf)) == head + tail
      && |head| == n > 0 && From(head, Offset(Chunk(r, done, cap, sgOf)))
      && tail == AllBytes(ChunkList(r, done + n, cap, sgOf))
      && (done + n == r.length ==> tail == [] && From(tail, Offset(r) + r.length))
  {
    hide ChunkOffset;
    var n := ChunkLen(r.length, done, cap);
    var c, rest := Chunk(r, done, cap, sgOf), ChunkList(r, done + n, cap, sgOf);
    assert ([c] + rest)[1..] == rest;
    head, tail := Range(c), AllBytes(rest);
  }

  /** The chunks name exactly the disk range of the whole request, each byte once and in order, if
    * and only if the last chunk's offset still fits the command: below 2^64 for the six commands
    * with a high word, below 2^32 for all others, whatever io_Actual held. */
  lemma ChunksCoverDisk(r: Request, cap: nat, sgOf: SgOf)
    requires cap > 0 && 0 < r.length == |r.payload|
    ensures AllBytes(ChunkList(r, 0, cap, sgOf)) == Range(r)
      <==> Offset(r) + LastStart(r.length, 0, cap) < OffsetLimit(r.command)
  {
    ChunksCoverDiskFrom(r, 0, cap, sgOf);
    assert Range(r) == Span(Offset(r), r.length);
    hide *;
    FromIsSpan(AllBytes(ChunkList(r, 0, cap, sgOf)), Offset(r));
  }

  /** With a cap that is a multiple of the block size, and an aligned request, no chunk is turned away:
    * each passes the checks of SubmitNoRing. */
  lemma ChunkAccepted(r: Request, done: nat, cap: nat, sgOf: SgOf, bs: nat)
    requires bs > 0 && done < r.length == |r.payload| && 0 < cap <= 0x1_0000 * bs
    requires Aligned(Offset(r), bs) && Aligned(r.length, bs) && Aligned(cap, bs) && Aligned(done, bs) && Aligned(TWO32, bs)
    ensures var c := Chunk(r, done, cap, sgOf);
      Validate(Offset(c), c.length, true, bs).Transfer? && Aligned(done + c.length, bs)
  {
    var c, limit := Chunk(r, done, cap, sgOf), OffsetLimit(r.command);
    ChunkLands(r, done, cap, sgOf);
    LimitAligned(r.command, bs);
    hide Chunk, ChunkOffset, Offset, OffsetLimit, Rem;
    Builtin(Offset(r) + done, limit);
    AlignedSum(Offset(r), done, bs);
    AlignedRemainder(Offset(r) + done, limit, bs);
    AlignedDifference(r.length - done, done, bs);
    AlignedSum(done, c.length, bs);
    Builtin(Offset(c), bs);
    Builtin(c.length, bs);
    ValidateExact(Offset(c), c.length, true, bs);
  }

  lemma LimitAligned(c: Command, bs: nat)
    requires bs > 0 && Aligned(TWO32, bs)
    ensures OffsetLimit(c) > 0 && Aligned(OffsetLimit(c), bs)
  {
    Builtin(TWO64, TWO32);
    Divides(TWO64, TWO32, bs);
  }

  // ----- Effects -------------------------------------------------------------------------

  /** Results of the chunks of one transfer, in order. */
  ghost predicate AllDone(outs: seq<Outcome>, cs: seq<Request>, isWrite: bool) {
    |outs| == |cs| && forall i :: 0 <= i < |outs| ==>
      outs[i].req == cs[i] && outs[i].isWrite == isWrite && outs[i].ok && !outs[i].path.NoData? && Faithful(outs[i])
  }

  /** Nothing else writes to the disk between the chunks. */
  ghost predicate Chained(outs: seq<Outcome>) {
    forall i :: 0 < i < |outs| ==> outs[i].before == outs[i - 1].after
  }

  lemma {:induction false} WritesAddUp(outs: seq<Outcome>, cs: seq<Request>)
    requires AllDone(outs, cs, true) && Chained(outs) && outs != []
    ensures |AllBytes(cs)| == |AllPayload(cs)|
    ensures outs[|outs| - 1].after == Scatter(outs[0].before, AllBytes(cs), AllPayload(cs))
    decreases |outs|
  {
    assert outs[0].req == cs[0] && Faithful(outs[0]) && |Range(cs[0])| == |cs[0].payload|;
    hide Range, Scatter;
    assert outs[0].after == Scatter(outs[0].before, Range(cs[0]), cs[0].payload);
    if |outs| > 1 {
      WritesAddUp(outs[1..], cs[1..]);
      ScatterConcat(outs[0].before, Range(cs[0]), cs[0].payload, AllBytes(cs[1..]), AllPayload(cs[1..]));
    } else {
      assert cs[1..] == [];
      assert Range(cs[0]) + [] == Range(cs[0]) && cs[0].payload + [] == cs[0].payload;
    }
  }

  /** Between the chunks nobody else changes the disk at `x`. */
  ghost predicate Calm(outs: seq<Outcome>, x: seq<nat>) {
    forall i, a :: 0 < i < |outs| && a in x ==> Peek(outs[i].before, a) == Peek(outs[i - 1].after, a)
  }

  /** What no chunk writes stays as it was before the first one. */
  lemma {:induction false} CalmStays(outs: seq<Outcome>, cs: seq<Request>, a: nat)
    requires AllDone(outs, cs, true) && Calm(outs, [a]) && outs != [] && a !in AllBytes(cs)
    ensures Peek(outs[|outs| - 1].after, a) == Peek(outs[0].before, a)
    decreases |outs|
  {
    FirstWrites(outs, cs);
    hide Range, Scatter, Faithful;
    ScatterElsewhere(outs[0].before, Range(cs[0]), cs[0].payload, a);
    if |outs| > 1 {
      assert a in [a];
      assert Peek(outs[1].before, a) == Peek(outs[0].after, a);
      CalmStays(outs[1..], cs[1..], a);
    }
  }

  lemma FirstWrites(outs: seq<Outcome>, cs: seq<Request>)
    requires AllDone(outs, cs, true) && outs != []
    ensures |Range(cs[0])| == |cs[0].payload| && outs[0].after == Scatter(outs[0].before, Range(cs[0]), cs[0].payload)
    ensures AllBytes(cs) == Range(cs[0]) + AllBytes(cs[1..]) && AllPayload(cs) == cs[0].payload + AllPayload(cs[1..])
    ensures AllDone(outs[1..], cs[1..], true)
  {
    WriteDone(outs[0]);
    RestDone(outs, cs);
    hide Range, Scatter, Faithful;
  }

  lemma WriteDone(o: Outcome)
    requires o.isWrite && o.ok && !o.path.NoData? && Faithful(o)
    ensures |Range(o.req)| == |o.req.payload| && o.after == Scatter(o.before, Range(o.req), o.req.payload)
  {
    hide Scatter;
  }

  lemma RestDone(outs: seq<Outcome>, cs: seq<Request>)
    requires AllDone(outs, cs, true) && outs != []
    ensures AllDone(outs[1..], cs[1..], true)
  {
    hide Faithful;
  }

  /** Each byte the chunks write, each once, is on the disk after the last of them. */
  lemma {:induction false} WritesStay(outs: seq<Outcome>, cs: seq<Request>, i: nat)
    requires AllDone(outs, cs, true) && outs != [] && Distinct(AllBytes(cs)) && i < |AllBytes(cs)| && Calm(outs, AllBytes(cs))
    ensures |AllBytes(cs)| == |AllPayload(cs)| && Peek(outs[|outs| - 1].after, AllBytes(cs)[i]) == AllPayload(cs)[i]
    decreases |outs|
  {
    hide *;
    AllDoneSize(outs, cs);
    FirstWrites(outs, cs);
    SameLength(outs[1..], cs[1..]);
    var head, tail := Range(cs[0]), AllBytes(cs[1..]);
    DistinctParts(head, tail);
    CalmParts(outs, head, tail);
    if i < |head| {
      FirstStays(outs, cs, i);
    } else {
      if |outs| == 1 { NoBytes(cs[1..]); }
      WritesStay(outs[1..], cs[1..], i - |head|);
    }
  }

  lemma AllDoneSize(outs: seq<Outcome>, cs: seq<Request>)
    requires AllDone(outs, cs, true)
    ensures |outs| == |cs|
  {
    hide Faithful;
  }

  lemma FirstStays(outs: seq<Outcome>, cs: seq<Request>, i: nat)
    requires AllDone(outs, cs, true) && outs != [] && cs != [] && i < |Range(cs[0])| == |cs[0].payload|
    requires Distinct(Range(cs[0])) && Apart(Range(cs[0]), AllBytes(cs[1..])) && Calm(outs, Range(cs[0]))
    ensures Peek(outs[|outs| - 1].after, Range(cs[0])[i]) == cs[0].payload[i]
  {
    FirstWrites(outs, cs);
    hide Range, Scatter, Faithful, AllBytes, AllPayload;
    var a := Range(cs[0])[i];
    ScatterHit(outs[0].before, Range(cs[0]), cs[0].payload, i);
    if |outs| > 1 {
      assert a in Range(cs[0]);
      assert Calm(outs[1..], [a]);
      assert Peek(outs[1].before, a) == Peek(outs[0].after, a);
      CalmStays(outs[1..], cs[1..], a);
    }
  }

  lemma DistinctParts(head: seq<nat>, tail: seq<nat>)
    requires Distinct(head + tail)
    ensures Distinct(head) && Distinct(tail) && Apart(head, tail)
  {
    var all := head + tail;
    assert forall j :: 0 <= j < |head| ==> all[j] == head[j];
    assert forall j :: 0 <= j < |tail| ==> all[|head| + j] == tail[j];
  }

  lemma CalmParts(outs: seq<Outcome>, head: seq<nat>, tail: seq<nat>)
    requires Calm(outs, head + tail) && outs != []
    ensures Calm(outs, head) && Calm(outs[1..], tail)
  {
    forall i, a | 0 < i < |outs| && (a in head || a in tail)
      ensures Peek(outs[i].before, a) == Peek(outs[i - 1].after, a)
    {
      assert a in head + tail;
    }
  }

  lemma NoBytes(cs: seq<Request>)
    requires cs == []
    ensures AllBytes(cs) == []
  {
  }

  lemma {:induction false} SameLength(outs: seq<Outcome>, cs: seq<Request>)
    requires AllDone(outs, cs, true)
    ensures |AllBytes(cs)| == |AllPayload(cs)|
    decreases |outs|
  {
    if outs != [] {
      FirstWrites(outs, cs);
      SameLength(outs[1..], cs[1..]);
    }
  }

  /** Until the last chunk is done nobody disturbs what the earlier ones read, or the range. */
  ghost predicate Undisturbed(outs: seq<Outcome>, cs: seq<Request>, mem: Mem, disk: Mem)
    requires |outs| == |cs|
  {
    forall i :: 0 <= i < |outs| ==>
      && Gather(mem, Denotes(cs[i].sg)) == Gather(outs[i].mem, Denotes(cs[i].sg))
      && Gather(outs[i].before, Range(cs[i])) == Gather(disk, Range(cs[i]))
  }

  lemma {:induction false} ReadsAddUp(outs: seq<Outcome>, cs: seq<Request>, mem: Mem, disk: Mem)
    requires AllDone(outs, cs, false) && Undisturbed(outs, cs, mem, disk)
    ensures Gather(mem, AllAddrs(cs)) == Gather(disk, AllBytes(cs))
    decreases |outs|
  {
    hide Range, Denotes;
    if outs != [] {
      assert outs[0].req == cs[0] && Faithful(outs[0]);
      ReadsAddUp(outs[1..], cs[1..], mem, disk);
      GatherConcat(mem, Denotes(cs[0].sg), AllAddrs(cs[1..]));
      GatherConcat(disk, Range(cs[0]), AllBytes(cs[1..]));
    }
  }

  lemma GatherConcat(m: Mem, a: seq<nat>, b: seq<nat>)
    ensures Gather(m, a + b) == Gather(m, a) + Gather(m, b)
  {
  }

  /** A chunked write leaves the caller's bytes in the named range, as one ideal command would, if only
    * nobody else writes in that range meanwhile; and if nobody writes anywhere, the whole disk is what
    * one command would have left. */
  lemma ChunkedWriteIsOneWrite(ps: nat, r: Request, cap: nat, sgOf: SgOf, outs: seq<Outcome>)
    requires ps > 0 && cap > 0 && r.length > 0 && Consistent(ps, r, sgOf)
    requires Offset(r) + LastStart(r.length, 0, cap) < OffsetLimit(r.command)
    requires AllDone(outs, ChunkList(r, 0, cap, sgOf), true)
    ensures outs != []
    ensures Calm(outs, Range(r)) ==> Gather(outs[|outs| - 1].after, Range(r)) == r.payload
    ensures Chained(outs) ==> outs[|outs| - 1].after == Scatter(outs[0].before, Range(r), r.payload)
  {
    var cs := ChunkList(r, 0, cap, sgOf);
    assert cs != [];
    ChunksCoverBuffer(ps, r, 0, cap, sgOf);
    ChunksCoverDisk(r, cap, sgOf);
    assert r.payload[0..] == r.payload;
    if Chained(outs) { WritesAddUp(outs, cs); }
    if Calm(outs, Range(r)) {
      SameLength(outs, cs);
      hide ChunkList, AllBytes, AllPayload, AllDone, Consistent, Scatter;
      forall i | 0 <= i < |Range(r)|
        ensures Peek(outs[|outs| - 1].after, Range(r)[i]) == r.payload[i]
      {
        WritesStay(outs, cs, i);
      }
    }
  }

  /** A chunked read leaves in the caller's buffer what one ideal command would. */
  lemma ChunkedReadIsOneRead(ps: nat, r: Request, cap: nat, sgOf: SgOf, outs: seq<Outcome>, mem: Mem, disk: Mem)
    requires ps > 0 && cap > 0 && r.length > 0 && Consistent(ps, r, sgOf)
    requires Offset(r) + LastStart(r.length, 0, cap) < OffsetLimit(r.command)
    requires AllDone(outs, ChunkList(r, 0, cap, sgOf), false) && Undisturbed(outs, ChunkList(r, 0, cap, sgOf), mem, disk)
    ensures Gather(mem, Denotes(r.sg)) == Gather(disk, Range(r))
  {
    ReadsAddUp(outs, ChunkList(r, 0, cap, sgOf), mem, disk);
    ChunksCoverBuffer(ps, r, 0, cap, sgOf);
    ChunksCoverDisk(r, cap, sgOf);
    assert Denotes(r.sg)[0..] == Denotes(r.sg);
  }
}
