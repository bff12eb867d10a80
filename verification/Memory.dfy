/** Physical memory as the controller and the CPU both see it. */
module Memory {
  import opened Base

  /** Bytes by physical address; an address never written reads as zero. */
  type Mem = map<nat, byte>

  function Peek(m: Mem, a: nat): byte {
    if a in m then m[a] else 0
  }

  /** The bytes found at `addrs`, in that order. */
  function Gather(m: Mem, addrs: seq<nat>): (r: seq<byte>)
    ensures |r| == |addrs|
    ensures forall i :: 0 <= i < |addrs| ==> r[i] == Peek(m, addrs[i])
  {
    seq(|addrs|, i requires 0 <= i < |addrs| => Peek(m, addrs[i]))
  }

  /** Store `data[i]` at `addrs[i]`, in order. */
  function Scatter(m: Mem, addrs: seq<nat>, data: seq<byte>): Mem
    requires |addrs| == |data|
  {
    if addrs == [] then m
    else
      var n := |addrs| - 1;
      Scatter(m, addrs[..n], data[..n])[addrs[n] := data[n]]
  }

  predicate Distinct(addrs: seq<nat>) {
    forall i, j :: 0 <= i < j < |addrs| ==> addrs[i] != addrs[j]
  }

  predicate Apart(a: seq<nat>, b: seq<nat>) {
    forall x :: x in a ==> x !in b
  }

  /** The `len` consecutive addresses from `base`. */
  function Span(base: nat, len: nat): (r: seq<nat>)
    ensures |r| == len && forall i :: 0 <= i < len ==> r[i] == base + i
  {
    seq(len, i requires 0 <= i < len => base + i)
  }

  /** A store changes nothing outside its addresses. */
  lemma {:induction false} ScatterElsewhere(m: Mem, addrs: seq<nat>, data: seq<byte>, x: nat)
    requires |addrs| == |data| && x !in addrs
    ensures Peek(Scatter(m, addrs, data), x) == Peek(m, x)
  {
    if addrs == [] {
    } else {
      var n := |addrs| - 1;
      assert addrs[n] in addrs;
      ScatterElsewhere(m, addrs[..n], data[..n], x);
    }
  }

  lemma {:induction false} ScatterHit(m: Mem, addrs: seq<nat>, data: seq<byte>, i: nat)
    requires |addrs| == |data| && Distinct(addrs) && i < |addrs|
    ensures Peek(Scatter(m, addrs, data), addrs[i]) == data[i]
  {
    var n := |addrs| - 1;
    if i < n {
      ScatterHit(m, addrs[..n], data[..n], i);
      assert addrs[..n][i] == addrs[i] && data[..n][i] == data[i];
    }
  }

  /** Reading back what was stored at distinct addresses. */
  lemma GatherScattered(m: Mem, addrs: seq<nat>, data: seq<byte>)
    requires |addrs| == |data| && Distinct(addrs)
    ensures Gather(Scatter(m, addrs, data), addrs) == data
  {
    forall i | 0 <= i < |addrs|
      ensures Peek(Scatter(m, addrs, data), addrs[i]) == data[i]
    {
      ScatterHit(m, addrs, data, i);
    }
  }

  /** Reading somewhere else. */
  lemma GatherElsewhere(m: Mem, addrs: seq<nat>, data: seq<byte>, other: seq<nat>)
    requires |addrs| == |data| && Apart(addrs, other)
    ensures Gather(Scatter(m, addrs, data), other) == Gather(m, other)
  {
    forall i | 0 <= i < |other|
      ensures Peek(Scatter(m, addrs, data), other[i]) == Peek(m, other[i])
    {
      assert other[i] in other;
      ScatterElsewhere(m, addrs, data, other[i]);
    }
  }

  /** Two stores in a row are one longer store. */
  lemma {:induction false} ScatterConcat(m: Mem, a: seq<nat>, d: seq<byte>, b: seq<nat>, e: seq<byte>)
    requires |a| == |d| && |b| == |e|
    ensures Scatter(Scatter(m, a, d), b, e) == Scatter(m, a + b, d + e)
    decreases |b|
  {
    if b == [] {
      assert a + b == a && d + e == d;
    } else {
      var n := |b| - 1;
      ScatterConcat(m, a, d, b[..n], e[..n]);
      assert (a + b)[..|a| + n] == a + b[..n] && (d + e)[..|a| + n] == d + e[..n];
      assert (a + b)[|a| + n] == b[n] && (d + e)[|a| + n] == e[n];
    }
  }
}
