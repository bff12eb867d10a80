/** Constants of the driver and the small vocabulary every other module shares. */
module Base {

  datatype Option<+T> = None | Some(value: T)

  /** One machine byte, and the driver's ULONG and uint64. */
  type byte = x: int | 0 <= x < 0x100
  type u32 = x: int | 0 <= x < 0x1_0000_0000
  type u64 = x: int | 0 <= x < 0x1_0000_0000_0000_0000

  const MAX_INFLIGHT: nat := 16
  const IO_QUEUE_DEPTH: nat := 64
  const ADMIN_QUEUE_DEPTH: nat := 64
  const BOUNCE_SIZE: nat := 0x1_0000
  const DIRECT_MIN_PAGES: nat := 2
  const POLL_BUDGET: nat := 5_000_000
  const TWO32: nat := 0x1_0000_0000
  const TWO64: nat := 0x1_0000_0000_0000_0000

  function Pow2(k: nat): (p: nat)
    ensures p >= 1
  {
    if k == 0 then 1 else 2 * Pow2(k - 1)
  }

  /** `s` without its element `i`. */
  function RemoveAt<T>(s: seq<T>, i: nat): (r: seq<T>)
    requires i < |s|
    ensures |r| == |s| - 1
  {
    s[..i] + s[i + 1..]
  }
}

/** Division and multiplication by a variable, written as repeated subtraction and addition so
  * that ring and page arguments stay linear.  `Builtin` says they are `/` and `%`. */
module Modular {

  function Rem(a: nat, d: nat): (r: nat)
    requires d > 0
    ensures r < d
  {
    if a < d then a else Rem(a - d, d)
  }

  function Quot(a: nat, d: nat): nat
    requires d > 0
  {
    if a < d then 0 else 1 + Quot(a - d, d)
  }

  function Times(k: nat, d: nat): nat {
    if k == 0 then 0 else Times(k - 1, d) + d
  }

  predicate Aligned(a: nat, d: nat)
    requires d > 0
  {
    Rem(a, d) == 0
  }

  lemma {:induction false} Builtin(a: nat, d: nat)
    requires d > 0
    ensures Rem(a, d) == a % d && Quot(a, d) == a / d
  {
    if a >= d {
      Builtin(a - d, d);
      BuiltinLap(a - d, d);
    } else {
      BuiltinSmall(a, d);
    }
  }

  lemma BuiltinSmall(a: nat, d: nat)
    requires a < d
    ensures a % d == a && a / d == 0
  {
  }

  lemma BuiltinLap(a: nat, d: nat)
    requires d > 0
    ensures (a + d) % d == a % d && (a + d) / d == a / d + 1
  {
    var x := a + d;
    Multiple(d, x / d - a / d - 1);
    assert d * (x / d - a / d - 1) == a % d - x % d;
  }

  lemma Multiple(d: int, k: int)
    requires d > 0
    ensures k >= 1 ==> d * k >= d
    ensures k <= -1 ==> d * k <= -d
  {
  }

  lemma {:induction false} BuiltinTimes(k: nat, d: nat)
    ensures Times(k, d) == k * d
  {
    if k > 0 {
      BuiltinTimes(k - 1, d);
      assert k * d == (k - 1) * d + d;
    }
  }

  lemma {:induction false} Split(a: nat, d: nat)
    requires d > 0
    ensures a == Times(Quot(a, d), d) + Rem(a, d)
  {
    if a >= d { Split(a - d, d); }
  }

  /** Two aligned numbers less than one unit apart are equal. */
  lemma {:induction false} AlignedClose(a: nat, b: nat, d: nat)
    requires d > 0 && Aligned(a, d) && Aligned(b, d) && b <= a < b + d
    ensures a == b
  {
    if b >= d { AlignedClose(a - d, b - d, d); }
  }

  /** Stepping inside a unit only moves the remainder. */
  lemma {:induction false} Inside(a: nat, j: nat, d: nat)
    requires d > 0 && Rem(a, d) + j < d
    ensures Rem(a + j, d) == Rem(a, d) + j && Quot(a + j, d) == Quot(a, d)
  {
    if a >= d { Inside(a - d, j, d); }
  }

  lemma {:induction false} ToNextUnit(a: nat, d: nat)
    requires d > 0
    ensures Aligned(a + (d - Rem(a, d)), d)
    ensures Quot(a + (d - Rem(a, d)), d) == Quot(a, d) + 1
  {
    if a >= d { ToNextUnit(a - d, d); }
  }

  /** The next ring position, and when it wraps. */
  lemma {:induction false} NextPosition(i: nat, d: nat)
    requires d > 0
    ensures Rem(i + 1, d) == (if Rem(i, d) + 1 == d then 0 else Rem(i, d) + 1)
    ensures Quot(i + 1, d) == (if Rem(i, d) + 1 == d then Quot(i, d) + 1 else Quot(i, d))
  {
    if i >= d { NextPosition(i - d, d); }
  }

  /** Less than one lap apart, two counters sit on different ring positions. */
  lemma {:induction false} DistinctPositions(i: nat, j: nat, d: nat)
    requires i < j < i + d
    ensures Rem(i, d) != Rem(j, d)
  {
    if i >= d { DistinctPositions(i - d, j - d, d); }
  }

  lemma {:induction false} TimesMonotone(a: nat, b: nat, d: nat)
    requires a <= b
    ensures Times(a, d) <= Times(b, d)
  {
    if a < b { TimesMonotone(a, b - 1, d); }
  }

  /** Unit `k` of a rounded-up count exists exactly when its start does. */
  lemma {:induction false} RoundUp(k: nat, rest: nat, d: nat)
    requires d > 0
    ensures k < Quot(rest + d - 1, d) <==> Times(k, d) < rest
  {
    if k > 0 {
      if rest > d {
        RoundUp(k - 1, rest - d, d);
        TimesShift(k, d);
      } else {
        TimesMonotone(1, k, d);
      }
    }
  }

  lemma {:induction false} TimesShift(k: nat, d: nat)
    requires k > 0
    ensures Times(k, d) == d + Times(k - 1, d)
  {
  }

  lemma {:induction false} Divides(a: nat, d: nat, c: nat)
    requires d > 0 && c > 0 && Aligned(a, d) && Aligned(d, c)
    ensures Aligned(a, c)
  {
    if a >= d {
      Divides(a - d, d, c);
      AlignedSum(a - d, d, c);
    }
  }

  lemma {:induction false} AlignedDifference(a: nat, b: nat, c: nat)
    requires c > 0 && Aligned(a + b, c) && Aligned(b, c)
    ensures Aligned(a, c)
    decreases b
  {
    if b >= c { AlignedDifference(a, b - c, c); }
  }

  /** A remainder by a multiple of the unit keeps alignment. */
  lemma {:induction false} AlignedRemainder(a: nat, d: nat, c: nat)
    requires c > 0 && d > 0 && Aligned(a, c) && Aligned(d, c)
    ensures Aligned(Rem(a, d), c)
  {
    if a >= d {
      AlignedDifference(a - d, d, c);
      AlignedRemainder(a - d, d, c);
    }
  }

  lemma {:induction false} AlignedSum(a: nat, b: nat, c: nat)
    requires c > 0 && Aligned(a, c) && Aligned(b, c)
    ensures Aligned(a + b, c)
  {
    if a >= c { AlignedSum(a - c, b, c); }
  }
}
