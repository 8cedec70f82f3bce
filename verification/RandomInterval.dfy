/** The linear congruential generator that draws the crossover interval (`RandVal`). */
module RandomInterval {
  import opened Words

  const MULTIPLIER := 214017
  const INCREMENT := 2531017

  /** One update of `RandVal`, on uint32_t. */
  function Next(x: nat): nat {
    (x * MULTIPLIER + INCREMENT) % U32
  }

  /** `RandVal` after `n` updates. */
  function Iterate(n: nat, x: nat): nat {
    if n == 0 then x else Next(Iterate(n - 1, x))
  }

  // ---- The same orbit over the integers, without reduction ----

  function Orbit(n: nat, x: int): int {
    if n == 0 then x else Orbit(n - 1, x) * MULTIPLIER + INCREMENT
  }

  lemma {:induction false} IterateIsOrbit(n: nat, x: nat)
    requires x < U32
    ensures Iterate(n, x) == Orbit(n, x) % U32
  {
    if n == 0 {
    } else {
      IterateIsOrbit(n - 1, x);
      var o := Orbit(n - 1, x);
      assert o == U32 * (o / U32) + o % U32;
      assert Orbit(n, x) == (o % U32) * MULTIPLIER + INCREMENT + U32 * (o / U32 * MULTIPLIER);
      AddMultiple((o % U32) * MULTIPLIER + INCREMENT, o / U32 * MULTIPLIER);
    }
  }

  lemma {:induction false} OrbitSum(m: nat, n: nat, x: int)
    ensures Orbit(m + n, x) == Orbit(m, Orbit(n, x))
  {
    if m == 0 {
    } else {
      OrbitSum(m - 1, n, x);
      assert Orbit(m + n, x) == Orbit(m - 1 + n, x) * MULTIPLIER + INCREMENT;
    }
  }

  lemma {:induction false} IterateSum(m: nat, n: nat, x: nat)
    ensures Iterate(m + n, x) == Iterate(m, Iterate(n, x))
  {
    if m == 0 {
    } else {
      IterateSum(m - 1, n, x);
      assert Iterate(m + n, x) == Next(Iterate(m - 1 + n, x));
    }
  }

  // ---- 2^k updates move by an odd multiple of 2^k ----

  /** 2^k updates are the map `x -> (1 + 4 * 2^k * Slope(k)) * x + 2^k * (2 * Offset(k) + 1)`. */
  function Slope(k: nat): nat {
    if k == 0 then MULTIPLIER / 4
    else Slope(k - 1) + 2 * Pow2(k - 1) * Slope(k - 1) * Slope(k - 1)
  }

  function Offset(k: nat): nat {
    if k == 0 then INCREMENT / 2
    else
      var w := Pow2(k - 1) * Slope(k - 1);
      Offset(k - 1) + w * (2 * Offset(k - 1) + 1)
  }

  /** The jump `Orbit(2^k, x) - x` divided by 2^k is this number, doubled, plus one. */
  function HalfJump(k: nat, x: int): int {
    2 * Slope(k) * x + Offset(k)
  }

  lemma {:induction false} JumpByPowerOfTwo(k: nat, x: int)
    ensures Orbit(Pow2(k), x) == x + Pow2(k) * (2 * HalfJump(k, x) + 1)
  {
    if k == 0 {
      FirstJump(x);
    } else {
      var p := Pow2(k - 1);
      var y := Orbit(p, x);
      assert Pow2(k) == p + p;
      OrbitSum(p, p, x);
      JumpByPowerOfTwo(k - 1, x);
      JumpByPowerOfTwo(k - 1, y);
      JumpNext(k, x);
    }
  }

  lemma FirstJump(x: int)
    ensures Orbit(Pow2(0), x) == x + Pow2(0) * (2 * HalfJump(0, x) + 1)
  {
    assert Orbit(1, x) == Orbit(0, x) * MULTIPLIER + INCREMENT;
    assert 4 * Slope(0) + 1 == MULTIPLIER && 2 * Offset(0) + 1 == INCREMENT;
    assert HalfJump(0, x) == 2 * Slope(0) * x + Offset(0);
  }

  /** Two jumps of 2^(k-1) make one of 2^k. */
  lemma JumpNext(k: nat, x: int)
    requires k > 0
    ensures
      var p := Pow2(k - 1);
      var y := x + p * (2 * HalfJump(k - 1, x) + 1);
      y + p * (2 * HalfJump(k - 1, y) + 1) == x + Pow2(k) * (2 * HalfJump(k, x) + 1)
  {
    var p := Pow2(k - 1);
    var y := x + p * (2 * HalfJump(k - 1, x) + 1);
    JumpsCompose(p, Slope(k - 1), Offset(k - 1), x, y, y + p * (2 * HalfJump(k - 1, y) + 1));
  }

  lemma JumpsCompose(p: int, u: int, v: int, x: int, y: int, z: int)
    requires y == x + p * (2 * (2 * u * x + v) + 1)
    requires z == y + p * (2 * (2 * u * y + v) + 1)
    ensures z == x + 2 * p * (2 * (2 * (u + 2 * p * u * u) * x + (v + p * u * (2 * v + 1))) + 1)
  {
    var j := 2 * (2 * u * x + v) + 1;
    var w := u * p * j;
    assert u * (x + p * j) == u * x + w by { Expand(u, x, p, j); }
    SecondJump(p, u * x, w, v, j, x, z);
    JumpFactor(p, u, v, x, j);
  }

  lemma Expand(u: int, x: int, p: int, j: int)
    ensures u * (x + p * j) == u * x + u * p * j
  {
  }

  /** Two jumps in a row: the second is longer than the first by 4 * p * w. */
  lemma SecondJump(p: int, ux: int, w: int, v: int, j: int, x: int, z: int)
    requires j == 2 * (2 * ux + v) + 1
    requires z == x + p * j + p * (2 * (2 * (ux + w) + v) + 1)
    ensures z == x + 2 * p * (j + 2 * w)
  {
    assert 2 * (2 * (ux + w) + v) + 1 == j + 4 * w;
    calc {
      z - x;
      p * j + p * (j + 4 * w);
      2 * p * (j + 2 * w);
    }
  }

  lemma JumpFactor(p: int, u: int, v: int, x: int, j: int)
    requires j == 2 * (2 * u * x + v) + 1
    ensures j + 2 * (u * p * j) == 2 * (2 * (u + 2 * p * u * u) * x + (v + p * u * (2 * v + 1))) + 1
  {
    var ux, pu := u * x, p * u;
    assert u * p * j == pu * (4 * ux + (2 * v + 1));
    assert pu * (4 * ux + (2 * v + 1)) == 4 * (pu * ux) + pu * (2 * v + 1);
    assert (u + 2 * p * u * u) * x == ux + 2 * (pu * ux);
  }

  function Times(p: nat, m: nat): nat {
    if m == 0 then 0 else p + Times(p, m - 1)
  }

  lemma {:induction false} TimesIsProduct(p: nat, m: nat)
    ensures Times(p, m) == p * m
  {
    if m == 0 {
    } else {
      TimesIsProduct(p, m - 1);
      Distribute(p, 1, m - 1);
    }
  }

  lemma JumpIsOdd(k: nat, x: int) returns (h: int)
    ensures Orbit(Pow2(k), x) == x + Pow2(k) * (2 * h + 1)
  {
    JumpByPowerOfTwo(k, x);
    h := HalfJump(k, x);
  }

  /** m jumps of 2^k amount to 2^k times a number of the parity of m. */
  lemma {:induction false} JumpByMultiple(k: nat, m: nat, x: int) returns (q: int)
    ensures Orbit(Times(Pow2(k), m), x) == x + Pow2(k) * q
    ensures q % 2 == m % 2
  {
    if m == 0 {
      q := 0;
    } else {
      var q' := JumpByMultiple(k, m - 1, x);
      var y := Orbit(Times(Pow2(k), m - 1), x);
      var h := JumpIsOdd(k, y);
      q := q' + (2 * h + 1);
      OrbitSum(Pow2(k), Times(Pow2(k), m - 1), x);
      Distribute(Pow2(k), q', 2 * h + 1);
      assert q % 2 == m % 2 by { OddStep(q', h, m); }
    }
  }

  lemma OddStep(q: int, h: int, m: nat)
    requires m > 0 && q % 2 == (m - 1) % 2
    ensures (q + (2 * h + 1)) % 2 == m % 2
  {
  }

  lemma Distribute(p: int, a: int, b: int)
    ensures p * (a + b) == p * a + p * b
  {
  }

  lemma {:induction false} OddPart(n: nat) returns (k: nat, m: nat)
    requires n > 0
    ensures n == Pow2(k) * m && m % 2 == 1
  {
    if n % 2 == 1 {
      k, m := 0, n;
    } else {
      k, m := OddPart(n / 2);
      assert Pow2(k + 1) * m == 2 * (Pow2(k) * m);
      k := k + 1;
    }
  }

  lemma {:induction false} Pow2Split(k: nat, j: nat)
    ensures Pow2(k + j) == Pow2(k) * Pow2(j)
  {
    if j == 0 {
    } else {
      Pow2Split(k, j - 1);
      assert Pow2(k + j) == 2 * Pow2(k + (j - 1));
    }
  }

  lemma Pow32()
    ensures Pow2(32) == U32
  {
    assert Pow2(8) == 256;
    Pow2Split(8, 8);
    Pow2Split(16, 16);
  }

  /** Fewer than 2^32 updates never return to the seed. */
  lemma NoEarlyReturn(n: nat, x: nat)
    requires 0 < n < U32 && x < U32
    ensures Iterate(n, x) != x
  {
    var k, m := OddPart(n);
    var q := JumpByMultiple(k, m, x);
    TimesIsProduct(Pow2(k), m);
    Pow32();
    if k >= 32 {
      Pow2Split(32, k - 32);
      LargeProduct(U32, Pow2(k - 32), m);
      assert false;
    }
    IterateIsOrbit(n, x);
    if Iterate(n, x) == x {
      var d := Orbit(n, x) / U32;
      Pow2Split(k, 32 - k);
      OddIsNoMultiple(Pow2(k), Pow2(31 - k), q, d);
    }
  }

  lemma OddIsNoMultiple(p: int, r: int, q: int, d: int)
    requires p >= 1 && p * q == p * (2 * r) * d
    ensures q % 2 == 0
  {
    assert p * (2 * r) * d == p * (2 * (r * d));
    CancelFactor(p, q, 2 * (r * d));
  }

  lemma LargeProduct(a: nat, b: nat, m: nat)
    requires b >= 1 && m >= 1
    ensures a * b * m >= a
  {
    assert a * b >= a;
    assert a * b * m >= a * b;
  }

  lemma CancelFactor(p: int, a: int, b: int)
    requires p >= 1 && p * a == p * b
    ensures a == b
  {
    assert p * (a - b) == 0;
  }

  /** 2^32 updates return to the seed. */
  lemma Period(period: nat, x: nat)
    requires period == U32 && x < U32
    ensures Iterate(period, x) == x
  {
    var k := 32;
    assert Pow2(k) == period by { Pow32(); }
    ReturnAfter(k, period, x);
  }

  lemma ReturnAfter(k: nat, period: nat, x: nat)
    requires Pow2(k) == period == U32 && x < U32
    ensures Iterate(period, x) == x
  {
    var h := JumpIsOdd(k, x);
    IterateIsOrbit(period, x);
    WholePeriods(period, Orbit(period, x), x, 2 * h + 1);
  }

  lemma WholePeriods(period: nat, o: int, x: nat, q: int)
    requires period == U32 && x < U32 && o == x + period * q
    ensures o % U32 == x
  {
    AddMultiple(x, q);
  }

  lemma IterateInRange(n: nat, x: nat)
    requires x < U32
    ensures Iterate(n, x) < U32
  {
  }

  /** The value `y` is among the first `n` drawn from seed `x`. */
  ghost predicate DrawnWithin(n: nat, x: nat, y: nat) {
    exists i: nat | i < n :: Iterate(i, x) == y
  }

  /** Main result: from any seed, no value repeats within 2^32 updates, every 32-bit value is drawn
      among them, and the generator is then back at its seed. */
  lemma FullCycle(period: nat, x: nat)
    requires period == U32 && x < U32
    ensures forall i: nat, j: nat | i < j < period :: Iterate(i, x) != Iterate(j, x)
    ensures forall y: nat | y < period :: DrawnWithin(period, x, y)
    ensures Iterate(period, x) == x
  {
    forall i: nat, j: nat | i < j < period ensures Iterate(i, x) != Iterate(j, x) {
      NoRepeat(i, j, x);
    }
    forall y: nat | y < period ensures DrawnWithin(period, x, y) {
      EveryValueDrawn(period, x, y);
    }
    Period(period, x);
  }

  lemma NoRepeat(i: nat, j: nat, x: nat)
    requires i < j < U32 && x < U32
    ensures Iterate(i, x) != Iterate(j, x)
  {
    IterateInRange(i, x);
    IterateSum(j - i, i, x);
    NoEarlyReturn(j - i, Iterate(i, x));
  }

  lemma EveryValueDrawn(n: nat, x: nat, y: nat)
    requires x < U32 == n && y < n
    requires forall i: nat, j: nat | i < j < n :: Iterate(i, x) != Iterate(j, x)
    ensures DrawnWithin(n, x, y)
  {
    var seen := Drawn(n, x);
    forall v | v in seen ensures v in Range(n) {
      var i: nat :| i < n && Iterate(i, x) == v;
      IterateInRange(i, x);
    }
    DrawnSize(n, x);
    SameSizeSubset(seen, Range(n));
    assert y in seen;
  }

  // ---- Counting ----

  ghost function Drawn(n: nat, x: nat): set<nat> {
    set i: nat | i < n :: Iterate(i, x)
  }

  ghost function Range(n: nat): (r: set<nat>)
    ensures |r| == n && forall i: nat :: i in r <==> i < n
  {
    if n == 0 then {} else Range(n - 1) + {n - 1}
  }

  lemma {:induction false} DrawnSize(n: nat, x: nat)
    requires forall i: nat, j: nat | i < j < n :: Iterate(i, x) != Iterate(j, x)
    ensures |Drawn(n, x)| == n
  {
    if n == 0 {
    } else {
      DrawnSize(n - 1, x);
      DrawnNext(n - 1, x);
      DrawnIsNew(n - 1, x);
    }
  }

  lemma DrawnIsNew(n: nat, x: nat)
    requires forall i: nat | i < n :: Iterate(i, x) != Iterate(n, x)
    ensures Iterate(n, x) !in Drawn(n, x)
  {
  }

  lemma DrawnNext(n: nat, x: nat)
    ensures Drawn(n + 1, x) == Drawn(n, x) + {Iterate(n, x)}
  {
  }

  lemma SameSizeSubset<T>(a: set<T>, b: set<T>)
    requires a <= b && |a| == |b|
    ensures a == b
  {
    if e :| e in b && e !in a {
      assert a <= b - {e};
      SubsetSize(a, b - {e});
    }
  }

  lemma {:induction false} SubsetSize<T>(a: set<T>, b: set<T>)
    requires a <= b
    ensures |a| <= |b|
  {
    if a == {} {
    } else {
      var e :| e in a;
      SubsetSize(a - {e}, b - {e});
    }
  }
}
