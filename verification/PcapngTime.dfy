/** 64-bit pcapng ticks to seconds and microseconds, for every resolution byte. */
module PcapngTime {
  import opened Octets

  const MICROS: nat := 1_000_000

  function Pow(base: nat, e: nat): (p: nat)
    ensures base >= 1 ==> p >= 1
  {
    if e == 0 then 1 else base * Pow(base, e - 1)
  }

  /** The lookup table of the program. */
  const BASE10_POWERS: seq<nat> := [
    1, 10, 100, 1_000, 10_000, 100_000, 1_000_000, 10_000_000, 100_000_000, 1_000_000_000,
    10_000_000_000, 100_000_000_000, 1_000_000_000_000, 10_000_000_000_000, 100_000_000_000_000,
    1_000_000_000_000_000, 10_000_000_000_000_000, 100_000_000_000_000_000, 1_000_000_000_000_000_000,
    10_000_000_000_000_000_000]

  /** Bit 7 selects base 2; large exponents are cut down to what 64 bits can hold. */
  function TicksPerSec(resol: byte): (p: nat)
    ensures p >= 1
  {
    if resol < 0x80 then
      if resol < |BASE10_POWERS| then
        assert forall i :: 0 <= i < 20 ==> BASE10_POWERS[i] >= 1;
        BASE10_POWERS[resol]
      else U64_MAX
    else Pow(2, if resol - 0x80 <= 63 then resol - 0x80 else 63)
  }

  function Min(a: nat, b: nat): nat { if a < b then a else b }

  function Ticks(high: nat, low: nat): nat { high * 0x1_0000_0000 + low }

  function ToSecsUsecs(ticks: nat, resol: byte): (nat, nat) {
    if resol == 6 then (Min(ticks / MICROS, U32_MAX), ticks % MICROS)
    else (Min(Whole(ticks, TicksPerSec(resol)), U32_MAX), Fraction(ticks, TicksPerSec(resol)))
  }

  function Whole(ticks: nat, p: nat): nat
    requires p >= 1
  {
    ticks / p
  }

  /** Microseconds in what is left after whole seconds. */
  function Fraction(ticks: nat, p: nat): nat
    requires p >= 1
  {
    Whole(ticks % p * MICROS, p)
  }

  function Micros(ticks: nat, resol: byte): nat {
    var (secs, usecs) := ToSecsUsecs(ticks, resol);
    secs * MICROS + usecs
  }

  /** What the resolution byte means, without any limit of width. */
  function TrueRate(resol: byte): (p: nat)
    ensures p >= 1
  {
    if resol < 0x80 then Pow(10, resol) else Pow(2, resol - 0x80)
  }

  predicate Representable(resol: byte) {
    if resol < 0x80 then resol <= 19 else resol - 0x80 <= 63
  }

  // ---- arithmetic ------------------------------------------------------------------------------

  lemma Distribute(a: nat, b: nat, p: nat)
    ensures (a + b) * p == a * p + b * p
  {
  }

  lemma Product(a: nat, b: nat, m: nat)
    requires a < b
    ensures a * m + m <= b * m
  {
    Distribute(a, 1, m);
    Distribute(a + 1, b - a - 1, m);
  }

  lemma DivFloor(x: nat, p: nat)
    requires p >= 1
    ensures x / p * p <= x < x / p * p + p
  {
  }

  /** A multiple of p up to x is no further than the last one. */
  lemma FloorAtMost(x: nat, p: nat, k: nat, q: nat)
    requires k * p <= x < q * p + p
    ensures k <= q
  {
    if q < k {
      Product(q, k, p);
    }
  }

  lemma DivIs(x: nat, p: nat, q: nat)
    requires p >= 1 && q * p <= x < q * p + p
    ensures x / p == q
  {
    DivFloor(x, p);
    FloorAtMost(x, p, x / p, q);
    FloorAtMost(x, p, q, x / p);
  }

  lemma Regroup(t: nat, p: nat, m: nat, q: nat, r: nat)
    requires t == q * p + r
    ensures t * m == q * m * p + r * m
  {
    calc {
      t * m;
      (q * p + r) * m;
      q * p * m + r * m;
      q * m * p + r * m;
    }
  }

  /** Splitting off the whole seconds first loses nothing. */
  lemma SplitDivision(t: nat, p: nat, m: nat)
    requires p >= 1
    ensures t / p * m + t % p * m / p == t * m / p
  {
    var q, r := t / p, t % p;
    var u := r * m / p;
    Regroup(t, p, m, q, r);
    DivFloor(r * m, p);
    Distribute(q * m, u, p);
    DivIs(t * m, p, q * m + u);
  }

  lemma DivBelow(x: nat, p: nat, q: nat)
    requires p >= 1 && x < q * p
    ensures x / p < q
  {
  }

  lemma RemainderIsFraction(t: nat, p: nat)
    requires p >= 1
    ensures t % p * MICROS / p < MICROS
  {
    var r := t % p;
    Product(r, p, MICROS);
    DivBelow(r * MICROS, p, MICROS);
  }

  lemma DivMonotone(a: nat, b: nat, p: nat)
    requires a <= b && p >= 1
    ensures a / p <= b / p
  {
    DivFloor(a, p);
    DivFloor(b, p);
    FloorAtMost(b, p, a / p, b / p);
  }

  lemma DivTwice(x: nat, p: nat, r: nat, a: nat)
    requires 1 <= p <= x && r >= 2 * p && a * r <= x
    ensures a < x / p
  {
    assert a * r >= a * (2 * p);
    assert a * (2 * p) == 2 * a * p;
    DivMonotone(2 * a * p, x, p);
    DivIs(2 * a * p, p, 2 * a);
    DivMonotone(p, x, p);
    DivIs(p, p, 1);
  }

  /** A divisor at least twice as large gives a smaller quotient, unless both are 0. */
  lemma LargerDivisor(x: nat, p: nat, r: nat)
    requires p >= 1 && r >= 2 * p
    ensures x / r == x / p <==> x < p
  {
    var a := x / r;
    DivFloor(x, r);
    if x < p {
      DivIs(x, p, 0);
      DivIs(x, r, 0);
    } else {
      DivTwice(x, p, r, a);
    }
  }

  lemma {:induction false} PowMonotone(base: nat, e: nat, f: nat)
    requires base >= 1 && e <= f
    ensures Pow(base, e) <= Pow(base, f)
  {
    if e < f {
      PowMonotone(base, e, f - 1);
      assert base * Pow(base, f - 1) >= Pow(base, f - 1);
    }
  }

  lemma PowersOfTen()
    ensures forall e :: 0 <= e < 20 ==> BASE10_POWERS[e] == Pow(10, e)
    ensures Pow(10, 20) == 100_000_000_000_000_000_000
  {
    assert Pow(10, 5) == 100_000;
    assert Pow(10, 10) == 10_000_000_000;
    assert Pow(10, 15) == 1_000_000_000_000_000;
    assert Pow(10, 20) == 100_000_000_000_000_000_000;
  }

  lemma PowersOfTwo()
    ensures Pow(2, 63) == 0x8000_0000_0000_0000 && Pow(2, 64) == 2 * Pow(2, 63)
  {
    assert Pow(2, 8) == 0x100;
    assert Pow(2, 16) == 0x1_0000;
    assert Pow(2, 24) == 0x100_0000;
    assert Pow(2, 32) == 0x1_0000_0000;
    assert Pow(2, 40) == 0x100_0000_0000;
    assert Pow(2, 48) == 0x1_0000_0000_0000;
    assert Pow(2, 56) == 0x100_0000_0000_0000;
    assert Pow(2, 63) == 0x8000_0000_0000_0000;
  }

  /** The rate used is the announced one, or at most half of it. */
  lemma RateUsed(resol: byte)
    ensures Representable(resol) ==> TicksPerSec(resol) == TrueRate(resol)
    ensures !Representable(resol) ==> TrueRate(resol) >= 2 * TicksPerSec(resol) && TicksPerSec(resol) >= Pow(2, 63)
    ensures !Representable(resol) ==>
              TicksPerSec(resol) == if resol < 0x80 then 0xFFFF_FFFF_FFFF_FFFF else 0x8000_0000_0000_0000
  {
    PowersOfTen();
    PowersOfTwo();
    if !Representable(resol) {
      if resol < 0x80 {
        PowMonotone(10, 20, resol);
      } else {
        PowMonotone(2, 64, resol - 0x80);
      }
    }
  }

  // ---- what the conversion gives ---------------------------------------------------------------

  /** Two 32-bit halves make up the tick they were taken from, the upper half first. */
  lemma TicksOfHalves(t: nat)
    requires t <= U64_MAX
    ensures t / 0x1_0000_0000 <= U32_MAX && t % 0x1_0000_0000 <= U32_MAX
    ensures Ticks(t / 0x1_0000_0000, t % 0x1_0000_0000) == t
  {
  }

  /** The microsecond shortcut is the general formula. */
  lemma FastPathAgrees(ticks: nat)
    ensures ToSecsUsecs(ticks, 6) ==
            (Min(ticks / TicksPerSec(6), U32_MAX), ticks % TicksPerSec(6) * MICROS / TicksPerSec(6))
  {
    DivIs(ticks % MICROS * MICROS, MICROS, ticks % MICROS);
  }

  /** For all ticks and all 256 resolution bytes the fraction stays below a second and the seconds saturate. */
  lemma AlwaysInRange(ticks: nat, resol: byte)
    ensures ToSecsUsecs(ticks, resol).0 == Min(ticks / TicksPerSec(resol), 0xFFFF_FFFF)
    ensures ToSecsUsecs(ticks, resol).1 < 1_000_000
  {
    RemainderIsFraction(ticks, TicksPerSec(resol));
  }

  /** Below saturation the result is the exact quotient for the rate used. */
  lemma ExactForRateUsed(ticks: nat, resol: byte)
    requires ticks / TicksPerSec(resol) <= U32_MAX
    ensures Micros(ticks, resol) == ticks * MICROS / TicksPerSec(resol)
  {
    FastPathAgrees(ticks);
    SplitDivision(ticks, TicksPerSec(resol), MICROS);
  }

  /**
   The result is the time the capture announced, to the microsecond, exactly when the seconds fit 32 bits and either
   the exponent fits the table or the ticks are too few to matter.
   */
  lemma ExactIff(ticks: nat, resol: byte)
    requires ticks <= U64_MAX
    ensures Micros(ticks, resol) == ticks * MICROS / TrueRate(resol) <==>
            ticks / TicksPerSec(resol) <= U32_MAX && (Representable(resol) || ticks * MICROS < TicksPerSec(resol))
  {
    var p, r := TicksPerSec(resol), TrueRate(resol);
    RateUsed(resol);
    if !Representable(resol) {
      FewSeconds(ticks, p);
      ExactForRateUsed(ticks, resol);
      LargerDivisor(ticks * MICROS, p, r);
    } else if ticks / p <= U32_MAX {
      ExactForRateUsed(ticks, resol);
    } else {
      AlwaysInRange(ticks, resol);
      SplitDivision(ticks, p, MICROS);
      assert ticks / p * MICROS >= (U32_MAX + 1) * MICROS;
    }
  }

  /** At the highest rates 64 bits of ticks are less than two seconds. */
  lemma FewSeconds(ticks: nat, p: nat)
    requires ticks <= U64_MAX && p >= 0x8000_0000_0000_0000
    ensures ticks / p <= U32_MAX
  {
    DivBelow(ticks, p, 2);
  }

  /** Later ticks are never earlier times, for every resolution byte, as long as the seconds are not saturated. */
  lemma MonotoneBelowSaturation(a: nat, b: nat, resol: byte)
    requires a <= b && b / TicksPerSec(resol) <= U32_MAX
    ensures Micros(a, resol) <= Micros(b, resol)
  {
    var p := TicksPerSec(resol);
    DivMonotone(a, b, p);
    ExactForRateUsed(a, resol);
    ExactForRateUsed(b, resol);
    DivMonotone(a * MICROS, b * MICROS, p);
  }

  /** The first tick of the first second that does not fit 32 bits. */
  function FirstSaturated(resol: byte): nat { (U32_MAX + 1) * TicksPerSec(resol) }

  /**
   At every rate of two or more ticks, the first saturated tick comes out before the tick that precedes it. It is a
   64-bit tick, and so can be received, exactly when the rate fits 32 bits.
   */
  lemma SaturationLosesOrder(resol: byte)
    requires TicksPerSec(resol) >= 2
    ensures Micros(FirstSaturated(resol) - 1, resol) > Micros(FirstSaturated(resol), resol)
    ensures FirstSaturated(resol) <= U64_MAX <==> TicksPerSec(resol) <= U32_MAX
  {
    var p, s := TicksPerSec(resol), FirstSaturated(resol);
    DivIs(s, p, U32_MAX + 1);
    FractionAt(s, p, U32_MAX + 1, 0);
    DivIs(s - 1, p, U32_MAX);
    FractionAt(s - 1, p, U32_MAX, p - 1);
    General(s, resol);
    General(s - 1, resol);
  }

  /** The general formula for every resolution byte, shortcut included. */
  lemma General(ticks: nat, resol: byte)
    ensures Micros(ticks, resol) ==
            Min(Whole(ticks, TicksPerSec(resol)), U32_MAX) * MICROS + Fraction(ticks, TicksPerSec(resol))
  {
    FastPathAgrees(ticks);
  }

  /** No ticks left over give no fraction; one tick short of a second gives some. */
  lemma FractionAt(ticks: nat, p: nat, q: nat, r: nat)
    requires p >= 1 && r < p && ticks == q * p + r
    ensures ticks % p == r
    ensures r == 0 ==> Fraction(ticks, p) == 0
    ensures r == p - 1 && p >= 2 ==> Fraction(ticks, p) >= 1
  {
    DivIs(ticks, p, q);
    assert ticks % p == r;
    if r == 0 {
      DivIs(0, p, 0);
    }
    if r == p - 1 && p >= 2 {
      DivMonotone(p, r * MICROS, p);
      DivIs(p, p, 1);
    }
  }

  /** One tick a second: seconds saturate, and there is no fraction to lose. */
  lemma WholeSeconds(ticks: nat, resol: byte)
    requires TicksPerSec(resol) == 1
    ensures Micros(ticks, resol) == Min(ticks, U32_MAX) * MICROS
  {
    General(ticks, resol);
    DivIs(ticks, 1, ticks);
    FractionAt(ticks, 1, ticks, 0);
  }

  /**
   Times of ticks up to a limit keep their order if and only if the limit is not saturated or the clock has one tick a
   second. This is for all 256 resolution bytes.
   */
  lemma OrderKeptIff(resol: byte, limit: nat)
    ensures (forall a: nat, b: nat :: a <= b <= limit ==> Micros(a, resol) <= Micros(b, resol)) <==>
            limit / TicksPerSec(resol) <= U32_MAX || TicksPerSec(resol) == 1
  {
    hide Micros;
    var p := TicksPerSec(resol);
    if limit / p <= U32_MAX {
      forall a: nat, b: nat | a <= b <= limit ensures Micros(a, resol) <= Micros(b, resol) {
        DivMonotone(b, limit, p);
        MonotoneBelowSaturation(a, b, resol);
      }
    } else if p == 1 {
      forall a: nat, b: nat | a <= b <= limit ensures Micros(a, resol) <= Micros(b, resol) {
        WholeSeconds(a, resol);
        WholeSeconds(b, resol);
      }
    } else {
      var s := FirstSaturated(resol);
      Reaches(limit, p);
      SaturationLosesOrder(resol);
      assert 0 <= s - 1 <= s <= limit && Micros(s - 1, resol) > Micros(s, resol);
    }
  }

  /**
   Over all the ticks a block can carry, order is kept if and only if the clock has one tick a second or more than 32
   bits of them: at the rates in between saturation is reached, and at the higher ones it is out of reach.
   */
  lemma OrderKept64Iff(resol: byte)
    ensures (forall a: nat, b: nat :: a <= b <= U64_MAX ==> Micros(a, resol) <= Micros(b, resol)) <==>
            TicksPerSec(resol) == 1 || TicksPerSec(resol) > U32_MAX
  {
    hide Micros, TicksPerSec;
    OrderKeptIff(resol, U64_MAX);
    SaturatesIff(TicksPerSec(resol));
  }

  lemma SaturatesIff(p: nat)
    requires p >= 1
    ensures U64_MAX / p > U32_MAX <==> p <= U32_MAX
  {
    if p <= U32_MAX {
      DivMonotone((U32_MAX + 1) * p, U64_MAX, p);
      DivIs((U32_MAX + 1) * p, p, U32_MAX + 1);
    } else {
      DivBelow(U64_MAX, p, U32_MAX + 1);
    }
  }

  lemma Reaches(limit: nat, p: nat)
    requires p >= 1 && limit / p > U32_MAX
    ensures 1 <= (U32_MAX + 1) * p <= limit
  {
    DivFloor(limit, p);
    Product(U32_MAX, limit / p, p);
    Distribute(U32_MAX, 1, p);
  }
}
