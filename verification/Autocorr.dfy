/** Autocorrelation in fixed point, and the in-place step of the Levinson recursion:
    iaxclient/lib/libspeex/lpc.c. */
module Autocorr {
  import opened FixedPoint
  import opened Powers

  function Times(a: int, b: int): int {
    a * b
  }

  lemma {:induction false} ShrIsFloor(v: int, s: nat)
    ensures Times(Pow2(s), Shr(v, s)) <= v <= Times(Pow2(s), Shr(v, s)) + Pow2(s) - 1
    decreases s
  {
    if s > 0 {
      ShrIsFloor(v / 2, s - 1);
      Twice(Pow2(s - 1), Shr(v / 2, s - 1));
    }
  }

  lemma Twice(p: int, q: int)
    ensures Times(2 * p, q) == 2 * Times(p, q)
  {
  }

  lemma {:induction false} ShrNonNegative(v: int, s: nat)
    requires v >= 0
    ensures Shr(v, s) >= 0
    decreases s
  {
    if s > 0 {
      ShrNonNegative(v / 2, s - 1);
    }
  }

  // ----- sums over the samples -----

  function Energy(x: seq<int>, m: nat): (e: int)
    requires m <= |x|
    ensures e >= 0
  {
    if m == 0 then 0 else Energy(x, m - 1) + Square(x[m - 1])
  }

  /** The autocorrelation at lag i of the first m samples. */
  function Corr(x: seq<int>, i: nat, m: nat): int
    requires m <= |x|
  {
    if m <= i then 0 else Corr(x, i, m - 1) + Times(x[m - 1], x[m - 1 - i])
  }

  /** The same with every product shifted, as it is accumulated. */
  function Acc(x: seq<int>, i: nat, m: nat, s: nat): int
    requires m <= |x|
  {
    if m <= i then 0 else Acc(x, i, m - 1, s) + Shr(Times(x[m - 1], x[m - 1 - i]), s)
  }

  lemma {:induction false} AccNearCorr(x: seq<int>, i: nat, m: nat, s: nat)
    requires m <= |x|
    ensures Times(Pow2(s), Acc(x, i, m, s)) <= Corr(x, i, m)
    ensures Corr(x, i, m) <= Times(Pow2(s), Acc(x, i, m, s)) + Times(m, Pow2(s) - 1)
  {
    hide Times, Pow2, Shr;
    if m <= i {
      TimesZero(Pow2(s));
      TimesNonNegative(m, Pow2(s) - 1);
    } else {
      AccNearCorr(x, i, m - 1, s);
      var v := Times(x[m - 1], x[m - 1 - i]);
      ShrIsFloor(v, s);
      TimesPlus(Pow2(s), Acc(x, i, m - 1, s), Shr(v, s));
      TimesPlus(Pow2(s) - 1, m - 1, 1);
      TimesCommutes(Pow2(s) - 1, m);
      TimesCommutes(Pow2(s) - 1, m - 1);
      TimesOne(Pow2(s) - 1);
    }
  }

  lemma TimesZero(a: int)
    ensures Times(a, 0) == 0
  {
  }

  lemma TimesOne(a: int)
    ensures Times(a, 1) == a
  {
  }

  lemma TimesNonNegative(a: int, b: int)
    requires a >= 0 && b >= 0
    ensures Times(a, b) >= 0
  {
  }

  lemma TimesPlus(a: int, b: int, c: int)
    ensures Times(a, b + c) == Times(a, b) + Times(a, c)
  {
  }

  lemma TimesCommutes(a: int, b: int)
    ensures Times(a, b) == Times(b, a)
  {
  }

  lemma TimesAssociates(a: int, b: int, c: int)
    ensures Times(Times(a, b), c) == Times(a, Times(b, c))
  {
  }

  lemma TimesMonotone(a: int, b: int, c: int)
    requires a >= 0 && b <= c
    ensures Times(a, b) <= Times(a, c)
  {
    assert a * (c - b) >= 0;
  }

  lemma SquareOfSum(a: int, b: int)
    ensures Square(a + b) == Square(a) + Square(b) + 2 * Times(a, b)
  {
  }

  lemma SquareOfDifference(a: int, b: int)
    ensures Square(a - b) == Square(a) + Square(b) - 2 * Times(a, b)
  {
  }

  // ----- the products against the energy -----

  lemma {:induction false} EnergyGrows(x: seq<int>, m: nat, n: nat)
    requires m <= n <= |x|
    ensures Energy(x, m) <= Energy(x, n)
    decreases n
  {
    if m < n {
      EnergyGrows(x, m, n - 1);
    }
  }

  function Before(m: nat, i: nat): nat {
    if m <= i then 0 else m - i
  }

  lemma {:induction false} CorrAtMostEnergies(x: seq<int>, i: nat, m: nat)
    requires m <= |x|
    ensures 2 * Corr(x, i, m) <= Energy(x, m) + Energy(x, Before(m, i))
  {
    hide Times, Square;
    if m > i {
      CorrAtMostEnergies(x, i, m - 1);
      SquareOfDifference(x[m - 1], x[m - 1 - i]);
    }
  }

  lemma CorrAtMostEnergy(x: seq<int>, i: nat, m: nat)
    requires m <= |x|
    ensures Corr(x, i, m) <= Energy(x, m)
  {
    CorrAtMostEnergies(x, i, m);
    EnergyGrows(x, Before(m, i), m);
  }

  /** The squares of the sums of samples i apart, and of the first i samples. */
  function SumSquares(x: seq<int>, i: nat, m: nat): (k: int)
    requires m <= |x|
    ensures k >= 0
  {
    if m == 0 then 0
    else SumSquares(x, i, m - 1) + if m - 1 >= i then Square(x[m - 1] + x[m - 1 - i]) else Square(x[m - 1])
  }

  lemma {:induction false} SumSquaresIs(x: seq<int>, i: nat, m: nat)
    requires m <= |x|
    ensures SumSquares(x, i, m) == Energy(x, m) + Energy(x, Before(m, i)) + 2 * Corr(x, i, m)
  {
    hide Times, Square;
    if m > 0 {
      SumSquaresIs(x, i, m - 1);
      if m > i {
        SquareOfSum(x[m - 1], x[m - 1 - i]);
      }
    }
  }

  lemma {:induction false} SumSquaresGrow(x: seq<int>, i: nat, m: nat, n: nat)
    requires m <= n <= |x|
    ensures SumSquares(x, i, m) <= SumSquares(x, i, n)
    decreases n
  {
    if m < n {
      SumSquaresGrow(x, i, m, n - 1);
    }
  }

  /** One link of a chain: with k k' >= w^2, (k + 1) ((u + w)^2 + k') >= u^2. */
  lemma Link(u: int, w: int, k: int, s: int)
    requires k >= 1 && Times(k, s) >= Square(w) && s >= 0
    ensures Times(k + 1, Square(u + w) + s) >= Square(u)
  {
    hide Times, Square;
    var y := u + w;
    var g := Times(k + 1, Square(y) + s);
    SquareOfDifference(y, w);
    SquareOfSum(Times(k, y), w);
    ScaledProducts(k, y, w);
    // k times both sides
    TimesInside(k, k + 1, Square(y) + s);
    TimesPlus(k, Square(y), s);
    TimesMonotone(k + 1, Times(k, Square(y)) + Square(w), Times(k, Square(y)) + Times(k, s));
    TimesPlus(k + 1, Times(k, Square(y)), Square(w));
    TimesSuccessor(k, Times(k, Square(y)));
    TimesSuccessor(k, Square(w));
    TimesPlus(k, Square(y) + Square(w), -2 * Times(y, w));
    TimesPlus(k, Square(y), Square(w));
    TimesMinusTwo(k, Times(y, w));
    if g < Square(u) {
      TimesStrict(k, g, Square(u));
    }
  }

  lemma ScaledProducts(k: int, y: int, w: int)
    ensures Square(Times(k, y)) == Times(k, Times(k, Square(y)))
    ensures Times(Times(k, y), w) == Times(k, Times(y, w))
  {
  }

  lemma TimesInside(k: int, a: int, b: int)
    ensures Times(k, Times(a, b)) == Times(a, Times(k, b))
  {
  }

  lemma TimesSuccessor(k: int, a: int)
    ensures Times(k + 1, a) == Times(k, a) + a
  {
  }

  lemma TimesMinusTwo(k: int, a: int)
    ensures Times(k, -2 * a) == -2 * Times(k, a)
  {
  }

  lemma TimesStrict(k: int, a: int, b: int)
    requires k >= 1 && a < b
    ensures Times(k, a) < Times(k, b)
  {
    assert (k - 1) * (b - a) >= 0;
    assert (k - 1) * (b - a) == (k * b - k * a) - (b - a);
  }

  /** No sample is large while all those sums are small. */
  lemma {:induction false} SampleInSums(x: seq<int>, i: nat, v: nat)
    requires 1 <= i && v < |x|
    ensures Times(v + 1, SumSquares(x, i, v + 1)) >= Square(x[v])
    decreases v
  {
    hide Times, Square;
    if v < i {
      TimesMonotone(SumSquares(x, i, v + 1), 1, v + 1);
      TimesOne(SumSquares(x, i, v + 1));
      TimesCommutes(v + 1, SumSquares(x, i, v + 1));
    } else {
      var k, s := v - i + 1, SumSquares(x, i, v - i + 1);
      SampleInSums(x, i, v - i);
      SumSquaresGrow(x, i, v - i + 1, v);
      Link(x[v], x[v - i], k, s);
      var all := SumSquares(x, i, v + 1);
      TimesMonotone(k + 1, Square(x[v] + x[v - i]) + s, all);
      TimesMonotone(all, k + 1, v + 1);
      TimesCommutes(all, k + 1);
      TimesCommutes(all, v + 1);
    }
  }

  lemma {:induction false} EnergyAtMost(x: seq<int>, m: nat, b: int)
    requires m <= |x| && forall v :: 0 <= v < m ==> Square(x[v]) <= b
    ensures Energy(x, m) <= Times(m, b)
  {
    hide Times, Square;
    TimesCommutes(m, b);
    if m == 0 {
      TimesZero(b);
    } else {
      EnergyAtMost(x, m - 1, b);
      TimesCommutes(m - 1, b);
      TimesPlus(b, m - 1, 1);
      TimesOne(b);
    }
  }

  /** The correlation stays above minus the energy by at least a 2 m^2-th part of it. */
  lemma CorrAboveEnergy(x: seq<int>, i: nat, m: nat)
    requires 1 <= i && m <= |x|
    ensures 2 * Times(Square(m), Corr(x, i, m) + Energy(x, m)) >= Energy(x, m)
  {
    hide Times, Square;
    var k := SumSquares(x, i, m);
    forall v | 0 <= v < m
      ensures Square(x[v]) <= Times(m, k)
    {
      SampleInSums(x, i, v);
      SumSquaresGrow(x, i, v + 1, m);
      TimesMonotone(v + 1, SumSquares(x, i, v + 1), k);
      TimesMonotone(k, v + 1, m);
      TimesCommutes(k, v + 1);
      TimesCommutes(k, m);
    }
    EnergyAtMost(x, m, Times(m, k));
    SumSquaresIs(x, i, m);
    EnergyGrows(x, Before(m, i), m);
    SquareTimes(m, k);
    NatSquare(m);
    TimesMonotone(Square(m), k, 2 * (Corr(x, i, m) + Energy(x, m)));
    Twice(Corr(x, i, m) + Energy(x, m), Square(m));
    TimesCommutes(Square(m), 2 * (Corr(x, i, m) + Energy(x, m)));
    TimesCommutes(Square(m), Corr(x, i, m) + Energy(x, m));
  }

  lemma SquareTimes(m: int, k: int)
    ensures Times(m, Times(m, k)) == Times(Square(m), k)
  {
  }

  lemma NatSquare(m: nat)
    ensures Square(m) >= 0
  {
  }

  // ----- the bounds -----

  const MaxSamples := 511

  predicate Samples(x: seq<int>) {
    |x| <= MaxSamples && forall j :: 0 <= j < |x| ==> Fits16(x[j])
  }

  /** The sum that the two shifts are chosen by. */
  function Level(x: seq<int>): int {
    1 + Acc(x, 0, |x|, 8) + |x|
  }

  lemma SquareOfSample(v: int)
    requires Fits16(v)
    ensures 0 <= Times(v, v) <= 0x4000_0000
  {
    if v >= 0 {
      ProductMonotone(v, 32768);
    } else {
      ProductMonotone(-v, 32768);
      assert (-v) * (-v) == v * v;
    }
  }

  lemma ShrByEight(v: int)
    requires 0 <= v <= 0x4000_0000
    ensures 0 <= Shr(v, 8) <= 0x40_0000
  {
    ShrIsFloor(v, 8);
    ShrNonNegative(v, 8);
    assert Pow2(4) == 16 && Pow2(8) == 256;
  }

  lemma {:induction false} LevelFits(x: seq<int>, m: nat)
    requires m <= |x| && forall j :: 0 <= j < |x| ==> Fits16(x[j])
    ensures 0 <= Acc(x, 0, m, 8) <= 0x40_0000 * m
  {
    hide Times, Shr;
    if m > 0 {
      LevelFits(x, m - 1);
      SquareOfSample(x[m - 1]);
      ShrByEight(Times(x[m - 1], x[m - 1]));
    }
  }

  lemma {:induction false} EnergyIsCorrAtZero(x: seq<int>, m: nat)
    requires m <= |x|
    ensures Corr(x, 0, m) == Energy(x, m)
  {
    if m > 0 {
      EnergyIsCorrAtZero(x, m - 1);
    }
  }

  /** The energy is less than 256 times the level. */
  lemma EnergyBelowLevel(x: seq<int>)
    ensures Energy(x, |x|) <= 256 * (Level(x) - 1)
  {
    hide Energy, Corr, Acc;
    AccNearCorr(x, 0, |x|, 8);
    EnergyIsCorrAtZero(x, |x|);
    assert Pow2(4) == 16 && Pow2(8) == 256;
  }

  lemma PowersOfTwo(s: nat)
    requires s <= 8
    ensures Pow2(s) <= 256 && Times(Pow2(s), Pow2(8 - s)) == 256
  {
    assert Pow2(4) == 16 && Pow2(8) == 256;
    match s {
      case 0 =>
      case 1 =>
      case 2 =>
      case 3 =>
      case 4 =>
      case 5 =>
      case 6 =>
      case 7 =>
      case 8 =>
    }
  }

  /** When the level, scaled by the shift, fits 31 bits, so does the energy with s bits more. */
  lemma EnergyScaled(x: seq<int>, s: nat)
    requires s <= 8 && Times(Level(x), Pow2(8 - s)) < 0x8000_0000
    ensures Energy(x, |x|) < Times(Pow2(s), 0x8000_0000)
  {
    hide Times, Pow2, Energy, Level;
    PowersOfTwo(s);
    EnergyBelowLevel(x);
    TimesStrict(Pow2(s), Times(Level(x), Pow2(8 - s)), 0x8000_0000);
    TimesCommutes(Level(x), Pow2(8 - s));
    TimesAssociates(Pow2(s), Pow2(8 - s), Level(x));
    Times256(Level(x));
  }

  lemma Times256(v: int)
    ensures Times(256, v) == 256 * v
  {
  }

  lemma TimesQuotient(p: int, q: int, a: int)
    requires p >= 1 && Times(p, q) < Times(p, a)
    ensures q < a
  {
    if q >= a {
      TimesMonotone(p, a, q);
    }
  }

  lemma CubeBound(m: nat)
    requires m <= MaxSamples
    ensures Times(Square(m), m) < 0x800_0000
  {
    ProductMonotone(m, 511);
    TimesMonotone(m, Square(m), 511 * 511);
    TimesMonotone(511 * 511, m, 511);
  }

  /** At every lag but 0, the correlation leaves room for what the shifts may take away. */
  lemma CorrLowerBound(x: seq<int>, i: nat, m: nat, s: nat)
    requires 1 <= i && m <= |x| <= MaxSamples
    requires Energy(x, |x|) < Times(Pow2(s), 0x8000_0000)
    ensures Corr(x, i, m) - Times(m, Pow2(s) - 1) >= Times(Pow2(s), -0x8000_0000)
  {
    hide Times, Pow2, Energy, Corr;
    var e, c, p := Energy(x, m), Corr(x, i, m), Pow2(s);
    EnergyGrows(x, m, |x|);
    CorrAboveEnergy(x, i, m);
    CubeBound(m);
    SumsOfNone(x, i);
    RoomForSlack(m, p, c + e, e);
    TimesPlus(m, p, -1);
    TimesMinusOne(m);
    TimesNegative(p, 0x8000_0000);
  }

  lemma SumsOfNone(x: seq<int>, i: nat)
    ensures Energy(x, 0) == 0 && Corr(x, i, 0) == 0
  {
  }

  lemma TimesNegative(p: int, a: int)
    ensures Times(p, -a) == -Times(p, a)
  {
  }

  lemma TimesMinusOne(a: int)
    ensures Times(a, -1) == 0 - a
  {
  }

  /** Either the energy is half the bound at most, or the loss covers the slack. */
  lemma RoomForSlack(m: nat, p: int, r: int, e: int)
    requires p >= 1 && e >= 0 && e < Times(p, 0x8000_0000)
    requires 2 * Times(Square(m), r) >= e && Times(Square(m), m) < 0x800_0000 && m <= MaxSamples
    requires m == 0 ==> r >= 0
    ensures r - Times(m, p) >= e - Times(p, 0x8000_0000)
  {
    hide Times, Square;
    TimesTwoParts(p);
    TimesMonotone(p, m, 511);
    TimesCommutes(p, m);
    if e <= Times(p, 0x4000_0000) {
      NonNegativeFactor(m, r, e);
      Times511(p);
    } else {
      if r < Times(m, p) {
        // m^3 p would exceed a quarter of the energy
        NatSquare(m);
        TimesMonotone(Square(m), r, Times(m, p));
        TimesAssociates(Square(m), m, p);
        TimesCommutes(Times(Square(m), m), p);
        TimesMonotone(p, Times(Square(m), m), 0x800_0000);
        TimesParts(p);
      }
    }
  }

  lemma TimesTwoParts(p: int)
    ensures Times(p, 0x8000_0000) == 2 * Times(p, 0x4000_0000)
  {
  }

  lemma Times511(p: int)
    requires p >= 1
    ensures Times(p, 511) <= Times(p, 0x4000_0000)
  {
  }

  lemma TimesParts(p: int)
    requires p >= 1
    ensures 8 * Times(p, 0x800_0000) == Times(p, 0x4000_0000)
    ensures Times(p, 0x800_0000) > 0
  {
  }

  lemma NonNegativeFactor(m: nat, r: int, e: int)
    requires e >= 0 && 2 * Times(Square(m), r) >= e
    ensures m > 0 ==> r >= 0
  {
    if m > 0 && r < 0 {
      assert m * m >= 1 by {
        ProductMonotone(1, m);
      }
      TimesMonotone(m * m, r, -1);
    }
  }

  /** Shifted sums stay in 32 bits at every lag, at every step of the loop. */
  lemma AccFits(x: seq<int>, i: nat, m: nat, s: nat)
    requires Samples(x) && m <= |x| && s <= 8
    requires Times(Level(x), Pow2(8 - s)) < 0x8000_0000
    ensures Fits32(Acc(x, i, m, s))
    ensures i == 0 ==> Acc(x, i, m, s) >= 0
  {
    hide Times, Pow2, Energy, Corr, Acc, Level;
    var d := Acc(x, i, m, s);
    EnergyScaled(x, s);
    AccNearCorr(x, i, m, s);
    CorrAtMostEnergy(x, i, m);
    EnergyGrows(x, m, |x|);
    TimesQuotient(Pow2(s), d, 0x8000_0000);
    if i == 0 {
      AccAtZero(x, m, s);
    } else {
      CorrLowerBound(x, i, m, s);
      if d < -0x8000_0000 {
        TimesStrict(Pow2(s), d, -0x8000_0000);
      }
    }
  }

  lemma {:induction false} AccAtZero(x: seq<int>, m: nat, s: nat)
    requires m <= |x|
    ensures Acc(x, 0, m, s) >= 0
  {
    if m > 0 {
      AccAtZero(x, m - 1, s);
      SquareNonNegative(x[m - 1]);
      ShrNonNegative(Times(x[m - 1], x[m - 1]), s);
    }
  }

  /** The shifts that the two loops may choose. */
  predicate Shifts(x: seq<int>, s: nat, t: nat) {
    && s <= 8 && t <= 18
    && (s == 0 || t == 18)
    && Times(Times(Level(x), Pow2(8 - s)), Pow2(18 - t)) < 0x8000_0000
  }

  /** What is stored at any lag has 14 bits, and is not negative at lag 0. */
  lemma StoredFits(x: seq<int>, i: nat, s: nat, t: nat)
    requires Samples(x) && Shifts(x, s, t)
    ensures Fits32(Acc(x, i, |x|, s))
    ensures -8192 <= Shr(Acc(x, i, |x|, s), t) < 8192
    ensures i == 0 ==> Shr(Acc(x, i, |x|, s), t) >= 0
  {
    hide Times, Pow2, Energy, Corr, Acc, Level, Shr;
    var d := Acc(x, i, |x|, s);
    LevelPositive(x);
    ScaledLevel(Level(x), s, t);
    AccFits(x, i, |x|, s);
    ShrIsFloor(d, t);
    if i == 0 {
      ShrNonNegative(d, t);
    }
    assert -Times(Pow2(t), 8192) <= d < Times(Pow2(t), 8192) by {
      if t == 18 {
        Power18();
      } else {
        EnergyBelowLevel(x);
        Unshifted(x, i);
        LevelWithinStore(Level(x), t);
      }
    }
    TimesQuotient(Pow2(t), Shr(d, t), 8192);
    TimesNegative(Pow2(t), 8192);
    if Shr(d, t) < -8192 {
      TimesMonotone(Pow2(t), Shr(d, t), -8193);
      TimesPlus(Pow2(t), -8192, -1);
      TimesMinusOne(Pow2(t));
    }
  }

  lemma LevelPositive(x: seq<int>)
    ensures Level(x) >= 1
  {
    AccAtZero(x, |x|, 8);
  }

  /** Without the second scaling the level is smaller. */
  lemma ScaledLevel(v: int, s: nat, t: nat)
    requires v >= 1 && s <= 8 && t <= 18 && Times(Times(v, Pow2(8 - s)), Pow2(18 - t)) < 0x8000_0000
    ensures Times(v, Pow2(8 - s)) < 0x8000_0000
  {
    hide Pow2;
    TimesMonotone(v, 0, Pow2(8 - s));
    TimesMonotone(Times(v, Pow2(8 - s)), 1, Pow2(18 - t));
  }

  lemma Power18()
    ensures Times(Pow2(18), 8192) == 0x8000_0000 && Pow2(18) == 262144
  {
    assert Pow2(6) == 64 && Pow2(12) == 4096 && Pow2(18) == 262144;
  }

  /** Without a first shift the accumulator is the exact correlation. */
  lemma Unshifted(x: seq<int>, i: nat)
    requires Samples(x)
    ensures -Energy(x, |x|) <= Acc(x, i, |x|, 0) <= Energy(x, |x|)
  {
    var n := |x|;
    AccNearCorr(x, i, n, 0);
    CorrAtMostEnergy(x, i, n);
    if i == 0 {
      AccAtZero(x, n, 0);
    } else {
      SumSquaresIs(x, i, n);
      EnergyGrows(x, Before(n, i), n);
    }
  }

  lemma LevelWithinStore(v: int, t: nat)
    requires v >= 1 && t <= 18 && Times(Times(v, Pow2(8)), Pow2(18 - t)) < 0x8000_0000
    ensures 256 * (v - 1) < Times(Pow2(t), 8192)
  {
    assert Pow2(4) == 16 && Pow2(8) == 256;
    PowersUpTo18(t);
    hide Pow2, Times;
    Times256(v);
    TimesCommutes(v, 256);
    var w := 256 * v;
    TimesStrict(Pow2(t), Times(w, Pow2(18 - t)), 0x8000_0000);
    TimesCommutes(w, Pow2(18 - t));
    TimesAssociates(Pow2(t), Pow2(18 - t), w);
    Times262144(w, Pow2(t));
  }

  lemma Times262144(w: int, p: int)
    ensures Times(262144, w) == 262144 * w && Times(p, 0x8000_0000) == 262144 * Times(p, 8192)
  {
  }

  lemma PowersUpTo18(t: nat)
    requires t <= 18
    ensures Times(Pow2(t), Pow2(18 - t)) == 262144
  {
    PowersAdd(t, 18 - t);
    Power18();
  }

  lemma {:induction false} PowersAdd(a: nat, b: nat)
    ensures Times(Pow2(a), Pow2(b)) == Pow2(a + b)
  {
    hide Times;
    if a == 0 {
      TimesCommutes(1, Pow2(b));
      TimesOne(Pow2(b));
    } else {
      PowersAdd(a - 1, b);
      Twice(Pow2(a - 1), Pow2(b));
    }
  }

  // ----- the code -----

  lemma AccStep(x: seq<int>, i: nat, j: nat, s: nat)
    requires i <= j < |x|
    ensures Acc(x, i, j + 1, s) == Acc(x, i, j, s) + Shr(Times(x[j], x[j - i]), s)
    ensures Acc(x, i, i, s) == 0
  {
  }

  /** The level, as accumulated, and what it may be. */
  method MeasureLevel(x: array<int>) returns (ac0: int)
    requires Samples(x[..])
    ensures ac0 == Level(x[..]) && 1 <= ac0 < 0x8000_0000
  {
    hide Times, Shr, Acc, W32;
    ghost var v := x[..];
    AccEmpty(v, 0);
    ac0 := 1;
    var j := 0;
    while j < x.Length
      invariant 0 <= j <= x.Length && ac0 == 1 + Acc(v, 0, j, 8)
    {
      LevelFits(v, j + 1);
      AccStep(v, 0, j, 8);
      Fitting(ac0 + Shr(Times(x[j], x[j]), 8));
      ac0 := W32(ac0 + Shr(Times(x[j], x[j]), 8));
      j := j + 1;
    }
    LevelFits(v, x.Length);
    Fitting(ac0 + x.Length);
    ac0 := W32(ac0 + x.Length);
  }

  lemma AccEmpty(x: seq<int>, s: nat)
    ensures forall i: nat, t: nat {:trigger Acc(x, i, 0, t)} :: Acc(x, i, 0, t) == 0
  {
  }

  lemma TimesDouble(a: int, b: int, k: nat)
    requires b == Pow2(k)
    ensures Times(a, 2 * b) == 2 * Times(a, b) && Pow2(k + 1) == 2 * b
  {
  }

  /** The two scaling loops. */
  method ChooseShifts(level: int, ghost x: seq<int>) returns (shift: nat, acShift: nat)
    requires level == Level(x) && 1 <= level < 0x8000_0000
    ensures Shifts(x, shift, acShift)
    ensures acShift > 0 ==> Times(Times(level, Pow2(8 - shift)), Pow2(18 - acShift)) >= 0x4000_0000
  {
    hide Times, Pow2, Level;
    var ac0 := level;
    shift := 8;
    TimesByOne(level);
    while shift != 0 && ac0 < 0x4000_0000
      invariant 0 <= shift <= 8 && ac0 == Times(level, Pow2(8 - shift)) && 1 <= ac0 < 0x8000_0000
    {
      TimesDouble(level, Pow2(8 - shift), 8 - shift);
      shift := shift - 1;
      ac0 := ac0 * 2;
    }
    acShift := 18;
    ghost var scaled := ac0;
    TimesByOne(scaled);
    while acShift != 0 && ac0 < 0x4000_0000
      invariant 0 <= acShift <= 18 && ac0 == Times(scaled, Pow2(18 - acShift)) && 1 <= ac0 < 0x8000_0000
      invariant shift == 0 || acShift == 18
      invariant scaled >= 0x4000_0000 ==> acShift == 18 && ac0 == scaled
    {
      TimesDouble(scaled, Pow2(18 - acShift), 18 - acShift);
      acShift := acShift - 1;
      ac0 := ac0 * 2;
    }
  }

  lemma TimesByOne(a: int)
    ensures Times(a, Pow2(8 - 8)) == a && Times(a, Pow2(18 - 18)) == a
  {
  }

  /** One lag: the accumulator never leaves 32 bits. */
  method OneLag(x: array<int>, i: nat, shift: nat) returns (d: int)
    requires Samples(x[..]) && shift <= 8 && Times(Level(x[..]), Pow2(8 - shift)) < 0x8000_0000
    ensures d == Acc(x[..], i, x.Length, shift)
  {
    hide Times, Shr, Acc, W32, Pow2, Level;
    ghost var v := x[..];
    d := 0;
    var j := i;
    NoProducts(v, i, shift);
    while j < x.Length
      invariant i <= j && (j <= x.Length || i > x.Length)
      invariant j <= x.Length ==> d == Acc(v, i, j, shift)
      invariant i > x.Length ==> d == 0
    {
      AccStep(v, i, j, shift);
      AccFits(v, i, j + 1, shift);
      Fitting(d + Shr(Times(x[j], x[j - i]), shift));
      d := W32(d + Shr(Times(x[j], x[j - i]), shift));
      j := j + 1;
    }
  }

  lemma NoProducts(x: seq<int>, i: nat, s: nat)
    ensures i >= |x| ==> Acc(x, i, |x|, s) == 0
    ensures i <= |x| ==> Acc(x, i, i, s) == 0
  {
  }

  /** _spx_autocorr: for up to 511 samples of 16 bits nothing overflows, and what is stored has 14 bits. */
  method Autocorr(x: array<int>, ac: array<int>, lag: nat) returns (shift: nat, acShift: nat)
    requires x != ac && lag <= ac.Length && Samples(x[..])
    modifies ac
    ensures Shifts(x[..], shift, acShift)
    ensures forall i :: 0 <= i < lag ==>
              ac[i] == Shr(Acc(x[..], i, x.Length, shift), acShift) && -8192 <= ac[i] < 8192
    ensures lag > 0 ==> ac[0] >= 0
  {
    hide Times, Shr, Acc, W16, Pow2, Level;
    ghost var v := x[..];
    var ac0 := MeasureLevel(x);
    shift, acShift := ChooseShifts(ac0, v);
    ScaledLevel(Level(v), shift, acShift);
    var i := 0;
    while i < lag
      invariant 0 <= i <= lag && x[..] == v
      invariant forall k :: 0 <= k < i ==> ac[k] == Shr(Acc(v, k, |v|, shift), acShift) && -8192 <= ac[k] < 8192
      invariant i > 0 ==> ac[0] >= 0
    {
      var d := OneLag(x, i, shift);
      StoredFits(v, i, shift, acShift);
      Fitting(Shr(d, acShift));
      ac[i] := W16(Shr(d, acShift));
      i := i + 1;
    }
  }

  // ----- the Levinson step -----

  /** A coefficient plus the product of two others, 13 bits dropped, in 16 bits. */
  function Mac13(c: int, a: int, b: int): int {
    W16(c + Shr(Times(a, b), 13))
  }

  /** That is the exact value in 1/8192, rounded down, where it fits. */
  lemma Mac13IsFloor(c: int, a: int, b: int)
    ensures Fits16((8192 * c + a * b) / 8192) ==> Mac13(c, a, b) == (8192 * c + a * b) / 8192
  {
    ShrIsFloor(Times(a, b), 13);
    assert Pow2(13) == 8192;
    FloorIs(Times(a, b), Shr(Times(a, b), 13));
    Fitting(c + Shr(Times(a, b), 13));
  }

  lemma FloorIs(v: int, q: int)
    requires 8192 * q <= v <= 8192 * q + 8191
    ensures v / 8192 == q
  {
  }

  lemma Mac13Commutes(c: int, a: int, b: int)
    ensures Mac13(c, a, b) == Mac13(c, b, a)
  {
    TimesCommutes(a, b);
  }

  /** Two mirror images corrected by each other. */
  method CorrectPair(lpc: array<int>, j: nat, m: nat, r: int)
    requires j <= m < lpc.Length
    modifies lpc
    ensures lpc[j] == Mac13(old(lpc[j]), r, old(lpc[m])) && lpc[m] == Mac13(old(lpc[m]), r, old(lpc[j]))
    ensures forall k :: 0 <= k < lpc.Length && k != j && k != m ==> lpc[k] == old(lpc[k])
  {
    hide Mac13;
    if j < m {
      var tmp := lpc[j];
      lpc[j] := Mac13(lpc[j], r, lpc[m]);
      lpc[m] := Mac13(lpc[m], r, tmp);
    } else {
      Mac13Commutes(lpc[j], lpc[j], r);
      lpc[j] := Mac13(lpc[j], lpc[j], r);
    }
  }

  /** The update loop of _spx_lpc, pair by pair in place, and the one in the middle: every coefficient is
      corrected by its mirror image as if all at once. */
  method Reflect(lpc: array<int>, i: nat, r: int)
    requires i < lpc.Length
    modifies lpc
    ensures forall j :: 0 <= j < i ==> lpc[j] == Mac13(old(lpc[j]), r, old(lpc[i - 1 - j]))
    ensures lpc[i] == r && forall j :: i < j < lpc.Length ==> lpc[j] == old(lpc[j])
  {
    hide Mac13;
    ghost var was := lpc[..];
    lpc[i] := r;
    var j := 0;
    while j < i / 2
      invariant 0 <= j <= i / 2
      invariant forall k :: 0 <= k < i && (k < j || k >= i - j) ==> lpc[k] == Mac13(was[k], r, was[i - 1 - k])
      invariant forall k :: j <= k < i - j ==> lpc[k] == was[k]
      invariant lpc[i] == r && forall k :: i < k < lpc.Length ==> lpc[k] == was[k]
    {
      CorrectPair(lpc, j, i - 1 - j, r);
      j := j + 1;
    }
    if i % 2 == 1 {
      CorrectPair(lpc, j, j, r);
    }
  }
}
