/** The three-tap pitch predictor of libspeex, ltp.c, float build, in exact arithmetic. */
module Ltp {
  import opened Signals
  import opened Filters
  import opened OpenLoop
  import opened NBest
  import opened Taps
  import opened Powers

  /** The filters of one subframe, and the impulse response the searches work with. */
  datatype Lpcs = Lpcs(ak: seq<real>, awk1: seq<real>, awk2: seq<real>, r: seq<real>) {
    ghost predicate Valid() {
      |ak| == |awk1| == |awk2| >= 2
    }

    /** The response was not cut short, as it is at complexity 0. */
    ghost predicate Complete()
      requires Valid()
    {
      r == Response(ak, awk1, awk2, |r|)
    }
  }

  datatype LtpParams = LtpParams(gainCdbk: seq<int>, gainBits: nat, pitchBits: nat)

  datatype Gains = Gains(g0: real, g1: real, g2: real)

  predicate ValidParams(par: LtpParams) {
    |par.gainCdbk| == 3 * Pow2(par.gainBits)
  }

  // ----- the adaptive codebook -----

  /** The three taps mixed by their gains. */
  function Mix(g: Gains, e0: seq<real>, e1: seq<real>, e2: seq<real>): (m: seq<real>)
    requires |e0| == |e1| == |e2|
    ensures |m| == |e0|
    ensures forall j :: 0 <= j < |e0| ==> m[j] == Mul(g.g0, e2[j]) + Mul(g.g1, e1[j]) + Mul(g.g2, e0[j])
  {
    seq(|e0|, j requires 0 <= j < |e0| => Mul(g.g0, e2[j]) + Mul(g.g1, e1[j]) + Mul(g.g2, e0[j]))
  }

  /** The excitation of one pitch and one set of gains. */
  function Excitation(past: seq<real>, pitch: nat, g: Gains, nsf: nat): (e: seq<real>)
    requires 1 <= pitch && pitch + 1 <= |past|
    ensures |e| == nsf
  {
    Mix(g, Tap(past, 0.0, pitch, 0, nsf), Tap(past, 0.0, pitch, 1, nsf), Tap(past, 0.0, pitch, 2, nsf))
  }

  /** The gains of a codebook entry. */
  function GainsOf(cdbk: seq<int>, k: nat): (g: Gains)
    requires 3 * k + 2 < |cdbk|
  {
    Gains(0.015625 * (cdbk[3 * k] as real) + 0.5,
          0.015625 * (cdbk[3 * k + 1] as real) + 0.5,
          0.015625 * (cdbk[3 * k + 2] as real) + 0.5)
  }

  function SynOf(lpc: Lpcs, x: seq<real>): (y: seq<real>)
    requires lpc.Valid()
    ensures |y| == |x|
  {
    Syn(lpc.ak, lpc.awk1, lpc.awk2, x)
  }

  // ----- the gain codebook search -----

  /** The correlations the search works with, after the packet-loss weighting. */
  function Weighted(x0: seq<real>, x1: seq<real>, x2: seq<real>, target: seq<real>, plc: int): (c: seq<real>)
    requires |x0| == |x1| == |x2| == |target|
    ensures |c| == 9
  {
    WeightedBy(x0, x1, x2, target, if plc < 2 then 2.0 else plc as real, |target| / 4 * 4)
  }

  /** The same over the first n samples. */
  function WeightedBy(x0: seq<real>, x1: seq<real>, x2: seq<real>, target: seq<real>, t: real, n: nat): (c: seq<real>)
    requires n <= |x0| == |x1| == |x2| == |target|
    ensures |c| == 9
  {
    var lower, higher := 1.0 - 0.01 * t, 0.5 * (1.0 + 0.01 * t);
    [Mul(CrossDot(x2, 0, target, 0, n), lower), Mul(CrossDot(x1, 0, target, 0, n), lower),
     Mul(CrossDot(x0, 0, target, 0, n), lower),
     CrossDot(x2, 0, x1, 0, n), CrossDot(x1, 0, x0, 0, n), CrossDot(x2, 0, x0, 0, n),
     Mul(CrossDot(x2, 0, x2, 0, n), higher), Mul(CrossDot(x1, 0, x1, 0, n), higher),
     Mul(CrossDot(x0, 0, x0, 0, n), higher)]
  }

  /** How far a strong set of gains is held back. */
  function PitchControl(g0: real, g1: real, g2: real, plc: int): real {
    var t := if plc < 2 then 2 else plc;
    var sum := g1 + (if g0 > 0.0 then g0 else 0.0) + (if g2 > 0.0 then g2 else 0.0);
    if sum > 64.0 then
      var over := if sum - 64.0 > 127.0 then 127.0 else sum - 64.0;
      var pc := 64.0 * (1.0 - 0.001 * (t as real) * over);
      if pc < 0.0 then 0.0 else pc
    else 64.0
  }

  /** What the search maximises over the codebook entries. */
  function Objective(c: seq<real>, cdbk: seq<int>, k: nat, plc: int): real
    requires |c| == 9 && 3 * k + 2 < |cdbk|
  {
    var g0, g1, g2 := cdbk[3 * k] as real + 32.0, cdbk[3 * k + 1] as real + 32.0, cdbk[3 * k + 2] as real + 32.0;
    var pc := PitchControl(g0, g1, g2, plc);
    Mul(Mul(g0, pc), c[0]) + Mul(Mul(g1, pc), c[1]) + Mul(Mul(g2, pc), c[2])
    - Mul(Mul(g0, g1), c[3]) - Mul(Mul(g2, g1), c[4]) - Mul(Mul(g2, g0), c[5])
    - Mul(Mul(g0, g0), c[6]) - Mul(Mul(g1, g1), c[7]) - Mul(Mul(g2, g2), c[8])
  }

  /** The first entry with the greatest objective among the first n. */
  ghost predicate IsFirstBest(c: seq<real>, cdbk: seq<int>, plc: int, n: nat, best: nat) {
    && |c| == 9 && 3 * n <= |cdbk| && best < n
    && (forall k :: 0 <= k < n ==> Objective(c, cdbk, k, plc) <= Objective(c, cdbk, best, plc))
    && (forall k :: 0 <= k < best ==> Objective(c, cdbk, k, plc) < Objective(c, cdbk, best, plc))
  }

  /** That entry. */
  ghost function FirstBest(c: seq<real>, cdbk: seq<int>, plc: int, n: nat): (best: nat)
    requires |c| == 9 && 3 * n <= |cdbk| && 1 <= n
    ensures IsFirstBest(c, cdbk, plc, n, best)
  {
    if n == 1 then 0
    else
      var b := FirstBest(c, cdbk, plc, n - 1);
      if Objective(c, cdbk, n - 1, plc) > Objective(c, cdbk, b, plc) then n - 1 else b
  }

  /** The first best entry is determined. */
  lemma FirstBestIsUnique(c: seq<real>, cdbk: seq<int>, plc: int, n: nat, a: nat)
    requires IsFirstBest(c, cdbk, plc, n, a)
    ensures a == FirstBest(c, cdbk, plc, n)
  {
    hide Objective, FirstBest;
    var b := FirstBest(c, cdbk, plc, n);
    assert Objective(c, cdbk, a, plc) <= Objective(c, cdbk, b, plc);
    assert Objective(c, cdbk, b, plc) <= Objective(c, cdbk, a, plc);
  }

  // ----- what the search maximises -----

  /** Three gains against three numbers. */
  function Reach(g0: real, g1: real, g2: real, d0: real, d1: real, d2: real): real {
    Mul(g0, d0) + Mul(g1, d1) + Mul(g2, d2)
  }

  /** Their squares. */
  function Own(g0: real, g1: real, g2: real, q0: real, q1: real, q2: real): real {
    Mul(Mul(g0, g0), q0) + Mul(Mul(g1, g1), q1) + Mul(Mul(g2, g2), q2)
  }

  /** Their products, two by two. */
  function Shared(g0: real, g1: real, g2: real, q01: real, q12: real, q02: real): real {
    Mul(Mul(g0, g1), q01) + Mul(Mul(g2, g1), q12) + Mul(Mul(g2, g0), q02)
  }

  /** For a whole number of blocks of four samples: the objective of an entry is 2048 times the energy that its
      excitation explains of the target, less two allowances. One takes from what reaches towards the target the
      share of 64 that is held back, and one percent per unit of the packet-loss setting, which counts as 2 at
      least; the other charges half a percent per unit for the energy of the three scaled taps. Nothing is held
      back until the gains sum to more than 64. */
  lemma ObjectiveLaw(x0: seq<real>, x1: seq<real>, x2: seq<real>, target: seq<real>, cdbk: seq<int>, k: nat, plc: int)
    requires |x0| == |x1| == |x2| == |target| && |target| % 4 == 0 && 3 * k + 2 < |cdbk|
    ensures var g0, g1, g2 := cdbk[3 * k] as real + 32.0, cdbk[3 * k + 1] as real + 32.0, cdbk[3 * k + 2] as real + 32.0;
            var t := if plc < 2 then 2.0 else plc as real;
            var explained := Energy(target) - Energy(Minus(target, Mix(GainsOf(cdbk, k), x0, x1, x2)));
            Objective(Weighted(x0, x1, x2, target, plc), cdbk, k, plc)
            == 2048.0 * explained
               - Mul(64.0 - Mul(HeldBack(g0, g1, g2, t), 1.0 - 0.01 * t),
                     Reach(g0, g1, g2, Dot(x2, target), Dot(x1, target), Dot(x0, target)))
               - Mul(0.005 * t, Own(g0, g1, g2, Energy(x2), Energy(x1), Energy(x0)))
  {
    hide Mul, Mix, Weighted, Objective, HeldBack, Dot, Energy, Minus, GainsOf, Reach, Own, Shared;
    var g := GainsOf(cdbk, k);
    var g0, g1, g2 := cdbk[3 * k] as real + 32.0, cdbk[3 * k + 1] as real + 32.0, cdbk[3 * k + 2] as real + 32.0;
    var t := if plc < 2 then 2.0 else plc as real;
    ObjectiveParts(x0, x1, x2, target, cdbk, k, plc);
    MixExplains(g, x0, x1, x2, target);
    SixtyFourths(cdbk, k);
    ScaledParts(g, Dot(x2, target), Dot(x1, target), Dot(x0, target), Energy(x2), Energy(x1), Energy(x0),
                Dot(x2, x1), Dot(x1, x0), Dot(x2, x0));
  }

  /** What is left of 64 for gains that together exceed it. */
  function HeldBack(g0: real, g1: real, g2: real, t: real): real {
    var sum := g1 + (if g0 > 0.0 then g0 else 0.0) + (if g2 > 0.0 then g2 else 0.0);
    if sum <= 64.0 then 64.0
    else if sum >= 191.0 then (if 0.127 * t >= 1.0 then 0.0 else 64.0 - 8.128 * t)
    else if Mul(t, sum - 64.0) >= 1000.0 then 0.0
    else 64.0 - 0.064 * Mul(t, sum - 64.0)
  }

  lemma PitchControlIs(g0: real, g1: real, g2: real, plc: int)
    ensures PitchControl(g0, g1, g2, plc) == HeldBack(g0, g1, g2, if plc < 2 then 2.0 else plc as real)
  {
  }

  lemma SixtyFourths(cdbk: seq<int>, k: nat)
    requires 3 * k + 2 < |cdbk|
    ensures cdbk[3 * k] as real + 32.0 == 64.0 * GainsOf(cdbk, k).g0
    ensures cdbk[3 * k + 1] as real + 32.0 == 64.0 * GainsOf(cdbk, k).g1
    ensures cdbk[3 * k + 2] as real + 32.0 == 64.0 * GainsOf(cdbk, k).g2
  {
  }

  /** The same in units of the gains. */
  lemma ScaledParts(g: Gains, d0: real, d1: real, d2: real, q0: real, q1: real, q2: real, q01: real, q12: real, q02: real)
    ensures Reach(64.0 * g.g0, 64.0 * g.g1, 64.0 * g.g2, d0, d1, d2) == 64.0 * Reach(g.g0, g.g1, g.g2, d0, d1, d2)
    ensures Own(64.0 * g.g0, 64.0 * g.g1, 64.0 * g.g2, q0, q1, q2) == 4096.0 * Own(g.g0, g.g1, g.g2, q0, q1, q2)
    ensures Shared(64.0 * g.g0, 64.0 * g.g1, 64.0 * g.g2, q01, q12, q02) == 4096.0 * Shared(g.g0, g.g1, g.g2, q01, q12, q02)
  {
    hide Mul;
    TimesSixtyFour(g.g0, d0);
    TimesSixtyFour(g.g1, d1);
    TimesSixtyFour(g.g2, d2);
    TimesBoth(g.g0, g.g0, q0);
    TimesBoth(g.g1, g.g1, q1);
    TimesBoth(g.g2, g.g2, q2);
    TimesBoth(g.g0, g.g1, q01);
    TimesBoth(g.g2, g.g1, q12);
    TimesBoth(g.g2, g.g0, q02);
  }

  lemma TimesSixtyFour(u: real, d: real)
    ensures Mul(64.0 * u, d) == 64.0 * Mul(u, d)
  {
  }

  lemma TimesBoth(u: real, v: real, q: real)
    ensures Mul(Mul(64.0 * u, 64.0 * v), q) == 4096.0 * Mul(Mul(u, v), q)
  {
  }

  /** The objective, in inner products of whole signals. */
  lemma ObjectiveParts(x0: seq<real>, x1: seq<real>, x2: seq<real>, target: seq<real>, cdbk: seq<int>, k: nat, plc: int)
    requires |x0| == |x1| == |x2| == |target| && |target| % 4 == 0 && 3 * k + 2 < |cdbk|
    ensures var g0, g1, g2 := cdbk[3 * k] as real + 32.0, cdbk[3 * k + 1] as real + 32.0, cdbk[3 * k + 2] as real + 32.0;
            var t := if plc < 2 then 2.0 else plc as real;
            var reach := Reach(g0, g1, g2, Dot(x2, target), Dot(x1, target), Dot(x0, target));
            Objective(Weighted(x0, x1, x2, target, plc), cdbk, k, plc)
            == 64.0 * reach - Mul(64.0 - Mul(HeldBack(g0, g1, g2, t), 1.0 - 0.01 * t), reach)
               - Shared(g0, g1, g2, Dot(x2, x1), Dot(x1, x0), Dot(x2, x0))
               - 0.5 * Own(g0, g1, g2, Energy(x2), Energy(x1), Energy(x0))
               - Mul(0.005 * t, Own(g0, g1, g2, Energy(x2), Energy(x1), Energy(x0)))
  {
    hide Mul, Dot, Energy, Weighted, Objective, HeldBack, PitchControl;
    var g0, g1, g2 := cdbk[3 * k] as real + 32.0, cdbk[3 * k + 1] as real + 32.0, cdbk[3 * k + 2] as real + 32.0;
    var t := if plc < 2 then 2.0 else plc as real;
    WeightedIs(x0, x1, x2, target, plc);
    PitchControlIs(g0, g1, g2, plc);
    ObjectiveOf(Weighted(x0, x1, x2, target, plc), cdbk, k, plc,
                Dot(x2, target), Dot(x1, target), Dot(x0, target), Energy(x2), Energy(x1), Energy(x0));
  }

  lemma ObjectiveOf(c: seq<real>, cdbk: seq<int>, k: nat, plc: int,
                    d0: real, d1: real, d2: real, q0: real, q1: real, q2: real)
    requires |c| == 9 && 3 * k + 2 < |cdbk|
    requires var t := if plc < 2 then 2.0 else plc as real;
             var lower, higher := 1.0 - 0.01 * t, 0.5 * (1.0 + 0.01 * t);
             && c[0] == Mul(d0, lower) && c[1] == Mul(d1, lower) && c[2] == Mul(d2, lower)
             && c[6] == Mul(q0, higher) && c[7] == Mul(q1, higher) && c[8] == Mul(q2, higher)
    ensures var g0, g1, g2 := cdbk[3 * k] as real + 32.0, cdbk[3 * k + 1] as real + 32.0, cdbk[3 * k + 2] as real + 32.0;
            var t := if plc < 2 then 2.0 else plc as real;
            var reach := Reach(g0, g1, g2, d0, d1, d2);
            Objective(c, cdbk, k, plc)
            == 64.0 * reach - Mul(64.0 - Mul(PitchControl(g0, g1, g2, plc), 1.0 - 0.01 * t), reach)
               - Shared(g0, g1, g2, c[3], c[4], c[5]) - 0.5 * Own(g0, g1, g2, q0, q1, q2)
               - Mul(0.005 * t, Own(g0, g1, g2, q0, q1, q2))
  {
    hide Mul, PitchControl, Reach, Own;
    var g0, g1, g2 := cdbk[3 * k] as real + 32.0, cdbk[3 * k + 1] as real + 32.0, cdbk[3 * k + 2] as real + 32.0;
    var t := if plc < 2 then 2.0 else plc as real;
    ReachHeld(g0, g1, g2, d0, d1, d2, PitchControl(g0, g1, g2, plc), 1.0 - 0.01 * t);
    OwnCharged(g0, g1, g2, q0, q1, q2, t);
  }

  lemma ReachHeld(g0: real, g1: real, g2: real, d0: real, d1: real, d2: real, pc: real, lower: real)
    ensures Mul(Mul(g0, pc), Mul(d0, lower)) + Mul(Mul(g1, pc), Mul(d1, lower)) + Mul(Mul(g2, pc), Mul(d2, lower))
            == 64.0 * Reach(g0, g1, g2, d0, d1, d2) - Mul(64.0 - Mul(pc, lower), Reach(g0, g1, g2, d0, d1, d2))
  {
    hide Mul;
    HeldPart(g0, d0, pc, lower);
    HeldPart(g1, d1, pc, lower);
    HeldPart(g2, d2, pc, lower);
    ThreeParts(64.0 - Mul(pc, lower), Mul(g0, d0), Mul(g1, d1), Mul(g2, d2), Reach(g0, g1, g2, d0, d1, d2));
  }

  lemma HeldPart(g: real, d: real, pc: real, lower: real)
    ensures Mul(Mul(g, pc), Mul(d, lower)) == 64.0 * Mul(g, d) - Mul(64.0 - Mul(pc, lower), Mul(g, d))
  {
    assert (g * pc) * (d * lower) == (pc * lower) * (g * d);
  }

  lemma OwnCharged(g0: real, g1: real, g2: real, q0: real, q1: real, q2: real, t: real)
    ensures var higher := 0.5 * (1.0 + 0.01 * t);
            Mul(Mul(g0, g0), Mul(q0, higher)) + Mul(Mul(g1, g1), Mul(q1, higher)) + Mul(Mul(g2, g2), Mul(q2, higher))
            == 0.5 * Own(g0, g1, g2, q0, q1, q2) + Mul(0.005 * t, Own(g0, g1, g2, q0, q1, q2))
  {
    hide Mul;
    ChargedPart(Mul(g0, g0), q0, t);
    ChargedPart(Mul(g1, g1), q1, t);
    ChargedPart(Mul(g2, g2), q2, t);
    ThreeParts(0.005 * t, Mul(Mul(g0, g0), q0), Mul(Mul(g1, g1), q1), Mul(Mul(g2, g2), q2), Own(g0, g1, g2, q0, q1, q2));
  }

  lemma ChargedPart(p: real, q: real, t: real)
    ensures Mul(p, Mul(q, 0.5 * (1.0 + 0.01 * t))) == 0.5 * Mul(p, q) + Mul(0.005 * t, Mul(p, q))
  {
    assert p * (q * (0.5 * (1.0 + 0.01 * t))) == (p * q) * (0.5 * (1.0 + 0.01 * t));
  }

  lemma WeightedIs(x0: seq<real>, x1: seq<real>, x2: seq<real>, target: seq<real>, plc: int)
    requires |x0| == |x1| == |x2| == |target| && |target| % 4 == 0
    ensures var t := if plc < 2 then 2.0 else plc as real;
            var lower, higher := 1.0 - 0.01 * t, 0.5 * (1.0 + 0.01 * t);
            var c := Weighted(x0, x1, x2, target, plc);
            && c[0] == Mul(Dot(x2, target), lower) && c[1] == Mul(Dot(x1, target), lower) && c[2] == Mul(Dot(x0, target), lower)
            && c[3] == Dot(x2, x1) && c[4] == Dot(x1, x0) && c[5] == Dot(x2, x0)
            && c[6] == Mul(Energy(x2), higher) && c[7] == Mul(Energy(x1), higher) && c[8] == Mul(Energy(x0), higher)
  {
    hide Mul, Dot, Energy, CrossDot;
    assert |target| / 4 * 4 == |target|;
    WholeDot(x2, target);
    WholeDot(x1, target);
    WholeDot(x0, target);
    WholeDot(x2, x1);
    WholeDot(x1, x0);
    WholeDot(x2, x0);
    WholeDot(x2, x2);
    WholeDot(x1, x1);
    WholeDot(x0, x0);
    EnergyIsDot(x2);
    EnergyIsDot(x1);
    EnergyIsDot(x0);
  }

  lemma WholeDot(x: seq<real>, y: seq<real>)
    requires |x| == |y|
    ensures CrossDot(x, 0, y, 0, |x|) == Dot(x, y)
  {
    CrossDotIs(x, y, |x|);
    assert x[..|x|] == x && y[..|y|] == y;
  }

  lemma {:induction false} CrossDotIs(x: seq<real>, y: seq<real>, n: nat)
    requires n <= |x| == |y|
    ensures CrossDot(x, 0, y, 0, n) == Dot(x[..n], y[..n])
  {
    hide Mul;
    if n > 0 {
      CrossDotIs(x, y, n - 1);
      assert x[..n][..n - 1] == x[..n - 1] && y[..n][..n - 1] == y[..n - 1];
    }
  }

  /** What a mixture explains of a target, by inner products. */
  lemma MixExplains(g: Gains, x0: seq<real>, x1: seq<real>, x2: seq<real>, target: seq<real>)
    requires |x0| == |x1| == |x2| == |target|
    ensures Energy(target) - Energy(Minus(target, Mix(g, x0, x1, x2)))
            == 2.0 * Reach(g.g0, g.g1, g.g2, Dot(x2, target), Dot(x1, target), Dot(x0, target))
               - Own(g.g0, g.g1, g.g2, Energy(x2), Energy(x1), Energy(x0))
               - 2.0 * Shared(g.g0, g.g1, g.g2, Dot(x2, x1), Dot(x1, x0), Dot(x2, x0))
  {
    hide Mul, Dot, Energy, Mix, Minus, Own, Shared;
    EnergyOfDifference(target, Mix(g, x0, x1, x2));
    DotMix(g, x0, x1, x2, target);
    EnergyOfMix(g, x0, x1, x2);
  }

  lemma EnergyOfMix(g: Gains, x0: seq<real>, x1: seq<real>, x2: seq<real>)
    requires |x0| == |x1| == |x2|
    ensures Energy(Mix(g, x0, x1, x2))
            == Own(g.g0, g.g1, g.g2, Energy(x2), Energy(x1), Energy(x0))
               + 2.0 * Shared(g.g0, g.g1, g.g2, Dot(x2, x1), Dot(x1, x0), Dot(x2, x0))
  {
    hide Mul, Dot, Energy, Mix, Own, Shared;
    var m := Mix(g, x0, x1, x2);
    DotMix(g, x0, x1, x2, m);
    DotMix(g, x0, x1, x2, x0);
    DotMix(g, x0, x1, x2, x1);
    DotMix(g, x0, x1, x2, x2);
    EnergyByDots(g, x0, x1, x2, m);
  }

  lemma EnergyByDots(g: Gains, x0: seq<real>, x1: seq<real>, x2: seq<real>, m: seq<real>)
    requires |x0| == |x1| == |x2| == |m|
    requires Dot(m, m) == Mul(g.g0, Dot(x2, m)) + Mul(g.g1, Dot(x1, m)) + Mul(g.g2, Dot(x0, m))
    requires Dot(x0, m) == Mul(g.g0, Dot(x2, x0)) + Mul(g.g1, Dot(x1, x0)) + Mul(g.g2, Dot(x0, x0))
    requires Dot(x1, m) == Mul(g.g0, Dot(x2, x1)) + Mul(g.g1, Dot(x1, x1)) + Mul(g.g2, Dot(x0, x1))
    requires Dot(x2, m) == Mul(g.g0, Dot(x2, x2)) + Mul(g.g1, Dot(x1, x2)) + Mul(g.g2, Dot(x0, x2))
    ensures Energy(m) == Own(g.g0, g.g1, g.g2, Energy(x2), Energy(x1), Energy(x0))
                         + 2.0 * Shared(g.g0, g.g1, g.g2, Dot(x2, x1), Dot(x1, x0), Dot(x2, x0))
  {
    hide Mul, Dot, Energy, Own, Shared;
    EnergyIsDot(m);
    EnergyIsDot(x0);
    EnergyIsDot(x1);
    EnergyIsDot(x2);
    DotCommutes(x2, x1);
    DotCommutes(x1, x0);
    DotCommutes(x2, x0);
    SquareOfMix(g, Dot(x2, x2), Dot(x1, x1), Dot(x0, x0), Dot(x2, x1), Dot(x1, x0), Dot(x2, x0),
                Dot(x2, m), Dot(x1, m), Dot(x0, m));
  }

  lemma SquareOfMix(g: Gains, q0: real, q1: real, q2: real, q01: real, q12: real, q02: real, m0: real, m1: real, m2: real)
    requires m0 == Mul(g.g0, q0) + Mul(g.g1, q01) + Mul(g.g2, q02)
    requires m1 == Mul(g.g0, q01) + Mul(g.g1, q1) + Mul(g.g2, q12)
    requires m2 == Mul(g.g0, q02) + Mul(g.g1, q12) + Mul(g.g2, q2)
    ensures Mul(g.g0, m0) + Mul(g.g1, m1) + Mul(g.g2, m2)
            == Own(g.g0, g.g1, g.g2, q0, q1, q2) + 2.0 * Shared(g.g0, g.g1, g.g2, q01, q12, q02)
  {
    hide Mul;
    ThreeParts(g.g0, Mul(g.g0, q0), Mul(g.g1, q01), Mul(g.g2, q02), m0);
    ThreeParts(g.g1, Mul(g.g0, q01), Mul(g.g1, q1), Mul(g.g2, q12), m1);
    ThreeParts(g.g2, Mul(g.g0, q02), Mul(g.g1, q12), Mul(g.g2, q2), m2);
    MulAssociates(g.g0, g.g0, q0);
    MulAssociates(g.g1, g.g1, q1);
    MulAssociates(g.g2, g.g2, q2);
    MulAssociates(g.g0, g.g1, q01);
    MulAssociates(g.g2, g.g1, q12);
    MulAssociates(g.g2, g.g0, q02);
  }

  lemma ThreeParts(c: real, u: real, v: real, w: real, m: real)
    requires m == u + v + w
    ensures Mul(c, m) == Mul(c, u) + Mul(c, v) + Mul(c, w)
  {
    MulPlus(c, u + v, w);
    MulPlus(c, u, v);
  }

  /** The inner product of a mixture with a signal. */
  lemma DotMix(g: Gains, x0: seq<real>, x1: seq<real>, x2: seq<real>, y: seq<real>)
    requires |x0| == |x1| == |x2| == |y|
    ensures Dot(Mix(g, x0, x1, x2), y) == Mul(g.g0, Dot(x2, y)) + Mul(g.g1, Dot(x1, y)) + Mul(g.g2, Dot(x0, y))
    ensures Dot(y, Mix(g, x0, x1, x2)) == Dot(Mix(g, x0, x1, x2), y)
  {
    hide Mul, Dot;
    var a, b, c := Scale(g.g0, x2), Scale(g.g1, x1), Scale(g.g2, x0);
    assert Mix(g, x0, x1, x2) == Plus(Plus(a, b), c);
    DotPlus(y, Plus(a, b), c);
    DotPlus(y, a, b);
    DotScale(y, g.g0, x2);
    DotScale(y, g.g1, x1);
    DotScale(y, g.g2, x0);
    DotCommutes(y, x2);
    DotCommutes(y, x1);
    DotCommutes(y, x0);
    DotCommutes(y, Mix(g, x0, x1, x2));
  }

  /** The codebook loop of pitch_gain_search_3tap. */
  method SearchGains(c: seq<real>, cdbk: seq<int>, size: nat, plc: int) returns (best: nat)
    requires |c| == 9 && 1 <= size && |cdbk| == 3 * size
    ensures IsFirstBest(c, cdbk, plc, size, best)
  {
    hide Objective;
    best := 0;
    var bestSum := 0.0;
    for i := 0 to size
      invariant best < size
      invariant i > 0 ==> IsFirstBest(c, cdbk, plc, i, best) && bestSum == Objective(c, cdbk, best, plc)
    {
      var sum := Objective(c, cdbk, i, plc);
      if sum > bestSum || i == 0 {
        bestSum := sum;
        best := i;
      }
    }
  }

  // ----- pitch_gain_search_3tap -----

  /** The response of tap i from that of tap i + 1: shifted by one sample, plus the impulse response
      scaled by the sample that came in front. */
  method ShiftAndAdd(prev: array<real>, r: seq<real>, e0: real, nsf: nat) returns (x: array<real>)
    requires 1 <= nsf == prev.Length && nsf <= |r|
    ensures fresh(x) && x[..] == Plus(Delay(prev[..]), Scale(e0, r[..nsf]))
  {
    hide Mul;
    x := ShiftByOne(prev, nsf);
    AddScaled(x, r, e0, nsf);
  }

  method ShiftByOne(prev: array<real>, nsf: nat) returns (x: array<real>)
    requires 1 <= nsf == prev.Length
    ensures fresh(x) && x[..] == Delay(prev[..])
  {
    x := new real[nsf];
    for j := 0 to nsf - 1
      invariant forall t :: 1 <= t <= j ==> x[t] == prev[t - 1]
      modifies x
    {
      x[j + 1] := prev[j];
    }
    x[0] := 0.0;
  }

  method AddScaled(x: array<real>, r: seq<real>, e0: real, nsf: nat)
    requires nsf == x.Length && nsf <= |r|
    modifies x
    ensures x[..] == Plus(old(x[..]), Scale(e0, r[..nsf]))
  {
    hide Mul;
    for j := 0 to nsf
      invariant forall t :: 0 <= t < j ==> x[t] == old(x[t]) + Mul(e0, r[t])
      invariant forall t :: j <= t < nsf ==> x[t] == old(x[t])
    {
      MulCommutes(r[j], e0);
      x[j] := x[j] + Mul(r[j], e0);
    }
  }

  lemma TapShifts(past: seq<real>, pitch: nat, i: nat, nsf: nat)
    requires i < 2 && 1 <= pitch && pitch + 1 <= |past|
    ensures forall j :: 1 <= j < nsf ==> Tap(past, 0.0, pitch, i, nsf)[j] == Tap(past, 0.0, pitch, i + 1, nsf)[j - 1]
  {
  }

  function TapOf(past: seq<real>, pitch: nat, i: nat, nsf: nat): (e: seq<real>)
    requires i <= 2 && 1 <= pitch && pitch + 1 <= |past|
    ensures |e| == nsf
  {
    Tap(past, 0.0, pitch, i, nsf)
  }

  /** The response of tap i as the recursion gives it: tap 2 is filtered, and every other is shifted
      from the one after it, plus the impulse response scaled by the sample that came in front. */
  function TapResponse(lpc: Lpcs, past: seq<real>, pitch: nat, i: nat): (x: seq<real>)
    requires lpc.Valid() && i <= 2 && 1 <= pitch && pitch + 1 <= |past| && lpc.r != []
    ensures |x| == |lpc.r|
    decreases 2 - i
  {
    var e := TapOf(past, pitch, i, |lpc.r|);
    if i == 2 then SynOf(lpc, e) else Plus(Delay(TapResponse(lpc, past, pitch, i + 1)), Scale(e[0], lpc.r))
  }

  /** With a complete impulse response, that is what filtering the tap would have given. */
  lemma {:induction false} TapResponseIsFiltered(lpc: Lpcs, past: seq<real>, pitch: nat, i: nat)
    requires lpc.Valid() && i <= 2 && 1 <= pitch && pitch + 1 <= |past| && lpc.r != [] && lpc.Complete()
    ensures TapResponse(lpc, past, pitch, i) == SynOf(lpc, TapOf(past, pitch, i, |lpc.r|))
    decreases 2 - i
  {
    hide Syn, Response, Tap;
    if i < 2 {
      TapResponseIsFiltered(lpc, past, pitch, i + 1);
      TapShifts(past, pitch, i, |lpc.r|);
      SynShiftAndAdd(lpc.ak, lpc.awk1, lpc.awk2, TapOf(past, pitch, i + 1, |lpc.r|), TapOf(past, pitch, i, |lpc.r|));
    }
  }

  /** The three responses: one filtered, two by shifting and adding. */
  method Responses(lpc: Lpcs, e0: array<real>, e1: array<real>, e2: array<real>, nsf: nat,
                   ghost past: seq<real>, ghost pitch: nat)
    returns (x0: array<real>, x1: array<real>, x2: array<real>)
    requires lpc.Valid() && 1 <= nsf == |lpc.r| && 1 <= pitch && pitch + 1 <= |past|
    requires e0[..] == TapOf(past, pitch, 0, nsf) && e1[..] == TapOf(past, pitch, 1, nsf) && e2[..] == TapOf(past, pitch, 2, nsf)
    ensures fresh(x0) && fresh(x1) && fresh(x2)
    ensures x0[..] == TapResponse(lpc, past, pitch, 0) && x1[..] == TapResponse(lpc, past, pitch, 1)
    ensures x2[..] == TapResponse(lpc, past, pitch, 2)
  {
    hide Syn, TapOf;
    x2 := new real[nsf];
    assert e2.Length == |e2[..]| == nsf && e1.Length == |e1[..]| == nsf && e0.Length == |e0[..]| == nsf;
    ghost var t2 := e2[..];
    SynPercepZero(e2, lpc.ak, lpc.awk1, lpc.awk2, x2, nsf, |lpc.ak| - 1);
    assert x2[..nsf] == x2[..] && e2[..nsf] == t2;
    assert lpc.r[..nsf] == lpc.r;
    x1 := ShiftAndAdd(x2, lpc.r, e1[0], nsf);
    x0 := ShiftAndAdd(x1, lpc.r, e0[0], nsf);
  }

  /** The response to the mixed excitation is the mix of the responses. */
  lemma SynOfMix(lpc: Lpcs, g: Gains, e0: seq<real>, e1: seq<real>, e2: seq<real>)
    requires lpc.Valid() && |e0| == |e1| == |e2|
    ensures SynOf(lpc, Mix(g, e0, e1, e2)) == Mix(g, SynOf(lpc, e0), SynOf(lpc, e1), SynOf(lpc, e2))
  {
    hide Mul, Syn;
    var a, b, c := Scale(g.g0, e2), Scale(g.g1, e1), Scale(g.g2, e0);
    assert Mix(g, e0, e1, e2) == Plus(Plus(a, b), c);
    SynPlus(lpc.ak, lpc.awk1, lpc.awk2, Plus(a, b), c);
    SynPlus(lpc.ak, lpc.awk1, lpc.awk2, a, b);
    SynScale(lpc.ak, lpc.awk1, lpc.awk2, g.g0, e2);
    SynScale(lpc.ak, lpc.awk1, lpc.awk2, g.g1, e1);
    SynScale(lpc.ak, lpc.awk1, lpc.awk2, g.g2, e0);
    var x0, x1, x2 := SynOf(lpc, e0), SynOf(lpc, e1), SynOf(lpc, e2);
    assert Plus(Plus(Scale(g.g0, x2), Scale(g.g1, x1)), Scale(g.g2, x0)) == Mix(g, x0, x1, x2);
  }

  /** What the search keeps for one pitch. */
  datatype Trial = Trial(gainIndex: nat, exc: seq<real>, target: seq<real>, err: real)

  /** The correlations of the search for one pitch. */
  ghost function CorrelationsOf(lpc: Lpcs, past: seq<real>, pitch: nat, target: seq<real>, plc: int): (c: seq<real>)
    requires lpc.Valid() && 1 <= pitch && pitch + 1 <= |past| && 1 <= |lpc.r| == |target|
    ensures |c| == 9
  {
    Weighted(TapResponse(lpc, past, pitch, 0), TapResponse(lpc, past, pitch, 1), TapResponse(lpc, past, pitch, 2), target, plc)
  }

  /** The response the search works with for one pitch and set of gains. */
  function MixedResponse(lpc: Lpcs, past: seq<real>, pitch: nat, g: Gains): (y: seq<real>)
    requires lpc.Valid() && 1 <= pitch && pitch + 1 <= |past| && lpc.r != []
    ensures |y| == |lpc.r|
  {
    Mix(g, TapResponse(lpc, past, pitch, 0), TapResponse(lpc, past, pitch, 1), TapResponse(lpc, past, pitch, 2))
  }

  /** The trial of one pitch: the first best gains, the excitation they give, the target that the
      response leaves unexplained, and the energy of that. */
  ghost function TrialOf(lpc: Lpcs, par: LtpParams, past: seq<real>, pitch: nat, target: seq<real>, plc: int): (t: Trial)
    requires lpc.Valid() && ValidParams(par) && 1 <= pitch && pitch + 1 <= |past| && 1 <= |lpc.r| == |target|
    ensures |t.exc| == |t.target| == |target| && t.gainIndex < Pow2(par.gainBits) && t.err >= 0.0
  {
    var best := FirstBest(CorrelationsOf(lpc, past, pitch, target, plc), par.gainCdbk, plc, Pow2(par.gainBits));
    var g := GainsOf(par.gainCdbk, best);
    var rest := Minus(target, MixedResponse(lpc, past, pitch, g));
    EnergyNonNegative(rest);
    Trial(best, Excitation(past, pitch, g, |target|), rest, Energy(rest))
  }

  /** With a complete impulse response, what is left is the target less the filtered excitation. */
  lemma TrialIsFiltered(lpc: Lpcs, par: LtpParams, past: seq<real>, pitch: nat, target: seq<real>, plc: int)
    requires lpc.Valid() && ValidParams(par) && 1 <= pitch && pitch + 1 <= |past| && 1 <= |lpc.r| == |target|
    requires lpc.Complete()
    ensures var t := TrialOf(lpc, par, past, pitch, target, plc);
            t.target == Minus(target, SynOf(lpc, t.exc))
  {
    hide Mul, Syn, Response, TapResponse, Tap, CorrelationsOf, FirstBest, GainsOf, Pow2;
    var nsf := |target|;
    var g := GainsOf(par.gainCdbk, TrialOf(lpc, par, past, pitch, target, plc).gainIndex);
    TapResponseIsFiltered(lpc, past, pitch, 0);
    TapResponseIsFiltered(lpc, past, pitch, 1);
    TapResponseIsFiltered(lpc, past, pitch, 2);
    SynOfMix(lpc, g, TapOf(past, pitch, 0, nsf), TapOf(past, pitch, 1, nsf), TapOf(past, pitch, 2, nsf));
  }

  /** pitch_gain_search_3tap. The excitation read and the excitation written share one buffer, as
      they do in the encoder: the subframe starts at o. */
  method PitchGainSearch(lpc: Lpcs, par: LtpParams, buf: array<real>, o: nat, pitch: nat, nsf: nat,
                         target: seq<real>, newTarget: array<real>, plc: int)
    returns (gainIndex: nat, err: real)
    requires lpc.Valid() && ValidParams(par) && 1 <= pitch && pitch + 1 <= o && o + nsf <= buf.Length
    requires 1 <= nsf == |lpc.r| == |target| == newTarget.Length && newTarget != buf
    modifies buf, newTarget
    ensures Trial(gainIndex, buf[o..o + nsf], newTarget[..], err) == TrialOf(lpc, par, old(buf[..o]), pitch, target, plc)
    ensures buf[..o] == old(buf[..o]) && buf[o + nsf..] == old(buf[o + nsf..])
  {
    hide Mul, Weighted, Objective, Tap, TapResponse, FirstBest, Pow2, GainsOf;
    ghost var past := buf[..o];
    var e0 := BuildTap(buf, 0.0, o, pitch, 0, nsf);
    var e1 := BuildTap(buf, 0.0, o, pitch, 1, nsf);
    var e2 := BuildTap(buf, 0.0, o, pitch, 2, nsf);
    var x0, x1, x2 := Responses(lpc, e0, e1, e2, nsf, past, pitch);
    var c := Weighted(x0[..], x1[..], x2[..], target, plc);
    gainIndex := SearchGains(c, par.gainCdbk, Pow2(par.gainBits), plc);
    FirstBestIsUnique(c, par.gainCdbk, plc, Pow2(par.gainBits), gainIndex);
    var g := GainsOf(par.gainCdbk, gainIndex);
    WriteMix(g, e0, e1, e2, buf, o, nsf);
    err := Explain(g, x0, x1, x2, target, newTarget, nsf);
  }

  /** The loop that writes the mixed excitation. */
  method WriteMix(g: Gains, e0: array<real>, e1: array<real>, e2: array<real>, buf: array<real>, o: nat, nsf: nat)
    requires e0.Length == e1.Length == e2.Length == nsf && o + nsf <= buf.Length
    requires buf != e0 && buf != e1 && buf != e2
    modifies buf
    ensures buf[o..o + nsf] == Mix(g, e0[..], e1[..], e2[..])
    ensures buf[..o] == old(buf[..o]) && buf[o + nsf..] == old(buf[o + nsf..])
  {
    hide Mul;
    for i := 0 to nsf
      invariant forall t :: 0 <= t < i ==> buf[o + t] == Mix(g, e0[..], e1[..], e2[..])[t]
      invariant forall t :: 0 <= t < o || o + nsf <= t < buf.Length ==> buf[t] == old(buf[t])
    {
      buf[o + i] := Mul(g.g0, e2[i]) + Mul(g.g1, e1[i]) + Mul(g.g2, e0[i]);
    }
  }

  /** The loop that subtracts the response from the target and sums the squares. */
  method Explain(g: Gains, x0: array<real>, x1: array<real>, x2: array<real>, target: seq<real>,
                 newTarget: array<real>, nsf: nat) returns (err: real)
    requires x0.Length == x1.Length == x2.Length == nsf == |target| == newTarget.Length
    requires newTarget != x0 && newTarget != x1 && newTarget != x2
    modifies newTarget
    ensures newTarget[..] == Minus(target, Mix(g, x0[..], x1[..], x2[..]))
    ensures err == Energy(newTarget[..])
  {
    hide Mul;
    err := 0.0;
    ghost var d := Minus(target, Mix(g, x0[..], x1[..], x2[..]));
    for i := 0 to nsf
      invariant forall t :: 0 <= t < i ==> newTarget[t] == d[t]
      invariant err == Energy(d[..i])
    {
      var tmp := Mul(g.g2, x0[i]) + Mul(g.g1, x1[i]) + Mul(g.g0, x2[i]);
      newTarget[i] := target[i] - tmp;
      err := err + Mul(newTarget[i], newTarget[i]);
      assert d[..i + 1][..i] == d[..i];
    }
    assert d[..nsf] == d && newTarget[..] == d;
  }

  // ----- pitch_search_3tap -----

  /** The error of trying one pitch. */
  ghost function ErrorOf(lpc: Lpcs, par: LtpParams, past: seq<real>, pitch: int, target: seq<real>, plc: int): real
    requires lpc.Valid() && ValidParams(par) && 1 <= pitch && pitch + 1 <= |past| && 1 <= |lpc.r| == |target|
  {
    TrialOf(lpc, par, past, pitch, target, plc).err
  }

  /** Number k is the first of the candidate pitches with the least error. */
  ghost predicate IsBestPitch(lpc: Lpcs, par: LtpParams, past: seq<real>, cands: seq<int>, target: seq<real>, plc: int,
                              n: nat, k: nat)
    requires lpc.Valid() && ValidParams(par) && n <= |cands|
    requires 1 <= |lpc.r| == |target| && forall j :: 0 <= j < |cands| ==> 1 <= cands[j] && cands[j] + 1 <= |past|
  {
    && k < n
    && (forall j :: 0 <= j < n ==> ErrorOf(lpc, par, past, cands[k], target, plc) <= ErrorOf(lpc, par, past, cands[j], target, plc))
    && (forall j :: 0 <= j < k ==> ErrorOf(lpc, par, past, cands[k], target, plc) < ErrorOf(lpc, par, past, cands[j], target, plc))
  }

  /** The number of pitches the encoder tries. */
  function Tries(complexity: int, start: nat, end: nat): (n: nat)
    requires start <= end
    ensures 1 <= n <= 10 && n <= end - start + 1
    ensures complexity < n ==> n == 1
    ensures n < complexity ==> n == 10 || n == end - start + 1
  {
    var c := if complexity > 10 then 10 else if complexity < 1 then 1 else complexity;
    if c > end - start + 1 then end - start + 1 else c
  }

  /** The pitches it tries: the open-loop favourites. */
  ghost function Favourites(sw: seq<real>, so: nat, start: nat, end: nat, len: nat, n: nat): (c: seq<int>)
    requires start <= end < so && so + len <= |sw| && 1 <= n <= end - start + 1
    ensures |c| == n
    ensures forall k :: 0 <= k < n ==> start <= c[k] <= end
  {
    var lags := Lags(sw, so, start, end - start + 1, len);
    PitchesAreNBest(sw, so, start, end, len, n);
    var kept := Kept(lags, n);
    assert forall k :: 0 <= k < n ==> kept[k] in lags;
    seq(n, k requires 0 <= k < n => kept[k].tag)
  }

  /** No pitch is tried twice. */
  lemma FavouritesDiffer(sw: seq<real>, so: nat, start: nat, end: nat, len: nat, n: nat, i: nat, j: nat)
    requires start <= end < so && so + len <= |sw| && 1 <= n <= end - start + 1 && i < j < n
    ensures Favourites(sw, so, start, end, len, n)[i] != Favourites(sw, so, start, end, len, n)[j]
  {
    hide Kept, Score;
    var lags := Lags(sw, so, start, end - start + 1, len);
    var kept := Kept(lags, n);
    PitchesAreNBest(sw, so, start, end, len, n);
    assert Before(kept[i], kept[j]);
    assert kept[i] in lags && kept[j] in lags;
    var a :| 0 <= a < |lags| && lags[a] == kept[i];
    var b :| 0 <= b < |lags| && lags[b] == kept[j];
  }

  /** The pitch returned is the last one tried. It is the pitch kept exactly when the last try is
      strictly better than every other. */
  lemma LastIsKept(lpc: Lpcs, par: LtpParams, past: seq<real>, cands: seq<int>, target: seq<real>, plc: int, k: nat)
    requires lpc.Valid() && ValidParams(par) && 1 <= |lpc.r| == |target|
    requires forall j :: 0 <= j < |cands| ==> 1 <= cands[j] && cands[j] + 1 <= |past|
    requires forall i, j :: 0 <= i < j < |cands| ==> cands[i] != cands[j]
    requires IsBestPitch(lpc, par, past, cands, target, plc, |cands|, k)
    ensures cands[k] == cands[|cands| - 1] <==> LastIsBest(lpc, par, past, cands, target, plc)
  {
    hide ErrorOf;
  }

  /** The last try is strictly better than every other. */
  ghost predicate LastIsBest(lpc: Lpcs, par: LtpParams, past: seq<real>, cands: seq<int>, target: seq<real>, plc: int)
    requires lpc.Valid() && ValidParams(par) && 1 <= |lpc.r| == |target| && cands != []
    requires forall j :: 0 <= j < |cands| ==> 1 <= cands[j] && cands[j] + 1 <= |past|
  {
    forall j :: 0 <= j < |cands| - 1 ==>
      ErrorOf(lpc, par, past, cands[|cands| - 1], target, plc) < ErrorOf(lpc, par, past, cands[j], target, plc)
  }

  /** On a silent past, as at the start of a stream, every pitch leaves the whole target. */
  lemma SilentPastExplainsNothing(lpc: Lpcs, par: LtpParams, past: seq<real>, pitch: nat, target: seq<real>, plc: int)
    requires lpc.Valid() && ValidParams(par) && 1 <= pitch && pitch + 1 <= |past| && 1 <= |lpc.r| == |target|
    requires past == Zeros(|past|)
    ensures ErrorOf(lpc, par, past, pitch, target, plc) == Energy(target)
  {
    hide Mul, TrialOf, GainsOf, Pow2, MixedResponse, Energy, Minus;
    TrialError(lpc, par, past, pitch, target, plc);
    SilentMixedResponse(lpc, past, pitch, GainsOf(par.gainCdbk, TrialOf(lpc, par, past, pitch, target, plc).gainIndex));
    MinusNothing(target);
  }

  lemma TrialError(lpc: Lpcs, par: LtpParams, past: seq<real>, pitch: nat, target: seq<real>, plc: int)
    requires lpc.Valid() && ValidParams(par) && 1 <= pitch && pitch + 1 <= |past| && 1 <= |lpc.r| == |target|
    ensures var t := TrialOf(lpc, par, past, pitch, target, plc);
            t.err == Energy(Minus(target, MixedResponse(lpc, past, pitch, GainsOf(par.gainCdbk, t.gainIndex))))
  {
    hide Mul, CorrelationsOf, FirstBest, GainsOf, Pow2, Excitation, MixedResponse, Energy, Minus;
  }

  lemma MinusNothing(x: seq<real>)
    ensures Minus(x, Zeros(|x|)) == x
  {
  }

  lemma SilentMixedResponse(lpc: Lpcs, past: seq<real>, pitch: nat, g: Gains)
    requires lpc.Valid() && 1 <= pitch && pitch + 1 <= |past| && lpc.r != [] && past == Zeros(|past|)
    ensures MixedResponse(lpc, past, pitch, g) == Zeros(|lpc.r|)
  {
    hide Mul, Mix, TapResponse;
    SilentResponse(lpc, past, pitch, 0);
    SilentResponse(lpc, past, pitch, 1);
    SilentResponse(lpc, past, pitch, 2);
    SilentMix(g, |lpc.r|);
  }

  lemma SilentMix(g: Gains, n: nat)
    ensures Mix(g, Zeros(n), Zeros(n), Zeros(n)) == Zeros(n)
  {
    MulUnits(g.g0);
    MulUnits(g.g1);
    MulUnits(g.g2);
  }

  lemma {:induction false} SilentResponse(lpc: Lpcs, past: seq<real>, pitch: nat, i: nat)
    requires lpc.Valid() && i <= 2 && 1 <= pitch && pitch + 1 <= |past| && lpc.r != [] && past == Zeros(|past|)
    ensures TapResponse(lpc, past, pitch, i) == Zeros(|lpc.r|)
    decreases 2 - i
  {
    hide Mul, Syn;
    var n := |lpc.r|;
    assert TapOf(past, pitch, i, n) == Zeros(n);
    if i == 2 {
      SynScale(lpc.ak, lpc.awk1, lpc.awk2, 0.0, Zeros(n));
      NoScale(Zeros(n));
      NoScale(SynOf(lpc, Zeros(n)));
    } else {
      SilentResponse(lpc, past, pitch, i + 1);
      NoScale(lpc.r);
      assert Plus(Delay(Zeros(n)), Zeros(n)) == Zeros(n);
    }
  }

  lemma NoScale(x: seq<real>)
    ensures Scale(0.0, x) == Zeros(|x|)
  {
    forall j | 0 <= j < |x|
      ensures Scale(0.0, x)[j] == 0.0
    {
      MulUnits(x[j]);
    }
  }

  /** On a silent past the first pitch is kept and the last is returned. */
  lemma SilentPastKeepsFirst(lpc: Lpcs, par: LtpParams, past: seq<real>, cands: seq<int>, target: seq<real>, plc: int)
    requires lpc.Valid() && ValidParams(par) && 1 <= |lpc.r| == |target| && cands != []
    requires forall j :: 0 <= j < |cands| ==> 1 <= cands[j] && cands[j] + 1 <= |past|
    requires past == Zeros(|past|)
    ensures LastIsBest(lpc, par, past, cands, target, plc) <==> |cands| == 1
  {
    hide ErrorOf;
    forall j | 0 <= j < |cands|
      ensures ErrorOf(lpc, par, past, cands[j], target, plc) == Energy(target)
    {
      SilentPastExplainsNothing(lpc, par, past, cands[j], target, plc);
    }
    if |cands| > 1 {
      assert ErrorOf(lpc, par, past, cands[0], target, plc) == Energy(target);
    }
  }

  /** pitch_search_3tap: what it packs, what it leaves in the excitation, what it leaves in the target.
      It returns the last pitch tried, which is the one it kept exactly when the last try was strictly
      better than every other; so it is where only one is tried, and on a silent past it is not otherwise. */
  method PitchSearch(lpc: Lpcs, par: LtpParams, buf: array<real>, o: nat, sw: seq<real>, so: nat, start: nat, end: nat,
                     nsf: nat, target: array<real>, complexity: int, plc: int)
    returns (pitch: int, pitchIndex: nat, gainIndex: nat)
    requires lpc.Valid() && ValidParams(par) && 1 <= start && end + 1 <= o && o + nsf <= buf.Length
    requires end < so && so + nsf <= |sw| && 0 < nsf == |lpc.r| == target.Length && nsf % 4 == 0 && target != buf
    modifies buf, target
    ensures buf[..o] == old(buf[..o]) && buf[o + nsf..] == old(buf[o + nsf..])
    ensures end < start ==>
              && pitch == start && pitchIndex == 0 && gainIndex == 0
              && buf[o..o + nsf] == Zeros(nsf) && target[..] == old(target[..])
    ensures start <= end ==>
              var cands := Favourites(sw, so, start, end, nsf, Tries(complexity, start, end));
              var kept := pitchIndex + start;
              && pitch == cands[|cands| - 1]
              && kept <= end
              && (pitch == kept <==> LastIsBest(lpc, par, old(buf[..o]), cands, old(target[..]), plc))
              && (exists k: nat :: IsBestPitch(lpc, par, old(buf[..o]), cands, old(target[..]), plc, |cands|, k) && cands[k] == kept)
              && var t := TrialOf(lpc, par, old(buf[..o]), kept, old(target[..]), plc);
                 gainIndex == t.gainIndex && buf[o..o + nsf] == t.exc && target[..] == t.target
    ensures start <= end && Tries(complexity, start, end) == 1 ==> pitch == pitchIndex + start
    ensures start <= end && Tries(complexity, start, end) > 1 && old(buf[..o]) == Zeros(o) ==> pitch != pitchIndex + start
  {
    hide Mul, TrialOf, Tap, Kept, Pow2, Excitation, GainsOf, Favourites, LastIsBest, ErrorOf;
    if end < start {
      ClearSubframe(buf, 0.0, o, nsf);
      return start, 0, 0;
    }
    var n := Tries(complexity, start, end);
    ghost var cands := Favourites(sw, so, start, end, nsf, n);
    var nbest := OpenLoopList(sw, so, start, end, nsf, n);
    var bestPitch, bestGain, bestExc, bestTarget := TryAll(lpc, par, buf, o, nbest, nsf, target[..], plc, cands);
    pitch := nbest[n - 1];
    pitchIndex := bestPitch - start;
    gainIndex := bestGain;
    ghost var k: nat :| IsBestPitch(lpc, par, old(buf[..o]), cands, target[..], plc, |cands|, k) && cands[k] == bestPitch;
    FavouriteReturned(lpc, par, old(buf[..o]), sw, so, start, end, target[..], plc, n, k);
    CopyIn(bestExc, buf, o);
    CopyIn(bestTarget, target, 0);
    assert target[0..0 + nsf] == target[..];
  }

  lemma FavouriteReturned(lpc: Lpcs, par: LtpParams, past: seq<real>, sw: seq<real>, so: nat, start: nat, end: nat,
                          target: seq<real>, plc: int, n: nat, k: nat)
    requires lpc.Valid() && ValidParams(par) && 1 <= |lpc.r| == |target| && 1 <= start <= end && end + 1 <= |past|
    requires end < so && so + |target| <= |sw| && 1 <= n <= end - start + 1
    requires IsBestPitch(lpc, par, past, Favourites(sw, so, start, end, |target|, n), target, plc, n, k)
    ensures var cands := Favourites(sw, so, start, end, |target|, n);
            && (cands[k] == cands[n - 1] <==> LastIsBest(lpc, par, past, cands, target, plc))
            && (n == 1 ==> cands[k] == cands[n - 1])
            && (past == Zeros(|past|) && n > 1 ==> cands[k] != cands[n - 1])
  {
    hide Favourites, IsBestPitch, LastIsBest, ErrorOf;
    var cands := Favourites(sw, so, start, end, |target|, n);
    forall i, j | 0 <= i < j < |cands|
      ensures cands[i] != cands[j]
    {
      FavouritesDiffer(sw, so, start, end, |target|, n, i, j);
    }
    LastIsKept(lpc, par, past, cands, target, plc, k);
    BestIsOne(lpc, par, past, cands, target, plc, n, k);
    if past == Zeros(|past|) {
      SilentPastKeepsFirst(lpc, par, past, cands, target, plc);
    }
  }

  lemma BestIsOne(lpc: Lpcs, par: LtpParams, past: seq<real>, cands: seq<int>, target: seq<real>, plc: int, n: nat, k: nat)
    requires lpc.Valid() && ValidParams(par) && n <= |cands|
    requires 1 <= |lpc.r| == |target| && forall j :: 0 <= j < |cands| ==> 1 <= cands[j] && cands[j] + 1 <= |past|
    requires IsBestPitch(lpc, par, past, cands, target, plc, n, k)
    ensures k < n
  {
  }

  /** The first subframe of a stream, with two pitches tried: the pitch returned is not the pitch sent. */
  method StreamStart() returns (pitch: int, sent: int)
    ensures pitch != sent
  {
    var buf, target := new real[7](_ => 0.0), new real[4](_ => 1.0);
    var lpc := Lpcs([1.0, 0.0], [1.0, 0.0], [1.0, 0.0], [1.0, 0.0, 0.0, 0.0]);
    assert buf[..3] == Zeros(3);
    var pitchIndex, gainIndex;
    pitch, pitchIndex, gainIndex :=
      PitchSearch(lpc, LtpParams([-32, -32, -32], 0, 7), buf, 3, Zeros(8), 3, 1, 2, 4, target, 2, 0);
    sent := pitchIndex + 1;
  }

  method OpenLoopList(sw: seq<real>, so: nat, start: nat, end: nat, nsf: nat, n: nat) returns (nbest: seq<int>)
    requires start <= end < so && so + nsf <= |sw| && 0 < nsf && nsf % 4 == 0 && 1 <= n <= end - start + 1
    ensures nbest == Favourites(sw, so, start, end, nsf, n)
  {
    hide Kept;
    var list := new int[n];
    OpenLoopNBestPitch(sw, so, start, end, nsf, list, n);
    nbest := list[..];
  }

  /** The loop over the candidate pitches. */
  method TryAll(lpc: Lpcs, par: LtpParams, buf: array<real>, o: nat, nbest: seq<int>, nsf: nat,
                target: seq<real>, plc: int, ghost cands: seq<int>)
    returns (bestPitch: int, bestGain: nat, bestExc: seq<real>, bestTarget: seq<real>)
    requires lpc.Valid() && ValidParams(par) && o + nsf <= buf.Length && 0 < nsf == |lpc.r| == |target|
    requires nbest == cands && cands != [] && forall j :: 0 <= j < |cands| ==> 1 <= cands[j] && cands[j] + 1 <= o
    modifies buf
    ensures buf[..o] == old(buf[..o]) && buf[o + nsf..] == old(buf[o + nsf..])
    ensures exists k: nat :: IsBestPitch(lpc, par, old(buf[..o]), cands, target, plc, |cands|, k) && cands[k] == bestPitch
    ensures bestPitch in cands
    ensures var t := TrialOf(lpc, par, old(buf[..o]), bestPitch, target, plc);
            bestGain == t.gainIndex && bestExc == t.exc && bestTarget == t.target
  {
    hide Mul, TrialOf, Tap, Pow2, Excitation, GainsOf;
    ghost var past := buf[..o];
    var newTarget := new real[nsf];
    var bestErr := -1.0;
    bestPitch, bestGain, bestExc, bestTarget := 0, 0, [], [];
    ghost var best := 0;
    for i := 0 to |nbest|
      invariant buf[..o] == past && buf[o + nsf..] == old(buf[o + nsf..])
      invariant i == 0 ==> bestErr < 0.0
      invariant i > 0 ==> IsBestPitch(lpc, par, past, cands, target, plc, i, best) && bestPitch == cands[best]
      invariant i > 0 ==> Trial(bestGain, bestExc, bestTarget, bestErr) == TrialOf(lpc, par, past, bestPitch, target, plc)
      modifies buf, newTarget
    {
      var pitch := nbest[i];
      ClearSubframe(buf, 0.0, o, nsf);
      var gainIndex, err := PitchGainSearch(lpc, par, buf, o, pitch, nsf, target, newTarget, plc);
      assert err == ErrorOf(lpc, par, past, cands[i], target, plc);
      if err < bestErr || bestErr < 0.0 {
        bestExc := buf[o..o + nsf];
        bestTarget := newTarget[..];
        bestErr := err;
        bestPitch := pitch;
        bestGain := gainIndex;
        best := i;
      }
    }
  }

  // ----- pitch_unquant_3tap -----

  /** gain_3tap_to_1tap. */
  function OneTap(g: Gains): (r: real)
    ensures r >= 0.0
  {
    (if g.g1 >= 0.0 then g.g1 else -g.g1)
    + (if g.g0 > 0.0 then g.g0 else -0.5 * g.g0)
    + (if g.g2 > 0.0 then g.g2 else -0.5 * g.g2)
  }

  /** What the one-tap gain may be after frames were lost. */
  function GainLimit(countLost: nat, lastGain: real): real {
    var limit := if countLost < 4 then lastGain else 0.4 * lastGain;
    if limit > 0.95 then 0.95 else limit
  }

  /** The gains after frames were lost: scaled down if together they exceed what the last good frame had. */
  function Damped(g: Gains, countLost: nat, lastGain: real): (d: Gains) {
    var tmp := GainLimit(countLost, lastGain);
    if OneTap(g) > tmp && OneTap(g) > 0.0 then
      var fact := tmp / OneTap(g);
      Gains(Mul(g.g0, fact), Mul(g.g1, fact), Mul(g.g2, fact))
    else g
  }

  /** Damping brings the one-tap gain down to the limit, and changes nothing below it. */
  lemma DampedGain(g: Gains, countLost: nat, lastGain: real)
    requires lastGain >= 0.0
    ensures var tmp := GainLimit(countLost, lastGain);
            OneTap(Damped(g, countLost, lastGain)) == if OneTap(g) > tmp then tmp else OneTap(g)
    ensures var d, last := OneTap(Damped(g, countLost, lastGain)), if countLost < 4 then lastGain else 0.4 * lastGain;
            && d <= OneTap(g) && d <= last && d <= 0.95 && (d == OneTap(g) || d == last || d == 0.95)
  {
    hide Mul, OneTap, GainLimit;
    LimitNonNegative(countLost, lastGain);
    var tmp := GainLimit(countLost, lastGain);
    LimitIs(countLost, lastGain);
    if OneTap(g) > tmp {
      Quotient(tmp, OneTap(g));
      ScaledOneTap(g, tmp / OneTap(g));
    }
  }

  lemma LimitIs(countLost: nat, lastGain: real)
    ensures var tmp, last := GainLimit(countLost, lastGain), if countLost < 4 then lastGain else 0.4 * lastGain;
            tmp <= last && tmp <= 0.95 && (tmp == last || tmp == 0.95)
  {
  }

  /** The one-tap gain of gains that are not negative is their sum; a negative middle gain counts in full, a negative
      outer one by half. */
  lemma OneTapLaw(g: Gains)
    ensures g.g0 >= 0.0 && g.g1 >= 0.0 && g.g2 >= 0.0 ==> OneTap(g) == g.g0 + g.g1 + g.g2
    ensures OneTap(Gains(g.g0, -g.g1, g.g2)) == OneTap(g)
    ensures g.g0 > 0.0 ==> OneTap(Gains(-g.g0, g.g1, g.g2)) == OneTap(g) - 0.5 * g.g0
    ensures g.g2 > 0.0 ==> OneTap(Gains(g.g0, g.g1, -g.g2)) == OneTap(g) - 0.5 * g.g2
  {
  }

  lemma LimitNonNegative(countLost: nat, lastGain: real)
    requires lastGain >= 0.0
    ensures GainLimit(countLost, lastGain) >= 0.0
  {
  }

  lemma Quotient(a: real, b: real)
    requires a >= 0.0 && b > 0.0
    ensures a / b >= 0.0 && Mul(b, a / b) == a
  {
  }

  lemma ScaledPart(u: real, f: real)
    requires f >= 0.0
    ensures u >= 0.0 ==> Mul(u, f) >= 0.0
    ensures u <= 0.0 ==> Mul(u, f) <= 0.0
    ensures Mul(-u, f) == -Mul(u, f) && Mul(-0.5 * u, f) == -0.5 * Mul(u, f)
  {
  }

  lemma ScaledOneTap(g: Gains, f: real)
    requires f >= 0.0
    ensures OneTap(Gains(Mul(g.g0, f), Mul(g.g1, f), Mul(g.g2, f))) == Mul(OneTap(g), f)
  {
    ScaledPart(g.g0, f);
    ScaledPart(g.g1, f);
    ScaledPart(g.g2, f);
    var a := if g.g1 >= 0.0 then g.g1 else -g.g1;
    var b := if g.g0 > 0.0 then g.g0 else -0.5 * g.g0;
    var c := if g.g2 > 0.0 then g.g2 else -0.5 * g.g2;
    MulPlus(f, a + b, c);
    MulPlus(f, a, b);
    hide Mul;
  }

  /** pitch_unquant_3tap, from the two indices it unpacks. */
  method PitchUnquant(par: LtpParams, buf: array<real>, o: nat, start: nat, nsf: nat, pitchIndex: nat, gainIndex: nat,
                      countLost: nat, subframeOffset: int, lastGain: real)
    returns (pitch: nat, gain: Gains)
    requires ValidParams(par) && gainIndex < Pow2(par.gainBits)
    requires 1 <= start && start + pitchIndex + 1 <= o && o + nsf <= buf.Length
    modifies buf
    ensures pitch == start + pitchIndex
    ensures gain == (if countLost > 0 && pitch > subframeOffset then Damped(GainsOf(par.gainCdbk, gainIndex), countLost, lastGain)
                     else GainsOf(par.gainCdbk, gainIndex))
    ensures buf[o..o + nsf] == Excitation(old(buf[..o]), pitch, gain, nsf)
    ensures buf[..o] == old(buf[..o]) && buf[o + nsf..] == old(buf[o + nsf..])
  {
    hide Mul, Tap, Pow2;
    pitch := start + pitchIndex;
    gain := GainsOf(par.gainCdbk, gainIndex);
    if countLost > 0 && pitch > subframeOffset {
      gain := Damped(gain, countLost, lastGain);
    }
    var e0 := BuildTapByRanges(buf, 0.0, o, pitch, 0, nsf);
    var e1 := BuildTapByRanges(buf, 0.0, o, pitch, 1, nsf);
    var e2 := BuildTapByRanges(buf, 0.0, o, pitch, 2, nsf);
    WriteMix(gain, e0, e1, e2, buf, o, nsf);
  }

  // ----- encoder and decoder agree -----

  /** With the same past and no loss the decoder rebuilds the excitation the encoder kept for its
      best pitch. */
  lemma DecoderRebuildsTrial(lpc: Lpcs, par: LtpParams, past: seq<real>, pitch: nat, target: seq<real>, plc: int)
    requires lpc.Valid() && ValidParams(par) && 1 <= pitch && pitch + 1 <= |past| && 1 <= |lpc.r| == |target|
    ensures var t := TrialOf(lpc, par, past, pitch, target, plc);
            Excitation(past, pitch, GainsOf(par.gainCdbk, t.gainIndex), |target|) == t.exc
  {
  }

  /** An encoder that had no pitch to choose sends two zeros; codebook entry 0 is (-32, -32, -32),
      which makes all gains zero, and the decoder rebuilds the same silence. */
  lemma DecoderRebuildsSilence(par: LtpParams, past: seq<real>, pitch: nat, nsf: nat)
    requires ValidParams(par) && 1 <= pitch && pitch + 1 <= |past|
    requires par.gainCdbk[0] == par.gainCdbk[1] == par.gainCdbk[2] == -32
    ensures Excitation(past, pitch, GainsOf(par.gainCdbk, 0), nsf) == Zeros(nsf)
  {
    var e0, e1, e2 := Tap(past, 0.0, pitch, 0, nsf), Tap(past, 0.0, pitch, 1, nsf), Tap(past, 0.0, pitch, 2, nsf);
    forall j | 0 <= j < nsf
      ensures Mul(0.0, e2[j]) + Mul(0.0, e1[j]) + Mul(0.0, e0[j]) == 0.0
    {
      MulUnits(e0[j]);
      MulUnits(e1[j]);
      MulUnits(e2[j]);
    }
  }

  /** One subframe, both ends: the decoder ends with the excitation the encoder ends with. */
  method EncodeThenDecode(lpc: Lpcs, par: LtpParams, enc: array<real>, dec: array<real>, o: nat, sw: seq<real>, so: nat,
                          start: nat, end: nat, nsf: nat, target: array<real>, complexity: int, plc: int,
                          lastGain: real)
    requires lpc.Valid() && ValidParams(par) && 1 <= start && end + 1 <= o && start + 1 <= o
    requires o + nsf <= enc.Length && o + nsf <= dec.Length && enc != dec && target != enc && target != dec
    requires end < so && so + nsf <= |sw| && 0 < nsf == |lpc.r| == target.Length && nsf % 4 == 0
    requires par.gainCdbk[0] == par.gainCdbk[1] == par.gainCdbk[2] == -32
    requires enc[..o] == dec[..o]
    modifies enc, dec, target
    ensures dec[..o + nsf] == enc[..o + nsf]
  {
    hide Mul, TrialOf, Tap, Kept, Excitation, Pow2;
    ghost var past, goal := enc[..o], target[..];
    var pitch, pitchIndex, gainIndex := PitchSearch(lpc, par, enc, o, sw, so, start, end, nsf, target, complexity, plc);
    if end < start {
      DecoderRebuildsSilence(par, past, start, nsf);
    } else {
      DecoderRebuildsTrial(lpc, par, past, start + pitchIndex, goal, plc);
    }
    assert enc[..o + nsf] == enc[..o] + enc[o..o + nsf];
    assert gainIndex < Pow2(par.gainBits) by {
      PowPositive(par.gainBits);
    }
    var p, g := PitchUnquant(par, dec, o, start, nsf, pitchIndex, gainIndex, 0, 0, lastGain);
    assert dec[..o + nsf] == dec[..o] + dec[o..o + nsf];
  }

  lemma PowPositive(n: nat)
    ensures 0 < Pow2(n)
  {
  }
}
