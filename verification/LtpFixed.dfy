/** The adaptive codebook of the fixed-point build, iaxclient/lib/libspeex/ltp.c: what the encoder keeps and
    what the decoder rebuilds. The outcome of the gain search for each pitch is given: the gain index it
    chose, and the responses of the taps. */
module LtpFixed {
  import opened FixedPoint
  import opened Taps

  /** One pitch tried: its gain index, and the responses of its three taps. */
  datatype Trial = Trial(pitch: nat, gainIndex: nat, x0: seq<int>, x1: seq<int>, x2: seq<int>)

  /** The gain of a tap in a codebook of signed bytes. */
  function GainOf(cdbk: seq<int>, k: nat, tap: nat): int
    requires 3 * k + tap < |cdbk|
  {
    32 + cdbk[3 * k + tap]
  }

  /** Three samples mixed by the gains of a codebook entry, in 32 bits. */
  function MixAt(cdbk: seq<int>, k: nat, s0: int, s1: int, s2: int): int
    requires 3 * k + 2 < |cdbk|
  {
    W32(4 * W32(W32(MultQ15(128 * GainOf(cdbk, k, 0), s2) + MultQ15(128 * GainOf(cdbk, k, 1), s1))
                + MultQ15(128 * GainOf(cdbk, k, 2), s0)))
  }

  /** Which gain meets which tap, and how exactly: on samples of 29 bits nothing overflows, and a mixed sample, in
      sixty-fourths, is the sum of each gain times the sample of its tap, counted from the last tap down, rounded
      down by less than 12. */
  lemma MixIsGains(cdbk: seq<int>, k: nat, s0: int, s1: int, s2: int)
    requires 3 * k + 2 < |cdbk| && forall i :: 0 <= i < |cdbk| ==> -128 <= cdbk[i] < 128
    requires -0x1000_0000 <= s0 <= 0x1000_0000 && -0x1000_0000 <= s1 <= 0x1000_0000 && -0x1000_0000 <= s2 <= 0x1000_0000
    ensures var exact := (32 + cdbk[3 * k]) * s2 + (32 + cdbk[3 * k + 1]) * s1 + (32 + cdbk[3 * k + 2]) * s0;
            exact - 768 < 64 * MixAt(cdbk, k, s0, s1, s2) <= exact
  {
    hide MultQ15, W32;
    var g0, g1, g2 := 32 + cdbk[3 * k], 32 + cdbk[3 * k + 1], 32 + cdbk[3 * k + 2];
    GainTimes(g0, s2);
    GainTimes(g1, s1);
    GainTimes(g2, s0);
    var a, b, c := MultQ15(128 * g0, s2), MultQ15(128 * g1, s1), MultQ15(128 * g2, s0);
    Fitting(a + b);
    Fitting(a + b + c);
    Fitting(4 * (a + b + c));
  }

  /** A gain in 1/64 on a sample, dropping eight bits of the product. */
  lemma GainTimes(g: int, s: int)
    requires -96 <= g < 160 && -0x1000_0000 <= s <= 0x1000_0000
    ensures g * s - 256 < 256 * MultQ15(128 * g, s) <= g * s
    ensures -0xA00_0000 <= MultQ15(128 * g, s) <= 0xA00_0000
  {
    hide MultQ15, W32, W16;
    var w := 128 * g;
    GainBounds(g, s);
    InHalves(w, s);
    Distributed(g, s);
    Fitting(w * (s / 32768) + w * (s % 32768) / 32768);
  }

  lemma InHalves(w: int, s: int)
    requires -0x1000_0000 <= s <= 0x1000_0000
    ensures MultQ15(w, s) == W32(w * (s / 32768) + w * (s % 32768) / 32768)
  {
    Fitting(s / 32768);
  }

  lemma Distributed(g: int, s: int)
    ensures var w := 128 * g;
            g * s - 256 < 256 * (w * (s / 32768) + w * (s % 32768) / 32768) <= g * s
  {
    var h, l := s / 32768, s % 32768;
    var p, q := g * h, g * l;
    assert g * s == g * (32768 * h + l) == 32768 * p + q;
    assert 128 * g * h == 128 * p && 128 * g * l == 128 * q;
  }

  lemma GainBounds(g: int, s: int)
    requires -96 <= g < 160 && -0x1000_0000 <= s <= 0x1000_0000
    ensures -0x9F_0000_0000 <= 16 * (g * s) <= 0x9F_0000_0000
  {
    var p := g * s;
    if s >= 0 {
      AtLeast(159 - g, s);
      AtLeast(g + 96, s);
    } else {
      AtLeast(159 - g, -s);
      AtLeast(g + 96, -s);
    }
    assert (159 - g) * s == 159 * s - p && (g + 96) * s == p + 96 * s;
    assert (159 - g) * -s == -159 * s + p && (g + 96) * -s == -p - 96 * s;
  }

  lemma AtLeast(a: int, b: int)
    requires a >= 0 && b >= 0
    ensures a * b >= 0
  {
  }

  function Mix(cdbk: seq<int>, k: nat, a0: seq<int>, a1: seq<int>, a2: seq<int>): (m: seq<int>)
    requires 3 * k + 2 < |cdbk| && |a0| == |a1| == |a2|
    ensures |m| == |a0| && forall j :: 0 <= j < |m| ==> m[j] == MixAt(cdbk, k, a0[j], a1[j], a2[j])
  {
    seq(|a0|, j requires 0 <= j < |a0| => MixAt(cdbk, k, a0[j], a1[j], a2[j]))
  }

  /** The excitation of a pitch and a codebook entry. */
  function Excitation(cdbk: seq<int>, past: seq<int>, pitch: nat, k: nat, nsf: nat): (e: seq<int>)
    requires 3 * k + 2 < |cdbk| && 1 <= pitch && pitch + 1 <= |past|
    ensures |e| == nsf
  {
    Mix(cdbk, k, Tap(past, 0, pitch, 0, nsf), Tap(past, 0, pitch, 1, nsf), Tap(past, 0, pitch, 2, nsf))
  }

  /** What is left of the target, and its error in the 16 high bits. */
  function Left(t: int, m: int): int {
    W32(t - m)
  }

  function High(v: int): int {
    W16(W32(v + 16384) / 32768)
  }

  /** The high half is the nearest number of 32768ths, a half rounded up. */
  lemma HighRounds(v: int)
    requires -0x3FFF_C000 <= v < 0x3FFF_C000
    ensures 2 * v - 32768 < 65536 * High(v) <= 2 * v + 32768
  {
    Fitting(v + 16384);
    Fitting((v + 16384) / 32768);
  }

  function ErrorUpTo(target: seq<int>, mixed: seq<int>, n: nat): (err: nat)
    requires n <= |target| == |mixed|
  {
    if n == 0 then 0 else ErrorUpTo(target, mixed, n - 1) + Square(High(Left(target[n - 1], mixed[n - 1])))
  }

  function Response(cdbk: seq<int>, t: Trial): (m: seq<int>)
    requires 3 * t.gainIndex + 2 < |cdbk| && |t.x0| == |t.x1| == |t.x2|
    ensures |m| == |t.x0|
  {
    Mix(cdbk, t.gainIndex, t.x0, t.x1, t.x2)
  }

  predicate Fits(cdbk: seq<int>, t: Trial, nsf: nat) {
    3 * t.gainIndex + 2 < |cdbk| && |t.x0| == |t.x1| == |t.x2| == nsf
  }

  predicate AllFit(cdbk: seq<int>, trials: seq<Trial>, nsf: nat) {
    forall i :: 0 <= i < |trials| ==> Fits(cdbk, trials[i], nsf)
  }

  /** All the pitches lie in the past at hand. */
  predicate InPast(trials: seq<Trial>, start: nat, o: nat) {
    1 <= start && forall i :: 0 <= i < |trials| ==> start <= trials[i].pitch && trials[i].pitch + 1 <= o
  }

  function ErrorOf(cdbk: seq<int>, t: Trial, target: seq<int>): nat
    requires 3 * t.gainIndex + 2 < |cdbk| && |t.x0| == |t.x1| == |t.x2| == |target|
  {
    ErrorUpTo(target, Response(cdbk, t), |target|)
  }

  /** The first trial of least error. */
  predicate Best(cdbk: seq<int>, trials: seq<Trial>, target: seq<int>, n: nat, k: nat)
    requires n <= |trials| && AllFit(cdbk, trials, |target|)
  {
    && k < n
    && (forall i :: 0 <= i < n ==> ErrorOf(cdbk, trials[k], target) <= ErrorOf(cdbk, trials[i], target))
    && (forall i :: 0 <= i < k ==> ErrorOf(cdbk, trials[k], target) < ErrorOf(cdbk, trials[i], target))
  }

  function LeftOver(target: seq<int>, mixed: seq<int>): (r: seq<int>)
    requires |target| == |mixed|
    ensures |r| == |target| && forall j :: 0 <= j < |r| ==> r[j] == Left(target[j], mixed[j])
  {
    seq(|target|, j requires 0 <= j < |target| => Left(target[j], mixed[j]))
  }

  /** The mixing loop of both ends. */
  method WriteMix(cdbk: seq<int>, k: nat, e0: array<int>, e1: array<int>, e2: array<int>, buf: array<int>, o: nat)
    requires 3 * k + 2 < |cdbk| && e0.Length == e1.Length == e2.Length && o + e0.Length <= buf.Length
    requires buf != e0 && buf != e1 && buf != e2
    modifies buf
    ensures buf[o..o + e0.Length] == Mix(cdbk, k, e0[..], e1[..], e2[..])
    ensures buf[..o] == old(buf[..o]) && buf[o + e0.Length..] == old(buf[o + e0.Length..])
  {
    hide MixAt;
    var i := 0;
    while i < e0.Length
      invariant 0 <= i <= e0.Length
      invariant forall j :: 0 <= j < i ==> buf[o + j] == MixAt(cdbk, k, e0[j], e1[j], e2[j])
      invariant forall j :: 0 <= j < o || o + e0.Length <= j < buf.Length ==> buf[j] == old(buf[j])
    {
      buf[o + i] := MixAt(cdbk, k, e0[i], e1[i], e2[i]);
      i := i + 1;
    }
  }

  /** One pitch in the encoder: its excitation written out, its error, and what it leaves of the target. */
  method TryPitch(cdbk: seq<int>, t: Trial, buf: array<int>, o: nat, target: seq<int>)
    returns (err: nat, left: seq<int>)
    requires Fits(cdbk, t, |target|) && 1 <= t.pitch && t.pitch + 1 <= o && o + |target| <= buf.Length
    modifies buf
    ensures buf[..o] == old(buf[..o]) && buf[o + |target|..] == old(buf[o + |target|..])
    ensures buf[o..o + |target|] == Excitation(cdbk, buf[..o], t.pitch, t.gainIndex, |target|)
    ensures err == ErrorOf(cdbk, t, target) && left == LeftOver(target, Response(cdbk, t))
  {
    hide Mix, MixAt, Tap, Left, High, Square;
    var nsf := |target|;
    var e2 := BuildTap(buf, 0, o, t.pitch, 2, nsf);
    var e1 := BuildTap(buf, 0, o, t.pitch, 1, nsf);
    var e0 := BuildTap(buf, 0, o, t.pitch, 0, nsf);
    WriteMix(cdbk, t.gainIndex, e0, e1, e2, buf, o);
    ghost var mixed := Response(cdbk, t);
    err, left := 0, [];
    var i := 0;
    while i < nsf
      invariant 0 <= i <= nsf && err == ErrorUpTo(target, mixed, i)
      invariant |left| == i && forall j :: 0 <= j < i ==> left[j] == Left(target[j], mixed[j])
    {
      var perr := Left(target[i], MixAt(cdbk, t.gainIndex, t.x0[i], t.x1[i], t.x2[i]));
      left := left + [perr];
      err := err + Square(High(perr));
      i := i + 1;
    }
  }

  /** pitch_search_3tap on the pitches to try, and the two indices it packs: two zeros and a cleared
      subframe where there is none. */
  method Search(cdbk: seq<int>, trials: seq<Trial>, start: nat, buf: array<int>, o: nat, target: array<int>)
    returns (pitchIndex: nat, gainIndex: nat, ghost best: nat)
    requires AllFit(cdbk, trials, target.Length) && InPast(trials, start, o)
    requires o + target.Length <= buf.Length && buf != target
    modifies buf, target
    ensures buf[..o] == old(buf[..o]) && buf[o + target.Length..] == old(buf[o + target.Length..])
    ensures trials == [] ==>
              && pitchIndex == 0 && gainIndex == 0 && target[..] == old(target[..])
              && buf[o..o + target.Length] == Same(0, target.Length)
    ensures trials != [] ==>
              && Best(cdbk, trials, old(target[..]), |trials|, best)
              && pitchIndex == trials[best].pitch - start && gainIndex == trials[best].gainIndex
              && buf[o..o + target.Length] == Excitation(cdbk, old(buf[..o]), trials[best].pitch, gainIndex, target.Length)
              && target[..] == LeftOver(old(target[..]), Response(cdbk, trials[best]))
  {
    hide Mix, Excitation, ErrorOf, Response, LeftOver;
    if trials == [] {
      ClearSubframe(buf, 0, o, target.Length);
      return 0, 0, 0;
    }
    pitchIndex, gainIndex, best := SearchAll(cdbk, trials, start, buf, o, target);
  }

  /** The loop over the pitches. */
  method SearchAll(cdbk: seq<int>, trials: seq<Trial>, start: nat, buf: array<int>, o: nat, target: array<int>)
    returns (pitchIndex: nat, gainIndex: nat, ghost best: nat)
    requires trials != [] && AllFit(cdbk, trials, target.Length) && InPast(trials, start, o)
    requires o + target.Length <= buf.Length && buf != target
    modifies buf, target
    ensures Best(cdbk, trials, old(target[..]), |trials|, best)
    ensures pitchIndex == trials[best].pitch - start && gainIndex == trials[best].gainIndex
    ensures buf[..o] == old(buf[..o]) && buf[o + target.Length..] == old(buf[o + target.Length..])
    ensures buf[o..o + target.Length] == Excitation(cdbk, old(buf[..o]), trials[best].pitch, gainIndex, target.Length)
    ensures target[..] == LeftOver(old(target[..]), Response(cdbk, trials[best]))
  {
    hide Mix, Excitation, ErrorOf, Response, LeftOver;
    ghost var past, goal := buf[..o], target[..];
    var nsf := target.Length;
    var err, left := TryPitch(cdbk, trials[0], buf, o, target[..]);
    var bestErr, bestExc, bestLeft := err, buf[o..o + nsf], left;
    best := 0;
    var bestPitch := trials[0].pitch;
    gainIndex := trials[0].gainIndex;
    var i := 1;
    while i < |trials|
      invariant 1 <= i <= |trials| && target[..] == goal && Best(cdbk, trials, goal, i, best)
      invariant bestErr == ErrorOf(cdbk, trials[best], goal)
      invariant bestPitch == trials[best].pitch && gainIndex == trials[best].gainIndex
      invariant buf[..o] == past && buf[o + nsf..] == old(buf[o + nsf..])
      invariant bestExc == Excitation(cdbk, past, bestPitch, gainIndex, nsf)
      invariant bestLeft == LeftOver(goal, Response(cdbk, trials[best]))
      modifies buf
    {
      err, left := TryPitch(cdbk, trials[i], buf, o, target[..]);
      if err < bestErr {
        bestErr, bestExc, bestLeft := err, buf[o..o + nsf], left;
        bestPitch, gainIndex := trials[i].pitch, trials[i].gainIndex;
        best := i;
      }
      i := i + 1;
    }
    pitchIndex := bestPitch - start;
    CopyIn(bestExc, buf, o);
    CopyIn(bestLeft, target, 0);
    assert target[0..0 + nsf] == target[..];
  }

  /** pitch_unquant_3tap, without loss, from the two indices it unpacks. */
  method Unquant(cdbk: seq<int>, buf: array<int>, o: nat, start: nat, nsf: nat, pitchIndex: nat, gainIndex: nat)
    requires 3 * gainIndex + 2 < |cdbk| && 1 <= start + pitchIndex && start + pitchIndex + 1 <= o && o + nsf <= buf.Length
    modifies buf
    ensures buf[o..o + nsf] == Excitation(cdbk, old(buf[..o]), start + pitchIndex, gainIndex, nsf)
    ensures buf[..o] == old(buf[..o]) && buf[o + nsf..] == old(buf[o + nsf..])
  {
    hide Mix, Tap;
    var e0 := BuildTapByRanges(buf, 0, o, start + pitchIndex, 0, nsf);
    var e1 := BuildTapByRanges(buf, 0, o, start + pitchIndex, 1, nsf);
    var e2 := BuildTapByRanges(buf, 0, o, start + pitchIndex, 2, nsf);
    WriteMix(cdbk, gainIndex, e0, e1, e2, buf, o);
  }

  lemma NoGain(s: int)
    ensures MultQ15(0, s) == 0
  {
  }

  /** Codebook entry 0 is (-32, -32, -32): whatever the pitch, the decoder rebuilds silence from it, which
      is what an encoder without a pitch to choose keeps. */
  lemma SilenceIsRebuilt(cdbk: seq<int>, past: seq<int>, pitch: nat, nsf: nat)
    requires |cdbk| >= 3 && cdbk[0] == cdbk[1] == cdbk[2] == -32
    requires 1 <= pitch && pitch + 1 <= |past|
    ensures Excitation(cdbk, past, pitch, 0, nsf) == Same(0, nsf)
  {
    hide MultQ15, Tap;
    forall j | 0 <= j < nsf
      ensures Excitation(cdbk, past, pitch, 0, nsf)[j] == 0
    {
      NoGain(Tap(past, 0, pitch, 0, nsf)[j]);
      NoGain(Tap(past, 0, pitch, 1, nsf)[j]);
      NoGain(Tap(past, 0, pitch, 2, nsf)[j]);
    }
  }

  /** Both ends on equal pasts: the decoder has, bit for bit, the excitation the encoder kept, also where
      the encoder had no pitch to try. */
  method EncodeThenDecode(cdbk: seq<int>, trials: seq<Trial>, start: nat, enc: array<int>, dec: array<int>, o: nat,
                          target: array<int>)
    requires AllFit(cdbk, trials, target.Length) && InPast(trials, start, o) && start + 1 <= o
    requires |cdbk| >= 3 && cdbk[0] == cdbk[1] == cdbk[2] == -32
    requires o + target.Length <= enc.Length && o + target.Length <= dec.Length
    requires enc != dec && enc != target && dec != target && enc[..o] == dec[..o]
    modifies enc, dec, target
    ensures dec[..o + target.Length] == enc[..o + target.Length]
  {
    hide Excitation, LeftOver, Response, ErrorOf;
    var pitchIndex, gainIndex, best := Search(cdbk, trials, start, enc, o, target);
    assert enc[..o + target.Length] == enc[..o] + enc[o..o + target.Length];
    if trials == [] {
      SilenceIsRebuilt(cdbk, enc[..o], start, target.Length);
    }
    Unquant(cdbk, dec, o, start, target.Length, pitchIndex, gainIndex);
    assert dec[..o + target.Length] == dec[..o] + dec[o..o + target.Length];
  }
}
