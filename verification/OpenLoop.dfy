/** open_loop_nbest_pitch of libspeex, ltp.c, float build, in exact arithmetic. */
module OpenLoop {
  import opened Signals
  import opened NBest

  /** The sum over t < n of b[p + t] * c[q + t]. */
  function CrossDot(b: seq<real>, p: nat, c: seq<real>, q: nat, n: nat): real
    requires p + n <= |b| && q + n <= |c|
  {
    if n == 0 then 0.0 else CrossDot(b, p, c, q, n - 1) + Mul(b[p + n - 1], c[q + n - 1])
  }

  /** The sum over t < n of b[p + t] * b[q + t]. */
  function WindowDot(b: seq<real>, p: nat, q: nat, n: nat): real
    requires p + n <= |b| && q + n <= |b|
  {
    CrossDot(b, p, b, q, n)
  }

  /** inner_prod: four products a turn. */
  method InnerProd(b: seq<real>, p: nat, c: seq<real>, q: nat, len: nat) returns (sum: real)
    requires p + len <= |b| && q + len <= |c|
    ensures sum == CrossDot(b, p, c, q, len / 4 * 4)
  {
    hide Mul;
    sum := 0.0;
    var turns := len / 4;
    var i := 0;
    while i < turns
      invariant 0 <= i <= turns
      invariant sum == CrossDot(b, p, c, q, 4 * i)
    {
      var x, y := p + 4 * i, q + 4 * i;
      var part := 0.0;
      part := part + Mul(b[x], c[y]);
      assert sum + part == CrossDot(b, p, c, q, 4 * i + 1);
      part := part + Mul(b[x + 1], c[y + 1]);
      assert sum + part == CrossDot(b, p, c, q, 4 * i + 2);
      part := part + Mul(b[x + 2], c[y + 2]);
      assert sum + part == CrossDot(b, p, c, q, 4 * i + 3);
      part := part + Mul(b[x + 3], c[y + 3]);
      sum := sum + part;
      i := i + 1;
    }
  }

  // ----- the running energy -----

  /** The energy the loop carries from lag to lag: the sample that enters is added, the one that
      leaves is taken away. */
  function RunningEnergy(b: seq<real>, o: nat, start: nat, k: nat, len: nat): real
    requires start + k <= o && o + len <= |b| && (len == 0 ==> start + k < o)
  {
    if k == 0 then WindowDot(b, o - start, o - start, len / 4 * 4)
    else
      var lag := start + k - 1;
      RunningEnergy(b, o, start, k - 1, len)
      + Mul(b[o - lag - 1], b[o - lag - 1]) - Mul(b[o - lag + len - 1], b[o - lag + len - 1])
  }

  lemma {:induction false} WindowSlides(b: seq<real>, p: nat, n: nat)
    requires 1 <= p && p + n <= |b|
    ensures WindowDot(b, p - 1, p - 1, n) + (if n == 0 then 0.0 else Mul(b[p + n - 1], b[p + n - 1]))
            == WindowDot(b, p, p, n) + (if n == 0 then 0.0 else Mul(b[p - 1], b[p - 1]))
  {
    hide Mul;
    if n > 0 {
      WindowSlides(b, p, n - 1);
    }
  }

  /** The running energy is off by the same amount at every lag: what the first inner product left out. */
  lemma {:induction false} RunningEnergyOff(b: seq<real>, o: nat, start: nat, k: nat, len: nat)
    requires start + k <= o && o + len <= |b| && 0 < len
    ensures RunningEnergy(b, o, start, k, len) - WindowDot(b, o - start - k, o - start - k, len)
            == WindowDot(b, o - start, o - start, len / 4 * 4) - WindowDot(b, o - start, o - start, len)
  {
    hide Mul;
    if k > 0 {
      RunningEnergyOff(b, o, start, k - 1, len);
      WindowSlides(b, o - start - k + 1, len);
    }
  }

  /** The running energy is the energy of each lagged window exactly when the first inner product
      left nothing out, as it does for lengths that are multiples of 4. */
  lemma RunningEnergyExact(b: seq<real>, o: nat, start: nat, k: nat, len: nat)
    requires start + k <= o && o + len <= |b| && 0 < len
    ensures RunningEnergy(b, o, start, k, len) == WindowDot(b, o - start - k, o - start - k, len)
            <==> WindowDot(b, o - start, o - start, len / 4 * 4) == WindowDot(b, o - start, o - start, len)
    ensures len % 4 == 0 ==>
            RunningEnergy(b, o, start, k, len) == WindowDot(b, o - start - k, o - start - k, len)
  {
    RunningEnergyOff(b, o, start, k, len);
  }

  lemma {:induction false} WindowEnergyNonNegative(b: seq<real>, p: nat, n: nat)
    requires p + n <= |b|
    ensures WindowDot(b, p, p, n) >= 0.0
  {
    if n > 0 {
      WindowEnergyNonNegative(b, p, n - 1);
    }
  }

  // ----- scores -----

  /** The score of a lag: correlation times a clipped gain. */
  function ScoreOf(corr: real, energy: real): (s: real)
    requires energy >= 0.0
  {
    var g := corr / (1.0 + energy);
    var clipped := if g > 16.0 then 16.0 else if g < -16.0 then -16.0 else g;
    Mul(clipped, corr)
  }

  function Score(b: seq<real>, o: nat, lag: nat, len: nat): (s: real)
    requires lag <= o && o + len <= |b|
  {
    WindowEnergyNonNegative(b, o - lag, len);
    ScoreOf(WindowDot(b, o, o - lag, len), WindowDot(b, o - lag, o - lag, len))
  }

  /** The score, without the division: correlation squared over one more than the energy, until the gain reaches
      16; from there on 16 times the size of the correlation. */
  lemma ScoreLaw(corr: real, energy: real)
    requires energy >= 0.0
    ensures var size := if corr < 0.0 then -corr else corr;
            if size <= 16.0 * (1.0 + energy) then Mul(ScoreOf(corr, energy), 1.0 + energy) == Mul(corr, corr)
            else ScoreOf(corr, energy) == 16.0 * size
  {
    var d := 1.0 + energy;
    var g := corr / d;
    assert g * d == corr;
    if g > 16.0 {
      assert (g - 16.0) * d > 0.0;
    } else if g < -16.0 {
      assert (-16.0 - g) * d > 0.0;
    } else {
      assert (16.0 - g) * d >= 0.0 && (g + 16.0) * d >= 0.0;
      assert (g * corr) * d == (g * d) * corr;
    }
  }

  lemma ScoreNonNegative(corr: real, energy: real)
    requires energy >= 0.0
    ensures ScoreOf(corr, energy) >= 0.0
  {
    var g := corr / (1.0 + energy);
    if corr >= 0.0 {
      assert g >= 0.0;
    } else {
      assert g <= 0.0;
    }
  }

  /** The lags as candidates, smallest first; a high score is a low key. */
  function Lags(b: seq<real>, o: nat, start: nat, n: nat, len: nat): (c: seq<Entry>)
    requires start + n <= o + 1 && o + len <= |b|
    ensures |c| == n
    ensures forall k :: 0 <= k < n ==> c[k] == Entry(-Score(b, o, start + k, len), start + k)
  {
    seq(n, k requires 0 <= k < n => Entry(-Score(b, o, start + k, len), start + k))
  }

  /** The two arrays hold the list `kept`; the unused end is as the first loop left it. */
  ghost predicate Holds(best: seq<real>, pitch: seq<int>, kept: seq<Entry>, n: nat, start: int) {
    && |best| == |pitch| == n && |kept| <= n
    && (forall k :: 0 <= k < |kept| ==> kept[k] == Entry(-best[k], pitch[k]))
    && (forall k :: |kept| <= k < n ==> best[k] == -1.0 && pitch[k] == start)
  }

  /** The insertion loop of "Extract best scores". */
  method InsertScore(best: array<real>, pitch: array<int>, n: nat, score: real, lag: int,
                     start: int, ghost kept: seq<Entry>)
    requires best.Length == pitch.Length == n && best as object != pitch && 1 <= n
    requires score >= 0.0 && Holds(best[..], pitch[..], kept, n, start) && Ascending(kept)
    modifies best, pitch
    ensures Holds(best[..], pitch[..], Insert(kept, Entry(-score, lag), n), n, start)
  {
    hide Insert;
    ghost var e := Entry(-score, lag);
    if score > best[n - 1] {
      var j := 0;
      while !(score > best[j])
        invariant 0 <= j <= n - 1 && j <= Place(kept, e)
        decreases n - j
      {
        j := j + 1;
      }
      ghost var b0, p0 := best[..], pitch[..];
      MakeRoom(best, pitch, n, j);
      best[j], pitch[j] := score, lag;
      ListGrows(b0, p0, best[..], pitch[..], kept, e, n, start);
    } else {
      NotInserted(kept, e, n);
    }
  }

  /** Entries from j on move up by one; the last is lost. */
  method MakeRoom(best: array<real>, pitch: array<int>, n: nat, j: nat)
    requires best.Length == pitch.Length == n && best as object != pitch && j < n
    modifies best, pitch
    ensures forall t :: 0 <= t < j ==> best[t] == old(best[t]) && pitch[t] == old(pitch[t])
    ensures forall t :: j < t < n ==> best[t] == old(best[t - 1]) && pitch[t] == old(pitch[t - 1])
  {
    var k := n - 1;
    while k > j
      invariant j <= k <= n - 1
      invariant forall t :: 0 <= t <= k ==> best[t] == old(best[t]) && pitch[t] == old(pitch[t])
      invariant forall t :: k < t < n ==> best[t] == old(best[t - 1]) && pitch[t] == old(pitch[t - 1])
    {
      best[k] := best[k - 1];
      pitch[k] := pitch[k - 1];
      k := k - 1;
    }
  }

  lemma ListGrows(b0: seq<real>, p0: seq<int>, b1: seq<real>, p1: seq<int>, kept: seq<Entry>, e: Entry, n: nat, start: int)
    requires Holds(b0, p0, kept, n, start) && |b1| == |p1| == n && Place(kept, e) < n
    requires var j := Place(kept, e);
             && Entry(-b1[j], p1[j]) == e
             && (forall t :: 0 <= t < j ==> b1[t] == b0[t] && p1[t] == p0[t])
             && (forall t :: j < t < n ==> b1[t] == b0[t - 1] && p1[t] == p0[t - 1])
    ensures Holds(b1, p1, Insert(kept, e, n), n, start)
  {
    var r := Insert(kept, e, n);
    forall k | 0 <= k < |r|
      ensures r[k] == Entry(-b1[k], p1[k])
    {
      InsertAt(kept, e, n, k);
    }
  }

  /** open_loop_nbest_pitch, without the open-loop gains its callers here do not ask for.
      Sample t of the signal is sw[o + t]. */
  method OpenLoopNBestPitch(sw: seq<real>, o: nat, start: nat, end: nat, len: nat, pitch: array<int>, n: nat)
    requires start <= end < o && o + len <= |sw| && 0 < len && len % 4 == 0
    requires 1 <= n == pitch.Length
    modifies pitch
    ensures var kept := Kept(Lags(sw, o, start, end - start + 1, len), n);
            && (forall k :: 0 <= k < |kept| ==> pitch[k] == kept[k].tag)
            && (forall k :: |kept| <= k < n ==> pitch[k] == start)
  {
    hide Mul, Score, Kept, Insert, Place;
    var count := end - start + 1;
    var best := new real[n];
    for i := 0 to n
      invariant forall k :: 0 <= k < i ==> best[k] == -1.0 && pitch[k] == start
    {
      best[i] := -1.0;
      pitch[i] := start;
    }
    var score := Scores(sw, o, start, end, len);
    ghost var lags := Lags(sw, o, start, count, len);
    NoneKept(n);
    for i := start to end + 1
      invariant Holds(best[..], pitch[..], Kept(lags[..i - start], n), n, start)
      modifies best, pitch
    {
      OneMoreKept(lags, i - start, n);
      KeptIsNBest(lags[..i - start], n);
      InsertScore(best, pitch, n, score[i - start], i, start, Kept(lags[..i - start], n));
    }
    assert lags[..count] == lags;
  }

  /** The energies, correlations and scores of all lags. */
  method Scores(sw: seq<real>, o: nat, start: nat, end: nat, len: nat) returns (s: seq<real>)
    requires start <= end < o && o + len <= |sw| && 0 < len && len % 4 == 0
    ensures |s| == end - start + 1
    ensures forall k :: 0 <= k < |s| ==> s[k] == Score(sw, o, start + k, len) && s[k] >= 0.0
  {
    hide Mul, Score, ScoreOf, CrossDot, RunningEnergy;
    var count := end - start + 1;
    var energy, corr, score := new real[count + 1], new real[count], new real[count];
    energy[0] := InnerProd(sw, o - start, sw, o - start, len);
    RunningEnergyStart(sw, o, start, len);
    for i := start to end + 1
      invariant forall k :: 0 <= k <= i - start ==> energy[k] == RunningEnergy(sw, o, start, k, len)
      modifies energy
    {
      RunningEnergyStep(sw, o, start, i - start, len);
      energy[i - start + 1] := energy[i - start] + Mul(sw[o - i - 1], sw[o - i - 1])
                               - Mul(sw[o - i + len - 1], sw[o - i + len - 1]);
    }
    for i := 0 to count
      invariant forall k :: count - i <= k < count ==> corr[k] == WindowDot(sw, o, o - start - k, len)
      modifies corr
    {
      corr[count - 1 - i] := InnerProd(sw, o, sw, o - end + i, len);
    }
    for i := start to end + 1
      invariant forall k :: 0 <= k < i - start ==> score[k] == Score(sw, o, start + k, len)
      invariant forall k :: 0 <= k < i - start ==> score[k] >= 0.0
      modifies score
    {
      RunningEnergyExact(sw, o, start, i - start, len);
      score[i - start] := ScoreOfLag(sw, o, i, len, corr[i - start], energy[i - start]);
    }
    s := score[..];
  }

  lemma RunningEnergyStart(b: seq<real>, o: nat, start: nat, len: nat)
    requires start <= o && o + len <= |b| && 0 < len
    ensures RunningEnergy(b, o, start, 0, len) == WindowDot(b, o - start, o - start, len / 4 * 4)
  {
  }

  lemma RunningEnergyStep(b: seq<real>, o: nat, start: nat, k: nat, len: nat)
    requires start + k + 1 <= o && o + len <= |b| && 0 < len
    ensures RunningEnergy(b, o, start, k + 1, len)
            == RunningEnergy(b, o, start, k, len)
               + Mul(b[o - start - k - 1], b[o - start - k - 1])
               - Mul(b[o - start - k + len - 1], b[o - start - k + len - 1])
  {
  }

  /** The gain, its clipping and the score of one lag. */
  method ScoreOfLag(sw: seq<real>, ghost o: nat, ghost lag: nat, ghost len: nat, corr: real, energy: real)
    returns (s: real)
    requires lag <= o && o + len <= |sw|
    requires corr == WindowDot(sw, o, o - lag, len) && energy == WindowDot(sw, o - lag, o - lag, len)
    ensures s == Score(sw, o, lag, len) >= 0.0
  {
    hide Mul, CrossDot;
    WindowEnergyNonNegative(sw, o - lag, len);
    ScoreNonNegative(corr, energy);
    var g := corr / (1.0 + energy);
    if g > 16.0 {
      g := 16.0;
    } else if g < -16.0 {
      g := -16.0;
    }
    s := Mul(g, corr);
  }

  /** The lags returned are the n best scores, best first, the smaller lag first among equals. */
  lemma PitchesAreNBest(sw: seq<real>, o: nat, start: nat, end: nat, len: nat, n: nat)
    requires start <= end < o && o + len <= |sw|
    ensures var lags := Lags(sw, o, start, end - start + 1, len);
            IsNBest(Kept(lags, n), lags, n)
  {
    KeptIsNBest(Lags(sw, o, start, end - start + 1, len), n);
  }
}
