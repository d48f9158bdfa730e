/** The polyphase upsampler and the quadrature mirror analysis of filters.c, float build, exact arithmetic. */
module Resample {
  import opened Signals

  /** Sample `i` of a stream: the current block from 0 on, the remembered past before it,
      most recent sample first. */
  function Stream(x: seq<real>, past: seq<real>, i: int): real {
    if i >= 0 then At(x, i) else At(past, -1 - i)
  }

  /** The stream read backwards from the end of the current block. */
  function Back(x: seq<real>, past: seq<real>, t: nat): real {
    Stream(x, past, |x| - 1 - t)
  }

  /** The past as the next block sees it. */
  function NextPast(x: seq<real>, past: seq<real>): (p: seq<real>)
    ensures |p| == |past|
    ensures forall t :: 0 <= t < |past| ==> p[t] == Stream(x, past, |x| - 1 - t)
  {
    seq(|past|, t requires 0 <= t < |past| => Stream(x, past, |x| - 1 - t))
  }

  // ----- fir_mem_up -----

  /** The sum over k < m of a[2k + q] * stream[p - k]. */
  function PhaseSum(a: seq<real>, x: seq<real>, past: seq<real>, p: int, q: nat, m: nat): real {
    if m == 0 then 0.0
    else PhaseSum(a, x, past, p, q, m - 1) + Mul(At(a, 2 * (m - 1) + q), Stream(x, past, p - (m - 1)))
  }

  /** One output sample. */
  function UpsampledAt(a: seq<real>, x: seq<real>, past: seq<real>, i: nat): real {
    PhaseSum(a, x, past, i / 2, i % 2, |a| / 2)
  }

  lemma UpsampledPair(a: seq<real>, x: seq<real>, past: seq<real>, p: nat)
    ensures UpsampledAt(a, x, past, 2 * p) == PhaseSum(a, x, past, p, 0, |a| / 2)
    ensures UpsampledAt(a, x, past, 2 * p + 1) == PhaseSum(a, x, past, p, 1, |a| / 2)
  {
    assert (2 * p + 1) / 2 == p;
  }

  /** The block of output that one input block gives. */
  function Upsampled(a: seq<real>, x: seq<real>, past: seq<real>): (y: seq<real>)
    ensures |y| == 2 * |x|
    ensures forall i :: 0 <= i < 2 * |x| ==> y[i] == UpsampledAt(a, x, past, i)
  {
    seq(2 * |x|, i requires 0 <= i < 2 * |x| => UpsampledAt(a, x, past, i))
  }

  /** The past kept in the odd cells of the memory. */
  ghost function OddCells(mem: seq<real>): (p: seq<real>)
    ensures |p| == |mem| / 2
    ensures forall t :: 0 <= t < |mem| / 2 ==> p[t] == mem[2 * t + 1]
  {
    seq(|mem| / 2, t requires 0 <= t < |mem| / 2 => mem[2 * t + 1])
  }

  /** fir_mem_up: four outputs at a time from a reversed input with every other cell unused. */
  method FirMemUp(x: array<real>, a: seq<real>, y: array<real>, n: nat, m: nat, mem: array<real>)
    requires n % 4 == 0 && m % 4 == 0 && 0 < m <= n
    requires |a| == m && x.Length == n / 2 && y.Length == n && mem.Length == m && mem != y
    modifies y, mem
    ensures y[..] == Upsampled(a, old(x[..]), OddCells(old(mem[..])))
    ensures OddCells(mem[..]) == NextPast(old(x[..]), OddCells(old(mem[..])))
  {
    hide Mul, Stream, PhaseSum, Tape, UpsampledAt, OddCells, NextPast, Upsampled;
    ghost var x0, past := x[..], OddCells(mem[..]);
    Quarters(n);
    Quarters(m);
    var xx := Reversed(x, n, m, mem);
    ghost var tape := xx[..];
    PutAll(xx, a, y, n, m, x0, past, n / 4, m / 4);
    ghost var out := y[..];
    assert xx[..] == tape;
    KeepPast(xx, n, m, mem, x0, past);
    assert y[..] == out;
  }

  lemma Quarters(n: nat)
    requires n % 4 == 0
    ensures n == 4 * (n / 4) && n / 2 == 2 * (n / 4)
  {
  }

  /** The outer loop of fir_mem_up. */
  method PutAll(xx: array<real>, a: seq<real>, y: array<real>, n: nat, m: nat,
                ghost x: seq<real>, ghost past: seq<real>, ghost quads: nat, ghost taps: nat)
    requires n == 4 * quads == 2 * |x| == y.Length && m == 4 * taps
    requires |a| == m && |past| == 2 * taps && xx.Length == m + n - 1 && xx != y && Tape(xx[..], x, past)
    modifies y
    ensures y[..] == Upsampled(a, x, past)
  {
    hide Mul, Stream, PhaseSum, Tape, UpsampledAt, Upsampled;
    ghost var tape, q := xx[..], 0;
    var i := 0;
    while i < n
      invariant 0 <= q <= quads && i == 4 * q
      invariant forall t :: 0 <= t < i ==> y[t] == UpsampledAt(a, x, past, t)
      invariant xx[..] == tape
      modifies y
    {
      PutFour(xx, a, y, n, m, i, x, past, 2 * q, taps);
      i := i + 4;
      q := q + 1;
    }
  }

  /** The next four outputs, stored. */
  method PutFour(xx: array<real>, a: seq<real>, y: array<real>, n: nat, m: nat, i: nat,
                 ghost x: seq<real>, ghost past: seq<real>, ghost p: nat, ghost taps: nat)
    requires n == 2 * |x| == y.Length && i == 2 * p && m == 4 * taps && p + 2 <= |x|
    requires |a| == m && |past| == 2 * taps && xx.Length == m + n - 1 && xx != y && Tape(xx[..], x, past)
    modifies y
    ensures forall t :: i <= t < i + 4 ==> y[t] == UpsampledAt(a, x, past, t)
    ensures forall t :: 0 <= t < n && !(i <= t < i + 4) ==> y[t] == old(y[t])
  {
    hide Mul, Stream, PhaseSum, Tape, UpsampledAt;
    var y0, y1, y2, y3 := FourOutputs(xx[..], a, n, m, i, x, past, p, taps);
    UpsampledPair(a, x, past, p);
    UpsampledPair(a, x, past, p + 1);
    y[i] := y0;
    y[i + 1] := y1;
    y[i + 2] := y2;
    y[i + 3] := y3;
  }

  /** The first two loops of fir_mem_up: the block reversed, then the remembered past. */
  method Reversed(x: array<real>, n: nat, m: nat, mem: array<real>) returns (xx: array<real>)
    requires n % 4 == 0 && m % 4 == 0 && 0 < m <= n && x.Length == n / 2 && mem.Length == m
    ensures fresh(xx) && xx.Length == m + n - 1 && Tape(xx[..], x[..], OddCells(mem[..]))
  {
    hide OddCells, Back, Tape;
    Quarters(n);
    Quarters(m);
    ghost var past := OddCells(mem[..]);
    xx := new real[m + n - 1];
    ReverseBlock(xx, x, n, past, n / 2);
    RecallPast(xx, mem, n, m, x[..], past, n / 2, m / 2);
  }

  method ReverseBlock(xx: array<real>, x: array<real>, n: nat, ghost past: seq<real>, half: nat)
    requires x.Length == n / 2 == half && n == 2 * half <= xx.Length + 1 && xx != x
    modifies xx
    ensures forall t :: 0 <= t < half ==> xx[2 * t] == Back(x[..], past, t)
  {
    hide Back;
    for i := 0 to half
      invariant forall t :: 0 <= t < i ==> xx[2 * t] == Back(x[..], past, t)
    {
      BackAt(x[..], past, i);
      xx[2 * i] := x[n / 2 - 1 - i];
    }
  }

  method RecallPast(xx: array<real>, mem: array<real>, n: nat, m: nat,
                    ghost x: seq<real>, ghost past: seq<real>, ghost half: nat, ghost taps: nat)
    requires n == 2 * half && m == 2 * taps == mem.Length && |x| == half && past == OddCells(mem[..])
    requires xx.Length == m + n - 1 && xx != mem
    requires forall t :: 0 <= t < half ==> xx[2 * t] == Back(x, past, t)
    modifies xx
    ensures Tape(xx[..], x, past)
  {
    hide OddCells, Back;
    var i := 0;
    ghost var k := 0;
    while i < m - 1
      invariant 0 <= k <= taps && i == 2 * k
      invariant forall t :: 0 <= t < half + k ==> xx[2 * t] == Back(x, past, t)
    {
      BackAt(x, past, half + k);
      assert past[k] == mem[i + 1];
      assert n + i == 2 * (half + k);
      xx[n + i] := mem[i + 1];
      i := i + 2;
      k := k + 1;
    }
  }

  lemma BackAt(x: seq<real>, past: seq<real>, t: nat)
    requires t < |x| + |past|
    ensures Back(x, past, t) == if t < |x| then x[|x| - 1 - t] else past[t - |x|]
  {
  }

  /** The last loop of fir_mem_up: the newest samples become the past. */
  method KeepPast(xx: array<real>, n: nat, m: nat, mem: array<real>, ghost x: seq<real>, ghost past: seq<real>)
    requires n % 4 == 0 && m % 4 == 0 && 0 < m <= n && |x| == n / 2 && mem.Length == m && |past| == m / 2
    requires xx != mem && Tape(xx[..], x, past)
    modifies mem
    ensures OddCells(mem[..]) == NextPast(x, past)
  {
    hide Stream, Tape;
    var i := 0;
    while i < m - 1
      invariant 0 <= i <= m && i % 2 == 0
      invariant forall t :: 0 <= t < i / 2 ==> mem[2 * t + 1] == Stream(x, past, |x| - 1 - t)
    {
      TapeAt(xx[..], x, past, i / 2);
      assert i == 2 * (i / 2);
      mem[i + 1] := xx[i];
      i := i + 2;
    }
  }

  /** The even cells of the work buffer hold the stream, newest first. */
  ghost predicate Tape(xx: seq<real>, x: seq<real>, past: seq<real>) {
    forall t :: 0 <= t < |x| + |past| ==> 2 * t < |xx| && xx[2 * t] == Back(x, past, t)
  }

  lemma TapeAt(xx: seq<real>, x: seq<real>, past: seq<real>, t: nat)
    requires Tape(xx, x, past) && t < |x| + |past|
    ensures 2 * t < |xx| && xx[2 * t] == Stream(x, past, |x| - 1 - t)
  {
    assert xx[2 * t] == Back(x, past, t);
  }

  /** The inner loop of fir_mem_up. */
  method FourOutputs(xx: seq<real>, a: seq<real>, n: nat, m: nat, i: nat,
                     ghost x: seq<real>, ghost past: seq<real>, ghost p: nat, ghost taps: nat)
    returns (y0: real, y1: real, y2: real, y3: real)
    requires n == 2 * |x| && i == 2 * p && m == 4 * taps && p + 2 <= |x|
    requires |a| == m && |past| == 2 * taps && |xx| == m + n - 1 && Tape(xx, x, past)
    ensures y0 == PhaseSum(a, x, past, p, 0, 2 * taps) && y1 == PhaseSum(a, x, past, p, 1, 2 * taps)
    ensures y2 == PhaseSum(a, x, past, p + 1, 0, 2 * taps) && y3 == PhaseSum(a, x, past, p + 1, 1, 2 * taps)
  {
    hide Mul, Stream, PhaseSum, Tape;
    y0, y1, y2, y3 := 0.0, 0.0, 0.0, 0.0;
    PhaseStart(a, x, past, p);
    PhaseStart(a, x, past, p + 1);
    TapeAt(xx, x, past, |x| - 2 - p);
    var x0 := xx[n - 4 - i];
    ghost var r := 0;
    var j := 0;
    while j < m
      invariant 0 <= r <= taps && j == 4 * r
      invariant x0 == Stream(x, past, p + 1 - 2 * r)
      invariant y0 == PhaseSum(a, x, past, p, 0, 2 * r) && y1 == PhaseSum(a, x, past, p, 1, 2 * r)
      invariant y2 == PhaseSum(a, x, past, p + 1, 0, 2 * r) && y3 == PhaseSum(a, x, past, p + 1, 1, 2 * r)
    {
      var a0, a1 := a[j], a[j + 1];
      TapeAt(xx, x, past, |x| - 1 + 2 * r - p);
      var x1 := xx[n - 2 + j - i];
      PhaseStep(a, x, past, p, 2 * r);
      PhaseStep(a, x, past, p + 1, 2 * r);
      y0, y1, y2, y3 := y0 + Mul(a0, x1), y1 + Mul(a1, x1), y2 + Mul(a0, x0), y3 + Mul(a1, x0);
      a0, a1 := a[j + 2], a[j + 3];
      TapeAt(xx, x, past, |x| + 2 * r - p);
      x0 := xx[n + j - i];
      PhaseStep(a, x, past, p, 2 * r + 1);
      PhaseStep(a, x, past, p + 1, 2 * r + 1);
      y0, y1, y2, y3 := y0 + Mul(a0, x0), y1 + Mul(a1, x0), y2 + Mul(a0, x1), y3 + Mul(a1, x1);
      j := j + 4;
      r := r + 1;
    }
  }

  lemma PhaseStart(a: seq<real>, x: seq<real>, past: seq<real>, p: int)
    ensures PhaseSum(a, x, past, p, 0, 0) == 0.0 == PhaseSum(a, x, past, p, 1, 0)
  {
  }

  lemma PhaseStep(a: seq<real>, x: seq<real>, past: seq<real>, p: int, k: nat)
    requires 2 * k + 1 < |a|
    ensures PhaseSum(a, x, past, p, 0, k + 1) == PhaseSum(a, x, past, p, 0, k) + Mul(a[2 * k], Stream(x, past, p - k))
    ensures PhaseSum(a, x, past, p, 1, k + 1) == PhaseSum(a, x, past, p, 1, k) + Mul(a[2 * k + 1], Stream(x, past, p - k))
  {
  }

  // ----- blocks of input -----

  lemma {:induction false} PhaseContinues(a: seq<real>, x: seq<real>, w: seq<real>, past: seq<real>, p: nat, q: nat, m: nat)
    requires m <= |past| + 1 && p < |w|
    ensures PhaseSum(a, x + w, past, |x| + p, q, m) == PhaseSum(a, w, NextPast(x, past), p, q, m)
  {
    hide Mul;
    if m > 0 {
      PhaseContinues(a, x, w, past, p, q, m - 1);
      assert Stream(x + w, past, |x| + p - (m - 1)) == Stream(w, NextPast(x, past), p - (m - 1));
    }
  }

  lemma {:induction false} PhaseLooksBack(a: seq<real>, x: seq<real>, w: seq<real>, past: seq<real>, p: nat, q: nat, m: nat)
    requires p < |x|
    ensures PhaseSum(a, x + w, past, p, q, m) == PhaseSum(a, x, past, p, q, m)
  {
    hide Mul;
    if m > 0 {
      PhaseLooksBack(a, x, w, past, p, q, m - 1);
      assert Stream(x + w, past, p - (m - 1)) == Stream(x, past, p - (m - 1));
    }
  }

  lemma NextPastContinues(x: seq<real>, w: seq<real>, past: seq<real>)
    ensures NextPast(x + w, past) == NextPast(w, NextPast(x, past))
  {
  }

  /** Upsampling two blocks in turn is upsampling their concatenation. */
  lemma UpsampledContinues(a: seq<real>, x: seq<real>, w: seq<real>, past: seq<real>)
    requires |past| == |a| / 2
    ensures Upsampled(a, x + w, past) == Upsampled(a, x, past) + Upsampled(a, w, NextPast(x, past))
  {
    hide Mul, PhaseSum;
    var whole, first, second := Upsampled(a, x + w, past), Upsampled(a, x, past), Upsampled(a, w, NextPast(x, past));
    forall i | 0 <= i < |whole|
      ensures whole[i] == (first + second)[i]
    {
      if i < 2 * |x| {
        PhaseLooksBack(a, x, w, past, i / 2, i % 2, |a| / 2);
      } else {
        var k := i - 2 * |x|;
        assert i / 2 == |x| + k / 2 && i % 2 == k % 2;
        PhaseContinues(a, x, w, past, k / 2, k % 2, |a| / 2);
      }
    }
  }

  /** All the input blocks in a row. */
  function Concat(blocks: seq<seq<real>>): (x: seq<real>) {
    if blocks == [] then [] else Concat(blocks[..|blocks| - 1]) + blocks[|blocks| - 1]
  }

  /** The memory after a run of blocks. */
  function PastAfter(blocks: seq<seq<real>>, past: seq<real>): (p: seq<real>)
    ensures |p| == |past|
  {
    if blocks == [] then past else NextPast(blocks[|blocks| - 1], PastAfter(blocks[..|blocks| - 1], past))
  }

  /** The outputs of successive calls, in a row. */
  function UpsampledBlocks(a: seq<real>, blocks: seq<seq<real>>, past: seq<real>): (y: seq<real>) {
    if blocks == [] then []
    else
      var before := blocks[..|blocks| - 1];
      UpsampledBlocks(a, before, past) + Upsampled(a, blocks[|blocks| - 1], PastAfter(before, past))
  }

  /** A signal with a zero after every sample. */
  function Stuffed(x: seq<real>): (s: seq<real>)
    ensures |s| == 2 * |x|
    ensures forall i :: 0 <= i < 2 * |x| ==> s[i] == if i % 2 == 0 then x[i / 2] else 0.0
  {
    seq(2 * |x|, i requires 0 <= i < 2 * |x| => if i % 2 == 0 then x[i / 2] else 0.0)
  }

  lemma {:induction false} BlocksInARow(a: seq<real>, blocks: seq<seq<real>>, past: seq<real>)
    requires |past| == |a| / 2
    ensures UpsampledBlocks(a, blocks, past) == Upsampled(a, Concat(blocks), past)
  {
    hide Upsampled;
    if blocks == [] {
      assert Upsampled(a, [], past) == [];
    } else {
      var before := blocks[..|blocks| - 1];
      BlocksInARow(a, before, past);
      PastInARow(before, past);
      UpsampledContinues(a, Concat(before), blocks[|blocks| - 1], past);
    }
  }

  lemma {:induction false} PhaseIsConvolution(a: seq<real>, x: seq<real>, past: seq<real>, p: nat, q: nat, k: nat)
    requires |a| % 2 == 0 && q < 2 && p < |x| && k <= |a| / 2 && past == Zeros(|a| / 2)
    ensures PhaseSum(a, x, past, p, q, |a| / 2) - PhaseSum(a, x, past, p, q, k)
            == ConvAt(a[2 * k..], Stuffed(x), 2 * (p - k) + q)
    decreases |a| - 2 * k
  {
    hide Mul, Stuffed, Stream, ConvAt, PhaseSum;
    var s := Stuffed(x);
    var t := 2 * (p - k) + q;
    if 2 * k < |a| {
      PhaseIsConvolution(a, x, past, p, q, k + 1);
      assert a[2 * k..][2..] == a[2 * (k + 1)..];
      StuffedAround(x, past, p - k, q);
      TwoTaps(a[2 * k..], s, t, q);
      assert a[2 * k..][q] == At(a, 2 * k + q);
      MulUnits(At(a, 2 * k + q));
      PhaseSumStep(a, x, past, p, q, k);
    } else {
      NoTaps(a[2 * k..], s, t);
    }
  }

  lemma NoTaps(b: seq<real>, s: seq<real>, t: int)
    requires b == [] && t < |s|
    ensures ConvAt(b, s, t) == 0.0
  {
  }

  /** The stuffed signal around sample j: the sample at an even place, zeros beside it. */
  lemma StuffedAround(x: seq<real>, past: seq<real>, j: int, q: nat)
    requires j < |x| && q < 2 && past == Zeros(|past|)
    ensures var s, t := Stuffed(x), 2 * j + q;
            && (t > 0 && q == 0 ==> s[t - 1] == 0.0)
            && (t >= 0 && q == 1 ==> t >= 1 && s[t] == 0.0)
            && Stream(x, past, j) == if t < 0 then 0.0 else At(s, t - q)
  {
    var s, t := Stuffed(x), 2 * j + q;
    if j >= 0 {
      assert (2 * j) % 2 == 0 && (2 * j) / 2 == j && (2 * j + 1) % 2 == 1;
      assert j > 0 ==> (2 * j - 1) % 2 == 1;
    }
  }

  lemma PhaseSumStep(a: seq<real>, x: seq<real>, past: seq<real>, p: int, q: nat, k: nat)
    ensures PhaseSum(a, x, past, p, q, k + 1)
            == PhaseSum(a, x, past, p, q, k) + Mul(At(a, 2 * k + q), Stream(x, past, p - k))
  {
  }

  /** Two taps on a signal with a zero after every sample: one of them meets a zero. */
  lemma TwoTaps(b: seq<real>, s: seq<real>, t: int, q: nat)
    requires |b| >= 2 && t < |s| && q < 2
    requires t >= 0 && q == 0 && t > 0 ==> s[t - 1] == 0.0
    requires t >= 0 && q == 1 ==> t >= 1 && s[t] == 0.0
    ensures ConvAt(b, s, t) - ConvAt(b[2..], s, t - 2) == if t < 0 then 0.0 else Mul(b[q], At(s, t - q))
  {
    MulUnits(b[0]);
    MulUnits(b[1]);
    hide Mul;
    assert b[1..][1..] == b[2..];
    if t > 0 {
      assert ConvAt(b, s, t) == Mul(b[0], s[t]) + (Mul(b[1], s[t - 1]) + ConvAt(b[2..], s, t - 2));
    } else {
      assert ConvAt(b[1..], s, t - 1) == 0.0;
    }
  }

  /** Started from silence, any number of calls on blocks of any length together convolve the
      zero-stuffed input with the whole filter. */
  lemma UpsamplingIsInterpolation(a: seq<real>, blocks: seq<seq<real>>)
    requires |a| % 2 == 0
    ensures UpsampledBlocks(a, blocks, Zeros(|a| / 2)) == Fir(a, Stuffed(Concat(blocks)))
  {
    hide Mul, PhaseSum, Upsampled, UpsampledAt, Fir, ConvAt, Stuffed;
    var past, x := Zeros(|a| / 2), Concat(blocks);
    BlocksInARow(a, blocks, past);
    StuffedLength(a, x);
    forall i | 0 <= i < 2 * |x|
      ensures Upsampled(a, x, past)[i] == Fir(a, Stuffed(x))[i]
    {
      UpsampledIsConvolution(a, x, past, i);
    }
  }

  lemma StuffedLength(a: seq<real>, x: seq<real>)
    ensures |Fir(a, Stuffed(x))| == 2 * |x|
  {
  }

  lemma UpsampledIsConvolution(a: seq<real>, x: seq<real>, past: seq<real>, i: nat)
    requires |a| % 2 == 0 && past == Zeros(|a| / 2) && i < 2 * |x|
    ensures |Fir(a, Stuffed(x))| == 2 * |x| && Upsampled(a, x, past)[i] == Fir(a, Stuffed(x))[i]
  {
    hide Mul, PhaseSum;
    PhaseIsConvolution(a, x, past, i / 2, i % 2, 0);
    assert a[2 * 0..] == a;
    PhaseEmpty(a, x, past, i / 2, i % 2);
  }

  lemma PhaseEmpty(a: seq<real>, x: seq<real>, past: seq<real>, p: int, q: nat)
    ensures PhaseSum(a, x, past, p, q, 0) == 0.0
  {
  }

  // ----- qmf_decomp -----

  /** The folded sum over j < m of a[M-1-j] * (x[i+j-(M-1)] + x[i-j]), as the low band computes it. */
  function FoldedLow(a: seq<real>, x: seq<real>, past: seq<real>, i: nat, m: nat): real
    requires m <= |a|
  {
    if m == 0 then 0.0
    else FoldedLow(a, x, past, i, m - 1)
         + Mul(a[|a| - m], Stream(x, past, i + m - |a|) + Stream(x, past, i - (m - 1)))
  }

  /** The same with alternating signs and differences, as the high band computes it. */
  function FoldedHigh(a: seq<real>, x: seq<real>, past: seq<real>, i: nat, m: nat): real
    requires m <= |a|
  {
    if m == 0 then 0.0
    else
      var term := Mul(a[|a| - m], Stream(x, past, i + m - |a|) - Stream(x, past, i - (m - 1)));
      FoldedHigh(a, x, past, i, m - 1) + (if m % 2 == 1 then -term else term)
  }

  /** qmf_decomp: both bands of a block of n samples, half as many samples each. */
  method QmfDecomp(xx: array<real>, aa: seq<real>, y1: array<real>, y2: array<real>, n: nat, m: nat, mem: array<real>)
    requires m % 4 == 0 && 0 < m == |aa| && n % 2 == 0 && m - 1 <= n
    requires xx.Length == n && y1.Length == y2.Length == n / 2 && mem.Length == m - 1
    requires y1 != y2 && mem != y1 && mem != y2 && xx != y1 && xx != y2 && xx != mem
    modifies y1, y2, mem
    ensures y1[..] == LowBand(aa, xx[..], old(mem[..]))
    ensures y2[..] == HighBand(aa, xx[..], old(mem[..]))
    ensures mem[..] == NextPast(xx[..], old(mem[..]))
  {
    hide Mul, FoldedLow, FoldedHigh;
    ghost var past, x0 := mem[..], xx[..];
    var a, x := new real[m], new real[n + m - 1];
    for i := 0 to m
      invariant forall t :: m - i <= t < m ==> a[t] == aa[m - 1 - t]
      modifies a
    {
      a[m - i - 1] := aa[i];
    }
    for i := 0 to m - 1
      invariant forall t :: 0 <= t < i ==> x[t] == Stream(x0, past, t - (m - 1))
      invariant forall t :: 0 <= t < m ==> a[t] == aa[m - 1 - t]
      modifies x
    {
      x[i] := mem[m - i - 2];
    }
    for i := 0 to n
      invariant forall t :: 0 <= t < i + m - 1 ==> x[t] == Stream(x0, past, t - (m - 1))
      invariant forall t :: 0 <= t < m ==> a[t] == aa[m - 1 - t]
      modifies x
    {
      x[i + m - 1] := xx[i];
    }
    var i, k := 0, 0;
    while i < n
      invariant 0 <= i <= n && i == 2 * k
      invariant forall t :: 0 <= t < k ==> y1[t] == FoldedLow(aa, x0, past, 2 * t, m / 2)
      invariant forall t :: 0 <= t < k ==> y2[t] == FoldedHigh(aa, x0, past, 2 * t, m / 2)
      modifies y1, y2
    {
      y1[k], y2[k] := Bands(a[..], x[..], m, i, aa, x0, past);
      i := i + 2;
      k := k + 1;
    }
    for i := 0 to m - 1
      invariant forall t :: 0 <= t < i ==> mem[t] == NextPast(x0, past)[t]
      modifies mem
    {
      mem[i] := xx[n - i - 1];
    }
  }

  /** The inner loop of qmf_decomp, two taps a turn. */
  method Bands(a: seq<real>, x: seq<real>, m: nat, i: nat, ghost aa: seq<real>, ghost x0: seq<real>, ghost past: seq<real>)
    returns (low: real, high: real)
    requires m % 4 == 0 && 0 < m == |a| == |aa| && |past| == m - 1
    requires i < |x0| && |x| == |x0| + m - 1
    requires forall t :: 0 <= t < m ==> a[t] == aa[m - 1 - t]
    requires forall t :: 0 <= t < |x| ==> x[t] == Stream(x0, past, t - (m - 1))
    ensures low == FoldedLow(aa, x0, past, i, m / 2) && high == FoldedHigh(aa, x0, past, i, m / 2)
  {
    hide Mul, Stream;
    low, high := 0.0, 0.0;
    var j := 0;
    while j < m / 2
      invariant 0 <= j <= m / 2 && j % 2 == 0
      invariant low == FoldedLow(aa, x0, past, i, j) && high == FoldedHigh(aa, x0, past, i, j)
    {
      assert x[i + j] == Stream(x0, past, i + (j + 1) - m) && x[m - 1 + i - j] == Stream(x0, past, i - j);
      low := low + Mul(a[j], x[i + j] + x[m - 1 + i - j]);
      high := high - Mul(a[j], x[i + j] - x[m - 1 + i - j]);
      assert low == FoldedLow(aa, x0, past, i, j + 1) && high == FoldedHigh(aa, x0, past, i, j + 1);
      j := j + 1;
      assert x[i + j] == Stream(x0, past, i + (j + 1) - m) && x[m - 1 + i - j] == Stream(x0, past, i - j);
      low := low + Mul(a[j], x[i + j] + x[m - 1 + i - j]);
      high := high + Mul(a[j], x[i + j] - x[m - 1 + i - j]);
      j := j + 1;
    }
  }

  /** The sum over k < m of a[k] * stream[i - k]. */
  function TapSum(a: seq<real>, x: seq<real>, past: seq<real>, i: int, m: nat): real
    requires m <= |a|
  {
    if m == 0 then 0.0 else TapSum(a, x, past, i, m - 1) + Mul(a[m - 1], Stream(x, past, i - (m - 1)))
  }

  /** Every second coefficient negated. */
  function Alternated(a: seq<real>): (b: seq<real>)
    ensures |b| == |a|
    ensures forall k :: 0 <= k < |a| ==> b[k] == if k % 2 == 0 then a[k] else -a[k]
  {
    seq(|a|, k requires 0 <= k < |a| => if k % 2 == 0 then a[k] else -a[k])
  }

  ghost predicate Symmetric(a: seq<real>) {
    forall k :: 0 <= k < |a| ==> a[|a| - 1 - k] == a[k]
  }

  lemma {:induction false} LowUnfolds(a: seq<real>, x: seq<real>, past: seq<real>, i: nat, m: nat)
    requires Symmetric(a) && 2 * m <= |a|
    ensures FoldedLow(a, x, past, i, m)
            == TapSum(a, x, past, i, m) + TapSum(a, x, past, i, |a|) - TapSum(a, x, past, i, |a| - m)
  {
    hide Mul, Stream;
    if m > 0 {
      LowUnfolds(a, x, past, i, m - 1);
      assert a[|a| - m] == a[|a| - 1 - (m - 1)] == a[m - 1];
      MulPlus(a[m - 1], Stream(x, past, i + m - |a|), Stream(x, past, i - (m - 1)));
      assert TapSum(a, x, past, i, |a| - m + 1)
          == TapSum(a, x, past, i, |a| - m) + Mul(a[|a| - m], Stream(x, past, i - (|a| - m)));
    }
  }

  lemma AlternatedPair(a: seq<real>, m: nat)
    requires Symmetric(a) && 1 <= m && 2 * m <= |a| && |a| % 2 == 0
    ensures a[|a| - m] == a[m - 1]
    ensures Alternated(a)[m - 1] == if m % 2 == 1 then a[m - 1] else -a[m - 1]
    ensures Alternated(a)[|a| - m] == if m % 2 == 1 then -a[m - 1] else a[m - 1]
  {
    assert a[|a| - m] == a[|a| - 1 - (m - 1)] == a[m - 1];
    assert (|a| - m) % 2 == m % 2;
  }

  lemma {:induction false} HighUnfolds(a: seq<real>, x: seq<real>, past: seq<real>, i: nat, m: nat)
    requires Symmetric(a) && 2 * m <= |a| && |a| % 2 == 0
    ensures var b := Alternated(a);
            FoldedHigh(a, x, past, i, m)
            == TapSum(b, x, past, i, m) + TapSum(b, x, past, i, |a|) - TapSum(b, x, past, i, |a| - m)
  {
    hide Mul, Stream, Symmetric, Alternated;
    if m > 0 {
      HighUnfolds(a, x, past, i, m - 1);
      AlternatedPair(a, m);
      var b, c := Alternated(a), a[m - 1];
      var u, v := Stream(x, past, i + m - |a|), Stream(x, past, i - (m - 1));
      MulMinus(c, u, v);
      MulNegatesLeft(c, u);
      MulNegatesLeft(c, v);
      assert TapSum(b, x, past, i, |a| - m + 1) == TapSum(b, x, past, i, |a| - m) + Mul(b[|a| - m], u);
      assert TapSum(b, x, past, i, m) == TapSum(b, x, past, i, m - 1) + Mul(b[m - 1], v);
    }
  }

  /** For a symmetric filter the folded loops compute the two full filters: the low band all the
      taps, the high band the taps with alternating signs. */
  lemma FoldedBandsAreFullSums(a: seq<real>, x: seq<real>, past: seq<real>, i: nat)
    requires Symmetric(a) && |a| % 2 == 0
    ensures FoldedLow(a, x, past, i, |a| / 2) == TapSum(a, x, past, i, |a|)
    ensures FoldedHigh(a, x, past, i, |a| / 2) == TapSum(Alternated(a), x, past, i, |a|)
  {
    hide FoldedLow, FoldedHigh, TapSum, Alternated, Symmetric;
    LowUnfolds(a, x, past, i, |a| / 2);
    HighUnfolds(a, x, past, i, |a| / 2);
  }

  /** Two blocks in turn are the whole stream: the memory carries what the filter needs. */
  lemma {:induction false} TapSumContinues(a: seq<real>, x: seq<real>, w: seq<real>, past: seq<real>, i: nat, m: nat)
    requires m <= |a| && |a| <= |past| + 1 && i < |w|
    ensures TapSum(a, x + w, past, |x| + i, m) == TapSum(a, w, NextPast(x, past), i, m)
  {
    hide Mul;
    if m > 0 {
      TapSumContinues(a, x, w, past, i, m - 1);
      assert Stream(x + w, past, |x| + i - (m - 1)) == Stream(w, NextPast(x, past), i - (m - 1));
    }
  }

  lemma {:induction false} TapSumIsConvolution(a: seq<real>, x: seq<real>, n: nat, i: nat, k: nat)
    requires i < |x| && k <= |a|
    ensures TapSum(a, x, Zeros(n), i, |a|) - TapSum(a, x, Zeros(n), i, k) == ConvAt(a[k..], x, i - k)
    decreases |a| - k
  {
    hide Mul;
    if k < |a| {
      TapSumIsConvolution(a, x, n, i, k + 1);
      assert a[k..][1..] == a[k + 1..] && a[k..][0] == a[k];
      MulUnits(a[k]);
      assert TapSum(a, x, Zeros(n), i, k + 1)
          == TapSum(a, x, Zeros(n), i, k) + Mul(a[k], Stream(x, Zeros(n), i - k));
      if i < k {
        assert ConvAt(a[k + 1..], x, i - (k + 1)) == 0.0;
      }
    }
  }

  /** What qmf_decomp gives for one block, by the contract of `QmfDecomp`. */
  function LowBand(a: seq<real>, x: seq<real>, past: seq<real>): (y: seq<real>)
    ensures |y| == |x| / 2
    ensures forall k :: 0 <= k < |x| / 2 ==> y[k] == FoldedLow(a, x, past, 2 * k, |a| / 2)
  {
    seq(|x| / 2, k requires 0 <= k < |x| / 2 => FoldedLow(a, x, past, 2 * k, |a| / 2))
  }

  function HighBand(a: seq<real>, x: seq<real>, past: seq<real>): (y: seq<real>)
    ensures |y| == |x| / 2
    ensures forall k :: 0 <= k < |x| / 2 ==> y[k] == FoldedHigh(a, x, past, 2 * k, |a| / 2)
  {
    seq(|x| / 2, k requires 0 <= k < |x| / 2 => FoldedHigh(a, x, past, 2 * k, |a| / 2))
  }

  /** The bands of successive calls, in a row. */
  function LowBands(a: seq<real>, blocks: seq<seq<real>>, past: seq<real>): (y: seq<real>) {
    if blocks == [] then []
    else
      var before := blocks[..|blocks| - 1];
      LowBands(a, before, past) + LowBand(a, blocks[|blocks| - 1], PastAfter(before, past))
  }

  function HighBands(a: seq<real>, blocks: seq<seq<real>>, past: seq<real>): (y: seq<real>) {
    if blocks == [] then []
    else
      var before := blocks[..|blocks| - 1];
      HighBands(a, before, past) + HighBand(a, blocks[|blocks| - 1], PastAfter(before, past))
  }

  /** Every second sample. */
  function Decimated(y: seq<real>): (d: seq<real>)
    ensures |d| == |y| / 2
    ensures forall k :: 0 <= k < |y| / 2 ==> d[k] == y[2 * k]
  {
    seq(|y| / 2, k requires 0 <= k < |y| / 2 => y[2 * k])
  }

  lemma {:induction false} PastInARow(blocks: seq<seq<real>>, past: seq<real>)
    ensures PastAfter(blocks, past) == NextPast(Concat(blocks), past)
  {
    if blocks == [] {
      assert NextPast([], past) == past;
    } else {
      var before, w := blocks[..|blocks| - 1], blocks[|blocks| - 1];
      PastInARow(before, past);
      NextPastContinues(Concat(before), w, past);
    }
  }

  /** One more block extends the decimated output of the full filter. */
  lemma DecimatedContinues(a: seq<real>, x: seq<real>, w: seq<real>, past: seq<real>)
    requires |past| + 1 == |a| && past == Zeros(|past|) && |x| % 2 == 0 && |w| % 2 == 0
    ensures Decimated(Fir(a, x + w))
            == Decimated(Fir(a, x)) + TapSums(a, w, NextPast(x, past))
  {
    hide TapSum, ConvAt, Fir, Decimated, NextPast, TapSums;
    var more := TapSums(a, w, NextPast(x, past));
    forall k | 0 <= k < |x + w| / 2
      ensures Decimated(Fir(a, x + w))[k] == (Decimated(Fir(a, x)) + more)[k]
    {
      if k < |x| / 2 {
        DecimatedBefore(a, x, w, k);
      } else {
        DecimatedAfter(a, x, w, past, k - |x| / 2);
      }
    }
  }

  lemma DecimatedBefore(a: seq<real>, x: seq<real>, w: seq<real>, k: nat)
    requires |x| % 2 == 0 && k < |x| / 2
    ensures |Fir(a, x + w)| == |x + w| && |Fir(a, x)| == |x| && Fir(a, x + w)[2 * k] == Fir(a, x)[2 * k]
  {
    hide ConvAt;
    FirCausal(a, x + w, |x|);
    assert (x + w)[..|x|] == x;
  }

  lemma DecimatedAfter(a: seq<real>, x: seq<real>, w: seq<real>, past: seq<real>, t: nat)
    requires |past| + 1 == |a| && past == Zeros(|past|) && |x| % 2 == 0 && |w| % 2 == 0 && t < |w| / 2
    ensures |Fir(a, x + w)| == |x + w|
    ensures Fir(a, x + w)[2 * (|x| / 2 + t)] == TapSum(a, w, NextPast(x, past), 2 * t, |a|)
  {
    hide TapSum, ConvAt;
    var k := |x| / 2 + t;
    TapSumContinues(a, x, w, past, 2 * t, |a|);
    TapSumIsConvolution(a, x + w, |past|, 2 * k, 0);
    TapSumEmpty(a, x + w, past, 2 * k);
    assert a[0..] == a;
  }

  lemma TapSumEmpty(a: seq<real>, x: seq<real>, past: seq<real>, i: int)
    ensures TapSum(a, x, past, i, 0) == 0.0
  {
  }

  /** Started from silence, successive calls split the whole input into two bands: the input
      through the filter, and through its mirror image, keeping every second sample. */
  lemma {:induction false} BandsAreDecimatedFilters(a: seq<real>, blocks: seq<seq<real>>)
    requires Symmetric(a) && |a| % 2 == 0 && a != []
    requires forall b :: b in blocks ==> |b| % 2 == 0
    ensures |Concat(blocks)| % 2 == 0
    ensures LowBands(a, blocks, Zeros(|a| - 1)) == Decimated(Fir(a, Concat(blocks)))
    ensures HighBands(a, blocks, Zeros(|a| - 1)) == Decimated(Fir(Alternated(a), Concat(blocks)))
    decreases |blocks|
  {
    hide LowBand, HighBand, TapSum, ConvAt, Alternated, Symmetric, Decimated, Fir, PastAfter, NextPast, TapSums;
    var past := Zeros(|a| - 1);
    if blocks == [] {
      NothingDecimated(a);
      NothingDecimated(Alternated(a));
    } else {
      var before, w := blocks[..|blocks| - 1], blocks[|blocks| - 1];
      BandsAreDecimatedFilters(a, before);
      var x := Concat(before);
      PastInARow(before, past);
      DecimatedContinues(a, x, w, past);
      DecimatedContinues(Alternated(a), x, w, past);
      BandsAreTapSums(a, w, NextPast(x, past));
    }
  }

  lemma NothingDecimated(a: seq<real>)
    ensures Decimated(Fir(a, [])) == []
  {
  }

  /** Every second sum over the taps, for one block. */
  function TapSums(a: seq<real>, w: seq<real>, past: seq<real>): (y: seq<real>)
    ensures |y| == |w| / 2
    ensures forall k :: 0 <= k < |y| ==> y[k] == TapSum(a, w, past, 2 * k, |a|)
  {
    seq(|w| / 2, k requires 0 <= k < |w| / 2 => TapSum(a, w, past, 2 * k, |a|))
  }

  lemma BandsAreTapSums(a: seq<real>, w: seq<real>, past: seq<real>)
    requires Symmetric(a) && |a| % 2 == 0
    ensures LowBand(a, w, past) == TapSums(a, w, past)
    ensures HighBand(a, w, past) == TapSums(Alternated(a), w, past)
  {
    hide FoldedLow, FoldedHigh, TapSum, Symmetric, LowBand, HighBand, TapSums;
    forall k | 0 <= k < |w| / 2
      ensures LowBand(a, w, past)[k] == TapSums(a, w, past)[k]
      ensures HighBand(a, w, past)[k] == TapSums(Alternated(a), w, past)[k]
    {
      FoldedBandsAreFullSums(a, w, past, 2 * k);
    }
  }
}
