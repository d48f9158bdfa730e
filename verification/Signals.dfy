/** Finite real signals and the convolution operator that the filter modules are specified with. */
module Signals {

  /** A product of samples. It has a name so that a proof can hide it and do linear arithmetic
      over products. */
  function Mul(a: real, b: real): real {
    a * b
  }

  lemma MulPlus(c: real, u: real, v: real)
    ensures Mul(c, u + v) == Mul(c, u) + Mul(c, v)
    ensures Mul(u + v, c) == Mul(u, c) + Mul(v, c)
  {
  }

  lemma MulMinus(c: real, u: real, v: real)
    ensures Mul(c, u - v) == Mul(c, u) - Mul(c, v)
    ensures Mul(u - v, c) == Mul(u, c) - Mul(v, c)
  {
  }

  lemma MulAssociates(c: real, u: real, v: real)
    ensures Mul(c, Mul(u, v)) == Mul(u, Mul(c, v)) == Mul(Mul(c, u), v)
  {
  }

  lemma MulUnits(x: real)
    ensures Mul(1.0, x) == x == Mul(x, 1.0)
    ensures Mul(0.0, x) == 0.0 == Mul(x, 0.0)
  {
  }

  lemma MulNegates(u: real, v: real)
    ensures Mul(u, -v) == -Mul(u, v)
  {
  }

  lemma MulNegatesLeft(u: real, v: real)
    ensures Mul(-u, v) == -Mul(u, v)
  {
  }

  lemma MulCommutes(u: real, v: real)
    ensures Mul(u, v) == Mul(v, u)
  {
  }

  /** Element `k` of a coefficient list, read as zero outside the list. */
  function At(a: seq<real>, k: int): real {
    if 0 <= k < |a| then a[k] else 0.0
  }

  /** `n` zeros. */
  function Zeros(n: nat): (z: seq<real>) {
    seq(n, _ => 0.0)
  }

  /** The unit impulse of length `n`. */
  function Impulse(n: nat): (d: seq<real>) {
    seq(n, i => if i == 0 then 1.0 else 0.0)
  }

  /** `a` cut or zero-padded to `n` elements. */
  function Fit(a: seq<real>, n: nat): (f: seq<real>) {
    seq(n, i => At(a, i))
  }

  function Plus(x: seq<real>, y: seq<real>): (z: seq<real>)
    requires |x| == |y|
    ensures |z| == |x|
    ensures forall i :: 0 <= i < |x| ==> z[i] == x[i] + y[i]
  {
    seq(|x|, i requires 0 <= i < |x| => x[i] + y[i])
  }

  function Minus(x: seq<real>, y: seq<real>): (z: seq<real>)
    requires |x| == |y|
    ensures |z| == |x|
    ensures forall i :: 0 <= i < |x| ==> z[i] == x[i] - y[i]
  {
    seq(|x|, i requires 0 <= i < |x| => x[i] - y[i])
  }

  function Scale(c: real, x: seq<real>): (z: seq<real>)
    ensures |z| == |x|
    ensures forall i :: 0 <= i < |x| ==> z[i] == Mul(c, x[i])
  {
    seq(|x|, i requires 0 <= i < |x| => Mul(c, x[i]))
  }

  /** One sample later, same length. */
  function Delay(x: seq<real>): (z: seq<real>)
    ensures |z| == |x|
    ensures forall i :: 0 <= i < |x| ==> z[i] == if i == 0 then 0.0 else x[i - 1]
  {
    if x == [] then [] else [0.0] + x[..|x| - 1]
  }

  /** Sample `n` of the convolution a * x. */
  function ConvAt(a: seq<real>, x: seq<real>, n: int): real
    requires n < |x|
    decreases |a|
  {
    if a == [] || n < 0 then 0.0 else Mul(a[0], x[n]) + ConvAt(a[1..], x, n - 1)
  }

  /** The first |x| samples of the convolution a * x. */
  function Fir(a: seq<real>, x: seq<real>): (y: seq<real>)
    ensures |y| == |x|
    ensures forall i :: 0 <= i < |x| ==> y[i] == ConvAt(a, x, i)
  {
    seq(|x|, i requires 0 <= i < |x| => ConvAt(a, x, i))
  }

  /** What the samples of `x` still owe to the convolution a * x, `j` samples after the end of `x`:
      the sum over k >= 1 of a[j + k] * x[|x| - k]. */
  function Owed(a: seq<real>, x: seq<real>, j: nat): real
    decreases |x|
  {
    if x == [] then 0.0 else Mul(At(a, j + 1), x[|x| - 1]) + Owed(a, x[..|x| - 1], j + 1)
  }

  /** The sum over k < m of a[k] * x[n - k]. */
  function ConvSum(a: seq<real>, x: seq<real>, n: nat, m: nat): real {
    if m == 0 then 0.0 else ConvSum(a, x, n, m - 1) + Mul(At(a, m - 1), At(x, n - (m - 1)))
  }

  /** The sum of squares. */
  function Energy(x: seq<real>): real {
    if x == [] then 0.0 else Energy(x[..|x| - 1]) + Mul(x[|x| - 1], x[|x| - 1])
  }

  /** The sum of products. */
  function Dot(x: seq<real>, y: seq<real>): real
    requires |x| == |y|
  {
    if x == [] then 0.0 else Dot(x[..|x| - 1], y[..|y| - 1]) + Mul(x[|x| - 1], y[|y| - 1])
  }

  lemma {:induction false} EnergyNonNegative(x: seq<real>)
    ensures Energy(x) >= 0.0
  {
    if x != [] {
      EnergyNonNegative(x[..|x| - 1]);
    }
  }

  lemma {:induction false} EnergyAppend(x: seq<real>, y: seq<real>)
    ensures Energy(x + y) == Energy(x) + Energy(y)
  {
    if y == [] {
      assert x + y == x;
    } else {
      assert (x + y)[..|x + y| - 1] == x + y[..|y| - 1];
      EnergyAppend(x, y[..|y| - 1]);
    }
  }

  // ----- linearity and time invariance -----

  lemma SquareOfDifference(a: real, b: real)
    ensures Mul(a - b, a - b) == Mul(a, a) - 2.0 * Mul(a, b) + Mul(b, b)
    ensures Mul(a + b, a + b) == Mul(a, a) + 2.0 * Mul(a, b) + Mul(b, b)
  {
  }

  lemma {:induction false} EnergyOfDifference(x: seq<real>, y: seq<real>)
    requires |x| == |y|
    ensures Energy(Minus(x, y)) == Energy(x) - 2.0 * Dot(x, y) + Energy(y)
    ensures Energy(Plus(x, y)) == Energy(x) + 2.0 * Dot(x, y) + Energy(y)
  {
    hide Mul;
    if x != [] {
      var n := |x| - 1;
      EnergyOfDifference(x[..n], y[..n]);
      assert Minus(x, y)[..n] == Minus(x[..n], y[..n]) && Plus(x, y)[..n] == Plus(x[..n], y[..n]);
      SquareOfDifference(x[n], y[n]);
    }
  }

  lemma {:induction false} DotCommutes(x: seq<real>, y: seq<real>)
    requires |x| == |y|
    ensures Dot(x, y) == Dot(y, x)
  {
    hide Mul;
    if x != [] {
      DotCommutes(x[..|x| - 1], y[..|x| - 1]);
      MulCommutes(x[|x| - 1], y[|x| - 1]);
    }
  }

  lemma {:induction false} DotPlus(x: seq<real>, y: seq<real>, z: seq<real>)
    requires |x| == |y| == |z|
    ensures Dot(x, Plus(y, z)) == Dot(x, y) + Dot(x, z)
  {
    hide Mul;
    if x != [] {
      var n := |x| - 1;
      DotPlus(x[..n], y[..n], z[..n]);
      assert Plus(y, z)[..n] == Plus(y[..n], z[..n]);
      MulPlus(x[n], y[n], z[n]);
    }
  }

  lemma {:induction false} DotScale(x: seq<real>, c: real, y: seq<real>)
    requires |x| == |y|
    ensures Dot(x, Scale(c, y)) == Mul(c, Dot(x, y))
  {
    hide Mul;
    MulUnits(c);
    if x != [] {
      var n := |x| - 1;
      DotScale(x[..n], c, y[..n]);
      assert Scale(c, y)[..n] == Scale(c, y[..n]);
      MulAssociates(x[n], c, y[n]);
      MulPlus(c, Dot(x[..n], y[..n]), Mul(x[n], y[n]));
    }
  }

  lemma {:induction false} EnergyIsDot(x: seq<real>)
    ensures Energy(x) == Dot(x, x)
  {
    hide Mul;
    if x != [] {
      EnergyIsDot(x[..|x| - 1]);
    }
  }

  lemma FirZero(a: seq<real>, n: nat)
    ensures Fir(a, Zeros(n)) == Zeros(n)
  {
    forall i | 0 <= i < n
      ensures ConvAt(a, Zeros(n), i) == 0.0
    {
      ConvZero(a, n, i);
    }
  }

  lemma {:induction false} ConvZero(a: seq<real>, n: nat, i: int)
    requires i < n
    ensures ConvAt(a, Zeros(n), i) == 0.0
    decreases |a|
  {
    if a != [] && i >= 0 {
      ConvZero(a[1..], n, i - 1);
    }
  }

  lemma FirPlus(a: seq<real>, x: seq<real>, y: seq<real>)
    requires |x| == |y|
    ensures Fir(a, Plus(x, y)) == Plus(Fir(a, x), Fir(a, y))
  {
    forall i | 0 <= i < |x|
      ensures Fir(a, Plus(x, y))[i] == Plus(Fir(a, x), Fir(a, y))[i]
    {
      ConvPlus(a, x, y, i);
    }
  }

  lemma {:induction false} ConvPlus(a: seq<real>, x: seq<real>, y: seq<real>, i: int)
    requires i < |x| == |y|
    ensures ConvAt(a, Plus(x, y), i) == ConvAt(a, x, i) + ConvAt(a, y, i)
    decreases |a|
  {
    if a != [] && i >= 0 {
      ConvPlus(a[1..], x, y, i - 1);
      MulPlus(a[0], x[i], y[i]);
    }
  }

  lemma FirScale(a: seq<real>, c: real, x: seq<real>)
    ensures Fir(a, Scale(c, x)) == Scale(c, Fir(a, x))
  {
    forall i | 0 <= i < |x|
      ensures Fir(a, Scale(c, x))[i] == Scale(c, Fir(a, x))[i]
    {
      ConvScale(a, c, x, i);
    }
  }

  lemma {:induction false} ConvScale(a: seq<real>, c: real, x: seq<real>, i: int)
    requires i < |x|
    ensures ConvAt(a, Scale(c, x), i) == Mul(c, ConvAt(a, x, i))
    decreases |a|
  {
    if a != [] && i >= 0 {
      ConvScale(a[1..], c, x, i - 1);
      MulAssociates(c, a[0], x[i]);
      MulPlus(c, Mul(a[0], x[i]), ConvAt(a[1..], x, i - 1));
    }
  }

  lemma FirDelay(a: seq<real>, x: seq<real>)
    ensures Fir(a, Delay(x)) == Delay(Fir(a, x))
  {
    forall i | 0 <= i < |x|
      ensures Fir(a, Delay(x))[i] == Delay(Fir(a, x))[i]
    {
      ConvDelay(a, x, i);
    }
  }

  lemma {:induction false} ConvDelay(a: seq<real>, x: seq<real>, i: nat)
    requires i < |x|
    ensures ConvAt(a, Delay(x), i) == if i == 0 then 0.0 else ConvAt(a, x, i - 1)
    decreases |a|
  {
    hide Mul, Delay;
    DelayAt(x, i);
    if a != [] {
      if i > 0 {
        ConvDelay(a[1..], x, i - 1);
      } else {
        MulUnits(a[0]);
        ConvBeforeZero(a[1..], Delay(x), i - 1);
      }
    }
  }

  lemma DelayAt(x: seq<real>, i: nat)
    requires i < |x|
    ensures |Delay(x)| == |x| && Delay(x)[i] == if i == 0 then 0.0 else x[i - 1]
  {
  }

  // ----- the algebra of convolutions -----

  lemma FirUnfold(a: seq<real>, x: seq<real>)
    requires a != []
    ensures Fir(a, x) == Plus(Scale(a[0], x), Delay(Fir(a[1..], x)))
  {
    var z := Plus(Scale(a[0], x), Delay(Fir(a[1..], x)));
    forall i | 0 <= i < |x|
      ensures Fir(a, x)[i] == z[i]
    {
      assert ConvAt(a, x, i) == Mul(a[0], x[i]) + ConvAt(a[1..], x, i - 1);
    }
  }

  /** Convolutions commute. */
  lemma {:induction false} FirCommutes(a: seq<real>, b: seq<real>, x: seq<real>)
    ensures Fir(a, Fir(b, x)) == Fir(b, Fir(a, x))
  {
    if a == [] {
      FirZero(b, |x|);
      assert Fir(a, x) == Zeros(|x|) == Fir(a, Fir(b, x));
    } else {
      var t := Fir(a[1..], x);
      FirUnfold(a, x);
      FirUnfold(a, Fir(b, x));
      FirCommutes(a[1..], b, x);
      FirPlus(b, Scale(a[0], x), Delay(t));
      FirScale(b, a[0], x);
      FirDelay(b, t);
    }
  }

  lemma {:induction false} OwedTail(a: seq<real>, x: seq<real>, j: nat)
    requires a != []
    ensures Owed(a, x, j + 1) == Owed(a[1..], x, j)
    decreases |x|
  {
    if x != [] {
      OwedTail(a, x[..|x| - 1], j + 1);
    }
  }

  lemma {:induction false} OwedNothing(x: seq<real>, j: nat)
    ensures Owed([], x, j) == 0.0
    decreases |x|
  {
    if x != [] {
      OwedNothing(x[..|x| - 1], j + 1);
    }
  }

  /** Each sample of a convolution: the current input's share plus what the past owes. */
  lemma {:induction false} FirAt(a: seq<real>, x: seq<real>, n: nat)
    requires n < |x|
    ensures Fir(a, x)[n] == ConvAt(a, x, n) == Mul(At(a, 0), x[n]) + Owed(a, x[..n], 0)
    decreases |a|
  {
    if a == [] {
      OwedNothing(x[..n], 0);
    } else if n > 0 {
      FirAt(a[1..], x, n - 1);
      assert x[..n][..n - 1] == x[..n - 1];
      OwedTail(a, x[..n - 1], 0);
    }
  }

  /** `Fir` is the textbook sum: y[n] is the sum over k <= n of a[k] * x[n - k]. */
  lemma FirIsConvolution(a: seq<real>, x: seq<real>, n: nat)
    requires n < |x|
    ensures Fir(a, x)[n] == ConvSum(a, x, n, n + 1)
  {
    ConvAtIsSum(a, x, n, 0);
    assert a[0..] == a;
    assert ConvSum(a, x, n, 0) == 0.0;
  }

  lemma {:induction false} ConvAtIsSum(a: seq<real>, x: seq<real>, n: nat, k: nat)
    requires n < |x| && k <= n + 1 && k <= |a|
    ensures ConvAt(a[k..], x, n - k) == ConvSum(a, x, n, n + 1) - ConvSum(a, x, n, k)
    decreases n + 1 - k
  {
    if k == |a| {
      ConvSumBeyond(a, x, n, n + 1);
    } else if k <= n {
      ConvAtIsSum(a, x, n, k + 1);
      assert a[k..][1..] == a[k + 1..];
      var p := Mul(a[k], x[n - k]);
      assert ConvAt(a[k..], x, n - k) == p + ConvAt(a[k + 1..], x, n - (k + 1));
      assert ConvSum(a, x, n, k + 1) == ConvSum(a, x, n, k) + p;
    }
  }

  lemma {:induction false} ConvSumBeyond(a: seq<real>, x: seq<real>, n: nat, m: nat)
    requires |a| <= m
    ensures ConvSum(a, x, n, m) == ConvSum(a, x, n, |a|)
  {
    if |a| < m {
      ConvSumBeyond(a, x, n, m - 1);
    }
  }

  /** A convolution with a non-zero leading coefficient can be cancelled. */
  lemma FirCancels(a: seq<real>, x: seq<real>, y: seq<real>)
    requires |x| == |y| && At(a, 0) != 0.0
    requires Fir(a, x) == Fir(a, y)
    ensures x == y
  {
    FirCancelsUpTo(a, x, y, |x|);
    assert x[..|x|] == x && y[..|y|] == y;
  }

  lemma {:induction false} FirCancelsUpTo(a: seq<real>, x: seq<real>, y: seq<real>, n: nat)
    requires n <= |x| == |y| && At(a, 0) != 0.0
    requires Fir(a, x) == Fir(a, y)
    ensures x[..n] == y[..n]
  {
    if n > 0 {
      FirCancelsUpTo(a, x, y, n - 1);
      FirAt(a, x, n - 1);
      FirAt(a, y, n - 1);
      CancelFactor(At(a, 0), x[n - 1], y[n - 1]);
      assert x[..n] == x[..n - 1] + [x[n - 1]];
      assert y[..n] == y[..n - 1] + [y[n - 1]];
    }
  }

  lemma CancelFactor(c: real, u: real, v: real)
    requires c != 0.0 && Mul(c, u) == Mul(c, v)
    ensures u == v
  {
    assert c * (u - v) == 0.0;
  }

  // ----- linearity in the coefficients, and associativity -----

  lemma FirPlusCoefficients(a: seq<real>, b: seq<real>, x: seq<real>)
    requires |a| == |b|
    ensures Fir(Plus(a, b), x) == Plus(Fir(a, x), Fir(b, x))
  {
    forall i | 0 <= i < |x|
      ensures Fir(Plus(a, b), x)[i] == Plus(Fir(a, x), Fir(b, x))[i]
    {
      ConvPlusCoefficients(a, b, x, i);
    }
  }

  lemma {:induction false} ConvPlusCoefficients(a: seq<real>, b: seq<real>, x: seq<real>, i: int)
    requires |a| == |b| && i < |x|
    ensures ConvAt(Plus(a, b), x, i) == ConvAt(a, x, i) + ConvAt(b, x, i)
    decreases |a|
  {
    if a != [] && i >= 0 {
      assert Plus(a, b)[1..] == Plus(a[1..], b[1..]);
      ConvPlusCoefficients(a[1..], b[1..], x, i - 1);
      MulPlus(x[i], a[0], b[0]);
    }
  }

  lemma ScaleTail(c: real, a: seq<real>)
    requires a != []
    ensures Scale(c, a)[1..] == Scale(c, a[1..])
  {
    forall i | 0 <= i < |a| - 1
      ensures Scale(c, a)[1..][i] == Scale(c, a[1..])[i]
    {
      assert Scale(c, a)[1..][i] == Scale(c, a)[i + 1];
    }
  }

  lemma FirScaleCoefficients(c: real, a: seq<real>, x: seq<real>)
    ensures Fir(Scale(c, a), x) == Scale(c, Fir(a, x))
  {
    forall i | 0 <= i < |x|
      ensures Fir(Scale(c, a), x)[i] == Scale(c, Fir(a, x))[i]
    {
      ConvScaleCoefficients(c, a, x, i);
    }
  }

  lemma {:induction false} ConvScaleCoefficients(c: real, a: seq<real>, x: seq<real>, i: int)
    requires i < |x|
    ensures ConvAt(Scale(c, a), x, i) == Mul(c, ConvAt(a, x, i))
    decreases |a|
  {
    if a != [] && i >= 0 {
      ScaleTail(c, a);
      ConvScaleCoefficients(c, a[1..], x, i - 1);
      MulAssociates(c, a[0], x[i]);
      MulPlus(c, Mul(a[0], x[i]), ConvAt(a[1..], x, i - 1));
    }
  }

  /** Coefficients beyond the current time do not matter. */
  lemma {:induction false} ConvPrefix(a: seq<real>, x: seq<real>, k: nat, n: int)
    requires n < k <= |a| && n < |x|
    ensures ConvAt(a[..k], x, n) == ConvAt(a, x, n)
    decreases k
  {
    if n >= 0 {
      assert a[..k][1..] == a[1..][..k - 1];
      ConvPrefix(a[1..], x, k - 1, n - 1);
    }
  }

  lemma FirDelayCoefficients(a: seq<real>, x: seq<real>)
    requires |a| == |x|
    ensures Fir(Delay(a), x) == Delay(Fir(a, x))
  {
    if a != [] {
      var b := a[..|a| - 1];
      assert Delay(a)[1..] == b;
      forall i | 0 <= i < |x|
        ensures Fir(Delay(a), x)[i] == Delay(Fir(a, x))[i]
      {
        assert ConvAt(Delay(a), x, i) == Mul(0.0, x[i]) + ConvAt(b, x, i - 1);
        if i > 0 {
          ConvPrefix(a, x, |a| - 1, i - 1);
        }
      }
    }
  }

  /** Filtering by `h` and then by `a` is filtering by the convolution of the two. */
  lemma {:induction false} FirAssociates(a: seq<real>, h: seq<real>, x: seq<real>)
    requires |h| == |x|
    ensures Fir(a, Fir(h, x)) == Fir(Fir(a, h), x)
  {
    if a == [] {
      FirNoCoefficients(|h|, x);
      assert Fir(a, h) == Zeros(|h|);
    } else {
      var t := Fir(a[1..], h);
      FirUnfold(a, h);
      FirUnfold(a, Fir(h, x));
      FirAssociates(a[1..], h, x);
      FirPlusCoefficients(Scale(a[0], h), Delay(t), x);
      FirScaleCoefficients(a[0], h, x);
      FirDelayCoefficients(t, x);
    }
  }

  lemma FirNoCoefficients(n: nat, x: seq<real>)
    ensures Fir(Zeros(n), x) == Zeros(|x|)
  {
    forall i | 0 <= i < |x|
      ensures ConvAt(Zeros(n), x, i) == 0.0
    {
      ConvNoCoefficients(n, x, i);
    }
  }

  lemma {:induction false} ConvNoCoefficients(n: nat, x: seq<real>, i: int)
    requires i < |x|
    ensures ConvAt(Zeros(n), x, i) == 0.0
    decreases n
  {
    if n > 0 && i >= 0 {
      assert Zeros(n)[1..] == Zeros(n - 1);
      ConvNoCoefficients(n - 1, x, i - 1);
    }
  }

  /** The impulse response of a convolution is its coefficient list. */
  lemma FirImpulse(a: seq<real>, n: nat)
    ensures Fir(a, Impulse(n)) == Fit(a, n)
  {
    forall i | 0 <= i < n
      ensures ConvAt(a, Impulse(n), i) == At(a, i)
    {
      ConvImpulse(a, n, i);
    }
  }

  lemma {:induction false} ConvImpulse(a: seq<real>, n: nat, i: nat)
    requires i < n
    ensures ConvAt(a, Impulse(n), i) == At(a, i)
    decreases |a|
  {
    if a != [] {
      if i > 0 {
        ConvImpulse(a[1..], n, i - 1);
      } else {
        assert ConvAt(a[1..], Impulse(n), -1) == 0.0;
      }
    }
  }

  /** Convolution is symmetric in its two signals. */
  lemma FirSymmetric(h: seq<real>, x: seq<real>)
    requires |h| == |x|
    ensures Fir(h, x) == Fir(x, h)
  {
    var d := Impulse(|x|);
    FirImpulse(h, |x|);
    FirImpulse(x, |x|);
    assert Fit(h, |x|) == h && Fit(x, |x|) == x;
    FirCommutes(h, x, d);
  }

  /** A convolution does not look ahead: cutting its input cuts its output. */
  lemma FirCausal(a: seq<real>, x: seq<real>, n: nat)
    requires n <= |x|
    ensures Fir(a, x[..n]) == Fir(a, x)[..n]
  {
    forall i | 0 <= i < n
      ensures ConvAt(a, x[..n], i) == ConvAt(a, x, i)
    {
      ConvCausal(a, x, n, i);
    }
  }

  lemma {:induction false} ConvCausal(a: seq<real>, x: seq<real>, n: nat, i: int)
    requires i < n <= |x|
    ensures ConvAt(a, x[..n], i) == ConvAt(a, x, i)
    decreases |a|
  {
    if a != [] && i >= 0 {
      ConvCausal(a[1..], x, n, i - 1);
    }
  }

  /** Zero-padding the coefficients, or cutting them at the signal's length, changes nothing. */
  lemma FirFit(a: seq<real>, x: seq<real>)
    ensures Fir(Fit(a, |x|), x) == Fir(a, x)
  {
    forall i | 0 <= i < |x|
      ensures ConvAt(Fit(a, |x|), x, i) == ConvAt(a, x, i)
    {
      ConvFit(a, |x|, x, i);
    }
  }

  lemma {:induction false} ConvFit(a: seq<real>, n: nat, x: seq<real>, i: int)
    requires i < n && i < |x|
    ensures ConvAt(Fit(a, n), x, i) == ConvAt(a, x, i)
    decreases n
  {
    hide Mul;
    if i >= 0 {
      if a == [] {
        assert Fit(a, n) == Zeros(n);
        ConvNoCoefficients(n, x, i);
      } else {
        assert Fit(a, n)[1..] == Fit(a[1..], n - 1);
        ConvFit(a[1..], n - 1, x, i - 1);
      }
    }
  }

  /** Coefficients appended act later. */
  lemma {:induction false} ConvAppend(a: seq<real>, b: seq<real>, x: seq<real>, n: int)
    requires n < |x|
    ensures ConvAt(a + b, x, n) == ConvAt(a, x, n) + ConvAt(b, x, n - |a|)
    decreases |a|
  {
    hide Mul;
    if a == [] {
      assert a + b == b;
    } else {
      assert (a + b)[1..] == a[1..] + b;
      if n >= 0 {
        ConvAppend(a[1..], b, x, n - 1);
      } else {
        ConvBeforeZero(b, x, n - |a|);
      }
    }
  }

  lemma ConvBeforeZero(a: seq<real>, x: seq<real>, n: int)
    requires n < 0
    ensures ConvAt(a, x, n) == 0.0
  {
  }
}
