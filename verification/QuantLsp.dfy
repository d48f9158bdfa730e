/** Quantisation of line spectral pairs in fixed point: iaxclient/lib/libspeex/quant_lsp.c. Values of 16 and
    32 bits wrap around where the source stores them. */
module QuantLsp {

  import opened FixedPoint

  // ----- distances -----

  /** The difference from a codeword, at one coordinate. */
  function Diff(x: int, c: int): int {
    W16(x - 32 * c)
  }

  /** The squared distance from a codeword as it is accumulated in 32 bits: over the coordinates up to j. */
  function Dist(x: seq<int>, c: seq<int>, j: nat): int
    requires j <= |x| && j <= |c|
  {
    if j == 0 then 0
    else W32(Dist(x, c, j - 1) + Square(Diff(x[j - 1], c[j - 1])))
  }

  function WeightedDist(x: seq<int>, w: seq<int>, c: seq<int>, j: nat): int
    requires j <= |x| && j <= |c| && j <= |w|
  {
    if j == 0 then 0
    else W32(WeightedDist(x, w, c, j - 1) + MultQ15(w[j - 1], Square(Diff(x[j - 1], c[j - 1]))))
  }

  /** The true sum of squares. */
  function Squares(x: seq<int>, c: seq<int>, j: nat): (s: int)
    requires j <= |x| && j <= |c|
    ensures s >= 0
  {
    if j == 0 then 0
    else Squares(x, c, j - 1) + Square(x[j - 1] - 32 * c[j - 1])
  }

  /** When every difference fits 16 bits and the whole sum 32, the distance is the true one. */
  lemma {:induction false} DistIsSquares(x: seq<int>, c: seq<int>, j: nat)
    requires j <= |x| && j <= |c|
    requires forall i :: 0 <= i < j ==> Fits16(x[i] - 32 * c[i])
    requires Squares(x, c, j) < 0x8000_0000
    ensures Dist(x, c, j) == Squares(x, c, j)
  {
    hide Square, W16, W32;
    if j > 0 {
      DistIsSquares(x, c, j - 1);
      Fitting(x[j - 1] - 32 * c[j - 1]);
      Fitting(Squares(x, c, j));
    }
  }

  /** The product in two halves is the floor of the exact product, unless the square is that of -32768. */
  lemma MultQ15IsFloor(w: int, t: int)
    requires Fits16(w) && Fits16(t) && t != -32768
    ensures MultQ15(w, Square(t)) == w * Square(t) / 32768
  {
    SquareBound(t);
    HalvesOf(w, Square(t));
  }

  lemma HalvesOf(w: int, b: int)
    requires Fits16(w) && 0 <= b <= 32767 * 32767
    ensures MultQ15(w, b) == w * b / 32768
  {
    var q, r := b / 32768, b % 32768;
    assert b == 32768 * q + r;
    Distributes(w, q, r);
    FloorOfSum(w * q, w * r);
    ProductBound(w, q);
    ProductBound(w, r);
  }

  lemma Distributes(w: int, q: int, r: int)
    ensures w * (32768 * q + r) == 32768 * (w * q) + w * r
  {
  }

  lemma SquareBound(t: int)
    requires -32767 <= t <= 32767
    ensures 0 <= Square(t) <= 32767 * 32767
  {
    if t >= 0 {
      ProductMonotone(t, 32767);
    } else {
      ProductMonotone(-t, 32767);
      assert t * t == (-t) * (-t);
    }
  }

  lemma FloorOfSum(a: int, b: int)
    ensures (32768 * a + b) / 32768 == a + b / 32768
  {
  }

  lemma ProductBound(w: int, q: int)
    requires Fits16(w) && 0 <= q <= 32767
    ensures -32768 * 32767 <= w * q <= 32767 * 32767
  {
    assert (32767 - w) * q >= 0;
    assert (w + 32768) * q >= 0;
  }

  // ----- the search -----

  /** A codebook: rows of signed bytes. */
  predicate IsBook(book: seq<seq<int>>, dim: nat) {
    && book != []
    && (forall i :: 0 <= i < |book| ==> |book[i]| == dim)
    && (forall i, j :: 0 <= i < |book| && 0 <= j < dim ==> -128 <= book[i][j] < 128)
  }

  /** The first index of the least of some numbers. */
  predicate FirstLeast(d: seq<int>, id: nat) {
    && id < |d|
    && (forall i :: 0 <= i < |d| ==> d[id] <= d[i])
    && (forall i :: 0 <= i < id ==> d[id] < d[i])
  }

  lemma FirstLeastIsOne(d: seq<int>, a: nat, b: nat)
    requires FirstLeast(d, a) && FirstLeast(d, b)
    ensures a == b
  {
    assert d[a] <= d[b] && d[b] <= d[a];
  }

  function Dists(x: seq<int>, book: seq<seq<int>>): (d: seq<int>)
    requires forall i :: 0 <= i < |book| ==> |book[i]| == |x|
    ensures |d| == |book| && forall i :: 0 <= i < |book| ==> d[i] == Dist(x, book[i], |x|)
  {
    seq(|book|, i requires 0 <= i < |book| => Dist(x, book[i], |x|))
  }

  function WeightedDists(x: seq<int>, w: seq<int>, book: seq<seq<int>>): (d: seq<int>)
    requires |w| == |x| && forall i :: 0 <= i < |book| ==> |book[i]| == |x|
    ensures |d| == |book| && forall i :: 0 <= i < |book| ==> d[i] == WeightedDist(x, w, book[i], |x|)
  {
    seq(|book|, i requires 0 <= i < |book| => WeightedDist(x, w, book[i], |x|))
  }

  /** A residual less a codeword. */
  function Less(x: seq<int>, c: seq<int>): (r: seq<int>)
    requires |c| == |x|
    ensures |r| == |x| && forall j :: 0 <= j < |x| ==> r[j] == Diff(x[j], c[j])
  {
    seq(|x|, j requires 0 <= j < |x| => Diff(x[j], c[j]))
  }

  /** The subtracting loop. */
  method Subtract(x: array<int>, at: nat, c: seq<int>)
    requires at + |c| <= x.Length
    modifies x
    ensures x[at..at + |c|] == Less(old(x[at..at + |c|]), c)
    ensures x[..at] == old(x[..at]) && x[at + |c|..] == old(x[at + |c|..])
  {
    var j := 0;
    while j < |c|
      invariant 0 <= j <= |c|
      invariant forall k :: at <= k < at + j ==> x[k] == Diff(old(x[k]), c[k - at])
      invariant forall k :: 0 <= k < x.Length && !(at <= k < at + j) ==> x[k] == old(x[k])
    {
      x[at + j] := Diff(x[at + j], c[j]);
      j := j + 1;
    }
  }

  /** The inner loop of lsp_quant. */
  method Distance(x: array<int>, at: nat, c: seq<int>) returns (dist: int)
    requires at + |c| <= x.Length
    ensures dist == Dist(x[at..at + |c|], c, |c|)
  {
    hide Square, W32;
    dist := 0;
    var j := 0;
    while j < |c|
      invariant 0 <= j <= |c| && dist == Dist(x[at..at + |c|], c, j)
    {
      var tmp := W16(x[at + j] - 32 * c[j]);
      dist := W32(dist + Square(tmp));
      j := j + 1;
    }
  }

  /** The inner loop of lsp_weight_quant. */
  method WeightedDistance(x: array<int>, at: nat, weight: seq<int>, c: seq<int>) returns (dist: int)
    requires at + |c| <= x.Length && |weight| == |c|
    ensures dist == WeightedDist(x[at..at + |c|], weight, c, |c|)
  {
    hide Square, W32, MultQ15;
    dist := 0;
    var j := 0;
    while j < |c|
      invariant 0 <= j <= |c| && dist == WeightedDist(x[at..at + |c|], weight, c, j)
    {
      var tmp := W16(x[at + j] - 32 * c[j]);
      dist := W32(dist + MultQ15(weight[j], Square(tmp)));
      j := j + 1;
    }
  }

  /** lsp_quant: the first codeword of least distance, which is taken from x. */
  method LspQuant(x: array<int>, at: nat, book: seq<seq<int>>, dim: nat) returns (id: nat)
    requires at + dim <= x.Length && IsBook(book, dim) && dim > 0
    modifies x
    ensures FirstLeast(Dists(old(x[at..at + dim]), book), id)
    ensures x[at..at + dim] == Less(old(x[at..at + dim]), book[id])
    ensures x[..at] == old(x[..at]) && x[at + dim..] == old(x[at + dim..])
  {
    hide Dist, WeightedDist, Less;
    id := 0;
    var bestDist := 0;
    ghost var v := x[at..at + dim];
    ghost var d := Dists(v, book);
    var i := 0;
    while i < |book|
      invariant 0 <= i <= |book| && x[..] == old(x[..])
      invariant i > 0 ==> id < i && bestDist == d[id]
      invariant i > 0 ==> forall k :: 0 <= k < i ==> d[id] <= d[k]
      invariant i > 0 ==> forall k :: 0 <= k < id ==> d[id] < d[k]
    {
      assert x[at..at + dim] == x[..][at..at + dim] == v;
      var dist := Distance(x, at, book[i]);
      if dist < bestDist || i == 0 {
        bestDist := dist;
        id := i;
      }
      i := i + 1;
    }
    assert x[at..at + dim] == x[..][at..at + dim] == v;
    assert x[..at] == x[..][..at] && x[at + dim..] == x[..][at + dim..];
    Subtract(x, at, book[id]);
  }

  /** lsp_weight_quant: the same by weighted distances. */
  method LspWeightQuant(x: array<int>, at: nat, weight: seq<int>, book: seq<seq<int>>, dim: nat) returns (id: nat)
    requires at + dim <= x.Length && IsBook(book, dim) && dim > 0 && |weight| == dim
    modifies x
    ensures FirstLeast(WeightedDists(old(x[at..at + dim]), weight, book), id)
    ensures x[at..at + dim] == Less(old(x[at..at + dim]), book[id])
    ensures x[..at] == old(x[..at]) && x[at + dim..] == old(x[at + dim..])
  {
    hide Dist, WeightedDist, Less;
    id := 0;
    var bestDist := 0;
    ghost var v := x[at..at + dim];
    ghost var d := WeightedDists(v, weight, book);
    var i := 0;
    while i < |book|
      invariant 0 <= i <= |book| && x[..] == old(x[..])
      invariant i > 0 ==> id < i && bestDist == d[id]
      invariant i > 0 ==> forall k :: 0 <= k < i ==> d[id] <= d[k]
      invariant i > 0 ==> forall k :: 0 <= k < id ==> d[id] < d[k]
    {
      assert x[at..at + dim] == x[..][at..at + dim] == v;
      var dist := WeightedDistance(x, at, weight, book[i]);
      if dist < bestDist || i == 0 {
        bestDist := dist;
        id := i;
      }
      i := i + 1;
    }
    assert x[at..at + dim] == x[..][at..at + dim] == v;
    assert x[..at] == x[..][..at] && x[at + dim..] == x[..][at + dim..];
    Subtract(x, at, book[id]);
  }

  // ----- one coordinate through all the stages -----

  function Linear(i: nat): int {
    2048 * (i + 1)
  }

  /** What the encoder is left with after three stages, the residual doubled before each but the first. */
  function Left5(l: int, i: nat, c1: int, c2: int, c3: int): int {
    Diff(W16(2 * Diff(W16(2 * Diff(W16(l - Linear(i)), c1)), c2)), c3)
  }

  function Left3(l: int, i: nat, c1: int, c2: int): int {
    Diff(W16(2 * Diff(W16(l - Linear(i)), c1)), c2)
  }

  /** The quantised value the encoder keeps. */
  function Kept5(l: int, i: nat, c1: int, c2: int, c3: int): int {
    W16(l - (Left5(l, i, c1, c2, c3) + 2) / 4)
  }

  function Kept3(l: int, i: nat, c1: int, c2: int): int {
    W16(l - (Left3(l, i, c1, c2) + 1) / 2)
  }

  /** The value the decoder builds. */
  function Rebuilt5(i: nat, c1: int, c2: int, c3: int): int {
    W16(W16(W16(Linear(i) + 32 * c1) + 16 * c2) + 8 * c3)
  }

  function Rebuilt3(i: nat, c1: int, c2: int): int {
    W16(W16(Linear(i) + 32 * c1) + 16 * c2)
  }

  lemma Left3Is(l: int, i: nat, c1: int, c2: int)
    ensures Left3(l, i, c1, c2) == W16(2 * (l - Linear(i) - 32 * c1 - 16 * c2))
  {
    hide W16;
    var x := l - Linear(i);
    W16Inner(1, x, -32 * c1);
    W16Inner(2, x - 32 * c1, 0);
    W16Inner(1, 2 * (x - 32 * c1), -32 * c2);
  }

  lemma Left5Is(l: int, i: nat, c1: int, c2: int, c3: int)
    ensures Left5(l, i, c1, c2, c3) == W16(4 * (l - Linear(i) - 32 * c1 - 16 * c2 - 8 * c3))
  {
    hide W16, Linear;
    var k := l - Linear(i) - 32 * c1 - 16 * c2;
    Left3Is(l, i, c1, c2);
    W16Inner(2, 2 * k, 0);
    W16Inner(1, 4 * k, -32 * c3);
  }

  lemma RebuiltIs(i: nat, c1: int, c2: int, c3: int)
    ensures Rebuilt3(i, c1, c2) == W16(Linear(i) + 32 * c1 + 16 * c2)
    ensures Rebuilt5(i, c1, c2, c3) == W16(Linear(i) + 32 * c1 + 16 * c2 + 8 * c3)
  {
    hide W16, Linear;
    W16Inner(1, Linear(i) + 32 * c1, 16 * c2);
    W16Inner(1, Linear(i) + 32 * c1 + 16 * c2, 8 * c3);
  }

  /** Scaled by four and back in 16 bits: nothing is lost exactly when the number has 14 bits. */
  lemma ScaledByFour(l: int, k: int)
    ensures W16(l - (W16(4 * k) + 2) / 4) == W16(l - k) <==> -8192 <= W16(k) < 8192
  {
    hide W16;
    var m := W16Quotient(4 * k);
    var n := W16Quotient(k);
    var p := W16Quotient(l - k);
    var q := W16Quotient(l - k + 16384 * m);
    assert (W16(4 * k) + 2) / 4 == k - 16384 * m;
    if -8192 <= W16(k) < 8192 {
      W16Unique(4 * k, 4 * W16(k), 4 * n);
      W16Unique(l - k + 16384 * m, W16(l - k), p + n);
    }
    if W16(l - k + 16384 * m) == W16(l - k) {
      W16Unique(k, k - 65536 * (q - p), q - p);
    }
  }

  lemma ScaledByTwo(l: int, k: int)
    ensures W16(l - (W16(2 * k) + 1) / 2) == W16(l - k) <==> -16384 <= W16(k) < 16384
  {
    hide W16;
    var m := W16Quotient(2 * k);
    var n := W16Quotient(k);
    var p := W16Quotient(l - k);
    var q := W16Quotient(l - k + 32768 * m);
    assert (W16(2 * k) + 1) / 2 == k - 32768 * m;
    if -16384 <= W16(k) < 16384 {
      W16Unique(2 * k, 2 * W16(k), 2 * n);
      W16Unique(l - k + 32768 * m, W16(l - k), p + n);
    }
    if W16(l - k + 32768 * m) == W16(l - k) {
      W16Unique(k, k - 65536 * (q - p), q - p);
    }
  }

  /** Whatever codewords were chosen, the encoder keeps what the decoder builds exactly when the error of the
      choice has 14 bits. */
  lemma KeptIsRebuilt5(l: int, i: nat, c1: int, c2: int, c3: int)
    ensures Kept5(l, i, c1, c2, c3) == Rebuilt5(i, c1, c2, c3)
            <==> -8192 <= W16(l - (Linear(i) + 32 * c1 + 16 * c2 + 8 * c3)) < 8192
  {
    hide W16, Linear;
    var k := l - Linear(i) - 32 * c1 - 16 * c2 - 8 * c3;
    Left5Is(l, i, c1, c2, c3);
    RebuiltIs(i, c1, c2, c3);
    ScaledByFour(l, k);
  }

  /** In three stages it needs 15. */
  lemma KeptIsRebuilt3(l: int, i: nat, c1: int, c2: int)
    ensures Kept3(l, i, c1, c2) == Rebuilt3(i, c1, c2)
            <==> -16384 <= W16(l - (Linear(i) + 32 * c1 + 16 * c2)) < 16384
  {
    hide W16, Linear;
    Left3Is(l, i, c1, c2);
    RebuiltIs(i, c1, c2, 0);
    ScaledByTwo(l, l - Linear(i) - 32 * c1 - 16 * c2);
  }

  predicate Byte(c: int) {
    -128 <= c < 128
  }

  /** No stage overflows, as far as the last residual goes: then nothing is lost. */
  lemma KeptWithoutOverflow(l: int, i: nat, c1: int, c2: int, c3: int)
    ensures Fits16(4 * (l - (Linear(i) + 32 * c1 + 16 * c2 + 8 * c3))) ==> Kept5(l, i, c1, c2, c3) == Rebuilt5(i, c1, c2, c3)
    ensures Fits16(2 * (l - (Linear(i) + 32 * c1 + 16 * c2))) ==> Kept3(l, i, c1, c2) == Rebuilt3(i, c1, c2)
  {
    hide Kept5, Kept3, Rebuilt5, Rebuilt3, Linear;
    KeptIsRebuilt5(l, i, c1, c2, c3);
    KeptIsRebuilt3(l, i, c1, c2);
  }

  /** How far a value lies from where the quantiser starts. */
  function Offset(l: int, i: nat): (x: int)
    ensures Fits16(x)
  {
    W16(l - Linear(i))
  }

  lemma OffsetLeft(l: int, i: nat, s: int)
    ensures W16(l - (Linear(i) + s)) == W16(Offset(l, i) - s)
  {
    hide W16, Linear;
    W16Inner(1, l - Linear(i), -s);
  }

  /** From these values every choice of codewords is rebuilt, from those farther off some are not. */
  lemma EveryChoice5(l: int, i: nat)
    ensures (forall c1, c2, c3 :: Byte(c1) && Byte(c2) && Byte(c3) ==> Kept5(l, i, c1, c2, c3) == Rebuilt5(i, c1, c2, c3))
            <==> -1080 <= Offset(l, i) <= 1023
  {
    hide Kept5, Rebuilt5, Linear, Offset;
    if -1080 <= Offset(l, i) <= 1023 {
      forall c1, c2, c3 | Byte(c1) && Byte(c2) && Byte(c3)
        ensures Kept5(l, i, c1, c2, c3) == Rebuilt5(i, c1, c2, c3)
      {
        ChoiceIs5(l, i, c1, c2, c3);
      }
    } else {
      ChoiceIs5(l, i, 127, 127, 127);
      ChoiceIs5(l, i, -128, -128, -128);
      assert Byte(127) && Byte(-128);
    }
  }

  /** From these values some choice is rebuilt, from those farther off none is. */
  lemma SomeChoice5(l: int, i: nat)
    ensures (exists c1, c2, c3 :: Byte(c1) && Byte(c2) && Byte(c3) && Kept5(l, i, c1, c2, c3) == Rebuilt5(i, c1, c2, c3))
            <==> -15360 <= Offset(l, i) <= 15303
  {
    hide Kept5, Rebuilt5, Linear, Offset;
    if -15360 <= Offset(l, i) <= 15303 {
      var c := if Offset(l, i) > 8191 then 127 else if Offset(l, i) < -8192 then -128 else 0;
      ChoiceIs5(l, i, c, c, c);
      assert Byte(c);
    } else {
      forall c1, c2, c3 | Byte(c1) && Byte(c2) && Byte(c3)
        ensures Kept5(l, i, c1, c2, c3) != Rebuilt5(i, c1, c2, c3)
      {
        ChoiceIs5(l, i, c1, c2, c3);
      }
    }
  }

  lemma ChoiceIs5(l: int, i: nat, c1: int, c2: int, c3: int)
    ensures Kept5(l, i, c1, c2, c3) == Rebuilt5(i, c1, c2, c3)
            <==> -8192 <= W16(Offset(l, i) - (32 * c1 + 16 * c2 + 8 * c3)) < 8192
  {
    hide W16, Kept5, Rebuilt5, Linear, Offset;
    KeptIsRebuilt5(l, i, c1, c2, c3);
    OffsetLeft(l, i, 32 * c1 + 16 * c2 + 8 * c3);
  }

  lemma EveryChoice3(l: int, i: nat)
    ensures (forall c1, c2 :: Byte(c1) && Byte(c2) ==> Kept3(l, i, c1, c2) == Rebuilt3(i, c1, c2))
            <==> -10288 <= Offset(l, i) <= 10239
  {
    hide Kept3, Rebuilt3, Linear, Offset;
    if -10288 <= Offset(l, i) <= 10239 {
      forall c1, c2 | Byte(c1) && Byte(c2)
        ensures Kept3(l, i, c1, c2) == Rebuilt3(i, c1, c2)
      {
        ChoiceIs3(l, i, c1, c2);
      }
    } else {
      ChoiceIs3(l, i, 127, 127);
      ChoiceIs3(l, i, -128, -128);
      assert Byte(127) && Byte(-128);
    }
  }

  lemma SomeChoice3(l: int, i: nat)
    ensures (exists c1, c2 :: Byte(c1) && Byte(c2) && Kept3(l, i, c1, c2) == Rebuilt3(i, c1, c2))
            <==> -22528 <= Offset(l, i) <= 22479
  {
    hide Kept3, Rebuilt3, Linear, Offset;
    if -22528 <= Offset(l, i) <= 22479 {
      var c := if Offset(l, i) > 16383 then 127 else if Offset(l, i) < -16384 then -128 else 0;
      ChoiceIs3(l, i, c, c);
      assert Byte(c);
    } else {
      forall c1, c2 | Byte(c1) && Byte(c2)
        ensures Kept3(l, i, c1, c2) != Rebuilt3(i, c1, c2)
      {
        ChoiceIs3(l, i, c1, c2);
      }
    }
  }

  lemma ChoiceIs3(l: int, i: nat, c1: int, c2: int)
    ensures Kept3(l, i, c1, c2) == Rebuilt3(i, c1, c2)
            <==> -16384 <= W16(Offset(l, i) - (32 * c1 + 16 * c2)) < 16384
  {
    hide W16, Kept3, Rebuilt3, Linear, Offset;
    KeptIsRebuilt3(l, i, c1, c2);
    OffsetLeft(l, i, 32 * c1 + 16 * c2);
  }

  /** A first frequency of 25000, just below the highest there is, with zero codewords: encoder and decoder
      differ in both forms. */
  lemma KeptIsNotRebuilt()
    ensures Kept5(25000, 0, 0, 0, 0) == 18432 && Rebuilt5(0, 0, 0, 0) == 2048
    ensures Kept3(25000, 0, 0, 0) == -30720 && Rebuilt3(0, 0, 0) == 2048
  {
    hide W16, Linear, Left5, Left3, Rebuilt5, Rebuilt3;
    Wrapped();
    Left5Is(25000, 0, 0, 0, 0);
    Left3Is(25000, 0, 0, 0);
    RebuiltIs(0, 0, 0, 0);
  }

  lemma Wrapped()
    ensures Linear(0) == 2048 == W16(2048)
    ensures W16(4 * 22952) == 26272 && W16(18432) == 18432 && W16(2 * 22952) == -19632 && W16(34816) == -30720
  {
  }

  // ----- all coordinates -----

  const Order := 10

  function Centered(lsp: seq<int>): (r: seq<int>)
    ensures |r| == |lsp| && forall i :: 0 <= i < |r| ==> r[i] == W16(lsp[i] - Linear(i))
  {
    seq(|lsp|, i requires 0 <= i < |lsp| => W16(lsp[i] - Linear(i)))
  }

  function Doubled(x: seq<int>): (r: seq<int>)
    ensures |r| == |x| && forall i :: 0 <= i < |r| ==> r[i] == W16(2 * x[i])
  {
    seq(|x|, i requires 0 <= i < |x| => W16(2 * x[i]))
  }

  /** The five codebooks: one for all coordinates, two for each half. */
  datatype Books = Books(all: seq<seq<int>>, low1: seq<seq<int>>, low2: seq<seq<int>>,
                         high1: seq<seq<int>>, high2: seq<seq<int>>)

  predicate AreBooks(b: Books) {
    && IsBook(b.all, Order) && IsBook(b.low1, 5) && IsBook(b.low2, 5) && IsBook(b.high1, 5) && IsBook(b.high2, 5)
    && |b.all| == |b.low1| == |b.low2| == |b.high1| == |b.high2| == 64
  }

  /** What is left of half of the residual after its one or two stages. */
  function HalfLeft(x: seq<int>, c: seq<int>, d: seq<int>, twice: bool): (r: seq<int>)
    requires |x| == |c| == |d| == 5
    ensures |r| == 5
    ensures forall j :: 0 <= j < 5 ==> r[j] == if twice then Diff(W16(2 * Diff(x[j], c[j])), d[j]) else Diff(x[j], c[j])
  {
    if twice then Less(Doubled(Less(x, c)), d) else Less(x, c)
  }

  /** The rows chosen for half of the residual: each the first of least weighted distance. */
  predicate Chosen(x: seq<int>, w: seq<int>, one: seq<seq<int>>, two: seq<seq<int>>, twice: bool, first: nat, second: nat) {
    && |x| == |w| == 5 && IsBook(one, 5) && IsBook(two, 5)
    && FirstLeast(WeightedDists(x, w, one), first)
    && second < |two|
    && (twice ==> FirstLeast(WeightedDists(Doubled(Less(x, one[first])), w, two), second))
  }

  method DoubleRange(x: array<int>, from: nat, to: nat)
    requires from <= to <= x.Length
    modifies x
    ensures x[from..to] == Doubled(old(x[from..to]))
    ensures x[..from] == old(x[..from]) && x[to..] == old(x[to..])
  {
    hide W16;
    var i := from;
    while i < to
      invariant from <= i <= to
      invariant forall k :: from <= k < i ==> x[k] == W16(2 * old(x[k]))
      invariant forall k :: 0 <= k < x.Length && !(from <= k < i) ==> x[k] == old(x[k])
    {
      x[i] := W16(x[i] * 2);
      i := i + 1;
    }
  }

  /** Half of the coordinates through one or two weighted stages. */
  method QuantHalf(x: array<int>, at: nat, w: seq<int>, one: seq<seq<int>>, two: seq<seq<int>>, twice: bool)
    returns (first: nat, second: nat)
    requires at + 5 <= x.Length && |w| == 5 && IsBook(one, 5) && IsBook(two, 5)
    modifies x
    ensures Chosen(old(x[at..at + 5]), w, one, two, twice, first, second)
    ensures x[at..at + 5] == HalfLeft(old(x[at..at + 5]), one[first], two[second], twice)
    ensures x[..at] == old(x[..at]) && x[at + 5..] == old(x[at + 5..])
    ensures !twice ==> second == 0
  {
    hide FirstLeast, WeightedDists, Less, Doubled;
    first := LspWeightQuant(x, at, w, one, 5);
    second := 0;
    FirstLeastIndex(WeightedDists(old(x[at..at + 5]), w, one), first);
    if twice {
      DoubleRange(x, at, at + 5);
      ghost var y := x[at..at + 5];
      second := LspWeightQuant(x, at, w, two, 5);
      FirstLeastIndex(WeightedDists(y, w, two), second);
    }
  }

  lemma FirstLeastIndex(d: seq<int>, id: nat)
    requires FirstLeast(d, id)
    ensures id < |d|
  {
  }

  /** The rows chosen, in the order they are sent. */
  datatype Ids = Ids(all: nat, low1: nat, low2: nat, high1: nat, high2: nat)

  predicate IdsFit(n: Ids) {
    n.all < 64 && n.low1 < 64 && n.low2 < 64 && n.high1 < 64 && n.high2 < 64
  }

  /** The codewords met at coordinate i. */
  function First(b: Books, n: Ids, i: nat): int
    requires AreBooks(b) && IdsFit(n) && i < Order
  {
    b.all[n.all][i]
  }

  function Second(b: Books, n: Ids, i: nat): int
    requires AreBooks(b) && IdsFit(n) && i < Order
  {
    if i < 5 then b.low1[n.low1][i] else b.high1[n.high1][i - 5]
  }

  function Third(b: Books, n: Ids, i: nat): int
    requires AreBooks(b) && IdsFit(n) && i < Order
  {
    if i < 5 then b.low2[n.low2][i] else b.high2[n.high2][i - 5]
  }

  /** Every stage chooses the first row of least distance from what the stages before it left. */
  predicate Searched(lsp: seq<int>, w: seq<int>, b: Books, twice: bool, n: Ids) {
    && |lsp| == |w| == Order && AreBooks(b) && IdsFit(n)
    && FirstLeast(Dists(Centered(lsp), b.all), n.all)
    && var r := Doubled(Less(Centered(lsp), b.all[n.all]));
       && Chosen(r[..5], w[..5], b.low1, b.low2, twice, n.low1, n.low2)
       && Chosen(r[5..], w[5..], b.high1, b.high2, twice, n.high1, n.high2)
  }

  /** The stages, as far as both forms go. */
  method Search(lsp: array<int>, qlsp: array<int>, w: seq<int>, b: Books, twice: bool) returns (n: Ids)
    requires lsp.Length == qlsp.Length == |w| == Order && lsp != qlsp && AreBooks(b)
    modifies qlsp
    ensures Searched(lsp[..], w, b, twice, n)
    ensures forall i :: 0 <= i < Order ==>
              qlsp[i] == if twice then Left5(lsp[i], i, First(b, n, i), Second(b, n, i), Third(b, n, i))
                         else Left3(lsp[i], i, First(b, n, i), Second(b, n, i))
  {
    hide FirstLeast, WeightedDists, Dists, Less, Doubled, W16, Centered, Linear, HalfLeft, Chosen;
    Centre(lsp, qlsp);
    ghost var r0 := qlsp[..];
    assert r0 == qlsp[0..0 + Order];
    var all := LspQuant(qlsp, 0, b.all, Order);
    FirstLeastIndex(Dists(r0, b.all), all);
    DoubleRange(qlsp, 0, Order);
    ghost var r := qlsp[..];
    assert r == qlsp[0..Order] && r == qlsp[0..0 + Order] && qlsp[0..5] == r[..5];
    var low1, low2 := QuantHalf(qlsp, 0, w[..5], b.low1, b.low2, twice);
    assert qlsp[5..] == r[5..] && qlsp[5..5 + 5] == qlsp[5..];
    ghost var low := qlsp[..5];
    var high1, high2 := QuantHalf(qlsp, 5, w[5..], b.high1, b.high2, twice);
    ghost var high := qlsp[5..];
    assert qlsp[..5] == low && qlsp[5..5 + 5] == high;
    n := Ids(all, low1, low2, high1, high2);
    ChosenIndex(r[..5], w[..5], b.low1, b.low2, twice, low1, low2);
    ChosenIndex(r[5..], w[5..], b.high1, b.high2, twice, high1, high2);
    forall i | 0 <= i < Order
      ensures qlsp[i] == if twice then Left5(lsp[i], i, First(b, n, i), Second(b, n, i), Third(b, n, i))
                         else Left3(lsp[i], i, First(b, n, i), Second(b, n, i))
    {
      assert r[i] == W16(2 * Diff(W16(lsp[i] - Linear(i)), b.all[all][i]));
      if i < 5 {
        assert qlsp[i] == low[i] && r[..5][i] == r[i];
      } else {
        assert qlsp[i] == high[i - 5] && r[5..][i - 5] == r[i];
      }
    }
  }

  lemma ChosenIndex(x: seq<int>, w: seq<int>, one: seq<seq<int>>, two: seq<seq<int>>, twice: bool, first: nat, second: nat)
    requires Chosen(x, w, one, two, twice, first, second)
    ensures first < |one| && second < |two|
  {
  }

  /** The first two loops. */
  method Centre(lsp: array<int>, qlsp: array<int>)
    requires lsp.Length == qlsp.Length == Order && lsp != qlsp
    modifies qlsp
    ensures qlsp[..] == Centered(lsp[..])
  {
    hide W16, Linear;
    var i := 0;
    while i < Order
      invariant 0 <= i <= Order && forall k :: 0 <= k < i ==> qlsp[k] == lsp[k]
    {
      qlsp[i] := lsp[i];
      i := i + 1;
    }
    i := 0;
    while i < Order
      invariant 0 <= i <= Order && forall k :: 0 <= k < i ==> qlsp[k] == W16(lsp[k] - Linear(k))
      invariant forall k :: i <= k < Order ==> qlsp[k] == lsp[k]
    {
      qlsp[i] := W16(qlsp[i] - Linear(i));
      i := i + 1;
    }
  }

  /** The last two loops: the residual rounded off by a power of two, and taken from the values given. */
  method Keep(lsp: array<int>, qlsp: array<int>, unit: nat)
    requires lsp.Length == qlsp.Length == Order && lsp != qlsp && (unit == 2 || unit == 4)
    modifies qlsp
    ensures forall i :: 0 <= i < Order ==> qlsp[i] == W16(lsp[i] - W16((old(qlsp[i]) + unit / 2) / unit))
  {
    hide W16;
    var i := 0;
    while i < Order
      invariant 0 <= i <= Order && forall k :: 0 <= k < i ==> qlsp[k] == W16((old(qlsp[k]) + unit / 2) / unit)
      invariant forall k :: i <= k < Order ==> qlsp[k] == old(qlsp[k])
    {
      qlsp[i] := W16((qlsp[i] + unit / 2) / unit);
      i := i + 1;
    }
    i := 0;
    while i < Order
      invariant 0 <= i <= Order
      invariant forall k :: 0 <= k < i ==> qlsp[k] == W16(lsp[k] - W16((old(qlsp[k]) + unit / 2) / unit))
      invariant forall k :: i <= k < Order ==> qlsp[k] == W16((old(qlsp[k]) + unit / 2) / unit)
    {
      qlsp[i] := W16(lsp[i] - qlsp[i]);
      i := i + 1;
    }
  }

  lemma RoundedFits(x: int)
    requires Fits16(x)
    ensures W16((x + 2) / 4) == (x + 2) / 4 && W16((x + 1) / 2) == (x + 1) / 2
  {
  }

  /** lsp_quant_nb: five stages. */
  method LspQuantNb(lsp: array<int>, qlsp: array<int>, w: seq<int>, b: Books) returns (n: Ids)
    requires lsp.Length == qlsp.Length == |w| == Order && lsp != qlsp && AreBooks(b)
    modifies qlsp
    ensures Searched(lsp[..], w, b, true, n)
    ensures forall i :: 0 <= i < Order ==>
              qlsp[i] == Kept5(lsp[i], i, First(b, n, i), Second(b, n, i), Third(b, n, i))
  {
    hide W16, Left5, First, Second, Third, AreBooks;
    n := Search(lsp, qlsp, w, b, true);
    forall i | 0 <= i < Order
      ensures W16((qlsp[i] + 4 / 2) / 4) == (qlsp[i] + 2) / 4
    {
      LeftFits(lsp[i], i, First(b, n, i), Second(b, n, i), Third(b, n, i));
      RoundedFits(qlsp[i]);
    }
    Keep(lsp, qlsp, 4);
  }

  lemma LeftFits(l: int, i: nat, c1: int, c2: int, c3: int)
    ensures Fits16(Left5(l, i, c1, c2, c3)) && Fits16(Left3(l, i, c1, c2))
  {
  }

  /** lsp_quant_lbr: three stages. */
  method LspQuantLbr(lsp: array<int>, qlsp: array<int>, w: seq<int>, b: Books) returns (n: Ids)
    requires lsp.Length == qlsp.Length == |w| == Order && lsp != qlsp && AreBooks(b)
    modifies qlsp
    ensures Searched(lsp[..], w, b, false, n)
    ensures forall i :: 0 <= i < Order ==> qlsp[i] == Kept3(lsp[i], i, First(b, n, i), Second(b, n, i))
  {
    hide W16, Left3, First, Second, AreBooks;
    n := Search(lsp, qlsp, w, b, false);
    forall i | 0 <= i < Order
      ensures W16((qlsp[i] + 2 / 2) / 2) == (qlsp[i] + 1) / 2
    {
      LeftFits(lsp[i], i, First(b, n, i), Second(b, n, i), 0);
      RoundedFits(qlsp[i]);
    }
    Keep(lsp, qlsp, 2);
  }

  /** One adding loop of the decoder. */
  method AddRow(lsp: array<int>, at: nat, row: seq<int>, scale: int)
    requires at + |row| <= lsp.Length
    modifies lsp
    ensures forall i :: at <= i < at + |row| ==> lsp[i] == W16(old(lsp[i]) + scale * row[i - at])
    ensures forall i :: 0 <= i < lsp.Length && !(at <= i < at + |row|) ==> lsp[i] == old(lsp[i])
  {
    hide W16;
    var i := 0;
    while i < |row|
      invariant 0 <= i <= |row|
      invariant forall k :: at <= k < at + i ==> lsp[k] == W16(old(lsp[k]) + scale * row[k - at])
      invariant forall k :: 0 <= k < lsp.Length && !(at <= k < at + i) ==> lsp[k] == old(lsp[k])
    {
      lsp[at + i] := W16(lsp[at + i] + scale * row[i]);
      i := i + 1;
    }
  }

  method SetLinear(lsp: array<int>)
    requires lsp.Length == Order
    modifies lsp
    ensures forall i :: 0 <= i < Order ==> lsp[i] == Linear(i)
  {
    hide Linear;
    var i := 0;
    while i < Order
      invariant 0 <= i <= Order && forall k :: 0 <= k < i ==> lsp[k] == Linear(k)
    {
      lsp[i] := Linear(i);
      i := i + 1;
    }
  }

  /** lsp_unquant_nb */
  method LspUnquantNb(lsp: array<int>, b: Books, n: Ids)
    requires lsp.Length == Order && AreBooks(b) && IdsFit(n)
    modifies lsp
    ensures forall i :: 0 <= i < Order ==> lsp[i] == Rebuilt5(i, First(b, n, i), Second(b, n, i), Third(b, n, i))
    // Equally spaced starts, and one row of each codebook, every stage on half the scale of the one before.
    ensures forall i :: 0 <= i < Order ==>
              lsp[i] == if i < 5 then W16(2048 * (i + 1) + 32 * b.all[n.all][i] + 16 * b.low1[n.low1][i] + 8 * b.low2[n.low2][i])
                        else W16(2048 * (i + 1) + 32 * b.all[n.all][i] + 16 * b.high1[n.high1][i - 5] + 8 * b.high2[n.high2][i - 5])
  {
    hide W16, Linear, Rebuilt5, Rebuilt3;
    SetLinear(lsp);
    AddRow(lsp, 0, b.all[n.all], 32);
    AddRow(lsp, 0, b.low1[n.low1], 16);
    AddRow(lsp, 0, b.low2[n.low2], 8);
    AddRow(lsp, 5, b.high1[n.high1], 16);
    AddRow(lsp, 5, b.high2[n.high2], 8);
    forall i | 0 <= i < Order
      ensures lsp[i] == Rebuilt5(i, First(b, n, i), Second(b, n, i), Third(b, n, i))
              == W16(2048 * (i + 1) + 32 * First(b, n, i) + 16 * Second(b, n, i) + 8 * Third(b, n, i))
    {
      RebuiltAt(i, First(b, n, i), Second(b, n, i), Third(b, n, i));
    }
  }

  lemma RebuiltAt(i: nat, c1: int, c2: int, c3: int)
    ensures Rebuilt3(i, c1, c2) == W16(W16(Linear(i) + 32 * c1) + 16 * c2) == W16(2048 * (i + 1) + 32 * c1 + 16 * c2)
    ensures Rebuilt5(i, c1, c2, c3) == W16(W16(W16(Linear(i) + 32 * c1) + 16 * c2) + 8 * c3)
            == W16(2048 * (i + 1) + 32 * c1 + 16 * c2 + 8 * c3)
  {
    RebuiltIs(i, c1, c2, c3);
    hide W16;
  }

  /** lsp_unquant_lbr */
  method LspUnquantLbr(lsp: array<int>, b: Books, n: Ids)
    requires lsp.Length == Order && AreBooks(b) && IdsFit(n)
    modifies lsp
    ensures forall i :: 0 <= i < Order ==> lsp[i] == Rebuilt3(i, First(b, n, i), Second(b, n, i))
    ensures forall i :: 0 <= i < Order ==>
              lsp[i] == if i < 5 then W16(2048 * (i + 1) + 32 * b.all[n.all][i] + 16 * b.low1[n.low1][i])
                        else W16(2048 * (i + 1) + 32 * b.all[n.all][i] + 16 * b.high1[n.high1][i - 5])
  {
    hide W16, Linear, Rebuilt5, Rebuilt3;
    SetLinear(lsp);
    AddRow(lsp, 0, b.all[n.all], 32);
    AddRow(lsp, 0, b.low1[n.low1], 16);
    AddRow(lsp, 5, b.high1[n.high1], 16);
    forall i | 0 <= i < Order
      ensures lsp[i] == Rebuilt3(i, First(b, n, i), Second(b, n, i)) == W16(2048 * (i + 1) + 32 * First(b, n, i) + 16 * Second(b, n, i))
    {
      RebuiltAt(i, First(b, n, i), Second(b, n, i), 0);
    }
  }

  /** Encoder and decoder, one after the other: equal at exactly the coordinates where the error of the
      choice has 14 bits. So much is known before: near the start of the quantiser they are equal, far from
      it they differ, whatever the codebooks. */
  method EncodeThenDecode(lsp: array<int>, kept: array<int>, built: array<int>, w: seq<int>, b: Books) returns (n: Ids)
    requires lsp.Length == kept.Length == built.Length == |w| == Order && AreBooks(b)
    requires lsp != kept && lsp != built && kept != built
    modifies kept, built
    ensures IdsFit(n)
    ensures forall i :: 0 <= i < Order ==> (kept[i] == built[i] <==> -8192 <= W16(lsp[i] - built[i]) < 8192)
    ensures forall i :: 0 <= i < Order && -1080 <= Offset(lsp[i], i) <= 1023 ==> kept[i] == built[i]
    ensures forall i :: 0 <= i < Order && !(-15360 <= Offset(lsp[i], i) <= 15303) ==> kept[i] != built[i]
  {
    hide W16, Linear, First, Second, Third, Kept5, Rebuilt5, Searched, AreBooks, Byte, Offset;
    n := LspQuantNb(lsp, kept, w, b);
    SearchedIds(lsp[..], w, b, true, n);
    LspUnquantNb(built, b, n);
    forall i | 0 <= i < Order
      ensures kept[i] == built[i] <==> -8192 <= W16(lsp[i] - built[i]) < 8192
      ensures -1080 <= Offset(lsp[i], i) <= 1023 ==> kept[i] == built[i]
      ensures !(-15360 <= Offset(lsp[i], i) <= 15303) ==> kept[i] != built[i]
    {
      var c1, c2, c3 := First(b, n, i), Second(b, n, i), Third(b, n, i);
      KeptIsRebuilt5(lsp[i], i, c1, c2, c3);
      RebuiltIs(i, c1, c2, c3);
      W16Inner(-1, Linear(i) + 32 * c1 + 16 * c2 + 8 * c3, lsp[i]);
      CodewordsAreBytes(b, n, i);
      EveryChoice5(lsp[i], i);
      SomeChoice5(lsp[i], i);
    }
  }

  /** The same for three stages, where the error may have 15 bits. */
  method EncodeThenDecodeLbr(lsp: array<int>, kept: array<int>, built: array<int>, w: seq<int>, b: Books) returns (n: Ids)
    requires lsp.Length == kept.Length == built.Length == |w| == Order && AreBooks(b)
    requires lsp != kept && lsp != built && kept != built
    modifies kept, built
    ensures IdsFit(n)
    ensures forall i :: 0 <= i < Order ==> (kept[i] == built[i] <==> -16384 <= W16(lsp[i] - built[i]) < 16384)
    ensures forall i :: 0 <= i < Order && -10288 <= Offset(lsp[i], i) <= 10239 ==> kept[i] == built[i]
    ensures forall i :: 0 <= i < Order && !(-22528 <= Offset(lsp[i], i) <= 22479) ==> kept[i] != built[i]
  {
    hide W16, Linear, First, Second, Third, Kept3, Rebuilt3, Searched, AreBooks, Byte, Offset;
    n := LspQuantLbr(lsp, kept, w, b);
    SearchedIds(lsp[..], w, b, false, n);
    LspUnquantLbr(built, b, n);
    forall i | 0 <= i < Order
      ensures kept[i] == built[i] <==> -16384 <= W16(lsp[i] - built[i]) < 16384
      ensures -10288 <= Offset(lsp[i], i) <= 10239 ==> kept[i] == built[i]
      ensures !(-22528 <= Offset(lsp[i], i) <= 22479) ==> kept[i] != built[i]
    {
      var c1, c2 := First(b, n, i), Second(b, n, i);
      KeptIsRebuilt3(lsp[i], i, c1, c2);
      RebuiltIs(i, c1, c2, 0);
      W16Inner(-1, Linear(i) + 32 * c1 + 16 * c2, lsp[i]);
      CodewordsAreBytes(b, n, i);
      EveryChoice3(lsp[i], i);
      SomeChoice3(lsp[i], i);
    }
  }

  lemma CodewordsAreBytes(b: Books, n: Ids, i: nat)
    requires AreBooks(b) && IdsFit(n) && i < Order
    ensures Byte(First(b, n, i)) && Byte(Second(b, n, i)) && Byte(Third(b, n, i))
  {
  }

  lemma SearchedIds(lsp: seq<int>, w: seq<int>, b: Books, twice: bool, n: Ids)
    requires Searched(lsp, w, b, twice, n)
    ensures IdsFit(n)
  {
  }
}
