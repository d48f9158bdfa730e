/** lsp_to_lpc of libspeex, lsp.c, float build: from line spectral pairs to a prediction filter. */
module Lsp {
  import opened Signals

  // ----- the polynomials -----

  /** The second-order section 1 - 2c/z + 1/z^2. */
  function Section(c: real): seq<real> {
    [1.0, -(2.0 * c), 1.0]
  }

  /** The first n coefficients of the product of the sections of `cs`. */
  function Product(cs: seq<real>, n: nat): (p: seq<real>)
    ensures |p| == n
  {
    if cs == [] then Impulse(n) else Fir(Section(cs[|cs| - 1]), Product(cs[..|cs| - 1], n))
  }

  /** The frequencies at even and at odd positions. */
  function Evens(x: seq<real>): (e: seq<real>)
    ensures |e| == |x| / 2
    ensures forall i :: 0 <= i < |x| / 2 ==> e[i] == x[2 * i]
  {
    seq(|x| / 2, i requires 0 <= i < |x| / 2 => x[2 * i])
  }

  function Odds(x: seq<real>): (e: seq<real>)
    ensures |e| == |x| / 2
    ensures forall i :: 0 <= i < |x| / 2 ==> e[i] == x[2 * i + 1]
  {
    seq(|x| / 2, i requires 0 <= i < |x| / 2 => x[2 * i + 1])
  }

  /** P, the sum polynomial: (1 + 1/z) times the even sections. */
  function SumPolynomial(x: seq<real>, n: nat): (p: seq<real>)
    ensures |p| == n
  {
    Fir([1.0, 1.0], Product(Evens(x), n))
  }

  /** Q, the difference polynomial: (1 - 1/z) times the odd sections. */
  function DifferencePolynomial(x: seq<real>, n: nat): (q: seq<real>)
    ensures |q| == n
  {
    Fir([1.0, -1.0], Product(Odds(x), n))
  }

  /** Coefficient `k` of the product of the sections of `cs`, for every integer k. */
  function Coef(cs: seq<real>, k: int): real
    decreases |cs|
  {
    if cs == [] then if k == 0 then 1.0 else 0.0
    else
      var r := cs[..|cs| - 1];
      Coef(r, k) - Mul(2.0 * cs[|cs| - 1], Coef(r, k - 1)) + Coef(r, k - 2)
  }

  lemma SectionAt(c: real, s: seq<real>, k: nat)
    requires k < |s|
    ensures ConvAt(Section(c), s, k) == s[k] - Mul(2.0 * c, At(s, k - 1)) + At(s, k - 2)
  {
    MulUnits(s[k]);
    MulUnits(At(s, k - 1));
    MulUnits(At(s, k - 2));
    MulUnits(2.0 * c);
    MulNegatesLeft(2.0 * c, At(s, k - 1));
    hide Mul;
    var a := Section(c);
    assert a[1..] == [-(2.0 * c), 1.0] && a[1..][1..] == [1.0] && a[1..][1..][1..] == [];
    assert ConvAt([1.0], s, k - 2) == At(s, k - 2) by {
      assert k >= 2 ==> ConvAt([], s, k - 3) == 0.0;
    }
    assert ConvAt(a[1..], s, k - 1) == (if k >= 1 then Mul(-(2.0 * c), s[k - 1]) + ConvAt([1.0], s, k - 2) else 0.0);
  }

  lemma {:induction false} CoefBeforeZero(cs: seq<real>, k: int)
    requires k < 0
    ensures Coef(cs, k) == 0.0
    decreases |cs|
  {
    if cs != [] {
      var r := cs[..|cs| - 1];
      CoefBeforeZero(r, k);
      CoefBeforeZero(r, k - 1);
      CoefBeforeZero(r, k - 2);
      MulUnits(2.0 * cs[|cs| - 1]);
    }
  }

  lemma {:induction false} ProductIsCoef(cs: seq<real>, n: nat, k: nat)
    requires k < n
    ensures Product(cs, n)[k] == Coef(cs, k)
    decreases |cs|
  {
    if cs != [] {
      var r, c := cs[..|cs| - 1], cs[|cs| - 1];
      var s := Product(r, n);
      ProductIsCoef(r, n, k);
      SectionAt(c, s, k);
      if k >= 1 { ProductIsCoef(r, n, k - 1); } else { CoefBeforeZero(r, k - 1); }
      if k >= 2 { ProductIsCoef(r, n, k - 2); } else { CoefBeforeZero(r, k - 2); }
    }
  }

  /** A product of sections reads the same from both ends. */
  lemma {:induction false} CoefPalindrome(cs: seq<real>, k: int)
    ensures Coef(cs, k) == Coef(cs, 2 * |cs| - k)
    decreases |cs|
  {
    hide Mul;
    if cs != [] {
      var r := cs[..|cs| - 1];
      CoefPalindrome(r, k);
      CoefPalindrome(r, k - 1);
      CoefPalindrome(r, k - 2);
      assert 2 * |r| - k == 2 * |cs| - k - 2 && 2 * |r| - (k - 1) == 2 * |cs| - k - 1 && 2 * |r| - (k - 2) == 2 * |cs| - k;
    }
  }

  lemma {:induction false} CoefEnds(cs: seq<real>)
    ensures Coef(cs, 0) == 1.0 == Coef(cs, 2 * |cs|)
  {
    if cs != [] {
      var r := cs[..|cs| - 1];
      CoefEnds(r);
      CoefBeforeZero(r, -1);
      CoefBeforeZero(r, -2);
      MulUnits(2.0 * cs[|cs| - 1]);
    }
    CoefPalindrome(cs, 0);
  }

  lemma CoefBeyond(cs: seq<real>, k: int)
    requires k > 2 * |cs|
    ensures Coef(cs, k) == 0.0
  {
    CoefPalindrome(cs, k);
    CoefBeforeZero(cs, 2 * |cs| - k);
  }

  /** Coefficient `k` of (P + Q) / 2. */
  function Lpc(x: seq<real>, k: int): real {
    (Coef(Evens(x), k) + Coef(Evens(x), k - 1) + Coef(Odds(x), k) - Coef(Odds(x), k - 1)) * 0.5
  }

  // ----- the loop of the source -----

  /** Contents of the delay line after `j` outputs: each section holds its last two inputs,
      and behind the sections the last output of each chain. */
  ghost predicate DelayLine(wp: seq<real>, ps: seq<real>, qs: seq<real>, j: nat) {
    && |ps| == |qs| && |wp| == 4 * |ps| + 2
    && SectionsHold(wp, ps, qs, 0, |ps|, j)
    && wp[4 * |ps|] == Coef(ps, j - 1) && wp[4 * |ps| + 1] == Coef(qs, j - 1)
  }

  ghost predicate SectionsHold(wp: seq<real>, ps: seq<real>, qs: seq<real>, lo: nat, hi: nat, j: nat)
    requires hi <= |ps| == |qs| && |wp| == 4 * |ps| + 2
  {
    forall i :: lo <= i < hi ==> SectionHolds(wp, ps, qs, i, j)
  }

  ghost predicate SectionHolds(wp: seq<real>, ps: seq<real>, qs: seq<real>, i: nat, j: nat)
    requires i < |ps| == |qs| && |wp| == 4 * |ps| + 2
  {
    && wp[4 * i] == Coef(ps[..i], j - 1) && wp[4 * i + 1] == Coef(ps[..i], j - 2)
    && wp[4 * i + 2] == Coef(qs[..i], j - 1) && wp[4 * i + 3] == Coef(qs[..i], j - 2)
  }

  lemma CoefStep(cs: seq<real>, i: nat, k: int)
    requires i < |cs|
    ensures Coef(cs[..i + 1], k) == Coef(cs[..i], k) - Mul(2.0 * cs[i], Coef(cs[..i], k - 1)) + Coef(cs[..i], k - 2)
  {
    assert cs[..i + 1][..i] == cs[..i];
  }

  lemma SameSections(before: seq<real>, wp: seq<real>, ps: seq<real>, qs: seq<real>, lo: nat, hi: nat, j: nat)
    requires hi <= |ps| == |qs| && |wp| == |before| == 4 * |ps| + 2
    requires SectionsHold(before, ps, qs, lo, hi, j)
    requires forall c :: 4 * lo <= c < 4 * hi ==> wp[c] == before[c]
    ensures SectionsHold(wp, ps, qs, lo, hi, j)
  {
    hide Coef;
    forall i | lo <= i < hi
      ensures SectionHolds(wp, ps, qs, i, j)
    {
      assert SectionHolds(before, ps, qs, i, j);
    }
  }

  lemma OthersHold(before: seq<real>, wp: seq<real>, ps: seq<real>, qs: seq<real>, i: nat, j: nat)
    requires i < |ps| == |qs| && |wp| == |before| == 4 * |ps| + 2
    requires SectionsHold(before, ps, qs, 0, i, j + 1) && SectionsHold(before, ps, qs, i, |ps|, j)
    requires forall c :: 0 <= c < 4 * |ps| && !(4 * i <= c < 4 * i + 4) ==> wp[c] == before[c]
    ensures SectionsHold(wp, ps, qs, 0, i, j + 1) && SectionsHold(wp, ps, qs, i + 1, |ps|, j)
  {
    hide SectionHolds;
    SameSections(before, wp, ps, qs, 0, i, j + 1);
    SameSections(before, wp, ps, qs, i + 1, |ps|, j);
  }

  /** One sample through all the sections: the inner loop of lsp_to_lpc. */
  method Cascade(wp: array<real>, xfreq: seq<real>, m: nat, xin1: real, xin2: real, ghost j: nat)
    returns (out1: real, out2: real)
    requires 2 * m <= |xfreq| && |xfreq| / 2 == m
    requires DelayLine(wp[..], Evens(xfreq), Odds(xfreq), j)
    requires xin1 == xin2 == Coef([], j)
    modifies wp
    ensures out1 == Coef(Evens(xfreq), j) && out2 == Coef(Odds(xfreq), j)
    ensures wp.Length == 4 * m + 2
    ensures SectionsHold(wp[..], Evens(xfreq), Odds(xfreq), 0, m, j + 1)
    ensures wp[4 * m] == old(wp[4 * m]) && wp[4 * m + 1] == old(wp[4 * m + 1])
  {
    hide Mul, Coef;
    ghost var ps, qs := Evens(xfreq), Odds(xfreq);
    out1, out2 := xin1, xin2;
    for i := 0 to m
      invariant out1 == Coef(ps[..i], j) && out2 == Coef(qs[..i], j)
      invariant SectionsHold(wp[..], ps, qs, 0, i, j + 1)
      invariant SectionsHold(wp[..], ps, qs, i, m, j)
      invariant wp[4 * m] == old(wp[4 * m]) && wp[4 * m + 1] == old(wp[4 * m + 1])
    {
      CoefStep(ps, i, j);
      CoefStep(qs, i, j);
      assert SectionHolds(wp[..], ps, qs, i, j);
      ghost var before := wp[..];
      var n1, n2, n3, n4 := 4 * i, 4 * i + 1, 4 * i + 2, 4 * i + 3;
      var xout1 := out1 - Mul(2.0 * xfreq[2 * i], wp[n1]) + wp[n2];
      var xout2 := out2 - Mul(2.0 * xfreq[2 * i + 1], wp[n3]) + wp[n4];
      wp[n2] := wp[n1];
      wp[n4] := wp[n3];
      wp[n1] := out1;
      wp[n3] := out2;
      out1, out2 := xout1, xout2;
      assert forall c :: 0 <= c < 4 * m && !(4 * i <= c < 4 * i + 4) ==> wp[c] == before[c];
      OthersHold(before, wp[..], ps, qs, i, j);
      assert SectionHolds(wp[..], ps, qs, i, j + 1);
    }
    assert ps[..m] == ps && qs[..m] == qs;
  }

  /** lsp_to_lpc on the cosines of the line spectral frequencies. */
  method LspToLpc(xfreq: seq<real>, ak: array<real>, lpcrdr: nat)
    requires 2 <= lpcrdr == |xfreq| && ak.Length == lpcrdr + 1
    modifies ak
    ensures forall k :: 0 <= k <= lpcrdr ==> ak[k] == Lpc(xfreq, k)
  {
    hide Coef;
    var m := lpcrdr / 2;
    ghost var ps, qs := Evens(xfreq), Odds(xfreq);
    var wp := new real[4 * m + 2];
    for i := 0 to 4 * m + 2
      invariant forall k :: 0 <= k < i ==> wp[k] == 0.0
      modifies wp
    {
      wp[i] := 0.0;
    }
    SilentStart(ps, qs);
    assert wp[..] == Zeros(4 * m + 2);
    var xin1, xin2 := 1.0, 1.0;
    CoefNoSections(0);
    for j := 0 to lpcrdr + 1
      invariant xin1 == xin2 == Coef([], j)
      invariant DelayLine(wp[..], ps, qs, j)
      invariant forall k :: 0 <= k < j ==> ak[k] == Lpc(xfreq, k)
    {
      xin1, xin2 := Cascade(wp, xfreq, m, xin1, xin2, j);
      var xout1 := xin1 + wp[4 * m];
      var xout2 := xin2 - wp[4 * m + 1];
      ak[j] := (xout1 + xout2) * 0.5;
      ghost var before := wp[..];
      wp[4 * m] := xin1;
      wp[4 * m + 1] := xin2;
      assert forall c :: 0 <= c < 4 * m ==> wp[c] == before[c];
      SameSections(before, wp[..], ps, qs, 0, m, j + 1);
      xin1, xin2 := 0.0, 0.0;
      CoefNoSections(j + 1);
    }
  }

  lemma CoefNoSections(k: nat)
    ensures Coef([], k) == if k == 0 then 1.0 else 0.0
  {
  }

  lemma SilentStart(ps: seq<real>, qs: seq<real>)
    requires |ps| == |qs|
    ensures DelayLine(Zeros(4 * |ps| + 2), ps, qs, 0)
  {
    forall cs: seq<real>, k: int | k < 0
      ensures Coef(cs, k) == 0.0
    {
      CoefBeforeZero(cs, k);
    }
  }

  // ----- what it computes -----

  lemma TwoTapAt(b: real, s: seq<real>, k: nat)
    requires k < |s|
    ensures ConvAt([1.0, b], s, k) == s[k] + Mul(b, At(s, k - 1))
  {
    MulUnits(s[k]);
    MulUnits(b);
    hide Mul;
    assert [1.0, b][1..] == [b] && [b][1..] == [];
    assert k >= 1 ==> ConvAt([], s, k - 2) == 0.0;
  }

  lemma PolynomialsAt(x: seq<real>, n: nat, k: nat)
    requires k < n
    ensures SumPolynomial(x, n)[k] == Coef(Evens(x), k) + Coef(Evens(x), k - 1)
    ensures DifferencePolynomial(x, n)[k] == Coef(Odds(x), k) - Coef(Odds(x), k - 1)
  {
    hide Coef, ConvAt;
    var p, q := Product(Evens(x), n), Product(Odds(x), n);
    TwoTapAt(1.0, p, k);
    TwoTapAt(-1.0, q, k);
    ProductIsCoef(Evens(x), n, k);
    ProductIsCoef(Odds(x), n, k);
    if k >= 1 {
      ProductIsCoef(Evens(x), n, k - 1);
      ProductIsCoef(Odds(x), n, k - 1);
    } else {
      CoefBeforeZero(Evens(x), k - 1);
      CoefBeforeZero(Odds(x), k - 1);
    }
    MulNegatesLeft(1.0, At(q, k - 1));
    MulUnits(At(q, k - 1));
    MulUnits(At(p, k - 1));
  }

  /** lsp_to_lpc emits all of (P + Q) / 2: to any length, what it leaves out is zero. */
  lemma LpcIsHalfSum(x: seq<real>, ak: seq<real>, n: nat)
    requires 2 <= |x| && |ak| == |x| + 1
    requires forall k :: 0 <= k <= |x| ==> ak[k] == Lpc(x, k)
    ensures Fit(ak, n) == Scale(0.5, Plus(SumPolynomial(x, n), DifferencePolynomial(x, n)))
    ensures ak[0] == 1.0
  {
    hide Coef;
    var h := Scale(0.5, Plus(SumPolynomial(x, n), DifferencePolynomial(x, n)));
    CoefEnds(Evens(x));
    CoefEnds(Odds(x));
    CoefBeforeZero(Evens(x), -1);
    CoefBeforeZero(Odds(x), -1);
    forall k | 0 <= k < n
      ensures Fit(ak, n)[k] == h[k]
    {
      PolynomialsAt(x, n, k);
      if k > |x| {
        CoefBeyond(Evens(x), k);
        CoefBeyond(Odds(x), k);
        if k - 1 == 2 * |Evens(x)| {
        } else {
          CoefBeyond(Evens(x), k - 1);
          CoefBeyond(Odds(x), k - 1);
        }
      }
    }
  }

  /** The split can be undone: P and Q are the symmetric and the antisymmetric part of the filter
      about the middle of its d + 1 coefficients, d = 2m + 1 for m pairs. */
  lemma PolynomialsFromLpc(x: seq<real>, n: nat, k: nat)
    requires 2 <= |x| && k < n
    ensures SumPolynomial(x, n)[k] == Lpc(x, k) + Lpc(x, 2 * (|x| / 2) + 1 - k)
    ensures DifferencePolynomial(x, n)[k] == Lpc(x, k) - Lpc(x, 2 * (|x| / 2) + 1 - k)
  {
    hide Coef;
    PolynomialsAt(x, n, k);
    CoefPalindrome(Evens(x), k);
    CoefPalindrome(Evens(x), k - 1);
    CoefPalindrome(Odds(x), k);
    CoefPalindrome(Odds(x), k - 1);
  }
}
