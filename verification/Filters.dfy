/** The pole-zero filters of libspeex, filters.c, float build, in exact arithmetic. */
module Filters {
  import opened Signals

  /** What one run of a filter leaves behind: its output and its memory. */
  datatype Run = Run(out: seq<real>, mem: seq<real>)

  /** Output sample `n` of the transposed filter started with memory `mem`. */
  function OutAt(num: seq<real>, den: seq<real>, mem: seq<real>, x: seq<real>, n: nat): real
    decreases n, 1
  {
    Mul(At(num, 0), At(x, n)) + MemAt(num, den, mem, x, n, 0)
  }

  /** Memory cell `j` of the transposed filter after `n` samples. */
  function MemAt(num: seq<real>, den: seq<real>, mem: seq<real>, x: seq<real>, n: nat, j: nat): real
    decreases n, 0
  {
    if j >= |mem| then 0.0
    else if n == 0 then mem[j]
    else MemAt(num, den, mem, x, n - 1, j + 1)
         + Mul(At(num, j + 1), At(x, n - 1)) - Mul(At(den, j + 1), OutAt(num, den, mem, x, n - 1))
  }

  /** The filter run over a whole signal. */
  function RunFilter(num: seq<real>, den: seq<real>, mem: seq<real>, x: seq<real>): (r: Run)
    ensures |r.out| == |x| && |r.mem| == |mem|
    ensures forall i :: 0 <= i < |x| ==> r.out[i] == OutAt(num, den, mem, x, i)
    ensures forall j :: 0 <= j < |mem| ==> r.mem[j] == MemAt(num, den, mem, x, |x|, j)
  {
    Run(seq(|x|, i requires 0 <= i < |x| => OutAt(num, den, mem, x, i)),
        seq(|mem|, j requires 0 <= j < |mem| => MemAt(num, den, mem, x, |x|, j)))
  }

  /** The denominator the code really applies: its leading coefficient is never read. */
  function Monic(den: seq<real>): (d: seq<real>)
    requires den != []
  {
    [1.0] + den[1..]
  }

  /** The coefficients of the side that `iir_mem2` and `fir_mem2` leave out. */
  function One(ord: nat): (one: seq<real>)
    ensures |one| == ord + 1
    ensures forall k :: 0 <= k <= ord ==> one[k] == if k == 0 then 1.0 else 0.0
  {
    Impulse(ord + 1)
  }

  // ----- the loops of the source -----

  lemma OutStep(num: seq<real>, den: seq<real>, mem: seq<real>, x: seq<real>, n: nat)
    requires num != [] && n < |x|
    ensures OutAt(num, den, mem, x, n) == Mul(num[0], x[n]) + MemAt(num, den, mem, x, n, 0)
    ensures OutAt(One(|mem|), den, mem, x, n) == x[n] + MemAt(One(|mem|), den, mem, x, n, 0)
  {
    MulUnits(x[n]);
  }

  lemma MemStart(num: seq<real>, den: seq<real>, mem: seq<real>, x: seq<real>)
    ensures forall j :: 0 <= j < |mem| ==> MemAt(num, den, mem, x, 0, j) == mem[j]
  {
  }

  lemma MemStep(num: seq<real>, den: seq<real>, mem: seq<real>, x: seq<real>, n: nat, j: nat)
    requires |num| == |den| == |mem| + 1 && j < |mem| && n < |x|
    ensures MemAt(num, den, mem, x, n + 1, j)
            == (if j + 1 == |mem| then 0.0 else MemAt(num, den, mem, x, n, j + 1))
               + Mul(num[j + 1], x[n]) - Mul(den[j + 1], OutAt(num, den, mem, x, n))
  {
    hide Mul;
  }

  /** filter_mem2. The output may be the input array itself. */
  method FilterMem2(x: array<real>, num: seq<real>, den: seq<real>, y: array<real>, n: nat, ord: nat, mem: array<real>)
    requires 1 <= ord && |num| == |den| == ord + 1 && mem.Length == ord
    requires n <= x.Length && n <= y.Length && mem != x && mem != y
    modifies y, mem
    ensures Run(y[..n], mem[..]) == RunFilter(num, den, old(mem[..]), old(x[..n]))
    ensures y[n..] == old(y[n..])
  {
    hide Mul, OutAt, MemAt;
    ghost var m0, x0 := mem[..], x[..n];
    MemStart(num, den, m0, x0);
    var i := 0;
    while i < n
      invariant 0 <= i <= n
      invariant forall k :: 0 <= k < i ==> y[k] == OutAt(num, den, m0, x0, k)
      invariant forall k :: 0 <= k < ord ==> mem[k] == MemAt(num, den, m0, x0, i, k)
      invariant forall k :: n <= k < y.Length ==> y[k] == old(y[k])
      invariant forall k :: i <= k < n ==> x[k] == x0[k]
    {
      var xi := x[i];
      OutStep(num, den, m0, x0, i);
      y[i] := Mul(num[0], xi) + mem[0];
      var yi := y[i];
      var j := 0;
      while j < ord - 1
        invariant 0 <= j <= ord - 1
        invariant forall k :: 0 <= k < j ==> mem[k] == MemAt(num, den, m0, x0, i + 1, k)
        invariant forall k :: j <= k < ord ==> mem[k] == MemAt(num, den, m0, x0, i, k)
        modifies mem
      {
        MemStep(num, den, m0, x0, i, j);
        mem[j] := mem[j + 1] + Mul(num[j + 1], xi) - Mul(den[j + 1], yi);
        j := j + 1;
      }
      MemStep(num, den, m0, x0, i, ord - 1);
      mem[ord - 1] := Mul(num[ord], xi) - Mul(den[ord], yi);
      i := i + 1;
    }
  }

  /** iir_mem2: the filter with numerator 1. */
  method IirMem2(x: array<real>, den: seq<real>, y: array<real>, n: nat, ord: nat, mem: array<real>)
    requires 1 <= ord && |den| == ord + 1 && mem.Length == ord
    requires n <= x.Length && n <= y.Length && mem != x && mem != y
    modifies y, mem
    ensures Run(y[..n], mem[..]) == RunFilter(One(ord), den, old(mem[..]), old(x[..n]))
    ensures y[n..] == old(y[n..])
  {
    hide Mul, One, OutAt, MemAt;
    ghost var m0, x0 := mem[..], x[..n];
    MemStart(One(ord), den, m0, x0);
    var i := 0;
    while i < n
      invariant 0 <= i <= n
      invariant forall k :: 0 <= k < i ==> y[k] == OutAt(One(ord), den, m0, x0, k)
      invariant forall k :: 0 <= k < ord ==> mem[k] == MemAt(One(ord), den, m0, x0, i, k)
      invariant forall k :: n <= k < y.Length ==> y[k] == old(y[k])
      invariant forall k :: i <= k < n ==> x[k] == x0[k]
    {
      OutStep(One(ord), den, m0, x0, i);
      y[i] := x[i] + mem[0];
      var yi := y[i];
      var j := 0;
      while j < ord - 1
        invariant 0 <= j <= ord - 1
        invariant forall k :: 0 <= k < j ==> mem[k] == MemAt(One(ord), den, m0, x0, i + 1, k)
        invariant forall k :: j <= k < ord ==> mem[k] == MemAt(One(ord), den, m0, x0, i, k)
        modifies mem
      {
        MulUnits(x0[i]);
        MemStep(One(ord), den, m0, x0, i, j);
        mem[j] := mem[j + 1] - Mul(den[j + 1], yi);
        j := j + 1;
      }
      MulUnits(x0[i]);
      MemStep(One(ord), den, m0, x0, i, ord - 1);
      mem[ord - 1] := -Mul(den[ord], yi);
      i := i + 1;
    }
  }

  /** fir_mem2: the filter with denominator 1. */
  method FirMem2(x: array<real>, num: seq<real>, y: array<real>, n: nat, ord: nat, mem: array<real>)
    requires 1 <= ord && |num| == ord + 1 && mem.Length == ord
    requires n <= x.Length && n <= y.Length && mem != x && mem != y
    modifies y, mem
    ensures Run(y[..n], mem[..]) == RunFilter(num, One(ord), old(mem[..]), old(x[..n]))
    ensures y[n..] == old(y[n..])
  {
    hide Mul, One, OutAt, MemAt;
    ghost var m0, x0 := mem[..], x[..n];
    MemStart(num, One(ord), m0, x0);
    var i := 0;
    while i < n
      invariant 0 <= i <= n
      invariant forall k :: 0 <= k < i ==> y[k] == OutAt(num, One(ord), m0, x0, k)
      invariant forall k :: 0 <= k < ord ==> mem[k] == MemAt(num, One(ord), m0, x0, i, k)
      invariant forall k :: n <= k < y.Length ==> y[k] == old(y[k])
      invariant forall k :: i <= k < n ==> x[k] == x0[k]
    {
      var xi := x[i];
      OutStep(num, One(ord), m0, x0, i);
      y[i] := Mul(num[0], xi) + mem[0];
      var j := 0;
      while j < ord - 1
        invariant 0 <= j <= ord - 1
        invariant forall k :: 0 <= k < j ==> mem[k] == MemAt(num, One(ord), m0, x0, i + 1, k)
        invariant forall k :: j <= k < ord ==> mem[k] == MemAt(num, One(ord), m0, x0, i, k)
        modifies mem
      {
        MulUnits(y[i]);
        MemStep(num, One(ord), m0, x0, i, j);
        mem[j] := mem[j + 1] + Mul(num[j + 1], xi);
        j := j + 1;
      }
      MulUnits(y[i]);
      MemStep(num, One(ord), m0, x0, i, ord - 1);
      mem[ord - 1] := Mul(num[ord], xi);
      i := i + 1;
    }
  }

  // ----- what the filter computes -----

  lemma {:induction false} OwedMonic(den: seq<real>, y: seq<real>, j: nat)
    requires den != []
    ensures Owed(Monic(den), y, j) == Owed(den, y, j)
    decreases |y|
  {
    if y != [] {
      OwedMonic(den, y[..|y| - 1], j + 1);
      assert At(Monic(den), j + 1) == At(den, j + 1);
    }
  }

  lemma {:induction false} OwedBeyond(a: seq<real>, x: seq<real>, j: nat)
    requires |a| <= j + 1
    ensures Owed(a, x, j) == 0.0
    decreases |x|
  {
    if x != [] {
      OwedBeyond(a, x[..|x| - 1], j + 1);
    }
  }

  /** The memory holds what past inputs and outputs owe to future outputs. */
  lemma {:induction false} MemoryIsOwed(num: seq<real>, den: seq<real>, mem: seq<real>,
                                        x: seq<real>, y: seq<real>, n: nat, j: nat)
    requires |num| == |den| == |mem| + 1 && n <= |x| == |y|
    requires forall i :: 0 <= i < n ==> y[i] == OutAt(num, den, mem, x, i)
    ensures MemAt(num, den, mem, x, n, j) == At(mem, n + j) + Owed(num, x[..n], j) - Owed(den, y[..n], j)
    decreases n
  {
    hide Mul;
    if j >= |mem| {
      OwedBeyond(num, x[..n], j);
      OwedBeyond(den, y[..n], j);
    } else if n > 0 {
      MemoryIsOwed(num, den, mem, x, y, n - 1, j + 1);
      assert x[..n][..n - 1] == x[..n - 1] && y[..n][..n - 1] == y[..n - 1];
        var p, q := Mul(At(num, j + 1), x[n - 1]), Mul(At(den, j + 1), y[n - 1]);
      assert MemAt(num, den, mem, x, n, j) == MemAt(num, den, mem, x, n - 1, j + 1) + p - q;
      assert Owed(num, x[..n], j) == p + Owed(num, x[..n - 1], j + 1);
      assert Owed(den, y[..n], j) == q + Owed(den, y[..n - 1], j + 1);
    }
  }

  /** filter_mem2 solves den * y == num * x + initial memory, den[0] read as 1. */
  lemma DifferenceEquation(num: seq<real>, den: seq<real>, mem: seq<real>, x: seq<real>)
    requires |num| == |den| == |mem| + 1
    ensures var y := RunFilter(num, den, mem, x).out;
            Fir(Monic(den), y) == Plus(Fir(num, x), Fit(mem, |x|))
  {
    hide Mul;
    var y := RunFilter(num, den, mem, x).out;
    forall n | 0 <= n < |x|
      ensures Fir(Monic(den), y)[n] == Plus(Fir(num, x), Fit(mem, |x|))[n]
    {
      MemoryIsOwed(num, den, mem, x, y, n, 0);
      FirAt(Monic(den), y, n);
      FirAt(num, x, n);
      OwedMonic(den, y[..n], 0);
      MulUnits(y[n]);
    }
  }

  // ----- block after block -----

  lemma {:induction false} RunContinues(num: seq<real>, den: seq<real>, mem: seq<real>,
                                        a: seq<real>, b: seq<real>, n: nat, j: nat)
    requires n <= |b|
    ensures var mid := RunFilter(num, den, mem, a).mem;
            MemAt(num, den, mem, a + b, |a| + n, j) == MemAt(num, den, mid, b, n, j)
    ensures n < |b| ==> OutAt(num, den, mem, a + b, |a| + n) == OutAt(num, den, RunFilter(num, den, mem, a).mem, b, n)
    decreases n, if j == 0 then 0 else 1
  {
    hide Mul;
    var mid := RunFilter(num, den, mem, a).mem;
    if n == 0 {
      RunLooksBack(num, den, mem, a, b, |a|, j);
      RunLooksBack(num, den, mem, a, b, |a|, 0);
    } else {
      RunContinues(num, den, mem, a, b, n - 1, j + 1);
      RunContinues(num, den, mem, a, b, n - 1, 0);
      if j != 0 {
        RunContinues(num, den, mem, a, b, n, 0);
      }
    }
  }

  /** Samples to come do not change what has been computed. */
  lemma {:induction false} RunLooksBack(num: seq<real>, den: seq<real>, mem: seq<real>,
                                        a: seq<real>, b: seq<real>, n: nat, j: nat)
    requires n <= |a|
    ensures MemAt(num, den, mem, a + b, n, j) == MemAt(num, den, mem, a, n, j)
    ensures n < |a| ==> OutAt(num, den, mem, a + b, n) == OutAt(num, den, mem, a, n)
    decreases n, if j == 0 then 0 else 1
  {
    hide Mul;
    if n > 0 {
      RunLooksBack(num, den, mem, a, b, n - 1, j + 1);
    }
    if j != 0 {
      RunLooksBack(num, den, mem, a, b, n, 0);
    }
  }

  /** Filtering two blocks in turn, carrying the memory, is filtering their concatenation. */
  lemma BlockByBlock(num: seq<real>, den: seq<real>, mem: seq<real>, a: seq<real>, b: seq<real>)
    requires mem != []
    ensures var first := RunFilter(num, den, mem, a);
            var second := RunFilter(num, den, first.mem, b);
            RunFilter(num, den, mem, a + b) == Run(first.out + second.out, second.mem)
  {
    hide OutAt;
    hide MemAt;
    var first := RunFilter(num, den, mem, a);
    var second := RunFilter(num, den, first.mem, b);
    var whole := RunFilter(num, den, mem, a + b);
    forall i | 0 <= i < |a| + |b|
      ensures whole.out[i] == (first.out + second.out)[i]
    {
      if i < |a| {
        RunLooksBack(num, den, mem, a, b, i, 0);
      } else {
        RunContinues(num, den, mem, a, b, i - |a|, 0);
      }
    }
    forall j | 0 <= j < |mem|
      ensures whole.mem[j] == second.mem[j]
    {
      RunContinues(num, den, mem, a, b, |b|, j);
    }
  }

  // ----- the perceptual filters -----

  /** The signal syn_percep_zero computes: awk1 / (awk2 * ak), from silence. */
  function Syn(ak: seq<real>, awk1: seq<real>, awk2: seq<real>, x: seq<real>): (y: seq<real>)
    requires |ak| == |awk1| == |awk2| >= 2
    ensures |y| == |x|
  {
    var ord := |ak| - 1;
    var u := RunFilter(One(ord), ak, Zeros(ord), x).out;
    RunFilter(awk1, awk2, Zeros(ord), u).out
  }

  /** The signal residue_percep_zero computes: (ak * awk2) / awk1, from silence. */
  function Residue(ak: seq<real>, awk1: seq<real>, awk2: seq<real>, x: seq<real>): (y: seq<real>)
    requires |ak| == |awk1| == |awk2| >= 2
    ensures |y| == |x|
  {
    var ord := |ak| - 1;
    var v := RunFilter(ak, awk1, Zeros(ord), x).out;
    RunFilter(awk2, One(ord), Zeros(ord), v).out
  }

  method ClearMemory(mem: array<real>)
    modifies mem
    ensures mem[..] == Zeros(mem.Length)
  {
    for i := 0 to mem.Length
      invariant forall k :: 0 <= k < i ==> mem[k] == 0.0
    {
      mem[i] := 0.0;
    }
  }

  /** syn_percep_zero; its second stage works in place. */
  method SynPercepZero(xx: array<real>, ak: seq<real>, awk1: seq<real>, awk2: seq<real>,
                       y: array<real>, n: nat, ord: nat)
    requires 1 <= ord && |ak| == |awk1| == |awk2| == ord + 1
    requires n <= xx.Length && n <= y.Length
    modifies y
    ensures y[..n] == Syn(ak, awk1, awk2, old(xx[..n]))
    ensures y[n..] == old(y[n..])
  {
    hide RunFilter;
    var mem := new real[ord];
    ClearMemory(mem);
    IirMem2(xx, ak, y, n, ord, mem);
    ClearMemory(mem);
    FilterMem2(y, awk1, awk2, y, n, ord, mem);
  }

  /** residue_percep_zero; its second stage works in place. */
  method ResiduePercepZero(xx: array<real>, ak: seq<real>, awk1: seq<real>, awk2: seq<real>,
                           y: array<real>, n: nat, ord: nat)
    requires 1 <= ord && |ak| == |awk1| == |awk2| == ord + 1
    requires n <= xx.Length && n <= y.Length
    modifies y
    ensures y[..n] == Residue(ak, awk1, awk2, old(xx[..n]))
    ensures y[n..] == old(y[n..])
  {
    hide RunFilter;
    var mem := new real[ord];
    ClearMemory(mem);
    FilterMem2(xx, ak, awk1, y, n, ord, mem);
    ClearMemory(mem);
    FirMem2(y, awk2, y, n, ord, mem);
  }

  /** A filter started from silence solves den * y == num * x. */
  lemma FromSilence(num: seq<real>, den: seq<real>, ord: nat, x: seq<real>)
    requires |num| == |den| == ord + 1
    ensures Fir(Monic(den), RunFilter(num, den, Zeros(ord), x).out) == Fir(num, x)
  {
    DifferenceEquation(num, den, Zeros(ord), x);
    assert Fit(Zeros(ord), |x|) == Zeros(|x|);
    assert Plus(Fir(num, x), Zeros(|x|)) == Fir(num, x);
  }

  lemma OneIsNeutral(ord: nat, x: seq<real>)
    ensures Fir(One(ord), x) == x
    ensures Monic(One(ord)) == One(ord)
  {
    forall i | 0 <= i < |x|
      ensures Fir(One(ord), x)[i] == x[i]
    {
      assert One(ord)[1..] == Zeros(ord);
      ConvNoCoefficients(ord, x, i - 1);
      MulUnits(x[i]);
    }
  }

  /** The defining equation of syn_percep_zero: ak * awk2 * y == awk1 * x. */
  lemma SynEquation(ak: seq<real>, awk1: seq<real>, awk2: seq<real>, x: seq<real>)
    requires |ak| == |awk1| == |awk2| >= 2
    ensures Fir(Monic(ak), Fir(Monic(awk2), Syn(ak, awk1, awk2, x))) == Fir(awk1, x)
  {
    hide Fir, RunFilter, Monic, One;
    var ord := |ak| - 1;
    var u := RunFilter(One(ord), ak, Zeros(ord), x).out;
    FromSilence(One(ord), ak, ord, x);
    OneIsNeutral(ord, x);
    FromSilence(awk1, awk2, ord, u);
    FirCommutes(Monic(ak), awk1, u);
  }

  /** The equation of residue_percep_zero: awk1 * y == awk2 * ak * x. */
  lemma ResidueEquation(ak: seq<real>, awk1: seq<real>, awk2: seq<real>, x: seq<real>)
    requires |ak| == |awk1| == |awk2| >= 2
    ensures Fir(Monic(awk1), Residue(ak, awk1, awk2, x)) == Fir(awk2, Fir(ak, x))
  {
    hide Fir, RunFilter, Monic, One;
    var ord := |ak| - 1;
    var v := RunFilter(ak, awk1, Zeros(ord), x).out;
    var z := Residue(ak, awk1, awk2, x);
    FromSilence(ak, awk1, ord, x);
    FromSilence(awk2, One(ord), ord, v);
    OneIsNeutral(ord, z);
    assert z == Fir(awk2, v);
    FirCommutes(Monic(awk1), awk2, v);
  }

  /** residue_percep_zero undoes syn_percep_zero. */
  lemma ResidueUndoesSyn(ak: seq<real>, awk1: seq<real>, awk2: seq<real>, x: seq<real>)
    requires |ak| == |awk1| == |awk2| >= 2 && ak[0] == awk1[0] == awk2[0] == 1.0
    ensures Residue(ak, awk1, awk2, Syn(ak, awk1, awk2, x)) == x
  {
    assert Monic(ak) == ak && Monic(awk1) == awk1 && Monic(awk2) == awk2;
    hide Fir, RunFilter, Monic, Syn, Residue;
    var y := Syn(ak, awk1, awk2, x);
    SynEquation(ak, awk1, awk2, x);
    ResidueEquation(ak, awk1, awk2, y);
    FirCommutes(awk2, ak, y);
    FirCancels(awk1, Residue(ak, awk1, awk2, y), x);
  }

  /** And syn_percep_zero undoes residue_percep_zero. */
  lemma SynUndoesResidue(ak: seq<real>, awk1: seq<real>, awk2: seq<real>, x: seq<real>)
    requires |ak| == |awk1| == |awk2| >= 2 && ak[0] == awk1[0] == awk2[0] == 1.0
    ensures Syn(ak, awk1, awk2, Residue(ak, awk1, awk2, x)) == x
  {
    assert Monic(ak) == ak && Monic(awk1) == awk1 && Monic(awk2) == awk2;
    hide Fir, RunFilter, Monic, Syn, Residue;
    var z := Residue(ak, awk1, awk2, x);
    ResidueEquation(ak, awk1, awk2, x);
    SynEquation(ak, awk1, awk2, z);
    FirCommutes(awk2, ak, x);
    FirCancels(ak, Fir(awk2, Syn(ak, awk1, awk2, z)), Fir(awk2, x));
    FirCancels(awk2, Syn(ak, awk1, awk2, z), x);
  }

  // ----- the impulse response -----

  /** The stream computed by compute_impulse_response: awk1, then 1 / awk2, then 1 / ak. */
  function Response(ak: seq<real>, awk1: seq<real>, awk2: seq<real>, n: nat): (h: seq<real>)
    requires |ak| == |awk1| == |awk2| >= 2
    ensures |h| == n
  {
    var ord := |ak| - 1;
    var first := RunFilter(One(ord), awk2, Zeros(ord), Fit(awk1, n)).out;
    RunFilter(One(ord), ak, Zeros(ord), first).out
  }

  /** compute_impulse_response: both recursions run in one pass over y. */
  method ComputeImpulseResponse(ak: seq<real>, awk1: seq<real>, awk2: seq<real>, y: array<real>, n: nat, ord: nat)
    requires 1 <= ord && |ak| == |awk1| == |awk2| == ord + 1
    requires n <= y.Length && ord + 1 <= y.Length
    modifies y
    ensures y[..n] == Response(ak, awk1, awk2, n)
    ensures forall k :: n <= k < y.Length && ord < k ==> y[k] == old(y[k])
  {
    hide Mul, One, OutAt, MemAt;
    var mem1, mem2 := new real[ord], new real[ord];
    for i := 0 to ord + 1
      invariant forall k :: 0 <= k < i ==> y[k] == awk1[k]
      invariant forall k :: i <= k < y.Length ==> y[k] == old(y[k])
    {
      y[i] := awk1[i];
    }
    var i := ord + 1;
    while i < n
      invariant ord + 1 <= i && (i <= n || i == ord + 1)
      invariant forall k :: 0 <= k < i ==> y[k] == At(awk1, k)
      invariant forall k :: i <= k < y.Length ==> y[k] == old(y[k])
    {
      y[i] := 0.0;
      i := i + 1;
    }
    for k := 0 to ord
      invariant forall l :: 0 <= l < k ==> mem1[l] == mem2[l] == 0.0
      invariant forall l :: 0 <= l < n ==> y[l] == At(awk1, l)
      invariant forall l :: n <= l < y.Length && ord < l ==> y[l] == old(y[l])
    {
      mem1[k], mem2[k] := 0.0, 0.0;
    }
    ghost var z := Zeros(ord);
    ghost var x0 := Fit(awk1, n);
    ghost var first := RunFilter(One(ord), awk2, z, x0).out;
    MemStart(One(ord), awk2, z, x0);
    MemStart(One(ord), ak, z, first);
    for i := 0 to n
      invariant forall k :: 0 <= k < i ==> y[k] == OutAt(One(ord), ak, z, first, k)
      invariant forall k :: i <= k < n ==> y[k] == x0[k]
      invariant forall k :: n <= k < y.Length && ord < k ==> y[k] == old(y[k])
      invariant forall k :: 0 <= k < ord ==> mem1[k] == MemAt(One(ord), awk2, z, x0, i, k)
      invariant forall k :: 0 <= k < ord ==> mem2[k] == MemAt(One(ord), ak, z, first, i, k)
    {
      OutStep(One(ord), awk2, z, x0, i);
      OutStep(One(ord), ak, z, first, i);
      var y1 := y[i] + mem1[0];
      y[i] := y1 + mem2[0];
      ShiftBoth(ak, awk2, ord, mem1, mem2, -y1, -y[i], z, x0, first, i);
    }
  }

  /** The memory loop of compute_impulse_response, for both recursions at once. */
  method ShiftBoth(ak: seq<real>, awk2: seq<real>, ord: nat, mem1: array<real>, mem2: array<real>,
                   ny1i: real, ny2i: real, ghost z: seq<real>, ghost x0: seq<real>, ghost first: seq<real>, ghost i: nat)
    requires 1 <= ord && |ak| == |awk2| == ord + 1 && mem1.Length == mem2.Length == |z| == ord && mem1 != mem2
    requires i < |x0| == |first|
    requires ny1i == -OutAt(One(ord), awk2, z, x0, i) && ny2i == -OutAt(One(ord), ak, z, first, i)
    requires forall k :: 0 <= k < ord ==> mem1[k] == MemAt(One(ord), awk2, z, x0, i, k)
    requires forall k :: 0 <= k < ord ==> mem2[k] == MemAt(One(ord), ak, z, first, i, k)
    modifies mem1, mem2
    ensures forall k :: 0 <= k < ord ==> mem1[k] == MemAt(One(ord), awk2, z, x0, i + 1, k)
    ensures forall k :: 0 <= k < ord ==> mem2[k] == MemAt(One(ord), ak, z, first, i + 1, k)
  {
    hide Mul, One, OutAt, MemAt;
    MulUnits(x0[i]);
    MulUnits(first[i]);
    for j := 0 to ord - 1
      invariant forall k :: 0 <= k < j ==> mem1[k] == MemAt(One(ord), awk2, z, x0, i + 1, k)
      invariant forall k :: 0 <= k < j ==> mem2[k] == MemAt(One(ord), ak, z, first, i + 1, k)
      invariant forall k :: j <= k < ord ==> mem1[k] == MemAt(One(ord), awk2, z, x0, i, k)
      invariant forall k :: j <= k < ord ==> mem2[k] == MemAt(One(ord), ak, z, first, i, k)
    {
      MemStep(One(ord), awk2, z, x0, i, j);
      MemStep(One(ord), ak, z, first, i, j);
      MulNegates(awk2[j + 1], -ny1i);
      MulNegates(ak[j + 1], -ny2i);
      mem1[j] := mem1[j + 1] + Mul(awk2[j + 1], ny1i);
      mem2[j] := mem2[j + 1] + Mul(ak[j + 1], ny2i);
    }
    MemStep(One(ord), awk2, z, x0, i, ord - 1);
    MemStep(One(ord), ak, z, first, i, ord - 1);
    MulNegates(awk2[ord], -ny1i);
    MulNegates(ak[ord], -ny2i);
    mem1[ord - 1] := Mul(awk2[ord], ny1i);
    mem2[ord - 1] := Mul(ak[ord], ny2i);
  }

  lemma ResponseEquation(ak: seq<real>, awk1: seq<real>, awk2: seq<real>, n: nat)
    requires |ak| == |awk1| == |awk2| >= 2
    ensures Fir(Monic(ak), Fir(Monic(awk2), Response(ak, awk1, awk2, n))) == Fit(awk1, n)
  {
    hide Fir, RunFilter, Monic, One;
    var ord := |ak| - 1;
    var first := RunFilter(One(ord), awk2, Zeros(ord), Fit(awk1, n)).out;
    FromSilence(One(ord), awk2, ord, Fit(awk1, n));
    FromSilence(One(ord), ak, ord, first);
    OneIsNeutral(ord, Fit(awk1, n));
    OneIsNeutral(ord, first);
    FirCommutes(Monic(ak), Monic(awk2), Response(ak, awk1, awk2, n));
  }

  /** The equation of the synthesis filter has one solution. */
  lemma SynIsUnique(ak: seq<real>, awk1: seq<real>, awk2: seq<real>, x: seq<real>, y: seq<real>)
    requires |ak| == |awk1| == |awk2| >= 2 && |x| == |y|
    requires Fir(Monic(ak), Fir(Monic(awk2), y)) == Fir(awk1, x)
    ensures y == Syn(ak, awk1, awk2, x)
  {
    hide Fir, RunFilter, Syn;
    var s := Syn(ak, awk1, awk2, x);
    SynEquation(ak, awk1, awk2, x);
    FirCancels(Monic(ak), Fir(Monic(awk2), y), Fir(Monic(awk2), s));
    FirCancels(Monic(awk2), y, s);
  }

  /** compute_impulse_response returns the response of syn_percep_zero to an impulse. */
  lemma ResponseIsSynOfImpulse(ak: seq<real>, awk1: seq<real>, awk2: seq<real>, n: nat)
    requires |ak| == |awk1| == |awk2| >= 2
    ensures Response(ak, awk1, awk2, n) == Syn(ak, awk1, awk2, Impulse(n))
  {
    hide Fir, RunFilter, Syn;
    ResponseEquation(ak, awk1, awk2, n);
    FirImpulse(awk1, n);
    SynIsUnique(ak, awk1, awk2, Impulse(n), Response(ak, awk1, awk2, n));
  }

  /** syn_percep_zero is convolution with that response. */
  lemma SynIsConvolution(ak: seq<real>, awk1: seq<real>, awk2: seq<real>, x: seq<real>)
    requires |ak| == |awk1| == |awk2| >= 2
    ensures Syn(ak, awk1, awk2, x) == Fir(Response(ak, awk1, awk2, |x|), x)
  {
    hide Fir, RunFilter, Syn, Response, Monic;
    var n, h := |x|, Response(ak, awk1, awk2, |x|);
    ResponseEquation(ak, awk1, awk2, n);
    FirAssociates(Monic(awk2), h, x);
    FirAssociates(Monic(ak), Fir(Monic(awk2), h), x);
    assert Fir(Monic(ak), Fir(Monic(awk2), Fir(h, x))) == Fir(Fit(awk1, n), x);
    FirFit(awk1, x);
    SynIsUnique(ak, awk1, awk2, x, Fir(h, x));
  }

  // ----- syn_percep_zero is linear and time invariant -----

  lemma SynPlus(ak: seq<real>, awk1: seq<real>, awk2: seq<real>, x: seq<real>, y: seq<real>)
    requires |ak| == |awk1| == |awk2| >= 2 && |x| == |y|
    ensures Syn(ak, awk1, awk2, Plus(x, y)) == Plus(Syn(ak, awk1, awk2, x), Syn(ak, awk1, awk2, y))
  {
    hide Fir, Syn, Response;
    SynIsConvolution(ak, awk1, awk2, x);
    SynIsConvolution(ak, awk1, awk2, y);
    SynIsConvolution(ak, awk1, awk2, Plus(x, y));
    FirPlus(Response(ak, awk1, awk2, |x|), x, y);
  }

  lemma SynScale(ak: seq<real>, awk1: seq<real>, awk2: seq<real>, c: real, x: seq<real>)
    requires |ak| == |awk1| == |awk2| >= 2
    ensures Syn(ak, awk1, awk2, Scale(c, x)) == Scale(c, Syn(ak, awk1, awk2, x))
  {
    hide Fir, Syn, Response;
    SynIsConvolution(ak, awk1, awk2, x);
    SynIsConvolution(ak, awk1, awk2, Scale(c, x));
    FirScale(Response(ak, awk1, awk2, |x|), c, x);
  }

  /** The response to a signal that comes one sample later, with a new first sample in front:
      the delayed response plus the impulse response scaled by the new sample. */
  lemma SynShiftAndAdd(ak: seq<real>, awk1: seq<real>, awk2: seq<real>, e: seq<real>, f: seq<real>)
    requires |ak| == |awk1| == |awk2| >= 2 && |e| == |f| >= 1
    requires forall j :: 1 <= j < |f| ==> f[j] == e[j - 1]
    ensures Syn(ak, awk1, awk2, f)
            == Plus(Delay(Syn(ak, awk1, awk2, e)), Scale(f[0], Response(ak, awk1, awk2, |f|)))
  {
    var n, h := |f|, Response(ak, awk1, awk2, |f|);
    var first := Scale(f[0], Impulse(n));
    forall i | 0 <= i < n
      ensures Plus(Delay(e), first)[i] == f[i]
    {
      MulUnits(f[0]);
    }
    assert Plus(Delay(e), first) == f;
    hide Fir, Syn, Response, Plus, Delay, Scale;
    SynIsConvolution(ak, awk1, awk2, e);
    SynIsConvolution(ak, awk1, awk2, f);
    FirPlus(h, Delay(e), first);
    FirDelay(h, e);
    FirScale(h, f[0], Impulse(n));
    FirImpulse(h, n);
    assert Fit(h, n) == h;
  }
}
