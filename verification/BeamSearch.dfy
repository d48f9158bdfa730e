/** The loops of the split codebook search of libspeex, cb_search.c, proved against `CbSearch`. */
module BeamSearch {
  import opened Signals
  import opened NBest
  import opened Vq
  import opened CbSearch

  // ----- the working arrays -----

  /** Row k of the arrays holds a path: its error, the part of its rest from lo on, its codes. */
  ghost predicate HasRow(a: array2<real>, d: array<real>, ind: array2<int>, k: nat,
                         path: Path, error: real, rest: seq<real>, lo: nat)
    requires k < a.Length0 && k < d.Length && k < ind.Length0 && |rest| == a.Length1 && |path| <= ind.Length1
    reads a, d, ind
  {
    && d[k] == error
    && (forall q :: lo <= q < |rest| ==> a[k, q] == rest[q])
    && (forall q :: 0 <= q < |path| ==> ind[k, q] == path[q])
  }

  /** Everything the search is given, and its fixed sizes. */
  datatype Job = Job(par: Params, target: seq<real>, r: seq<real>, n: nat) {
    ghost predicate Valid() {
      && par.Valid() && |r| == |target| == par.subvects * par.s
      && 1 <= n <= par.Entries()
    }
    ghost predicate Fits(a: array2<real>, d: array<real>, ind: array2<int>) {
      a.Length0 == d.Length == ind.Length0 == n && a.Length1 == |target| && ind.Length1 == par.subvects
    }
  }

  /** The rows of the arrays hold the listed paths of length i. */
  ghost predicate Has(job: Job, a: array2<real>, d: array<real>, ind: array2<int>, paths: seq<Path>, i: nat)
    requires job.Valid() && job.Fits(a, d, ind) && |paths| <= job.n
    requires i <= job.par.subvects && ValidPaths(job.par, paths, i)
    reads a, d, ind
  {
    StageFits(job, i);
    forall k :: 0 <= k < |paths| ==>
      HasRow(a, d, ind, k, paths[k], Error(job.par, job.target, job.r, paths[k]),
             Rest(job.par, job.target, job.r, paths[k]), i * job.par.s)
  }

  lemma StageFits(job: Job, i: nat)
    requires job.Valid() && i <= job.par.subvects
    ensures 0 <= i * job.par.s <= |job.target|
    ensures i < job.par.subvects ==> (i + 1) * job.par.s == i * job.par.s + job.par.s <= |job.target|
    ensures i < job.par.subvects ==> job.par.s <= |job.target|
  {
    Multiples(i, job.par.subvects, job.par.s);
  }

  lemma Multiples(i: nat, b: nat, s: nat)
    requires i <= b
    ensures 0 <= i * s <= b * s
    ensures i < b ==> (i + 1) * s == i * s + s <= b * s && s <= b * s
  {
    assert (b - i) * s >= 0;
    if i < b {
      RowInside(i, b, s);
    }
  }

  /** The beam after i subvectors. */
  ghost function BeamAt(job: Job, i: nat): (paths: seq<Path>)
    requires job.Valid() && i <= job.par.subvects
    ensures ValidPaths(job.par, paths, i) && |paths| == if i == 0 then 1 else job.n
  {
    StageFits(job, i);
    Beam(job.par, job.target, job.r, i, job.n)
  }

  /** The paths tried after some paths. */
  ghost function TriedOf(job: Job, paths: seq<Path>, i: nat): (tried: seq<Path>)
    requires job.Valid() && i < job.par.subvects && ValidPaths(job.par, paths, i)
    ensures ValidPaths(job.par, tried, i + 1)
  {
    StageFits(job, i);
    Tried(job.par, job.target, job.r, paths, i, job.n)
  }

  /** Row `from` copied to row `to`. */
  method CopyRow(a: array2<real>, d: array<real>, ind: array2<int>, from: nat, to: nat, lo: nat)
    requires a.Length0 == d.Length == ind.Length0 && from < a.Length0 && to < a.Length0 && from != to && lo <= a.Length1
    modifies a, d, ind
    ensures d[to] == old(d[from])
    ensures forall q :: lo <= q < a.Length1 ==> a[to, q] == old(a[from, q])
    ensures forall q :: 0 <= q < ind.Length1 ==> ind[to, q] == old(ind[from, q])
    ensures forall k :: 0 <= k < d.Length && k != to ==> d[k] == old(d[k])
    ensures forall k, q :: 0 <= k < a.Length0 && k != to && 0 <= q < a.Length1 ==> a[k, q] == old(a[k, q])
    ensures forall k, q :: 0 <= k < ind.Length0 && k != to && 0 <= q < ind.Length1 ==> ind[k, q] == old(ind[k, q])
  {
    for q := lo to a.Length1
      invariant forall p :: lo <= p < q ==> a[to, p] == old(a[from, p])
      invariant forall k, p :: 0 <= k < a.Length0 && k != to && 0 <= p < a.Length1 ==> a[k, p] == old(a[k, p])
      modifies a
    {
      a[to, q] := a[from, q];
    }
    for q := 0 to ind.Length1
      invariant forall p :: 0 <= p < q ==> ind[to, p] == old(ind[from, p])
      invariant forall k, p :: 0 <= k < ind.Length0 && k != to && 0 <= p < ind.Length1 ==> ind[k, p] == old(ind[k, p])
      modifies ind
    {
      ind[to, q] := ind[from, q];
    }
    d[to] := d[from];
  }

  /** Rows from m on move down by one; the last is lost. */
  method MakeRoom(a: array2<real>, d: array<real>, ind: array2<int>, m: nat, lo: nat)
    requires a.Length0 == d.Length == ind.Length0 && m < a.Length0 && lo <= a.Length1
    modifies a, d, ind
    ensures forall k :: m < k < d.Length ==> d[k] == old(d[k - 1])
    ensures forall k, q :: m < k < a.Length0 && lo <= q < a.Length1 ==> a[k, q] == old(a[k - 1, q])
    ensures forall k, q :: m < k < ind.Length0 && 0 <= q < ind.Length1 ==> ind[k, q] == old(ind[k - 1, q])
    ensures forall k :: 0 <= k < m ==> d[k] == old(d[k])
    ensures forall k, q :: 0 <= k < m && 0 <= q < a.Length1 ==> a[k, q] == old(a[k, q])
    ensures forall k, q :: 0 <= k < m && 0 <= q < ind.Length1 ==> ind[k, q] == old(ind[k, q])
  {
    var t := d.Length - 1;
    while t > m
      invariant m <= t < d.Length
      invariant forall k :: t < k < d.Length ==> d[k] == old(d[k - 1])
      invariant forall k, q :: t < k < a.Length0 && lo <= q < a.Length1 ==> a[k, q] == old(a[k - 1, q])
      invariant forall k, q :: t < k < ind.Length0 && 0 <= q < ind.Length1 ==> ind[k, q] == old(ind[k - 1, q])
      invariant forall k :: 0 <= k <= t ==> d[k] == old(d[k])
      invariant forall k, q :: 0 <= k <= t && 0 <= q < a.Length1 ==> a[k, q] == old(a[k, q])
      invariant forall k, q :: 0 <= k <= t && 0 <= q < ind.Length1 ==> ind[k, q] == old(ind[k, q])
    {
      CopyRow(a, d, ind, t - 1, t, lo);
      t := t - 1;
    }
  }

  /** The unused end of the list is marked with -2. */
  ghost predicate Marked(d: seq<real>, used: nat) {
    forall k :: used <= k < |d| ==> d[k] == -2.0
  }

  // ----- one candidate -----

  /** compute_weighted_codebook, one row. */
  method FilterRow(par: Params, r: seq<real>, i: nat) returns (row: seq<real>, e: real)
    requires par.Valid() && i < par.Entries() && par.s <= |r| && RowFits(i, par.s, |par.cb|)
    ensures row == Fir(Shape(par, i), r[..par.s]) && e == Energy(row)
  {
    hide Mul, Energy;
    var res := new real[par.s];
    var shape := Shape(par, i);
    ghost var goal := Fir(shape, r[..par.s]);
    e := 0.0;
    assert Energy(goal[..0]) == 0.0 by { EnergyOfNothing(goal[..0]); }
    for j := 0 to par.s
      invariant forall k :: 0 <= k < j ==> res[k] == goal[k]
      invariant e == Energy(goal[..j])
      modifies res
    {
      var resj := ConvolveAt(shape, r, j);
      ConvCausal(shape, r, par.s, j);
      res[j] := resj;
      EnergyOfOneMore(goal, j);
      e := e + Mul(resj, resj);
    }
    assert goal[..par.s] == goal;
    row := res[..];
  }

  lemma EnergyOfNothing(x: seq<real>)
    requires x == []
    ensures Energy(x) == 0.0
  {
  }

  lemma EnergyOfOneMore(x: seq<real>, j: nat)
    requires j < |x|
    ensures Energy(x[..j + 1]) == Energy(x[..j]) + Mul(x[j], x[j])
  {
    assert x[..j + 1][..j] == x[..j];
  }

  /** The sum over k <= j of shape[k] * r[j - k], accumulated in order. */
  method ConvolveAt(shape: seq<real>, r: seq<real>, j: nat) returns (sum: real)
    requires j < |shape| && j < |r|
    ensures sum == ConvAt(shape, r, j)
  {
    hide Mul;
    sum := 0.0;
    for k := 0 to j + 1
      invariant sum == ConvSum(shape, r, j, k)
    {
      sum := sum + Mul(shape[k], r[j - k]);
    }
    ConvAtIsSum(shape, r, j, 0);
    assert shape[0..] == shape;
  }

  /** compute_weighted_codebook. */
  method ComputeWeightedCodebook(par: Params, r: seq<real>) returns (resp: seq<real>, energy: seq<real>)
    requires par.Valid() && par.s <= |r|
    ensures resp == Shaped(par, r, par.Entries()) && energy == Energies(par, r)
  {
    hide Energy, Fir, Shape;
    resp, energy := [], [];
    var n := par.Entries();
    for i := 0 to n
      invariant resp == Shaped(par, r, i) && |energy| == i
      invariant forall k :: 0 <= k < i ==> energy[k] == Energies(par, r)[k]
    {
      RowInside(i, n, par.s);
      var row, e := FilterRow(par, r, i);
      ShapedRow(par, r, n, i);
      resp := resp + row;
      energy := energy + [e];
    }
  }

  /** A row of the filtered codebook is what a code takes from its own subvector. */
  lemma ResponseOfCode(par: Params, r: seq<real>, code: nat, m: nat)
    requires par.Valid() && code < par.Codes() && par.s <= |r| && m < par.s
    ensures var rind := if code >= par.Entries() then code - par.Entries() else code;
            && rind * par.s + m < par.Entries() * par.s
            && ConvAt(CodeVector(par, code), r, m)
               == (if code >= par.Entries() then -1.0 else 1.0) * Shaped(par, r, par.Entries())[rind * par.s + m]
  {
    var rind := if code >= par.Entries() then code - par.Entries() else code;
    RowInside(rind, par.Entries(), par.s);
    ShapedRow(par, r, par.Entries(), rind);
    var resp := Shaped(par, r, par.Entries());
    assert Row(resp, rind, par.s)[m] == resp[rind * par.s + m];
    ConvCausal(Shape(par, rind), r, par.s, m);
    if code >= par.Entries() {
      ConvScaleCoefficients(-1.0, Shape(par, rind), r, m);
      MulNegatesLeft(1.0, ConvAt(Shape(par, rind), r, m));
      MulUnits(ConvAt(Shape(par, rind), r, m));
    }
  }

  /** What ranks j of the previous arrays must hold for its path to be extended. */
  ghost predicate HoldsRest(job: Job, ot: array2<real>, j: nat, i: nat, path: Path)
    requires job.Valid() && i < job.par.subvects
    reads ot
  {
    && j < ot.Length0 && ot.Length1 == |job.target| && |path| == i && ValidPath(job.par, path)
    && (forall q :: i * job.par.s <= q < |job.target| ==>
          0 <= q && ot[j, q] == Rest(job.par, job.target, job.r, path)[q])
  }

  lemma RestPath(job: Job, ot: array2<real>, j: nat, i: nat, path: Path)
    requires job.Valid() && i < job.par.subvects && HoldsRest(job, ot, j, i, path)
    ensures |path| == i && ValidPath(job.par, path)
  {
  }

  /** Part of a row of the previous targets, copied to the scratch target. */
  method CopyPart(t: array<real>, ot: array2<real>, j: nat, lo: nat, hi: nat)
    requires j < ot.Length0 && lo <= hi <= ot.Length1 == t.Length
    modifies t
    ensures forall q :: lo <= q < hi ==> t[q] == ot[j, q]
    ensures forall q :: 0 <= q < lo || hi <= q < t.Length ==> t[q] == old(t[q])
  {
    for m := lo to hi
      invariant forall q :: lo <= q < m ==> t[q] == ot[j, q]
      invariant forall q :: 0 <= q < lo || hi <= q < t.Length ==> t[q] == old(t[q])
    {
      t[m] := ot[j, m];
    }
  }

  /** A filtered row taken from, or for a negative sign added to, its subvector. */
  method TakeRow(t: array<real>, base: nat, s: nat, row: seq<real>, sign: int)
    requires base + s <= t.Length && |row| == s
    modifies t
    ensures forall q :: base <= q < base + s ==> t[q] == if sign > 0 then old(t[q]) - row[q - base] else old(t[q]) + row[q - base]
    ensures forall q :: 0 <= q < base || base + s <= q < t.Length ==> t[q] == old(t[q])
  {
    for m := base to base + s
      invariant forall q :: 0 <= q < base || base + s <= q < t.Length ==> t[q] == old(t[q])
      invariant forall q :: base <= q < m ==> t[q] == if sign > 0 then old(t[q]) - row[q - base] else old(t[q]) + row[q - base]
      invariant forall q :: m <= q < base + s ==> t[q] == old(t[q])
    {
      if sign > 0 {
        t[m] := t[m] - row[m - base];
      } else {
        t[m] := t[m] + row[m - base];
      }
    }
  }

  function RowOf(par: Params, code: nat): nat {
    if code >= par.Entries() then code - par.Entries() else code
  }

  /** In its own subvector a code takes its filtered row from the rest, or adds it. */
  lemma OwnSubvector(job: Job, i: nat, code: nat, path: Path, m: nat)
    requires job.Valid() && i == |path| < job.par.subvects && ValidPath(job.par, path) && code < job.par.Codes()
    requires m < job.par.s
    ensures ValidPath(job.par, path + [code]) && job.par.s <= |job.r| && i * job.par.s + m < |job.target|
    ensures RowFits(RowOf(job.par, code), job.par.s, job.par.Entries() * job.par.s)
    ensures var row := Row(Shaped(job.par, job.r, job.par.Entries()), RowOf(job.par, code), job.par.s);
            var q := i * job.par.s + m;
            Rest(job.par, job.target, job.r, path + [code])[q]
            == if code >= job.par.Entries() then Rest(job.par, job.target, job.r, path)[q] + row[m]
               else Rest(job.par, job.target, job.r, path)[q] - row[m]
  {
    hide Mul, Rest, Shaped, ConvAt, CodeVector;
    StageFits(job, i);
    RowInside(RowOf(job.par, code), job.par.Entries(), job.par.s);
    RestExtends(job.par, job.target, job.r, path, code, i * job.par.s + m);
    ResponseOfCode(job.par, job.r, code, m);
  }

  /** The first half of trying a code: it is taken from its own subvector of the target. */
  method TakeOwn(job: Job, t: array<real>, ot: array2<real>, j: nat, i: nat, code: nat, resp: seq<real>, ghost path: Path)
    returns (base: nat)
    requires job.Valid() && i < job.par.subvects && t.Length == |job.target| && HoldsRest(job, ot, j, i, path)
    requires code < job.par.Codes() && job.par.s <= |job.r| && resp == Shaped(job.par, job.r, job.par.Entries())
    modifies t
    ensures ValidPath(job.par, path + [code])
    ensures base == i * job.par.s && base + job.par.s <= |job.target|
    ensures forall q :: base <= q < base + job.par.s ==> t[q] == Rest(job.par, job.target, job.r, path + [code])[q]
  {
    hide Mul, Rest, Shaped, CodeVector, Shape, Fir, ValidPath;
    var s := job.par.s;
    StageFits(job, i);
    base := i * s;
    DecodedExtends(job.par, path, code);
    CopyPart(t, ot, j, base, base + s);
    var sign, rind := 1, code;
    if rind >= job.par.Entries() {
      sign := -1;
      rind := rind - job.par.Entries();
    }
    RowInside(rind, job.par.Entries(), s);
    var row := Row(resp, rind, s);
    TakeRow(t, base, s, row, sign);
    forall q | base <= q < base + s
      ensures t[q] == Rest(job.par, job.target, job.r, path + [code])[q]
    {
      OwnSubvector(job, i, code, path, q - base);
    }
  }

  /** The squares of a subvector added to an error. */
  method AddSquares(t: array<real>, base: nat, s: nat, odist: real) returns (err: real)
    requires base + s <= t.Length
    ensures err == odist + Energy(t[base..base + s])
  {
    hide Mul, Energy;
    ghost var window := t[base..base + s];
    err := odist;
    EnergyOfNothing(window[..0]);
    for m := 0 to s
      invariant err == odist + Energy(window[..m])
    {
      EnergyOfOneMore(window, m);
      err := err + Mul(t[base + m], t[base + m]);
    }
    assert window[..s] == window;
  }

  /** Then the error it leaves is added up. */
  method TryCode(job: Job, t: array<real>, ot: array2<real>, j: nat, i: nat, code: nat, resp: seq<real>, odist: real,
                 ghost path: Path)
    returns (err: real)
    requires job.Valid() && i < job.par.subvects && t.Length == |job.target| && HoldsRest(job, ot, j, i, path)
    requires code < job.par.Codes() && job.par.s <= |job.r| && resp == Shaped(job.par, job.r, job.par.Entries())
    requires i * job.par.s <= |job.target| && odist == Error(job.par, job.target, job.r, path)
    modifies t
    ensures ValidPath(job.par, path + [code]) && (i + 1) * job.par.s <= |job.target|
    ensures err == Error(job.par, job.target, job.r, path + [code])
  {
    hide Mul, Rest, Error, Shaped, ConvAt, CodeVector, Energy;
    StageFits(job, i);
    var base := TakeOwn(job, t, ot, j, i, code, resp, path);
    err := AddSquares(t, base, job.par.s, odist);
    ErrorExtends(job.par, job.target, job.r, path, code);
    assert t[base..base + job.par.s] == Rest(job.par, job.target, job.r, path + [code])[base..base + job.par.s];
  }

  /** A code vector, filtered, taken from everything behind its own subvector, tap by tap. */
  method TakeTail(t: array<real>, base: nat, v: seq<real>, r: seq<real>)
    requires base + |v| <= t.Length == |r|
    modifies t
    ensures forall q :: base + |v| <= q < t.Length ==> t[q] == old(t[q]) - ConvAt(v, r, q - base)
    ensures forall q :: 0 <= q < base + |v| ==> t[q] == old(t[q])
  {
    hide Mul, ConvAt;
    var s, nsf := |v|, t.Length;
    var next := base + s;
    NothingTaken(v, r);
    for m := 0 to s
      invariant forall q :: next <= q < nsf ==> t[q] == old(t[q]) - ConvSum(v, r, q - base, m)
      invariant forall q :: 0 <= q < next ==> t[q] == old(t[q])
    {
      var g := v[m];
      var q := s - m;
      for n := next to nsf
        invariant q == n - base - m
        invariant forall p :: next <= p < n ==> t[p] == old(t[p]) - ConvSum(v, r, p - base, m + 1)
        invariant forall p :: n <= p < nsf ==> t[p] == old(t[p]) - ConvSum(v, r, p - base, m)
        invariant forall p :: 0 <= p < next ==> t[p] == old(t[p])
      {
        OneTerm(v, r, n - base, m);
        t[n] := t[n] - Mul(g, r[q]);
        q := q + 1;
      }
    }
    forall q | next <= q < nsf
      ensures t[q] == old(t[q]) - ConvAt(v, r, q - base)
    {
      WholeSum(v, r, q - base);
    }
  }

  /** The second half, done only for a code worth keeping: the rest of the target. */
  method FinishTarget(job: Job, t: array<real>, ot: array2<real>, j: nat, i: nat, code: nat, ghost path: Path)
    requires job.Valid() && i < job.par.subvects && t.Length == |job.target| && HoldsRest(job, ot, j, i, path)
    requires code < job.par.Codes()
    modifies t
    ensures ValidPath(job.par, path + [code])
    ensures forall q :: (i + 1) * job.par.s <= q < |job.target| ==> t[q] == Rest(job.par, job.target, job.r, path + [code])[q]
  {
    hide Mul, Rest, ConvAt, CodeVector;
    StageFits(job, i);
    var base := i * job.par.s;
    CopyPart(t, ot, j, base + job.par.s, |job.target|);
    TakeTail(t, base, CodeVector(job.par, code), job.r);
    DecodedExtends(job.par, path, code);
    forall q | base + job.par.s <= q < |job.target|
      ensures t[q] == Rest(job.par, job.target, job.r, path + [code])[q]
    {
      RestExtends(job.par, job.target, job.r, path, code, q);
    }
  }

  lemma NothingTaken(v: seq<real>, r: seq<real>)
    ensures forall n: nat {:trigger ConvSum(v, r, n, 0)} :: ConvSum(v, r, n, 0) == 0.0
  {
  }

  lemma OneTerm(v: seq<real>, r: seq<real>, n: nat, m: nat)
    requires m < |v| && m <= n < |r|
    ensures ConvSum(v, r, n, m + 1) == ConvSum(v, r, n, m) + Mul(v[m], r[n - m])
  {
    hide Mul;
  }

  lemma WholeSum(v: seq<real>, r: seq<real>, n: nat)
    requires |v| <= n < |r|
    ensures ConvSum(v, r, n, |v|) == ConvAt(v, r, n)
  {
    ConvAtIsSum(v, r, n, 0);
    assert v[0..] == v;
    ConvSumBeyond(v, r, n, n + 1);
    NothingTaken(v, r);
  }

  // ----- one stage -----

  /** The n-best list of the paths tried so far. */
  ghost function KeptList(job: Job, tried: seq<Path>, i: nat): (list: seq<Entry>)
    requires job.Valid() && i <= job.par.subvects && ValidPaths(job.par, tried, i)
    ensures |list| == if |tried| <= job.n then |tried| else job.n
    ensures forall e :: e in list ==> 0 <= e.tag < |tried|
  {
    StageFits(job, i);
    KeptTags(job.par, job.target, job.r, tried, i, job.n);
    Kept(Scored(job.par, job.target, job.r, tried, i), job.n)
  }

  /** And the paths it names. */
  ghost function KeptPaths(job: Job, tried: seq<Path>, i: nat): (paths: seq<Path>)
    requires job.Valid() && i <= job.par.subvects && ValidPaths(job.par, tried, i)
    ensures |paths| == |KeptList(job, tried, i)| && ValidPaths(job.par, paths, i)
  {
    Named(tried, KeptList(job, tried, i))
  }

  /** The new arrays hold the kept ones of the paths tried so far, and are marked beyond. */
  ghost predicate Keeps(job: Job, nt: array2<real>, nd: array<real>, nind: array2<int>, tried: seq<Path>, i: nat)
    requires job.Valid() && job.Fits(nt, nd, nind) && i <= job.par.subvects && ValidPaths(job.par, tried, i)
    reads nt, nd, nind
  {
    && Has(job, nt, nd, nind, KeptPaths(job, tried, i), i)
    && (forall k :: |KeptList(job, tried, i)| <= k < job.n ==> nd[k] == -2.0)
  }

  /** The keys of the list are the errors of its paths. */
  lemma KeptKeys(job: Job, tried: seq<Path>, i: nat)
    requires job.Valid() && i <= job.par.subvects && ValidPaths(job.par, tried, i)
    ensures i * job.par.s <= |job.target| && Ascending(KeptList(job, tried, i))
    ensures forall k :: 0 <= k < |KeptList(job, tried, i)| ==>
              var key := KeptList(job, tried, i)[k].key;
              key >= 0.0 && key == Error(job.par, job.target, job.r, KeptPaths(job, tried, i)[k])
  {
    hide Error;
    StageFits(job, i);
    var scored, list := Scored(job.par, job.target, job.r, tried, i), KeptList(job, tried, i);
    KeptIsNBest(scored, job.n);
    forall k | 0 <= k < |list|
      ensures list[k].key >= 0.0 && list[k].key == Error(job.par, job.target, job.r, KeptPaths(job, tried, i)[k])
    {
      assert list[k] in list && list[k] in scored;
      ErrorNonNegative(job.par, job.target, job.r, tried[list[k].tag]);
    }
  }

  lemma ScoredExtends(job: Job, tried: seq<Path>, path: Path, i: nat)
    requires job.Valid() && i <= job.par.subvects && ValidPaths(job.par, tried, i)
    requires |path| == i && ValidPath(job.par, path) && i * job.par.s <= |job.target|
    ensures ValidPaths(job.par, tried + [path], i)
    ensures Scored(job.par, job.target, job.r, tried + [path], i)
            == Scored(job.par, job.target, job.r, tried, i) + [Entry(Error(job.par, job.target, job.r, path), |tried|)]
  {
    hide Error;
  }

  /** The list after one more path is the list with that path put in. */
  lemma ListExtends(job: Job, tried: seq<Path>, path: Path, i: nat)
    requires job.Valid() && i <= job.par.subvects && ValidPaths(job.par, tried, i)
    requires |path| == i && ValidPath(job.par, path) && i * job.par.s <= |job.target|
    ensures ValidPaths(job.par, tried + [path], i)
    ensures KeptList(job, tried + [path], i)
            == Insert(KeptList(job, tried, i), Entry(Error(job.par, job.target, job.r, path), |tried|), job.n)
  {
    hide Error, Insert;
    ScoredExtends(job, tried, path, i);
    var scored := Scored(job.par, job.target, job.r, tried, i);
    var e := Entry(Error(job.par, job.target, job.r, path), |tried|);
    assert (scored + [e])[..|scored|] == scored;
  }

  /** What an entry names does not depend on paths tried later. */
  lemma NameOf(job: Job, tried: seq<Path>, path: Path, i: nat, k: nat)
    requires job.Valid() && i <= job.par.subvects && ValidPaths(job.par, tried, i)
    requires |path| == i && ValidPath(job.par, path) && i * job.par.s <= |job.target|
    ensures ValidPaths(job.par, tried + [path], i)
    ensures var more := KeptList(job, tried + [path], i);
            k < |more| ==>
              && more[k] in more && 0 <= more[k].tag <= |tried|
              && KeptPaths(job, tried + [path], i)[k] == if more[k].tag < |tried| then tried[more[k].tag] else path
  {
    hide Error, Kept, Scored, KeptList;
    ScoredExtends(job, tried, path, i);
    var more := KeptList(job, tried + [path], i);
    if k < |more| {
      assert more[k] in more;
    }
  }

  /** The kept paths after one more, rank by rank. */
  lemma PathsExtend(job: Job, tried: seq<Path>, path: Path, i: nat, p: nat, k: nat)
    requires job.Valid() && i <= job.par.subvects && ValidPaths(job.par, tried, i)
    requires |path| == i && ValidPath(job.par, path) && i * job.par.s <= |job.target|
    requires p == Place(KeptList(job, tried, i), Entry(Error(job.par, job.target, job.r, path), |tried|))
    ensures ValidPaths(job.par, tried + [path], i)
    ensures var before, after := |KeptPaths(job, tried, i)|, |KeptPaths(job, tried + [path], i)|;
            p <= before && after == if before + 1 <= job.n then before + 1 else job.n
    ensures k < |KeptPaths(job, tried + [path], i)| ==>
              KeptPaths(job, tried + [path], i)[k]
              == if k < p then KeptPaths(job, tried, i)[k] else if k == p then path else KeptPaths(job, tried, i)[k - 1]
  {
    var list := KeptList(job, tried, i);
    var e := Entry(Error(job.par, job.target, job.r, path), |tried|);
    hide Error, Insert, Place, Kept, Scored, KeptList, ValidPath;
    ListExtends(job, tried, path, i);
    var more := KeptList(job, tried + [path], i);
    var before := KeptPaths(job, tried, i);
    if k < |more| {
      InsertAt(list, e, job.n, k);
      NameOf(job, tried, path, i, k);
      if k < p {
        assert list[k] in list && before[k] == tried[list[k].tag];
      } else if k > p {
        assert list[k - 1] in list && before[k - 1] == tried[list[k - 1].tag];
      }
    }
  }

  /** Trying one code after one path: the error, and if it is good enough the insertion. */
  method TryOne(job: Job, t: array<real>, ot: array2<real>, oind: array2<int>, nt: array2<real>, nd: array<real>,
                nind: array2<int>, j: nat, i: nat, code: nat, resp: seq<real>, odist: real,
                ghost path: Path, ghost tried: seq<Path>)
    requires job.Valid() && i < job.par.subvects && t.Length == |job.target| && HoldsRest(job, ot, j, i, path)
    requires code < job.par.Codes() && job.par.s <= |job.r| && resp == Shaped(job.par, job.r, job.par.Entries())
    requires i * job.par.s <= |job.target| && odist == Error(job.par, job.target, job.r, path)
    requires j < oind.Length0 && oind.Length1 == job.par.subvects && forall q :: 0 <= q < i ==> oind[j, q] == path[q]
    requires job.Fits(nt, nd, nind) && ValidPaths(job.par, tried, i + 1) && Keeps(job, nt, nd, nind, tried, i + 1)
    requires t != nd && nt != ot && nind != oind
    modifies t, nt, nd, nind
    ensures ValidPaths(job.par, tried + [path + [code]], i + 1)
    ensures Keeps(job, nt, nd, nind, tried + [path + [code]], i + 1)
  {
    hide Mul, Rest, Error, Shaped, Kept, Scored, Insert, KeptPaths;
    StageFits(job, i);
    StageFits(job, i + 1);
    var err := TryCode(job, t, ot, j, i, code, resp, odist, path);
    ghost var longer := path + [code];
    ghost var e := Entry(err, |tried|);
    ghost var list := KeptList(job, tried, i + 1);
    assert Keeps(job, nt, nd, nind, tried, i + 1);
    KeptKeys(job, tried, i + 1);
    ListExtends(job, tried, longer, i + 1);
    if err < nd[job.n - 1] || nd[job.n - 1] < -1.0 {
      FinishTarget(job, t, ot, j, i, code, path);
      var m := FindPlace(job, nt, nd, nind, tried, i + 1, err);
      InsertPath(job, t, oind, nt, nd, nind, j, i, m, code, err, path, tried);
    } else {
      NotInserted(list, e, job.n);
      assert Keeps(job, nt, nd, nind, tried + [longer], i + 1) by {
        SameKept(job, tried, longer, i + 1);
      }
    }
  }

  /** A path that was not good enough changes nothing. */
  lemma SameKept(job: Job, tried: seq<Path>, path: Path, i: nat)
    requires job.Valid() && i <= job.par.subvects && ValidPaths(job.par, tried, i)
    requires |path| == i && ValidPath(job.par, path) && i * job.par.s <= |job.target|
    requires Place(KeptList(job, tried, i), Entry(Error(job.par, job.target, job.r, path), |tried|)) == job.n
    ensures ValidPaths(job.par, tried + [path], i)
    ensures KeptPaths(job, tried + [path], i) == KeptPaths(job, tried, i)
  {
    hide Error, Place, KeptPaths, KeptList, ValidPath, Scored, Kept;
    PathsExtend(job, tried, path, i, job.n, 0);
    var before, after := KeptPaths(job, tried, i), KeptPaths(job, tried + [path], i);
    forall k | 0 <= k < |after|
      ensures after[k] == before[k]
    {
      PathsExtend(job, tried, path, i, job.n, k);
    }
  }

  /** The loop that looks for the place. */
  method FindPlace(job: Job, nt: array2<real>, nd: array<real>, nind: array2<int>, ghost tried: seq<Path>, ghost i: nat, err: real)
    returns (m: nat)
    requires job.Valid() && i <= job.par.subvects && job.Fits(nt, nd, nind) && ValidPaths(job.par, tried, i)
    requires Keeps(job, nt, nd, nind, tried, i)
    requires err < nd[job.n - 1] || nd[job.n - 1] < -1.0
    ensures m < job.n && m == Place(KeptList(job, tried, i), Entry(err, |tried|))
  {
    hide Rest, Error, Kept, Scored, KeptPaths;
    StageFits(job, i);
    KeptKeys(job, tried, i);
    ghost var list := KeptList(job, tried, i);
    assert forall k :: 0 <= k < |list| ==> nd[k] == list[k].key by {
      forall k | 0 <= k < |list|
        ensures nd[k] == list[k].key
      {
        assert HasRow(nt, nd, nind, k, KeptPaths(job, tried, i)[k], Error(job.par, job.target, job.r, KeptPaths(job, tried, i)[k]),
                      Rest(job.par, job.target, job.r, KeptPaths(job, tried, i)[k]), i * job.par.s);
      }
    }
    m := 0;
    while !(err < nd[m] || nd[m] < -1.0)
      invariant m < job.n && m <= Place(list, Entry(err, |tried|))
      decreases job.n - m
    {
      m := m + 1;
    }
  }

  /** The shift and the copy that put a path in. */
  method InsertPath(job: Job, t: array<real>, oind: array2<int>, nt: array2<real>, nd: array<real>, nind: array2<int>,
                    j: nat, i: nat, m: nat, code: nat, err: real, ghost path: Path, ghost tried: seq<Path>)
    requires job.Valid() && i < job.par.subvects && t.Length == |job.target| && |path| == i && ValidPath(job.par, path)
    requires code < job.par.Codes() && (i + 1) * job.par.s <= |job.target|
    requires ValidPath(job.par, path + [code]) && err == Error(job.par, job.target, job.r, path + [code])
    requires forall q :: (i + 1) * job.par.s <= q < |job.target| ==> t[q] == Rest(job.par, job.target, job.r, path + [code])[q]
    requires j < oind.Length0 && oind.Length1 == job.par.subvects && forall q :: 0 <= q < i ==> oind[j, q] == path[q]
    requires job.Fits(nt, nd, nind) && ValidPaths(job.par, tried, i + 1) && Keeps(job, nt, nd, nind, tried, i + 1)
    requires m < job.n && m == Place(KeptList(job, tried, i + 1), Entry(err, |tried|))
    requires t != nd && nind != oind
    modifies nt, nd, nind
    ensures ValidPaths(job.par, tried + [path + [code]], i + 1)
    ensures Keeps(job, nt, nd, nind, tried + [path + [code]], i + 1)
  {
    hide Rest, Error, Kept, Scored, KeptPaths, KeptList, Place;
    ghost var longer := path + [code];
    StageFits(job, i);
    StageFits(job, i + 1);
    PathsExtend(job, tried, longer, i + 1, m, 0);
    var lo := (i + 1) * job.par.s;
    MakeRoom(nt, nd, nind, m, lo);
    WriteRow(t, oind, nt, nd, nind, j, i, m, lo, code, err);
    ghost var before, after := KeptPaths(job, tried, i + 1), KeptPaths(job, tried + [longer], i + 1);
    forall k | 0 <= k < |after|
      ensures HasRow(nt, nd, nind, k, after[k], Error(job.par, job.target, job.r, after[k]),
                     Rest(job.par, job.target, job.r, after[k]), lo)
    {
      PathsExtend(job, tried, longer, i + 1, m, k);
      if k < m {
        assert old(HasRow(nt, nd, nind, k, before[k], Error(job.par, job.target, job.r, before[k]),
                          Rest(job.par, job.target, job.r, before[k]), lo));
      } else if k > m {
        assert old(HasRow(nt, nd, nind, k - 1, before[k - 1], Error(job.par, job.target, job.r, before[k - 1]),
                          Rest(job.par, job.target, job.r, before[k - 1]), lo));
      } else {
        assert after[k] == longer;
      }
    }
  }

  /** The new row: the scratch target, the old codes with the new one, the error. */
  method WriteRow(t: array<real>, oind: array2<int>, nt: array2<real>, nd: array<real>, nind: array2<int>,
                  j: nat, i: nat, m: nat, lo: nat, code: nat, err: real)
    requires nt.Length0 == nd.Length == nind.Length0 && m < nd.Length && nt.Length1 == t.Length && lo <= t.Length
    requires j < oind.Length0 && oind.Length1 == nind.Length1 && i < nind.Length1 && t != nd && nind != oind
    modifies nt, nd, nind
    ensures nd[m] == err
    ensures forall q :: lo <= q < t.Length ==> nt[m, q] == t[q]
    ensures forall q :: 0 <= q < i ==> nind[m, q] == oind[j, q]
    ensures nind[m, i] == code
    ensures forall k :: 0 <= k < nd.Length && k != m ==> nd[k] == old(nd[k])
    ensures forall k, q :: 0 <= k < nt.Length0 && k != m && 0 <= q < nt.Length1 ==> nt[k, q] == old(nt[k, q])
    ensures forall k, q :: 0 <= k < nind.Length0 && k != m && 0 <= q < nind.Length1 ==> nind[k, q] == old(nind[k, q])
  {
    for q := lo to t.Length
      invariant forall p :: lo <= p < q ==> nt[m, p] == t[p]
      invariant forall k, p :: 0 <= k < nt.Length0 && k != m && 0 <= p < nt.Length1 ==> nt[k, p] == old(nt[k, p])
      modifies nt
    {
      nt[m, q] := t[q];
    }
    for q := 0 to nind.Length1
      invariant forall p :: 0 <= p < q ==> nind[m, p] == oind[j, p]
      invariant forall k, p :: 0 <= k < nind.Length0 && k != m && 0 <= p < nind.Length1 ==> nind[k, p] == old(nind[k, p])
      modifies nind
    {
      nind[m, q] := oind[j, q];
    }
    nind[m, i] := code;
    nd[m] := err;
  }

  lemma NothingTried(job: Job, i: nat)
    requires job.Valid() && i <= job.par.subvects
    ensures KeptPaths(job, [], i) == [] && KeptList(job, [], i) == []
  {
  }

  method EraseList(job: Job, nt: array2<real>, nd: array<real>, nind: array2<int>, ghost i: nat)
    requires job.Valid() && job.Fits(nt, nd, nind) && i <= job.par.subvects
    modifies nd
    ensures Keeps(job, nt, nd, nind, [], i)
  {
    for j := 0 to job.n
      invariant forall k :: 0 <= k < j ==> nd[k] == -2.0
    {
      nd[j] := -2.0;
    }
    NothingTried(job, i);
  }

  /** The subvector of a row that the search looks at. */
  method RowWindow(job: Job, ot: array2<real>, j: nat, i: nat, ghost path: Path) returns (x: seq<real>)
    requires job.Valid() && i < job.par.subvects && HoldsRest(job, ot, j, i, path)
    ensures (i + 1) * job.par.s <= |job.target| && x == Window(job.par, job.target, job.r, path)
  {
    hide Rest;
    StageFits(job, i);
    var base, s := i * job.par.s, job.par.s;
    x := [];
    for q := base to base + s
      invariant |x| == q - base && forall p :: 0 <= p < |x| ==> x[p] == ot[j, base + p]
    {
      x := x + [ot[j, q]];
    }
  }

  /** The codes tried after one path. */
  method ChooseCodes(job: Job, ot: array2<real>, j: nat, i: nat, resp: seq<real>, energy: seq<real>, ghost path: Path)
    returns (codes: seq<nat>)
    requires job.Valid() && i < job.par.subvects && HoldsRest(job, ot, j, i, path)
    requires job.par.s <= |job.r| && resp == Shaped(job.par, job.r, job.par.Entries()) && energy == Energies(job.par, job.r)
    ensures (i + 1) * job.par.s <= |job.target|
    ensures codes == NextCodes(job.par, job.target, job.r, path, job.n)
  {
    hide Rest, Shaped, Energies, Nearest, Window;
    var x := RowWindow(job, ot, j, i, path);
    codes := Search(x, resp, job.par.s, job.par.Entries(), energy, job.n, job.par.haveSign);
  }

  /** All the codes tried after one path. */
  method TryRank(job: Job, t: array<real>, ot: array2<real>, oind: array2<int>, nt: array2<real>, nd: array<real>,
                 nind: array2<int>, j: nat, i: nat, resp: seq<real>, energy: seq<real>, odist: real,
                 ghost path: Path, ghost tried: seq<Path>)
    requires job.Valid() && i < job.par.subvects && t.Length == |job.target| && HoldsRest(job, ot, j, i, path)
    requires job.par.s <= |job.r| && resp == Shaped(job.par, job.r, job.par.Entries()) && energy == Energies(job.par, job.r)
    requires i * job.par.s <= |job.target| && odist == Error(job.par, job.target, job.r, path)
    requires j < oind.Length0 && oind.Length1 == job.par.subvects && forall q :: 0 <= q < i ==> oind[j, q] == path[q]
    requires job.Fits(nt, nd, nind) && ValidPaths(job.par, tried, i + 1) && Keeps(job, nt, nd, nind, tried, i + 1)
    requires t != nd && nt != ot && nind != oind
    modifies t, nt, nd, nind
    ensures (i + 1) * job.par.s <= |job.target|
    ensures var fan := Fan(path, NextCodes(job.par, job.target, job.r, path, job.n));
            ValidPaths(job.par, tried + fan, i + 1) && Keeps(job, nt, nd, nind, tried + fan, i + 1)
  {
    hide Mul, Rest, Error, Shaped, Energies, NextCodes, Keeps, HoldsRest, ValidPath, Fan;
    RestPath(job, ot, j, i, path);
    StageFits(job, i);
    var codes := ChooseCodes(job, ot, j, i, resp, energy, path);
    ghost var now := tried;
    FanSteps(tried, path, codes, 0);
    for k := 0 to job.n
      invariant now == tried + Fan(path, codes)[..k]
      invariant ValidPaths(job.par, now, i + 1) && Keeps(job, nt, nd, nind, now, i + 1)
      invariant HoldsRest(job, ot, j, i, path)
    {
      FanSteps(tried, path, codes, k);
      TryOne(job, t, ot, oind, nt, nd, nind, j, i, codes[k], resp, odist, path, now);
      now := now + [path + [codes[k]]];
    }
    assert Fan(path, codes)[..job.n] == Fan(path, codes);
  }

  lemma FanSteps(tried: seq<Path>, path: Path, codes: seq<nat>, k: nat)
    requires k <= |codes|
    ensures tried + Fan(path, codes)[..0] == tried
    ensures k < |codes| ==> tried + Fan(path, codes)[..k + 1] == (tried + Fan(path, codes)[..k]) + [path + [codes[k]]]
  {
  }

  /** All the ranks of one stage. */
  method Stage(job: Job, t: array<real>, ot: array2<real>, od: array<real>, oind: array2<int>,
               nt: array2<real>, nd: array<real>, nind: array2<int>, i: nat, resp: seq<real>, energy: seq<real>)
    requires job.Valid() && i < job.par.subvects && t.Length == |job.target|
    requires job.par.s <= |job.r| && resp == Shaped(job.par, job.r, job.par.Entries()) && energy == Energies(job.par, job.r)
    requires job.Fits(ot, od, oind) && job.Fits(nt, nd, nind)
    requires t != nd && t != od && nd != od && nt != ot && nind != oind
    requires Has(job, ot, od, oind, BeamAt(job, i), i)
    modifies t, nt, nd, nind
    ensures Has(job, nt, nd, nind, BeamAt(job, i + 1), i + 1)
  {
    hide Mul, Rest, Error, Shaped, Energies, Nearest, HasRow, HoldsRest, ValidPath, Has, Kept, Scored;
    hide Beam, BeamAt, NextBeam, Tried, TriedOf, KeptPaths, KeptList, NextCodes, Fan, Keeps;
    StageFits(job, i);
    StageFits(job, i + 1);
    ghost var paths := BeamAt(job, i);
    EraseList(job, nt, nd, nind, i + 1);
    ghost var tried := [];
    TriedNothing(job, i);
    assert paths[..0] == [];
    var ranks := if i == 0 then 1 else job.n;
    for j := 0 to ranks
      invariant tried == TriedOf(job, paths[..j], i)
      invariant ValidPaths(job.par, tried, i + 1) && Keeps(job, nt, nd, nind, tried, i + 1)
      invariant Has(job, ot, od, oind, paths, i)
    {
      RankHolds(job, ot, od, oind, paths, i, j);
      TriedStep(job, paths, i, j);
      TryRank(job, t, ot, oind, nt, nd, nind, j, i, resp, energy, od[j], paths[j], tried);
      tried := tried + Fan(paths[j], NextCodes(job.par, job.target, job.r, paths[j], job.n));
    }
    assert paths[..ranks] == paths;
    BeamStep(job, i);
    KeptHas(job, nt, nd, nind, tried, i + 1);
  }

  lemma KeptHas(job: Job, nt: array2<real>, nd: array<real>, nind: array2<int>, tried: seq<Path>, i: nat)
    requires job.Valid() && i <= job.par.subvects && job.Fits(nt, nd, nind)
    requires ValidPaths(job.par, tried, i) && Keeps(job, nt, nd, nind, tried, i)
    ensures |KeptPaths(job, tried, i)| <= job.n && ValidPaths(job.par, KeptPaths(job, tried, i), i)
    ensures Has(job, nt, nd, nind, KeptPaths(job, tried, i), i)
  {
  }

  lemma TriedNothing(job: Job, i: nat)
    requires job.Valid() && i < job.par.subvects
    ensures TriedOf(job, [], i) == []
  {
    StageFits(job, i);
  }

  lemma TriedStep(job: Job, paths: seq<Path>, i: nat, j: nat)
    requires job.Valid() && i < job.par.subvects && ValidPaths(job.par, paths, i) && j < |paths|
    ensures (i + 1) * job.par.s <= |job.target|
    ensures TriedOf(job, paths[..j + 1], i)
            == TriedOf(job, paths[..j], i)
               + Fan(paths[j], NextCodes(job.par, job.target, job.r, paths[j], job.n))
  {
    hide NextCodes;
    StageFits(job, i);
    assert paths[..j + 1][..j] == paths[..j];
  }

  lemma BeamStep(job: Job, i: nat)
    requires job.Valid() && i < job.par.subvects
    ensures BeamAt(job, i + 1) == KeptPaths(job, TriedOf(job, BeamAt(job, i), i), i + 1)
  {
    hide Tried, Kept, Scored;
    StageFits(job, i);
  }

  lemma RankHolds(job: Job, ot: array2<real>, od: array<real>, oind: array2<int>, paths: seq<Path>, i: nat, j: nat)
    requires job.Valid() && job.Fits(ot, od, oind) && |paths| <= job.n && i < job.par.subvects
    requires ValidPaths(job.par, paths, i) && Has(job, ot, od, oind, paths, i) && j < |paths|
    ensures i * job.par.s <= |job.target| && HoldsRest(job, ot, j, i, paths[j])
    ensures od[j] == Error(job.par, job.target, job.r, paths[j])
    ensures forall q :: 0 <= q < i ==> oind[j, q] == paths[j][q]
  {
    hide Rest, Error;
    StageFits(job, i);
    assert HasRow(ot, od, oind, j, paths[j], Error(job.par, job.target, job.r, paths[j]),
                  Rest(job.par, job.target, job.r, paths[j]), i * job.par.s);
  }

  // ----- the whole search -----

  method CopyLists(job: Job, nt: array2<real>, nd: array<real>, nind: array2<int>, od: array<real>, oind: array2<int>,
                   ghost paths: seq<Path>, ghost i: nat)
    requires job.Valid() && i <= job.par.subvects && job.Fits(nt, nd, nind) && job.Fits(nt, od, oind)
    requires |paths| <= job.n && ValidPaths(job.par, paths, i) && Has(job, nt, nd, nind, paths, i)
    requires nd != od && nind != oind
    modifies od, oind
    ensures Has(job, nt, od, oind, paths, i)
  {
    hide Rest, Error;
    StageFits(job, i);
    for j := 0 to job.n
      invariant forall k, m :: 0 <= k < j && 0 <= m < job.par.subvects ==> oind[k, m] == nind[k, m]
      invariant forall k :: 0 <= k < j ==> od[k] == nd[k]
      modifies od, oind
    {
      for m := 0 to job.par.subvects
        invariant forall q :: 0 <= q < m ==> oind[j, q] == nind[j, q]
        invariant forall k, q :: 0 <= k < j && 0 <= q < job.par.subvects ==> oind[k, q] == nind[k, q]
        modifies oind
      {
        oind[j, m] := nind[j, m];
      }
      od[j] := nd[j];
    }
    forall k | 0 <= k < |paths|
      ensures HasRow(nt, od, oind, k, paths[k], Error(job.par, job.target, job.r, paths[k]),
                     Rest(job.par, job.target, job.r, paths[k]), i * job.par.s)
    {
      assert HasRow(nt, nd, nind, k, paths[k], Error(job.par, job.target, job.r, paths[k]),
                    Rest(job.par, job.target, job.r, paths[k]), i * job.par.s);
    }
  }

  /** Every previous rank starts as the whole target with no error. */
  method StartRows(job: Job, ot: array2<real>, od: array<real>, oind: array2<int>)
    requires job.Valid() && job.Fits(ot, od, oind)
    modifies ot, od
    ensures Has(job, ot, od, oind, BeamAt(job, 0), 0)
  {
    for j := 0 to job.n
      invariant forall k, q :: 0 <= k < j && 0 <= q < |job.target| ==> ot[k, q] == job.target[q]
      invariant forall k :: 0 <= k < j ==> od[k] == 0.0
    {
      for q := 0 to |job.target|
        invariant forall p :: 0 <= p < q ==> ot[j, p] == job.target[p]
        invariant forall k, p :: 0 <= k < j && 0 <= p < |job.target| ==> ot[k, p] == job.target[p]
        modifies ot
      {
        ot[j, q] := job.target[q];
      }
      od[j] := 0.0;
    }
    EmptyPath(job);
  }

  lemma EmptyPath(job: Job)
    requires job.Valid()
    ensures 0 * job.par.s <= |job.target|
    ensures Rest(job.par, job.target, job.r, []) == job.target
    ensures Error(job.par, job.target, job.r, []) == 0.0
  {
    assert Decoded(job.par, []) == [];
  }

  /** The general search: the codes of the best path after the last subvector. */
  method SearchBeam(job: Job) returns (ind: seq<nat>)
    requires job.Valid() && 1 <= job.par.subvects
    ensures ind == BeamAt(job, job.par.subvects)[0]
  {
    hide Mul, Rest, Error, Shaped, Energies, Has, Beam, BeamAt, ValidPath;
    var nsf, n, m := |job.target|, job.n, job.par.subvects;
    StageFits(job, 0);
    var resp, energy := ComputeWeightedCodebook(job.par, job.r);
    var t := new real[nsf];
    var ot, nt := new real[n, nsf], new real[n, nsf];
    var od, nd := new real[n], new real[n];
    var oind, nind := new int[n, m]((_, _) => -1), new int[n, m]((_, _) => -1);
    StartRows(job, ot, od, oind);
    ot := AllStages(job, t, ot, od, oind, nt, nd, nind, resp, energy);
    ind := BestCodes(job, ot, od, oind, BeamAt(job, m));
  }

  /** The loop over the subvectors; old and new targets change places. Gives the targets of the last. */
  method AllStages(job: Job, t: array<real>, ot0: array2<real>, od: array<real>, oind: array2<int>,
                   nt0: array2<real>, nd: array<real>, nind: array2<int>, resp: seq<real>, energy: seq<real>)
    returns (ot: array2<real>)
    requires job.Valid() && t.Length == |job.target| && job.par.s <= |job.r|
    requires resp == Shaped(job.par, job.r, job.par.Entries()) && energy == Energies(job.par, job.r)
    requires job.Fits(ot0, od, oind) && job.Fits(nt0, nd, nind)
    requires t != nd && t != od && nd != od && nt0 != ot0 && nind != oind
    requires Has(job, ot0, od, oind, BeamAt(job, 0), 0)
    modifies t, ot0, nt0, od, nd, oind, nind
    ensures job.Fits(ot, od, oind)
    ensures Has(job, ot, od, oind, BeamAt(job, job.par.subvects), job.par.subvects)
  {
    hide Mul, Rest, Error, Shaped, Energies, Has, Beam, BeamAt, ValidPath;
    var nt := nt0;
    ot := ot0;
    for i := 0 to job.par.subvects
      invariant job.Fits(ot, od, oind) && job.Fits(nt, nd, nind)
      invariant (ot == ot0 && nt == nt0) || (ot == nt0 && nt == ot0)
      invariant Has(job, ot, od, oind, BeamAt(job, i), i)
    {
      Stage(job, t, ot, od, oind, nt, nd, nind, i, resp, energy);
      ot, nt := nt, ot;
      CopyLists(job, ot, nd, nind, od, oind, BeamAt(job, i + 1), i + 1);
    }
  }

  /** The codes of the first rank. */
  method BestCodes(job: Job, ot: array2<real>, od: array<real>, oind: array2<int>, ghost paths: seq<Path>)
    returns (ind: seq<nat>)
    requires job.Valid() && job.Fits(ot, od, oind) && 1 <= |paths| <= job.n
    requires ValidPaths(job.par, paths, job.par.subvects) && Has(job, ot, od, oind, paths, job.par.subvects)
    ensures ind == paths[0]
  {
    hide Rest, Error;
    StageFits(job, job.par.subvects);
    assert HasRow(ot, od, oind, 0, paths[0], Error(job.par, job.target, job.r, paths[0]),
                  Rest(job.par, job.target, job.r, paths[0]), job.par.subvects * job.par.s);
    ind := [];
    for i := 0 to job.par.subvects
      invariant ind == paths[0][..i]
    {
      ind := ind + [oind[0, i]];
    }
  }
}
