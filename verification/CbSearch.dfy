/** The split codebook search of libspeex, cb_search.c, float build, in exact arithmetic. */
module CbSearch {
  import opened Signals
  import opened NBest
  import opened Vq
  import opened Powers
  import Filters

  /** split_cb_params; the codebook has 2^shapeBits rows. */
  datatype Params = Params(s: nat, subvects: nat, cb: seq<int>, shapeBits: nat, haveSign: bool) {
    function Entries(): nat {
      Pow2(shapeBits)
    }
    ghost predicate Valid() {
      1 <= s && |cb| == Entries() * s
    }
    /** The number of codes: each row, and with a sign each row negated. */
    function Codes(): nat {
      if haveSign then 2 * Entries() else Entries()
    }
  }

  /** A path: the codes chosen for the first subvectors. */
  type Path = seq<nat>

  ghost predicate ValidPath(par: Params, path: Path) {
    forall k :: 0 <= k < |path| ==> path[k] < par.Codes()
  }

  /** Row i of the codebook, scaled. */
  function Shape(par: Params, i: nat): (v: seq<real>)
    requires RowFits(i, par.s, |par.cb|)
    ensures |v| == par.s
  {
    RowBounds(i, par.s);
    seq(par.s, j requires 0 <= j < par.s => 0.03125 * (par.cb[i * par.s + j] as real))
  }

  lemma CodeFits(par: Params, code: nat)
    requires par.Valid() && code < par.Codes()
    ensures RowFits(if code >= par.Entries() then code - par.Entries() else code, par.s, |par.cb|)
  {
    RowInside(if code >= par.Entries() then code - par.Entries() else code, par.Entries(), par.s);
  }

  /** The excitation of one code. */
  function CodeVector(par: Params, code: nat): (v: seq<real>)
    requires par.Valid() && code < par.Codes()
    ensures |v| == par.s
  {
    CodeFits(par, code);
    if code >= par.Entries() then Scale(-1.0, Shape(par, code - par.Entries())) else Shape(par, code)
  }

  /** The excitation of a path. */
  ghost function Decoded(par: Params, path: Path): (e: seq<real>)
    requires par.Valid() && ValidPath(par, path)
    ensures |e| == |path| * par.s
  {
    if path == [] then [] else
      assert |path| * par.s == (|path| - 1) * par.s + par.s;
      Decoded(par, path[..|path| - 1]) + CodeVector(par, path[|path| - 1])
  }

  /** What a path leaves of the target: the target less the path's excitation filtered by r. */
  ghost function Rest(par: Params, target: seq<real>, r: seq<real>, path: Path): (t: seq<real>)
    requires par.Valid() && ValidPath(par, path) && |r| == |target|
    ensures |t| == |target|
  {
    Minus(target, Fir(Decoded(par, path), r))
  }

  /** The error of a path: the energy it leaves in the subvectors it covers. */
  ghost function Error(par: Params, target: seq<real>, r: seq<real>, path: Path): real
    requires par.Valid() && ValidPath(par, path) && |r| == |target| && |path| * par.s <= |target|
  {
    Energy(Rest(par, target, r, path)[..|path| * par.s])
  }

  // ----- extending a path -----

  lemma DecodedExtends(par: Params, path: Path, code: nat)
    requires par.Valid() && ValidPath(par, path) && code < par.Codes()
    ensures ValidPath(par, path + [code])
    ensures Decoded(par, path + [code]) == Decoded(par, path) + CodeVector(par, code)
  {
    assert (path + [code])[..|path|] == path;
  }

  /** Subvector k goes from `before` to `after` by adding a row of the codebook, entry by entry, in steps of
      1/32, or by taking it away. */
  ghost predicate RowAdded(par: Params, k: nat, row: nat, negated: bool, before: seq<real>, after: seq<real>) {
    && |before| == |after| && 0 <= k * par.s <= k * par.s + par.s <= |after|
    && 0 <= row * par.s <= row * par.s + par.s <= |par.cb|
    && forall q :: k * par.s <= q < k * par.s + par.s ==>
         after[q] == if negated then before[q] - 0.03125 * (par.cb[row * par.s + (q - k * par.s)] as real)
                     else before[q] + 0.03125 * (par.cb[row * par.s + (q - k * par.s)] as real)
  }

  /** Adding the excitation of a path adds, in every subvector, the row that its code names, negated for a
      code beyond the rows. */
  lemma PathAdded(par: Params, path: Path, before: seq<real>, after: seq<real>, k: nat)
    requires par.Valid() && ValidPath(par, path) && k < |path|
    requires |before| == |path| * par.s && after == Plus(before, Decoded(par, path))
    ensures var n := Pow2(par.shapeBits);
            RowAdded(par, k, if path[k] >= n then path[k] - n else path[k], path[k] >= n, before, after)
  {
    hide Decoded, CodeVector;
    RowInside(k, |path|, par.s);
    CodeFits(par, path[k]);
    RowInside(if path[k] >= par.Entries() then path[k] - par.Entries() else path[k], par.Entries(), par.s);
    DecodedSlice(par, path, k);
    var e, v := Decoded(par, path), CodeVector(par, path[k]);
    forall q | k * par.s <= q < k * par.s + par.s
      ensures e[q] == v[q - k * par.s]
    {
      assert e[k * par.s..k * par.s + par.s][q - k * par.s] == e[q];
    }
    CodeVectorIs(par, path[k]);
  }

  lemma CodeVectorIs(par: Params, code: nat)
    requires par.Valid() && code < par.Codes()
    ensures var n := Pow2(par.shapeBits);
            var lo := (if code >= n then code - n else code) * par.s;
            && 0 <= lo <= lo + par.s <= |par.cb|
            && forall j :: 0 <= j < par.s ==>
                 CodeVector(par, code)[j] == if code >= n then -0.03125 * (par.cb[lo + j] as real) else 0.03125 * (par.cb[lo + j] as real)
  {
    CodeFits(par, code);
    RowInside(if code >= par.Entries() then code - par.Entries() else code, par.Entries(), par.s);
  }

  lemma {:induction false} DecodedSlice(par: Params, path: Path, k: nat)
    requires par.Valid() && ValidPath(par, path) && k < |path|
    ensures 0 <= k * par.s <= k * par.s + par.s <= |Decoded(par, path)|
    ensures Decoded(par, path)[k * par.s..k * par.s + par.s] == CodeVector(par, path[k])
    decreases |path|
  {
    hide CodeVector, Decoded;
    var m := |path| - 1;
    RowInside(k, |path|, par.s);
    DecodedExtends(par, path[..m], path[m]);
    assert path[..m] + [path[m]] == path;
    if k < m {
      RowInside(k, m, par.s);
      DecodedSlice(par, path[..m], k);
    }
  }

  /** One more code takes its own filtered vector from the target, from its subvector on. */
  lemma RestExtends(par: Params, target: seq<real>, r: seq<real>, path: Path, code: nat, n: nat)
    requires par.Valid() && ValidPath(par, path) && code < par.Codes() && n < |r| == |target|
    ensures ValidPath(par, path + [code])
    ensures Rest(par, target, r, path + [code])[n]
            == Rest(par, target, r, path)[n] - ConvAt(CodeVector(par, code), r, n - |path| * par.s)
  {
    hide ConvAt, CodeVector;
    DecodedExtends(par, path, code);
    ConvAppend(Decoded(par, path), CodeVector(par, code), r, n);
  }

  lemma SubvectorInside(i: nat, s: nat, nsf: nat)
    requires (i + 1) * s <= nsf
    ensures 0 <= i * s <= i * s + s == (i + 1) * s <= nsf
  {
  }

  /** The error of the longer path is the error of the shorter plus the energy left in the new subvector. */
  lemma ErrorExtends(par: Params, target: seq<real>, r: seq<real>, path: Path, code: nat)
    requires par.Valid() && ValidPath(par, path) && code < par.Codes() && |r| == |target|
    requires (|path| + 1) * par.s <= |target|
    ensures ValidPath(par, path + [code])
    ensures 0 <= |path| * par.s <= |path| * par.s + par.s <= |target|
    ensures Error(par, target, r, path + [code])
            == Error(par, target, r, path)
               + Energy(Rest(par, target, r, path + [code])[|path| * par.s..|path| * par.s + par.s])
  {
    hide ConvAt, Rest, CodeVector, Decoded, Energy;
    SubvectorInside(|path|, par.s, |target|);
    DecodedExtends(par, path, code);
    var lo, hi := |path| * par.s, |path| * par.s + par.s;
    var before, after := Rest(par, target, r, path), Rest(par, target, r, path + [code]);
    forall n | 0 <= n < lo
      ensures after[n] == before[n]
    {
      RestExtends(par, target, r, path, code, n);
      ConvBeforeZero(CodeVector(par, code), r, n - lo);
    }
    assert after[..lo] == before[..lo];
    assert after[..hi] == after[..lo] + after[lo..hi];
    EnergyAppend(after[..lo], after[lo..hi]);
    assert |path + [code]| * par.s == hi;
  }

  lemma {:induction false} ErrorNonNegative(par: Params, target: seq<real>, r: seq<real>, path: Path)
    requires par.Valid() && ValidPath(par, path) && |r| == |target| && |path| * par.s <= |target|
    ensures Error(par, target, r, path) >= 0.0
  {
    EnergyNonNegative(Rest(par, target, r, path)[..|path| * par.s]);
  }

  // ----- the filtered codebook -----

  /** compute_weighted_codebook: every row filtered by the impulse response. */
  ghost function Shaped(par: Params, r: seq<real>, n: nat): (resp: seq<real>)
    requires par.Valid() && n <= par.Entries() && par.s <= |r|
    ensures |resp| == n * par.s
  {
    if n == 0 then [] else
      RowInside(n - 1, par.Entries(), par.s);
      Shaped(par, r, n - 1) + Fir(Shape(par, n - 1), r[..par.s])
  }

  lemma {:induction false} ShapedRow(par: Params, r: seq<real>, n: nat, i: nat)
    requires par.Valid() && i < n <= par.Entries() && par.s <= |r|
    ensures RowFits(i, par.s, n * par.s) && RowFits(i, par.s, |par.cb|)
    ensures Row(Shaped(par, r, n), i, par.s) == Fir(Shape(par, i), r[..par.s])
    decreases n
  {
    hide Fir, Shape;
    RowInside(i, n, par.s);
    RowInside(i, par.Entries(), par.s);
    RowInside(n - 1, par.Entries(), par.s);
    if i < n - 1 {
      ShapedRow(par, r, n - 1, i);
      RowInside(i, n - 1, par.s);
    }
  }

  /** The energies of the filtered rows. */
  ghost function Energies(par: Params, r: seq<real>): (e: seq<real>)
    requires par.Valid() && par.s <= |r|
    ensures |e| == par.Entries()
    ensures forall i :: 0 <= i < par.Entries() ==>
              RowFits(i, par.s, par.Entries() * par.s) && e[i] == Energy(Row(Shaped(par, r, par.Entries()), i, par.s))
  {
    forall i | 0 <= i < par.Entries() ensures RowFits(i, par.s, par.Entries() * par.s) { RowInside(i, par.Entries(), par.s); }
    seq(par.Entries(), i requires 0 <= i < par.Entries() => Energy(Row(Shaped(par, r, par.Entries()), i, par.s)))
  }

  // ----- the beam -----

  /** The subvector of the rest that the next code is chosen for. */
  ghost function Window(par: Params, target: seq<real>, r: seq<real>, path: Path): (x: seq<real>)
    requires par.Valid() && ValidPath(par, path) && |r| == |target| && (|path| + 1) * par.s <= |target|
    ensures |x| == par.s
  {
    SubvectorInside(|path|, par.s, |target|);
    Rest(par, target, r, path)[|path| * par.s..|path| * par.s + par.s]
  }

  /** The codes tried after a path. */
  ghost function NextCodes(par: Params, target: seq<real>, r: seq<real>, path: Path, n: nat): (c: seq<nat>)
    requires par.Valid() && ValidPath(par, path) && |r| == |target| && (|path| + 1) * par.s <= |target|
    requires n <= par.Entries()
    ensures |c| == n && forall k :: 0 <= k < n ==> c[k] < par.Codes()
  {
    WindowFits(par, |path|, |target|);
    var c := Nearest(Window(par, target, r, path), Shaped(par, r, par.Entries()), Energies(par, r),
                     par.Entries(), par.s, par.haveSign, n);
    NearestInRange(Window(par, target, r, path), Shaped(par, r, par.Entries()), Energies(par, r),
                   par.Entries(), par.s, par.haveSign, n);
    c
  }

  lemma WindowFits(par: Params, i: nat, nsf: nat)
    requires par.Valid() && (i + 1) * par.s <= nsf
    ensures par.s <= nsf
  {
    SubvectorInside(i, par.s, nsf);
  }

  lemma NearestInRange(x: seq<real>, cb: seq<real>, energy: seq<real>, entries: nat, s: nat, haveSign: bool, n: nat)
    requires |x| == s && |cb| == entries * s && |energy| == entries && n <= entries
    ensures forall k :: 0 <= k < n ==> Nearest(x, cb, energy, entries, s, haveSign, n)[k] < if haveSign then 2 * entries else entries
  {
    var words := Words(x, cb, energy, entries, s, haveSign);
    KeptIsNBest(words, n);
    var kept := Kept(words, n);
    forall k | 0 <= k < n
      ensures 0 <= kept[k].tag < entries
    {
      assert kept[k] in words;
    }
  }

  ghost predicate ValidPaths(par: Params, paths: seq<Path>, i: nat) {
    forall j :: 0 <= j < |paths| ==> |paths[j]| == i && ValidPath(par, paths[j])
  }

  /** A path followed by each of the codes. */
  ghost function Fan(path: Path, codes: seq<nat>): (f: seq<Path>)
    ensures |f| == |codes|
    ensures forall k :: 0 <= k < |codes| ==> f[k] == path + [codes[k]]
  {
    seq(|codes|, k requires 0 <= k < |codes| => path + [codes[k]])
  }

  /** All the paths tried at a stage, in the order they are tried. */
  ghost function Tried(par: Params, target: seq<real>, r: seq<real>, paths: seq<Path>, i: nat, n: nat): (t: seq<Path>)
    requires par.Valid() && |r| == |target| && (i + 1) * par.s <= |target| && n <= par.Entries()
    requires ValidPaths(par, paths, i)
    ensures ValidPaths(par, t, i + 1) && (|paths| >= 1 ==> |t| >= n)
  {
    if paths == [] then [] else
      var last := paths[|paths| - 1];
      Tried(par, target, r, paths[..|paths| - 1], i, n) + Fan(last, NextCodes(par, target, r, last, n))
  }

  /** The paths as candidates of the n-best list. */
  ghost function Scored(par: Params, target: seq<real>, r: seq<real>, paths: seq<Path>, i: nat): (c: seq<Entry>)
    requires par.Valid() && |r| == |target| && i * par.s <= |target| && ValidPaths(par, paths, i)
    ensures |c| == |paths| && MetInOrder(c)
    ensures forall k :: 0 <= k < |paths| ==> c[k] == Entry(Error(par, target, r, paths[k]), k)
  {
    seq(|paths|, k requires 0 <= k < |paths| => Entry(Error(par, target, r, paths[k]), k))
  }

  /** The paths named by a list of entries. */
  ghost function Named(paths: seq<Path>, list: seq<Entry>): (p: seq<Path>)
    requires forall e :: e in list ==> 0 <= e.tag < |paths|
    ensures |p| == |list|
    ensures forall k :: 0 <= k < |list| ==> list[k] in list && p[k] == paths[list[k].tag]
  {
    seq(|list|, k requires 0 <= k < |list| => assert list[k] in list; paths[list[k].tag])
  }

  lemma KeptTags(par: Params, target: seq<real>, r: seq<real>, paths: seq<Path>, i: nat, n: nat)
    requires par.Valid() && |r| == |target| && i * par.s <= |target| && ValidPaths(par, paths, i)
    ensures forall e :: e in Kept(Scored(par, target, r, paths, i), n) ==> 0 <= e.tag < |paths|
  {
    KeptIsNBest(Scored(par, target, r, paths, i), n);
  }

  /** The paths kept after i subvectors, best first. */
  ghost function Beam(par: Params, target: seq<real>, r: seq<real>, i: nat, n: nat): (paths: seq<Path>)
    requires par.Valid() && |r| == |target| && par.subvects * par.s <= |target| && 1 <= n <= par.Entries()
    requires i <= par.subvects
    ensures ValidPaths(par, paths, i) && |paths| == if i == 0 then 1 else n
  {
    if i == 0 then [[]] else NextBeam(par, target, r, Beam(par, target, r, i - 1, n), i - 1, n)
  }

  /** The paths kept of all those tried after some paths. */
  ghost function NextBeam(par: Params, target: seq<real>, r: seq<real>, paths: seq<Path>, i: nat, n: nat): (next: seq<Path>)
    requires par.Valid() && |r| == |target| && par.subvects * par.s <= |target| && 1 <= n <= par.Entries()
    requires i < par.subvects && ValidPaths(par, paths, i) && paths != []
    ensures ValidPaths(par, next, i + 1) && |next| == n
  {
    RowInside(i, par.subvects, par.s);
    var tried := Tried(par, target, r, paths, i, n);
    KeptTags(par, target, r, tried, i + 1, n);
    Named(tried, Kept(Scored(par, target, r, tried, i + 1), n))
  }
}
