/** What the split codebook search of libspeex, cb_search.c, achieves, its shortcut for one candidate,
    and the decoder's side. */
module CbResults {
  import opened Powers
  import opened Signals
  import opened NBest
  import opened Vq
  import opened CbSearch
  import opened BeamSearch
  import opened Filters

  // ----- distances and errors -----

  /** The code under which codeword w would be tried after a path. */
  ghost function WordCode(job: Job, path: Path, w: nat): (code: nat)
    requires job.Valid() && |path| < job.par.subvects && ValidPath(job.par, path) && w < job.par.Entries()
    ensures code < job.par.Codes() && RowOf(job.par, code) == w
  {
    StageFits(job, |path|);
    RowInside(w, job.par.Entries(), job.par.s);
    CodeOf(Window(job.par, job.target, job.r, path), Shaped(job.par, job.r, job.par.Entries()), w,
           job.par.s, job.par.Entries(), job.par.haveSign)
  }

  /** The path extended by codeword w. */
  ghost function WordPath(job: Job, path: Path, w: nat): (longer: Path)
    requires job.Valid() && |path| < job.par.subvects && ValidPath(job.par, path) && w < job.par.Entries()
    ensures ValidPath(job.par, longer) && |longer| == |path| + 1
  {
    path + [WordCode(job, path, w)]
  }

  /** The error of a path, whatever its length. */
  ghost function Err(job: Job, path: Path): real
    requires job.Valid() && |path| <= job.par.subvects && ValidPath(job.par, path)
  {
    StageFits(job, |path|);
    Error(job.par, job.target, job.r, path)
  }

  ghost function WordKey(job: Job, path: Path, w: nat): real
    requires job.Valid() && |path| < job.par.subvects && ValidPath(job.par, path) && w < job.par.Entries()
  {
    StageFits(job, |path|);
    RowInside(w, job.par.Entries(), job.par.s);
    Key(Window(job.par, job.target, job.r, path), Shaped(job.par, job.r, job.par.Entries()), Energies(job.par, job.r), w,
        job.par.s, job.par.haveSign)
  }

  /** The key by which a codeword is ranked decides the error of the path it extends. */
  lemma ErrorByKey(job: Job, path: Path, w: nat)
    requires job.Valid() && |path| < job.par.subvects && ValidPath(job.par, path) && w < job.par.Entries()
    ensures (|path| + 1) * job.par.s <= |job.target|
    ensures Err(job, WordPath(job, path, w))
            == Err(job, path) + Energy(Window(job.par, job.target, job.r, path)) + 2.0 * WordKey(job, path, w)
  {
    hide Rest, Error, Shaped, Energy, Dot, CodeVector, Decoded;
    var i := |path|;
    StageFits(job, i);
    RowInside(w, job.par.Entries(), job.par.s);
    var s, base := job.par.s, i * job.par.s;
    var x := Window(job.par, job.target, job.r, path);
    var resp := Shaped(job.par, job.r, job.par.Entries());
    var code := WordCode(job, path, w);
    var row := Row(resp, w, s);
    DecodedExtends(job.par, path, code);
    ErrorExtends(job.par, job.target, job.r, path, code);
    var after := Rest(job.par, job.target, job.r, path + [code])[base..base + s];
    var taken := if code >= job.par.Entries() then Plus(x, row) else Minus(x, row);
    forall m | 0 <= m < s
      ensures after[m] == taken[m]
    {
      OwnSubvector(job, i, code, path, m);
    }
    assert after == taken;
    EnergyOfDifference(x, row);
  }

  // ----- the list kept at a stage -----

  /** The paths tried in the stage after it. */
  ghost function TriedAfter(job: Job, i: nat): (paths: seq<Path>)
    requires job.Valid() && i < job.par.subvects
    ensures ValidPaths(job.par, paths, i + 1)
  {
    StageFits(job, i);
    Tried(job.par, job.target, job.r, BeamAt(job, i), i, job.n)
  }

  lemma BeamAfter(job: Job, i: nat)
    requires job.Valid() && i < job.par.subvects
    ensures BeamAt(job, i + 1) == KeptPaths(job, TriedAfter(job, i), i + 1)
  {
    hide Beam, Tried, KeptPaths, ValidPaths;
    StageFits(job, i);
    StageFits(job, i + 1);
    BeamStep(job, i);
  }

  /** The tried paths with their errors. */
  ghost function ScoredAfter(job: Job, i: nat): (c: seq<Entry>)
    requires job.Valid() && i < job.par.subvects
    ensures |c| == |TriedAfter(job, i)|
    ensures forall k :: 0 <= k < |c| ==> c[k] == Entry(Err(job, TriedAfter(job, i)[k]), k)
  {
    StageFits(job, i + 1);
    Scored(job.par, job.target, job.r, TriedAfter(job, i), i + 1)
  }

  /** Of the paths tried at a stage, the beam keeps the n of least error, in order of error. */
  lemma BeamKeepsBest(job: Job, i: nat)
    requires job.Valid() && i < job.par.subvects
    ensures var tried := TriedAfter(job, i);
            && IsNBest(KeptList(job, tried, i + 1), ScoredAfter(job, i), job.n)
            && BeamAt(job, i + 1) == Named(tried, KeptList(job, tried, i + 1))
  {
    hide Error, Err, TriedAfter, BeamAt, Kept, Beam;
    BeamAfter(job, i);
    StageFits(job, i + 1);
    KeptIsNBest(ScoredAfter(job, i), job.n);
  }

  /** The kept errors do not decrease with the rank. */
  lemma BeamSorted(job: Job, i: nat, a: nat, b: nat)
    requires job.Valid() && i <= job.par.subvects && a <= b < |BeamAt(job, i)|
    ensures Err(job, BeamAt(job, i)[a]) <= Err(job, BeamAt(job, i)[b])
  {
    if i > 0 && a < b {
      hide Error, BeamAt, TriedAfter, KeptList, KeptPaths, ValidPath;
      BeamAfter(job, i - 1);
      var tried := TriedAfter(job, i - 1);
      KeptKeys(job, tried, i);
      var list := KeptList(job, tried, i);
      assert Before(list[a], list[b]);
    }
  }

  /** Where the extensions of rank j stand among the paths tried. */
  lemma {:induction false} TriedAt(job: Job, paths: seq<Path>, i: nat, j: nat, k: nat)
    requires job.Valid() && i < job.par.subvects && ValidPaths(job.par, paths, i) && j < |paths| && k < job.n
    ensures (i + 1) * job.par.s <= |job.target| && ValidPaths(job.par, paths[..j], i)
    ensures var tried := Tried(job.par, job.target, job.r, paths, i, job.n);
            var at := |Tried(job.par, job.target, job.r, paths[..j], i, job.n)| + k;
            && at < |tried|
            && tried[at] == paths[j] + [NextCodes(job.par, job.target, job.r, paths[j], job.n)[k]]
    decreases |paths|
  {
    hide NextCodes;
    StageFits(job, i);
    if j < |paths| - 1 {
      TriedAt(job, paths[..|paths| - 1], i, j, k);
      assert paths[..|paths| - 1][..j] == paths[..j];
    }
  }

  /** The position of the first extension of rank j. */
  ghost function Offset(job: Job, i: nat, j: nat): nat
    requires job.Valid() && i < job.par.subvects && j < |BeamAt(job, i)|
  {
    StageFits(job, i);
    |Tried(job.par, job.target, job.r, BeamAt(job, i)[..j], i, job.n)|
  }

  /** The codes tried after a path. */
  ghost function CodesAfter(job: Job, path: Path): (codes: seq<nat>)
    requires job.Valid() && |path| < job.par.subvects && ValidPath(job.par, path)
    ensures |codes| == job.n && forall k :: 0 <= k < job.n ==> codes[k] < job.par.Codes()
  {
    StageFits(job, |path|);
    NextCodes(job.par, job.target, job.r, path, job.n)
  }

  lemma ExtensionAt(job: Job, i: nat, j: nat, k: nat)
    requires job.Valid() && i < job.par.subvects && j < |BeamAt(job, i)| && k < job.n
    ensures Offset(job, i, j) + k < |TriedAfter(job, i)|
    ensures TriedAfter(job, i)[Offset(job, i, j) + k] == BeamAt(job, i)[j] + [CodesAfter(job, BeamAt(job, i)[j])[k]]
  {
    hide NextCodes, Tried, Beam, ValidPath;
    StageFits(job, i);
    TriedAt(job, BeamAt(job, i), i, j, k);
  }

  /** A codeword that is not among those found is no nearer than any of them. */
  lemma UnfoundIsFarther(x: seq<real>, cb: seq<real>, energy: seq<real>, entries: nat, s: nat, haveSign: bool, n: nat, w: nat, k: nat)
    returns (v: nat)
    requires |x| == s && |cb| == entries * s && |energy| == entries && n <= entries && w < entries && k < n
    ensures v < entries && RowFits(v, s, |cb|) && RowFits(w, s, |cb|)
    ensures Nearest(x, cb, energy, entries, s, haveSign, n)[k] == CodeOf(x, cb, v, s, entries, haveSign)
    ensures CodeOf(x, cb, w, s, entries, haveSign) !in Nearest(x, cb, energy, entries, s, haveSign, n) ==>
              Key(x, cb, energy, v, s, haveSign) <= Key(x, cb, energy, w, s, haveSign)
  {
    hide Key, CodeOf, Kept, MetInOrder, Nearest;
    RowInside(w, entries, s);
    var words := Words(x, cb, energy, entries, s, haveSign);
    var kept := Kept(words, n);
    NearestAt(x, cb, energy, entries, s, haveSign, n, k);
    v := kept[k].tag;
    if CodeOf(x, cb, w, s, entries, haveSign) !in Nearest(x, cb, energy, entries, s, haveSign, n) {
      forall m | 0 <= m < n
        ensures kept[m] != words[w]
      {
        NearestAt(x, cb, energy, entries, s, haveSign, n, m);
      }
      KeptIsNBest(words, n);
      assert words[w] in words && words[w] !in kept;
      assert Before(kept[k], words[w]);
    }
  }

  predicate HasTag(list: seq<Entry>, x: int) {
    exists e :: e in list && e.tag == x
  }

  lemma {:induction false} TagSet(list: seq<Entry>)
    ensures |(set e | e in list :: e.tag)| <= |list|
  {
    if list != [] {
      var r, e := list[..|list| - 1], list[|list| - 1];
      TagSet(r);
      assert (set x | x in list :: x.tag) == (set x | x in r :: x.tag) + {e.tag};
    }
  }

  /** The n neighbouring integers from lo on. */
  ghost function Interval(lo: int, n: nat): (r: set<int>)
    ensures |r| == n && forall x :: x in r <==> lo <= x < lo + n
  {
    if n == 0 then {} else Interval(lo, n - 1) + {lo + n - 1}
  }

  lemma SubsetSize(s: set<int>, t: set<int>)
    requires s <= t
    ensures |s| <= |t|
  {
    assert t == s + (t - s);
  }

  /** A list of n entries cannot hold n neighbouring tags and one more. */
  lemma NoRoomForMore(list: seq<Entry>, lo: int, n: nat, q: int)
    requires |list| == n && !(lo <= q < lo + n) && HasTag(list, q)
    ensures exists x :: lo <= x < lo + n && !HasTag(list, x)
  {
    if forall x :: lo <= x < lo + n ==> HasTag(list, x) {
      var tags, run := (set e | e in list :: e.tag), Interval(lo, n);
      forall x | x in run + {q}
        ensures x in tags
      {
        assert HasTag(list, x);
      }
      TagSet(list);
      assert |run + {q}| == n + 1;
      SubsetSize(run + {q}, tags);
    }
  }

  /** A path tried but not kept is no better than any path kept. */
  lemma LeftOut(job: Job, tried: seq<Path>, i: nat, at: nat, k: nat)
    requires job.Valid() && i <= job.par.subvects && ValidPaths(job.par, tried, i)
    requires at < |tried| && !HasTag(KeptList(job, tried, i), at) && k < |KeptPaths(job, tried, i)|
    ensures Err(job, KeptPaths(job, tried, i)[k]) <= Err(job, tried[at])
  {
    StageFits(job, i);
    var scored, list := Scored(job.par, job.target, job.r, tried, i), KeptList(job, tried, i);
    KeptIsNBest(scored, job.n);
    KeptKeys(job, tried, i);
    hide Error, Kept, Scored, ValidPath, MetInOrder, KeptList, KeptPaths;
    assert scored[at] in scored && scored[at].tag == at;
    assert scored[at] !in list;
    assert list[k] in list;
    assert Before(list[k], scored[at]);
  }

  /** Every code tried leaves no more error than a codeword that was not tried. */
  lemma TriedIsBetter(job: Job, path: Path, w: nat, m: nat)
    requires job.Valid() && |path| < job.par.subvects && ValidPath(job.par, path) && w < job.par.Entries() && m < job.n
    ensures ValidPath(job.par, path + [CodesAfter(job, path)[m]])
    ensures WordCode(job, path, w) !in CodesAfter(job, path) ==>
              Err(job, path + [CodesAfter(job, path)[m]]) <= Err(job, WordPath(job, path, w))
  {
    hide Error, Rest, Key, CodeOf, Window, Shaped, Energies, Nearest;
    StageFits(job, |path|);
    var x, resp, e := Window(job.par, job.target, job.r, path), Shaped(job.par, job.r, job.par.Entries()), Energies(job.par, job.r);
    var v := UnfoundIsFarther(x, resp, e, job.par.Entries(), job.par.s, job.par.haveSign, job.n, w, m);
    ErrorByKey(job, path, v);
    ErrorByKey(job, path, w);
  }

  lemma NamedAt(job: Job, tried: seq<Path>, i: nat, k: nat)
    requires job.Valid() && i <= job.par.subvects && ValidPaths(job.par, tried, i) && k < |KeptPaths(job, tried, i)|
    ensures var list := KeptList(job, tried, i);
            0 <= list[k].tag < |tried| && HasTag(list, list[k].tag) && KeptPaths(job, tried, i)[k] == tried[list[k].tag]
  {
    hide KeptList, ValidPath;
    assert KeptList(job, tried, i)[k] in KeptList(job, tried, i);
  }

  lemma TriedHere(job: Job, i: nat, j: nat, w: nat, x: int)
    requires job.Valid() && i < job.par.subvects && w < job.par.Entries() && j < |BeamAt(job, i)|
    requires WordCode(job, BeamAt(job, i)[j], w) !in CodesAfter(job, BeamAt(job, i)[j])
    requires Offset(job, i, j) <= x < Offset(job, i, j) + job.n
    ensures x < |TriedAfter(job, i)|
    ensures Err(job, TriedAfter(job, i)[x]) <= Err(job, WordPath(job, BeamAt(job, i)[j], w))
  {
    hide Err, BeamAt, TriedAfter, Offset, CodesAfter, WordPath, WordCode, ValidPath;
    ExtensionAt(job, i, j, x - Offset(job, i, j));
    TriedIsBetter(job, BeamAt(job, i)[j], w, x - Offset(job, i, j));
  }

  /** A codeword that was not even tried is no better than any path kept: the n codes tried after the
      same path are at least as good, and not all of them can be kept beside something worse. */
  lemma NotTried(job: Job, i: nat, j: nat, w: nat, k: nat)
    requires job.Valid() && i < job.par.subvects && w < job.par.Entries()
    requires j < |BeamAt(job, i)| && k < |BeamAt(job, i + 1)|
    requires WordCode(job, BeamAt(job, i)[j], w) !in CodesAfter(job, BeamAt(job, i)[j])
    ensures Err(job, BeamAt(job, i + 1)[k]) <= Err(job, WordPath(job, BeamAt(job, i)[j], w))
  {
    hide Err, Error, KeptList, KeptPaths, BeamAt, TriedAfter, Offset, CodesAfter, WordPath, WordCode, ValidPath, HasTag;
    BeamAfter(job, i);
    var path, tried, off := BeamAt(job, i)[j], TriedAfter(job, i), Offset(job, i, j);
    var error := Err(job, WordPath(job, path, w));
    var list := KeptList(job, tried, i + 1);
    var q := list[k].tag;
    NamedAt(job, tried, i + 1, k);
    if Err(job, BeamAt(job, i + 1)[k]) > error {
      if off <= q < off + job.n {
        TriedHere(job, i, j, w, q);
      }
      NoRoomForMore(list, off, job.n, q);
      var x :| off <= x < off + job.n && !HasTag(list, x);
      TriedHere(job, i, j, w, x);
      LeftOut(job, tried, i + 1, x, k);
    }
  }

  /** The beam holds the n best extensions of the previous beam by any codeword at all (with a sign, by
      the better sign of any codeword), although only n codewords are tried after each path. */
  lemma BeamIsBestOfAll(job: Job, i: nat, j: nat, w: nat, k: nat)
    requires job.Valid() && i < job.par.subvects && w < job.par.Entries()
    requires j < |BeamAt(job, i)| && k < |BeamAt(job, i + 1)|
    ensures WordPath(job, BeamAt(job, i)[j], w) in BeamAt(job, i + 1)
            || Err(job, BeamAt(job, i + 1)[k]) <= Err(job, WordPath(job, BeamAt(job, i)[j], w))
  {
    hide Err, KeptList, KeptPaths, BeamAt, TriedAfter, Offset, CodesAfter, WordPath, WordCode, ValidPath;
    var path := BeamAt(job, i)[j];
    var codes := CodesAfter(job, path);
    if WordCode(job, path, w) in codes {
      var m :| 0 <= m < job.n && codes[m] == WordCode(job, path, w);
      TriedAndLeft(job, i, j, w, m, k);
    } else {
      NotTried(job, i, j, w, k);
    }
  }

  lemma TriedAndLeft(job: Job, i: nat, j: nat, w: nat, m: nat, k: nat)
    requires job.Valid() && i < job.par.subvects && w < job.par.Entries() && m < job.n
    requires j < |BeamAt(job, i)| && k < |BeamAt(job, i + 1)|
    requires CodesAfter(job, BeamAt(job, i)[j])[m] == WordCode(job, BeamAt(job, i)[j], w)
    ensures WordPath(job, BeamAt(job, i)[j], w) in BeamAt(job, i + 1)
            || Err(job, BeamAt(job, i + 1)[k]) <= Err(job, WordPath(job, BeamAt(job, i)[j], w))
  {
    hide Err, KeptList, KeptPaths, BeamAt, TriedAfter, Offset, CodesAfter, WordCode, ValidPath, HasTag;
    ExtensionAt(job, i, j, m);
    BeamAfter(job, i);
    var at, tried := Offset(job, i, j) + m, TriedAfter(job, i);
    if HasTag(KeptList(job, tried, i + 1), at) {
      Reappears(job, tried, i + 1, at);
    } else {
      LeftOut(job, tried, i + 1, at, k);
    }
  }

  lemma Reappears(job: Job, tried: seq<Path>, i: nat, at: nat)
    requires job.Valid() && i <= job.par.subvects && ValidPaths(job.par, tried, i)
    requires at < |tried| && HasTag(KeptList(job, tried, i), at)
    ensures tried[at] in KeptPaths(job, tried, i)
  {
    hide KeptList;
    var list := KeptList(job, tried, i);
    var e :| e in list && e.tag == at;
    var k :| 0 <= k < |list| && list[k] == e;
    assert KeptPaths(job, tried, i)[k] == tried[at];
  }

  // ----- the shortcut for one candidate -----

  /** With one candidate the beam is the path of nearest codes. */
  lemma BeamOfOne(job: Job, i: nat)
    requires job.Valid() && job.n == 1 && i < job.par.subvects
    ensures BeamAt(job, i + 1) == [BeamAt(job, i)[0] + [CodesAfter(job, BeamAt(job, i)[0])[0]]]
  {
    var path := BeamAt(job, i)[0];
    var longer := path + [CodesAfter(job, path)[0]];
    hide Error, BeamAt, CodesAfter, TriedAfter, KeptList, ValidPath, Offset;
    ExtensionAt(job, i, 0, 0);
    OneTried(job, i);
    BeamAfter(job, i);
    NamedAt(job, TriedAfter(job, i), i + 1, 0);
  }

  lemma OneTried(job: Job, i: nat)
    requires job.Valid() && job.n == 1 && i < job.par.subvects
    ensures |TriedAfter(job, i)| == 1 && Offset(job, i, 0) == 0
  {
    hide NextCodes, Beam;
    StageFits(job, i);
    var paths := BeamAt(job, i);
    assert paths[..0] == [] && paths[..|paths| - 1] == [];
    TriedNothing(job, i);
  }

  /** split_cb_search_shape_sign_N1: one target, updated in place, and no lists. */
  method SearchOne(job: Job) returns (ind: seq<nat>)
    requires job.Valid() && job.n == 1 && 1 <= job.par.subvects
    ensures [ind] == BeamAt(job, job.par.subvects)
  {
    hide Rest, Shaped, Energies, NextCodes, Beam, CodeVector, Fir, ValidPath;
    var s, nsf, m := job.par.s, |job.target|, job.par.subvects;
    StageFits(job, 0);
    var resp, energy := ComputeWeightedCodebook(job.par, job.r);
    var t := new real[nsf];
    for q := 0 to nsf
      invariant forall p :: 0 <= p < q ==> t[p] == job.target[p]
      modifies t
    {
      t[q] := job.target[q];
    }
    ind := [];
    EmptyBeam(job);
    for i := 0 to m
      invariant [ind] == BeamAt(job, i) && |ind| == i
      invariant i * s <= nsf && Leaves(job, t[..], ind)
      modifies t
    {
      assert ind == BeamAt(job, i)[0];
      BeamOfOne(job, i);
      ind := OneStep(job, t, resp, energy, ind);
      StageFits(job, i + 1);
    }
  }

  lemma EmptyBeam(job: Job)
    requires job.Valid()
    ensures BeamAt(job, 0) == [[]]
    ensures Leaves(job, job.target, [])
  {
    EmptyPath(job);
  }

  /** The scratch target holds what the path leaves, from the next subvector on. */
  ghost predicate Leaves(job: Job, t: seq<real>, path: Path)
    requires job.Valid() && |path| <= job.par.subvects
  {
    && |t| == |job.target| && ValidPath(job.par, path)
    && (forall q :: |path| * job.par.s <= q < |t| ==> 0 <= q && t[q] == Rest(job.par, job.target, job.r, path)[q])
  }

  /** One subvector of the shortcut. */
  method OneStep(job: Job, t: array<real>, resp: seq<real>, energy: seq<real>, path: Path) returns (longer: Path)
    requires job.Valid() && job.n == 1 && |path| < job.par.subvects && t.Length == |job.target|
    requires Leaves(job, t[..], path) && job.par.s <= |job.r|
    requires resp == Shaped(job.par, job.r, job.par.Entries()) && energy == Energies(job.par, job.r)
    modifies t
    ensures longer == path + [CodesAfter(job, path)[0]]
    ensures |longer| <= job.par.subvects && Leaves(job, t[..], longer)
  {
    hide Rest, Shaped, Energies, Nearest, CodeVector, Fir, ConvAt;
    var s, base := job.par.s, |path| * job.par.s;
    StageFits(job, |path|);
    var x := t[base..base + s];
    assert x == Window(job.par, job.target, job.r, path);
    var best := Search(x, resp, s, job.par.Entries(), energy, 1, job.par.haveSign);
    assert best == CodesAfter(job, path);
    var code := best[0];
    longer := path + [code];
    var sign, rind := 1, code;
    if rind >= job.par.Entries() {
      sign := -1;
      rind := rind - job.par.Entries();
    }
    RowInside(rind, job.par.Entries(), s);
    TakeRow(t, base, s, Row(resp, rind, s), sign);
    TakeTail(t, base, CodeVector(job.par, code), job.r);
    DecodedExtends(job.par, path, code);
    forall q | base + s <= q < t.Length
      ensures t[q] == Rest(job.par, job.target, job.r, longer)[q]
    {
      RestExtends(job.par, job.target, job.r, path, code, q);
    }
  }

  // ----- the whole function -----

  /** The number of candidates kept, from the complexity setting. */
  function Candidates(complexity: int): (n: nat)
    ensures 1 <= n <= 10
    ensures 1 <= complexity <= 10 ==> n == complexity
    ensures n < complexity ==> n == 10
    ensures complexity < n ==> n == 1
  {
    if complexity > 10 then 10 else if complexity < 1 then 1 else complexity
  }

  /** The codes become an excitation. */
  method FillExcitation(par: Params, ind: Path) returns (e: array<real>)
    requires par.Valid() && ValidPath(par, ind)
    ensures fresh(e) && e[..] == Decoded(par, ind)
  {
    hide CodeVector, Decoded, ValidPath;
    e := new real[|ind| * par.s];
    var base := 0;
    NothingDecoded(par, ind);
    for i := 0 to |ind|
      invariant Filling(par, ind, i, base, e.Length)
      invariant e[..base] == Decoded(par, ind[..i])
      modifies e
    {
      FillingStep(par, ind, i, base, e.Length);
      var v := CodeVector(par, ind[i]);
      ghost var before := e[..base];
      PutVector(e, base, v);
      base := base + par.s;
      assert e[..base] == before + v;
    }
    FillingDone(par, ind, base, e.Length);
  }

  /** How far the excitation is filled. */
  ghost predicate Filling(par: Params, ind: Path, i: nat, base: int, size: nat) {
    && par.Valid() && i <= |ind| && ValidPath(par, ind) && ValidPath(par, ind[..i])
    && base == i * par.s && size == |ind| * par.s && 0 <= base <= size
  }

  lemma FillingStep(par: Params, ind: Path, i: nat, base: int, size: nat)
    requires Filling(par, ind, i, base, size) && i < |ind|
    ensures ind[i] < par.Codes() && base + par.s <= size
    ensures Filling(par, ind, i + 1, base + par.s, size)
    ensures Decoded(par, ind[..i + 1]) == Decoded(par, ind[..i]) + CodeVector(par, ind[i])
  {
    hide CodeVector, Decoded;
    RowInside(i, |ind|, par.s);
    CodeInside(par, ind, i);
    DecodedExtends(par, ind[..i], ind[i]);
    assert ind[..i + 1] == ind[..i] + [ind[i]];
  }

  lemma FillingDone(par: Params, ind: Path, base: int, size: nat)
    requires Filling(par, ind, |ind|, base, size)
    ensures base == size && ind[..|ind|] == ind
  {
  }

  lemma NothingDecoded(par: Params, ind: Path)
    requires par.Valid()
    ensures ValidPath(par, ind[..0]) && Decoded(par, ind[..0]) == []
  {
  }

  lemma CodeInside(par: Params, ind: Path, i: nat)
    requires ValidPath(par, ind) && i < |ind|
    ensures ind[i] < par.Codes()
  {
  }

  method PutVector(e: array<real>, base: nat, v: seq<real>)
    requires base + |v| <= e.Length
    modifies e
    ensures e[..base] == old(e[..base]) && e[base..base + |v|] == v && e[base + |v|..] == old(e[base + |v|..])
  {
    for j := 0 to |v|
      invariant forall q :: 0 <= q < base || base + |v| <= q < e.Length ==> e[q] == old(e[q])
      invariant forall q :: base <= q < base + j ==> e[q] == v[q - base]
    {
      e[base + j] := v[j];
    }
  }

  method AddTo(y: array<real>, e: array<real>)
    requires y.Length == e.Length && y != e
    modifies y
    ensures y[..] == Plus(old(y[..]), e[..])
  {
    for j := 0 to e.Length
      invariant forall q :: 0 <= q < j ==> y[q] == old(y[q]) + e[q]
      invariant forall q :: j <= q < e.Length ==> y[q] == old(y[q])
    {
      y[j] := y[j] + e[j];
    }
  }

  method SubtractFrom(y: array<real>, e: array<real>)
    requires y.Length == e.Length && y != e
    modifies y
    ensures y[..] == Minus(old(y[..]), e[..])
  {
    for j := 0 to e.Length
      invariant forall q :: 0 <= q < j ==> y[q] == old(y[q]) - e[q]
      invariant forall q :: j <= q < e.Length ==> y[q] == old(y[q])
    {
      y[j] := y[j] - e[j];
    }
  }

  /** split_cb_search_shape_sign. Whatever the number of candidates, and so whichever of the two searches
      runs, the codes returned are the best path of the beam. */
  method SplitCbSearch(par: Params, target: array<real>, ak: seq<real>, awk1: seq<real>, awk2: seq<real>,
                       exc: array<real>, r: seq<real>, complexity: int, updateTarget: bool)
    returns (ind: seq<nat>)
    requires par.Valid() && 1 <= par.subvects && |r| == target.Length == exc.Length == par.subvects * par.s
    requires Candidates(complexity) <= par.Entries() && |ak| == |awk1| == |awk2| >= 2 && target != exc
    modifies target, exc
    ensures ind == BeamAt(Job(par, old(target[..]), r, Candidates(complexity)), par.subvects)[0]
    ensures exc[..] == Plus(old(exc[..]), Decoded(par, ind))
    // Every subvector: the row that its code names, negated for a code beyond the rows.
    ensures |ind| == par.subvects
    ensures forall k :: 0 <= k < par.subvects ==>
              var n := Pow2(par.shapeBits);
              RowAdded(par, k, if ind[k] >= n then ind[k] - n else ind[k], ind[k] >= n, old(exc[..]), exc[..])
    ensures target[..] == if updateTarget then Minus(old(target[..]), Syn(ak, awk1, awk2, Decoded(par, ind))) else old(target[..])
  {
    hide Beam, Syn, Decoded, ValidPath, RowAdded;
    var job := Job(par, target[..], r, Candidates(complexity));
    if job.n == 1 {
      ind := SearchOne(job);
      assert [ind][0] == ind;
    } else {
      ind := SearchBeam(job);
    }
    var e := FillExcitation(par, ind);
    assert e.Length == |e[..]|;
    AddTo(exc, e);
    if updateTarget {
      var r2 := new real[e.Length];
      SynPercepZero(e, ak, awk1, awk2, r2, e.Length, |ak| - 1);
      assert r2[..e.Length] == r2[..] && e[..e.Length] == e[..];
      SubtractFrom(target, r2);
    }
    ghost var added := exc[..];
    forall k | 0 <= k < |ind| {
      PathAdded(par, ind, old(exc[..]), added, k);
    }
  }

  /** The error of the best path is the energy of what its excitation, through the synthesis filter,
      leaves of the target: the energy of the updated target. */
  lemma ErrorIsEnergyLeft(job: Job, path: Path, ak: seq<real>, awk1: seq<real>, awk2: seq<real>)
    requires job.Valid() && |path| == job.par.subvects && ValidPath(job.par, path)
    requires |ak| == |awk1| == |awk2| >= 2 && job.r == Response(ak, awk1, awk2, |job.target|)
    ensures Err(job, path) == Energy(Minus(job.target, Syn(ak, awk1, awk2, Decoded(job.par, path))))
  {
    hide Syn, Decoded, Fir, Response;
    StageFits(job, |path|);
    var e := Decoded(job.par, path);
    SynIsConvolution(ak, awk1, awk2, e);
    FirSymmetric(e, job.r);
    var rest := Rest(job.par, job.target, job.r, path);
    assert rest[..|path| * job.par.s] == rest;
  }

  /** split_cb_shape_sign_unquant, from the sign and index fields it unpacks. */
  method SplitCbUnquant(par: Params, exc: array<real>, signs: seq<nat>, inds: seq<nat>)
    requires par.Valid() && |signs| == |inds| == par.subvects && exc.Length == par.subvects * par.s
    requires forall k :: 0 <= k < |inds| ==> inds[k] < par.Entries() && signs[k] < 2 && (signs[k] == 1 ==> par.haveSign)
    modifies exc
    ensures ValidPath(par, Codes(par, signs, inds))
    ensures exc[..] == Plus(old(exc[..]), Decoded(par, Codes(par, signs, inds)))
    // Every subvector: the row of its index, with its sign.
    ensures forall k :: 0 <= k < par.subvects ==> RowAdded(par, k, inds[k], signs[k] == 1, old(exc[..]), exc[..])
  {
    var ind := Codes(par, signs, inds);
    assert ValidPath(par, ind);
    hide Decoded, ValidPath, Codes, RowAdded;
    var e := FillExcitation(par, ind);
    assert e.Length == |e[..]|;
    AddTo(exc, e);
    UnquantAdds(par, signs, inds, old(exc[..]), exc[..]);
  }

  /** The code that a sign and an index stand for. */
  function CodeFrom(par: Params, sign: nat, index: nat): nat {
    sign * par.Entries() + index
  }

  lemma UnquantAdds(par: Params, signs: seq<nat>, inds: seq<nat>, before: seq<real>, after: seq<real>)
    requires par.Valid() && |signs| == |inds| && ValidPath(par, Codes(par, signs, inds))
    requires forall k :: 0 <= k < |inds| ==> inds[k] < par.Entries() && signs[k] < 2
    requires |before| == |inds| * par.s && after == Plus(before, Decoded(par, Codes(par, signs, inds)))
    ensures forall k :: 0 <= k < |inds| ==> RowAdded(par, k, inds[k], signs[k] == 1, before, after)
  {
    hide Decoded, ValidPath, Codes, RowAdded;
    forall k | 0 <= k < |inds|
      ensures RowAdded(par, k, inds[k], signs[k] == 1, before, after)
    {
      PathAdded(par, Codes(par, signs, inds), before, after, k);
      SignAndIndex(par, signs, inds, k);
    }
  }

  lemma SignAndIndex(par: Params, signs: seq<nat>, inds: seq<nat>, k: nat)
    requires k < |signs| == |inds| && inds[k] < par.Entries() && signs[k] < 2
    ensures var n, code := Pow2(par.shapeBits), Codes(par, signs, inds)[k];
            (code >= n <==> signs[k] == 1) && inds[k] == if code >= n then code - n else code
  {
  }

  function Codes(par: Params, signs: seq<nat>, inds: seq<nat>): (codes: seq<nat>)
    requires |signs| == |inds|
    ensures |codes| == |inds|
    ensures forall k :: 0 <= k < |inds| ==> codes[k] == CodeFrom(par, signs[k], inds[k])
  {
    seq(|inds|, k requires 0 <= k < |inds| => CodeFrom(par, signs[k], inds[k]))
  }

  /** The two fields that the decoder reads from the one the encoder wrote: the top bit and the rest. */
  function SignOf(par: Params, code: nat): nat {
    if code >= par.Entries() then 1 else 0
  }

  function IndexOf(par: Params, code: nat): nat {
    if code >= par.Entries() then code - par.Entries() else code
  }

  lemma CodeSplits(par: Params, code: nat)
    requires code < par.Codes()
    ensures SignOf(par, code) < 2 && IndexOf(par, code) < par.Entries()
    ensures CodeFrom(par, SignOf(par, code), IndexOf(par, code)) == code
    ensures SignOf(par, code) == 1 ==> par.haveSign
  {
  }

  /** Given the two fields of each of the encoder's codes, the decoder finds the encoder's path. */
  lemma DecoderFindsCodes(par: Params, ind: Path, signs: seq<nat>, inds: seq<nat>)
    requires ValidPath(par, ind) && |signs| == |inds| == |ind|
    requires forall k :: 0 <= k < |ind| ==> signs[k] == SignOf(par, ind[k]) && inds[k] == IndexOf(par, ind[k])
    ensures Codes(par, signs, inds) == ind
  {
    hide SignOf, IndexOf, CodeFrom;
    forall k | 0 <= k < |ind|
      ensures CodeFrom(par, signs[k], inds[k]) == ind[k]
    {
      CodeSplits(par, ind[k]);
    }
  }
}
