/** The n-best codebook searches of libspeex, vq.c, float build, in exact arithmetic. */
module Vq {
  import opened Signals
  import opened NBest

  /** Row i lies inside a codebook of the given length. */
  predicate RowFits(i: nat, s: nat, length: nat) {
    (i + 1) * s <= length
  }

  /** Row i of a codebook of rows of length s. */
  function Row(cb: seq<real>, i: nat, s: nat): (r: seq<real>)
    requires RowFits(i, s, |cb|)
    ensures |r| == s
  {
    RowBounds(i, s);
    cb[i * s..i * s + s]
  }

  lemma RowBounds(i: nat, s: nat)
    ensures (i + 1) * s == i * s + s && i * s >= 0
  {
  }

  lemma RowInside(i: nat, n: nat, s: nat)
    requires i < n
    ensures 0 <= i * s && (i + 1) * s == i * s + s <= n * s
  {
    assert (n - i - 1) * s >= 0;
    assert n * s == (i + 1) * s + (n - i - 1) * s;
  }

  /** A shaped codebook: rows of length s, with their energies. */
  ghost predicate Codebook(cb: seq<real>, energy: seq<real>, entries: nat, s: nat) {
    && |cb| == entries * s && |energy| == entries
    && (forall i :: 0 <= i < entries ==> RowFits(i, s, |cb|) && energy[i] == Energy(Row(cb, i, s)))
  }

  /** Half the energy of the row less its correlation with the input: the distance of vq_nbest. */
  function Distance(x: seq<real>, cb: seq<real>, energy: seq<real>, i: nat, s: nat): real
    requires |x| == s && RowFits(i, s, |cb|) && i < |energy|
  {
    0.5 * energy[i] - Dot(x, Row(cb, i, s))
  }

  /** The same with the better of the two signs: the distance of vq_nbest_sign. */
  function SignedDistance(x: seq<real>, cb: seq<real>, energy: seq<real>, i: nat, s: nat): real
    requires |x| == s && RowFits(i, s, |cb|) && i < |energy|
  {
    var d := Dot(x, Row(cb, i, s));
    (if d > 0.0 then -d else d) + 0.5 * energy[i]
  }

  /** The index under which codeword i is reported: moved up by the codebook size when its sign is negative. */
  function CodeOf(x: seq<real>, cb: seq<real>, i: nat, s: nat, entries: nat, haveSign: bool): nat
    requires |x| == s && RowFits(i, s, |cb|)
  {
    if haveSign && Dot(x, Row(cb, i, s)) <= 0.0 then i + entries else i
  }

  function Key(x: seq<real>, cb: seq<real>, energy: seq<real>, i: nat, s: nat, haveSign: bool): real
    requires |x| == s && RowFits(i, s, |cb|) && i < |energy|
  {
    if haveSign then SignedDistance(x, cb, energy, i, s) else Distance(x, cb, energy, i, s)
  }

  /** The codewords as candidates. */
  ghost function Words(x: seq<real>, cb: seq<real>, energy: seq<real>, entries: nat, s: nat, haveSign: bool): (c: seq<Entry>)
    requires |x| == s && |cb| == entries * s && |energy| == entries
    ensures |c| == entries && MetInOrder(c)
    ensures forall i :: 0 <= i < entries ==> RowFits(i, s, |cb|) && c[i] == Entry(Key(x, cb, energy, i, s, haveSign), i)
  {
    forall i | 0 <= i < entries ensures RowFits(i, s, |cb|) { RowInside(i, entries, s); }
    seq(entries, i requires 0 <= i < entries => Entry(Key(x, cb, energy, i, s, haveSign), i))
  }

  /** The result of the search: the codes of the n best words, best first. */
  ghost function Nearest(x: seq<real>, cb: seq<real>, energy: seq<real>, entries: nat, s: nat, haveSign: bool, n: nat): (r: seq<nat>)
    requires |x| == s && |cb| == entries * s && |energy| == entries && n <= entries
    ensures |r| == n
  {
    var words := Words(x, cb, energy, entries, s, haveSign);
    var kept := Kept(words, n);
    KeptIsNBest(words, n);
    assert forall k :: 0 <= k < n ==> kept[k] in words;
    seq(n, k requires 0 <= k < n => CodeOf(x, cb, kept[k].tag, s, entries, haveSign))
  }

  /** Each code found names the word at its rank. */
  lemma NearestAt(x: seq<real>, cb: seq<real>, energy: seq<real>, entries: nat, s: nat, haveSign: bool, n: nat, k: nat)
    requires |x| == s && |cb| == entries * s && |energy| == entries && n <= entries && k < n
    ensures var words := Words(x, cb, energy, entries, s, haveSign);
            var e := Kept(words, n)[k];
            && e in Kept(words, n) && e in words && 0 <= e.tag < entries && RowFits(e.tag, s, |cb|)
            && e == Entry(Key(x, cb, energy, e.tag, s, haveSign), e.tag)
            && Nearest(x, cb, energy, entries, s, haveSign, n)[k] == CodeOf(x, cb, e.tag, s, entries, haveSign)
  {
    hide Key, CodeOf;
    var words := Words(x, cb, energy, entries, s, haveSign);
    KeptIsNBest(words, n);
    assert Kept(words, n)[k] in Kept(words, n);
  }

  /** The arrays hold the list `kept`, each word under its code. */
  ghost predicate Holds(best: seq<real>, nbest: seq<int>, kept: seq<Entry>, code: seq<int>, n: nat) {
    && |best| == |nbest| == n && |kept| <= n
    && (forall k :: 0 <= k < |kept| ==>
          0 <= kept[k].tag < |code| && best[k] == kept[k].key && nbest[k] == code[kept[k].tag])
  }

  /** The insertion loop of both searches: from the end, past the unused cells and everything worse. */
  method InsertFromEnd(best: array<real>, nbest: array<int>, n: nat, used: nat, dist: real, code: int,
                       ghost kept: seq<Entry>, ghost codes: seq<int>, ghost tag: nat)
    requires best.Length == nbest.Length == n && best as object != nbest && 1 <= n
    requires Holds(best[..], nbest[..], kept, codes, n) && Ascending(kept)
    requires |kept| == (if used < n then used else n)
    requires |kept| < n || dist < best[n - 1]
    requires tag < |codes| && codes[tag] == code
    modifies best, nbest
    ensures Holds(best[..], nbest[..], Insert(kept, Entry(dist, tag), n), codes, n)
  {
    hide Insert, Place, Ascending;
    ghost var e := Entry(dist, tag);
    var k := OpenPlace(best, nbest, n, used, dist, kept, codes, e);
    best[k] := dist;
    nbest[k] := code;
    forall t | 0 <= t < |Insert(kept, e, n)|
      ensures var it := Insert(kept, e, n)[t];
              0 <= it.tag < |codes| && best[t] == it.key && nbest[t] == codes[it.tag]
    {
      InsertAt(kept, e, n, t);
    }
  }

  /** The loop: the worse entries move down by one. */
  method OpenPlace(best: array<real>, nbest: array<int>, n: nat, used: nat, dist: real,
                   ghost kept: seq<Entry>, ghost codes: seq<int>, ghost e: Entry) returns (k: nat)
    requires best.Length == nbest.Length == n && best as object != nbest && 1 <= n && e.key == dist
    requires Holds(best[..], nbest[..], kept, codes, n) && Ascending(kept)
    requires |kept| == (if used < n then used else n)
    requires |kept| < n || dist < best[n - 1]
    modifies best, nbest
    ensures k < n && k == Place(kept, e)
    ensures forall t :: 0 <= t < k ==> best[t] == old(best[t]) && nbest[t] == old(nbest[t])
    ensures forall t :: k < t < n ==> best[t] == old(best[t - 1]) && nbest[t] == old(nbest[t - 1])
  {
    hide Place, Ascending;
    ghost var p := Place(kept, e);
    k := n - 1;
    if |kept| == n {
      PlaceBefore(kept, e, n);
    }
    while k >= 1 && (k > used || dist < best[k - 1])
      invariant p <= k <= n - 1
      invariant forall t :: 0 <= t <= k ==> best[t] == old(best[t]) && nbest[t] == old(nbest[t])
      invariant forall t :: k < t < n ==> best[t] == old(best[t - 1]) && nbest[t] == old(nbest[t - 1])
    {
      NotBelow(kept, e, n, k - 1, used, old(best[k - 1]));
      best[k] := best[k - 1];
      nbest[k] := nbest[k - 1];
      k := k - 1;
    }
    StopsAtPlace(kept, e, k);
  }

  lemma PlaceBefore(kept: seq<Entry>, e: Entry, n: nat)
    requires 1 <= n == |kept| && e.key < kept[n - 1].key
    ensures Place(kept, e) <= n - 1
  {
  }

  /** While the loop runs on, the place of the newcomer lies below. */
  lemma NotBelow(kept: seq<Entry>, e: Entry, n: nat, k: nat, used: nat, b: real)
    requires |kept| == (if used < n then used else n) && Ascending(kept) && k + 1 < n
    requires k + 1 > used || e.key < b
    requires k < |kept| ==> b == kept[k].key
    requires Place(kept, e) <= k + 1
    ensures Place(kept, e) <= k
  {
  }

  lemma StopsAtPlace(kept: seq<Entry>, e: Entry, k: nat)
    requires Ascending(kept) && Place(kept, e) <= k
    requires k >= 1 ==> k <= |kept| && kept[k - 1].key <= e.key
    ensures Place(kept, e) == k
  {
    forall i | 0 <= i < k
      ensures kept[i].key <= e.key
    {
      assert i == k - 1 || Before(kept[i], kept[k - 1]);
    }
  }

  /** vq_nbest and vq_nbest_sign. */
  method Search(x: seq<real>, cb: seq<real>, s: nat, entries: nat, energy: seq<real>, n: nat, haveSign: bool)
    returns (nbest: seq<int>)
    requires |x| == s && |cb| == entries * s && |energy| == entries && 1 <= n <= entries
    ensures nbest == Nearest(x, cb, energy, entries, s, haveSign, n)
  {
    hide Mul, Dot, Kept, Insert, Place, Row;
    ghost var words := Words(x, cb, energy, entries, s, haveSign);
    ghost var codes := seq(entries, i requires 0 <= i < entries => CodeOf(x, cb, i, s, entries, haveSign));
    var best, list := new real[n], new int[n];
    var used := 0;
    NoneKept(n);
    for i := 0 to entries
      invariant Holds(best[..], list[..], Kept(words[..i], n), codes, n)
      invariant used >= (if i <= n then i else n) && (i <= n ==> used == i)
    {
      RowInside(i, entries, s);
      var dist := Correlate(x, cb, i, s);
      var code := i;
      if haveSign {
        if dist > 0.0 {
          dist := -dist;
        } else {
          code := i + entries;
        }
        dist := dist + 0.5 * energy[i];
      } else {
        dist := 0.5 * energy[i] - dist;
      }
      assert Entry(dist, i) == words[i] && codes[i] == code;
      KeptIsNBest(words[..i], n);
      OneMoreKept(words, i, n);
      if i < n || dist < best[n - 1] {
        InsertFromEnd(best, list, n, used, dist, code, Kept(words[..i], n), codes, i);
        used := used + 1;
      } else {
        NotInserted(Kept(words[..i], n), words[i], n);
      }
    }
    assert words[..entries] == words;
    KeptIsNBest(words, n);
    nbest := list[..];
  }

  /** The correlation loop. */
  method Correlate(x: seq<real>, cb: seq<real>, i: nat, s: nat) returns (d: real)
    requires |x| == s && RowFits(i, s, |cb|)
    ensures d == Dot(x, Row(cb, i, s))
  {
    hide Mul;
    RowBounds(i, s);
    ghost var row := Row(cb, i, s);
    d := 0.0;
    for j := 0 to s
      invariant d == Dot(x[..j], row[..j])
    {
      assert x[..j + 1][..j] == x[..j] && row[..j + 1][..j] == row[..j];
      d := d + Mul(x[j], cb[i * s + j]);
    }
    assert x[..s] == x && row[..s] == row;
  }
}
