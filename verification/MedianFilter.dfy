/** The sliding median of iaxclient/lib/libspeex/medfilter.c. */
module MedianFilters {

  predicate Sorted(s: seq<real>) {
    forall i, j :: 0 <= i < j < |s| ==> s[i] <= s[j]
  }

  function Without<T>(s: seq<T>, at: nat): (r: seq<T>)
    requires at < |s|
    ensures |r| == |s| - 1
    ensures forall i :: 0 <= i < at ==> r[i] == s[i]
    ensures forall i :: at <= i < |r| ==> r[i] == s[i + 1]
  {
    s[..at] + s[at + 1..]
  }

  function With<T>(s: seq<T>, at: nat, x: T): (r: seq<T>)
    requires at <= |s|
    ensures |r| == |s| + 1
    ensures forall i :: 0 <= i < at ==> r[i] == s[i]
    ensures r[at] == x
    ensures forall i :: at < i < |r| ==> r[i] == s[i - 1]
  {
    s[..at] + [x] + s[at..]
  }

  /** The numbers 0 to n - 1, each once. */
  predicate Ages(ids: seq<int>) {
    && (forall i :: 0 <= i < |ids| ==> 0 <= ids[i] < |ids|)
    && (forall i, j :: 0 <= i < j < |ids| ==> ids[i] != ids[j])
    && (forall a :: 0 <= a < |ids| ==> a in ids)
  }

  /** The values of a window, oldest first, in ascending order, each with its age rank. */
  predicate Arranged(vals: seq<real>, ids: seq<int>, window: seq<real>) {
    && |vals| == |ids| == |window|
    && Sorted(vals) && Ages(ids)
    && forall i :: 0 <= i < |vals| ==> vals[i] == window[ids[i]]
  }

  /** The age ranks after the oldest is gone. */
  function Younger(ids: seq<int>): (r: seq<int>)
    ensures |r| == |ids| && forall i :: 0 <= i < |r| ==> r[i] == ids[i] - 1
  {
    seq(|ids|, i requires 0 <= i < |ids| => ids[i] - 1)
  }

  /** Where a value belongs: behind the smaller ones. */
  predicate Belongs(vals: seq<real>, at: nat, v: real) {
    && at <= |vals|
    && (forall i :: 0 <= i < at ==> vals[i] < v)
    && (forall i :: at <= i < |vals| ==> v <= vals[i])
  }

  lemma SortedWith(vals: seq<real>, at: nat, v: real)
    requires Sorted(vals) && Belongs(vals, at, v)
    ensures Sorted(With(vals, at, v))
  {
  }

  lemma AgesWith(ids: seq<int>, at: nat)
    requires Ages(ids) && at <= |ids|
    ensures Ages(With(ids, at, |ids|))
  {
    var r := With(ids, at, |ids|);
    forall a | 0 <= a < |r|
      ensures a in r
    {
      if a == |ids| {
        assert r[at] == a;
      } else {
        assert a in ids;
        var i :| 0 <= i < |ids| && ids[i] == a;
        assert r[if i < at then i else i + 1] == a;
      }
    }
  }

  /** A value joins. */
  lemma ArrangedWith(vals: seq<real>, ids: seq<int>, window: seq<real>, at: nat, v: real)
    requires Arranged(vals, ids, window) && Belongs(vals, at, v)
    ensures Arranged(With(vals, at, v), With(ids, at, |ids|), window + [v])
  {
    hide Ages, Sorted;
    SortedWith(vals, at, v);
    AgesWith(ids, at);
    IdsInRange(ids);
  }

  lemma IdsInRange(ids: seq<int>)
    requires Ages(ids)
    ensures forall i :: 0 <= i < |ids| ==> 0 <= ids[i] < |ids|
  {
  }

  lemma AgesWithout(ids: seq<int>, at: nat)
    requires Ages(ids) && at < |ids| && ids[at] == 0
    ensures Ages(Younger(Without(ids, at)))
  {
    var w := Without(ids, at);
    var r := Younger(w);
    assert forall i :: 0 <= i < |w| ==> w[i] == ids[if i < at then i else i + 1];
    assert forall i :: 0 <= i < |ids| && i != at ==> ids[i] != 0;
    forall a | 0 <= a < |r|
      ensures a in r
    {
      assert a + 1 in ids;
      var i :| 0 <= i < |ids| && ids[i] == a + 1;
      assert r[if i < at then i else i - 1] == a;
    }
  }

  lemma SortedWithout(vals: seq<real>, at: nat)
    requires Sorted(vals) && at < |vals|
    ensures Sorted(Without(vals, at))
  {
  }

  /** The oldest leaves. */
  lemma ArrangedWithout(vals: seq<real>, ids: seq<int>, window: seq<real>, at: nat)
    requires Arranged(vals, ids, window) && at < |ids| && ids[at] == 0
    ensures Arranged(Without(vals, at), Younger(Without(ids, at)), window[1..])
  {
    SortedWithout(vals, at);
    AgesWithout(ids, at);
    NoOtherZero(ids, at);
    hide Ages, Sorted;
    var w := Without(ids, at);
    forall i | 0 <= i < |w|
      ensures Without(vals, at)[i] == window[1..][w[i] - 1]
    {
      assert w[i] == ids[if i < at then i else i + 1];
    }
  }

  lemma NoOtherZero(ids: seq<int>, at: nat)
    requires Ages(ids) && at < |ids| && ids[at] == 0
    ensures forall i :: 0 <= i < |ids| && i != at ==> 1 <= ids[i] < |ids|
    ensures forall i :: 0 <= i < |ids| - 1 ==> 1 <= Without(ids, at)[i] < |ids|
  {
  }

  // ----- the median -----

  lemma {:induction false} SameValues(vals: seq<real>, ids: seq<int>, window: seq<real>)
    requires |vals| == |ids| == |window| && Ages(ids)
    requires forall i :: 0 <= i < |vals| ==> vals[i] == window[ids[i]]
    ensures multiset(vals) == multiset(window)
    decreases |window|
  {
    hide Ages, Without, Younger;
    if window != [] {
      var p := ZeroAt(ids);
      AgesWithout(ids, p);
      NoOtherZero(ids, p);
      var w := Without(ids, p);
      forall i | 0 <= i < |w|
        ensures Without(vals, p)[i] == window[1..][Younger(w)[i]]
      {
        assert w[i] == ids[if i < p then i else i + 1];
      }
      SameValues(Without(vals, p), Younger(w), window[1..]);
      TakenOut(vals, p);
      assert window == [window[0]] + window[1..];
    } else {
      assert vals == [];
    }
  }

  lemma ZeroAt(ids: seq<int>) returns (p: nat)
    requires Ages(ids) && ids != []
    ensures p < |ids| && ids[p] == 0
  {
    assert 0 in ids;
    p :| 0 <= p < |ids| && ids[p] == 0;
  }

  lemma TakenOut(s: seq<real>, p: nat)
    requires p < |s|
    ensures multiset(s) == multiset{s[p]} + multiset(Without(s, p))
  {
    assert s == s[..p] + [s[p]] + s[p + 1..];
  }

  /** There is only one way to sort some values. */
  lemma {:induction false} SortedUnique(s: seq<real>, t: seq<real>)
    requires Sorted(s) && Sorted(t) && multiset(s) == multiset(t)
    ensures s == t
    decreases |s|
  {
    hide Sorted;
    SameMembers(s, t);
    if s != [] {
      FirstIsLeast(s, t[0]);
      FirstIsLeast(t, s[0]);
      SameRest(s, t);
      SortedUnique(s[1..], t[1..]);
    }
  }

  lemma SameMembers(s: seq<real>, t: seq<real>)
    requires multiset(s) == multiset(t)
    ensures |s| == |t| && (s != [] ==> s[0] in t && t[0] in s)
  {
    assert |s| == |multiset(s)| == |multiset(t)| == |t|;
    if s != [] {
      assert s[0] in multiset(s) && t[0] in multiset(t);
    }
  }

  lemma SameRest(s: seq<real>, t: seq<real>)
    requires s != [] && t != [] && s[0] == t[0] && multiset(s) == multiset(t)
    ensures s == [s[0]] + s[1..] && t == [t[0]] + t[1..] && multiset(s[1..]) == multiset(t[1..])
  {
    WithoutFirst(s);
    WithoutFirst(t);
  }

  lemma FirstIsLeast(s: seq<real>, x: real)
    requires Sorted(s) && x in s
    ensures s[0] <= x && Sorted(s[1..])
  {
  }

  lemma WithoutFirst(s: seq<real>)
    requires s != []
    ensures s == [s[0]] + s[1..] && multiset(s[1..]) == multiset(s) - multiset{s[0]}
  {
    assert s == [s[0]] + s[1..];
  }

  /** The last n values of a history. */
  function Last(history: seq<real>, n: nat): (w: seq<real>)
    ensures |w| == if |history| < n then |history| else n
  {
    if |history| < n then history else history[|history| - n..]
  }

  class MedianFilter {
    const n: nat
    const val: array<real>
    const ids: array<int>
    var filled: nat
    ghost var history: seq<real>

    ghost predicate Valid()
      reads this, val, ids
    {
      && n >= 1 && val.Length == ids.Length == n && filled <= n
      && Arranged(val[..filled], ids[..filled], Last(history, n))
    }

    constructor (size: nat)
      requires size >= 1
      ensures Valid() && n == size && history == [] && fresh(val) && fresh(ids)
    {
      n := size;
      val := new real[size];
      ids := new int[size];
      filled := 0;
      history := [];
    }

    /** The search for the place of a value. */
    method Place(v: real) returns (at: nat)
      requires Valid()
      ensures Belongs(val[..filled], at, v)
    {
      at := 0;
      while at < filled && val[at] < v
        invariant 0 <= at <= filled && forall i :: 0 <= i < at ==> val[i] < v
      {
        at := at + 1;
      }
    }

    /** The search for the oldest. */
    method Oldest() returns (at: nat)
      requires Valid() && filled == n
      ensures at < n && ids[at] == 0
    {
      at := 0;
      assert 0 in ids[..filled];
      while at < n
        invariant 0 <= at <= n && forall i :: 0 <= i < at ==> ids[i] != 0
      {
        if ids[at] == 0 {
          break;
        }
        at := at + 1;
      }
    }

    /** Both rows moved down by one, into the place at `from`. */
    method MoveDown(from: nat, to: nat)
      requires from <= to < val.Length == ids.Length && val.Length == n
      modifies val, ids
      ensures forall k :: from <= k < to ==> val[k] == old(val[k + 1]) && ids[k] == old(ids[k + 1])
      ensures forall k :: 0 <= k < n && !(from <= k < to) ==> val[k] == old(val[k]) && ids[k] == old(ids[k])
    {
      var i := from;
      while i < to
        invariant from <= i <= to
        invariant forall k :: from <= k < i ==> val[k] == old(val[k + 1]) && ids[k] == old(ids[k + 1])
        invariant forall k :: 0 <= k < n && !(from <= k < i) ==> val[k] == old(val[k]) && ids[k] == old(ids[k])
      {
        val[i] := val[i + 1];
        ids[i] := ids[i + 1];
        i := i + 1;
      }
    }

    /** Both rows moved up by one, into the place at `from`. */
    method MoveUp(from: nat, to: nat)
      requires to <= from < val.Length == ids.Length && val.Length == n
      modifies val, ids
      ensures forall k :: to < k <= from ==> val[k] == old(val[k - 1]) && ids[k] == old(ids[k - 1])
      ensures forall k :: 0 <= k < n && !(to < k <= from) ==> val[k] == old(val[k]) && ids[k] == old(ids[k])
    {
      var i := from;
      while i > to
        invariant to <= i <= from
        invariant forall k :: i < k <= from ==> val[k] == old(val[k - 1]) && ids[k] == old(ids[k - 1])
        invariant forall k :: 0 <= k < n && !(i < k <= from) ==> val[k] == old(val[k]) && ids[k] == old(ids[k])
      {
        val[i] := val[i - 1];
        ids[i] := ids[i - 1];
        i := i - 1;
      }
    }

    method AgeAll()
      requires val.Length == ids.Length == n && filled <= n
      modifies ids
      ensures forall k :: 0 <= k < filled ==> ids[k] == old(ids[k]) - 1
    {
      var i := 0;
      while i < filled
        invariant 0 <= i <= filled
        invariant forall k :: 0 <= k < i ==> ids[k] == old(ids[k]) - 1
        invariant forall k :: i <= k < n ==> ids[k] == old(ids[k])
      {
        ids[i] := ids[i] - 1;
        i := i + 1;
      }
    }

    /** The oldest value makes way for a new one at its place, in a filter that is full. */
    method Replace(insert: nat, v: real)
      requires Valid() && filled == n && Belongs(val[..filled], insert, v)
      modifies val, ids
      ensures Arranged(val[..n], ids[..n], Last(history, n)[1..] + [v])
    {
      hide Ages, Sorted, Belongs, Arranged, Without, With, Younger;
      ghost var vals, ages := val[..n], ids[..n];
      var remove := Oldest();
      BelongsWithout(vals, remove, insert, v);
      var at := insert;
      if at > remove {
        at := at - 1;
      }
      ArrangedIs(vals, ages, Last(history, n));
      ArrangedWithout(vals, ages, Last(history, n), remove);
      ArrangedWith(Without(vals, remove), Younger(Without(ages, remove)), Last(history, n)[1..], at, v);
      PutAt(remove, at, v);
      assert val[..n] == With(Without(vals, remove), at, v);
      assert ids[..n] == With(Younger(Without(ages, remove)), at, n - 1);
    }

    /** The values between the two places move by one, and all are older. */
    method PutAt(remove: nat, at: nat, v: real)
      requires val.Length == ids.Length == n == filled && remove < n && at < n
      modifies val, ids
      ensures val[..n] == With(Without(old(val[..n]), remove), at, v)
      ensures ids[..n] == With(Younger(Without(old(ids[..n]), remove)), at, n - 1)
    {
      hide Without, With, Younger;
      ghost var vals, ages := val[..n], ids[..n];
      if at > remove {
        MoveDown(remove, at);
      } else if at < remove {
        MoveUp(remove, at);
      }
      AgeAll();
      val[at] := v;
      ids[at] := filled - 1;
      Replaced(vals, remove, at, v, val[..n]);
      ReplacedAges(ages, remove, at, n - 1, ids[..n]);
    }

    /** median_filter_update */
    method Update(v: real)
      requires Valid()
      modifies this`filled, this`history, val, ids
      ensures Valid() && history == old(history) + [v]
    {
      hide Ages, Sorted, Belongs, Arranged, Last;
      var insert := Place(v);
      LastGrows(history, n, v);
      PlaceInRange(val[..filled], insert, v);
      ArrangedIs(val[..filled], ids[..filled], Last(history, n));
      if filled == n {
        Replace(insert, v);
      } else {
        Append(insert, v);
      }
      history := history + [v];
    }

    /** A value joins at its place, in a filter that is not full. */
    method Append(insert: nat, v: real)
      requires Valid() && filled < n && Belongs(val[..filled], insert, v)
      modifies this`filled, val, ids
      ensures filled == old(filled) + 1
      ensures Arranged(val[..filled], ids[..filled], Last(history, n) + [v])
    {
      hide Ages, Sorted, Belongs, Arranged, With;
      ghost var vals, ages := val[..filled], ids[..filled];
      PlaceInRange(vals, insert, v);
      ArrangedIs(vals, ages, Last(history, n));
      ArrangedWith(vals, ages, Last(history, n), insert, v);
      MoveUp(filled, insert);
      filled := filled + 1;
      val[insert] := v;
      ids[insert] := filled - 1;
      Inserted(vals, insert, v, val[..filled]);
      Inserted(ages, insert, |ages|, ids[..filled]);
    }

    /** median_filter_get: the upper median of the window, in whatever way it is sorted. */
    method Get() returns (v: real)
      requires Valid() && filled > 0
      ensures forall s :: Sorted(s) && multiset(s) == multiset(Last(history, n)) ==> |s| == filled && v == s[filled / 2]
      ensures Sorted(val[..filled]) && multiset(val[..filled]) == multiset(Last(history, n))
    {
      SameValues(val[..filled], ids[..filled], Last(history, n));
      v := val[filled / 2];
      forall s | Sorted(s) && multiset(s) == multiset(Last(history, n))
        ensures s == val[..filled]
      {
        SortedUnique(s, val[..filled]);
      }
    }
  }

  lemma ArrangedIs(vals: seq<real>, ids: seq<int>, window: seq<real>)
    requires Arranged(vals, ids, window)
    ensures |vals| == |ids| == |window|
  {
  }

  lemma PlaceInRange(vals: seq<real>, at: nat, v: real)
    requires Belongs(vals, at, v)
    ensures at <= |vals|
  {
  }

  lemma LastGrows(history: seq<real>, n: nat, v: real)
    requires n > 0
    ensures |Last(history, n)| < n ==> Last(history + [v], n) == Last(history, n) + [v]
    ensures |Last(history, n)| == n ==> Last(history + [v], n) == Last(history, n)[1..] + [v]
  {
  }

  lemma BelongsWithout(vals: seq<real>, remove: nat, insert: nat, v: real)
    requires Belongs(vals, insert, v) && remove < |vals|
    ensures insert <= |vals| && Belongs(Without(vals, remove), if insert > remove then insert - 1 else insert, v)
  {
  }

  /** One element taken out and another put in, element by element. */
  lemma ReplacedAt<T>(s: seq<T>, from: nat, at: nat, x: T, k: nat)
    requires from < |s| && at < |s| && k < |s|
    ensures With(Without(s, from), at, x)[k]
            == if k == at then x else if from <= k < at then s[k + 1] else if at < k <= from then s[k - 1] else s[k]
  {
    hide With, Without;
    var w := Without(s, from);
    if k < at {
      assert With(w, at, x)[k] == w[k];
    } else if k > at {
      assert With(w, at, x)[k] == w[k - 1];
    }
  }

  lemma Replaced<T>(s: seq<T>, from: nat, at: nat, x: T, t: seq<T>)
    requires from < |s| && at < |s| && |t| == |s| && t[at] == x
    requires forall k :: from <= k < at ==> t[k] == s[k + 1]
    requires forall k :: at < k <= from ==> t[k] == s[k - 1]
    requires forall k :: 0 <= k < |s| && k != at && !(from <= k < at) && !(at < k <= from) ==> t[k] == s[k]
    ensures t == With(Without(s, from), at, x)
  {
    hide With, Without;
    forall k | 0 <= k < |s|
      ensures t[k] == With(Without(s, from), at, x)[k]
    {
      ReplacedAt(s, from, at, x, k);
    }
  }

  lemma ReplacedAges(s: seq<int>, from: nat, at: nat, x: int, t: seq<int>)
    requires from < |s| && at < |s| && |t| == |s| && t[at] == x
    requires forall k :: from <= k < at ==> t[k] == s[k + 1] - 1
    requires forall k :: at < k <= from ==> t[k] == s[k - 1] - 1
    requires forall k :: 0 <= k < |s| && k != at && !(from <= k < at) && !(at < k <= from) ==> t[k] == s[k] - 1
    ensures t == With(Younger(Without(s, from)), at, x)
  {
    hide With, Without, Younger;
    var w := Without(s, from);
    forall k | 0 <= k < |s|
      ensures t[k] == With(Younger(w), at, x)[k]
    {
      ReplacedAt(s, from, at, x + 1, k);
      if k < at {
        assert With(Younger(w), at, x)[k] == Younger(w)[k] && With(w, at, x + 1)[k] == w[k];
      } else if k > at {
        assert With(Younger(w), at, x)[k] == Younger(w)[k - 1] && With(w, at, x + 1)[k] == w[k - 1];
      }
    }
  }

  /** An element put in, element by element. */
  lemma Inserted<T>(s: seq<T>, at: nat, x: T, t: seq<T>)
    requires at <= |s| && |t| == |s| + 1 && t[at] == x
    requires forall k :: 0 <= k < at ==> t[k] == s[k]
    requires forall k :: at < k <= |s| ==> t[k] == s[k - 1]
    ensures t == With(s, at, x)
  {
    hide With;
  }
}
