/** Short lists of best candidates, as the searches of libspeex keep them. */
module NBest {

  /** A candidate: the quantity to minimise, and when it was met. */
  datatype Entry = Entry(key: real, tag: int)

  /** The order of the lists: better first, and among equals the one met first. */
  predicate Before(a: Entry, b: Entry) {
    a.key < b.key || (a.key == b.key && a.tag < b.tag)
  }

  /** Where a new candidate goes: in front of the first entry that is strictly worse. */
  function Place(list: seq<Entry>, e: Entry): (p: nat)
    ensures p <= |list|
    ensures forall i :: 0 <= i < p ==> list[i].key <= e.key
    ensures p < |list| ==> e.key < list[p].key
  {
    if list == [] || e.key < list[0].key then 0 else 1 + Place(list[1..], e)
  }

  /** The list with the candidate put in, kept to n entries. */
  function Insert(list: seq<Entry>, e: Entry, n: nat): (r: seq<Entry>)
    ensures |r| == if |list| + 1 <= n then |list| + 1 else n
  {
    var p := Place(list, e);
    var longer := list[..p] + [e] + list[p..];
    if |longer| <= n then longer else longer[..n]
  }

  /** The short list after all the candidates. */
  function Kept(cands: seq<Entry>, n: nat): (r: seq<Entry>)
    ensures |r| == if |cands| <= n then |cands| else n
  {
    if cands == [] then [] else Insert(Kept(cands[..|cands| - 1], n), cands[|cands| - 1], n)
  }

  /** The insertion, entry by entry. */
  lemma InsertAt(list: seq<Entry>, e: Entry, n: nat, k: nat)
    requires k < |Insert(list, e, n)|
    ensures var p := Place(list, e);
            Insert(list, e, n)[k] == if k < p then list[k] else if k == p then e else list[k - 1]
  {
  }

  /** What is no better than the last of a full list stays out. */
  lemma NotInserted(list: seq<Entry>, e: Entry, n: nat)
    requires 1 <= n == |list| && Ascending(list) && list[n - 1].key <= e.key
    ensures Place(list, e) == n && Insert(list, e, n) == list
  {
    forall i | 0 <= i < n
      ensures list[i].key <= e.key
    {
      assert i == n - 1 || Before(list[i], list[n - 1]);
    }
  }

  ghost predicate MetInOrder(cands: seq<Entry>) {
    forall i, j :: 0 <= i < j < |cands| ==> cands[i].tag < cands[j].tag
  }

  ghost predicate Ascending(list: seq<Entry>) {
    forall i, j :: 0 <= i < j < |list| ==> Before(list[i], list[j])
  }

  /** What makes `list` the n best of `cands`. */
  ghost predicate IsNBest(list: seq<Entry>, cands: seq<Entry>, n: nat) {
    && |list| == (if |cands| <= n then |cands| else n)
    && Ascending(list)
    && (forall e :: e in list ==> e in cands)
    && (forall c, e :: c in cands && c !in list && e in list ==> Before(e, c))
  }

  lemma InsertAscending(list: seq<Entry>, e: Entry, n: nat)
    requires Ascending(list) && forall x :: x in list ==> x.tag < e.tag
    ensures Ascending(Insert(list, e, n))
  {
    var p := Place(list, e);
    forall i | p <= i < |list|
      ensures Before(e, list[i])
    {
      assert i == p || Before(list[p], list[i]);
    }
  }

  lemma InsertContents(list: seq<Entry>, e: Entry, n: nat)
    requires Ascending(list) && |list| <= n && forall x :: x in list ==> x.tag < e.tag
    ensures var r := Insert(list, e, n);
            && (forall x :: x in r ==> x in list || x == e)
            && (forall x, y :: (x in list || x == e) && x !in r && y in r ==> Before(y, x))
  {
    hide Place, Before, Insert, Ascending;
    var longer, r := Insert(list, e, n + 1), Insert(list, e, n);
    InsertIsFront(list, e, n);
    InsertAscending(list, e, n + 1);
    forall x | x in r
      ensures x in list || x == e
    {
      InsertKeeps(list, e, n + 1, x);
    }
    forall x, y | (x in list || x == e) && x !in r && y in r
      ensures Before(y, x)
    {
      InsertKeeps(list, e, n + 1, x);
      InOrder(longer, |r|, y, x);
    }
  }

  lemma InsertIsFront(list: seq<Entry>, e: Entry, n: nat)
    requires |list| <= n
    ensures Insert(list, e, n) == Insert(list, e, n + 1)[..|Insert(list, e, n)|]
  {
    hide Place;
  }

  /** With room for all, the entries are those of the list and the new one. */
  lemma InsertKeeps(list: seq<Entry>, e: Entry, n: nat, x: Entry)
    requires |list| < n
    ensures x in Insert(list, e, n) <==> x in list || x == e
  {
    hide Place;
    var p := Place(list, e);
    assert list == list[..p] + list[p..];
  }

  lemma InOrder(list: seq<Entry>, n: nat, y: Entry, x: Entry)
    requires Ascending(list) && n <= |list| && y in list[..n] && x in list && x !in list[..n]
    ensures Before(y, x)
  {
    hide Before;
    var i :| 0 <= i < n && list[..n][i] == y;
    var j :| 0 <= j < |list| && list[j] == x;
    assert forall k :: 0 <= k < n ==> list[k] == list[..n][k];
  }

  /** A candidate that was already worse than the whole list stays so. */
  lemma StillRejected(list: seq<Entry>, e: Entry, n: nat, c: Entry, y: Entry)
    requires Ascending(list) && |list| == n && y in Insert(list, e, n)
    requires forall x :: x in list ==> Before(x, c) && x.tag < e.tag
    ensures Before(y, c)
  {
    var p := Place(list, e);
    if y !in list {
      var k :| 0 <= k < n && Insert(list, e, n)[k] == y;
      assert k == p && y == e;
      assert Before(list[p], c);
    }
  }

  /** The insertion loop keeps exactly the n best candidates, in order. */
  lemma {:induction false} KeptIsNBest(cands: seq<Entry>, n: nat)
    requires MetInOrder(cands)
    ensures IsNBest(Kept(cands, n), cands, n)
  {
    hide Insert, Kept, IsNBest, MetInOrder;
    if cands == [] {
      NoneIsBest(n);
    } else {
      var before, e := cands[..|cands| - 1], cands[|cands| - 1];
      assert cands == before + [e];
      MetBefore(before, e);
      KeptIsNBest(before, n);
      KeptStep(cands, n);
      OneMoreBest(Kept(before, n), before, e, n);
    }
  }

  lemma NoneIsBest(n: nat)
    ensures IsNBest(Kept([], n), [], n)
  {
  }

  lemma NoneKept(n: nat)
    ensures forall c: seq<Entry> :: |c| == 0 ==> Kept(c, n) == []
  {
  }

  lemma OneMoreKept(cands: seq<Entry>, i: nat, n: nat)
    requires i < |cands|
    ensures Kept(cands[..i + 1], n) == Insert(Kept(cands[..i], n), cands[i], n)
  {
    assert cands[..i + 1][..i] == cands[..i];
  }

  lemma KeptStep(cands: seq<Entry>, n: nat)
    requires cands != []
    ensures Kept(cands, n) == Insert(Kept(cands[..|cands| - 1], n), cands[|cands| - 1], n)
  {
  }

  lemma MetBefore(before: seq<Entry>, e: Entry)
    requires MetInOrder(before + [e])
    ensures MetInOrder(before) && forall x :: x in before ==> x.tag < e.tag
  {
    var cands := before + [e];
    forall i, j | 0 <= i < j < |before|
      ensures before[i].tag < before[j].tag
    {
      assert cands[i] == before[i] && cands[j] == before[j];
    }
    forall x | x in before
      ensures x.tag < e.tag
    {
      var i :| 0 <= i < |before| && before[i] == x;
      assert cands[i] == x && cands[|before|] == e;
    }
  }

  /** One more candidate. */
  lemma OneMoreBest(list: seq<Entry>, before: seq<Entry>, e: Entry, n: nat)
    requires IsNBest(list, before, n) && MetInOrder(before) && forall x :: x in before ==> x.tag < e.tag
    ensures IsNBest(Insert(list, e, n), before + [e], n)
  {
    hide Insert, Kept, Place, Before, Ascending, MetInOrder;
    InsertAscending(list, e, n);
    InsertContents(list, e, n);
    var r := Insert(list, e, n);
    forall c, y | c in before + [e] && c !in r && y in r
      ensures Before(y, c)
    {
      if c != e && c !in list {
        AllKeptWhenRoom(before, list, n, c);
        StillRejected(list, e, n, c, y);
      }
    }
  }

  /** A candidate is left out only of a full list. */
  lemma AllKeptWhenRoom(cands: seq<Entry>, list: seq<Entry>, n: nat, c: Entry)
    requires MetInOrder(cands) && IsNBest(list, cands, n) && c in cands && c !in list
    ensures |list| == n
  {
    if |cands| <= n {
      Distinct(cands);
      Distinct(list);
      var s, t := (set e | e in list), (set e | e in cands);
      assert s + {c} <= t;
      assert |s + {c}| == |s| + 1;
      SetSize(s + {c}, t);
    }
  }

  lemma SetSize(s: set<Entry>, t: set<Entry>)
    requires s <= t
    ensures |s| <= |t|
  {
    if s != {} {
      var x :| x in s;
      SetSize(s - {x}, t - {x});
    }
  }

  lemma {:induction false} Distinct(list: seq<Entry>)
    requires forall i, j :: 0 <= i < j < |list| ==> list[i] != list[j]
    ensures |(set e | e in list)| == |list|
  {
    if list != [] {
      var r, e := list[..|list| - 1], list[|list| - 1];
      Distinct(r);
      assert (set x | x in list) == (set x | x in r) + {e};
    }
  }

  /** There is only one list of the n best. */
  lemma {:induction false} NBestIsUnique(a: seq<Entry>, b: seq<Entry>, cands: seq<Entry>, n: nat)
    requires IsNBest(a, cands, n) && IsNBest(b, cands, n)
    ensures a == b
  {
    if i :| 0 <= i < |a| && a[i] != b[i] {
      FirstDifference(a, b, cands, n, |a|);
    }
  }

  lemma {:induction false} FirstDifference(a: seq<Entry>, b: seq<Entry>, cands: seq<Entry>, n: nat, m: nat)
    requires IsNBest(a, cands, n) && IsNBest(b, cands, n) && m <= |a|
    ensures a[..m] == b[..m]
  {
    if m > 0 {
      FirstDifference(a, b, cands, n, m - 1);
      var x, y := a[m - 1], b[m - 1];
      if x != y {
        if Before(y, x) {
          NotLater(b, a, cands, n, m - 1);
        } else {
          NotLater(a, b, cands, n, m - 1);
        }
      }
      assert a[..m] == a[..m - 1] + [x] && b[..m] == b[..m - 1] + [y];
    }
  }

  /** If two lists agree up to i, the second cannot have something worse there. */
  lemma NotLater(a: seq<Entry>, b: seq<Entry>, cands: seq<Entry>, n: nat, i: nat)
    requires IsNBest(a, cands, n) && IsNBest(b, cands, n) && i < |a|
    requires a[..i] == b[..i] && a[i] != b[i]
    ensures Before(b[i], a[i])
  {
    var x := a[i];
    assert x in cands;
    if x in b {
      forall k | 0 <= k < i
        ensures b[k] != x
      {
        assert a[k] == a[..i][k] == b[..i][k] == b[k];
        assert Before(a[k], a[i]);
      }
      var j :| 0 <= j < |b| && b[j] == x;
      assert i < j;
    } else {
      assert b[i] in b;
    }
  }
}
