/** The taps of the adaptive codebook, iaxclient/lib/libspeex/ltp.c, over samples of any kind. */
module Taps {
  /** Sample j of tap i: the excitation pitch + 1 - i samples ago; where that is not in the past,
      one pitch period further back; and silence after two periods. */
  function TapAt<T>(past: seq<T>, zero: T, pitch: nat, i: nat, j: nat): T
    requires i <= 2 && 1 <= pitch && pitch + 1 <= |past|
  {
    var pp := pitch + 1 - i;
    if j < pp then past[|past| + j - pp]
    else if j < pp + pitch then past[|past| + j - pp - pitch]
    else zero
  }

  function Tap<T>(past: seq<T>, zero: T, pitch: nat, i: nat, nsf: nat): (e: seq<T>)
    requires i <= 2 && 1 <= pitch && pitch + 1 <= |past|
    ensures |e| == nsf
    ensures forall j :: 0 <= j < nsf ==> e[j] == TapAt(past, zero, pitch, i, j)
  {
    seq(nsf, j requires 0 <= j < nsf => TapAt(past, zero, pitch, i, j))
  }

  /** The per-sample loop that builds one tap, from an excitation buffer whose subframe starts at o. */
  method BuildTap<T>(buf: array<T>, zero: T, o: nat, pitch: nat, i: nat, nsf: nat) returns (e: array<T>)
    requires i <= 2 && 1 <= pitch && pitch + 1 <= o && o + nsf <= buf.Length
    ensures fresh(e) && e.Length == nsf && e[..] == Tap(buf[..o], zero, pitch, i, nsf)
  {
    e := new T[nsf](_ => zero);
    ghost var past := buf[..o];
    var pp := pitch + 1 - i;
    for j := 0 to nsf
      invariant forall t :: 0 <= t < j ==> e[t] == TapAt(past, zero, pitch, i, t)
      modifies e
    {
      if j < pp {
        e[j] := buf[o + j - pp];
      } else if j < pp + pitch {
        e[j] := buf[o + j - pp - pitch];
      } else {
        e[j] := zero;
      }
    }
  }

  /** The decoder's three copy loops build the same tap as the encoder's per-sample choice. */
  method BuildTapByRanges<T>(buf: array<T>, zero: T, o: nat, pitch: nat, i: nat, nsf: nat) returns (e: array<T>)
    requires i <= 2 && 1 <= pitch && pitch + 1 <= o && o + nsf <= buf.Length
    ensures fresh(e) && e.Length == nsf && e[..] == Tap(buf[..o], zero, pitch, i, nsf)
  {
    e := new T[nsf](_ => zero);
    ghost var past := buf[..o];
    var pp := pitch + 1 - i;
    var tmp1 := nsf;
    if tmp1 > pp {
      tmp1 := pp;
    }
    for j := 0 to tmp1
      invariant forall t :: 0 <= t < j ==> e[t] == TapAt(past, zero, pitch, i, t)
      modifies e
    {
      e[j] := buf[o + j - pp];
    }
    var tmp3 := nsf;
    if tmp3 > pp + pitch {
      tmp3 := pp + pitch;
    }
    for j := tmp1 to tmp3
      invariant forall t :: 0 <= t < j ==> e[t] == TapAt(past, zero, pitch, i, t)
      modifies e
    {
      e[j] := buf[o + j - pp - pitch];
    }
    for j := tmp3 to nsf
      invariant forall t :: 0 <= t < j ==> e[t] == TapAt(past, zero, pitch, i, t)
      modifies e
    {
      e[j] := zero;
    }
  }

  function Same<T>(v: T, n: nat): (s: seq<T>)
    ensures |s| == n && forall i :: 0 <= i < n ==> s[i] == v
  {
    seq(n, _ => v)
  }

  method ClearSubframe<T>(buf: array<T>, zero: T, o: nat, nsf: nat)
    requires o + nsf <= buf.Length
    modifies buf
    ensures buf[o..o + nsf] == Same(zero, nsf)
    ensures buf[..o] == old(buf[..o]) && buf[o + nsf..] == old(buf[o + nsf..])
  {
    for j := 0 to nsf
      invariant forall t :: o <= t < o + j ==> buf[t] == zero
      invariant forall t :: 0 <= t < o || o + nsf <= t < buf.Length ==> buf[t] == old(buf[t])
    {
      buf[o + j] := zero;
    }
  }

  method CopyIn<T>(src: seq<T>, dst: array<T>, o: nat)
    requires o + |src| <= dst.Length
    modifies dst
    ensures dst[o..o + |src|] == src
    ensures dst[..o] == old(dst[..o]) && dst[o + |src|..] == old(dst[o + |src|..])
  {
    for i := 0 to |src|
      invariant forall t :: 0 <= t < i ==> dst[o + t] == src[t]
      invariant forall t :: 0 <= t < o || o + |src| <= t < dst.Length ==> dst[t] == old(dst[t])
    {
      dst[o + i] := src[i];
    }
  }
}
