/** The adaptive jitter buffer of iaxclient/lib/libspeex/jitter.c. Decoding is a parameter: whether the
    packet at hand decodes. */
module Jitter {
  const BufferSlots := 20
  const MaxPacket := 1500
  const Margins := 12
  const LateBins := 4

  // ----- histograms -----

  function Sum(s: seq<real>): real {
    if s == [] then 0.0 else s[0] + Sum(s[1..])
  }

  predicate NonNegative(s: seq<real>) {
    forall i :: 0 <= i < |s| ==> s[i] >= 0.0
  }

  lemma {:induction false} SumAppend(s: seq<real>, t: seq<real>)
    ensures Sum(s + t) == Sum(s) + Sum(t)
  {
    if s == [] {
      assert s + t == t;
    } else {
      assert (s + t)[1..] == s[1..] + t;
      SumAppend(s[1..], t);
    }
  }

  function Times(a: real, b: real): real {
    a * b
  }

  function Scaled(s: seq<real>, c: real): (r: seq<real>)
    ensures |r| == |s| && forall i :: 0 <= i < |r| ==> r[i] == Times(s[i], c)
  {
    seq(|s|, i requires 0 <= i < |s| => Times(s[i], c))
  }

  lemma {:induction false} SumScaled(s: seq<real>, c: real)
    ensures Sum(Scaled(s, c)) == Times(Sum(s), c)
  {
    hide Times, Scaled;
    TimesNothing(c);
    if s != [] {
      SumScaled(s[1..], c);
      var t := Scaled(s, c);
      forall i | 0 <= i < |s| - 1
        ensures t[1..][i] == Scaled(s[1..], c)[i]
      {
        assert t[1..][i] == t[i + 1];
      }
      assert t[1..] == Scaled(s[1..], c);
      Distributes(s[0], Sum(s[1..]), c);
    }
  }

  lemma TimesNothing(c: real)
    ensures Times(0.0, c) == 0.0
  {
  }

  lemma Distributes(a: real, b: real, c: real)
    ensures Times(a + b, c) == Times(a, c) + Times(b, c)
  {
  }

  lemma {:induction false} SumUpdate(s: seq<real>, at: nat, x: real)
    requires at < |s|
    ensures Sum(s[at := s[at] + x]) == Sum(s) + x
  {
    var t := s[at := s[at] + x];
    if at == 0 {
      assert t[1..] == s[1..];
    } else {
      SumUpdate(s[1..], at - 1, x);
      assert t[1..] == s[1..][at - 1 := s[1..][at - 1] + x];
    }
  }

  /** A histogram after one more arrival: everything decays, and the arrival makes up for it. */
  function Counted(s: seq<real>, decay: real, bin: nat): seq<real>
    requires bin < |s|
  {
    var t := Scaled(s, decay);
    t[bin := t[bin] + (1.0 - decay)]
  }

  /** A histogram after an arrival in a bin, or in none. */
  function Arrived(s: seq<real>, decay: real, bin: int): seq<real>
    requires bin < |s|
  {
    if bin < 0 then s else Counted(s, decay, bin)
  }

  /** Every bin one up; what was in the top bin is lost. */
  function ShiftedUp(s: seq<real>): seq<real>
    requires |s| == Margins
  {
    [0.0] + s[..Margins - 1]
  }

  /** Every bin one down, the two lowest together. */
  function ShiftedDown(s: seq<real>): seq<real>
    requires |s| == Margins
  {
    [s[0] + s[1]] + s[2..] + [0.0]
  }

  /** A histogram that has counted nothing. */
  function NoArrivals(): seq<real> {
    seq(Margins, _ => 0.0)
  }

  predicate IsHistogram(s: seq<real>) {
    |s| == Margins && NonNegative(s) && Sum(s) <= 1.0
  }

  lemma CountedIsHistogram(s: seq<real>, decay: real, bin: nat)
    requires IsHistogram(s) && bin < Margins && 0.0 <= decay <= 1.0
    ensures IsHistogram(Counted(s, decay, bin))
    ensures Sum(Counted(s, decay, bin)) == Times(Sum(s), decay) + (1.0 - decay)
  {
    hide Times, Scaled, Sum;
    SumScaled(s, decay);
    SumUpdate(Scaled(s, decay), bin, 1.0 - decay);
    ScaledAtMost(Sum(s), decay);
    forall i | 0 <= i < Margins
      ensures Scaled(s, decay)[i] >= 0.0
    {
      Product(s[i], decay);
    }
  }

  lemma Product(a: real, b: real)
    requires a >= 0.0 && b >= 0.0
    ensures Times(a, b) >= 0.0
  {
  }

  lemma ScaledAtMost(a: real, c: real)
    requires a <= 1.0 && 0.0 <= c
    ensures Times(a, c) <= c
  {
    Product(1.0 - a, c);
  }

  /** Making room for lost packets drops what was in the top bin, and nothing else. */
  lemma ShiftUpLoses(s: seq<real>)
    requires |s| == Margins
    ensures Sum(ShiftedUp(s)) == Sum(s) - s[Margins - 1]
    ensures Sum(ShiftedUp(s)) == Sum(s) <==> s[Margins - 1] == 0.0
    ensures IsHistogram(s) ==> IsHistogram(ShiftedUp(s))
  {
    assert s == s[..Margins - 1] + [s[Margins - 1]];
    SumAppend(s[..Margins - 1], [s[Margins - 1]]);
    SumAppend([0.0], s[..Margins - 1]);
    SumOne(0.0);
    SumOne(s[Margins - 1]);
  }

  lemma SumOne(x: real)
    ensures Sum([x]) == x
  {
    assert [x][1..] == [];
  }

  /** Dropping a frame keeps the total exactly. */
  lemma ShiftDownKeeps(s: seq<real>)
    requires |s| == Margins
    ensures Sum(ShiftedDown(s)) == Sum(s)
    ensures IsHistogram(s) ==> IsHistogram(ShiftedDown(s))
  {
    hide Sum;
    assert s == [s[0]] + ([s[1]] + s[2..]);
    SumAppend([s[0]], [s[1]] + s[2..]);
    SumAppend([s[1]], s[2..]);
    SumAppend([s[0] + s[1]], s[2..]);
    SumAppend([s[0] + s[1]] + s[2..], [0.0]);
    SumOne(s[0]);
    SumOne(s[1]);
    SumOne(s[0] + s[1]);
    SumOne(0.0);
  }

  /** The loops of the first branch of get, on one histogram. */
  method ShiftUp(a: array<real>)
    requires a.Length == Margins
    modifies a
    ensures a[..] == ShiftedUp(old(a[..]))
  {
    a[Margins - 1] := a[Margins - 1] + a[Margins - 2];
    var i := Margins - 2;
    while i >= 0
      invariant -1 <= i <= Margins - 2
      invariant forall k :: i + 2 <= k < Margins ==> a[k] == old(a[k - 1])
      invariant forall k :: 0 <= k <= i + 1 && k < Margins - 1 ==> a[k] == old(a[k])
    {
      a[i + 1] := a[i];
      i := i - 1;
    }
    a[0] := 0.0;
  }

  /** The loops of the second branch. */
  method ShiftDown(a: array<real>)
    requires a.Length == Margins
    modifies a
    ensures a[..] == ShiftedDown(old(a[..]))
  {
    a[0] := a[0] + a[1];
    var i := 1;
    while i < Margins - 1
      invariant 1 <= i <= Margins - 1 && a[0] == old(a[0] + a[1])
      invariant forall k :: 1 <= k < i ==> a[k] == old(a[k + 1])
      invariant forall k :: i <= k < Margins ==> a[k] == old(a[k])
    {
      a[i] := a[i + 1];
      i := i + 1;
    }
    a[Margins - 1] := 0.0;
  }

  method Count(a: array<real>, decay: real, bin: nat)
    requires a.Length == Margins && bin < Margins
    modifies a
    ensures a[..] == Counted(old(a[..]), decay, bin)
  {
    hide Times, Scaled;
    var i := 0;
    while i < Margins
      invariant 0 <= i <= Margins
      invariant forall k :: 0 <= k < i ==> a[k] == Times(old(a[k]), decay)
      invariant forall k :: i <= k < Margins ==> a[k] == old(a[k])
    {
      a[i] := Times(a[i], decay);
      i := i + 1;
    }
    assert a[..] == Scaled(old(a[..]), decay);
    a[bin] := a[bin] + (1.0 - decay);
  }

  method Clear(a: array<real>)
    requires a.Length == Margins
    modifies a
    ensures a[..] == NoArrivals() && IsHistogram(a[..])
  {
    var i := 0;
    while i < Margins
      invariant 0 <= i <= Margins && forall k :: 0 <= k < i ==> a[k] == 0.0
    {
      a[i] := 0.0;
      i := i + 1;
    }
    ZeroSum(a[..]);
  }

  lemma {:induction false} ZeroSum(s: seq<real>)
    requires forall i :: 0 <= i < |s| ==> s[i] == 0.0
    ensures Sum(s) == 0.0
  {
    if s != [] {
      ZeroSum(s[1..]);
    }
  }

  method SumRange(a: array<real>, from: nat, to: nat) returns (t: real)
    requires from <= to <= a.Length
    ensures t == Sum(a[from..to])
  {
    t := 0.0;
    var i := from;
    while i < to
      invariant from <= i <= to && t == Sum(a[from..i])
    {
      assert a[from..i + 1] == a[from..i] + [a[i]];
      SumAppend(a[from..i], [a[i]]);
      SumOne(a[i]);
      t := t + a[i];
      i := i + 1;
    }
  }

  // ----- slots -----

  /** The lengths after packets from before the pointer are dropped. */
  function Cleaned(time: seq<int>, len: seq<int>, pointer: int): (r: seq<int>)
    requires |time| == |len|
    ensures |r| == |len| && forall i :: 0 <= i < |r| ==> r[i] == if time[i] < pointer then -1 else len[i]
  {
    seq(|len|, i requires 0 <= i < |len| => if time[i] < pointer then -1 else len[i])
  }

  /** The slot for a new packet: the first empty one, or else the first of the earliest. */
  predicate SlotFor(time: seq<int>, len: seq<int>, slot: nat) {
    && slot < |time| == |len|
    && ((len[slot] == -1 && forall i :: 0 <= i < slot ==> len[i] != -1)
        || ((forall i :: 0 <= i < |len| ==> len[i] != -1)
            && (forall i :: 0 <= i < |time| ==> time[slot] <= time[i])
            && (forall i :: 0 <= i < slot ==> time[slot] < time[i])))
  }

  /** The slot whose packet is due. */
  predicate Due(time: seq<int>, len: seq<int>, pointer: int, slot: nat) {
    slot < |time| == |len| && len[slot] != -1 && time[slot] == pointer
  }

  /** Which put each packet still in a slot came from, and which puts have been decoded from their slots:
      no put is in two places. */
  ghost predicate Traced(len: seq<int>, from: seq<nat>, taken: seq<nat>, puts: nat) {
    && |len| == |from| == BufferSlots
    && (forall i :: 0 <= i < BufferSlots && len[i] != -1 ==> from[i] < puts && from[i] !in taken)
    && (forall i, j :: 0 <= i < j < BufferSlots && len[i] != -1 && len[j] != -1 ==> from[i] != from[j])
    && (forall n :: n in taken ==> n < puts)
    && (forall i, j :: 0 <= i < j < |taken| ==> taken[i] != taken[j])
  }

  ghost predicate Increasing(s: seq<int>) {
    forall i, j :: 0 <= i < j < |s| ==> s[i] < s[j]
  }

  /** Emptied slots leave no trace. */
  lemma TracedEmptied(len: seq<int>, next: seq<int>, from: seq<nat>, taken: seq<nat>, puts: nat)
    requires Traced(len, from, taken, puts) && |next| == |len|
    requires forall i :: 0 <= i < |len| ==> next[i] == len[i] || next[i] == -1
    ensures Traced(next, from, taken, puts)
  {
  }

  lemma TracedPut(len: seq<int>, from: seq<nat>, taken: seq<nat>, puts: nat, slot: nat, n: int)
    requires Traced(len, from, taken, puts) && slot < BufferSlots
    ensures Traced(len[slot := n], from[slot := puts], taken, puts + 1)
  {
  }

  lemma TracedTaken(len: seq<int>, from: seq<nat>, taken: seq<nat>, puts: nat, slot: nat)
    requires Traced(len, from, taken, puts) && slot < BufferSlots && len[slot] != -1
    ensures Traced(len[slot := -1], from, taken + [from[slot]], puts)
  {
  }

  lemma IncreasingNext(s: seq<int>, x: int)
    requires Increasing(s) && forall t :: t in s ==> t < x
    ensures Increasing(s + [x])
  {
    forall i, j | 0 <= i < j < |s| + 1
      ensures (s + [x])[i] < (s + [x])[j]
    {
      if j == |s| {
        assert s[i] in s;
      }
    }
  }

  /** What a call of get delivers. */
  datatype Played = Interpolated | Silence | FromSlot(slot: nat) | Broken(slot: nat) | Continued | Lost

  const BufferSize := 4

  class JitterBuffer {
    const frameTime: int
    const buf: array<seq<bv8>>
    const timestamp: array<int>
    const len: array<int>
    const shortMargin: array<real>
    const longMargin: array<real>
    var pointer: int
    var validBits: bool
    var resetState: bool
    var lostCount: nat
    ghost var puts: nat
    ghost var from: seq<nat>
    ghost var taken: seq<nat>
    ghost var played: seq<int>   // since the last reset

    ghost predicate Shape() {
      && frameTime > 0
      && buf.Length == timestamp.Length == len.Length == BufferSlots && timestamp != len
      && shortMargin.Length == longMargin.Length == Margins && shortMargin != longMargin
    }

    ghost predicate Valid()
      reads this, buf, timestamp, len, shortMargin, longMargin
    {
      && Shape()
      && (puts == 0 ==> resetState)
      && (puts > 0 ==> IsHistogram(shortMargin[..]) && IsHistogram(longMargin[..]))
      && Traced(len[..], from, taken, puts)
      && Increasing(played) && (forall t :: t in played ==> t <= pointer)
      && lostCount < 25
    }

    /** speex_jitter_init, which leaves the histograms as they are. */
    constructor (frame: int)
      requires frame > 0
      ensures Valid() && resetState && puts == 0 && pointer == -frame * BufferSize && frameTime == frame
      ensures fresh(buf) && fresh(timestamp) && fresh(len) && fresh(shortMargin) && fresh(longMargin)
    {
      frameTime := frame;
      buf := new seq<bv8>[BufferSlots](_ => []);
      timestamp := new int[BufferSlots](_ => -1);
      len := new int[BufferSlots](_ => -1);
      shortMargin := new real[Margins];
      longMargin := new real[Margins];
      validBits := false;
      pointer := -frame * BufferSize;
      resetState := true;
      lostCount := 0;
      puts, from, taken, played := 0, seq(BufferSlots, _ => 0), [], [];
    }

    /** The reset at the first packet after one was asked for. */
    method Restart(time: int)
      requires Shape() && Traced(len[..], from, taken, puts)
      modifies this`resetState, this`pointer, this`played, timestamp, len, shortMargin, longMargin
      ensures !resetState && pointer == time - frameTime * BufferSize && played == []
      ensures shortMargin[..] == NoArrivals() && longMargin[..] == NoArrivals()
      ensures IsHistogram(shortMargin[..]) && IsHistogram(longMargin[..])
      ensures forall i :: 0 <= i < BufferSlots ==> timestamp[i] == -1 && len[i] == -1
      ensures Traced(len[..], from, taken, puts)
    {
      hide IsHistogram, Traced;
      ghost var was := len[..];
      resetState := false;
      pointer := time - frameTime * BufferSize;
      Clear(shortMargin);
      ghost var s := shortMargin[..];
      Clear(longMargin);
      ghost var l := longMargin[..];
      assert shortMargin[..] == s;
      var i := 0;
      while i < BufferSlots
        invariant 0 <= i <= BufferSlots
        invariant forall k :: 0 <= k < i ==> timestamp[k] == -1 && len[k] == -1
        modifies timestamp, len
      {
        len[i] := -1;
        timestamp[i] := -1;
        i := i + 1;
      }
      TracedLength(was, from, taken, puts);
      TracedEmptied(was, len[..], from, taken, puts);
      played := [];
      assert shortMargin[..] == s && longMargin[..] == l;
    }

    /** Packets that were not played in time are dropped. */
    method CleanUp()
      requires Shape()
      modifies len
      ensures len[..] == Cleaned(timestamp[..], old(len[..]), pointer)
    {
      var i := 0;
      while i < BufferSlots
        invariant 0 <= i <= BufferSlots
        invariant forall k :: 0 <= k < i ==> len[k] == if timestamp[k] < pointer then -1 else old(len[k])
        invariant forall k :: i <= k < BufferSlots ==> len[k] == old(len[k])
      {
        if timestamp[i] < pointer {
          len[i] := -1;
        }
        i := i + 1;
      }
    }

    method FindSlot() returns (slot: nat)
      requires Shape()
      ensures SlotFor(timestamp[..], len[..], slot)
    {
      slot := 0;
      while slot < BufferSlots
        invariant 0 <= slot <= BufferSlots && forall k :: 0 <= k < slot ==> len[k] != -1
      {
        if len[slot] == -1 {
          return;
        }
        slot := slot + 1;
      }
      var earliest := timestamp[0];
      slot := 0;
      var j := 1;
      while j < BufferSlots
        invariant 1 <= j <= BufferSlots && slot < j && earliest == timestamp[slot]
        invariant forall k :: 0 <= k < j ==> timestamp[slot] <= timestamp[k]
        invariant forall k :: 0 <= k < slot ==> timestamp[slot] < timestamp[k]
      {
        if timestamp[j] < earliest {
          earliest := timestamp[j];
          slot := j;
        }
        j := j + 1;
      }
    }

    /** Both histograms count an arrival that is not too late. */
    method CountArrival(time: int)
      requires Shape() && IsHistogram(shortMargin[..]) && IsHistogram(longMargin[..])
      modifies shortMargin, longMargin
      ensures IsHistogram(shortMargin[..]) && IsHistogram(longMargin[..])
      ensures var bin := Bin(time - pointer - frameTime, frameTime);
              && shortMargin[..] == Arrived(old(shortMargin[..]), 0.98, bin)
              && longMargin[..] == Arrived(old(longMargin[..]), 0.995, bin)
    {
      hide IsHistogram, Counted;
      var margin := time - pointer - frameTime;
      if margin >= -LateBins * frameTime {
        var bin := Bin(margin, frameTime);
        ghost var s, l := shortMargin[..], longMargin[..];
        CountedIsHistogram(s, 0.98, bin);
        CountedIsHistogram(l, 0.995, bin);
        Count(shortMargin, 0.98, bin);
        assert longMargin[..] == l;
        Count(longMargin, 0.995, bin);
        assert shortMargin[..] == Counted(s, 0.98, bin) && longMargin[..] == Counted(l, 0.995, bin);
      }
    }

    /** speex_jitter_put */
    method Put(packet: seq<bv8>, time: int) returns (slot: nat)
      requires Valid()
      modifies this, buf, timestamp, len, shortMargin, longMargin
      ensures Valid() && !resetState
      ensures pointer == if old(resetState) then time - frameTime * BufferSize else old(pointer)
      // What is stored, and where.
      ensures slot < BufferSlots && timestamp[slot] == time && len[slot] == |buf[slot]|
      ensures buf[slot] == if |packet| > MaxPacket then packet[..MaxPacket] else packet
      ensures var none := seq(BufferSlots, _ => -1);
              var times := if old(resetState) then none else old(timestamp[..]);
              var kept := Cleaned(times, if old(resetState) then none else old(len[..]), pointer);
              && SlotFor(times, kept, slot)
              && timestamp[..] == times[slot := time]
              && len[..] == kept[slot := |buf[slot]|]
      ensures forall k :: 0 <= k < BufferSlots && k != slot ==> buf[k] == old(buf[k])
      // The arrival is counted, unless it is far too late.
      ensures var bin := Bin(time - pointer - frameTime, frameTime);
              && shortMargin[..] == Arrived(if old(resetState) then NoArrivals() else old(shortMargin[..]), 0.98, bin)
              && longMargin[..] == Arrived(if old(resetState) then NoArrivals() else old(longMargin[..]), 0.995, bin)
      // The trace of the run.
      ensures puts == old(puts) + 1 && from == old(from)[slot := old(puts)] && taken == old(taken)
      ensures played == if old(resetState) then [] else old(played)
    {
      hide IsHistogram, Traced, Arrived, SlotFor, Cleaned, Increasing, NoArrivals;
      if resetState {
        Restart(time);
        EmptyIncreasing();
        assert len[..] == seq(BufferSlots, _ => -1) && timestamp[..] == seq(BufferSlots, _ => -1);
      }
      ghost var times, lens := timestamp[..], len[..];
      CleanUp();
      TracedCleaned(times, lens, pointer, from, taken, puts);
      slot := FindSlot();
      SlotInRange(timestamp[..], len[..], slot);
      ghost var kept := len[..];
      TracedLength(kept, from, taken, puts);
      var n := if |packet| > MaxPacket then MaxPacket else |packet|;
      buf[slot] := packet[..n];
      timestamp[slot] := time;
      len[slot] := n;
      assert len[..] == kept[slot := n] && timestamp[..] == times[slot := time];
      TracedPut(kept, from, taken, puts, slot, n);
      CountArrival(time);
      from := from[slot := puts];
      puts := puts + 1;
    }

    /** What the two histograms say: late, on time, early. */
    method Ratios(a: array<real>) returns (late: real, ontime: real, early: real)
      requires a.Length == Margins
      ensures late == Late(a[..]) && ontime == a[LateBins] && early == Early(a[..])
    {
      late := SumRange(a, 0, LateBins);
      ontime := a[LateBins];
      early := SumRange(a, LateBins + 1, Margins);
      assert a[0..LateBins] == a[..][..LateBins] && a[LateBins + 1..Margins] == a[..][LateBins + 1..];
    }

    method FindDue() returns (slot: nat)
      requires Shape()
      ensures slot <= BufferSlots
      ensures slot < BufferSlots ==> Due(timestamp[..], len[..], pointer, slot)
      ensures forall k :: 0 <= k < slot ==> !Due(timestamp[..], len[..], pointer, k)
    {
      slot := 0;
      while slot < BufferSlots
        invariant 0 <= slot <= BufferSlots
        invariant forall k :: 0 <= k < slot ==> !Due(timestamp[..], len[..], pointer, k)
      {
        if len[slot] != -1 && timestamp[slot] == pointer {
          return;
        }
        slot := slot + 1;
      }
    }

    /** The packet of a slot is decoded, and leaves the slot. */
    method TakeSlot(slot: nat)
      requires Valid() && slot < BufferSlots && Due(timestamp[..], len[..], pointer, slot)
      requires forall t :: t in played ==> t < pointer
      modifies this`taken, this`played, this`lostCount, len
      ensures Valid() && lostCount == 0
      ensures len[..] == old(len[..])[slot := -1]
      ensures taken == old(taken) + [from[slot]] && played == old(played) + [pointer]
    {
      hide IsHistogram, Traced, Increasing;
      ghost var lens := len[..];
      TracedLength(lens, from, taken, puts);
      TracedTaken(lens, from, taken, puts, slot);
      IncreasingNext(played, pointer);
      len[slot] := -1;
      assert len[..] == lens[slot := -1];
      taken := taken + [from[slot]];
      played := played + [pointer];
      lostCount := 0;
    }

    /** speex_jitter_get. `ok`: whether the packet at hand decodes. */
    method Get(ok: bool) returns (out: Played)
      requires Valid()
      modifies this`pointer, this`validBits, this`resetState, this`lostCount, this`taken, this`played,
               len, shortMargin, longMargin
      ensures Valid()
      // The pointer and the histograms.
      ensures var s, l := old(shortMargin[..]), old(longMargin[..]);
              if TooLate(s, l) then
                && out == Interpolated && pointer == old(pointer)
                && shortMargin[..] == ShiftedUp(s) && longMargin[..] == ShiftedUp(l)
              else if TooEarly(s, l) then
                && pointer == old(pointer) + 2 * frameTime
                && shortMargin[..] == ShiftedDown(s) && longMargin[..] == ShiftedDown(l)
              else
                pointer == old(pointer) + frameTime && shortMargin[..] == s && longMargin[..] == l
      // The same in bins: no frame is taken while too many packets are late, two while hardly any is late or on time.
      ensures var s, l := old(shortMargin[..]), old(longMargin[..]);
              && (pointer == old(pointer) <==> s[0] + s[1] + s[2] + s[3] > 0.1 || l[0] + l[1] + l[2] + l[3] > 0.03)
              && (pointer == old(pointer) + 2 * frameTime <==>
                    && s[0] + s[1] + s[2] + s[3] <= 0.1 && l[0] + l[1] + l[2] + l[3] <= 0.03
                    && s[0] + s[1] + s[2] + s[3] + s[4] < 0.005 && l[0] + l[1] + l[2] + l[3] + l[4] < 0.01
                    && s[5] + s[6] + s[7] + s[8] + s[9] + s[10] + s[11] > 0.8)
      // What is played: the first packet due, taken from its slot, or something in its place.
      ensures match out
              case FromSlot(i) => ok && validBits && FirstDue(timestamp[..], old(len[..]), pointer, i)
              case Broken(i) => !ok && validBits == old(validBits) && FirstDue(timestamp[..], old(len[..]), pointer, i)
              case Interpolated => TooLate(old(shortMargin[..]), old(longMargin[..])) && validBits == old(validBits)
              case Silence => pointer < 0 && validBits == old(validBits)
              case Continued => ok && old(validBits) && validBits && pointer >= 0 && NoneDue(timestamp[..], len[..], pointer)
              case Lost => !validBits && !(ok && old(validBits)) && pointer >= 0 && NoneDue(timestamp[..], len[..], pointer)
      ensures if out.FromSlot? || out.Broken? then
                && len[..] == old(len[..])[out.slot := -1]
                && taken == old(taken) + [from[out.slot]] && played == old(played) + [pointer]
              else
                len[..] == old(len[..]) && taken == old(taken) && played == old(played)
      // A reset is asked for after 25 losses in a row.
      ensures lostCount == if out.Lost? then (if old(lostCount) == 24 then 0 else old(lostCount) + 1)
                           else if out.Interpolated? || out.Silence? then old(lostCount) else 0
      ensures resetState == (old(resetState) || (out.Lost? && old(lostCount) == 24))
    {
      hide IsHistogram, Traced, Increasing, ShiftedUp, ShiftedDown, Late, Early, Sum;
      Shares(shortMargin[..]);
      Shares(longMargin[..]);
      var late := Steer();
      if late {
        return Interpolated;
      }
      if pointer < 0 {
        return Silence;
      }
      var slot := FindDue();
      if slot == BufferSlots {
        if validBits {
          if ok {
            lostCount := 0;
            return Continued;
          }
          validBits := false;
        }
        lostCount := lostCount + 1;
        if lostCount >= 25 {
          lostCount := 0;
          resetState := true;
        }
        return Lost;
      }
      TakeSlot(slot);
      if ok {
        validBits := true;
        return FromSlot(slot);
      }
      return Broken(slot);
    }

    /** The first part of get: too many late packets hold the pointer back, too many early ones make it
        skip a frame. */
    method Steer() returns (late: bool)
      requires Valid()
      modifies this`pointer, shortMargin, longMargin
      ensures Valid() && timestamp[..] == old(timestamp[..]) && len[..] == old(len[..])
      ensures !late ==> forall t :: t in played ==> t < pointer
      ensures var s, l := old(shortMargin[..]), old(longMargin[..]);
              && late == TooLate(s, l)
              && if late then
                   pointer == old(pointer) && shortMargin[..] == ShiftedUp(s) && longMargin[..] == ShiftedUp(l)
                 else if TooEarly(s, l) then
                   && pointer == old(pointer) + 2 * frameTime
                   && shortMargin[..] == ShiftedDown(s) && longMargin[..] == ShiftedDown(l)
                 else
                   pointer == old(pointer) + frameTime && shortMargin[..] == s && longMargin[..] == l
    {
      hide IsHistogram, Traced, Increasing, ShiftedUp, ShiftedDown, Late, Early, Sum;
      ghost var s, l := shortMargin[..], longMargin[..];
      ShiftUpLoses(s);
      ShiftUpLoses(l);
      ShiftDownKeeps(s);
      ShiftDownKeeps(l);
      var lateShort, ontimeShort, earlyShort := Ratios(shortMargin);
      var lateLong, ontimeLong, earlyLong := Ratios(longMargin);
      if lateShort > 0.1 || lateLong > 0.03 {
        ShiftUp(shortMargin);
        assert longMargin[..] == l;
        ShiftUp(longMargin);
        assert shortMargin[..] == ShiftedUp(s);
        return true;
      }
      pointer := pointer + frameTime;
      if lateShort + ontimeShort < 0.005 && lateLong + ontimeLong < 0.01 && earlyShort > 0.8 {
        ShiftDown(shortMargin);
        assert longMargin[..] == l;
        ShiftDown(longMargin);
        assert shortMargin[..] == ShiftedDown(s);
        pointer := pointer + frameTime;
      }
      return false;
    }
  }

  function Late(s: seq<real>): real
    requires |s| == Margins
  {
    Sum(s[..LateBins])
  }

  function Early(s: seq<real>): real
    requires |s| == Margins
  {
    Sum(s[LateBins + 1..])
  }

  predicate TooLate(short: seq<real>, long: seq<real>)
    requires |short| == |long| == Margins
  {
    Late(short) > 0.1 || Late(long) > 0.03
  }

  predicate TooEarly(short: seq<real>, long: seq<real>)
    requires |short| == |long| == Margins
  {
    && Late(short) + short[LateBins] < 0.005
    && Late(long) + long[LateBins] < 0.01
    && Early(short) > 0.8
  }

  predicate NoneDue(time: seq<int>, len: seq<int>, pointer: int) {
    forall k :: 0 <= k < |time| ==> !Due(time, len, pointer, k)
  }

  predicate FirstDue(time: seq<int>, len: seq<int>, pointer: int, slot: nat) {
    Due(time, len, pointer, slot) && forall k :: 0 <= k < slot ==> !Due(time, len, pointer, k)
  }

  lemma EmptyIncreasing()
    ensures Increasing([])
  {
  }

  lemma TracedLength(len: seq<int>, from: seq<nat>, taken: seq<nat>, puts: nat)
    requires Traced(len, from, taken, puts)
    ensures |len| == |from| == BufferSlots
  {
  }

  lemma TracedCleaned(time: seq<int>, len: seq<int>, pointer: int, from: seq<nat>, taken: seq<nat>, puts: nat)
    requires Traced(len, from, taken, puts) && |time| == |len|
    ensures Traced(Cleaned(time, len, pointer), from, taken, puts)
  {
    TracedEmptied(len, Cleaned(time, len, pointer), from, taken, puts);
  }

  lemma SlotInRange(time: seq<int>, len: seq<int>, slot: nat)
    requires SlotFor(time, len, slot)
    ensures slot < |time| == |len|
  {
  }

  /** The histogram bin of an arrival margin, or -1 when it is too late to be counted. */
  function Bin(margin: int, frameTime: int): (bin: int)
    requires frameTime > 0
    ensures -1 <= bin < Margins
    ensures bin < 0 <==> margin < -LateBins * frameTime
  {
    if margin < -LateBins * frameTime then -1
    else
      var b := (margin + LateBins * frameTime) / frameTime;
      if b > Margins - 1 then Margins - 1 else b
  }

  // ----- a run that loses part of a histogram -----

  /** The window of margins that a bin counts: between so many frames and one more, the first from four frames late
      on, and the last without end. */
  lemma BinWindow(margin: int, frameTime: int, bin: nat)
    requires frameTime > 0 && bin < Margins
    ensures Bin(margin, frameTime) == bin <==>
              (bin - 4) * frameTime <= margin && (bin < 11 ==> margin < (bin - 3) * frameTime)
    ensures Bin(margin, frameTime) < 0 <==> margin < -4 * frameTime
  {
    var m := margin + 4 * frameTime;
    assert bin * frameTime == (bin - 4) * frameTime + 4 * frameTime;
    assert (bin + 1) * frameTime == (bin - 3) * frameTime + 4 * frameTime;
    if m >= 0 {
      QuotientAtLeast(m, frameTime, bin);
      QuotientAtLeast(m, frameTime, bin + 1);
    } else {
      assert bin * frameTime >= 0;
    }
  }

  lemma QuotientAtLeast(m: nat, d: nat, q: nat)
    requires d > 0
    ensures m / d >= q <==> m >= q * d
  {
    var k := m / d;
    assert m == k * d + m % d;
    if k >= q {
      assert (k - q) * d >= 0;
    } else {
      assert (q - k - 1) * d >= 0;
      assert q * d == (q - k - 1) * d + k * d + d;
    }
  }

  /** The shares, bin by bin. */
  lemma Shares(s: seq<real>)
    requires |s| == Margins
    ensures Late(s) == s[0] + s[1] + s[2] + s[3]
    ensures Early(s) == s[5] + s[6] + s[7] + s[8] + s[9] + s[10] + s[11]
  {
    SumFour(s[..4]);
    SumFour(s[5..][..4]);
    SumFour(s[8..]);
    var e := s[5..];
    assert e == e[..4] + e[4..];
    SumAppend(e[..4], e[4..]);
    assert s[8..] == [s[8]] + e[4..];
    SumAppend([s[8]], e[4..]);
    SumOne(s[8]);
  }

  lemma SumFour(s: seq<real>)
    requires |s| == 4
    ensures Sum(s) == s[0] + s[1] + s[2] + s[3]
  {
    assert s[1..][1..] == s[2..] && s[2..][1..] == s[3..] && s[3..][1..] == [];
    assert Sum(s[3..]) == s[3] && Sum(s[2..]) == s[2] + Sum(s[3..]) && Sum(s[1..]) == s[1] + Sum(s[2..]);
  }

  lemma BinsMet()
    ensures Bin(7, 1) == Margins - 1 && Bin(-1, 1) == 3
  {
  }

  /** An arrival in the top bin of a histogram. */
  lemma TopCounted(s: seq<real>)
    requires IsHistogram(s)
    ensures Arrived(s, 0.98, Margins - 1)[Margins - 1] > 0.0 && Late(Arrived(s, 0.98, Margins - 1)) >= 0.0
  {
    var r := Arrived(s, 0.98, Margins - 1);
    CountedIsHistogram(s, 0.98, Margins - 1);
    Product(s[Margins - 1], 0.98);
    SumNonNegative(r[..LateBins]);
  }

  lemma {:induction false} SumNonNegative(s: seq<real>)
    requires NonNegative(s)
    ensures Sum(s) >= 0.0
  {
    if s != [] {
      SumNonNegative(s[1..]);
    }
  }

  /** A late arrival adds at least 0.018 to what is late, as long as few came before. */
  lemma LateCounted(s: seq<real>, n: nat)
    requires |s| == Margins && s[Margins - 1] > 0.0 && n < 6 && Late(s) >= 0.018 * (n as real)
    ensures var r := Arrived(s, 0.98, 3);
            r[Margins - 1] > 0.0 && Late(r) >= 0.018 * ((n + 1) as real)
  {
    hide Sum, Scaled;
    var early, r := s[..LateBins], Arrived(s, 0.98, 3);
    var scaled := Scaled(early, 0.98);
    assert r[..LateBins] == scaled[3 := scaled[3] + 0.02];
    SumScaled(early, 0.98);
    SumUpdate(scaled, 3, 0.02);
  }

  /** One packet far ahead, then six late ones: the next call of get finds too many late, and what the packet
      far ahead had counted in the top bin is lost. */
  method TopBinLost() returns (before: real, after: real)
    ensures after < before
  {
    hide IsHistogram, Traced, SlotFor, Cleaned, Increasing, Arrived, ShiftedUp, Late, Early, Sum;
    var j := new JitterBuffer(1);
    var slot := j.Put([], 4);
    TopCounted(j.shortMargin[..]);
    BinsMet();
    slot := j.Put([], 8);
    var n := 0;
    while n < 6
      invariant 0 <= n <= 6 && j.Valid() && !j.resetState && j.pointer == 0 && j.frameTime == 1
      invariant j.shortMargin[Margins - 1] > 0.0 && Late(j.shortMargin[..]) >= 0.018 * (n as real)
      modifies j, j.buf, j.timestamp, j.len, j.shortMargin, j.longMargin
    {
      LateCounted(j.shortMargin[..], n);
      slot := j.Put([], 0);
      n := n + 1;
    }
    before := Sum(j.shortMargin[..]);
    ShiftUpLoses(j.shortMargin[..]);
    var out := j.Get(false);
    after := Sum(j.shortMargin[..]);
  }
}
