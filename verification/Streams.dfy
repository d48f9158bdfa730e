/** Runs of packs and whole-byte writes on one SpeexBits, iaxclient/lib/libspeex/bits.c, and fields packed,
    rewound and unpacked. */
module Streams {
  import opened Powers
  import opened BitSpec
  import opened Bits

  /** A field packed (`grows`: whether a reallocation would succeed), or up to `max` whole bytes written out. */
  datatype Action = Put(data: int, width: nat, grows: bool) | Take(max: nat)

  /** The bits written out so far, those held, what the byte being written holds behind them, and the size
      of the buffer in bytes. */
  datatype Stream = Stream(out: seq<bool>, held: seq<bool>, tail: seq<bool>, size: nat) {
    predicate Valid() {
      |tail| == 8 - |held| % 8 && |held| / 8 < size
    }

    /** Whether a field of n bits fits, with a byte to spare for what follows. */
    predicate Room(n: nat) {
      |held| / 8 + (n + |held| % 8) / 8 < size
    }

    function All(): seq<bool> {
      out + held
    }
  }

  predicate Proper(a: Action) {
    a.Put? ==> a.width <= 32 && -0x8000_0000 <= a.data < 0x1_0000_0000
  }

  predicate AllProper(actions: seq<Action>) {
    actions == [] || (Proper(actions[0]) && AllProper(actions[1..]))
  }

  /** The bits an action packs. */
  function PutBits(a: Action): seq<bool> {
    match a
    case Put(data, width, _) => FieldBits(data, width)
    case Take(_) => []
  }

  function AllPut(actions: seq<Action>): seq<bool> {
    if actions == [] then [] else PutBits(actions[0]) + AllPut(actions[1..])
  }

  /** One action. A field is ORed into what the byte holds; a buffer that grows is cleared; a field that does
      not fit is dropped. A write keeps the bits of the byte behind those written, and that byte as it is. */
  function Act(owner: bool, st: Stream, a: Action): (next: Stream)
    requires st.Valid() && Proper(a)
    ensures next.Valid()
  {
    match a
    case Put(data, width, grows) =>
      var bits := FieldBits(data, width);
      if st.Room(width) then
        MergedLength(st.tail, bits, |st.held|);
        var m := Merged(st.tail, bits);
        st.(held := st.held + m.0, tail := m.1)
      else if owner && grows then
        st.(held := AllFalse(|st.held|) + bits, tail := AllFalse(8 - (|st.held| + width) % 8), size := (st.size + 5) * 3 / 2)
      else st
    case Take(max) =>
      var n, b := Least(max, |st.held| / 8), |st.held| % 8;
      st.(out := st.out + st.held[..8 * n], held := st.held[8 * n..8 * n + b], tail := RestOfByte(st.held + st.tail, n, b))
  }

  lemma {:induction false} MergedLength(tail: seq<bool>, s: seq<bool>, k: nat)
    requires |tail| == 8 - k % 8
    ensures |Merged(tail, s).1| == 8 - (k + |s|) % 8
    decreases |s|
  {
    if s != [] {
      MergedLength(if |tail| == 1 then AllFalse(8) else tail[1..], s[1..], k + 1);
    }
  }

  function RunAll(owner: bool, st: Stream, actions: seq<Action>): (e: Stream)
    requires st.Valid() && AllProper(actions)
    ensures e.Valid()
    decreases |actions|
  {
    if actions == [] then st else RunAll(owner, Act(owner, st, actions[0]), actions[1..])
  }

  // ----- when nothing is lost -----

  /** What makes an action lose nothing: a field fits, or the buffer can grow and holds no bit that is set; a
      write has room for all the whole bytes there are. */
  predicate Keeps(owner: bool, st: Stream, a: Action) {
    match a
    case Put(_, width, grows) => st.Room(width) || (owner && grows && Blank(st.held))
    case Take(max) => |st.held| / 8 <= max
  }

  predicate Lossless(owner: bool, st: Stream, actions: seq<Action>)
    requires st.Valid() && AllProper(actions)
    decreases |actions|
  {
    actions == [] ||
    (Keeps(owner, st, actions[0]) && Lossless(owner, Act(owner, st, actions[0]), actions[1..]))
  }

  /** Bits are missing, or a set bit came out clear. */
  ghost predicate Behind(got: seq<bool>, sent: seq<bool>) {
    |got| < |sent| || (|got| == |sent| && exists p :: 0 <= p < |got| && sent[p] && !got[p])
  }

  lemma PutKeeps(owner: bool, st: Stream, a: Action)
    requires st.Valid() && Proper(a) && a.Put? && Blank(st.tail)
    ensures var next := Act(owner, st, a);
            if Keeps(owner, st, a) then next.All() == st.All() + PutBits(a) && Blank(next.tail)
            else Behind(next.All(), st.All() + PutBits(a))
  {
    hide Merged, FieldBits;
    var bits, k := PutBits(a), |st.out|;
    if st.Room(a.width) {
      MergedOnBlank(st.tail, bits);
    } else if owner && a.grows {
      if Blank(st.held) {
        assert st.held == AllFalse(|st.held|);
      } else {
        var p :| 0 <= p < |st.held| && st.held[p];
        assert (st.All() + bits)[k + p] && !Act(owner, st, a).All()[k + p];
      }
    }
  }

  lemma TakeKeeps(owner: bool, st: Stream, a: Action)
    requires st.Valid() && a.Take? && Blank(st.tail)
    ensures var next := Act(owner, st, a);
            if Keeps(owner, st, a) then next.All() == st.All() && Blank(next.tail)
            else |next.All()| < |st.All()|
  {
  }

  /** What was lost does not come back. */
  lemma StaysBehind(owner: bool, st: Stream, a: Action, sent: seq<bool>)
    requires st.Valid() && Proper(a) && Behind(st.All(), sent)
    ensures Behind(Act(owner, st, a).All(), sent + PutBits(a))
  {
    hide Act, Merged, FieldBits, RestOfByte;
    ClearStays(owner, st, a);
    var next, all := Act(owner, st, a), sent + PutBits(a);
    if |next.All()| == |all| {
      var p :| 0 <= p < |sent| && sent[p] && !st.All()[p];
      assert all[p] && !next.All()[p];
    }
  }

  /** An action adds no more bits than it packs, and where it loses none, clear bits stay clear. */
  lemma ClearStays(owner: bool, st: Stream, a: Action)
    requires st.Valid() && Proper(a)
    ensures var next := Act(owner, st, a);
            && |next.All()| <= |st.All()| + |PutBits(a)|
            && (|next.All()| >= |st.All()| ==> forall p :: 0 <= p < |st.All()| && !st.All()[p] ==> !next.All()[p])
  {
    hide Merged, FieldBits, RestOfByte;
  }

  lemma {:induction false} NeverRecovers(owner: bool, st: Stream, actions: seq<Action>, sent: seq<bool>)
    requires st.Valid() && AllProper(actions) && Behind(st.All(), sent)
    ensures RunAll(owner, st, actions).All() != sent + AllPut(actions)
    decreases |actions|
  {
    hide Act, PutBits;
    if actions != [] {
      StaysBehind(owner, st, actions[0], sent);
      NeverRecovers(owner, Act(owner, st, actions[0]), actions[1..], sent + PutBits(actions[0]));
      Reassociated(sent, PutBits(actions[0]), AllPut(actions[1..]));
    } else {
      assert sent + [] == sent;
    }
  }

  /** In every run, what has been written out, followed by what is held, is what has been packed, exactly when
      every step lost nothing. */
  lemma {:induction false} StreamIsWhole(owner: bool, st: Stream, actions: seq<Action>)
    requires st.Valid() && AllProper(actions) && Blank(st.tail)
    ensures RunAll(owner, st, actions).All() == st.All() + AllPut(actions) <==> Lossless(owner, st, actions)
    decreases |actions|
  {
    hide Act, PutBits, Keeps, Blank;
    if actions != [] {
      var a, rest := actions[0], actions[1..];
      var next := Act(owner, st, a);
      ActKeeps(owner, st, a);
      Reassociated(st.All(), PutBits(a), AllPut(rest));
      if Keeps(owner, st, a) {
        StreamIsWhole(owner, next, rest);
      } else {
        NeverRecovers(owner, next, rest, st.All() + PutBits(a));
      }
    } else {
      assert st.All() + [] == st.All();
    }
  }

  lemma ActKeeps(owner: bool, st: Stream, a: Action)
    requires st.Valid() && Proper(a) && Blank(st.tail)
    ensures var next := Act(owner, st, a);
            if Keeps(owner, st, a) then next.All() == st.All() + PutBits(a) && Blank(next.tail)
            else Behind(next.All(), st.All() + PutBits(a))
  {
    hide Act, Keeps, Blank;
    if a.Put? {
      PutKeeps(owner, st, a);
    } else {
      TakeKeeps(owner, st, a);
      assert st.All() + [] == st.All();
    }
  }

  predicate AmpleTakes(actions: seq<Action>, size: nat) {
    actions == [] || ((actions[0].Take? ==> size <= actions[0].max) && AmpleTakes(actions[1..], size))
  }

  /** A caller is safe who packs fewer bits than the buffer holds and always writes into a buffer as large. */
  lemma {:induction false} EnoughRoom(owner: bool, st: Stream, actions: seq<Action>)
    requires st.Valid() && AllProper(actions)
    requires |st.held| + |AllPut(actions)| < 8 * st.size && AmpleTakes(actions, st.size)
    ensures Lossless(owner, st, actions)
    decreases |actions|
  {
    hide Merged, FieldBits, RestOfByte;
    if actions != [] {
      EnoughRoom(owner, Act(owner, st, actions[0]), actions[1..]);
    }
  }

  /** Where a buffer grows with a set bit in it, that bit is lost: seven ones in a buffer of one byte, and
      one more. */
  lemma GrowthLoses()
    ensures var ones := [true, true, true, true, true, true, true];
            var st := Stream([], ones, [false], 1);
            st.Valid() && RunAll(true, st, [Put(1, 1, true)]).held == AllFalse(7) + [true] != ones + [true]
  {
    var ones := [true, true, true, true, true, true, true];
    var st := Stream([], ones, [false], 1);
    OneBit();
    assert [Put(1, 1, true)][1..] == [];
    assert !(AllFalse(7) + [true])[0] && (ones + [true])[0];
  }

  /** After a write that was too short, fields are ORed into bits left over: twelve ones, nothing taken, and
      four zeros make eight ones. */
  lemma ShortTakeLeavesBits(st: Stream)
    requires st.Valid() && st.held == seq(12, _ => true) && st.tail == AllFalse(4) && st.size == 2000
    ensures RunAll(true, st, [Take(0), Put(0, 4, true)]).held == seq(8, _ => true)
  {
    hide Act;
    FourKept(st);
    FourMerged(Act(true, st, Take(0)));
    assert [Take(0), Put(0, 4, true)][1..] == [Put(0, 4, true)];
    assert [Put(0, 4, true)][1..] == [];
  }

  lemma FourKept(st: Stream)
    requires st.Valid() && st.held == seq(12, _ => true) && st.tail == AllFalse(4) && st.size == 2000
    ensures Act(true, st, Take(0)) == Stream(st.out, [true, true, true, true], [true, true, true, true], 2000)
  {
    hide Merged, FieldBits;
    assert st.out + st.held[..0] == st.out;
  }

  lemma FourMerged(st: Stream)
    requires st.held == st.tail == [true, true, true, true] && st.size == 2000
    ensures Act(true, st, Put(0, 4, true)).held == seq(8, _ => true)
  {
    FourZeros();
    Merging();
    hide Merged, FieldBits;
  }

  lemma FourZeros()
    ensures FieldBits(0, 4) == [false, false, false, false]
  {
  }

  lemma Merging()
    ensures Merged([true, true, true, true], [false, false, false, false]).0 == [true, true, true, true]
  {
  }

  // ----- the object -----

  ghost function StreamOf(bits: SpeexBits, out: seq<bool>): (st: Stream)
    reads bits, bits.chars
    requires bits.Writing()
    ensures st.Valid()
  {
    bits.TailLength();
    Stream(out, bits.Contents(), bits.Tail(), bits.bufSize)
  }

  /** One action on the object. */
  method ActOn(bits: SpeexBits, a: Action, ghost out: seq<bool>) returns (bytes: seq<bv8>)
    requires bits.Writing() && Proper(a)
    modifies bits, bits.chars
    ensures bits.Writing() && bits.owner == old(bits.owner) && (bits.chars == old(bits.chars) || fresh(bits.chars))
    ensures StreamOf(bits, out + BitsOf(bytes)) == Act(bits.owner, old(StreamOf(bits, out)), a)
  {
    hide Act, BitsOf;
    match a
    case Put(data, width, grows) =>
      bytes := [];
      NoBits();
      assert out + [] == out;
      PutOn(bits, a, out);
    case Take(max) =>
      bytes := TakeOn(bits, a, out);
  }

  method PutOn(bits: SpeexBits, a: Action, ghost out: seq<bool>)
    requires bits.Writing() && Proper(a) && a.Put?
    modifies bits, bits.chars
    ensures bits.Writing() && bits.owner == old(bits.owner) && (bits.chars == old(bits.chars) || fresh(bits.chars))
    ensures StreamOf(bits, out) == Act(bits.owner, old(StreamOf(bits, out)), a)
  {
    hide BitsOf, FieldBits, Merged, RestOfByte;
    bits.TailLength();
    bits.Pack(a.data, a.width, a.grows);
    bits.TailLength();
  }

  method TakeOn(bits: SpeexBits, a: Action, ghost out: seq<bool>) returns (bytes: seq<bv8>)
    requires bits.Writing() && a.Take?
    modifies bits, bits.chars
    ensures bits.Writing() && bits.owner == old(bits.owner) && bits.chars == old(bits.chars)
    ensures StreamOf(bits, out + BitsOf(bytes)) == Act(bits.owner, old(StreamOf(bits, out)), a)
  {
    hide BitsOf, FieldBits, Merged, RestOfByte;
    var buffer := new bv8[a.max];
    var n := bits.WriteWholeBytes(buffer, a.max);
    bytes := buffer[0..n];
  }

  /** A run of actions on the object is the run of the stream it stands for. */
  method RunOn(bits: SpeexBits, actions: seq<Action>) returns (written: seq<bv8>)
    requires bits.Writing() && AllProper(actions)
    modifies bits, bits.chars
    ensures bits.Writing() && bits.owner == old(bits.owner)
    ensures StreamOf(bits, BitsOf(written)) == RunAll(bits.owner, old(StreamOf(bits, [])), actions)
    ensures old(Blank(bits.Tail())) ==>
              (BitsOf(written) + bits.Contents() == old(bits.Contents()) + AllPut(actions)
               <==> Lossless(bits.owner, old(StreamOf(bits, [])), actions))
  {
    hide BitsOf, Act, Lossless, AllPut, Blank;
    ghost var owner, start := bits.owner, StreamOf(bits, []);
    written := [];
    NoBits();
    assert actions[0..] == actions;
    var i := 0;
    while i < |actions|
      invariant 0 <= i <= |actions| && bits.Writing() && bits.owner == owner && AllProper(actions[i..])
      invariant bits.chars == old(bits.chars) || fresh(bits.chars)
      invariant RunAll(owner, StreamOf(bits, BitsOf(written)), actions[i..]) == RunAll(owner, start, actions)
    {
      assert actions[i..][0] == actions[i] && actions[i..][1..] == actions[i + 1..];
      var bytes := ActOn(bits, actions[i], BitsOf(written));
      BitsOfAppend(written, bytes);
      written := written + bytes;
      i := i + 1;
    }
    if Blank(start.tail) {
      StreamIsWhole(owner, start, actions);
      assert [] + start.held == start.held;
    }
  }

  lemma NoBits()
    ensures BitsOf([]) == []
  {
  }

  // ----- packing, rewinding, unpacking -----

  predicate FieldsProper(fs: seq<Field>) {
    fs == [] || (fs[0].width <= 32 && -0x8000_0000 <= fs[0].value < 0x1_0000_0000 && FieldsProper(fs[1..]))
  }

  /** Any list of fields that the buffer has room for, packed into a reset object, comes back after a rewind:
      each field modulo its width, so that all values come back exactly when every one fits its width. */
  method PackThenUnpack(bits: SpeexBits, fs: seq<Field>) returns (vs: seq<nat>)
    requires bits.Valid() && FieldsProper(fs) && |Encode(fs)| < 8 * bits.bufSize
    modifies bits, bits.chars
    ensures bits.Valid() && bits.Contents() == Encode(fs) && bits.Unread() == [] && !bits.overflow
    ensures vs == FieldValues(fs)
    ensures (forall i :: 0 <= i < |fs| ==> 0 <= fs[i].value < Pow2(fs[i].width))
            <==> |vs| == |fs| && forall i :: 0 <= i < |fs| ==> vs[i] == fs[i].value
  {
    hide BitsOf, Encode, FieldValues, Pow2;
    PackAll(bits, fs);
    bits.Rewind();
    vs := UnpackAll(bits, fs);
    ValuesFit(fs);
  }

  lemma ValuesFit(fs: seq<Field>)
    ensures (forall i :: 0 <= i < |fs| ==> 0 <= fs[i].value < Pow2(fs[i].width))
            <==> forall i :: 0 <= i < |fs| ==> FieldValues(fs)[i] == fs[i].value
  {
    hide Value, FieldBits, Pow2;
    forall i | 0 <= i < |fs|
      ensures FieldValues(fs)[i] == fs[i].value <==> 0 <= fs[i].value < Pow2(fs[i].width)
    {
      ValueOfField(fs[i].value, fs[i].width);
    }
  }

  method PackAll(bits: SpeexBits, fs: seq<Field>)
    requires bits.Valid() && FieldsProper(fs) && |Encode(fs)| < 8 * bits.bufSize
    modifies bits, bits.chars
    ensures bits.Writing() && bits.Contents() == Encode(fs) && !bits.overflow
  {
    hide BitsOf, Encode, Blank, FieldBits;
    ghost var size := bits.bufSize;
    bits.Reset();
    EncodeNothing();
    assert fs[0..] == fs && fs[..0] == [];
    var i := 0;
    while i < |fs|
      invariant 0 <= i <= |fs| && bits.Writing() && Blank(bits.Tail()) && FieldsProper(fs[i..])
      invariant bits.Contents() == Encode(fs[..i]) && bits.bufSize == size && bits.chars == old(bits.chars)
      invariant |Encode(fs[..i])| + |Encode(fs[i..])| == |Encode(fs)| && !bits.overflow
    {
      OneMoreField(fs, i);
      bits.PackField(fs[i].value, fs[i].width);
      i := i + 1;
    }
    assert fs[..|fs|] == fs;
  }

  method UnpackAll(bits: SpeexBits, fs: seq<Field>) returns (vs: seq<nat>)
    requires bits.Valid() && FieldsProper(fs) && bits.Unread() == Encode(fs) && !bits.overflow
    modifies bits`charPtr, bits`bitPtr, bits`overflow
    ensures bits.Valid() && bits.Contents() == old(bits.Contents()) && bits.Unread() == [] && !bits.overflow
    ensures vs == FieldValues(fs)
  {
    hide BitsOf, Encode, FieldBits, Value;
    EncodeNothing();
    vs := [];
    assert fs[0..] == fs;
    var i := 0;
    while i < |fs|
      invariant 0 <= i <= |fs| && bits.Valid() && bits.Contents() == old(bits.Contents()) && FieldsProper(fs[i..])
      invariant bits.Unread() == Encode(fs[i..]) && !bits.overflow
      invariant |vs| == i && forall k :: 0 <= k < i ==> vs[k] == FieldValues(fs)[k]
    {
      OneMoreField(fs, i);
      ghost var field, rest := FieldBits(fs[i].value, fs[i].width), Encode(fs[i + 1..]);
      assert (field + rest)[..|field|] == field && (field + rest)[|field|..] == rest;
      var v := bits.UnpackUnsigned(fs[i].width);
      vs := vs + [v];
      i := i + 1;
    }
  }

  lemma OneMoreField(fs: seq<Field>, i: nat)
    requires i < |fs|
    ensures fs[i..][1..] == fs[i + 1..]
    ensures Encode(fs[i..]) == FieldBits(fs[i].value, fs[i].width) + Encode(fs[i + 1..])
    ensures Encode(fs[..i + 1]) == Encode(fs[..i]) + FieldBits(fs[i].value, fs[i].width)
  {
    assert fs[..i + 1] == fs[..i] + [fs[i]] && [fs[i]][1..] == [];
    EncodeAppend(fs[..i], [fs[i]]);
    hide FieldBits;
  }
}
