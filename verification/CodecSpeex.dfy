/** Packets of several frames: encode and decode of iaxclient/lib/codec_speex.c, with the signal values
    left abstract. */
module CodecSpeex {
  import opened Powers
  import opened BitSpec
  import opened Bits
  import opened FrameFields
  import opened Frames

  /** How frames are ended: one terminator at the end, one after every frame, or none. */
  datatype Termination = Normal | Every | Never

  predicate Whole(s: seq<bool>) {
    |s| % 8 == 0
  }

  /** What completes some bits to whole bytes. */
  function Padding(s: seq<bool>): (pad: seq<bool>)
    ensures |pad| < 8
  {
    if Whole(s) then [] else Terminator(|s| % 8) + [false]
  }

  function Padded(s: seq<bool>): seq<bool> {
    s + Padding(s)
  }

  predicate AllFit(fs: seq<Frame>) {
    fs == [] || (FrameFits(fs[0]) && AllFit(fs[1..]))
  }

  function AllBits(fs: seq<Frame>): seq<bool>
    requires AllFit(fs)
  {
    if fs == [] then [] else FrameBits(fs[0]) + AllBits(fs[1..])
  }

  /** The bits 01111. */
  function Terminated(s: seq<bool>): seq<bool> {
    s + FieldBits(15, 5)
  }

  /** One frame by itself. */
  function Single(t: Termination, f: Frame): seq<bool>
    requires FrameFits(f)
  {
    Padded(if t.Never? then FrameBits(f) else Terminated(FrameBits(f)))
  }

  function Singles(t: Termination, fs: seq<Frame>): seq<bool>
    requires AllFit(fs)
  {
    if fs == [] then [] else Single(t, fs[0]) + Singles(t, fs[1..])
  }

  /** The packet made of some frames. */
  function Packet(t: Termination, fs: seq<Frame>): seq<bool>
    requires AllFit(fs)
  {
    if t.Normal? then Padded(Terminated(AllBits(fs))) else Singles(t, fs)
  }

  /** The remainder of C, for a number of bits that is -1 beyond the end. */
  function Mod8(n: int): (r: int)
    requires n >= -1
    ensures r <= n && r < 8
  {
    if n < 0 then n else n % 8
  }

  /** The frames that the decoding loop makes of a packet, when there is room for `room` of them. */
  function Taken(t: Termination, s: In, room: nat): (fs: seq<Frame>)
    ensures |fs| <= room
    decreases room, |s.bits|
  {
    if Remaining(s) == 0 || room == 0 then []
    else match Parse(s)
      case Parsed(f, rest) => [f] + Taken(t, if t.Never? then SkipPadding(rest) else rest, room - 1)
      case Ended(code, rest) =>
        if code == -1 && Mod8(Remaining(rest)) >= 5 then Taken(t, SkipPadding(rest), room) else []
      case Request(_, _) => []
  }

  function SkipPadding(s: In): (r: In)
    ensures |r.bits| <= |s.bits|
    ensures Mod8(Remaining(s)) > 0 ==> |r.bits| < |s.bits|
  {
    if Mod8(Remaining(s)) > 0 then Skip(s, Mod8(Remaining(s))) else s
  }

  // ----- packets are taken apart into their frames -----

  lemma ParseTerminator(rest: seq<bool>)
    ensures Parse(In(FieldBits(15, 5) + rest, false)) == Ended(-1, In(rest, false))
  {
    hide FieldBits, Pow2;
    FifteenBits();
    assert FieldBits(15, 5) + rest == [false] + (FieldBits(15, 4) + rest);
    FirstBit(false, FieldBits(15, 4) + rest);
    GetField(15, 4, rest);
  }

  lemma FifteenBits()
    ensures FieldBits(15, 5) == [false] + FieldBits(15, 4) && Pow2(4) == 16
  {
    assert FieldBits(0, 1) == [false];
    assert FieldBits(1, 2) == [false] + FieldBits(1, 1);
    assert FieldBits(3, 3) == [false] + FieldBits(3, 2);
    assert FieldBits(7, 4) == [false] + FieldBits(7, 3);
  }

  lemma PaddedIsWhole(s: seq<bool>)
    ensures Whole(Padded(s)) && |Padding(s)| == (8 - |s| % 8) % 8
  {
  }

  lemma WholeAppend(s: seq<bool>, t: seq<bool>)
    requires Whole(s) && Whole(t)
    ensures Whole(s + t)
  {
  }

  lemma {:induction false} SinglesAreWhole(t: Termination, fs: seq<Frame>)
    requires AllFit(fs)
    ensures Whole(Singles(t, fs))
  {
    if fs != [] {
      PaddedIsWhole(if t.Never? then FrameBits(fs[0]) else Terminated(FrameBits(fs[0])));
      assert Whole(Single(t, fs[0]));
      hide Whole, Single, FrameFits;
      SinglesAreWhole(t, fs[1..]);
      WholeAppend(Single(t, fs[0]), Singles(t, fs[1..]));
    }
  }

  /** The padding in front of whole bytes. */
  lemma PaddingSkipped(pad: seq<bool>, rest: seq<bool>)
    requires Whole(rest) && |pad| < 8
    ensures SkipPadding(In(pad + rest, false)) == In(rest, false)
    ensures |pad + rest| % 8 == |pad|
  {
    assert (pad + rest)[|pad|..] == rest;
    assert pad == [] ==> pad + rest == rest;
  }

  lemma TakeFrame(t: Termination, s: In, f: Frame, rest: In, room: nat)
    requires room > 0 && Remaining(s) != 0 && Parse(s) == Parsed(f, rest)
    ensures Taken(t, s, room) == [f] + Taken(t, if t.Never? then SkipPadding(rest) else rest, room - 1)
  {
    hide Parse;
  }

  lemma TakeNothing(t: Termination, s: In, room: nat)
    requires Remaining(s) == 0 || room == 0
    ensures Taken(t, s, room) == []
  {
  }

  lemma TakeTerminator(t: Termination, rest: seq<bool>, room: nat)
    ensures Taken(t, In(FieldBits(15, 5) + rest, false), room)
            == if |rest| % 8 >= 5 then Taken(t, SkipPadding(In(rest, false)), room) else []
  {
    ParseTerminator(rest);
    hide Parse, FieldBits;
    if room == 0 {
      TakeNothing(t, SkipPadding(In(rest, false)), room);
    }
  }

  /** The first frames, at most n. */
  function Front(fs: seq<Frame>, n: nat): seq<Frame>
    decreases |fs|
  {
    if fs == [] || n == 0 then [] else [fs[0]] + Front(fs[1..], n - 1)
  }

  lemma {:induction false} FrontIs(fs: seq<Frame>, n: nat)
    ensures Front(fs, n) == fs[..Least(n, |fs|)]
    decreases |fs|
  {
    if fs != [] && n > 0 {
      FrontIs(fs[1..], n - 1);
    }
  }

  lemma TakeFirst(t: Termination, f: Frame, rest: seq<bool>, room: nat)
    requires FrameFits(f) && room > 0
    ensures Taken(t, In(FrameBits(f) + rest, false), room)
            == [f] + Taken(t, if t.Never? then SkipPadding(In(rest, false)) else In(rest, false), room - 1)
  {
    SomeBits(f, rest);
    ParsePutFrame(f, rest);
    hide Parse, FrameBits, Taken, FrameFits, SkipPadding;
    TakeFrame(t, In(FrameBits(f) + rest, false), f, In(rest, false), room);
  }

  lemma NeverStep(f: Frame, later: seq<bool>, room: nat)
    requires FrameFits(f) && room > 0 && Whole(later)
    ensures Taken(Never, In(Single(Never, f) + later, false), room) == [f] + Taken(Never, In(later, false), room - 1)
  {
    hide FrameBits, FrameFits, Padding, SkipPadding, Taken, Single, Whole;
    var pad := Padding(FrameBits(f));
    SingleIs(f, pad, later);
    PaddingSkipped(pad, later);
    TakeFirst(Never, f, pad + later, room);
  }

  /** A single frame and what follows it, in the order of its parts. */
  lemma SingleIs(f: Frame, pad: seq<bool>, later: seq<bool>)
    requires FrameFits(f)
    ensures pad == Padding(FrameBits(f)) ==> Single(Never, f) + later == FrameBits(f) + (pad + later)
    ensures pad == Padding(Terminated(FrameBits(f))) ==>
              Single(Every, f) + later == FrameBits(f) + (FieldBits(15, 5) + (pad + later))
  {
    hide FrameBits, FrameFits, Padding, FieldBits;
  }

  lemma SinglesStep(t: Termination, fs: seq<Frame>)
    requires fs != [] && AllFit(fs)
    ensures Singles(t, fs) == Single(t, fs[0]) + Singles(t, fs[1..])
  {
    hide FrameFits, Single;
  }

  /** Without terminators: every frame there is room for. */
  lemma {:induction false} NeverParses(fs: seq<Frame>, room: nat)
    requires AllFit(fs)
    ensures Taken(Never, In(Singles(Never, fs), false), room) == Front(fs, room)
    decreases |fs|
  {
    hide FrameFits, Single, Singles, Taken, Whole;
    if fs != [] && room > 0 {
      SinglesStep(Never, fs);
      SinglesAreWhole(Never, fs[1..]);
      NeverStep(fs[0], Singles(Never, fs[1..]), room);
      NeverParses(fs[1..], room - 1);
    } else {
      NoSingles(Never, fs);
      TakeNothing(Never, In(Singles(Never, fs), false), room);
    }
  }

  lemma NoSingles(t: Termination, fs: seq<Frame>)
    requires AllFit(fs)
    ensures fs == [] ==> Singles(t, fs) == []
  {
    hide FrameFits, Single;
  }

  lemma SomeBits(f: Frame, rest: seq<bool>)
    requires FrameFits(f)
    ensures |FrameBits(f) + rest| > 0
  {
    FrameSizeIs(f);
  }

  lemma NeverIsWhole(fs: seq<Frame>, room: nat)
    requires AllFit(fs)
    ensures Taken(Never, In(Packet(Never, fs), false), room) == fs[..Least(room, |fs|)]
  {
    NeverParses(fs, room);
    FrontIs(fs, room);
  }

  /** With one terminator at the end: every frame there is room for. */
  lemma {:induction false} NormalParsesRest(fs: seq<Frame>, pad: seq<bool>, room: nat)
    requires AllFit(fs) && |pad| < 8
    ensures Taken(Normal, In(Terminated(AllBits(fs)) + pad, false), room) == Front(fs, room)
    decreases |fs|
  {
    hide FrameBits, FrameFits, AllBits, Terminated, Taken, FieldBits;
    if fs == [] {
      NoBits(fs, pad);
      TakeTerminator(Normal, pad, room);
      if |pad| >= 5 {
        PaddingSkipped(pad, []);
        assert pad + [] == pad;
        TakeNothing(Normal, In([], false), room);
      }
    } else if room > 0 {
      AllBitsStep(fs, pad);
      TakeFirst(Normal, fs[0], Terminated(AllBits(fs[1..])) + pad, room);
      NormalParsesRest(fs[1..], pad, room - 1);
    } else {
      TakeNothing(Normal, In(Terminated(AllBits(fs)) + pad, false), room);
    }
  }

  lemma AllBitsStep(fs: seq<Frame>, pad: seq<bool>)
    requires fs != [] && AllFit(fs)
    ensures Terminated(AllBits(fs)) + pad == FrameBits(fs[0]) + (Terminated(AllBits(fs[1..])) + pad)
  {
    hide FrameBits, FrameFits, FieldBits;
  }

  lemma NoBits(fs: seq<Frame>, pad: seq<bool>)
    requires fs == []
    ensures Terminated(AllBits(fs)) + pad == FieldBits(15, 5) + pad
  {
    hide FrameBits, FrameFits, FieldBits;
  }

  lemma NormalParses(fs: seq<Frame>, room: nat)
    requires AllFit(fs)
    ensures Taken(Normal, In(Packet(Normal, fs), false), room) == fs[..Least(room, |fs|)]
  {
    var s := Terminated(AllBits(fs));
    NormalParsesRest(fs, Padding(s), room);
    FrontIs(fs, room);
  }

  /** Whether a frame and its terminator leave five or more bits of padding. */
  predicate GoesOn(f: Frame) {
    (8 - (FrameSize(f) + 5) % 8) % 8 >= 5
  }

  /** How many frames are reached when each has its terminator: the loop goes on only over five or more
      bits of padding. */
  function Reach(fs: seq<Frame>): (n: nat)
    ensures n <= |fs|
  {
    if fs == [] then 0
    else if GoesOn(fs[0]) then 1 + Reach(fs[1..])
    else 1
  }

  lemma EveryStep(f: Frame, later: seq<bool>, room: nat)
    requires FrameFits(f) && room > 0 && Whole(later)
    ensures Taken(Every, In(Single(Every, f) + later, false), room)
            == [f] + if GoesOn(f) then Taken(Every, In(later, false), room - 1) else []
  {
    hide FrameBits, FrameFits, Padding, SkipPadding, Taken, FieldBits, GoesOn, Terminated, Single, Whole;
    var pad := Padding(Terminated(FrameBits(f)));
    SingleIs(f, pad, later);
    PaddingLeft(f);
    PaddingSkipped(pad, later);
    TakeFirst(Every, f, FieldBits(15, 5) + (pad + later), room);
    TakeTerminator(Every, pad + later, room - 1);
  }

  lemma PaddingLeft(f: Frame)
    requires FrameFits(f)
    ensures GoesOn(f) <==> |Padding(Terminated(FrameBits(f)))| >= 5
  {
    hide FrameBits, FrameFits, FrameSize;
    FrameSizeIs(f);
    PaddedIsWhole(Terminated(FrameBits(f)));
  }

  /** With a terminator after every frame: every frame reached that there is room for. */
  lemma {:induction false} EveryParses(fs: seq<Frame>, room: nat)
    requires AllFit(fs)
    ensures Taken(Every, In(Singles(Every, fs), false), room) == Front(fs, Least(room, Reach(fs)))
    decreases |fs|
  {
    hide FrameFits, Single, Singles, Taken, GoesOn, Whole;
    if fs != [] && room > 0 {
      SinglesStep(Every, fs);
      SinglesAreWhole(Every, fs[1..]);
      EveryStep(fs[0], Singles(Every, fs[1..]), room);
      if GoesOn(fs[0]) {
        EveryParses(fs[1..], room - 1);
      }
    } else {
      NoSingles(Every, fs);
      TakeNothing(Every, In(Singles(Every, fs), false), room);
    }
  }

  /** A terminator after every frame works exactly when all frames but the last have sizes that leave 4, 5
      or 6 bits in their last byte: the submodes 4, 5, 6, 7 and silence. */
  lemma EveryIsWhole(fs: seq<Frame>, room: nat)
    requires AllFit(fs) && room >= |fs|
    ensures Taken(Every, In(Packet(Every, fs), false), room) == fs
            <==> forall i :: 0 <= i < |fs| - 1 ==> 4 <= FrameSize(fs[i]) % 8 <= 6
  {
    EveryParses(fs, room);
    FrontIs(fs, Reach(fs));
    ReachIsAll(fs);
    assert fs[..|fs|] == fs;
    assert Reach(fs) < |fs| ==> |fs[..Reach(fs)]| < |fs|;
  }

  /** The commonest submode: behind a frame of submode 3 nothing is decoded. */
  lemma EveryLoses(f: Frame, g: Frame, room: nat)
    requires AllFit([f, g]) && f.Coded? && f.m == 3 && room >= 2
    ensures Taken(Every, In(Packet(Every, [f, g]), false), room) == [f]
  {
    hide Taken, Singles, FrameFits, GoesOn;
    EveryParses([f, g], room);
    EndsThere(f);
    assert Reach([f, g]) == 1;
    assert [f, g][..1] == [f];
  }

  lemma EndsThere(f: Frame)
    requires f.Coded? && f.m == 3
    ensures !GoesOn(f)
  {
  }

  /** Such frames, all of whose fields are 0. */
  lemma ZeroFrame() returns (f: Frame)
    ensures AllFit([f, f]) && f.Coded? && f.m == 3
  {
    f := Coded(3, Body([0, 0, 0], 0, 0, 0, 0, seq(4, _ => Sub(0, 0, 0, [0, 0, 0, 0], []))));
    ZeroSubs(f.body.subs);
    assert [f, f][1..] == [f] && [f][1..] == [];
  }

  lemma {:induction false} ZeroSubs(subs: seq<Sub>)
    requires forall i :: 0 <= i < |subs| ==> subs[i] == Sub(0, 0, 0, [0, 0, 0, 0], [])
    ensures SubsFit(SubmodeOf(3).sm, subs)
  {
    if subs != [] {
      ZeroSubs(subs[1..]);
    }
  }

  lemma {:induction false} ReachIsAll(fs: seq<Frame>)
    ensures Reach(fs) == |fs| <==> forall i :: 0 <= i < |fs| - 1 ==> 4 <= FrameSize(fs[i]) % 8 <= 6
    decreases |fs|
  {
    hide FrameSize, GoesOn;
    if |fs| > 1 {
      var rest := fs[1..];
      ReachIsAll(rest);
      GoesOnFrom(fs[0]);
      forall i | 0 <= i < |rest| - 1
        ensures FrameSize(rest[i]) == FrameSize(fs[i + 1])
      {
      }
      assert forall i :: 1 <= i < |fs| - 1 ==> FrameSize(fs[i]) == FrameSize(rest[i - 1]);
    }
  }

  lemma GoesOnFrom(f: Frame)
    ensures GoesOn(f) <==> 4 <= FrameSize(f) % 8 <= 6
  {
    hide FrameSize;
  }

  // ----- the loops -----

  /** The bytes an output of some whole bytes leaves in room for `max`. */
  ghost function Cut(s: seq<bool>, max: nat): seq<bool> {
    if 8 * max <= |s| then s[..8 * max] else s
  }

  /** One packet's bits written out: as many whole bytes as there is room for. */
  method WriteOut(bits: SpeexBits, out: array<bv8>, at: nat, left: nat) returns (n: nat)
    requires bits.Writing() && Blank(bits.Tail()) && out != bits.chars && at + left <= out.Length
    modifies bits, bits.chars, out
    ensures bits.Valid() && bits.chars == old(bits.chars) && bits.bufSize == old(bits.bufSize)
    ensures n <= left && BitsOf(out[at..at + n]) == Cut(Padded(old(bits.Contents())), left)
    ensures out[..at] == old(out[..at]) && out[at + n..] == old(out[at + n..])
  {
    hide BitsOf, Merged, Blank, Terminator, Cut, Padded, SpeexBits.Contents, SpeexBits.Tail;
    bits.TailLength();
    bits.ContentsLength();
    PaddingIs(bits.Contents(), bits.Tail(), bits.bitPtr, bits.charPtr, left);
    n := bits.Write(out, at, left);
  }

  lemma PaddingIs(s: seq<bool>, tail: seq<bool>, bitPtr: nat, charPtr: nat, left: nat)
    requires bitPtr < 8 && |tail| == 8 - bitPtr && |s| == 8 * charPtr + bitPtr && Blank(tail)
    ensures var m := Merged(tail, Terminator(bitPtr));
            var n := Least(left, (|s| + 7) / 8);
            && 8 * n <= |s + m.0 + m.1|
            && (s + m.0 + m.1)[..8 * n] == Cut(Padded(s), left)
  {
    hide Merged, Cut, Padded, Terminator, Blank;
    PaddingStays(tail, bitPtr);
    var m := Merged(tail, Terminator(bitPtr));
    Reassociated(s, m.0, m.1);
    PaddedIs(s, bitPtr, charPtr, left);
  }

  lemma PaddedIs(s: seq<bool>, bitPtr: nat, charPtr: nat, left: nat)
    requires bitPtr < 8 && |s| == 8 * charPtr + bitPtr
    ensures var n, all := Least(left, (|s| + 7) / 8), s + (Terminator(bitPtr) + [false]);
            8 * n <= |all| && all[..8 * n] == Cut(Padded(s), left)
  {
    var all := s + (Terminator(bitPtr) + [false]);
    if bitPtr == 0 {
      assert Padded(s) == s;
      assert all[..8 * charPtr] == s;
      assert left < charPtr ==> all[..8 * left] == s[..8 * left];
    } else {
      assert Padded(s) == all;
    }
  }

  lemma CutAppend(a: seq<bool>, b: seq<bool>, left: nat)
    requires Whole(a)
    ensures |Cut(a, left)| / 8 <= left
    ensures Cut(a + b, left) == Cut(a, left) + Cut(b, left - |Cut(a, left)| / 8)
  {
    if 8 * left <= |a| {
      assert (a + b)[..8 * left] == a[..8 * left];
      assert Cut(b, 0) == [];
    } else {
      assert |a| == 8 * (|a| / 8);
      if 8 * left <= |a + b| {
        assert (a + b)[..8 * left] == a + b[..8 * left - |a|];
      }
    }
  }

  lemma LargestFrame(f: Frame)
    requires FrameFits(f)
    ensures |FrameBits(f)| <= 492
  {
    FrameSizeIs(f);
  }

  /** One frame by itself, encoded and written out. */
  method EncodeSingle(bits: SpeexBits, t: Termination, f: Frame, out: array<bv8>, at: nat, left: nat) returns (n: nat)
    requires bits.Valid() && bits.bufSize >= 64 && FrameFits(f) && !t.Normal?
    requires out != bits.chars && at + left <= out.Length
    modifies bits, bits.chars, out
    ensures bits.Valid() && bits.chars == old(bits.chars) && bits.bufSize == old(bits.bufSize)
    ensures n <= left && BitsOf(out[at..at + n]) == Cut(Single(t, f), left)
    ensures out[..at] == old(out[..at])
  {
    hide BitsOf, FrameBits, Padded, Cut, FieldBits, Blank, FrameFits;
    LargestFrame(f);
    FrameSizeIs(f);
    bits.Reset();
    NbEncode(bits, f);
    assert bits.Contents() == FrameBits(f);
    if !t.Never? {
      bits.PackField(15, 5);
    }
    n := WriteOut(bits, out, at, left);
  }

  /** encode: the frames of one call, as many bytes as there is room for. In the normal mode they must fit
      the bit buffer, whose growth would clear it. */
  method EncodePacket(bits: SpeexBits, t: Termination, frames: seq<Frame>, out: array<bv8>, outlen: nat) returns (n: nat)
    requires bits.Valid() && bits.bufSize >= 64 && AllFit(frames)
    requires out != bits.chars && outlen <= out.Length
    requires t.Normal? ==> (|AllBits(frames)| + 5) / 8 < bits.bufSize
    modifies bits, bits.chars, out
    ensures bits.Valid() && n <= outlen && BitsOf(out[..n]) == Cut(Packet(t, frames), outlen)
  {
    if t.Normal? {
      n := EncodeTogether(bits, frames, out, outlen);
      assert out[..n] == out[0..0 + n];
    } else {
      n := EncodeApart(bits, t, frames, out, outlen);
    }
  }

  method EncodeTogether(bits: SpeexBits, frames: seq<Frame>, out: array<bv8>, outlen: nat) returns (n: nat)
    requires bits.Valid() && AllFit(frames)
    requires out != bits.chars && outlen <= out.Length
    requires (|AllBits(frames)| + 5) / 8 < bits.bufSize
    modifies bits, bits.chars, out
    ensures bits.Valid() && n <= outlen && BitsOf(out[0..0 + n]) == Cut(Padded(Terminated(AllBits(frames))), outlen)
  {
    hide BitsOf, FrameBits, Padded, Cut, FieldBits, Blank, FrameFits, AllBits;
    bits.Reset();
    var i := 0;
    ghost var all := AllBits(frames);
    assert frames[0..] == frames;
    while i < |frames|
      invariant 0 <= i <= |frames| && AllFit(frames[i..])
      invariant bits.Writing() && Blank(bits.Tail())
      invariant bits.chars == old(bits.chars) && bits.bufSize == old(bits.bufSize)
      invariant bits.Contents() + AllBits(frames[i..]) == all
    {
      AllBitsFrom(frames, i);
      FrameSizeIs(frames[i]);
      ghost var contents := bits.Contents();
      NbEncode(bits, frames[i]);
      Reassociated(contents, FrameBits(frames[i]), AllBits(frames[i + 1..]));
      i := i + 1;
    }
    AllBitsOfNone(frames[i..]);
    assert bits.Contents() == all;
    bits.PackField(15, 5);
    n := WriteOut(bits, out, 0, outlen);
  }

  lemma AllBitsFrom(fs: seq<Frame>, i: nat)
    requires i < |fs| && AllFit(fs[i..])
    ensures FrameFits(fs[i]) && AllFit(fs[i + 1..])
    ensures AllBits(fs[i..]) == FrameBits(fs[i]) + AllBits(fs[i + 1..])
  {
    hide FrameFits, FrameBits;
    assert fs[i..][1..] == fs[i + 1..];
  }

  lemma AllBitsOfNone(fs: seq<Frame>)
    requires fs == []
    ensures AllFit(fs) && AllBits(fs) == []
  {
  }

  method EncodeApart(bits: SpeexBits, t: Termination, frames: seq<Frame>, out: array<bv8>, outlen: nat) returns (n: nat)
    requires bits.Valid() && bits.bufSize >= 64 && AllFit(frames) && !t.Normal?
    requires out != bits.chars && outlen <= out.Length
    modifies bits, bits.chars, out
    ensures bits.Valid() && n <= outlen && BitsOf(out[..n]) == Cut(Singles(t, frames), outlen)
  {
    hide BitsOf, Single, Singles, Cut, FrameFits, Whole;
    ghost var whole := Singles(t, frames);
    n := 0;
    var i := 0;
    assert frames[0..] == frames;
    NoBytes(out[..0]);
    while i < |frames|
      invariant 0 <= i <= |frames| && AllFit(frames[i..])
      invariant bits.Valid() && bits.chars == old(bits.chars) && bits.bufSize == old(bits.bufSize)
      invariant n <= outlen
      invariant BitsOf(out[..n]) + Cut(Singles(t, frames[i..]), outlen - n) == Cut(whole, outlen)
    {
      SinglesFrom(t, frames, i);
      ghost var before := out[..n];
      ghost var later := Singles(t, frames[i + 1..]);
      CutAppend(Single(t, frames[i]), later, outlen - n);
      var k := EncodeSingle(bits, t, frames[i], out, n, outlen - n);
      assert out[..n + k] == before + out[n..n + k];
      BitsOfAppend(before, out[n..n + k]);
      assert |BitsOf(out[n..n + k])| == 8 * k;
      Reassociated(BitsOf(before), BitsOf(out[n..n + k]), Cut(later, outlen - n - k));
      n := n + k;
      i := i + 1;
    }
    NoSinglesLeft(t, frames[i..], outlen - n);
    assert BitsOf(out[..n]) + [] == BitsOf(out[..n]);
  }

  lemma NoBytes(cs: seq<bv8>)
    requires cs == []
    ensures forall s: seq<bool> :: BitsOf(cs) + s == s
  {
  }

  lemma SinglesFrom(t: Termination, fs: seq<Frame>, i: nat)
    requires i < |fs| && AllFit(fs[i..])
    ensures FrameFits(fs[i]) && AllFit(fs[i + 1..])
    ensures Singles(t, fs[i..]) == Single(t, fs[i]) + Singles(t, fs[i + 1..]) && Whole(Single(t, fs[i]))
  {
    hide FrameFits, Single, Whole, Padded, FrameBits;
    assert fs[i..][1..] == fs[i + 1..];
    SingleIsWhole(t, fs[i]);
  }

  lemma SingleIsWhole(t: Termination, f: Frame)
    requires FrameFits(f)
    ensures Whole(Single(t, f))
  {
    hide FrameFits, FrameBits, Whole, Padded;
    PaddedIsWhole(FrameBits(f));
    PaddedIsWhole(Terminated(FrameBits(f)));
  }

  lemma NoSinglesLeft(t: Termination, fs: seq<Frame>, left: nat)
    requires fs == []
    ensures AllFit(fs) && Cut(Singles(t, fs), left) == []
  {
  }

  /** decode: the frames there is room for. For an empty packet the decoder makes up a frame, which is
      `concealed` here, and reads nothing. */
  method DecodePacket(bits: SpeexBits, t: Termination, packet: array<bv8>, len: nat, room: nat, grows: bool)
    returns (frames: seq<Frame>, concealed: bool)
    requires bits.Valid() && packet != bits.chars && len <= packet.Length
    requires len <= bits.bufSize || (bits.owner && grows)
    modifies bits, bits.chars
    ensures bits.Valid() && (concealed <==> len == 0)
    ensures len == 0 ==> frames == [] && bits.Contents() == old(bits.Contents()) && bits.Unread() == old(bits.Unread())
    ensures len > 0 ==> frames == Taken(t, In(BitsOf(packet[..len]), false), room)
  {
    hide BitsOf, View, Skip, Parse, Taken;
    if len == 0 {
      return [], true;
    }
    concealed := false;
    bits.ReadFrom(packet, len, grows);
    ViewIs(bits, BitsOf(packet[..len]));
    frames := DecodeAll(bits, t, room);
  }

  /** The decoding loop. */
  method DecodeAll(bits: SpeexBits, t: Termination, room: nat) returns (frames: seq<Frame>)
    requires bits.Valid()
    modifies bits`charPtr, bits`bitPtr, bits`overflow
    ensures bits.Valid() && frames == Taken(t, old(View(bits)), room)
  {
    hide BitsOf, View, Skip, Parse, Taken, Remaining, Mod8;
    ghost var all := Taken(t, View(bits), room);
    frames := [];
    var outlen: nat := room;
    assert [] + all == all;
    var more := LeftOver(bits);
    var go := true;
    while go && more != 0 && outlen > 0
      invariant bits.Valid() && more == Remaining(View(bits))
      invariant frames + (if go then Taken(t, View(bits), outlen) else []) == all
      decreases go, outlen, |View(bits).bits|
    {
      var got;
      go, got := Round(bits, t, outlen);
      Reassociated(frames, got, if go then Taken(t, View(bits), outlen - |got|) else []);
      outlen := outlen - |got|;
      frames := frames + got;
      more := LeftOver(bits);
    }
    if go {
      TakeNothing(t, View(bits), outlen);
    }
    NothingMore(frames);
  }

  /** One round: the frame decoded, if any, and whether the loop goes on. */
  method Round(bits: SpeexBits, t: Termination, outlen: nat) returns (go: bool, got: seq<Frame>)
    requires bits.Valid() && Remaining(View(bits)) != 0 && outlen > 0
    modifies bits`charPtr, bits`bitPtr, bits`overflow
    ensures bits.Valid() && |got| <= 1
    ensures Taken(t, old(View(bits)), outlen) == got + if go then Taken(t, View(bits), outlen - |got|) else []
    ensures go && got == [] ==> |View(bits).bits| < |old(View(bits)).bits|
  {
    hide BitsOf, View, Skip, Parse, Taken, Remaining;
    TakenStep(t, View(bits), outlen);
    var o := NbDecode(bits);
    match o {
      case Decoded(f) =>
        if t.Never? {
          SkipPast(bits);
        }
        return true, [f];
      case Failed(code) =>
        if code == -1 {
          var bitsLeft := LeftOver(bits);
          if Mod8(bitsLeft) >= 5 {
            SkipPast(bits);
            assert [] + Taken(t, View(bits), outlen) == Taken(t, View(bits), outlen);
            return true, [];
          }
        }
        return false, [];
      case Requested(_) =>
        return false, [];
    }
  }

  lemma ViewIs(bits: SpeexBits, s: seq<bool>)
    requires bits.Valid() && !bits.overflow && bits.Unread() == s
    ensures View(bits) == In(s, false)
  {
  }

  lemma NothingMore<T>(s: seq<T>)
    ensures s + [] == s
  {
  }

  /** The padding behind a frame or terminator passed over, if there is any. */
  method SkipPast(bits: SpeexBits)
    requires bits.Valid()
    modifies bits`charPtr, bits`bitPtr, bits`overflow
    ensures bits.Valid() && View(bits) == SkipPadding(old(View(bits)))
  {
    hide View, Skip;
    var left := LeftOver(bits);
    var bitsLeft := Mod8(left);
    if bitsLeft > 0 {
      Discard(bits, bitsLeft);
    }
  }

  lemma TakenStep(t: Termination, s: In, room: nat)
    requires Remaining(s) != 0 && room > 0
    ensures match Parse(s)
            case Parsed(f, rest) =>
              Taken(t, s, room) == [f] + Taken(t, if t.Never? then SkipPadding(rest) else rest, room - 1)
            case Ended(code, rest) =>
              && |rest.bits| <= |s.bits|
              && Taken(t, s, room)
                 == if code == -1 && Mod8(Remaining(rest)) >= 5 then Taken(t, SkipPadding(rest), room) else []
            case Request(_, _) => Taken(t, s, room) == []
  {
    hide Parse;
  }
}
