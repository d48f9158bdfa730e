/** Where each field of a narrowband frame stands, submode by submode: the offsets and widths in numbers, and
    the values each field may take. The tables are those of iaxclient/lib/libspeex/modes.c and the order that of
    nb_celp.c. */
module FrameLayout {
  import opened Powers
  import opened BitSpec
  import opened FrameFields

  /** A number stands in a field of so many bits at an offset. */
  ghost predicate At(s: seq<bool>, at: nat, width: nat, v: int) {
    at + width <= |s| && s[at..at + width] == FieldBits(v, width)
  }

  /** What every coded frame begins with: no wideband layer, the submode, and the quantised LSPs in 6 bits each. */
  ghost predicate HasStart(s: seq<bool>, m: nat, b: Body, lsps: nat) {
    && At(s, 0, 1, 0) && At(s, 1, 4, m)
    && |b.lsp| == lsps && forall j :: 0 <= j < lsps ==> At(s, 5 + 6 * j, 6, b.lsp[j])
  }

  /** A subframe from an offset on: pitch lag, gain index and energy in their widths, and then the indices of
      the innovation codebook, once or twice. */
  ghost predicate HasSub(s: seq<bool>, at: nat, x: Sub, pitch: nat, gain: nat, energy: nat,
                         count: nat, width: nat, twice: bool) {
    var codes := at + pitch + gain + energy;
    && At(s, at, pitch, x.pitch) && At(s, at + pitch, gain, x.gain) && At(s, at + pitch + gain, energy, x.energy)
    && HasCodes(s, codes, x.codes, count, width)
    && (if twice then HasCodes(s, codes + count * width, x.codes2, count, width) else x.codes2 == [])
  }

  ghost predicate HasCodes(s: seq<bool>, at: nat, codes: seq<nat>, count: nat, width: nat) {
    |codes| == count && forall j :: 0 <= j < count ==> At(s, at + j * width, width, codes[j])
  }

  /** Four subframes, each as long as the next is away. */
  ghost predicate HasSubs(s: seq<bool>, at: nat, step: nat, subs: seq<Sub>, pitch: nat, gain: nat, energy: nat,
                          count: nat, width: nat, twice: bool) {
    && |subs| == 4 && HasSub(s, at, subs[0], pitch, gain, energy, count, width, twice)
    && HasSub(s, at + step, subs[1], pitch, gain, energy, count, width, twice)
    && HasSub(s, at + 2 * step, subs[2], pitch, gain, energy, count, width, twice)
    && HasSub(s, at + 3 * step, subs[3], pitch, gain, energy, count, width, twice)
  }

  ghost predicate CodesBelow(codes: seq<nat>, count: nat, limit: nat) {
    |codes| == count && forall j :: 0 <= j < count ==> codes[j] < limit
  }

  ghost predicate SubsBelow(subs: seq<Sub>, pitch: nat, gain: nat, energy: nat, count: nat, limit: nat, twice: bool) {
    |subs| == 4 && forall i :: 0 <= i < 4 ==>
      && subs[i].pitch < pitch && subs[i].gain < gain && subs[i].energy < energy
      && CodesBelow(subs[i].codes, count, limit)
      && CodesBelow(subs[i].codes2, if twice then count else 0, limit)
  }

  ghost predicate StartBelow(b: Body, lsps: nat, pitch: nat, coef: nat, extra: nat) {
    CodesBelow(b.lsp, lsps, 64) && b.olPitch < pitch && b.olCoef < coef && b.olGain < 32 && b.extra < extra
  }

  /** The layers of a wideband frame, with the four bits of the flag and submode: 12 bits of LSPs, and in each of four
      subframes a gain of 5 bits, or a gain of 4 and four codes of 5, five codes of 8, or those twice. */
  lemma WidebandLayers()
    ensures WidebandBits(0) == 4
    ensures WidebandBits(1) == 4 + 12 + 4 * 5 && WidebandBits(2) == 4 + 12 + 4 * (4 + 4 * 5)
    ensures WidebandBits(3) == 4 + 12 + 4 * (4 + 5 * 8) && WidebandBits(4) == 4 + 12 + 4 * (4 + 2 * 5 * 8)
    ensures forall m: nat :: m > 4 ==> WidebandBits(m) == -1
  {
  }

  // ----- the eight submodes -----

  /** Comfort noise, 43 bits. */
  lemma Submode1(b: Body)
    ensures FrameFits(Coded(1, b)) <==> StartBelow(b, 3, 128, 16, 16) && SubsBelow(b.subs, 1, 1, 1, 0, 1, false)
    ensures FrameFits(Coded(1, b)) ==>
              var s := FrameBits(Coded(1, b));
              && |s| == 43 && HasStart(s, 1, b, 3)
              && At(s, 23, 7, b.olPitch) && At(s, 30, 4, b.olCoef) && At(s, 34, 5, b.olGain) && At(s, 39, 4, b.extra)
  {
    hide FrameFits, FrameBits, At, HasStart, HasSubs, StartBelow, SubsBelow, Pow2;
    Ranges(1, b);
    PowersOfTwo();
    if FrameFits(Coded(1, b)) {
      Placed(1, b);
    }
  }

  /** 5.95 kbit/s, 119 bits: no pitch lag in the subframes, gains in 5 bits, four indices of 4 bits. */
  lemma Submode2(b: Body)
    ensures FrameFits(Coded(2, b)) <==> StartBelow(b, 3, 128, 1, 1) && SubsBelow(b.subs, 1, 32, 1, 4, 16, false)
    ensures FrameFits(Coded(2, b)) ==>
              var s := FrameBits(Coded(2, b));
              && |s| == 119 && HasStart(s, 2, b, 3) && At(s, 23, 7, b.olPitch) && At(s, 30, 5, b.olGain)
              && HasSubs(s, 35, 21, b.subs, 0, 5, 0, 4, 4, false)
  {
    hide FrameFits, FrameBits, At, HasStart, HasSubs, StartBelow, SubsBelow, Pow2;
    Ranges(2, b);
    PowersOfTwo();
    if FrameFits(Coded(2, b)) {
      Placed(2, b);
    }
  }

  /** 8 kbit/s, 160 bits: pitch lags in 7 bits, gains in 5, energies in 1, four indices of 5 bits. */
  lemma Submode3(b: Body)
    ensures FrameFits(Coded(3, b)) <==> StartBelow(b, 3, 1, 1, 1) && SubsBelow(b.subs, 128, 32, 2, 4, 32, false)
    ensures FrameFits(Coded(3, b)) ==>
              var s := FrameBits(Coded(3, b));
              && |s| == 160 && HasStart(s, 3, b, 3) && At(s, 23, 5, b.olGain)
              && HasSubs(s, 28, 33, b.subs, 7, 5, 1, 4, 5, false)
  {
    hide FrameFits, FrameBits, At, HasStart, HasSubs, StartBelow, SubsBelow, Pow2;
    Ranges(3, b);
    PowersOfTwo();
    if FrameFits(Coded(3, b)) {
      Placed(3, b);
    }
  }

  /** 11 kbit/s, 220 bits: as 8 kbit/s, with five indices of 7 bits. */
  lemma Submode4(b: Body)
    ensures FrameFits(Coded(4, b)) <==> StartBelow(b, 3, 1, 1, 1) && SubsBelow(b.subs, 128, 32, 2, 5, 128, false)
    ensures FrameFits(Coded(4, b)) ==>
              var s := FrameBits(Coded(4, b));
              && |s| == 220 && HasStart(s, 4, b, 3) && At(s, 23, 5, b.olGain)
              && HasSubs(s, 28, 48, b.subs, 7, 5, 1, 5, 7, false)
  {
    hide FrameFits, FrameBits, At, HasStart, HasSubs, StartBelow, SubsBelow, Pow2;
    Ranges(4, b);
    PowersOfTwo();
    if FrameFits(Coded(4, b)) {
      Placed(4, b);
    }
  }

  /** 15 kbit/s, 300 bits: five stages of LSPs, lags and gains in 7 bits, energies in 3, eight indices of 6 bits. */
  lemma Submode5(b: Body)
    ensures FrameFits(Coded(5, b)) <==> StartBelow(b, 5, 1, 1, 1) && SubsBelow(b.subs, 128, 128, 8, 8, 64, false)
    ensures FrameFits(Coded(5, b)) ==>
              var s := FrameBits(Coded(5, b));
              && |s| == 300 && HasStart(s, 5, b, 5) && At(s, 35, 5, b.olGain)
              && HasSubs(s, 40, 65, b.subs, 7, 7, 3, 8, 6, false)
  {
    hide FrameFits, FrameBits, At, HasStart, HasSubs, StartBelow, SubsBelow, Pow2;
    Ranges(5, b);
    PowersOfTwo();
    if FrameFits(Coded(5, b)) {
      Placed(5, b);
    }
  }

  /** 18.2 kbit/s, 364 bits: as 15 kbit/s, with indices of 8 bits. */
  lemma Submode6(b: Body)
    ensures FrameFits(Coded(6, b)) <==> StartBelow(b, 5, 1, 1, 1) && SubsBelow(b.subs, 128, 128, 8, 8, 256, false)
    ensures FrameFits(Coded(6, b)) ==>
              var s := FrameBits(Coded(6, b));
              && |s| == 364 && HasStart(s, 6, b, 5) && At(s, 35, 5, b.olGain)
              && HasSubs(s, 40, 81, b.subs, 7, 7, 3, 8, 8, false)
  {
    hide FrameFits, FrameBits, At, HasStart, HasSubs, StartBelow, SubsBelow, Pow2;
    Ranges(6, b);
    PowersOfTwo();
    if FrameFits(Coded(6, b)) {
      Placed(6, b);
    }
  }

  /** 24.6 kbit/s, 492 bits: as 15 kbit/s, with the innovation quantised twice. */
  lemma Submode7(b: Body)
    ensures FrameFits(Coded(7, b)) <==> StartBelow(b, 5, 1, 1, 1) && SubsBelow(b.subs, 128, 128, 8, 8, 64, true)
    ensures FrameFits(Coded(7, b)) ==>
              var s := FrameBits(Coded(7, b));
              && |s| == 492 && HasStart(s, 7, b, 5) && At(s, 35, 5, b.olGain)
              && HasSubs(s, 40, 113, b.subs, 7, 7, 3, 8, 6, true)
  {
    hide FrameFits, FrameBits, At, HasStart, HasSubs, StartBelow, SubsBelow, Pow2;
    Ranges(7, b);
    PowersOfTwo();
    if FrameFits(Coded(7, b)) {
      Placed(7, b);
    }
  }

  /** 3.95 kbit/s, 79 bits: one pitch lag and gain for the frame, two indices of 5 bits. */
  lemma Submode8(b: Body)
    ensures FrameFits(Coded(8, b)) <==> StartBelow(b, 3, 128, 16, 1) && SubsBelow(b.subs, 1, 1, 1, 2, 32, false)
    ensures FrameFits(Coded(8, b)) ==>
              var s := FrameBits(Coded(8, b));
              && |s| == 79 && HasStart(s, 8, b, 3)
              && At(s, 23, 7, b.olPitch) && At(s, 30, 4, b.olCoef) && At(s, 34, 5, b.olGain)
              && HasSubs(s, 39, 10, b.subs, 0, 0, 0, 2, 5, false)
  {
    hide FrameFits, FrameBits, At, HasStart, HasSubs, StartBelow, SubsBelow, Pow2;
    Ranges(8, b);
    PowersOfTwo();
    if FrameFits(Coded(8, b)) {
      Placed(8, b);
    }
  }

  lemma PowersOfTwo()
    ensures Pow2(0) == 1 && Pow2(1) == 2 && Pow2(3) == 8 && Pow2(4) == 16
    ensures Pow2(5) == 32 && Pow2(6) == 64 && Pow2(7) == 128 && Pow2(8) == 256
  {
  }

  // ----- the values -----

  function PitchBits(sm: Submode): nat {
    if sm.ltp.Ltp? then sm.ltp.pitchBits else 0
  }

  function GainBits(sm: Submode): nat {
    if sm.ltp.Ltp? then sm.ltp.gainBits else 0
  }

  function CodeCount(sm: Submode): nat {
    if sm.book.Book? then sm.book.subvects else 0
  }

  function CodeBits(sm: Submode): nat {
    if sm.book.Book? then sm.book.shapeBits else 0
  }

  function Twice(sm: Submode): bool {
    sm.book.Book? && sm.doubleBook
  }

  /** The values of a frame, by the widths of its submode. */
  lemma Ranges(m: nat, b: Body)
    requires SubmodeOf(m).Listed?
    ensures var sm := SubmodeOf(m).sm;
            FrameFits(Coded(m, b)) <==>
            && StartBelow(b, sm.lspStages, Pow2(if sm.lbrPitch != -1 then 7 else 0), Pow2(if sm.forcedGain then 4 else 0),
                          Pow2(if m == 1 then 4 else 0))
            && SubsBelow(b.subs, Pow2(PitchBits(sm)), Pow2(GainBits(sm)), Pow2(sm.subframeGain),
                         CodeCount(sm), Pow2(CodeBits(sm)), Twice(sm))
  {
    hide SubmodeOf, Pow2, SubFits, PitchBits, GainBits, CodeCount, CodeBits, Twice;
    var sm := SubmodeOf(m).sm;
    SubsRanges(sm, b.subs);
    PowersAre();
    forall i | 0 <= i < |b.subs|
      ensures SubFits(sm, b.subs[i]) <==>
              && b.subs[i].pitch < Pow2(PitchBits(sm)) && b.subs[i].gain < Pow2(GainBits(sm))
              && b.subs[i].energy < Pow2(sm.subframeGain) && CodesBelow(b.subs[i].codes, CodeCount(sm), Pow2(CodeBits(sm)))
              && CodesBelow(b.subs[i].codes2, if Twice(sm) then CodeCount(sm) else 0, Pow2(CodeBits(sm)))
    {
      SubRanges(sm, b.subs[i]);
    }
  }

  lemma PowersAre()
    ensures Pow2(5) == 32 && Pow2(6) == 64
  {
  }

  lemma {:induction false} SubsRanges(sm: Submode, subs: seq<Sub>)
    ensures SubsFit(sm, subs) <==> forall i :: 0 <= i < |subs| ==> SubFits(sm, subs[i])
    decreases |subs|
  {
    hide SubFits;
    if subs != [] {
      SubsRanges(sm, subs[1..]);
      assert forall i :: 1 <= i < |subs| ==> subs[i] == subs[1..][i - 1];
    }
  }

  lemma SubRanges(sm: Submode, x: Sub)
    ensures SubFits(sm, x) <==>
            && x.pitch < Pow2(PitchBits(sm)) && x.gain < Pow2(GainBits(sm)) && x.energy < Pow2(sm.subframeGain)
            && CodesBelow(x.codes, CodeCount(sm), Pow2(CodeBits(sm)))
            && CodesBelow(x.codes2, if Twice(sm) then CodeCount(sm) else 0, Pow2(CodeBits(sm)))
  {
    assert Pow2(0) == 1;
    hide Pow2;
  }

  // ----- the places -----

  lemma InMiddle(a: seq<bool>, b: seq<bool>, c: seq<bool>, at: nat, width: nat, v: int)
    requires At(b, at, width, v)
    ensures At(a + b + c, |a| + at, width, v)
  {
    hide FieldBits;
    assert (a + b + c)[|a| + at..|a| + at + width] == b[at..at + width];
  }

  lemma OneField(v: int, width: nat)
    ensures At(Encode([Field(v, width)]), 0, width, v) && |Encode([Field(v, width)])| == width
  {
    hide FieldBits;
    assert [Field(v, width)][1..] == [];
    assert Encode([Field(v, width)]) == FieldBits(v, width) + [];
  }

  lemma {:induction false} CodesPlaced(codes: seq<nat>, width: nat)
    ensures HasCodes(Encode(PutCodes(codes, width)), 0, codes, |codes|, width)
    ensures |Encode(PutCodes(codes, width))| == |codes| * width
  {
    hide Encode, FieldBits, At;
    CodesSize(codes, width);
    if codes != [] {
      var n := |codes| - 1;
      var front, last := PutCodes(codes[..n], width), [Field(codes[n], width)];
      CodesPlaced(codes[..n], width);
      assert PutCodes(codes, width) == front + last;
      EncodeAppend(front, last);
      OneField(codes[n], width);
      var a, z := Encode(front), Encode(last);
      InMiddle(a, z, [], 0, width, codes[n]);
      assert a + z + [] == a + z;
      forall j | 0 <= j < n
        ensures At(a + z, 0 + j * width, width, codes[j])
      {
        InMiddle([], a, z, j * width, width, codes[..n][j]);
        assert [] + a + z == a + z;
      }
    }
  }

  lemma CodesInMiddle(a: seq<bool>, b: seq<bool>, c: seq<bool>, at: nat, codes: seq<nat>, count: nat, width: nat)
    requires HasCodes(b, at, codes, count, width)
    ensures HasCodes(a + b + c, |a| + at, codes, count, width)
  {
    hide At;
    forall j | 0 <= j < count
      ensures At(a + b + c, |a| + at + j * width, width, codes[j])
    {
      InMiddle(a, b, c, at + j * width, width, codes[j]);
    }
  }

  lemma SubInMiddle(a: seq<bool>, b: seq<bool>, c: seq<bool>, at: nat, x: Sub, pitch: nat, gain: nat, energy: nat,
                    count: nat, width: nat, twice: bool)
    requires HasSub(b, at, x, pitch, gain, energy, count, width, twice)
    ensures HasSub(a + b + c, |a| + at, x, pitch, gain, energy, count, width, twice)
  {
    hide At, HasCodes;
    InMiddle(a, b, c, at, pitch, x.pitch);
    InMiddle(a, b, c, at + pitch, gain, x.gain);
    InMiddle(a, b, c, at + pitch + gain, energy, x.energy);
    CodesInMiddle(a, b, c, at + pitch + gain + energy, x.codes, count, width);
    if twice {
      CodesInMiddle(a, b, c, at + pitch + gain + energy + count * width, x.codes2, count, width);
    }
  }

  /** The table's energies have 0, 1 or 3 bits. */
  predicate Plain(sm: Submode) {
    sm.subframeGain == 0 || sm.subframeGain == 1 || sm.subframeGain == 3
  }

  lemma LtpPlaced(sm: Submode, x: Sub)
    ensures var s := Encode(PutLtp(sm, x));
            && |s| == PitchBits(sm) + GainBits(sm)
            && At(s, 0, PitchBits(sm), x.pitch) && At(s, PitchBits(sm), GainBits(sm), x.gain)
  {
    hide FieldBits, At, Encode;
    if sm.ltp.Ltp? {
      var p, g := [Field(x.pitch, PitchBits(sm))], [Field(x.gain, GainBits(sm))];
      assert PutLtp(sm, x) == p + g;
      EncodeAppend(p, g);
      OneField(x.pitch, PitchBits(sm));
      OneField(x.gain, GainBits(sm));
      var a, b := Encode(p), Encode(g);
      InMiddle([], a, b, 0, PitchBits(sm), x.pitch);
      InMiddle(a, b, [], 0, GainBits(sm), x.gain);
      assert [] + a + b == a + b && a + b + [] == a + b;
    } else {
      EncodeNothing();
      NoField(x.pitch);
      NoField(x.gain);
    }
  }

  lemma NoField(v: int)
    ensures At([], 0, 0, v)
  {
  }

  lemma EnergyPlaced(sm: Submode, x: Sub)
    requires Plain(sm)
    ensures var s := Encode(PutEnergy(sm, x));
            |s| == sm.subframeGain && At(s, 0, sm.subframeGain, x.energy)
  {
    hide FieldBits, At, Encode;
    OneField(x.energy, sm.subframeGain);
    EncodeNothing();
    NoField(x.energy);
  }

  lemma BookPlaced(sm: Submode, codes: seq<nat>)
    requires |codes| == CodeCount(sm)
    ensures HasCodes(Encode(PutBook(sm, codes)), 0, codes, CodeCount(sm), CodeBits(sm))
    ensures |Encode(PutBook(sm, codes))| == CodeCount(sm) * CodeBits(sm)
  {
    hide FieldBits, At, Encode;
    if sm.book.Book? {
      CodesPlaced(codes, sm.book.shapeBits);
    } else {
      EncodeNothing();
    }
  }

  lemma SubPlaced(sm: Submode, x: Sub)
    requires Plain(sm) && |x.codes| == CodeCount(sm) && |x.codes2| == (if Twice(sm) then CodeCount(sm) else 0)
    ensures var s := Encode(PutSub(sm, x));
            && HasSub(s, 0, x, PitchBits(sm), GainBits(sm), sm.subframeGain, CodeCount(sm), CodeBits(sm), Twice(sm))
            && |s| == SubLength(sm)
  {
    hide At, HasCodes, Encode, PutLtp, PutEnergy, PutBook, PitchBits, GainBits, CodeCount, CodeBits, Plain;
    var again := if sm.doubleBook then PutBook(sm, x.codes2) else [];
    LtpPlaced(sm, x);
    EnergyPlaced(sm, x);
    BookPlaced(sm, x.codes);
    AgainPlaced(sm, x);
    EncodeAppend(PutLtp(sm, x), PutEnergy(sm, x));
    EncodeAppend(PutLtp(sm, x) + PutEnergy(sm, x), PutBook(sm, x.codes));
    EncodeAppend(PutLtp(sm, x) + PutEnergy(sm, x) + PutBook(sm, x.codes), again);
    PiecesPlaced(Encode(PutLtp(sm, x)), Encode(PutEnergy(sm, x)), Encode(PutBook(sm, x.codes)), Encode(again), x,
                 PitchBits(sm), GainBits(sm), sm.subframeGain, CodeCount(sm), CodeBits(sm), Twice(sm));
  }

  function SubLength(sm: Submode): nat {
    PitchBits(sm) + GainBits(sm) + sm.subframeGain + CodeCount(sm) * CodeBits(sm)
    + if Twice(sm) then CodeCount(sm) * CodeBits(sm) else 0
  }

  lemma AgainPlaced(sm: Submode, x: Sub)
    requires |x.codes2| == (if Twice(sm) then CodeCount(sm) else 0)
    ensures var s := Encode(if sm.doubleBook then PutBook(sm, x.codes2) else []);
            if Twice(sm) then HasCodes(s, 0, x.codes2, CodeCount(sm), CodeBits(sm)) && |s| == CodeCount(sm) * CodeBits(sm)
            else s == []
  {
    hide FieldBits, At, HasCodes;
    if Twice(sm) {
      BookPlaced(sm, x.codes2);
    }
  }

  lemma PiecesPlaced(l: seq<bool>, e: seq<bool>, c: seq<bool>, d: seq<bool>, x: Sub, pitch: nat, gain: nat, energy: nat,
                     count: nat, width: nat, twice: bool)
    requires |l| == pitch + gain && At(l, 0, pitch, x.pitch) && At(l, pitch, gain, x.gain)
    requires |e| == energy && At(e, 0, energy, x.energy)
    requires |c| == count * width && HasCodes(c, 0, x.codes, count, width)
    requires if twice then HasCodes(d, 0, x.codes2, count, width) else x.codes2 == []
    ensures HasSub(l + e + c + d, 0, x, pitch, gain, energy, count, width, twice)
  {
    hide At, HasCodes;
    var s := l + e + c + d;
    InMiddle([], l, e + c + d, 0, pitch, x.pitch);
    InMiddle([], l, e + c + d, pitch, gain, x.gain);
    assert [] + l + (e + c + d) == s;
    InMiddle(l, e, c + d, 0, energy, x.energy);
    assert l + e + (c + d) == s;
    CodesInMiddle(l + e, c, d, 0, x.codes, count, width);
    if twice {
      CodesInMiddle(l + e + c, d, [], 0, x.codes2, count, width);
      assert s + [] == s;
    }
  }

  lemma StartPlaced(sm: Submode, b: Body)
    ensures var s, p := Encode(PutStart(sm, b)), 6 * |b.lsp|;
            var c := p + if sm.lbrPitch != -1 then 7 else 0;
            var g := c + if sm.forcedGain then 4 else 0;
            && |s| == g + 5
            && (forall j :: 0 <= j < |b.lsp| ==> At(s, 6 * j, 6, b.lsp[j]))
            && (sm.lbrPitch != -1 ==> At(s, p, 7, b.olPitch))
            && (sm.forcedGain ==> At(s, c, 4, b.olCoef))
            && At(s, g, 5, b.olGain)
  {
    hide At, Encode, PutCodes;
    var l := PutCodes(b.lsp, 6);
    var p := if sm.lbrPitch != -1 then [Field(b.olPitch, 7)] else [];
    var c := if sm.forcedGain then [Field(b.olCoef, 4)] else [];
    var g := [Field(b.olGain, 5)];
    CodesPlaced(b.lsp, 6);
    EncodeNothing();
    OneField(b.olPitch, 7);
    OneField(b.olCoef, 4);
    OneField(b.olGain, 5);
    EncodeAppend(l, p);
    EncodeAppend(l + p, c);
    EncodeAppend(l + p + c, g);
    StartPieces(Encode(l), Encode(p), Encode(c), Encode(g), sm, b);
  }

  lemma StartPieces(l: seq<bool>, p: seq<bool>, c: seq<bool>, g: seq<bool>, sm: Submode, b: Body)
    requires HasCodes(l, 0, b.lsp, |b.lsp|, 6) && |l| == |b.lsp| * 6
    requires if sm.lbrPitch != -1 then At(p, 0, 7, b.olPitch) else true
    requires if sm.forcedGain then At(c, 0, 4, b.olCoef) else true
    requires At(g, 0, 5, b.olGain)
    ensures var s := l + p + c + g;
            && (forall j :: 0 <= j < |b.lsp| ==> At(s, 6 * j, 6, b.lsp[j]))
            && (sm.lbrPitch != -1 ==> At(s, |l|, 7, b.olPitch))
            && (sm.forcedGain ==> At(s, |l + p|, 4, b.olCoef))
            && At(s, |l + p + c|, 5, b.olGain)
  {
    hide At;
    var s := l + p + c + g;
    assert [] + l + (p + c + g) == s && l + p + (c + g) == s && s + [] == s;
    CodesInMiddle([], l, p + c + g, 0, b.lsp, |b.lsp|, 6);
    forall j | 0 <= j < |b.lsp|
      ensures At(s, 6 * j, 6, b.lsp[j])
    {
      assert At(s, 0 + 0 + j * 6, 6, b.lsp[j]);
    }
    if sm.lbrPitch != -1 {
      InMiddle(l, p, c + g, 0, 7, b.olPitch);
    }
    if sm.forcedGain {
      InMiddle(l + p, c, g, 0, 4, b.olCoef);
    }
    InMiddle(l + p + c, g, [], 0, 5, b.olGain);
  }

  lemma SubsPlaced(sm: Submode, subs: seq<Sub>)
    requires Plain(sm) && |subs| == 4 && forall i :: 0 <= i < 4 ==>
               |subs[i].codes| == CodeCount(sm) && |subs[i].codes2| == (if Twice(sm) then CodeCount(sm) else 0)
    ensures var s := Encode(PutSubs(sm, subs));
            && |s| == 4 * SubLength(sm)
            && HasSubs(s, 0, SubLength(sm), subs, PitchBits(sm), GainBits(sm), sm.subframeGain, CodeCount(sm), CodeBits(sm), Twice(sm))
  {
    hide HasSub, Encode, PutSub, PitchBits, GainBits, CodeCount, CodeBits, SubLength, Twice, Plain;
    FourSubs(sm, subs);
    SubPlaced(sm, subs[0]);
    SubPlaced(sm, subs[1]);
    SubPlaced(sm, subs[2]);
    SubPlaced(sm, subs[3]);
    SubsPieces(Encode(PutSub(sm, subs[0])), Encode(PutSub(sm, subs[1])), Encode(PutSub(sm, subs[2])),
               Encode(PutSub(sm, subs[3])), subs, SubLength(sm), PitchBits(sm), GainBits(sm), sm.subframeGain,
               CodeCount(sm), CodeBits(sm), Twice(sm));
  }

  lemma FourSubs(sm: Submode, subs: seq<Sub>)
    requires |subs| == 4
    ensures Encode(PutSubs(sm, subs)) == Encode(PutSub(sm, subs[0])) + Encode(PutSub(sm, subs[1]))
                                         + Encode(PutSub(sm, subs[2])) + Encode(PutSub(sm, subs[3]))
  {
    hide Encode, PutSub;
    var a, b, c, d := PutSub(sm, subs[0]), PutSub(sm, subs[1]), PutSub(sm, subs[2]), PutSub(sm, subs[3]);
    assert subs[1..][1..] == subs[2..] && subs[2..][1..] == subs[3..] && subs[3..][1..] == [];
    assert PutSubs(sm, subs[3..]) == d + [] == d;
    assert PutSubs(sm, subs[2..]) == c + d;
    assert PutSubs(sm, subs[1..]) == b + (c + d);
    assert PutSubs(sm, subs) == a + (b + (c + d)) == a + b + c + d;
    EncodeAppend(a + b + c, d);
    EncodeAppend(a + b, c);
    EncodeAppend(a, b);
  }

  lemma SubsPieces(a: seq<bool>, b: seq<bool>, c: seq<bool>, d: seq<bool>, subs: seq<Sub>, step: nat,
                   pitch: nat, gain: nat, energy: nat, count: nat, width: nat, twice: bool)
    requires |subs| == 4 && |a| == |b| == |c| == |d| == step
    requires HasSub(a, 0, subs[0], pitch, gain, energy, count, width, twice)
    requires HasSub(b, 0, subs[1], pitch, gain, energy, count, width, twice)
    requires HasSub(c, 0, subs[2], pitch, gain, energy, count, width, twice)
    requires HasSub(d, 0, subs[3], pitch, gain, energy, count, width, twice)
    ensures |a + b + c + d| == 4 * step
    ensures HasSubs(a + b + c + d, 0, step, subs, pitch, gain, energy, count, width, twice)
  {
    hide HasSub;
    var s := a + b + c + d;
    assert [] + a + (b + c + d) == s && a + b + (c + d) == s && s + [] == s;
    SubInMiddle([], a, b + c + d, 0, subs[0], pitch, gain, energy, count, width, twice);
    SubInMiddle(a, b, c + d, 0, subs[1], pitch, gain, energy, count, width, twice);
    SubInMiddle(a + b, c, d, 0, subs[2], pitch, gain, energy, count, width, twice);
    SubInMiddle(a + b + c, d, [], 0, subs[3], pitch, gain, energy, count, width, twice);
  }

  /** The whole frame, by the table. */
  lemma Placed(m: nat, b: Body)
    requires FrameFits(Coded(m, b))
    ensures var sm, s := SubmodeOf(m).sm, FrameBits(Coded(m, b));
            var p := 5 + 6 * sm.lspStages;
            var c := p + if sm.lbrPitch != -1 then 7 else 0;
            var g := c + if sm.forcedGain then 4 else 0;
            && |s| == sm.bitsPerFrame && HasStart(s, m, b, sm.lspStages)
            && (sm.lbrPitch != -1 ==> At(s, p, 7, b.olPitch))
            && (sm.forcedGain ==> At(s, c, 4, b.olCoef))
            && At(s, g, 5, b.olGain)
            && HasSubs(s, g + 5, SubLength(sm), b.subs, PitchBits(sm), GainBits(sm), sm.subframeGain,
                       CodeCount(sm), CodeBits(sm), Twice(sm))
            && (m == 1 ==> At(s, g + 5 + 4 * SubLength(sm), 4, b.extra))
  {
    hide At, HasSub, SubmodeOf, Encode, PutStart, PutSubs, PitchBits, GainBits, CodeCount, CodeBits, SubLength, Twice, Plain;
    var sm := SubmodeOf(m).sm;
    FrameSizeIs(Coded(m, b));
    FitShape(m, b);
    HeadPlaced(m);
    StartPlaced(sm, b);
    SubsPlaced(sm, b.subs);
    FramePieces(m, b);
    FramePlaced(Encode([Field(0, 1), Field(m, NbSubmodeBits)]), Encode(PutStart(sm, b)), Encode(PutSubs(sm, b.subs)),
                Encode(PutExtra(m, b)), m, sm, b);
  }

  lemma FitShape(m: nat, b: Body)
    requires FrameFits(Coded(m, b))
    ensures var sm := SubmodeOf(m).sm;
            && Plain(sm) && |b.lsp| == sm.lspStages && |b.subs| == 4
            && forall i :: 0 <= i < 4 ==>
                 |b.subs[i].codes| == CodeCount(sm) && |b.subs[i].codes2| == (if Twice(sm) then CodeCount(sm) else 0)
  {
    hide Pow2, PitchBits, GainBits, CodeCount, CodeBits, Twice, FrameFits;
    FitsListed(m, b);
    Ranges(m, b);
    PlainTable(m);
  }

  lemma FitsListed(m: nat, b: Body)
    requires FrameFits(Coded(m, b))
    ensures SubmodeOf(m).Listed?
  {
  }

  lemma PlainTable(m: nat)
    ensures SubmodeOf(m).Listed? ==> Plain(SubmodeOf(m).sm)
  {
  }

  lemma HeadPlaced(m: nat)
    ensures var s := Encode([Field(0, 1), Field(m, NbSubmodeBits)]);
            |s| == 5 && At(s, 0, 1, 0) && At(s, 1, 4, m)
  {
    hide At, Encode;
    OneField(0, 1);
    OneField(m, 4);
    assert [Field(0, 1), Field(m, NbSubmodeBits)] == [Field(0, 1)] + [Field(m, 4)];
    EncodeAppend([Field(0, 1)], [Field(m, 4)]);
    var a, b := Encode([Field(0, 1)]), Encode([Field(m, 4)]);
    InMiddle([], a, b, 0, 1, 0);
    InMiddle(a, b, [], 0, 4, m);
    assert [] + a + b == a + b && a + b + [] == a + b;
  }

  lemma FramePieces(m: nat, b: Body)
    requires FrameFits(Coded(m, b))
    ensures var sm := SubmodeOf(m).sm;
            FrameBits(Coded(m, b))
            == Encode([Field(0, 1), Field(m, NbSubmodeBits)]) + Encode(PutStart(sm, b)) + Encode(PutSubs(sm, b.subs))
               + Encode(PutExtra(m, b))
  {
    hide Encode, PutStart, PutSubs, PutExtra, SubmodeOf;
    var sm := SubmodeOf(m).sm;
    var h, a, u, x := [Field(0, 1), Field(m, NbSubmodeBits)], PutStart(sm, b), PutSubs(sm, b.subs), PutExtra(m, b);
    assert PutFrame(Coded(m, b)) == h + (a + u + x) == h + a + u + x;
    EncodeAppend(h, a);
    EncodeAppend(h + a, u);
    EncodeAppend(h + a + u, x);
  }

  lemma FramePlaced(h: seq<bool>, a: seq<bool>, u: seq<bool>, x: seq<bool>, m: nat, sm: Submode, b: Body)
    requires |h| == 5 && At(h, 0, 1, 0) && At(h, 1, 4, m)
    requires forall j :: 0 <= j < |b.lsp| ==> At(a, 6 * j, 6, b.lsp[j])
    requires var p := 6 * |b.lsp|;
             var c := p + if sm.lbrPitch != -1 then 7 else 0;
             var g := c + if sm.forcedGain then 4 else 0;
             && |a| == g + 5
             && (sm.lbrPitch != -1 ==> At(a, p, 7, b.olPitch))
             && (sm.forcedGain ==> At(a, c, 4, b.olCoef)) && At(a, g, 5, b.olGain)
    requires HasSubs(u, 0, SubLength(sm), b.subs, PitchBits(sm), GainBits(sm), sm.subframeGain, CodeCount(sm), CodeBits(sm), Twice(sm))
    requires |u| == 4 * SubLength(sm) && x == Encode(PutExtra(m, b))
    ensures var s := h + a + u + x;
            var p := 5 + 6 * |b.lsp|;
            var c := p + if sm.lbrPitch != -1 then 7 else 0;
            var g := c + if sm.forcedGain then 4 else 0;
            && HasStart(s, m, b, |b.lsp|)
            && (sm.lbrPitch != -1 ==> At(s, p, 7, b.olPitch))
            && (sm.forcedGain ==> At(s, c, 4, b.olCoef)) && At(s, g, 5, b.olGain)
            && HasSubs(s, g + 5, SubLength(sm), b.subs, PitchBits(sm), GainBits(sm), sm.subframeGain,
                       CodeCount(sm), CodeBits(sm), Twice(sm))
            && (m == 1 ==> At(s, g + 5 + 4 * SubLength(sm), 4, b.extra))
  {
    hide At, HasSub, Encode, PitchBits, GainBits, CodeCount, CodeBits, SubLength, Twice;
    var s := h + a + u + x;
    assert [] + h + (a + u + x) == s && h + a + (u + x) == s && s + [] == s;
    InMiddle([], h, a + u + x, 0, 1, 0);
    InMiddle([], h, a + u + x, 1, 4, m);
    StartInFrame(h, a, u + x, sm, b);
    SubsInMiddle(h + a, u, x, SubLength(sm), b.subs, PitchBits(sm), GainBits(sm), sm.subframeGain,
                 CodeCount(sm), CodeBits(sm), Twice(sm));
    if m == 1 {
      OneField(b.extra, 4);
      InMiddle(h + a + u, x, [], 0, 4, b.extra);
    }
  }

  lemma StartInFrame(h: seq<bool>, a: seq<bool>, z: seq<bool>, sm: Submode, b: Body)
    requires |h| == 5 && forall j :: 0 <= j < |b.lsp| ==> At(a, 6 * j, 6, b.lsp[j])
    requires var p := 6 * |b.lsp|;
             var c := p + if sm.lbrPitch != -1 then 7 else 0;
             var g := c + if sm.forcedGain then 4 else 0;
             && (sm.lbrPitch != -1 ==> At(a, p, 7, b.olPitch))
             && (sm.forcedGain ==> At(a, c, 4, b.olCoef)) && At(a, g, 5, b.olGain)
    ensures var s := h + a + z;
            var p := 5 + 6 * |b.lsp|;
            var c := p + if sm.lbrPitch != -1 then 7 else 0;
            var g := c + if sm.forcedGain then 4 else 0;
            && (forall j :: 0 <= j < |b.lsp| ==> At(s, 5 + 6 * j, 6, b.lsp[j]))
            && (sm.lbrPitch != -1 ==> At(s, p, 7, b.olPitch))
            && (sm.forcedGain ==> At(s, c, 4, b.olCoef)) && At(s, g, 5, b.olGain)
  {
    hide At;
    var p := 6 * |b.lsp|;
    var c := p + if sm.lbrPitch != -1 then 7 else 0;
    var g := c + if sm.forcedGain then 4 else 0;
    forall j | 0 <= j < |b.lsp|
      ensures At(h + a + z, 5 + 6 * j, 6, b.lsp[j])
    {
      InMiddle(h, a, z, 6 * j, 6, b.lsp[j]);
    }
    if sm.lbrPitch != -1 {
      InMiddle(h, a, z, p, 7, b.olPitch);
    }
    if sm.forcedGain {
      InMiddle(h, a, z, c, 4, b.olCoef);
    }
    InMiddle(h, a, z, g, 5, b.olGain);
  }

  lemma SubsInMiddle(a: seq<bool>, b: seq<bool>, c: seq<bool>, step: nat, subs: seq<Sub>,
                     pitch: nat, gain: nat, energy: nat, count: nat, width: nat, twice: bool)
    requires HasSubs(b, 0, step, subs, pitch, gain, energy, count, width, twice)
    ensures HasSubs(a + b + c, |a|, step, subs, pitch, gain, energy, count, width, twice)
  {
    hide HasSub;
    SubInMiddle(a, b, c, 0, subs[0], pitch, gain, energy, count, width, twice);
    SubInMiddle(a, b, c, step, subs[1], pitch, gain, energy, count, width, twice);
    SubInMiddle(a, b, c, 2 * step, subs[2], pitch, gain, energy, count, width, twice);
    SubInMiddle(a, b, c, 3 * step, subs[3], pitch, gain, energy, count, width, twice);
  }
}
