/** The bit fields of a narrowband frame: the submode table of iaxclient/lib/libspeex/modes.c, and what
    nb_encode packs and nb_decode reads, with the signal values left abstract. */
module FrameFields {
  import opened Powers
  import opened BitSpec

  // ----- the submode table -----

  /** An innovation codebook: how many subvectors, and the bits of each index. None of the narrowband
      books has signs. */
  datatype Book = NoBook | Book(subvects: nat, shapeBits: nat)

  /** Bits of the pitch lag and of the gain index in each subframe. */
  datatype Ltp = Forced | Ltp(pitchBits: nat, gainBits: nat)

  datatype Submode = Submode(lbrPitch: int, forcedGain: bool, subframeGain: nat, doubleBook: bool,
                             lspStages: nat, ltp: Ltp, book: Book, bitsPerFrame: nat)

  datatype Row = Null | Listed(sm: Submode)

  const NbSubmodeBits := 4
  const SbSubmodeBits := 3
  const Subframes := 4

  function SubmodeOf(m: nat): Row {
    match m
    case 1 => Listed(Submode(0, true, 0, false, 3, Forced, NoBook, 43))
    case 8 => Listed(Submode(0, true, 0, false, 3, Forced, Book(2, 5), 79))
    case 2 => Listed(Submode(0, false, 0, false, 3, Ltp(0, 5), Book(4, 4), 119))
    case 3 => Listed(Submode(-1, false, 1, false, 3, Ltp(7, 5), Book(4, 5), 160))
    case 4 => Listed(Submode(-1, false, 1, false, 3, Ltp(7, 5), Book(5, 7), 220))
    case 5 => Listed(Submode(-1, false, 3, false, 5, Ltp(7, 7), Book(8, 6), 300))
    case 6 => Listed(Submode(-1, false, 3, false, 5, Ltp(7, 7), Book(8, 8), 364))
    case 7 => Listed(Submode(-1, false, 3, true, 5, Ltp(7, 7), Book(8, 6), 492))
    case _ => Null
  }

  /** What a wideband layer of a submode occupies, or -1. */
  function WidebandBits(submode: nat): int {
    match submode
    case 0 => SbSubmodeBits + 1
    case 1 => 36
    case 2 => 112
    case 3 => 192
    case 4 => 352
    case _ => -1
  }

  // ----- the contents of a frame -----

  datatype Sub = Sub(pitch: nat, gain: nat, energy: nat, codes: seq<nat>, codes2: seq<nat>)

  /** The quantised values of a frame. Where a submode does not send a value, it is 0 or absent. */
  datatype Body = Body(lsp: seq<nat>, olPitch: nat, olCoef: nat, olGain: nat, extra: nat, subs: seq<Sub>)

  datatype Frame = Silent | Coded(m: nat, body: Body)

  predicate FieldFits(v: nat, width: nat) {
    v < Pow2(width)
  }

  predicate CodesFit(codes: seq<nat>, k: nat, width: nat) {
    |codes| == k && forall i :: 0 <= i < k ==> FieldFits(codes[i], width)
  }

  predicate SubFits(sm: Submode, s: Sub) {
    && (if sm.ltp.Ltp? then FieldFits(s.pitch, sm.ltp.pitchBits) && FieldFits(s.gain, sm.ltp.gainBits)
        else s.pitch == 0 && s.gain == 0)
    && FieldFits(s.energy, sm.subframeGain)
    && (if sm.book.Book? then CodesFit(s.codes, sm.book.subvects, sm.book.shapeBits) else s.codes == [])
    && (if sm.book.Book? && sm.doubleBook then CodesFit(s.codes2, sm.book.subvects, sm.book.shapeBits)
        else s.codes2 == [])
  }

  predicate SubsFit(sm: Submode, subs: seq<Sub>) {
    subs == [] || (SubFits(sm, subs[0]) && SubsFit(sm, subs[1..]))
  }

  /** A frame the encoder can produce. */
  predicate FrameFits(f: Frame) {
    match f
    case Silent => true
    case Coded(m, b) =>
      && SubmodeOf(m).Listed?
      && var sm := SubmodeOf(m).sm;
         && CodesFit(b.lsp, sm.lspStages, 6)
         && FieldFits(b.olPitch, if sm.lbrPitch != -1 then 7 else 0)
         && FieldFits(b.olCoef, if sm.forcedGain then 4 else 0)
         && FieldFits(b.olGain, 5)
         && FieldFits(b.extra, if m == 1 then 4 else 0)
         && |b.subs| == Subframes && SubsFit(sm, b.subs)
  }

  // ----- what the encoder packs -----

  function PutCodes(codes: seq<nat>, width: nat): (fs: seq<Field>)
    ensures |fs| == |codes|
  {
    seq(|codes|, i requires 0 <= i < |codes| => Field(codes[i], width))
  }

  function PutLtp(sm: Submode, s: Sub): seq<Field> {
    if sm.ltp.Ltp? then [Field(s.pitch, sm.ltp.pitchBits), Field(s.gain, sm.ltp.gainBits)] else []
  }

  function PutEnergy(sm: Submode, s: Sub): seq<Field> {
    if sm.subframeGain == 3 then [Field(s.energy, 3)]
    else if sm.subframeGain != 0 then [Field(s.energy, 1)]
    else []
  }

  function PutBook(sm: Submode, codes: seq<nat>): seq<Field> {
    if sm.book.Book? then PutCodes(codes, sm.book.shapeBits) else []
  }

  function PutSub(sm: Submode, s: Sub): seq<Field> {
    PutLtp(sm, s) + PutEnergy(sm, s) + PutBook(sm, s.codes) + if sm.doubleBook then PutBook(sm, s.codes2) else []
  }

  function PutSubs(sm: Submode, subs: seq<Sub>): seq<Field> {
    if subs == [] then [] else PutSub(sm, subs[0]) + PutSubs(sm, subs[1..])
  }

  function PutStart(sm: Submode, b: Body): seq<Field> {
    PutCodes(b.lsp, 6)
    + (if sm.lbrPitch != -1 then [Field(b.olPitch, 7)] else [])
    + (if sm.forcedGain then [Field(b.olCoef, 4)] else [])
    + [Field(b.olGain, 5)]
  }

  function PutExtra(m: nat, b: Body): seq<Field> {
    if m == 1 then [Field(b.extra, 4)] else []
  }

  function FrameMode(f: Frame): nat {
    if f.Silent? then 0 else f.m
  }

  /** All the fields of a frame, in the encoder's order. */
  function PutFrame(f: Frame): seq<Field>
    requires FrameFits(f)
  {
    [Field(0, 1), Field(FrameMode(f), NbSubmodeBits)] + PutBody(f)
  }

  function PutBody(f: Frame): seq<Field>
    requires FrameFits(f)
  {
    match f
    case Silent => []
    case Coded(m, b) =>
      var sm := SubmodeOf(m).sm;
      PutStart(sm, b) + PutSubs(sm, b.subs) + PutExtra(m, b)
  }

  function FrameBits(f: Frame): seq<bool>
    requires FrameFits(f)
  {
    Encode(PutFrame(f))
  }

  /** The size the table gives. */
  function FrameSize(f: Frame): nat {
    if f.Silent? || SubmodeOf(f.m).Null? then 5 else SubmodeOf(f.m).sm.bitsPerFrame
  }

  // ----- what the decoder reads -----

  /** What there is to read, and whether reading has gone beyond the end. */
  datatype In = In(bits: seq<bool>, over: bool)

  function Get(s: In, n: nat): (r: (nat, In))
    ensures |r.1.bits| <= |s.bits|
  {
    if s.over || |s.bits| < n then (0, In(s.bits, true))
    else (Value(s.bits[..n]), In(s.bits[n..], false))
  }

  function Remaining(s: In): (n: int)
    ensures n >= -1
  {
    if s.over then -1 else |s.bits|
  }

  function Skip(s: In, n: nat): (r: In)
    ensures |r.bits| <= |s.bits|
  {
    if s.over || |s.bits| < n then In(s.bits, true) else In(s.bits[n..], false)
  }

  function GetCodes(s: In, k: nat, width: nat): (r: (seq<nat>, In))
    ensures |r.0| == k && |r.1.bits| <= |s.bits|
    decreases k
  {
    if k == 0 then ([], s)
    else
      var a := Get(s, width);
      var b := GetCodes(a.1, k - 1, width);
      ([a.0] + b.0, b.1)
  }

  function GetIf(s: In, present: bool, n: nat): (r: (nat, In))
    ensures |r.1.bits| <= |s.bits|
  {
    if present then Get(s, n) else (0, s)
  }

  function GetBook(s: In, sm: Submode, present: bool): (r: (seq<nat>, In))
    ensures |r.1.bits| <= |s.bits|
  {
    if present && sm.book.Book? then GetCodes(s, sm.book.subvects, sm.book.shapeBits) else ([], s)
  }

  function GetSub(s: In, sm: Submode): (r: (Sub, In))
    ensures |r.1.bits| <= |s.bits|
  {
    var p := GetIf(s, sm.ltp.Ltp?, if sm.ltp.Ltp? then sm.ltp.pitchBits else 0);
    var g := GetIf(p.1, sm.ltp.Ltp?, if sm.ltp.Ltp? then sm.ltp.gainBits else 0);
    var e := if sm.subframeGain == 3 then Get(g.1, 3) else GetIf(g.1, sm.subframeGain == 1, 1);
    var c := GetBook(e.1, sm, true);
    var d := GetBook(c.1, sm, sm.doubleBook);
    (Sub(p.0, g.0, e.0, c.0, d.0), d.1)
  }

  function GetSubs(s: In, sm: Submode, k: nat): (r: (seq<Sub>, In))
    ensures |r.0| == k && |r.1.bits| <= |s.bits|
    decreases k
  {
    if k == 0 then ([], s)
    else
      var a := GetSub(s, sm);
      var b := GetSubs(a.1, sm, k - 1);
      ([a.0] + b.0, b.1)
  }

  /** The body of a frame, in the decoder's order: the extra bits of submode 1 come before the subframes. */
  function GetBody(s: In, m: nat, sm: Submode): (r: (Body, In))
    ensures |r.1.bits| <= |s.bits|
  {
    var l := GetCodes(s, sm.lspStages, 6);
    var p := GetIf(l.1, sm.lbrPitch != -1, 7);
    var c := GetIf(p.1, sm.forcedGain, 4);
    var g := Get(c.1, 5);
    var x := GetIf(g.1, m == 1, 4);
    var u := GetSubs(x.1, sm, Subframes);
    (Body(l.0, p.0, c.0, g.0, x.0, u.0), u.1)
  }

  /** The header: the narrowband mode that follows at most two wideband layers, or why there is none.
      In-band requests are handed to code that is not part of this model. */
  datatype Header = Mode(m: nat, rest: In) | Stop(code: int, rest: In) | InBand(m: nat, rest: In)

  /** One wideband layer, after its first bit, skipped. None if its submode is invalid. */
  datatype Layer = BadLayer | SkippedLayer(rest: In)

  function SkipLayer(s: In): (l: Layer)
    ensures l.SkippedLayer? ==> |l.rest.bits| <= |s.bits|
  {
    var a := Get(s, SbSubmodeBits);
    var size := WidebandBits(a.0);
    if size < 0 then BadLayer else SkippedLayer(Skip(a.1, size - (SbSubmodeBits + 1)))
  }

  function GetMode(s: In): (h: Header)
    ensures |h.rest.bits| <= |s.bits|
  {
    if Remaining(s) < 4 then Stop(-1, s)
    else
      var a := Get(s, 4);
      if a.0 == 15 then Stop(-1, a.1)
      else if a.0 == 14 || a.0 == 13 then InBand(a.0, a.1)
      else if a.0 > 8 then Stop(-2, a.1)
      else Mode(a.0, a.1)
  }

  function GetHeader(s: In): (h: Header)
    ensures |h.rest.bits| <= |s.bits|
  {
    if Remaining(s) < 5 then Stop(-1, s)
    else
      var a := Get(s, 1);
      if a.0 == 0 then GetMode(a.1)
      else match SkipLayer(a.1)
        case BadLayer => Stop(-2, Get(a.1, SbSubmodeBits).1)
        case SkippedLayer(t) =>
          if Remaining(t) < 5 then Stop(-1, t)
          else
            var b := Get(t, 1);
            if b.0 == 0 then GetMode(b.1)
            else match SkipLayer(b.1)
              case BadLayer => Stop(-2, Get(b.1, SbSubmodeBits).1)
              case SkippedLayer(u) =>
                var c := Get(u, 1);
                if c.0 == 0 then GetMode(c.1) else Stop(-2, c.1)
  }

  /** What one call of the decoder makes of the stream. */
  datatype Parsed = Parsed(frame: Frame, rest: In) | Ended(code: int, rest: In) | Request(m: nat, rest: In)

  function Parse(s: In): (p: Parsed)
    ensures |p.rest.bits| <= |s.bits|
  {
    match GetHeader(s)
    case Stop(code, rest) => Ended(code, rest)
    case InBand(m, rest) => Request(m, rest)
    case Mode(m, rest) =>
      match SubmodeOf(m)
      case Null => Parsed(Silent, rest)
      case Listed(sm) =>
        var b := GetBody(rest, m, sm);
        Parsed(Coded(m, b.0), b.1)
  }

  // ----- the decoder reads what the encoder packs -----

  lemma GetField(v: nat, n: nat, rest: seq<bool>)
    requires FieldFits(v, n)
    ensures Get(In(FieldBits(v, n) + rest, false), n) == (v, In(rest, false))
  {
    ValueOfField(v, n);
    var s := FieldBits(v, n) + rest;
    assert s[..n] == FieldBits(v, n) && s[n..] == rest;
  }

  lemma EncodeOne(f: Field)
    ensures Encode([f]) == FieldBits(f.value, f.width)
  {
    assert [f][1..] == [];
    assert FieldBits(f.value, f.width) + [] == FieldBits(f.value, f.width);
  }

  /** Fields behind others. */
  lemma EncodeThen(f: seq<Field>, g: seq<Field>, rest: seq<bool>)
    ensures Encode(f + g) + rest == Encode(f) + (Encode(g) + rest)
  {
    EncodeAppend(f, g);
  }

  lemma GetEncoded(f: Field, rest: seq<bool>)
    requires f.value >= 0 && FieldFits(f.value, f.width)
    ensures Get(In(Encode([f]) + rest, false), f.width) == (f.value, In(rest, false))
  {
    EncodeOne(f);
    GetField(f.value, f.width, rest);
  }

  lemma {:induction false} GetPutCodes(codes: seq<nat>, k: nat, width: nat, rest: seq<bool>)
    requires CodesFit(codes, k, width)
    ensures GetCodes(In(Encode(PutCodes(codes, width)) + rest, false), k, width) == (codes, In(rest, false))
  {
    if k == 0 {
      assert Encode(PutCodes(codes, width)) + rest == rest;
    } else {
      var f := Field(codes[0], width);
      assert PutCodes(codes, width) == [f] + PutCodes(codes[1..], width);
      EncodeThen([f], PutCodes(codes[1..], width), rest);
      GetEncoded(f, Encode(PutCodes(codes[1..], width)) + rest);
      GetPutCodes(codes[1..], k - 1, width, rest);
      assert [codes[0]] + codes[1..] == codes;
    }
  }

  lemma GetPutIf(v: nat, present: bool, n: nat, rest: seq<bool>)
    requires FieldFits(v, if present then n else 0)
    ensures GetIf(In(Encode(if present then [Field(v, n)] else []) + rest, false), present, n) == (v, In(rest, false))
  {
    if present {
      GetEncoded(Field(v, n), rest);
    } else {
      assert Encode([]) + rest == rest;
    }
  }

  lemma GetPutBook(sm: Submode, codes: seq<nat>, present: bool, rest: seq<bool>)
    requires if present && sm.book.Book? then CodesFit(codes, sm.book.subvects, sm.book.shapeBits) else codes == []
    ensures GetBook(In(Encode(if present then PutBook(sm, codes) else []) + rest, false), sm, present)
            == (codes, In(rest, false))
  {
    if present && sm.book.Book? {
      GetPutCodes(codes, sm.book.subvects, sm.book.shapeBits, rest);
    } else {
      assert Encode([]) + rest == rest;
    }
  }

  lemma GetPutSub(m: nat, sm: Submode, s: Sub, rest: seq<bool>)
    requires SubmodeOf(m) == Listed(sm) && SubFits(sm, s)
    ensures GetSub(In(Encode(PutSub(sm, s)) + rest, false), sm) == (s, In(rest, false))
  {
    hide Encode, Pow2, PutBook, PutSub, SubmodeOf, PutEnergy;
    var sends := sm.ltp.Ltp?;
    var pitchBits, gainBits := if sends then sm.ltp.pitchBits else 0, if sends then sm.ltp.gainBits else 0;
    var p := if sends then [Field(s.pitch, pitchBits)] else [];
    var g := if sends then [Field(s.gain, gainBits)] else [];
    var e := if sm.subframeGain == 3 then [Field(s.energy, 3)] else if sm.subframeGain == 1 then [Field(s.energy, 1)] else [];
    var c := if true then PutBook(sm, s.codes) else [];
    var d := if sm.doubleBook then PutBook(sm, s.codes2) else [];
    PutSubIs(m, sm, s, p, g, e, c, d);
    var s4 := Encode(d) + rest;
    EncodeThen(c, d, rest);
    var s3 := Encode(c) + s4;
    EncodeThen(e, c + d, rest);
    var s2 := Encode(e) + s3;
    EncodeThen(g, e + (c + d), rest);
    var s1 := Encode(g) + s2;
    EncodeThen(p, g + (e + (c + d)), rest);
    assert Encode(PutSub(sm, s)) + rest == Encode(p) + s1;
    GetPutIf(s.pitch, sends, pitchBits, s1);
    GetPutIf(s.gain, sends, gainBits, s2);
    if sm.subframeGain == 3 {
      GetPutIf(s.energy, true, 3, s3);
    } else {
      GetPutIf(s.energy, sm.subframeGain == 1, 1, s3);
    }
    GetPutBook(sm, s.codes, true, s4);
    GetPutBook(sm, s.codes2, sm.doubleBook, rest);
  }

  /** The pieces of a subframe. */
  lemma PutSubIs(m: nat, sm: Submode, s: Sub, p: seq<Field>, g: seq<Field>, e: seq<Field>, c: seq<Field>, d: seq<Field>)
    requires SubmodeOf(m) == Listed(sm)
    requires p == if sm.ltp.Ltp? then [Field(s.pitch, sm.ltp.pitchBits)] else []
    requires g == if sm.ltp.Ltp? then [Field(s.gain, sm.ltp.gainBits)] else []
    requires e == if sm.subframeGain == 3 then [Field(s.energy, 3)]
                  else if sm.subframeGain == 1 then [Field(s.energy, 1)] else []
    requires c == PutBook(sm, s.codes) && d == if sm.doubleBook then PutBook(sm, s.codes2) else []
    ensures PutSub(sm, s) == p + (g + (e + (c + d)))
    ensures sm.subframeGain == 3 || sm.subframeGain == 1 || sm.subframeGain == 0
  {
    hide PutBook;
  }

  lemma PutSubsStep(sm: Submode, subs: seq<Sub>, i: nat, x: seq<Field>)
    requires i < |subs|
    ensures PutSubs(sm, subs[i..]) + x == PutSub(sm, subs[i]) + (PutSubs(sm, subs[i + 1..]) + x)
    ensures PutSubs(sm, subs[i..]) == PutSub(sm, subs[i]) + PutSubs(sm, subs[i + 1..])
  {
    assert subs[i..][1..] == subs[i + 1..];
  }

  lemma PutNoSubs(sm: Submode, x: seq<Field>)
    ensures PutSubs(sm, []) == [] && PutSubs(sm, []) + x == x
  {
  }

  lemma GetSubsStep(s: In, sm: Submode, k: nat)
    requires k > 0
    ensures var a := GetSub(s, sm);
            var b := GetSubs(a.1, sm, k - 1);
            GetSubs(s, sm, k) == ([a.0] + b.0, b.1)
  {
  }

  lemma NoSubs(s: In, sm: Submode)
    ensures GetSubs(s, sm, 0) == ([], s)
  {
  }

  lemma {:induction false} GetPutSubs(m: nat, sm: Submode, subs: seq<Sub>, rest: seq<bool>)
    requires SubmodeOf(m) == Listed(sm) && SubsFit(sm, subs)
    ensures GetSubs(In(Encode(PutSubs(sm, subs)) + rest, false), sm, |subs|) == (subs, In(rest, false))
    decreases |subs|
  {
    hide SubFits, PutSub, GetSub, SubmodeOf, PutSubs, Encode, GetSubs;
    if subs == [] {
      PutNoSubs(sm, []);
      NothingThen(rest);
      NoSubs(In(rest, false), sm);
    } else {
      PutSubsStep(sm, subs, 0, []);
      assert subs[0..] == subs;
      var later := Encode(PutSubs(sm, subs[1..])) + rest;
      EncodeThen(PutSub(sm, subs[0]), PutSubs(sm, subs[1..]), rest);
      GetPutSub(m, sm, subs[0], later);
      GetPutSubs(m, sm, subs[1..], rest);
      GetSubsStep(In(Encode(PutSubs(sm, subs)) + rest, false), sm, |subs|);
      assert [subs[0]] + subs[1..] == subs;
    }
  }

  lemma NothingThen(rest: seq<bool>)
    ensures Encode([]) + rest == rest
  {
  }

  lemma GetPutBody(m: nat, sm: Submode, b: Body, rest: seq<bool>)
    requires FrameFits(Coded(m, b)) && SubmodeOf(m) == Listed(sm)
    ensures GetBody(In(Encode(PutStart(sm, b) + PutSubs(sm, b.subs) + PutExtra(m, b)) + rest, false), m, sm)
            == (b, In(rest, false))
  {
    var l := PutCodes(b.lsp, 6);
    var p := if sm.lbrPitch != -1 then [Field(b.olPitch, 7)] else [];
    var c := if sm.forcedGain then [Field(b.olCoef, 4)] else [];
    var g := [Field(b.olGain, 5)];
    var x := if m == 1 then [Field(b.extra, 4)] else [];
    var u := PutSubs(sm, b.subs);
    if m == 1 {
      NoSubframeBits(sm, b.subs);
    }
    assert PutStart(sm, b) == l + p + c + g && PutExtra(m, b) == x;
    hide Encode, Pow2, PutStart, PutExtra, PutSubs, GetSubs, PutCodes, GetCodes, SubmodeOf, SubFits;
    Regrouped(l, p, c, g, u, x);
    var s5 := Encode(u) + rest;
    EncodeThen(x, u, rest);
    var s4 := Encode(x) + s5;
    EncodeThen(g, x + u, rest);
    var s3 := Encode(g) + s4;
    EncodeThen(c, g + (x + u), rest);
    var s2 := Encode(c) + s3;
    EncodeThen(p, c + (g + (x + u)), rest);
    var s1 := Encode(p) + s2;
    EncodeThen(l, p + (c + (g + (x + u))), rest);
    GetPutCodes(b.lsp, sm.lspStages, 6, s1);
    GetPutIf(b.olPitch, sm.lbrPitch != -1, 7, s2);
    GetPutIf(b.olCoef, sm.forcedGain, 4, s3);
    GetEncoded(Field(b.olGain, 5), s4);
    GetPutIf(b.extra, m == 1, 4, s5);
    GetPutSubs(m, sm, b.subs, rest);
  }

  lemma Regrouped<T>(l: seq<T>, p: seq<T>, c: seq<T>, g: seq<T>, u: seq<T>, x: seq<T>)
    requires u == [] || x == []
    ensures l + p + c + g + u + x == l + (p + (c + (g + (x + u))))
  {
  }

  /** Submode 1 has nothing in its subframes, so that the order of its extra bits does not matter. */
  lemma {:induction false} NoSubframeBits(sm: Submode, subs: seq<Sub>)
    requires sm.ltp.Forced? && sm.book.NoBook? && sm.subframeGain == 0
    ensures PutSubs(sm, subs) == []
    decreases |subs|
  {
    if subs != [] {
      NoSubframeBits(sm, subs[1..]);
    }
  }

  lemma GetPutHeader(m: nat, rest: seq<bool>)
    requires m <= 8
    ensures GetHeader(In(Encode([Field(0, 1), Field(m, NbSubmodeBits)]) + rest, false)) == Mode(m, In(rest, false))
  {
    var fs := [Field(0, 1), Field(m, NbSubmodeBits)];
    assert fs == [Field(0, 1)] + [Field(m, NbSubmodeBits)];
    EncodeThen([Field(0, 1)], [Field(m, NbSubmodeBits)], rest);
    assert Pow2(1) == 2 && Pow2(4) == 16;
    EncodeOne(Field(0, 1));
    EncodeOne(Field(m, 4));
    hide Encode, Pow2;
    GetEncoded(Field(0, 1), Encode([Field(m, NbSubmodeBits)]) + rest);
    GetEncoded(Field(m, NbSubmodeBits), rest);
  }

  /** Every frame the encoder can produce is read back whole, and nothing behind it is touched. */
  lemma ParsePutFrame(f: Frame, rest: seq<bool>)
    requires FrameFits(f)
    ensures Parse(In(FrameBits(f) + rest, false)) == Parsed(f, In(rest, false))
  {
    var head := [Field(0, 1), Field(FrameMode(f), NbSubmodeBits)];
    match f {
      case Silent =>
        assert PutFrame(f) == head;
        GetPutHeader(0, rest);
      case Coded(m, b) =>
        var sm := SubmodeOf(m).sm;
        var fs := PutStart(sm, b) + PutSubs(sm, b.subs) + PutExtra(m, b);
        assert PutFrame(f) == head + fs;
        assert m <= 8;
        hide Encode, GetBody, GetHeader, PutStart, PutSubs, SubmodeOf;
        EncodeThen(head, fs, rest);
        GetPutHeader(m, Encode(fs) + rest);
        GetPutBody(m, sm, b, rest);
    }
  }

  lemma LayerIsSkipped(submode: nat, layer: seq<bool>, rest: seq<bool>)
    requires submode < 8 && WidebandBits(submode) == SbSubmodeBits + 1 + |layer|
    ensures SkipLayer(In(FieldBits(submode, SbSubmodeBits) + (layer + rest), false)) == SkippedLayer(In(rest, false))
  {
    GetField(submode, SbSubmodeBits, layer + rest);
    assert (layer + rest)[|layer|..] == rest;
  }

  lemma FirstBit(b: bool, rest: seq<bool>)
    ensures Get(In([b] + rest, false), 1) == (if b then 1 else 0, In(rest, false))
  {
    var s := [b] + rest;
    assert s[..1] == [b] && s[1..] == rest;
    assert [b][..0] == [];
    assert Value([b]) == if b then 1 else 0;
  }

  function WidebandLayer(submode: nat, layer: seq<bool>): seq<bool> {
    [true] + FieldBits(submode, SbSubmodeBits) + layer
  }

  /** One or two wideband layers in front of a frame are passed over. */
  lemma ParseBehindWideband(a: nat, x: seq<bool>, b: nat, y: seq<bool>, f: Frame, rest: seq<bool>)
    requires FrameFits(f)
    requires a < 8 && WidebandBits(a) == SbSubmodeBits + 1 + |x|
    requires b < 8 && WidebandBits(b) == SbSubmodeBits + 1 + |y|
    ensures Parse(In(WidebandLayer(a, x) + (FrameBits(f) + rest), false)) == Parsed(f, In(rest, false))
    ensures Parse(In(WidebandLayer(a, x) + (WidebandLayer(b, y) + (FrameBits(f) + rest)), false)) == Parsed(f, In(rest, false))
  {
    hide FieldBits, WidebandBits, GetHeader, GetBody, WidebandLayer, FrameBits;
    var t := FrameBits(f) + rest;
    FrameStarts(f, rest);
    ParsePutFrame(f, rest);
    HeaderBehindOne(a, x, t);
    HeaderBehindTwo(a, x, b, y, t);
  }

  lemma HeaderBehindOne(a: nat, x: seq<bool>, t: seq<bool>)
    requires a < 8 && WidebandBits(a) == SbSubmodeBits + 1 + |x|
    requires |t| >= 5 && Get(In(t, false), 1).0 == 0
    ensures GetHeader(In(WidebandLayer(a, x) + t, false)) == GetHeader(In(t, false))
  {
    assert WidebandLayer(a, x) + t == [true] + (FieldBits(a, SbSubmodeBits) + (x + t));
    hide FieldBits, WidebandBits, SkipLayer, GetMode, WidebandLayer;
    FirstBit(true, FieldBits(a, SbSubmodeBits) + (x + t));
    LayerIsSkipped(a, x, t);
  }

  lemma HeaderBehindTwo(a: nat, x: seq<bool>, b: nat, y: seq<bool>, t: seq<bool>)
    requires a < 8 && WidebandBits(a) == SbSubmodeBits + 1 + |x|
    requires b < 8 && WidebandBits(b) == SbSubmodeBits + 1 + |y|
    requires |t| >= 5 && Get(In(t, false), 1).0 == 0
    ensures GetHeader(In(WidebandLayer(a, x) + (WidebandLayer(b, y) + t), false)) == GetHeader(In(t, false))
  {
    var u := WidebandLayer(b, y) + t;
    hide FieldBits, WidebandBits, SkipLayer, GetMode, WidebandLayer, Get;
    LayerBegins(a, x, u);
    LayerBegins(b, y, t);
    FirstBit(true, FieldBits(a, SbSubmodeBits) + (x + u));
    LayerIsSkipped(a, x, u);
    FirstBit(true, FieldBits(b, SbSubmodeBits) + (y + t));
    LayerIsSkipped(b, y, t);
  }

  lemma LayerBegins(a: nat, x: seq<bool>, u: seq<bool>)
    ensures WidebandLayer(a, x) + u == [true] + (FieldBits(a, SbSubmodeBits) + (x + u))
  {
    hide FieldBits;
  }

  lemma FrameStarts(f: Frame, rest: seq<bool>)
    requires FrameFits(f)
    ensures |FrameBits(f)| >= 5 && Get(In(FrameBits(f) + rest, false), 1).0 == 0
  {
    FrameSizeIs(f);
    var fs := PutFrame(f);
    EncodeThen([fs[0]], fs[1..], rest);
    assert fs == [fs[0]] + fs[1..];
    GetEncoded(fs[0], Encode(fs[1..]) + rest);
  }

  // ----- the sizes -----

  function SizeOf(fs: seq<Field>): (n: nat)
    ensures n == |Encode(fs)|
  {
    if fs == [] then 0 else fs[0].width + SizeOf(fs[1..])
  }

  lemma SizesAppend(f: seq<Field>, g: seq<Field>)
    ensures SizeOf(f + g) == SizeOf(f) + SizeOf(g)
  {
    EncodeAppend(f, g);
  }

  lemma {:induction false} CodesSize(codes: seq<nat>, width: nat)
    ensures SizeOf(PutCodes(codes, width)) == |codes| * width
  {
    if codes != [] {
      CodesSize(codes[1..], width);
      assert PutCodes(codes, width)[1..] == PutCodes(codes[1..], width);
      assert |codes| * width == width + |codes[1..]| * width;
    }
  }

  /** The bits of a subframe. */
  function SubSize(sm: Submode): nat {
    (if sm.ltp.Ltp? then sm.ltp.pitchBits + sm.ltp.gainBits else 0)
    + sm.subframeGain
    + (if sm.book.Book? then sm.book.subvects * sm.book.shapeBits else 0)
    + (if sm.book.Book? && sm.doubleBook then sm.book.subvects * sm.book.shapeBits else 0)
  }

  lemma SubSizeIs(m: nat, sm: Submode, s: Sub)
    requires SubmodeOf(m) == Listed(sm) && SubFits(sm, s)
    ensures SizeOf(PutSub(sm, s)) == SubSize(sm)
  {
    var l, e, c, d := PutLtp(sm, s), PutEnergy(sm, s), PutBook(sm, s.codes), if sm.doubleBook then PutBook(sm, s.codes2) else [];
    assert PutSub(sm, s) == l + e + c + d;
    LtpSize(sm, s);
    EnergySize(m, sm, s);
    BookSize(sm, s.codes);
    if sm.doubleBook {
      BookSize(sm, s.codes2);
    }
    assert SizeOf([]) == 0;
    hide SizeOf, PutLtp, PutEnergy, PutBook, PutSub, SubmodeOf;
    SizesAppend(l, e);
    SizesAppend(l + e, c);
    SizesAppend(l + e + c, d);
  }

  lemma LtpSize(sm: Submode, s: Sub)
    ensures SizeOf(PutLtp(sm, s)) == if sm.ltp.Ltp? then sm.ltp.pitchBits + sm.ltp.gainBits else 0
  {
    if sm.ltp.Ltp? {
      SizesAppend([Field(s.pitch, sm.ltp.pitchBits)], [Field(s.gain, sm.ltp.gainBits)]);
    }
  }

  lemma EnergySize(m: nat, sm: Submode, s: Sub)
    requires SubmodeOf(m) == Listed(sm)
    ensures SizeOf(PutEnergy(sm, s)) == sm.subframeGain
  {
  }

  lemma BookSize(sm: Submode, codes: seq<nat>)
    requires sm.book.Book? ==> |codes| == sm.book.subvects
    ensures SizeOf(PutBook(sm, codes)) == if sm.book.Book? then sm.book.subvects * sm.book.shapeBits else 0
  {
    if sm.book.Book? {
      CodesSize(codes, sm.book.shapeBits);
    }
  }

  lemma {:induction false} SubsSize(m: nat, sm: Submode, subs: seq<Sub>)
    requires SubmodeOf(m) == Listed(sm) && SubsFit(sm, subs)
    ensures SizeOf(PutSubs(sm, subs)) == |subs| * SubSize(sm)
    decreases |subs|
  {
    hide SubFits, SubSize, PutSub, SubmodeOf, PutSubs, SizeOf;
    if subs == [] {
      PutNoSubs(sm, []);
      OneSize(false, 0, 0);
    } else {
      PutSubsStep(sm, subs, 0, []);
      assert subs[0..] == subs;
      SubSizeIs(m, sm, subs[0]);
      SubsSize(m, sm, subs[1..]);
      SizesAppend(PutSub(sm, subs[0]), PutSubs(sm, subs[1..]));
      OneMore(|subs[1..]|, SubSize(sm));
    }
  }

  lemma OneMore(n: nat, z: nat)
    ensures (n + 1) * z == z + n * z
  {
  }

  /** For every submode, the fields of a frame add up to the size in the table. */
  lemma FrameSizeIs(f: Frame)
    requires FrameFits(f)
    ensures |FrameBits(f)| == FrameSize(f)
  {
    hide SizeOf, PutBody;
    var head := [Field(0, 1), Field(FrameMode(f), NbSubmodeBits)];
    SizesAppend(head, PutBody(f));
    HeadSize(FrameMode(f));
    BodySize(f);
  }

  lemma HeadSize(m: nat)
    ensures SizeOf([Field(0, 1), Field(m, NbSubmodeBits)]) == 5
  {
    var head := [Field(0, 1), Field(m, NbSubmodeBits)];
    assert head[1..] == [head[1]];
  }

  lemma OneSize(present: bool, v: int, n: nat)
    ensures SizeOf(if present then [Field(v, n)] else []) == if present then n else 0
  {
  }

  lemma StartSize(sm: Submode, b: Body)
    ensures SizeOf(PutStart(sm, b))
            == |b.lsp| * 6 + (if sm.lbrPitch != -1 then 7 else 0) + (if sm.forcedGain then 4 else 0) + 5
  {
    hide SizeOf, PutCodes;
    var l := PutCodes(b.lsp, 6);
    var p := if sm.lbrPitch != -1 then [Field(b.olPitch, 7)] else [];
    var c := if sm.forcedGain then [Field(b.olCoef, 4)] else [];
    var g := if true then [Field(b.olGain, 5)] else [];
    CodesSize(b.lsp, 6);
    OneSize(sm.lbrPitch != -1, b.olPitch, 7);
    OneSize(sm.forcedGain, b.olCoef, 4);
    OneSize(true, b.olGain, 5);
    SizesAppend(l, p);
    SizesAppend(l + p, c);
    SizesAppend(l + p + c, g);
  }

  lemma BodySize(f: Frame)
    requires FrameFits(f)
    ensures 5 + SizeOf(PutBody(f)) == FrameSize(f)
  {
    hide SizeOf, PutSubs, PutStart, SubSize;
    match f {
      case Silent =>
        OneSize(false, 0, 0);
      case Coded(m, b) =>
        var sm := SubmodeOf(m).sm;
        StartSize(sm, b);
        SubsSize(m, sm, b.subs);
        OneSize(m == 1, b.extra, 4);
        SizesAppend(PutStart(sm, b), PutSubs(sm, b.subs));
        SizesAppend(PutStart(sm, b) + PutSubs(sm, b.subs), PutExtra(m, b));
        TableSizes(m, sm);
    }
  }

  lemma TableSizes(m: nat, sm: Submode)
    requires SubmodeOf(m) == Listed(sm)
    ensures 5 + sm.lspStages * 6 + (if sm.lbrPitch != -1 then 7 else 0) + (if sm.forcedGain then 4 else 0) + 5
            + Subframes * SubSize(sm) + (if m == 1 then 4 else 0) == sm.bitsPerFrame
  {
  }
}

/** nb_encode and nb_decode, iaxclient/lib/libspeex/nb_celp.c, over a SpeexBits object. */
module Frames {
  import opened Powers
  import opened BitSpec
  import opened Bits
  import opened FrameFields

  // ----- encoding -----

  /** The bits packed, with the fields still to be packed, make the whole; and the whole has room. */
  ghost predicate Sending(bits: SpeexBits, whole: seq<bool>, todo: seq<Field>)
    reads bits, bits.chars
  {
    && bits.Writing() && Blank(bits.Tail())
    && bits.Contents() + Encode(todo) == whole
    && |whole| / 8 < bits.bufSize
  }

  method Emit(bits: SpeexBits, v: nat, n: nat, ghost whole: seq<bool>, ghost todo: seq<Field>)
    requires Sending(bits, whole, [Field(v, n)] + todo) && FieldFits(v, n) && n <= 32
    modifies bits, bits.chars
    ensures Sending(bits, whole, todo) && bits.chars == old(bits.chars) && bits.bufSize == old(bits.bufSize)
  {
    hide Encode, BitsOf, FieldBits, Pow2;
    EncodeThen([Field(v, n)], todo, []);
    EncodeOne(Field(v, n));
    Pow2Grows(n, 32);
    Pow2Of32();
    ghost var contents := bits.Contents();
    assert whole == contents + (FieldBits(v, n) + Encode(todo)) by {
      assert Encode([Field(v, n)] + todo) + [] == Encode([Field(v, n)] + todo);
      assert Encode(todo) + [] == Encode(todo);
    }
    bits.PackField(v, n);
    assert contents + (FieldBits(v, n) + Encode(todo)) == contents + FieldBits(v, n) + Encode(todo);
  }

  method EmitCodes(bits: SpeexBits, codes: seq<nat>, width: nat, ghost whole: seq<bool>, ghost todo: seq<Field>)
    requires Sending(bits, whole, PutCodes(codes, width) + todo)
    requires CodesFit(codes, |codes|, width) && width <= 32
    modifies bits, bits.chars
    ensures Sending(bits, whole, todo) && bits.chars == old(bits.chars) && bits.bufSize == old(bits.bufSize)
  {
    hide Sending;
    var i := 0;
    assert codes[0..] == codes;
    while i < |codes|
      invariant 0 <= i <= |codes|
      invariant Sending(bits, whole, PutCodes(codes[i..], width) + todo)
      invariant bits.chars == old(bits.chars) && bits.bufSize == old(bits.bufSize)
    {
      assert PutCodes(codes[i..], width) + todo
          == [Field(codes[i], width)] + (PutCodes(codes[i + 1..], width) + todo);
      Emit(bits, codes[i], width, whole, PutCodes(codes[i + 1..], width) + todo);
      i := i + 1;
    }
    assert PutCodes(codes[i..], width) + todo == todo;
  }

  function If(present: bool, v: nat, n: nat): seq<Field> {
    if present then [Field(v, n)] else []
  }

  method EmitIf(bits: SpeexBits, present: bool, v: nat, n: nat, ghost whole: seq<bool>, ghost todo: seq<Field>)
    requires Sending(bits, whole, If(present, v, n) + todo)
    requires present ==> FieldFits(v, n) && n <= 32
    modifies bits, bits.chars
    ensures Sending(bits, whole, todo) && bits.chars == old(bits.chars) && bits.bufSize == old(bits.bufSize)
  {
    hide Sending, Pow2;
    if present {
      Emit(bits, v, n, whole, todo);
    } else {
      assert If(present, v, n) + todo == todo;
    }
  }

  method EmitBook(bits: SpeexBits, m: nat, sm: Submode, codes: seq<nat>, ghost whole: seq<bool>, ghost todo: seq<Field>)
    requires SubmodeOf(m) == Listed(sm)
    requires sm.book.Book? ==> CodesFit(codes, sm.book.subvects, sm.book.shapeBits)
    requires Sending(bits, whole, PutBook(sm, codes) + todo)
    modifies bits, bits.chars
    ensures Sending(bits, whole, todo) && bits.chars == old(bits.chars) && bits.bufSize == old(bits.bufSize)
  {
    hide Sending, SubmodeOf;
    TableWidths(m, sm);
    if sm.book.Book? {
      EmitCodes(bits, codes, sm.book.shapeBits, whole, todo);
    } else {
      assert PutBook(sm, codes) + todo == todo;
    }
  }

  method EmitSub(bits: SpeexBits, m: nat, sm: Submode, s: Sub, ghost whole: seq<bool>, ghost todo: seq<Field>)
    requires SubmodeOf(m) == Listed(sm) && SubFits(sm, s)
    requires Sending(bits, whole, PutSub(sm, s) + todo)
    modifies bits, bits.chars
    ensures Sending(bits, whole, todo) && bits.chars == old(bits.chars) && bits.bufSize == old(bits.bufSize)
  {
    hide Sending, SubmodeOf, Pow2, PutBook;
    TableWidths(m, sm);
    var sends, gains := sm.ltp.Ltp?, sm.subframeGain;
    var pitchBits, gainBits := if sends then sm.ltp.pitchBits else 0, if sends then sm.ltp.gainBits else 0;
    ghost var d := if sm.doubleBook then PutBook(sm, s.codes2) else [];
    ghost var c := PutBook(sm, s.codes);
    SubParts(sm, s, c, d, todo);
    EmitIf(bits, sends, s.pitch, pitchBits, whole, If(sends, s.gain, gainBits) + (If(gains != 0, s.energy, gains) + (c + (d + todo))));
    EmitIf(bits, sends, s.gain, gainBits, whole, If(gains != 0, s.energy, gains) + (c + (d + todo)));
    EmitIf(bits, gains != 0, s.energy, if gains == 3 then 3 else 1, whole, c + (d + todo));
    EmitBook(bits, m, sm, s.codes, whole, d + todo);
    if sm.doubleBook {
      EmitBook(bits, m, sm, s.codes2, whole, todo);
    } else {
      assert d + todo == todo;
    }
  }

  lemma SubParts(sm: Submode, s: Sub, c: seq<Field>, d: seq<Field>, todo: seq<Field>)
    requires sm.subframeGain == 3 || sm.subframeGain == 1 || sm.subframeGain == 0
    requires c == PutBook(sm, s.codes) && d == if sm.doubleBook then PutBook(sm, s.codes2) else []
    ensures var sends := sm.ltp.Ltp?;
            var pitchBits, gainBits := if sends then sm.ltp.pitchBits else 0, if sends then sm.ltp.gainBits else 0;
            PutSub(sm, s) + todo
            == If(sends, s.pitch, pitchBits)
               + (If(sends, s.gain, gainBits) + (If(sm.subframeGain != 0, s.energy, sm.subframeGain) + (c + (d + todo))))
  {
    var sends := sm.ltp.Ltp?;
    var pitchBits, gainBits := if sends then sm.ltp.pitchBits else 0, if sends then sm.ltp.gainBits else 0;
    assert PutLtp(sm, s) == If(sends, s.pitch, pitchBits) + If(sends, s.gain, gainBits);
    assert PutEnergy(sm, s) == If(sm.subframeGain != 0, s.energy, sm.subframeGain);
    Gathered(If(sends, s.pitch, pitchBits), If(sends, s.gain, gainBits), PutEnergy(sm, s), c, d, todo);
  }

  lemma Gathered<T>(p: seq<T>, g: seq<T>, e: seq<T>, c: seq<T>, d: seq<T>, todo: seq<T>)
    ensures (p + g) + e + c + d + todo == p + (g + (e + (c + (d + todo))))
  {
  }

  lemma TableWidths(m: nat, sm: Submode)
    requires SubmodeOf(m) == Listed(sm)
    ensures sm.subframeGain == 3 || sm.subframeGain == 1 || sm.subframeGain == 0
    ensures sm.ltp.Ltp? ==> sm.ltp.pitchBits <= 32 && sm.ltp.gainBits <= 32
    ensures sm.book.Book? ==> sm.book.shapeBits <= 32
    ensures sm.doubleBook ==> sm.book.Book?
  {
  }

  /** nb_encode: the fields of a frame. */
  method NbEncode(bits: SpeexBits, f: Frame)
    requires FrameFits(f) && bits.Writing() && Blank(bits.Tail())
    requires (|bits.Contents()| + FrameSize(f)) / 8 < bits.bufSize
    modifies bits, bits.chars
    ensures bits.chars == old(bits.chars) && bits.bufSize == old(bits.bufSize)
    ensures bits.Writing() && Blank(bits.Tail())
    ensures bits.Contents() == old(bits.Contents()) + FrameBits(f)
  {
    FrameSizeIs(f);
    ghost var whole := bits.Contents() + FrameBits(f);
    FramePieces(f);
    assert Sending(bits, whole, [Field(0, 1)] + ([Field(FrameMode(f), NbSubmodeBits)] + PutBody(f)));
    hide Sending, SubmodeOf, FrameBits, Pow2, PutFrame;
    Emit(bits, 0, 1, whole, [Field(FrameMode(f), NbSubmodeBits)] + PutBody(f));
    Emit(bits, FrameMode(f), NbSubmodeBits, whole, PutBody(f));
    match f {
      case Silent =>
      case Coded(m, b) =>
        EmitBody(bits, m, SubmodeOf(m).sm, b, whole);
    }
    SendingNothing(bits, whole);
  }

  lemma FramePieces(f: Frame)
    requires FrameFits(f)
    ensures PutFrame(f) == [Field(0, 1)] + ([Field(FrameMode(f), NbSubmodeBits)] + PutBody(f))
    ensures FieldFits(0, 1) && FieldFits(FrameMode(f), NbSubmodeBits)
    ensures f.Coded? ==> SubmodeOf(f.m).Listed?
  {
    assert Pow2(4) == 16 && FrameMode(f) <= 8;
  }

  lemma SendingNothing(bits: SpeexBits, whole: seq<bool>)
    requires Sending(bits, whole, [])
    ensures bits.Writing() && Blank(bits.Tail()) && bits.Contents() == whole
  {
  }

  method EmitBody(bits: SpeexBits, m: nat, sm: Submode, b: Body, ghost whole: seq<bool>)
    requires FrameFits(Coded(m, b)) && SubmodeOf(m) == Listed(sm)
    requires Sending(bits, whole, PutStart(sm, b) + PutSubs(sm, b.subs) + PutExtra(m, b))
    modifies bits, bits.chars
    ensures Sending(bits, whole, []) && bits.chars == old(bits.chars) && bits.bufSize == old(bits.bufSize)
  {
    hide Sending, SubmodeOf, PutSubs, PutCodes, Pow2, SubFits;
    ghost var p := If(sm.lbrPitch != -1, b.olPitch, 7);
    ghost var c := If(sm.forcedGain, b.olCoef, 4);
    ghost var x := PutExtra(m, b);
    ghost var rest := PutSubs(sm, b.subs) + x;
    assert PutStart(sm, b) == PutCodes(b.lsp, 6) + p + c + [Field(b.olGain, 5)];
    Unfolded(PutCodes(b.lsp, 6), p, c, [Field(b.olGain, 5)], PutSubs(sm, b.subs), x);
    hide PutStart;
    EmitCodes(bits, b.lsp, 6, whole, p + (c + ([Field(b.olGain, 5)] + rest)));
    EmitIf(bits, sm.lbrPitch != -1, b.olPitch, 7, whole, c + ([Field(b.olGain, 5)] + rest));
    EmitIf(bits, sm.forcedGain, b.olCoef, 4, whole, [Field(b.olGain, 5)] + rest);
    Emit(bits, b.olGain, 5, whole, rest);
    var sub := 0;
    assert b.subs[0..] == b.subs;
    while sub < Subframes
      invariant 0 <= sub <= Subframes && SubsFit(sm, b.subs[sub..])
      invariant Sending(bits, whole, PutSubs(sm, b.subs[sub..]) + x)
      invariant bits.chars == old(bits.chars) && bits.bufSize == old(bits.bufSize)
    {
      PutSubsStep(sm, b.subs, sub, x);
      EmitSub(bits, m, sm, b.subs[sub], whole, PutSubs(sm, b.subs[sub + 1..]) + x);
      assert b.subs[sub..][1..] == b.subs[sub + 1..];
      sub := sub + 1;
    }
    assert b.subs[sub..] == [];
    PutNoSubs(sm, x);
    if m == 1 {
      assert x == x + [];
      Emit(bits, b.extra, 4, whole, []);
    }
  }

  lemma Unfolded<T>(l: seq<T>, p: seq<T>, c: seq<T>, g: seq<T>, u: seq<T>, x: seq<T>)
    ensures l + p + c + g + u + x == l + (p + (c + (g + (u + x))))
  {
  }

  // ----- decoding -----

  /** What a SpeexBits object holds for its reader. */
  ghost function View(bits: SpeexBits): In
    reads bits, bits.chars
    requires bits.Valid()
  {
    In(bits.Unread(), bits.overflow)
  }

  method Fetch(bits: SpeexBits, n: nat) returns (v: nat)
    requires bits.Valid() && n <= 32
    modifies bits`charPtr, bits`bitPtr, bits`overflow
    ensures bits.Valid() && (v, View(bits)) == Get(old(View(bits)), n)
  {
    hide BitsOf, Value;
    v := bits.UnpackUnsigned(n);
  }

  method FetchIf(bits: SpeexBits, present: bool, n: nat) returns (v: nat)
    requires bits.Valid() && n <= 32
    modifies bits`charPtr, bits`bitPtr, bits`overflow
    ensures bits.Valid() && (v, View(bits)) == GetIf(old(View(bits)), present, n)
  {
    hide View, Get;
    v := 0;
    if present {
      v := Fetch(bits, n);
    }
  }

  /** The codes read so far, and those still to be read. */
  lemma GetCodesStep(s: In, k: nat, width: nat)
    requires k > 0
    ensures var a := Get(s, width);
            var b := GetCodes(a.1, k - 1, width);
            GetCodes(s, k, width) == ([a.0] + b.0, b.1)
  {
  }

  method FetchCodes(bits: SpeexBits, k: nat, width: nat) returns (codes: seq<nat>)
    requires bits.Valid() && width <= 32
    modifies bits`charPtr, bits`bitPtr, bits`overflow
    ensures bits.Valid() && (codes, View(bits)) == GetCodes(old(View(bits)), k, width)
  {
    hide View, Get, GetCodes;
    codes := [];
    var i := 0;
    ghost var all := GetCodes(View(bits), k, width);
    assert [] + all.0 == all.0;
    while i < k
      invariant 0 <= i <= k && bits.Valid()
      invariant codes + GetCodes(View(bits), k - i, width).0 == all.0
      invariant GetCodes(View(bits), k - i, width).1 == all.1
    {
      GetCodesStep(View(bits), k - i, width);
      ghost var before := codes;
      ghost var later := GetCodes(Get(View(bits), width).1, k - i - 1, width).0;
      var v := Fetch(bits, width);
      codes := codes + [v];
      assert codes + later == before + ([v] + later);
      i := i + 1;
    }
    NoCodes(View(bits), width);
    assert codes + [] == codes;
  }

  lemma NoCodes(s: In, width: nat)
    ensures GetCodes(s, 0, width) == ([], s)
  {
  }

  method FetchBook(bits: SpeexBits, m: nat, sm: Submode, present: bool) returns (codes: seq<nat>)
    requires bits.Valid() && SubmodeOf(m) == Listed(sm)
    modifies bits`charPtr, bits`bitPtr, bits`overflow
    ensures bits.Valid() && (codes, View(bits)) == GetBook(old(View(bits)), sm, present)
  {
    hide View, GetCodes, SubmodeOf;
    TableWidths(m, sm);
    codes := [];
    if present && sm.book.Book? {
      codes := FetchCodes(bits, sm.book.subvects, sm.book.shapeBits);
    }
  }

  method FetchSub(bits: SpeexBits, m: nat, sm: Submode) returns (s: Sub)
    requires bits.Valid() && SubmodeOf(m) == Listed(sm)
    modifies bits`charPtr, bits`bitPtr, bits`overflow
    ensures bits.Valid() && (s, View(bits)) == GetSub(old(View(bits)), sm)
  {
    hide View, Get, GetIf, GetBook, SubmodeOf;
    TableWidths(m, sm);
    var pitch := FetchIf(bits, sm.ltp.Ltp?, if sm.ltp.Ltp? then sm.ltp.pitchBits else 0);
    var gain := FetchIf(bits, sm.ltp.Ltp?, if sm.ltp.Ltp? then sm.ltp.gainBits else 0);
    var energy;
    if sm.subframeGain == 3 {
      energy := Fetch(bits, 3);
    } else {
      energy := FetchIf(bits, sm.subframeGain == 1, 1);
    }
    var codes := FetchBook(bits, m, sm, true);
    var codes2 := FetchBook(bits, m, sm, sm.doubleBook);
    s := Sub(pitch, gain, energy, codes, codes2);
  }

  method FetchSubs(bits: SpeexBits, m: nat, sm: Submode) returns (subs: seq<Sub>)
    requires bits.Valid() && SubmodeOf(m) == Listed(sm)
    modifies bits`charPtr, bits`bitPtr, bits`overflow
    ensures bits.Valid() && (subs, View(bits)) == GetSubs(old(View(bits)), sm, Subframes)
  {
    hide View, GetSub, GetSubs, SubmodeOf;
    subs := [];
    var sub := 0;
    ghost var all := GetSubs(View(bits), sm, Subframes);
    assert [] + all.0 == all.0;
    while sub < Subframes
      invariant 0 <= sub <= Subframes && bits.Valid()
      invariant subs + GetSubs(View(bits), sm, Subframes - sub).0 == all.0
      invariant GetSubs(View(bits), sm, Subframes - sub).1 == all.1
    {
      GetSubsStep(View(bits), sm, Subframes - sub);
      ghost var before := subs;
      ghost var later := GetSubs(GetSub(View(bits), sm).1, sm, Subframes - sub - 1).0;
      var s := FetchSub(bits, m, sm);
      subs := subs + [s];
      assert subs + later == before + ([s] + later);
      sub := sub + 1;
    }
    NoSubs(View(bits), sm);
    assert subs + [] == subs;
  }

  method FetchBody(bits: SpeexBits, m: nat, sm: Submode) returns (b: Body)
    requires bits.Valid() && SubmodeOf(m) == Listed(sm)
    modifies bits`charPtr, bits`bitPtr, bits`overflow
    ensures bits.Valid() && (b, View(bits)) == GetBody(old(View(bits)), m, sm)
  {
    hide View, Get, GetIf, GetCodes, GetSubs, SubmodeOf;
    var lsp := FetchCodes(bits, sm.lspStages, 6);
    var olPitch := FetchIf(bits, sm.lbrPitch != -1, 7);
    var olCoef := FetchIf(bits, sm.forcedGain, 4);
    var olGain := Fetch(bits, 5);
    var extra := FetchIf(bits, m == 1, 4);
    var subs := FetchSubs(bits, m, sm);
    b := Body(lsp, olPitch, olCoef, olGain, extra, subs);
  }

  /** What a call of the decoder returns. */
  datatype Outcome = Decoded(frame: Frame) | Failed(code: int) | Requested(m: nat)

  ghost predicate Agrees(o: Outcome, p: Parsed, after: In) {
    match p
    case Parsed(f, rest) => o == Decoded(f) && after == rest
    case Ended(code, rest) => o == Failed(code) && after == rest
    case Request(m, rest) => o == Requested(m) && after == rest
  }

  method LeftOver(bits: SpeexBits) returns (n: int)
    requires bits.Valid()
    ensures n == Remaining(View(bits))
  {
    n := bits.Remaining();
  }

  method Discard(bits: SpeexBits, n: nat)
    requires bits.Valid()
    modifies bits`charPtr, bits`bitPtr, bits`overflow
    ensures bits.Valid() && View(bits) == Skip(old(View(bits)), n)
  {
    hide BitsOf;
    bits.Advance(n);
  }

  /** A wideband layer, after its first bit. */
  method SkipWideband(bits: SpeexBits) returns (ok: bool)
    requires bits.Valid()
    modifies bits`charPtr, bits`bitPtr, bits`overflow
    ensures bits.Valid()
    ensures match SkipLayer(old(View(bits)))
            case BadLayer => !ok && View(bits) == Get(old(View(bits)), SbSubmodeBits).1
            case SkippedLayer(rest) => ok && View(bits) == rest
  {
    hide View, Get, Skip;
    var submode := Fetch(bits, SbSubmodeBits);
    var advance := WidebandBits(submode);
    if advance < 0 {
      return false;
    }
    Discard(bits, advance - (SbSubmodeBits + 1));
    return true;
  }

  ghost predicate HeaderAgrees(code: int, m: nat, h: Header, after: In) {
    match h
    case Mode(k, rest) => code == 0 && m == k && m <= 8 && after == rest
    case InBand(k, rest) => code == 0 && m == k && m > 8 && after == rest
    case Stop(c, rest) => code == c && code != 0 && after == rest
  }

  /** The mode that follows the wideband layers: 0 with the mode, or the error code. */
  method DecodeMode(bits: SpeexBits) returns (code: int, m: nat)
    requires bits.Valid()
    modifies bits`charPtr, bits`bitPtr, bits`overflow
    ensures bits.Valid() && HeaderAgrees(code, m, GetMode(old(View(bits))), View(bits))
  {
    hide View, Get;
    var left := LeftOver(bits);
    if left < 4 {
      return -1, 0;
    }
    m := Fetch(bits, 4);
    if m == 15 {
      return -1, m;
    } else if m == 14 || m == 13 {
      return 0, m;
    } else if m > 8 {
      return -2, m;
    }
    return 0, m;
  }

  method DecodeHeader(bits: SpeexBits) returns (code: int, m: nat)
    requires bits.Valid()
    modifies bits`charPtr, bits`bitPtr, bits`overflow
    ensures bits.Valid() && HeaderAgrees(code, m, GetHeader(old(View(bits))), View(bits))
  {
    hide View, Get, SkipLayer, GetMode;
    var left := LeftOver(bits);
    if left < 5 {
      return -1, 0;
    }
    var wideband := Fetch(bits, 1);
    if wideband != 0 {
      var ok := SkipWideband(bits);
      if !ok {
        return -2, 0;
      }
      left := LeftOver(bits);
      if left < 5 {
        return -1, 0;
      }
      wideband := Fetch(bits, 1);
      if wideband != 0 {
        ok := SkipWideband(bits);
        if !ok {
          return -2, 0;
        }
        wideband := Fetch(bits, 1);
        if wideband != 0 {
          return -2, 0;
        }
      }
    }
    code, m := DecodeMode(bits);
  }

  /** nb_decode: the fields of a frame. */
  method NbDecode(bits: SpeexBits) returns (o: Outcome)
    requires bits.Valid()
    modifies bits`charPtr, bits`bitPtr, bits`overflow
    ensures bits.Valid() && Agrees(o, Parse(old(View(bits))), View(bits))
  {
    hide View, GetHeader, GetBody, SubmodeOf;
    var code, m := DecodeHeader(bits);
    if code != 0 {
      return Failed(code);
    }
    if m > 8 {
      return Requested(m);
    }
    match SubmodeOf(m) {
      case Null =>
        return Decoded(Silent);
      case Listed(sm) =>
        var b := FetchBody(bits, m, sm);
        return Decoded(Coded(m, b));
    }
  }
}
