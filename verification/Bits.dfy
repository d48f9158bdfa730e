/** Bit streams: fields of a given width, most significant bit first. */
module BitSpec {
  import opened Powers

  /** The low n bits of x, the high one first; a negative x in two's complement. */
  function FieldBits(x: int, n: nat): (s: seq<bool>)
    ensures |s| == n
    decreases n
  {
    if n == 0 then [] else FieldBits(x / 2, n - 1) + [x % 2 == 1]
  }

  /** The number a field stands for. */
  function Value(s: seq<bool>): (v: nat)
    ensures v < Pow2(|s|)
  {
    if s == [] then 0 else 2 * Value(s[..|s| - 1]) + if s[|s| - 1] then 1 else 0
  }

  /** The number it stands for in two's complement. */
  function SignedValue(s: seq<bool>): (v: int)
    requires s != []
    ensures 0 - Pow2(|s| - 1) <= v < Pow2(|s| - 1)
    ensures s[0] <==> v < 0
  {
    TopBit(s);
    if s[0] then Value(s) - Pow2(|s|) else Value(s)
  }

  /** The first bit is the one of weight 2^(n-1). */
  lemma {:induction false} TopBit(s: seq<bool>)
    requires s != []
    ensures s[0] <==> Value(s) >= Pow2(|s| - 1)
  {
    if |s| == 1 {
      assert s[..0] == [];
    } else {
      TopBit(s[..|s| - 1]);
    }
  }

  /** Writing a number in a field keeps it exactly when it fits, unsigned or signed. */
  lemma {:induction false} ValueOfField(x: int, n: nat)
    ensures Value(FieldBits(x, n)) == x <==> 0 <= x < Pow2(n)
    decreases n
  {
    if n > 0 {
      var s := FieldBits(x, n);
      assert s[..n - 1] == FieldBits(x / 2, n - 1);
      ValueOfField(x / 2, n - 1);
    }
  }

  lemma {:induction false} Congruent(x: int, n: nat) returns (k: int)
    ensures Value(FieldBits(x, n)) == x + k * Pow2(n)
    decreases n
  {
    if n == 0 {
      k := -x;
    } else {
      var s := FieldBits(x, n);
      assert s[..n - 1] == FieldBits(x / 2, n - 1);
      assert Value(s) == 2 * Value(s[..n - 1]) + x % 2;
      hide Value, FieldBits;
      k := Congruent(x / 2, n - 1);
      Doubled(k, Pow2(n - 1));
    }
  }

  lemma SignedValueOfField(x: int, n: nat)
    requires n > 0
    ensures SignedValue(FieldBits(x, n)) == x <==> 0 - Pow2(n - 1) <= x < Pow2(n - 1)
  {
    if 0 - Pow2(n - 1) <= x < Pow2(n - 1) {
      var k := Congruent(x, n);
      var v := SignedValue(FieldBits(x, n));
      hide Value, FieldBits;
      OnlyZero(k, Pow2(n), v - x);
      OnlyZero(k - 1, Pow2(n), v - x);
      MinusOne(k, Pow2(n));
    }
  }

  lemma Doubled(k: int, p: int)
    ensures 2 * (k * p) == k * (2 * p)
  {
  }

  lemma MinusOne(k: int, p: int)
    ensures (k - 1) * p == k * p - p
  {
  }

  lemma OnlyZero(k: int, p: nat, d: int)
    requires 0 - p < d < p
    ensures d == k * p ==> d == 0
  {
    if k >= 1 {
      assert k * p >= p;
    } else if k <= -1 {
      assert (-k) * p >= p;
      assert k * p == -((-k) * p);
    }
  }

  /** The bits of a number of 32 bits are those of the signed number it stands for. */
  lemma {:induction false} FieldOfWrapped(x: int, m: nat, n: nat)
    requires n <= m
    ensures FieldBits(x + Pow2(m), n) == FieldBits(x, n)
    decreases n
  {
    if n > 0 {
      FieldOfWrapped(x / 2, m - 1, n - 1);
      assert (x + Pow2(m)) / 2 == x / 2 + Pow2(m - 1);
    }
  }

  lemma {:induction false} FieldBitAt(x: int, n: nat, j: nat)
    requires j < n
    ensures FieldBits(x, n)[j] == (Shr(x, n - 1 - j) % 2 == 1)
    decreases n
  {
    if j < n - 1 {
      FieldBitAt(x / 2, n - 1, j);
    }
  }

  // ----- several fields -----

  /** One field of a message. */
  datatype Field = Field(value: int, width: nat)

  function Widths(fs: seq<Field>): (w: seq<nat>)
    ensures |w| == |fs|
  {
    seq(|fs|, i requires 0 <= i < |fs| => fs[i].width)
  }

  function Encode(fs: seq<Field>): seq<bool> {
    if fs == [] then [] else FieldBits(fs[0].value, fs[0].width) + Encode(fs[1..])
  }

  /** Reading fields of given widths: the numbers, and the bits left. None when the stream is too short. */
  datatype Reading = TooShort | Read(values: seq<int>, rest: seq<bool>)

  function Decode(widths: seq<nat>, s: seq<bool>): Reading {
    if widths == [] then Read([], s)
    else if |s| < widths[0] then TooShort
    else match Decode(widths[1..], s[widths[0]..])
      case TooShort => TooShort
      case Read(vs, rest) => Read([Value(s[..widths[0]])] + vs, rest)
  }

  function FieldValues(fs: seq<Field>): (v: seq<int>)
    ensures |v| == |fs|
  {
    seq(|fs|, i requires 0 <= i < |fs| => Value(FieldBits(fs[i].value, fs[i].width)))
  }

  /** Any list of fields is read back, and nothing after it is touched. */
  lemma {:induction false} RoundTrip(fs: seq<Field>, rest: seq<bool>)
    ensures Decode(Widths(fs), Encode(fs) + rest) == Read(FieldValues(fs), rest)
  {
    if fs == [] {
      assert Encode(fs) + rest == rest;
    } else {
      var w := fs[0].width;
      assert Encode(fs) + rest == FieldBits(fs[0].value, w) + (Encode(fs[1..]) + rest);
      assert Widths(fs) == [w] + Widths(fs[1..]);
      assert FieldValues(fs) == [Value(FieldBits(fs[0].value, w))] + FieldValues(fs[1..]);
      hide Value, FieldBits, Encode, Widths, FieldValues, Decode;
      RoundTrip(fs[1..], rest);
      DecodeField(FieldBits(fs[0].value, w), Widths(fs[1..]), Encode(fs[1..]) + rest);
    }
  }

  lemma DecodeField(field: seq<bool>, widths: seq<nat>, s: seq<bool>)
    ensures Decode([|field|] + widths, field + s) ==
            match Decode(widths, s)
            case TooShort => TooShort
            case Read(vs, rest) => Read([Value(field)] + vs, rest)
  {
    assert (field + s)[..|field|] == field && (field + s)[|field|..] == s;
    assert ([|field|] + widths)[1..] == widths;
  }

  /** They come back as the values given exactly when every value fits its width. */
  lemma RoundTripOfValues(fs: seq<Field>, rest: seq<bool>)
    ensures (forall i :: 0 <= i < |fs| ==> 0 <= fs[i].value < Pow2(fs[i].width))
            <==> Decode(Widths(fs), Encode(fs) + rest) == Read(seq(|fs|, i requires 0 <= i < |fs| => fs[i].value), rest)
  {
    RoundTrip(fs, rest);
    var given := seq(|fs|, i requires 0 <= i < |fs| => fs[i].value);
    hide Value, FieldBits, Encode, Decode, Pow2;
    forall i | 0 <= i < |fs|
      ensures FieldValues(fs)[i] == given[i] <==> 0 <= fs[i].value < Pow2(fs[i].width)
    {
      ValueOfField(fs[i].value, fs[i].width);
    }
  }

  lemma {:induction false} EncodeAppend(f: seq<Field>, g: seq<Field>)
    ensures Encode(f + g) == Encode(f) + Encode(g)
  {
    hide FieldBits, Encode;
    if f == [] {
      assert f + g == g;
      EncodeNothing();
      assert [] + Encode(g) == Encode(g);
    } else {
      EncodeAppend(f[1..], g);
      assert (f + g)[1..] == f[1..] + g;
      EncodeStep(f);
      EncodeStep(f + g);
      Reassociated(FieldBits(f[0].value, f[0].width), Encode(f[1..]), Encode(g));
    }
  }

  lemma EncodeNothing()
    ensures Encode([]) == []
  {
  }

  lemma EncodeStep(fs: seq<Field>)
    requires fs != []
    ensures Encode(fs) == FieldBits(fs[0].value, fs[0].width) + Encode(fs[1..])
  {
  }

  lemma Reassociated<T>(a: seq<T>, b: seq<T>, c: seq<T>)
    ensures a + (b + c) == a + b + c
  {
  }

  // ----- bits written over what a byte already holds -----

  /** What a byte's remaining bits and the bits written make: every bit is ORed in, and a new byte starts
      out zero. Gives the bits written and the remaining bits of the last byte. */
  function Merged(tail: seq<bool>, s: seq<bool>): (r: (seq<bool>, seq<bool>))
    requires 1 <= |tail| <= 8
    ensures |r.0| == |s| && 1 <= |r.1| <= 8
    decreases |s|
  {
    if s == [] then ([], tail)
    else
      var next := if |tail| == 1 then AllFalse(8) else tail[1..];
      var m := Merged(next, s[1..]);
      ([tail[0] || s[0]] + m.0, m.1)
  }

  function AllFalse(n: nat): (s: seq<bool>)
    ensures |s| == n
    ensures forall i :: 0 <= i < n ==> !s[i]
  {
    seq(n, _ => false)
  }

  predicate Blank(s: seq<bool>) {
    forall i :: 0 <= i < |s| ==> !s[i]
  }

  /** On a clean byte, what is written is what was given. */
  lemma {:induction false} MergedOnBlank(tail: seq<bool>, s: seq<bool>)
    requires 1 <= |tail| <= 8 && Blank(tail)
    ensures Merged(tail, s).0 == s && Blank(Merged(tail, s).1)
    decreases |s|
  {
    if s != [] {
      MergedOnBlank(if |tail| == 1 then AllFalse(8) else tail[1..], s[1..]);
    }
  }

  lemma {:induction false} MergedAppend(tail: seq<bool>, s: seq<bool>, b: bool)
    requires 1 <= |tail| <= 8
    ensures var m := Merged(tail, s);
            && Merged(tail, s + [b]).0 == m.0 + [m.1[0] || b]
            && Merged(tail, s + [b]).1 == if |m.1| == 1 then AllFalse(8) else m.1[1..]
    decreases |s|
  {
    if s == [] {
      assert s + [b] == [b] && [b][1..] == [];
    } else {
      MergedAppend(if |tail| == 1 then AllFalse(8) else tail[1..], s[1..], b);
      assert (s + [b])[1..] == s[1..] + [b];
    }
  }

  lemma {:induction false} MergedTail(tail: seq<bool>, s: seq<bool>)
    requires 1 <= |tail| <= 8 && |s| < |tail|
    ensures Merged(tail, s).1 == tail[|s|..]
    decreases |s|
  {
    if s != [] {
      MergedTail(tail[1..], s[1..]);
    }
  }
}

/** The SpeexBits object, iaxclient/lib/libspeex/bits.c. */
module Bits {
  import opened Powers
  import opened BitSpec

  /** Bit i of a byte, the highest first. */
  function BitOf(c: bv8, i: nat): bool
    requires i < 8
  {
    match i
    case 0 => (c >> 7) & 1 == 1
    case 1 => (c >> 6) & 1 == 1
    case 2 => (c >> 5) & 1 == 1
    case 3 => (c >> 4) & 1 == 1
    case 4 => (c >> 3) & 1 == 1
    case 5 => (c >> 2) & 1 == 1
    case 6 => (c >> 1) & 1 == 1
    case 7 => c & 1 == 1
  }

  /** A byte with bit i set. */
  function WithBit(c: bv8, i: nat): bv8
    requires i < 8
  {
    match i
    case 0 => c | (1 << 7)
    case 1 => c | (1 << 6)
    case 2 => c | (1 << 5)
    case 3 => c | (1 << 4)
    case 4 => c | (1 << 3)
    case 5 => c | (1 << 2)
    case 6 => c | (1 << 1)
    case 7 => c | 1
  }

  /** A byte is the number its bits stand for, the highest first. */
  lemma ByteIsValue(c: bv8)
    ensures Value([BitOf(c, 0), BitOf(c, 1), BitOf(c, 2), BitOf(c, 3), BitOf(c, 4), BitOf(c, 5), BitOf(c, 6), BitOf(c, 7)])
            == c as nat
  {
    hide BitOf, Value, Weight;
    var b0, b1, b2, b3 := BitOf(c, 0), BitOf(c, 1), BitOf(c, 2), BitOf(c, 3);
    var b4, b5, b6, b7 := BitOf(c, 4), BitOf(c, 5), BitOf(c, 6), BitOf(c, 7);
    ByteWeights(c);
    EightBits(b0, b1, b2, b3, b4, b5, b6, b7);
  }

  function Weight(b: bool, w: nat): nat {
    if b then w else 0
  }

  lemma ByteWeights(c: bv8)
    ensures c as nat == Weight(BitOf(c, 0), 128) + Weight(BitOf(c, 1), 64) + Weight(BitOf(c, 2), 32) + Weight(BitOf(c, 3), 16)
                        + Weight(BitOf(c, 4), 8) + Weight(BitOf(c, 5), 4) + Weight(BitOf(c, 6), 2) + Weight(BitOf(c, 7), 1)
  {
  }

  lemma EightBits(b0: bool, b1: bool, b2: bool, b3: bool, b4: bool, b5: bool, b6: bool, b7: bool)
    ensures Value([b0, b1, b2, b3, b4, b5, b6, b7])
            == Weight(b0, 128) + Weight(b1, 64) + Weight(b2, 32) + Weight(b3, 16)
               + Weight(b4, 8) + Weight(b5, 4) + Weight(b6, 2) + Weight(b7, 1)
  {
    hide Value;
    ValuePush([], b0);
    FourBits([], b0, b1, b2, b3);
    FourBits([b0, b1, b2, b3], b4, b5, b6, b7);
    assert [] + [b0, b1, b2, b3] == [b0, b1, b2, b3];
    assert [b0, b1, b2, b3] + [b4, b5, b6, b7] == [b0, b1, b2, b3, b4, b5, b6, b7];
  }

  lemma FourBits(s: seq<bool>, a: bool, b: bool, c: bool, d: bool)
    ensures Value(s + [a, b, c, d]) == 16 * Value(s) + Weight(a, 8) + Weight(b, 4) + Weight(c, 2) + Weight(d, 1)
  {
    hide Value;
    ValuePush(s, a);
    ValuePush(s + [a], b);
    ValuePush(s + [a] + [b], c);
    ValuePush(s + [a] + [b] + [c], d);
    assert s + [a] + [b] + [c] + [d] == s + [a, b, c, d];
  }

  lemma ValuePush(s: seq<bool>, b: bool)
    ensures Value(s + [b]) == 2 * Value(s) + (if b then 1 else 0)
    ensures Value([]) == 0
  {
    assert (s + [b])[..|s|] == s;
  }

  lemma BitsOfWithBit(c: bv8, i: nat, j: nat)
    requires i < 8 && j < 8
    ensures BitOf(WithBit(c, i), j) == (BitOf(c, j) || i == j)
  {
    match i
    case 0 =>
    case 1 =>
    case 2 =>
    case 3 =>
    case 4 =>
    case 5 =>
    case 6 =>
    case 7 =>
  }

  lemma BitsOfZero(j: nat)
    requires j < 8
    ensures !BitOf(0, j)
  {
  }

  /** The bits of a row of bytes. */
  function BitsOf(cs: seq<bv8>): (s: seq<bool>)
    ensures |s| == 8 * |cs|
  {
    seq(8 * |cs|, k requires 0 <= k < 8 * |cs| => BitOf(cs[k / 8], k % 8))
  }

  lemma BitsOfAt(cs: seq<bv8>, c: nat, i: nat)
    requires c < |cs| && i < 8
    ensures BitsOf(cs)[8 * c + i] == BitOf(cs[c], i)
  {
    assert (8 * c + i) / 8 == c && (8 * c + i) % 8 == i;
  }

  lemma BitsOfAppend(a: seq<bv8>, b: seq<bv8>)
    ensures BitsOf(a + b) == BitsOf(a) + BitsOf(b)
  {
    hide BitOf;
    forall k | 0 <= k < 8 * |a + b|
      ensures BitsOf(a + b)[k] == (BitsOf(a) + BitsOf(b))[k]
    {
      if k >= 8 * |a| {
        assert (k - 8 * |a|) / 8 == k / 8 - |a| && (k - 8 * |a|) % 8 == k % 8;
      }
    }
  }

  /** Whole bytes of a row. */
  lemma BitsOfSlice(cs: seq<bv8>, from: nat, to: nat)
    requires from <= to <= |cs|
    ensures BitsOf(cs[from..to]) == BitsOf(cs)[8 * from..8 * to]
  {
    hide BitsOf;
    assert cs == cs[..from] + cs[from..to] + cs[to..];
    BitsOfAppend(cs[..from] + cs[from..to], cs[to..]);
    BitsOfAppend(cs[..from], cs[from..to]);
    assert BitsOf(cs) == BitsOf(cs[..from]) + BitsOf(cs[from..to]) + BitsOf(cs[to..]);
  }

  /** Setting one bit. */
  lemma BitsOfUpdate(cs: seq<bv8>, c: nat, i: nat)
    requires c < |cs| && i < 8
    ensures BitsOf(cs[c := WithBit(cs[c], i)]) == BitsOf(cs)[8 * c + i := true]
  {
    hide BitOf, WithBit;
    var ds := cs[c := WithBit(cs[c], i)];
    forall k | 0 <= k < 8 * |cs|
      ensures BitsOf(ds)[k] == BitsOf(cs)[8 * c + i := true][k]
    {
      var q, m := k / 8, k % 8;
      assert k == 8 * q + m;
      BitsOfWithBit(cs[c], i, m);
    }
  }

  /** Clearing a byte. */
  lemma BitsOfCleared(cs: seq<bv8>, c: nat)
    requires c < |cs|
    ensures BitsOf(cs[c := 0]) == BitsOf(cs)[..8 * c] + AllFalse(8) + BitsOf(cs)[8 * c + 8..]
  {
    hide BitOf;
    var ds := cs[c := 0];
    forall k | 0 <= k < 8 * |cs|
      ensures BitsOf(ds)[k] == (BitsOf(cs)[..8 * c] + AllFalse(8) + BitsOf(cs)[8 * c + 8..])[k]
    {
      BitsOfZero(k % 8);
    }
  }

  lemma BitsOfZeros(cs: seq<bv8>)
    requires forall i :: 0 <= i < |cs| ==> cs[i] == 0
    ensures BitsOf(cs) == AllFalse(8 * |cs|)
  {
    hide BitOf;
    forall k | 0 <= k < 8 * |cs|
      ensures !BitsOf(cs)[k]
    {
      BitsOfZero(k % 8);
    }
  }

  /** The buffer after one bit is packed. */
  ghost function AfterBit(cs: seq<bv8>, c: nat, i: nat, bit: bool): (ds: seq<bv8>)
    requires c < |cs| && i < 8 && (i == 7 ==> c + 1 < |cs|)
    ensures |ds| == |cs|
  {
    var ds := if bit then cs[c := WithBit(cs[c], i)] else cs;
    if i == 7 then ds[c + 1 := 0] else ds
  }

  lemma BitPacked(cs: seq<bv8>, c: nat, i: nat, bit: bool)
    requires c < |cs| && i < 8 && (i == 7 ==> c + 1 < |cs|)
    ensures var s, t, k := BitsOf(cs), BitsOf(AfterBit(cs, c, i, bit)), 8 * c + i;
            && t[..k + 1] == s[..k] + [s[k] || bit]
            && (i < 7 ==> t[k + 1..8 * c + 8] == s[k..8 * c + 8][1..])
            && (i == 7 ==> t[k + 1..8 * c + 16] == AllFalse(8))
  {
    hide BitsOf, BitOf, WithBit;
    var k := 8 * c + i;
    var ds := if bit then cs[c := WithBit(cs[c], i)] else cs;
    BitsOfUpdate(cs, c, i);
    assert BitsOf(ds)[..k + 1] == BitsOf(cs)[..k] + [BitsOf(cs)[k] || bit];
    assert BitsOf(ds)[k + 1..8 * c + 8] == BitsOf(cs)[k..8 * c + 8][1..];
    if i == 7 {
      BitsOfCleared(ds, c + 1);
      assert BitsOf(AfterBit(cs, c, i, bit))[..k + 1] == BitsOf(ds)[..k + 1];
    }
  }

  const MaxBytesPerFrame := 2000

  /** The padding that completes a byte: a zero, then ones up to the last bit but one. */
  function Terminator(bitPtr: nat): (s: seq<bool>)
    requires bitPtr < 8
    ensures |s| == 7 - bitPtr
  {
    seq(7 - bitPtr, i => i > 0)
  }

  /** After a write, the byte being written is still clean exactly when at most two of its bits were free. */
  lemma PaddingStays(tail: seq<bool>, bitPtr: nat)
    requires bitPtr < 8 && |tail| == 8 - bitPtr && Blank(tail)
    ensures var m := Merged(tail, Terminator(bitPtr));
            && m.0 + m.1 == Terminator(bitPtr) + [false]
            && (Blank(m.0 + m.1) <==> bitPtr >= 6)
  {
    var pad := Terminator(bitPtr);
    var m := Merged(tail, pad);
    MergedOnBlank(tail, pad);
    MergedTail(tail, pad);
    assert m.0 + m.1 == pad + [false];
    if bitPtr < 6 {
      assert (m.0 + m.1)[1];
    }
  }

  /** The rest of byte n behind its first b bits; a clean byte where it has none. */
  function RestOfByte(s: seq<bool>, n: nat, b: nat): (r: seq<bool>)
    requires b < 8
    ensures |r| == 8 - b
  {
    if b > 0 && 8 * n + 8 <= |s| then s[8 * n + b..8 * n + 8] else AllFalse(8 - b)
  }

  /** Held bits of which the last r share a byte, with new bytes put from the start of that byte on; the byte
      behind them is counted as far as r bits. */
  function Joined(held: seq<bool>, r: nat, new_: seq<bool>, stale: seq<bool>): (j: seq<bool>)
    requires r <= |held| && |stale| == r
    ensures |j| == |held| + |new_|
  {
    held[..|held| - r] + new_ + stale
  }

  /** New bytes follow the unread bits, whatever they hold, exactly when there is no partial byte, or nothing
      new. The first b of the bits held have been read. */
  lemma JoinedIsWhole(held: seq<bool>, b: nat, n: nat, stale: seq<bool>)
    requires b < 8 && b <= |held| && |stale| == |held| % 8
    requires n == 0 ==> stale == held[|held| - |held| % 8..]
    ensures (forall bytes: seq<bv8> :: |bytes| == n ==>
               Joined(held, |held| % 8, BitsOf(bytes), stale)[b..] == held[b..] + BitsOf(bytes))
            <==> |held| % 8 == 0 || n == 0
  {
    hide BitsOf;
    var r := |held| % 8;
    if r == 0 || n == 0 {
      forall bytes: seq<bv8> | |bytes| == n
        ensures Joined(held, r, BitsOf(bytes), stale)[b..] == held[b..] + BitsOf(bytes)
      {
        JoinedWhole(held, b, bytes, stale);
      }
    } else {
      var bytes := NotFollowing(held, b, n, stale);
    }
  }

  lemma JoinedWhole(held: seq<bool>, b: nat, bytes: seq<bv8>, stale: seq<bool>)
    requires b <= |held| && |stale| == |held| % 8
    requires |held| % 8 == 0 || |bytes| == 0
    requires |bytes| == 0 ==> stale == held[|held| - |held| % 8..]
    ensures Joined(held, |held| % 8, BitsOf(bytes), stale)[b..] == held[b..] + BitsOf(bytes)
  {
    hide BitsOf;
    assert Joined(held, |held| % 8, BitsOf(bytes), stale) == held + BitsOf(bytes);
  }

  /** Bytes that do not come out behind the unread bits of a partial byte. */
  lemma NotFollowing(held: seq<bool>, b: nat, n: nat, stale: seq<bool>) returns (bytes: seq<bv8>)
    requires b < 8 && b <= |held| && |stale| == |held| % 8 > 0 && n > 0
    ensures |bytes| == n
    ensures Joined(held, |held| % 8, BitsOf(bytes), stale)[b..] != held[b..] + BitsOf(bytes)
  {
    hide BitsOf, BitOf;
    var from := |held| - |held| % 8;
    var at := if b < from then from else b;
    var c: bv8 := if at < |held| && !held[at] then 0xFF else if at < |held| then 0 else 0x80;
    bytes := seq(n, i => if i == 0 then c else 0);
    var k := at - from;
    var j := Joined(held, |held| % 8, BitsOf(bytes), stale);
    FirstByte(bytes, k);
    assert j[at] == BitsOf(bytes)[k];
    assert (held[b..] + BitsOf(bytes))[at - b] == if at < |held| then held[at] else BitsOf(bytes)[0];
    assert j[b..][at - b] == j[at];
  }

  lemma FirstByte(bytes: seq<bv8>, k: nat)
    requires bytes != [] && k < 8
    ensures bytes[0] == 0xFF ==> BitsOf(bytes)[k]
    ensures bytes[0] == 0 ==> !BitsOf(bytes)[k]
    ensures bytes[0] == 0x80 ==> BitsOf(bytes)[0] && (k > 0 ==> !BitsOf(bytes)[k])
  {
    BitsOfAt(bytes, 0, k);
    BitsOfAt(bytes, 0, 0);
    hide BitsOf;
  }

  function Unsigned(x: int): (d: int)
    requires -0x8000_0000 <= x < 0x1_0000_0000
    ensures 0 <= d < 0x1_0000_0000
  {
    if x < 0 then x + 0x1_0000_0000 else x
  }

  lemma Pow2Of32()
    ensures Pow2(32) == 0x1_0000_0000
  {
    assert Pow2(8) == 0x100;
    assert Pow2(16) == 0x1_0000;
    assert Pow2(24) == 0x100_0000;
  }

  lemma FieldOfUnsigned(x: int, n: nat)
    requires -0x8000_0000 <= x < 0x1_0000_0000 && n <= 32
    ensures FieldBits(Unsigned(x), n) == FieldBits(x, n)
  {
    Pow2Of32();
    FieldOfWrapped(x, 32, n);
  }

  class SpeexBits {
    var chars: array<bv8>
    var nbBits: nat
    var charPtr: nat
    var bitPtr: nat
    var bufSize: nat
    var owner: bool
    var overflow: bool

    function Cursor(): nat
      reads this
    {
      8 * charPtr + bitPtr
    }

    ghost predicate Valid()
      reads this
    {
      && 0 < bufSize <= chars.Length && bitPtr < 8
      && Cursor() <= nbBits <= 8 * bufSize
    }

    /** The state in which bits are packed: the cursor stands behind the last bit. */
    ghost predicate Writing()
      reads this
    {
      Valid() && Cursor() == nbBits && charPtr < bufSize
    }

    ghost function Contents(): seq<bool>
      reads this, chars
      requires Valid()
    {
      BitsOf(chars[..])[..nbBits]
    }

    /** The bits not yet read. */
    ghost function Unread(): seq<bool>
      reads this, chars
      requires Valid()
    {
      BitsOf(chars[..])[Cursor()..nbBits]
    }

    /** The bits from the byte of the cursor on. */
    ghost function Held(): seq<bool>
      reads this, chars
      requires Valid()
    {
      BitsOf(chars[..])[8 * charPtr..nbBits]
    }

    lemma HeldLength()
      requires Valid()
      ensures |Held()| == nbBits - 8 * charPtr
    {
    }

    lemma UnreadHeld()
      requires Valid()
      ensures bitPtr <= |Held()| && Unread() == Held()[bitPtr..]
    {
    }

    lemma HeldIsAll()
      requires Valid() && charPtr == 0
      ensures Held() == Contents()
    {
    }

    /** What the byte being written already holds behind the last bit. */
    ghost function Tail(): seq<bool>
      reads this, chars
      requires Writing()
    {
      BitsOf(chars[..])[nbBits..8 * charPtr + 8]
    }

    lemma TailLength()
      requires Writing()
      ensures |Tail()| == 8 - bitPtr
    {
    }

    lemma ContentsLength()
      requires Valid()
      ensures |Contents()| == nbBits
    {
    }

    // ----- writing -----

    /** speex_bits_init */
    constructor ()
      ensures Writing() && Contents() == [] && Blank(Tail())
      ensures fresh(chars) && owner && !overflow && bufSize == MaxBytesPerFrame
    {
      chars := new bv8[MaxBytesPerFrame](i => 0);
      bufSize := MaxBytesPerFrame;
      nbBits, charPtr, bitPtr, owner, overflow := 0, 0, 0, true, false;
      new;
      BitsOfZeros(chars[..]);
    }

    /** speex_bits_init_buffer */
    constructor OnBuffer(buff: array<bv8>, size: nat)
      requires 0 < size <= buff.Length
      modifies buff
      ensures Writing() && Contents() == [] && Blank(Tail())
      ensures chars == buff && !owner && !overflow && bufSize == size
    {
      chars := buff;
      bufSize := size;
      nbBits, charPtr, bitPtr, owner, overflow := 0, 0, 0, false, false;
      new;
      BitsOfCleared(chars[..], 0);
      chars[0] := 0;
    }

    /** speex_bits_reset */
    method Reset()
      requires Valid()
      modifies this`nbBits, this`charPtr, this`bitPtr, this`overflow, chars
      ensures Writing() && Contents() == [] && Blank(Tail()) && !overflow
    {
      BitsOfCleared(chars[..], 0);
      chars[0] := 0;
      nbBits, charPtr, bitPtr, overflow := 0, 0, 0, false;
    }

    /** One round of the packing loop. */
    method PackBit(bit: bool)
      requires Writing() && charPtr + (1 + bitPtr) / 8 < bufSize
      modifies this`nbBits, this`charPtr, this`bitPtr, chars
      ensures Writing() && Cursor() == old(Cursor()) + 1
      ensures Contents() == old(Contents()) + [old(Tail())[0] || bit]
      ensures Tail() == if |old(Tail())| == 1 then AllFalse(8) else old(Tail())[1..]
    {
      hide BitsOf, BitOf, WithBit, AllFalse, AfterBit;
      BitPacked(chars[..], charPtr, bitPtr, bit);
      SetBit(bit);
    }

    /** The bit is set, and the pointers move on. */
    method SetBit(bit: bool)
      requires Writing() && charPtr + (1 + bitPtr) / 8 < bufSize
      modifies this`nbBits, this`charPtr, this`bitPtr, chars
      ensures nbBits == old(nbBits) + 1 && bitPtr < 8 && Cursor() == old(Cursor()) + 1
      ensures chars[..] == AfterBit(old(chars[..]), old(charPtr), old(bitPtr), bit)
    {
      hide WithBit;
      if bit {
        chars[charPtr] := WithBit(chars[charPtr], bitPtr);
      }
      bitPtr := bitPtr + 1;
      if bitPtr == 8 {
        bitPtr := 0;
        charPtr := charPtr + 1;
        chars[charPtr] := 0;
      }
      nbBits := nbBits + 1;
    }

    /** Whether a field of n bits fits, with a byte to spare for what follows. */
    predicate Room(n: nat)
      reads this
    {
      charPtr + (n + bitPtr) / 8 < bufSize
    }

    /** The packing loop. */
    method PackBits(d: nat, n: nat)
      requires Writing() && Room(n)
      modifies this`nbBits, this`charPtr, this`bitPtr, chars
      ensures Writing()
      ensures Contents() == old(Contents()) + Merged(old(Tail()), FieldBits(d, n)).0
      ensures Tail() == Merged(old(Tail()), FieldBits(d, n)).1
      ensures Cursor() == old(Cursor()) + n
    {
      hide BitsOf, FieldBits, Shr, Contents, Tail, Merged;
      TailLength();
      ghost var contents, tail := Contents(), Tail();
      ghost var field := FieldBits(d, n);
      var left := n;
      MergedNothing(tail, field[..0]);
      while left != 0
        invariant 0 <= left <= n && Writing() && Cursor() == old(Cursor()) + n - left
        invariant left > 0 ==> Room(left)
        invariant Contents() == contents + Merged(tail, field[..n - left]).0
        invariant Tail() == Merged(tail, field[..n - left]).1
        modifies this`nbBits, this`charPtr, this`bitPtr, chars
      {
        var bit := Shr(d, left - 1) % 2 == 1;
        FieldBitAt(d, n, n - left);
        MergedAppend(tail, field[..n - left], bit);
        assert field[..n - left] + [bit] == field[..n - left + 1];
        PackBit(bit);
        left := left - 1;
      }
      assert field[..n] == field;
    }

    /** A buffer that grows is filled with zeros. */
    method Grow()
      requires Writing()
      modifies this`bufSize, this`chars
      ensures Writing() && fresh(chars) && bufSize == (old(bufSize) + 5) * 3 / 2
      ensures Contents() == AllFalse(nbBits) && Blank(Tail())
    {
      hide BitsOf;
      bufSize := (bufSize + 5) * 3 / 2;
      chars := new bv8[bufSize](i => 0);
      BitsOfZeros(chars[..]);
    }

    /** speex_bits_pack. `grows`: whether reallocation succeeds. */
    method Pack(data: int, n: nat, grows: bool)
      requires Writing() && n <= 32 && -0x8000_0000 <= data < 0x1_0000_0000
      modifies this`nbBits, this`charPtr, this`bitPtr, this`bufSize, this`chars, chars
      ensures Writing() && (chars == old(chars) || fresh(chars))
      ensures !old(Room(n)) && !(owner && grows) ==>
                chars == old(chars) && bufSize == old(bufSize) && Cursor() == old(Cursor())
                && Contents() == old(Contents()) && Tail() == old(Tail())
      ensures old(Room(n)) ==>
                var m := Merged(old(Tail()), FieldBits(data, n));
                && chars == old(chars) && bufSize == old(bufSize) && Cursor() == old(Cursor()) + n
                && Contents() == old(Contents()) + m.0 && Tail() == m.1
      ensures !old(Room(n)) && owner && grows ==>
                && bufSize == (old(bufSize) + 5) * 3 / 2 && Cursor() == old(Cursor()) + n
                && Contents() == AllFalse(old(nbBits)) + FieldBits(data, n) && Blank(Tail())
    {
      hide BitsOf, FieldBits, Merged, Blank;
      if charPtr + (n + bitPtr) / 8 >= bufSize {
        if owner && grows {
          Grow();
          MergedOnBlank(Tail(), FieldBits(data, n));
        } else {
          return;
        }
      }
      FieldOfUnsigned(data, n);
      PackBits(Unsigned(data), n);
    }

    /** On a clean byte with room, packing appends the field. */
    method PackField(data: int, n: nat)
      requires Writing() && n <= 32 && -0x8000_0000 <= data < 0x1_0000_0000
      requires Blank(Tail()) && Room(n)
      modifies this`nbBits, this`charPtr, this`bitPtr, this`bufSize, this`chars, chars
      ensures Writing() && chars == old(chars) && bufSize == old(bufSize) && Cursor() == old(Cursor()) + n
      ensures Contents() == old(Contents()) + FieldBits(data, n) && Blank(Tail())
    {
      hide BitsOf, FieldBits, Merged, Blank;
      MergedOnBlank(Tail(), FieldBits(data, n));
      Pack(data, n, false);
    }

    /** One bit packed into a byte that it does not complete. */
    method PackOne(bit: bool)
      requires Writing() && bitPtr < 7
      modifies this`nbBits, this`charPtr, this`bitPtr, this`bufSize, this`chars, chars
      ensures Writing() && chars == old(chars) && bufSize == old(bufSize)
      ensures charPtr == old(charPtr) && bitPtr == old(bitPtr) + 1
      ensures |old(Tail())| > 1
      ensures Contents() == old(Contents()) + [old(Tail())[0] || bit]
      ensures Tail() == old(Tail())[1..]
    {
      hide BitsOf, Merged, Contents;
      TailLength();
      hide Tail;
      OneBit();
      MergedOneBit(Tail(), bit);
      Pack(if bit then 1 else 0, 1, false);
    }

    /** speex_bits_insert_terminator */
    method InsertTerminator()
      requires Writing()
      modifies this`nbBits, this`charPtr, this`bitPtr, this`bufSize, this`chars, chars
      ensures Writing() && chars == old(chars) && bufSize == old(bufSize)
      ensures charPtr == old(charPtr) && bitPtr == 7
      ensures var m := Merged(old(Tail()), Terminator(old(bitPtr)));
              Contents() == old(Contents()) + m.0 && Tail() == m.1
    {
      hide BitsOf, Merged, Contents, Tail, Terminator;
      ghost var pad := Terminator(bitPtr);
      ghost var contents, tail := Contents(), Tail();
      TailLength();
      ghost var b := bitPtr;
      MergedNothing(tail, pad[..0]);
      if bitPtr < 7 {
        PaddingBit(tail, b, 0);
        PackOne(false);
      }
      while bitPtr < 7
        invariant Writing() && chars == old(chars) && bufSize == old(bufSize) && charPtr == old(charPtr)
        invariant b <= bitPtr <= 7 && (b < 7 ==> b < bitPtr)
        invariant Contents() == contents + Merged(tail, pad[..bitPtr - b]).0
        invariant Tail() == Merged(tail, pad[..bitPtr - b]).1
        modifies this`nbBits, this`charPtr, this`bitPtr, this`bufSize, this`chars, chars
        decreases 7 - bitPtr
      {
        PaddingBit(tail, b, bitPtr - b);
        PackOne(true);
      }
      assert pad[..7 - b] == pad;
    }

    /** speex_bits_write: the bits so far and the padding of the last byte, as far as there is room. The
        pointers are put back; the padding stays in the byte being written. */
    method Write(out: array<bv8>, at: nat, maxBytes: nat) returns (n: nat)
      requires Writing() && out != chars && at + maxBytes <= out.Length
      modifies this`nbBits, this`charPtr, this`bitPtr, this`bufSize, this`chars, chars, out
      ensures Writing() && chars == old(chars) && bufSize == old(bufSize) && Cursor() == old(Cursor())
      ensures n == Least(maxBytes, (nbBits + 7) / 8)
      ensures var m := Merged(old(Tail()), Terminator(bitPtr));
              && 8 * n <= |old(Contents()) + m.0 + m.1|
              && BitsOf(out[at..at + n]) == (old(Contents()) + m.0 + m.1)[..8 * n]
              && Contents() == old(Contents())
              && Tail() == m.0 + m.1
      ensures out[..at] == old(out[..at]) && out[at + n..] == old(out[at + n..])
    {
      hide BitsOf, Merged, Contents, Tail;
      PadByte();
      ghost var all := BitsOf(chars[..]);
      n := if maxBytes > (nbBits + 7) / 8 then (nbBits + 7) / 8 else maxBytes;
      SliceOfSlice(all, 0, 8 * charPtr + 8, 0, 8 * n);
      CopyOut(out, at, n);
    }

    /** The padding goes into the last byte, and the pointers are put back. */
    method PadByte()
      requires Writing()
      modifies this`nbBits, this`charPtr, this`bitPtr, this`bufSize, this`chars, chars
      ensures Writing() && chars == old(chars) && bufSize == old(bufSize) && Cursor() == old(Cursor())
      ensures var m := Merged(old(Tail()), Terminator(bitPtr));
              && BitsOf(chars[..])[0..8 * charPtr + 8] == old(Contents()) + m.0 + m.1
              && Contents() == old(Contents()) && Tail() == m.0 + m.1
    {
      hide BitsOf, Merged;
      var bit, byte, bits := bitPtr, charPtr, nbBits;
      ghost var contents := Contents();
      ghost var m := Merged(Tail(), Terminator(bitPtr));
      InsertTerminator();
      ghost var all := BitsOf(chars[..]);
      WholeByte(all, nbBits, 8 * byte + 8, contents + m.0, m.1);
      bitPtr, charPtr, nbBits := bit, byte, bits;
      SliceOfSlice(all, 0, 8 * byte + 8, 0, bits);
      SliceOfSlice(all, 0, 8 * byte + 8, bits, 8 * byte + 8);
    }

    /** The first n bytes of the buffer, copied out. */
    method CopyOut(out: array<bv8>, at: nat, n: nat)
      requires out != chars && n <= chars.Length && at + n <= out.Length
      modifies out
      ensures BitsOf(out[at..at + n]) == BitsOf(chars[..])[..8 * n]
      ensures out[..at] == old(out[..at]) && out[at + n..] == old(out[at + n..])
    {
      hide BitsOf;
      CopyBytes(chars, 0, out, at, n);
      BitsOfSlice(chars[..], 0, n);
      assert out[at..at + n] == chars[..][0..n];
    }

    /** speex_bits_write_whole_bytes: the whole bytes leave, and the bits of the byte behind those written
        stay. That byte may hold more bits than are kept; they stay in it. */
    method WriteWholeBytes(out: array<bv8>, maxBytes: nat) returns (n: nat)
      requires Writing() && out != chars && maxBytes <= out.Length
      modifies this`nbBits, this`charPtr, chars, out
      ensures Writing() && n == Least(maxBytes, old(nbBits) / 8)
      ensures BitsOf(out[0..n]) == old(Contents())[..8 * n]
      ensures Contents() == old(Contents())[8 * n..8 * n + old(bitPtr)]
      ensures Tail() == RestOfByte(old(Contents() + Tail()), n, old(bitPtr))
      ensures out[n..] == old(out[n..])
    {
      hide BitsOf;
      n := if maxBytes > nbBits / 8 then nbBits / 8 else maxBytes;
      SliceOfSlice(BitsOf(chars[..]), 0, nbBits, 0, 8 * n);
      ghost var contents := Contents();
      hide Contents, Tail, RestOfByte;
      CopyOut(out, 0, n);
      ghost var written := out[0..n];
      KeepRest(n);
      assert out[0..n] == written;
    }

    /** What comes after n whole bytes is moved to the front, and no whole byte is kept. */
    method KeepRest(n: nat)
      requires Writing() && n <= charPtr
      modifies this`nbBits, this`charPtr, chars
      ensures Writing() && charPtr == 0
      ensures Contents() == old(Contents())[8 * n..8 * n + bitPtr]
      ensures Tail() == RestOfByte(old(Contents() + Tail()), n, bitPtr)
    {
      hide BitsOf, RestOfByte;
      ghost var was := chars[..];
      chars[0] := if bitPtr > 0 then chars[n] else 0;
      ClearAfterFirst(nbBits / 8 + 1);
      RestKept(was, chars[..], charPtr, n, bitPtr);
      charPtr := 0;
      nbBits := nbBits % 8;
    }

    /** The clearing loop. */
    method ClearAfterFirst(n: nat)
      requires n <= chars.Length
      modifies chars
      ensures chars.Length > 0 ==> chars[0] == old(chars[0])
    {
      var i := 1;
      while i < n
        invariant 1 <= i
        invariant chars.Length > 0 ==> chars[0] == old(chars[0])
      {
        chars[i] := 0;
        i := i + 1;
      }
    }

    // ----- reading -----

    /** speex_bits_rewind */
    method Rewind()
      requires Valid()
      modifies this`charPtr, this`bitPtr, this`overflow
      ensures Valid() && Unread() == Contents() && Contents() == old(Contents()) && !overflow && Cursor() == 0
    {
      charPtr, bitPtr, overflow := 0, 0, false;
    }

    /** Whether n bits are there to be read. */
    predicate Has(n: nat)
      reads this
    {
      !overflow && Cursor() + n <= nbBits
    }

    /** The reading loop: n bits from a byte and bit position. */
    method TakeBits(byte: nat, bit: nat, n: nat) returns (d: nat, byte': nat, bit': nat)
      requires Valid() && bit < 8 && 8 * byte + bit + n <= nbBits
      ensures bit' < 8 && 8 * byte' + bit' == 8 * byte + bit + n
      ensures d == Value(BitsOf(chars[..])[8 * byte + bit..8 * byte + bit + n])
    {
      hide BitsOf, BitOf;
      d, byte', bit' := 0, byte, bit;
      ghost var at := 8 * byte + bit;
      ghost var s := BitsOf(chars[..]);
      var left := n;
      assert Value(s[at..at]) == 0;
      while left != 0
        invariant 0 <= left <= n && 0 <= bit' < 8 && 0 <= byte'
        invariant 8 * byte' + bit' == at + n - left
        invariant d == Value(s[at..at + n - left])
      {
        ghost var k := at + n - left;
        BitsOfAt(chars[..], byte', bit');
        assert s[at..k + 1][..k - at] == s[at..k];
        d := 2 * d + if BitOf(chars[byte'], bit') then 1 else 0;
        bit' := bit' + 1;
        if bit' == 8 {
          bit' := 0;
          byte' := byte' + 1;
        }
        left := left - 1;
      }
    }

    /** speex_bits_unpack_unsigned */
    method UnpackUnsigned(n: nat) returns (d: nat)
      requires Valid() && n <= 32
      modifies this`charPtr, this`bitPtr, this`overflow
      ensures Valid() && Contents() == old(Contents())
      ensures old(Has(n)) ==>
                && d == Value(old(Unread())[..n]) && Unread() == old(Unread())[n..]
                && !overflow && Cursor() == old(Cursor()) + n
      ensures !old(Has(n)) ==> d == 0 && overflow && Cursor() == old(Cursor())
    {
      hide BitsOf, Value;
      if 8 * charPtr + bitPtr + n > nbBits {
        overflow := true;
      }
      if overflow {
        return 0;
      }
      ghost var s := BitsOf(chars[..]);
      assert s[Cursor()..nbBits][..n] == s[Cursor()..Cursor() + n];
      d, charPtr, bitPtr := TakeBits(charPtr, bitPtr, n);
    }

    /** speex_bits_unpack_signed */
    method UnpackSigned(n: nat) returns (v: int)
      requires Valid() && 1 <= n <= 31
      modifies this`charPtr, this`bitPtr, this`overflow
      ensures Valid() && Contents() == old(Contents())
      ensures old(Has(n)) ==>
                && v == SignedValue(old(Unread())[..n]) && Unread() == old(Unread())[n..]
                && !overflow && Cursor() == old(Cursor()) + n
      ensures !old(Has(n)) ==> v == 0 && overflow && Cursor() == old(Cursor())
    {
      ghost var field := if Has(n) then Unread()[..n] else AllFalse(n);
      TopBit(field);
      hide BitsOf, Value, Pow2;
      var d := UnpackUnsigned(n);
      NoTopBitOfZero(n);
      v := if d >= Pow2(n - 1) then d - Pow2(n) else d;
    }

    /** speex_bits_peek_unsigned: the next unpack, without moving. */
    method PeekUnsigned(n: nat) returns (d: nat)
      requires Valid() && n <= 32
      modifies this`overflow
      ensures Valid() && Contents() == old(Contents()) && Unread() == old(Unread())
      ensures old(Has(n)) ==> d == Value(Unread()[..n]) && !overflow
      ensures !old(Has(n)) ==> d == 0 && overflow
    {
      hide BitsOf, Value;
      if 8 * charPtr + bitPtr + n > nbBits {
        overflow := true;
      }
      if overflow {
        return 0;
      }
      ghost var s := BitsOf(chars[..]);
      assert s[Cursor()..nbBits][..n] == s[Cursor()..Cursor() + n];
      var byte, bit;
      d, byte, bit := TakeBits(charPtr, bitPtr, n);
    }

    /** speex_bits_peek */
    method Peek() returns (d: nat)
      requires Valid()
      modifies this`overflow
      ensures Valid() && Contents() == old(Contents()) && Unread() == old(Unread())
      ensures old(Has(1)) ==> d == (if Unread()[0] then 1 else 0) && !overflow
      ensures !old(Has(1)) ==> d == 0 && overflow
    {
      hide BitsOf, BitOf;
      if 8 * charPtr + bitPtr + 1 > nbBits {
        overflow := true;
      }
      if overflow {
        return 0;
      }
      BitsOfAt(chars[..], charPtr, bitPtr);
      d := if BitOf(chars[charPtr], bitPtr) then 1 else 0;
    }

    /** speex_bits_advance */
    method Advance(n: nat)
      requires Valid()
      modifies this`charPtr, this`bitPtr, this`overflow
      ensures Valid() && Contents() == old(Contents())
      ensures old(Has(n)) ==> Unread() == old(Unread())[n..] && !overflow && Cursor() == old(Cursor()) + n
      ensures !old(Has(n)) ==> overflow && Cursor() == old(Cursor())
    {
      hide BitsOf;
      if 8 * charPtr + bitPtr + n > nbBits || overflow {
        overflow := true;
        return;
      }
      charPtr, bitPtr := charPtr + (bitPtr + n) / 8, (bitPtr + n) % 8;
    }

    /** speex_bits_remaining */
    method Remaining() returns (n: int)
      requires Valid()
      ensures overflow ==> n == -1
      ensures !overflow ==> n == |Unread()| && forall k: nat :: Has(k) <==> k <= n
    {
      n := if overflow then -1 else nbBits - (8 * charPtr + bitPtr);
    }

    /** speex_bits_read_from: a packet of len bytes; what does not fit is cut off. */
    method ReadFrom(packet: array<bv8>, len: nat, grows: bool)
      requires Valid() && packet != chars && len <= packet.Length
      modifies this`nbBits, this`charPtr, this`bitPtr, this`bufSize, this`chars, this`overflow, chars
      ensures Valid() && !overflow
      ensures var kept := if len <= old(bufSize) || (owner && grows) then len else old(bufSize);
              && Contents() == BitsOf(packet[..kept]) && Unread() == Contents()
              && bufSize == (if kept > old(bufSize) then kept else old(bufSize))
    {
      hide BitsOf;
      var kept := len;
      if len > bufSize {
        if owner && grows {
          chars := Resized(chars, bufSize, len);
          bufSize := len;
        } else {
          kept := bufSize;
        }
      }
      CopyBytes(packet, 0, chars, 0, kept);
      nbBits := 8 * kept;
      charPtr, bitPtr, overflow := 0, 0, false;
      BitsOfSlice(chars[..], 0, kept);
      assert packet[..kept] == chars[..][0..kept];
    }

    /** speex_bits_flush: whole bytes already read make room. */
    method Flush()
      requires Valid()
      modifies this`nbBits, this`charPtr, chars
      ensures Valid() && Unread() == old(Unread()) && charPtr == 0 && Contents() == old(Held())
      ensures nbBits == old(nbBits) - 8 * old(charPtr)
      ensures forall k :: (old(nbBits) + 7) / 8 - old(charPtr) <= k < chars.Length ==> chars[k] == old(chars[k])
    {
      hide BitsOf, Unread;
      HeldLength();
      UnreadHeld();
      var nchars := (nbBits + 7) / 8;
      ghost var was := chars[..];
      if charPtr > 0 {
        MoveDown(nchars);
      }
      BytesMoved(was, chars[..], charPtr, nchars - charPtr, 0, nbBits - 8 * charPtr);
      nbBits := nbBits - 8 * charPtr;
      charPtr := 0;
      HeldIsAll();
      UnreadHeld();
    }

    /** The moving loop: bytes [charPtr, nchars) go to the front. */
    method MoveDown(nchars: nat)
      requires 0 < charPtr <= nchars <= chars.Length
      modifies chars
      ensures forall k :: 0 <= k < nchars - charPtr ==> chars[k] == old(chars[k + charPtr])
      ensures forall k :: nchars - charPtr <= k < chars.Length ==> chars[k] == old(chars[k])
    {
      var i := charPtr;
      while i < nchars
        invariant charPtr <= i <= nchars
        invariant forall k :: 0 <= k < i - charPtr ==> chars[k] == old(chars[k + charPtr])
        invariant forall k :: i - charPtr <= k < chars.Length ==> chars[k] == old(chars[k])
      {
        chars[i - charPtr] := chars[i];
        i := i + 1;
      }
    }

    /** How many of n new bytes are taken. */
    function Taken(n: nat, grows: bool): (m: int)
      reads this
      requires Valid()
    {
      if (nbBits + 7) / 8 + n > bufSize && !(owner && grows) then bufSize - nbBits / 8 - 1 else n
    }

    /** speex_bits_read_whole_bytes: the new bytes go where the last partial byte begins. With no partial byte
        they follow the unread bits; a partial byte is overwritten, and as many bits of the byte behind the
        new ones are counted in its place. */
    method ReadWholeBytes(bytes: array<bv8>, n: nat, grows: bool) returns (m: nat, ghost stale: seq<bool>)
      requires Valid() && bytes != chars && n <= bytes.Length
      requires (nbBits + 7) / 8 + n <= bufSize || (owner && (grows || nbBits / 8 < bufSize))
      modifies this`nbBits, this`charPtr, this`bitPtr, this`bufSize, this`chars, chars
      ensures Valid() && overflow == old(overflow) && charPtr == 0 && bitPtr == old(bitPtr)
      ensures m == old(Taken(n, grows)) <= n && |stale| == old(nbBits) % 8 <= |old(Held())|
      ensures Contents() == Joined(old(Held()), |stale|, BitsOf(bytes[..m]), stale)
      ensures m == 0 ==> stale == old(Held())[|old(Held())| - |stale|..]
      ensures m > 0 && old(nbBits) / 8 - old(charPtr) + m < old(bufSize) ==>
                BeginsByte(stale, old(chars[..]), old(nbBits) / 8 - old(charPtr) + m)
      ensures |stale| == 0 || m == 0 ==> Unread() == old(Unread()) + BitsOf(bytes[..m])
    {
      hide BitsOf, Joined, Held, Unread, Contents, BeginsByte;
      ghost var was, size := chars[..], bufSize;
      HeldLength();
      m := MakeRoom(n, grows);
      ghost var roomy, at := chars[..], nbBits / 8 - charPtr + m;
      assert roomy[..size] == was[..size];
      stale := FlushAndAppend(bytes, m);
      if m > 0 && at < size {
        assert roomy[at] == roomy[..size][at] == was[at];
        BeginsSame(stale, roomy, was, at);
      }
    }

    /** With the room made: whole bytes already read are dropped, and the new bytes come in. */
    method FlushAndAppend(bytes: array<bv8>, m: nat) returns (ghost stale: seq<bool>)
      requires Valid() && bytes != chars && m <= bytes.Length && (nbBits + 7) / 8 + m <= bufSize
      modifies this`nbBits, this`charPtr, chars
      ensures Valid() && charPtr == 0 && |stale| == old(nbBits) % 8 <= |old(Held())|
      ensures Contents() == Joined(old(Held()), |stale|, BitsOf(bytes[..m]), stale)
      ensures m == 0 ==> stale == old(Held())[|old(Held())| - |stale|..]
      ensures m > 0 ==> BeginsByte(stale, old(chars[..]), old(nbBits) / 8 - old(charPtr) + m)
      ensures |stale| == 0 || m == 0 ==> Unread() == old(Unread()) + BitsOf(bytes[..m])
    {
      hide BitsOf, Joined, Held, Unread, Contents, BeginsByte;
      HeldLength();
      UnreadHeld();
      ghost var held := Held();
      ghost var was, at := chars[..], nbBits / 8 - charPtr + m;
      ghost var clean := (nbBits + 7) / 8 - charPtr;
      Flush();
      ghost var flushed := chars[..];
      HeldIsAll();
      HeldLength();
      stale := AppendBytes(bytes, m);
      if m > 0 {
        assert clean <= at;
        BeginsSame(stale, flushed, was, at);
      }
      HeldIsAll();
      UnreadHeld();
      if |stale| == 0 || m == 0 {
        JoinedWhole(held, bitPtr, bytes[..m], stale);
      }
    }

    /** The buffer grows if it can, or less is taken. */
    method MakeRoom(n: nat, grows: bool) returns (m: nat)
      requires Valid() && ((nbBits + 7) / 8 + n <= bufSize || (owner && (grows || nbBits / 8 < bufSize)))
      modifies this`bufSize, this`chars
      ensures Valid() && Held() == old(Held()) && Unread() == old(Unread()) && (chars == old(chars) || fresh(chars))
      ensures m == old(Taken(n, grows)) <= n && (nbBits + 7) / 8 + m <= bufSize
      ensures old(bufSize) <= bufSize && chars[..old(bufSize)] == old(chars[..bufSize])
    {
      hide Held, Unread;
      UnreadHeld();
      m := n;
      if (nbBits + 7) / 8 + n > bufSize {
        if owner && grows {
          Resize(nbBits / 8 + n + 1);
        } else {
          m := bufSize - nbBits / 8 - 1;
        }
      }
      UnreadHeld();
    }

    /** Reallocation to a larger size. */
    method Resize(size: nat)
      requires Valid() && bufSize <= size
      modifies this`bufSize, this`chars
      ensures Valid() && fresh(chars) && bufSize == size && Held() == old(Held())
      ensures old(bufSize) <= chars.Length && chars[..old(bufSize)] == old(chars[..bufSize])
    {
      hide BitsOf;
      ghost var was := chars[..];
      var larger := Resized(chars, bufSize, size);
      ghost var now := larger[..];
      assert now[0..bufSize] == larger[..bufSize] == was[..bufSize] == was[0..bufSize];
      BitsOfSlice(now, 0, bufSize);
      BitsOfSlice(was, 0, bufSize);
      SliceOfSlice(BitsOf(now), 0, 8 * bufSize, 8 * charPtr, nbBits);
      SliceOfSlice(BitsOf(was), 0, 8 * bufSize, 8 * charPtr, nbBits);
      chars := larger;
      bufSize := size;
    }

    /** New bytes from the start of the last partial byte on. */
    method AppendBytes(bytes: array<bv8>, n: nat) returns (ghost stale: seq<bool>)
      requires Valid() && bytes != chars && n <= bytes.Length && (nbBits + 7) / 8 + n <= bufSize && charPtr == 0
      modifies this`nbBits, chars
      ensures Valid() && |stale| == old(nbBits) % 8
      ensures BeginsByte(stale, old(chars[..]), old(nbBits) / 8 + n)
      ensures n == 0 ==> stale == old(Contents())[old(nbBits) - |stale|..]
      ensures Contents() == Joined(old(Contents()), |stale|, BitsOf(bytes[..n]), stale)
    {
      hide BitsOf, Joined, BeginsByte;
      ghost var was, bits := chars[..], nbBits;
      CopyBytes(bytes, 0, chars, nbBits / 8, n);
      nbBits := nbBits + 8 * n;
      stale := Appended(was, chars[..], bytes[..n], bits);
    }
  }

  lemma Appended(was: seq<bv8>, now: seq<bv8>, new_: seq<bv8>, bits: nat) returns (stale: seq<bool>)
    requires |now| == |was| && (bits + 7) / 8 + |new_| <= |was|
    requires now[..bits / 8] == was[..bits / 8] && now[bits / 8..bits / 8 + |new_|] == new_
    requires now[bits / 8 + |new_|..] == was[bits / 8 + |new_|..]
    ensures |stale| == bits % 8 && BeginsByte(stale, was, bits / 8 + |new_|)
    ensures new_ == [] ==> stale == BitsOf(was)[..bits][bits - |stale|..]
    ensures BitsOf(now)[..bits + 8 * |new_|] == Joined(BitsOf(was)[..bits], |stale|, BitsOf(new_), stale)
  {
    hide BitsOf, BeginsByte, Joined;
    var pos, at, r := bits / 8, bits / 8 + |new_|, bits % 8;
    stale := BitsOf(now)[8 * at..8 * at + r];
    if r > 0 {
      assert now[at] == now[at..][0] == was[at..][0] == was[at];
    }
    BeginsHere(stale, now, at);
    BeginsSame(stale, now, was, at);
    assert now[0..pos] == now[..pos] && was[0..pos] == was[..pos];
    BitsOfSlice(was, 0, pos);
    BitsOfSlice(now, 0, pos);
    BitsOfSlice(now, pos, at);
    if new_ == [] {
      NothingAppended(was, now, bits);
    }
    JoinedSlices(BitsOf(was), BitsOf(now), bits, BitsOf(new_), stale);
  }

  lemma JoinedSlices(s: seq<bool>, t: seq<bool>, bits: nat, new_: seq<bool>, stale: seq<bool>)
    requires |s| == |t| && bits + |new_| <= |t| && bits <= |s| && |stale| == bits % 8
    requires var from, to := bits - bits % 8, bits - bits % 8 + |new_|;
             t[0..from] == s[0..from] && t[from..to] == new_ && t[to..bits + |new_|] == stale
    ensures t[..bits + |new_|] == Joined(s[..bits], |stale|, new_, stale)
  {
    var from := bits - bits % 8;
    assert s[..bits][..from] == s[0..from];
    assert t[..bits + |new_|] == t[0..from] + t[from..from + |new_|] + t[from + |new_|..bits + |new_|];
  }

  lemma NothingAppended(was: seq<bv8>, now: seq<bv8>, bits: nat)
    requires |now| == |was| && bits <= 8 * |was|
    requires now[..bits / 8] == was[..bits / 8] && now[bits / 8..] == was[bits / 8..]
    ensures BitsOf(now)[bits - bits % 8..bits] == BitsOf(was)[..bits][bits - bits % 8..]
  {
    hide BitsOf;
    var pos := bits / 8;
    assert now == now[..pos] + now[pos..] == was[..pos] + was[pos..] == was;
    SliceOfSlice(BitsOf(was), 0, bits, bits - bits % 8, bits);
  }

  /** The bits are the first of a byte. */
  ghost predicate BeginsByte(bits: seq<bool>, cs: seq<bv8>, at: nat) {
    bits == [] || (at < |cs| && |bits| <= 8 && bits == BitsOf(cs)[8 * at..8 * at + |bits|])
  }

  lemma BeginsHere(bits: seq<bool>, cs: seq<bv8>, at: nat)
    requires |bits| <= 8 && 8 * at + |bits| <= 8 * |cs| && bits == BitsOf(cs)[8 * at..8 * at + |bits|]
    ensures BeginsByte(bits, cs, at)
  {
  }

  lemma BeginsSame(bits: seq<bool>, was: seq<bv8>, now: seq<bv8>, at: nat)
    requires BeginsByte(bits, was, at)
    ensures |bits| > 0 && at < |was| && at < |now| && was[at] == now[at] ==> BeginsByte(bits, now, at)
    ensures |bits| == 0 ==> BeginsByte(bits, now, at)
  {
    hide BitsOf;
    if |bits| > 0 && at < |was| && at < |now| && was[at] == now[at] {
      assert was[at..at + 1] == now[at..at + 1];
      BitsOfSlice(was, at, at + 1);
      BitsOfSlice(now, at, at + 1);
      SliceOfSlice(BitsOf(was), 8 * at, 8 * at + 8, 0, |bits|);
      SliceOfSlice(BitsOf(now), 8 * at, 8 * at + 8, 0, |bits|);
    }
  }

  /** The bits of n bytes that have moved down by c. */
  lemma BytesMoved(was: seq<bv8>, now: seq<bv8>, c: nat, n: nat, i: nat, j: nat)
    requires c + n <= |was| == |now| && i <= j <= 8 * n
    requires forall k :: 0 <= k < n ==> now[k] == was[k + c]
    ensures BitsOf(now)[i..j] == BitsOf(was)[8 * c + i..8 * c + j]
  {
    hide BitsOf;
    assert now[0..n] == was[c..c + n];
    BitsOfSlice(now, 0, n);
    BitsOfSlice(was, c, c + n);
    SliceOfSlice(BitsOf(now), 0, 8 * n, i, j);
    SliceOfSlice(BitsOf(was), 8 * c, 8 * (c + n), i, j);
  }

  /** The byte after n whole ones, moved to the front: b bits of it are kept. */
  lemma RestMoved(was: seq<bv8>, now: seq<bv8>, bits: nat, n: nat, b: nat)
    requires |was| == |now| && n < |was| && b < 8 && 8 * n + b <= bits < 8 * |was|
    requires now[0] == if b > 0 then was[n] else 0
    ensures BitsOf(now)[..b] == BitsOf(was)[..bits][8 * n..8 * n + b]
    ensures BitsOf(now)[b..8] == if b > 0 then BitsOf(was)[8 * n + b..8 * n + 8] else AllFalse(8)
  {
    hide BitsOf;
    SliceOfSlice(BitsOf(was), 0, bits, 8 * n, 8 * n + b);
    if b > 0 {
      BytesMoved(was, now, n, 1, 0, b);
      BytesMoved(was, now, n, 1, b, 8);
    } else {
      BitsOfCleared(now, 0);
      assert now[0 := 0] == now;
    }
  }

  lemma RestKept(was: seq<bv8>, now: seq<bv8>, c: nat, n: nat, b: nat)
    requires |was| == |now| && n <= c < |was| && b < 8
    requires now[0] == if b > 0 then was[n] else 0
    ensures var s, k := BitsOf(was), 8 * c + b;
            && BitsOf(now)[..b] == s[..k][8 * n..8 * n + b]
            && BitsOf(now)[b..8] == RestOfByte(s[..k] + s[k..8 * c + 8], n, b)
  {
    hide BitsOf;
    RestMoved(was, now, 8 * c + b, n, b);
    var s := BitsOf(was);
    assert s[..8 * c + b] + s[8 * c + b..8 * c + 8] == s[0..8 * c + 8];
    SliceOfSlice(s, 0, 8 * c + 8, 8 * n + b, 8 * n + 8);
  }

  lemma WholeByte(s: seq<bool>, i: nat, j: nat, a: seq<bool>, b: seq<bool>)
    requires i <= j <= |s| && s[..i] == a && s[i..j] == b
    ensures s[0..j] == a + b
  {
  }

  lemma SliceOfSlice<T>(s: seq<T>, from: nat, to: nat, i: nat, j: nat)
    requires from <= to <= |s| && i <= j <= to - from
    ensures s[from..to][i..j] == s[from + i..from + j]
  {
    forall k | 0 <= k < j - i
      ensures s[from..to][i..j][k] == s[from + i..from + j][k]
    {
    }
  }

  function Least(a: nat, b: nat): nat {
    if a < b then a else b
  }

  /** The copying loops. */
  method CopyBytes(src: array<bv8>, at: nat, dst: array<bv8>, to: nat, n: nat)
    requires src != dst && at + n <= src.Length && to + n <= dst.Length
    modifies dst
    ensures dst[..to] == old(dst[..to]) && dst[to..to + n] == src[at..at + n] && dst[to + n..] == old(dst[to + n..])
  {
    var i := 0;
    while i < n
      invariant 0 <= i <= n
      invariant dst[..] == old(dst[..to]) + src[at..at + i] + old(dst[to + i..])
    {
      dst[to + i] := src[at + i];
      i := i + 1;
    }
  }

  /** Reallocation to a larger size: the old bytes are kept. */
  method Resized(a: array<bv8>, used: nat, size: nat) returns (b: array<bv8>)
    requires used <= a.Length && used <= size
    ensures fresh(b) && b.Length == size && b[..used] == a[..used]
  {
    b := new bv8[size];
    CopyBytes(a, 0, b, 0, used);
    assert b[..used] == b[0..used] == a[0..used];
  }

  lemma NoTopBitOfZero(n: nat)
    requires n > 0
    ensures Value(AllFalse(n)) < Pow2(n - 1)
  {
    TopBit(AllFalse(n));
  }

  /** One more bit of the padding. */
  lemma PaddingBit(tail: seq<bool>, b: nat, k: nat)
    requires b < 8 && 1 <= |tail| <= 8 && k < 7 - b
    ensures var pad := Terminator(b);
            var m := Merged(tail, pad[..k]);
            && Merged(tail, pad[..k + 1]).0 == m.0 + [m.1[0] || k > 0]
            && Merged(tail, pad[..k + 1]).1 == if |m.1| == 1 then AllFalse(8) else m.1[1..]
  {
    hide Merged;
    var pad := Terminator(b);
    assert pad[..k] + [k > 0] == pad[..k + 1];
    MergedAppend(tail, pad[..k], k > 0);
  }

  lemma MergedNothing(tail: seq<bool>, s: seq<bool>)
    requires 1 <= |tail| <= 8 && s == []
    ensures Merged(tail, s) == (s, tail)
  {
  }

  lemma MergedOneBit(tail: seq<bool>, b: bool)
    requires 1 <= |tail| <= 8
    ensures Merged(tail, [b]).0 == [tail[0] || b]
    ensures Merged(tail, [b]).1 == if |tail| == 1 then AllFalse(8) else tail[1..]
  {
    assert [b][1..] == [];
  }

  lemma OneBit()
    ensures FieldBits(0, 1) == [false] && FieldBits(1, 1) == [true]
  {
  }
}
