/**
 The platform's text encoder and decoder as the relay worker calls them
 (workers/relay-cloudflare/src/index.ts): JavaScript strings of UTF-16 code units, UTF-8 bytes,
 a decoder that replaces what is malformed and drops one leading byte order mark.
 */
module PlatformText {
  import opened Base

  /** A JavaScript string: code units, not necessarily well-formed. */
  type Text = seq<U16>

  /** A Unicode scalar value: a code point that is no surrogate. */
  type Scalar = n: nat | n < 0xD800 || 0xE000 <= n < 0x11_0000 witness 0

  const REPLACEMENT: Scalar := 0xFFFD
  const MARK: U16 := 0xFEFF
  const MARK_BYTES: seq<Byte> := [0xEF, 0xBB, 0xBF]

  // ----- Code units and scalar values

  predicate IsHigh(u: U16) {
    0xD800 <= u < 0xDC00
  }

  predicate IsLow(u: U16) {
    0xDC00 <= u < 0xE000
  }

  predicate StartsWithPair(t: Text) {
    |t| > 1 && IsHigh(t[0]) && IsLow(t[1])
  }

  /** Surrogates come in pairs only. */
  predicate WellFormed(t: Text)
    decreases |t|
  {
    if t == [] then true
    else if StartsWithPair(t) then WellFormed(t[2..])
    else !IsHigh(t[0]) && !IsLow(t[0]) && WellFormed(t[1..])
  }

  /** The scalar values of a string; a lone surrogate counts as the replacement character. */
  function Scalars(t: Text): seq<Scalar>
    decreases |t|
  {
    if t == [] then []
    else if StartsWithPair(t) then
      [0x1_0000 + (t[0] - 0xD800) * 0x400 + (t[1] - 0xDC00)] + Scalars(t[2..])
    else [if IsHigh(t[0]) || IsLow(t[0]) then REPLACEMENT else t[0]] + Scalars(t[1..])
  }

  function UnitsOf(c: Scalar): Text {
    if c < 0x1_0000 then [c] else [0xD800 + (c - 0x1_0000) / 0x400, 0xDC00 + (c - 0x1_0000) % 0x400]
  }

  function Units(s: seq<Scalar>): Text {
    if s == [] then [] else UnitsOf(s[0]) + Units(s[1..])
  }

  // ----- Scalar values and bytes

  function EncodeScalar(c: Scalar): seq<Byte> {
    if c < 0x80 then [c]
    else if c < 0x800 then [0xC0 + c / 64, 0x80 + c % 64]
    else if c < 0x1_0000 then [0xE0 + c / 4096, 0x80 + c / 64 % 64, 0x80 + c % 64]
    else [0xF0 + c / 0x4_0000, 0x80 + c / 4096 % 64, 0x80 + c / 64 % 64, 0x80 + c % 64]
  }

  function EncodeScalars(s: seq<Scalar>): seq<Byte> {
    if s == [] then [] else EncodeScalar(s[0]) + EncodeScalars(s[1..])
  }

  /** How many bytes must follow this one; none for a single byte and for one that starts nothing. */
  function Needed(lead: Byte): nat {
    if 0xC2 <= lead <= 0xDF then 1
    else if 0xE0 <= lead <= 0xEF then 2
    else if 0xF0 <= lead <= 0xF4 then 3
    else 0
  }

  /** The byte after the lead: this is where overlong forms and surrogates are refused. */
  predicate FollowsLead(lead: Byte, b: Byte) {
    && (if lead == 0xE0 then 0xA0 else if lead == 0xF0 then 0x90 else 0x80) <= b
    && b <= (if lead == 0xED then 0x9F else if lead == 0xF4 then 0x8F else 0xBF)
  }

  predicate IsContinuation(b: Byte) {
    0x80 <= b <= 0xBF
  }

  /** How many of the bytes needed are there. */
  function Following(bytes: seq<Byte>): (n: nat)
    requires bytes != []
    ensures n <= Needed(bytes[0]) && n < |bytes|
  {
    if Needed(bytes[0]) == 0 || |bytes| < 2 || !FollowsLead(bytes[0], bytes[1]) then 0
    else if Needed(bytes[0]) == 1 || |bytes| < 3 || !IsContinuation(bytes[2]) then 1
    else if Needed(bytes[0]) == 2 || |bytes| < 4 || !IsContinuation(bytes[3]) then 2
    else 3
  }

  function Point(bytes: seq<Byte>): Scalar
    requires bytes != [] && Needed(bytes[0]) > 0 && Following(bytes) == Needed(bytes[0])
  {
    var b0: int, b1: int := bytes[0], bytes[1] - 0x80;
    if Needed(bytes[0]) == 1 then (b0 - 0xC0) * 64 + b1
    else
      var b2: int := bytes[2] - 0x80;
      if Needed(bytes[0]) == 2 then (b0 - 0xE0) * 4096 + b1 * 64 + b2
      else
        var b3: int := bytes[3] - 0x80;
        (b0 - 0xF0) * 0x4_0000 + b1 * 4096 + b2 * 64 + b3
  }

  /** Bytes that start nothing, and sequences that break off, each give one replacement character. */
  function DecodeScalars(bytes: seq<Byte>): seq<Scalar>
    decreases |bytes|
  {
    if bytes == [] then []
    else if bytes[0] < 0x80 then [bytes[0]] + DecodeScalars(bytes[1..])
    else
      var n := Following(bytes);
      [if Needed(bytes[0]) > 0 && n == Needed(bytes[0]) then Point(bytes) else REPLACEMENT] + DecodeScalars(bytes[n + 1..])
  }

  // ----- What the worker calls

  function Encode(t: Text): seq<Byte> {
    EncodeScalars(Scalars(t))
  }

  function Decode(bytes: seq<Byte>): Text {
    Units(DecodeScalars(if MARK_BYTES <= bytes then bytes[3..] else bytes))
  }

  // ----- Round trips

  lemma DecodeOne(c: Scalar, rest: seq<Byte>)
    ensures DecodeScalars(EncodeScalar(c) + rest) == [c] + DecodeScalars(rest)
  {
    var head := EncodeScalar(c);
    var bytes := head + rest;
    assert bytes[0] == head[0];
    assert bytes[|head|..] == rest;
    hide DecodeScalars;
    DecodeStep(bytes);
    if c >= 0x80 {
      assert bytes[1] == head[1];
      assert c >= 0x800 ==> bytes[2] == head[2];
      assert c >= 0x1_0000 ==> bytes[3] == head[3];
      PointOf(c, bytes);
    }
  }

  lemma DecodeStep(bytes: seq<Byte>)
    requires bytes != []
    ensures DecodeScalars(bytes)
            == if bytes[0] < 0x80 then [bytes[0]] + DecodeScalars(bytes[1..])
               else
                 var n := Following(bytes);
                 [if Needed(bytes[0]) > 0 && n == Needed(bytes[0]) then Point(bytes) else REPLACEMENT] + DecodeScalars(bytes[n + 1..])
  {
  }

  lemma PointOf(c: Scalar, bytes: seq<Byte>)
    requires c >= 0x80 && EncodeScalar(c) <= bytes
    ensures bytes[0] >= 0x80 && Needed(bytes[0]) == |EncodeScalar(c)| - 1 > 0
    ensures Following(bytes) == Needed(bytes[0]) && Point(bytes) == c
  {
    var head := EncodeScalar(c);
    assert forall i :: 0 <= i < |head| ==> bytes[i] == head[i];
    if c < 0x800 {
      assert bytes[0] == 0xC0 + c / 64 && bytes[1] == 0x80 + c % 64;
    } else if c < 0x1_0000 {
      PointOfThree(c, bytes);
    } else {
      PointOfFour(c, bytes);
    }
  }

  lemma PointOfThree(c: Scalar, bytes: seq<Byte>)
    requires 0x800 <= c < 0x1_0000 && |bytes| >= 3
    requires bytes[0] == 0xE0 + c / 4096 && bytes[1] == 0x80 + c / 64 % 64 && bytes[2] == 0x80 + c % 64
    ensures Needed(bytes[0]) == 2 == Following(bytes) && Point(bytes) == c
  {
    var high := c / 64;
    assert c == high * 64 + c % 64 && high == high / 64 * 64 + high % 64 && c / 4096 == high / 64;
  }

  lemma PointOfFour(c: Scalar, bytes: seq<Byte>)
    requires c >= 0x1_0000 && |bytes| >= 4
    requires bytes[0] == 0xF0 + c / 0x4_0000 && bytes[1] == 0x80 + c / 4096 % 64
    requires bytes[2] == 0x80 + c / 64 % 64 && bytes[3] == 0x80 + c % 64
    ensures Needed(bytes[0]) == 3 == Following(bytes) && Point(bytes) == c
  {
    var mid := c / 64;
    var high := mid / 64;
    assert c == mid * 64 + c % 64 && mid == high * 64 + mid % 64 && high == high / 64 * 64 + high % 64;
    assert c / 4096 == high && c / 0x4_0000 == high / 64;
  }

  lemma {:induction false} ScalarsRoundTrip(s: seq<Scalar>)
    ensures DecodeScalars(EncodeScalars(s)) == s
  {
    if s != [] {
      ScalarsRoundTrip(s[1..]);
      DecodeOne(s[0], EncodeScalars(s[1..]));
      hide DecodeScalars, EncodeScalar;
      assert s == [s[0]] + s[1..];
    }
  }

  lemma UnitsConcatHead(c: Scalar, rest: seq<Scalar>)
    ensures Units([c] + rest) == UnitsOf(c) + Units(rest)
  {
    assert ([c] + rest)[1..] == rest;
  }

  /** Lone surrogates are repaired, and a string without any stays as it is. */
  lemma {:induction false} RepairKeepsWellFormed(t: Text)
    ensures |Units(Scalars(t))| == |t|
    ensures Units(Scalars(t)) == t <==> WellFormed(t)
    decreases |t|
  {
    if t != [] {
      if StartsWithPair(t) {
        RepairKeepsWellFormed(t[2..]);
        UnitsConcatHead(Scalars(t)[0], Scalars(t[2..]));
        assert UnitsOf(Scalars(t)[0]) == t[..2];
        hide Units, Scalars, UnitsOf, WellFormed;
        assert t == t[..2] + t[2..];
      } else {
        RepairKeepsWellFormed(t[1..]);
        UnitsConcatHead(Scalars(t)[0], Scalars(t[1..]));
        var u := UnitsOf(Scalars(t)[0]);
        assert u == [Scalars(t)[0]];
        hide Units, UnitsOf;
        assert t == t[..1] + t[1..];
        assert (u + Units(Scalars(t[1..])))[1..] == Units(Scalars(t[1..]));
      }
    }
  }

  lemma {:induction false} UnitsWellFormed(s: seq<Scalar>)
    ensures WellFormed(Units(s))
  {
    if s != [] {
      UnitsWellFormed(s[1..]);
      var u, rest := UnitsOf(s[0]), Units(s[1..]);
      hide Units;
      assert (u + rest)[|u|..] == rest;
    }
  }

  /** Whatever bytes arrive, the decoded string is well-formed. */
  lemma DecodedIsWellFormed(bytes: seq<Byte>)
    ensures WellFormed(Decode(bytes))
  {
    UnitsWellFormed(DecodeScalars(if MARK_BYTES <= bytes then bytes[3..] else bytes));
  }

  predicate StartsWithMark(t: Text) {
    t != [] && t[0] == MARK
  }

  lemma MarkInBytes(t: Text)
    ensures MARK_BYTES <= Encode(t) <==> StartsWithMark(t)
    ensures StartsWithMark(t) ==> Encode(t) == MARK_BYTES + Encode(t[1..])
  {
    if t != [] {
      var s := Scalars(t);
      var head := EncodeScalar(s[0]);
      var rest := EncodeScalars(s[1..]);
      assert Encode(t) == head + rest;
      if StartsWithMark(t) {
        assert head == MARK_BYTES;
        assert s[1..] == Scalars(t[1..]);
      }
      if MARK_BYTES <= head + rest {
        assert (head + rest)[0] == head[0] == 0xEF;
        assert |head| == 3;
        assert (head + rest)[1] == head[1] && (head + rest)[2] == head[2];
        assert s[0] == 0xFEFF;
      }
    }
  }

  /** What the decoder makes of an encoded string: one mark less, lone surrogates repaired. */
  lemma DecodeEncode(t: Text)
    ensures Decode(Encode(t)) == Units(Scalars(if StartsWithMark(t) then t[1..] else t))
  {
    MarkInBytes(t);
    var rest := if StartsWithMark(t) then t[1..] else t;
    assert StartsWithMark(t) ==> (MARK_BYTES + Encode(rest))[3..] == Encode(rest);
    ScalarsRoundTrip(Scalars(rest));
    hide Units, Scalars, EncodeScalars, DecodeScalars;
  }

  /** A string survives encoding and decoding if and only if it is well-formed and does not begin with U+FEFF. */
  lemma TextRoundTrip(t: Text)
    ensures Decode(Encode(t)) == t <==> WellFormed(t) && !StartsWithMark(t)
  {
    DecodeEncode(t);
    RepairKeepsWellFormed(t);
    if StartsWithMark(t) {
      RepairKeepsWellFormed(t[1..]);
    }
    hide Decode, Encode, Units, Scalars;
  }
}
