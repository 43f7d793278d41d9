/** UUIDs as sixteen bytes and as text (workers/relay-cloudflare/src/index.ts; RFC 9562, section 4). */
module Uuid {
  import opened Base

  function HexDigit(n: int): char
    requires 0 <= n < 16
  {
    "0123456789abcdef"[n]
  }

  predicate IsHex(c: char) {
    '0' <= c <= '9' || 'a' <= c <= 'f'
  }

  function HexValue(c: char): int
    requires IsHex(c)
    ensures 0 <= HexValue(c) < 16
  {
    if c <= '9' then c as int - '0' as int else c as int - 'a' as int + 10
  }

  function HexText(bytes: seq<Byte>): (t: string)
    ensures |t| == 2 * |bytes|
  {
    seq(2 * |bytes|, i requires 0 <= i < 2 * |bytes| =>
      HexDigit(if i % 2 == 0 then bytes[i / 2] / 16 else bytes[i / 2] % 16))
  }

  /** The text without its hyphens. */
  function Compact(text: string): string {
    if text == "" then ""
    else Compact(text[..|text| - 1]) + (if text[|text| - 1] == '-' then "" else [text[|text| - 1]])
  }

  predicate AllHex(text: string) {
    forall i :: 0 <= i < |text| ==> IsHex(text[i])
  }

  /** Groups of 8, 4, 4, 4 and 12 lower-case hexadecimal digits, joined by hyphens. */
  predicate IsCanonical(text: string) {
    && |text| == 36
    && text[8] == text[13] == text[18] == text[23] == '-'
    && AllHex(text[..8]) && AllHex(text[9..13]) && AllHex(text[14..18]) && AllHex(text[19..23]) && AllHex(text[24..])
  }

  function Grouped(hex: string): string
    requires |hex| == 32
  {
    hex[..8] + "-" + hex[8..12] + "-" + hex[12..16] + "-" + hex[16..20] + "-" + hex[20..]
  }

  function FromBytes(bytes: seq<Byte>): string
    requires |bytes| == 16
  {
    Grouped(HexText(bytes))
  }

  function PairValue(hi: char, lo: char): Byte
    requires IsHex(hi) && IsHex(lo)
  {
    16 * HexValue(hi) + HexValue(lo)
  }

  /** Every caller passes a canonical identifier: a random one in lower case, or one just decoded. */
  function ToBytes(text: string): (bytes: seq<Byte>)
    requires IsCanonical(text)
    ensures |bytes| == 16
  {
    CompactCanonical(text);
    var c := Compact(text);
    seq(16, i requires 0 <= i < 16 => PairValue(c[2 * i], c[2 * i + 1]))
  }

  lemma {:induction false} CompactConcat(a: string, b: string)
    ensures Compact(a + b) == Compact(a) + Compact(b)
    decreases |b|
  {
    if b == "" {
      assert a + b == a;
    } else {
      CompactConcat(a, b[..|b| - 1]);
      assert (a + b)[..|a + b| - 1] == a + b[..|b| - 1];
    }
  }

  lemma {:induction false} CompactHex(a: string)
    requires AllHex(a)
    ensures Compact(a) == a
  {
    if a != "" {
      assert AllHex(a[..|a| - 1]);
      CompactHex(a[..|a| - 1]);
    }
  }

  lemma CompactHyphen(a: string, rest: string)
    requires AllHex(a)
    ensures Compact(a + ("-" + rest)) == a + Compact(rest)
  {
    CompactHex(a);
    CompactConcat(a, "-" + rest);
    CompactConcat("-", rest);
    assert "-"[..0] == "";
    assert Compact("-"[..0]) == "";
    assert Compact("-") == "";
  }

  lemma CompactGroups(a: string, b: string, c: string, d: string, e: string)
    requires AllHex(a) && AllHex(b) && AllHex(c) && AllHex(d) && AllHex(e)
    ensures Compact(a + ("-" + (b + ("-" + (c + ("-" + (d + ("-" + e)))))))) == a + (b + (c + (d + e)))
  {
    CompactHyphen(a, b + ("-" + (c + ("-" + (d + ("-" + e))))));
    CompactHyphen(b, c + ("-" + (d + ("-" + e))));
    CompactHyphen(c, d + ("-" + e));
    CompactHyphen(d, e);
    CompactHex(e);
  }

  lemma CompactCanonical(text: string)
    requires IsCanonical(text)
    ensures Compact(text) == text[..8] + text[9..13] + text[14..18] + text[19..23] + text[24..]
    ensures |Compact(text)| == 32 && AllHex(Compact(text))
    ensures Grouped(Compact(text)) == text
  {
    var a, b, c, d, e := text[..8], text[9..13], text[14..18], text[19..23], text[24..];
    assert text == a + ("-" + (b + ("-" + (c + ("-" + (d + ("-" + e)))))));
    CompactGroups(a, b, c, d, e);
    assert a + (b + (c + (d + e))) == a + b + c + d + e;
  }

  lemma HexTextIsHex(bytes: seq<Byte>)
    ensures AllHex(HexText(bytes))
    ensures forall k :: 0 <= k < |bytes| ==> PairValue(HexText(bytes)[2 * k], HexText(bytes)[2 * k + 1]) == bytes[k]
  {
    forall n | 0 <= n < 16
      ensures IsHex(HexDigit(n)) && HexValue(HexDigit(n)) == n
    {
    }
    forall k | 0 <= k < |bytes|
      ensures PairValue(HexText(bytes)[2 * k], HexText(bytes)[2 * k + 1]) == bytes[k]
    {
      assert (2 * k) / 2 == k && (2 * k + 1) / 2 == k && (2 * k) % 2 == 0 && (2 * k + 1) % 2 == 1;
    }
  }

  /** Thirty-two digits, grouped and ungrouped again. */
  lemma GroupedIsCanonical(h: string)
    requires |h| == 32 && AllHex(h)
    ensures IsCanonical(Grouped(h)) && Compact(Grouped(h)) == h
  {
    var a, b, c, d, e := h[..8], h[8..12], h[12..16], h[16..20], h[20..];
    var text := Grouped(h);
    assert text[..8] == a && text[9..13] == b && text[14..18] == c && text[19..23] == d && text[24..] == e;
    hide Compact, Grouped;
    CompactCanonical(text);
    assert h == a + b + c + d + e;
  }

  /** Text and bytes are two forms of the same identifier. */
  lemma BytesRoundTrip(bytes: seq<Byte>)
    requires |bytes| == 16
    ensures IsCanonical(FromBytes(bytes)) && ToBytes(FromBytes(bytes)) == bytes
  {
    HexTextIsHex(bytes);
    GroupedIsCanonical(HexText(bytes));
    hide Compact, Grouped, HexText, IsCanonical, PairValue;
    ToBytesOf(FromBytes(bytes), HexText(bytes), bytes);
  }

  lemma ToBytesOf(text: string, h: string, bytes: seq<Byte>)
    requires IsCanonical(text) && Compact(text) == h && |h| == 32 && AllHex(h) && |bytes| == 16
    requires forall k :: 0 <= k < |bytes| ==> PairValue(h[2 * k], h[2 * k + 1]) == bytes[k]
    ensures ToBytes(text) == bytes
  {
    hide Compact, Grouped, IsCanonical, PairValue, AllHex;
  }

  lemma PairDigits(hi: char, lo: char)
    requires IsHex(hi) && IsHex(lo)
    ensures HexDigit(PairValue(hi, lo) / 16) == hi && HexDigit(PairValue(hi, lo) % 16) == lo
  {
    assert PairValue(hi, lo) / 16 == HexValue(hi) && PairValue(hi, lo) % 16 == HexValue(lo);
    DigitOfValue(hi);
    DigitOfValue(lo);
  }

  lemma DigitOfValue(c: char)
    requires IsHex(c)
    ensures HexDigit(HexValue(c)) == c
  {
    if c <= '9' {
      assert "0123456789abcdef"[HexValue(c)] == c;
    }
  }

  lemma TextRoundTrip(text: string)
    requires IsCanonical(text)
    ensures FromBytes(ToBytes(text)) == text
  {
    CompactCanonical(text);
    var c := Compact(text);
    var bytes := ToBytes(text);
    hide Compact, Grouped, IsCanonical, PairValue;
    forall i | 0 <= i < 32
      ensures HexText(bytes)[i] == c[i]
    {
      var k := i / 2;
      assert bytes[k] == PairValue(c[2 * k], c[2 * k + 1]);
      PairDigits(c[2 * k], c[2 * k + 1]);
      assert if i % 2 == 0 then i == 2 * k else i == 2 * k + 1;
    }
    assert HexText(bytes) == c;
  }

  // ----- The text, digit by digit

  /** The sixteen digits and what each stands for. */
  lemma HexDigits(n: nat)
    requires n < 16
    ensures HexDigit(n) as int == if n < 10 then '0' as int + n else 'a' as int + (n - 10)
    ensures IsHex(HexDigit(n)) && HexValue(HexDigit(n)) == n
  {
  }

  /** Where the two digits of byte `k` stand in the text: behind four hyphens, the high half first. */
  function PlaceOf(k: nat): nat
    requires k < 16
  {
    2 * k + (if k < 4 then 0 else if k < 6 then 1 else if k < 8 then 2 else if k < 10 then 3 else 4)
  }

  lemma DigitsOfByte(bytes: seq<Byte>, k: nat)
    requires |bytes| == 16 && k < 16
    ensures var text := FromBytes(bytes);
            && |text| == 36 && PlaceOf(k) + 1 < 36
            && IsHex(text[PlaceOf(k)]) && IsHex(text[PlaceOf(k) + 1])
            && bytes[k] == 16 * HexValue(text[PlaceOf(k)]) + HexValue(text[PlaceOf(k) + 1])
  {
    hide HexText, Grouped, HexDigit, IsHex;
    HexTextAt(bytes, k);
    HexDigits(bytes[k] / 16);
    HexDigits(bytes[k] % 16);
    GroupedAt(HexText(bytes), 2 * k);
    GroupedAt(HexText(bytes), 2 * k + 1);
    assert 2 * k / 2 == k && (2 * k + 1) / 2 == k;
  }

  lemma HexTextAt(bytes: seq<Byte>, k: nat)
    requires k < |bytes|
    ensures HexText(bytes)[2 * k] == HexDigit(bytes[k] / 16) && HexText(bytes)[2 * k + 1] == HexDigit(bytes[k] % 16)
  {
    hide HexDigit;
  }

  lemma GroupedAt(h: string, i: nat)
    requires |h| == 32 && i < 32
    ensures |Grouped(h)| == 36 && PlaceOf(i / 2) + i % 2 < 36 && Grouped(h)[PlaceOf(i / 2) + i % 2] == h[i]
  {
  }
}
