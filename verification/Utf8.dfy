/** The UTF-8 encoding (RFC 3629, sections 3 and 4): well-formed texts and character boundaries. */
module Utf8 {
  type Byte = b: int | 0 <= b < 256

  predicate Tail(b: Byte) {
    0x80 <= b <= 0xBF
  }

  /** The length of the well-formed character `s` starts with, or 0. */
  function CharLen(s: seq<Byte>): (n: nat)
    ensures n <= 4 && n <= |s|
    ensures forall k :: 1 <= k < n ==> Tail(s[k])
    ensures n > 0 ==> !Tail(s[0])
  {
    if |s| >= 1 && s[0] <= 0x7F then 1
    else if |s| >= 2 && 0xC2 <= s[0] <= 0xDF && Tail(s[1]) then 2
    else if |s| >= 3 && Tail(s[2]) && Tail3(s[0], s[1]) then 3
    else if |s| >= 4 && Tail(s[2]) && Tail(s[3]) && Tail4(s[0], s[1]) then 4
    else 0
  }

  predicate Tail3(a: Byte, b: Byte) {
    || (a == 0xE0 && 0xA0 <= b <= 0xBF)
    || ((0xE1 <= a <= 0xEC || 0xEE <= a <= 0xEF) && Tail(b))
    || (a == 0xED && 0x80 <= b <= 0x9F)
  }

  predicate Tail4(a: Byte, b: Byte) {
    || (a == 0xF0 && 0x90 <= b <= 0xBF)
    || (0xF1 <= a <= 0xF3 && Tail(b))
    || (a == 0xF4 && 0x80 <= b <= 0x8F)
  }

  /** `high` followed by the six bits of a continuation byte. */
  function Add(high: int, b: Byte): int {
    high * 0x40 + (b - 0x80)
  }

  /** The code point of the well-formed character `s` starts with. */
  function CodePoint(s: seq<Byte>): int
    requires CharLen(s) > 0
  {
    match CharLen(s)
    case 1 => s[0] as int
    case 2 => Add(s[0] - 0xC0, s[1])
    case 3 => Add(Add(s[0] - 0xE0, s[1]), s[2])
    case _ => Add(Add(Add(s[0] - 0xF0, s[1]), s[2]), s[3])
  }

  predicate Valid(s: seq<Byte>) {
    s == [] || (CharLen(s) > 0 && Valid(s[CharLen(s)..]))
  }

  function Decode(s: seq<Byte>): seq<int>
    requires Valid(s)
  {
    if s == [] then [] else [CodePoint(s)] + Decode(s[CharLen(s)..])
  }

  // ---------------------------------------------------------------- boundaries

  /** A character is recognised by its own bytes, whatever follows it. */
  lemma CharStandsAlone(s: seq<Byte>, b: seq<Byte>)
    requires CharLen(s) > 0
    ensures CharLen(s + b) == CharLen(s) && CodePoint(s + b) == CodePoint(s)
    ensures (s + b)[CharLen(s)..] == s[CharLen(s)..] + b
  {
    var n := CharLen(s);
    assert forall k :: 0 <= k < n ==> (s + b)[k] == s[k];
  }

  lemma {:induction false} ValidConcat(a: seq<Byte>, b: seq<Byte>)
    requires Valid(a)
    ensures Valid(a + b) <==> Valid(b)
  {
    if a == [] {
      assert a + b == b;
    } else {
      CharStandsAlone(a, b);
      ValidConcat(a[CharLen(a)..], b);
    }
  }

  lemma {:induction false} DecodeConcat(a: seq<Byte>, b: seq<Byte>)
    requires Valid(a) && Valid(b)
    ensures Valid(a + b) && Decode(a + b) == Decode(a) + Decode(b)
  {
    ValidConcat(a, b);
    if a == [] {
      assert a + b == b;
    } else {
      CharStandsAlone(a, b);
      DecodeConcat(a[CharLen(a)..], b);
    }
  }

  lemma OneChar(s: seq<Byte>)
    requires CharLen(s) > 0
    ensures Valid(s[..CharLen(s)])
  {
    var c := s[..CharLen(s)];
    assert CharLen(c) == CharLen(s) && c[CharLen(s)..] == [];
  }

  lemma OneCharMore(s: seq<Byte>, k: nat)
    requires CharLen(s) > 0 && CharLen(s) + k <= |s| && Valid(s[CharLen(s)..][..k])
    ensures Valid(s[..CharLen(s) + k])
  {
    var n := CharLen(s);
    OneChar(s);
    CutTwice(s, n, k);
    ValidConcat(s[..n], s[n..][..k]);
  }

  lemma CutTwice(s: seq<Byte>, n: nat, k: nat)
    requires n + k <= |s|
    ensures s[..n] + s[n..][..k] == s[..n + k]
  {}

  /** A character cut short is not well-formed. */
  lemma CutCharInvalid(s: seq<Byte>, e: nat)
    requires e <= |s|
    ensures 0 < e < CharLen(s) ==> !Valid(s[..e])
  {
    assert 0 < e < CharLen(s) ==> CharLen(s[..e]) == 0;
  }

  /** Within the last three bytes before any cut of a valid text there is a character boundary. */
  lemma {:induction false} BoundaryNearby(s: seq<Byte>, cut: nat) returns (e: nat)
    requires Valid(s) && cut <= |s|
    ensures e <= cut <= e + 3 && Valid(s[..e])
  {
    if cut == 0 || cut < CharLen(s) {
      e := 0;
    } else {
      var n := CharLen(s);
      var rest := BoundaryNearby(s[n..], cut - n);
      e := n + rest;
      OneCharMore(s, rest);
    }
  }

  /** The encoding synchronises itself: a position of a valid text whose byte is not a
      continuation byte is a character boundary. */
  lemma {:induction false} LeadByteIsBoundary(s: seq<Byte>, i: nat)
    requires Valid(s) && i < |s| && !Tail(s[i])
    ensures Valid(s[..i])
  {
    if i == 0 {
    } else {
      var n := CharLen(s);
      assert n <= i;
      LeadByteIsBoundary(s[n..], i - n);
      OneCharMore(s, i - n);
    }
  }

  // ---------------------------------------------------------------- the encoder

  /** The values a text may hold: no surrogates, nothing above U+10FFFF. */
  predicate ScalarValue(c: int) {
    0 <= c <= 0xD7FF || 0xE000 <= c <= 0x10FFFF
  }

  /** A continuation byte for the low six bits, and what is above them. */
  function Low(c: nat): Byte {
    0x80 + c % 0x40
  }

  function High(c: nat): nat {
    c / 0x40
  }

  function EncodeChar(c: int): (s: seq<Byte>)
    requires ScalarValue(c)
    ensures 1 <= |s| <= 4
  {
    if c <= 0x7F then [c]
    else if c <= 0x7FF then [0xC0 + High(c), Low(c)]
    else if c <= 0xFFFF then [0xE0 + High(High(c)), Low(High(c)), Low(c)]
    else [0xF0 + High(High(High(c))), Low(High(High(c))), Low(High(c)), Low(c)]
  }

  lemma AddSplits(high: nat, b: Byte)
    requires Tail(b)
    ensures Low(Add(high, b)) == b && High(Add(high, b)) == high
  {}

  lemma SplitAdds(c: nat)
    ensures Tail(Low(c)) && Add(High(c), Low(c)) == c
  {}

  function Encode(text: seq<int>): seq<Byte>
    requires forall k :: 0 <= k < |text| ==> ScalarValue(text[k])
  {
    if text == [] then [] else EncodeChar(text[0]) + Encode(text[1..])
  }

  lemma Decodes2(s: seq<Byte>)
    requires CharLen(s) == 2
    ensures ScalarValue(CodePoint(s)) && EncodeChar(CodePoint(s)) == s[..2]
  {
    AddSplits(s[0] - 0xC0, s[1]);
  }

  lemma Decodes3(s: seq<Byte>)
    requires CharLen(s) == 3
    ensures ScalarValue(CodePoint(s)) && EncodeChar(CodePoint(s)) == s[..3]
  {
    AddSplits(s[0] - 0xE0, s[1]);
    AddSplits(Add(s[0] - 0xE0, s[1]), s[2]);
  }

  lemma Bits4(h: nat, x: Byte, a: Byte, b: Byte)
    requires Tail(x) && Tail(a) && Tail(b) && h <= 4 && (h == 0 ==> x >= 0x90) && (h == 4 ==> x <= 0x8F)
    ensures var c := Add(Add(Add(h, x), a), b);
      0x1_0000 <= c <= 0x10_FFFF && EncodeChar(c) == [0xF0 + h, x, a, b]
  {
    AddSplits(h, x);
    AddSplits(Add(h, x), a);
    AddSplits(Add(Add(h, x), a), b);
  }

  lemma Decodes4(s: seq<Byte>)
    requires CharLen(s) == 4
    ensures ScalarValue(CodePoint(s)) && EncodeChar(CodePoint(s)) == s[..4]
  {
    Bits4(s[0] - 0xF0, s[1], s[2], s[3]);
    assert s[..4] == [s[0], s[1], s[2], s[3]];
  }

  lemma CharDecodes(s: seq<Byte>)
    requires CharLen(s) > 0
    ensures ScalarValue(CodePoint(s)) && EncodeChar(CodePoint(s)) == s[..CharLen(s)]
  {
    var n := CharLen(s);
    if n == 2 {
      Decodes2(s);
    } else if n == 3 {
      Decodes3(s);
    } else if n == 4 {
      Decodes4(s);
    }
  }

  lemma Encodes2(h: nat, b: Byte, c: int)
    requires Tail(b) && c == Add(h, b) && 0x80 <= c <= 0x7FF
    ensures h <= 0x1F && var s: seq<Byte> := [0xC0 + h, b]; CharLen(s) == 2 && CodePoint(s) == c
  {}

  lemma Encodes3(h: nat, a: Byte, b: Byte, c: int)
    requires Tail(a) && Tail(b) && c == Add(Add(h, a), b) && 0x800 <= c <= 0xFFFF && ScalarValue(c)
    ensures h <= 0xF && var s: seq<Byte> := [0xE0 + h, a, b]; CharLen(s) == 3 && CodePoint(s) == c
  {}

  lemma Encodes4(h: nat, x: Byte, a: Byte, b: Byte, c: int)
    requires Tail(x) && Tail(a) && Tail(b) && c == Add(Add(Add(h, x), a), b) && 0x1_0000 <= c <= 0x10_FFFF
    ensures h <= 4 && var s: seq<Byte> := [0xF0 + h, x, a, b]; CharLen(s) == 4 && CodePoint(s) == c
  {}

  lemma CharEncodes(c: int)
    requires ScalarValue(c)
    ensures CharLen(EncodeChar(c)) == |EncodeChar(c)| && CodePoint(EncodeChar(c)) == c
  {
    SplitAdds(c);
    if 0x80 <= c <= 0x7FF {
      Encodes2(High(c), Low(c), c);
    } else if 0x800 <= c <= 0xFFFF {
      SplitAdds(High(c));
      Encodes3(High(High(c)), Low(High(c)), Low(c), c);
    } else if 0x1_0000 <= c {
      SplitAdds(High(c));
      SplitAdds(High(High(c)));
      Encodes4(High(High(High(c))), Low(High(High(c))), Low(High(c)), Low(c), c);
    }
  }

  /** Decoding a well-formed text gives scalar values, and encoding them gives the bytes back. */
  lemma {:induction false} EncodeDecode(s: seq<Byte>)
    requires Valid(s)
    ensures forall k :: 0 <= k < |Decode(s)| ==> ScalarValue(Decode(s)[k])
    ensures Encode(Decode(s)) == s
  {
    if s == [] {
    } else {
      CharDecodes(s);
      EncodeDecode(s[CharLen(s)..]);
      assert Decode(s)[1..] == Decode(s[CharLen(s)..]);
    }
  }

  /** Every text of scalar values has a well-formed encoding that decodes to it. */
  lemma {:induction false} DecodeEncode(text: seq<int>)
    requires forall k :: 0 <= k < |text| ==> ScalarValue(text[k])
    ensures Valid(Encode(text)) && Decode(Encode(text)) == text
  {
    if text == [] {
    } else {
      var c, rest := EncodeChar(text[0]), Encode(text[1..]);
      CharEncodes(text[0]);
      DecodeEncode(text[1..]);
      CharStandsAlone(c, rest);
      assert c[CharLen(c)..] + rest == rest;
    }
  }

  // ---------------------------------------------------------------- text

  /** The characters of Unicode category Cc. */
  predicate ControlChar(c: int) {
    0 <= c < 0x20 || 0x7F <= c <= 0x9F
  }

  /** Text the file adapter is willing to decode: strict UTF-8 with no control character but
      tab, line feed and carriage return. */
  predicate SafeText(raw: seq<Byte>) {
    && Valid(raw)
    && var text := Decode(raw);
       forall k :: 0 <= k < |text| ==> ControlChar(text[k]) ==> text[k] in {9, 10, 13}
  }
}
