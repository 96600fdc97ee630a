/** Which files are read and searched, told by their bytes, and what every refusal says. */
module FileRules {
  import opened Common
  import opened Checks
  import opened Utf8
  import opened Utf8Window
  import opened MarkerSearch

  // ---------------------------------------------------------------- control characters, by their bytes

  /** No byte below 0x20 and no 0x7F except those allowed, and no 0xC2 in front of 0x80 to 0x9F. */
  ghost predicate CleanBytes(raw: seq<Byte>, allowed: set<int>) {
    && (forall k :: 0 <= k < |raw| ==> (raw[k] >= 0x20 && raw[k] != 0x7F) || raw[k] in allowed)
    && (forall k :: 0 <= k < |raw| - 1 ==> raw[k] == 0xC2 ==> raw[k + 1] >= 0xA0)
  }

  ghost predicate CleanText(text: seq<int>, allowed: set<int>) {
    forall k :: 0 <= k < |text| ==> !ControlChar(text[k]) || text[k] in allowed
  }

  const BLANKS := {9, 10, 13}

  lemma CharIsClean(s: seq<Byte>, allowed: set<int>)
    requires CharLen(s) > 0 && allowed <= BLANKS
    ensures !ControlChar(CodePoint(s)) || CodePoint(s) in allowed <==> CleanBytes(s[..CharLen(s)], allowed)
  {
    var n, c := CharLen(s), s[..CharLen(s)];
    assert c[0] == s[0];
    if n == 1 {
    } else if n == 2 {
      assert c[1] == s[1];
    } else {
      LongCharsAreHigh(s);
      assert forall k :: 1 <= k < n ==> Tail(c[k]);
    }
  }

  lemma LongCharsAreHigh(s: seq<Byte>)
    requires CharLen(s) >= 3
    ensures CodePoint(s) >= 0x800 && s[0] > 0xC2
  {
    if CharLen(s) == 3 {
      assert Add(s[0] - 0xE0, s[1]) >= 0x20;
    } else {
      assert Add(s[0] - 0xF0, s[1]) >= 0x10;
    }
  }

  lemma LastByteIsNoLead(s: seq<Byte>)
    requires CharLen(s) > 0
    ensures s[..CharLen(s)][CharLen(s) - 1] != 0xC2
  {}

  /** The bytes of a character end in none that could begin another's. */
  lemma CleanConcat(c: seq<Byte>, rest: seq<Byte>, allowed: set<int>)
    requires c != [] && c[|c| - 1] != 0xC2
    ensures CleanBytes(c + rest, allowed) <==> CleanBytes(c, allowed) && CleanBytes(rest, allowed)
  {
    var s := c + rest;
    if CleanBytes(s, allowed) {
      forall k | 0 <= k < |c| ensures c[k] == s[k] {}
      forall k | 0 <= k < |rest| ensures rest[k] == s[|c| + k] {}
    }
  }

  /** A text has no control character but the allowed ones exactly when its bytes are clean. */
  lemma {:induction false} CleanByBytes(raw: seq<Byte>, allowed: set<int>)
    requires Valid(raw) && allowed <= BLANKS
    ensures CleanText(Decode(raw), allowed) <==> CleanBytes(raw, allowed)
    decreases |raw|
  {
    if raw == [] {
    } else {
      var n := CharLen(raw);
      var c, rest := raw[..n], raw[n..];
      CleanByBytes(rest, allowed);
      CharIsClean(raw, allowed);
      LastByteIsNoLead(raw);
      CleanConcat(c, rest, allowed);
      assert raw == c + rest;
      FirstClean(CodePoint(raw), Decode(rest), allowed);
    }
  }

  lemma FirstClean(c: int, text: seq<int>, allowed: set<int>)
    ensures CleanText([c] + text, allowed) <==> (!ControlChar(c) || c in allowed) && CleanText(text, allowed)
  {
    var all := [c] + text;
    if CleanText(all, allowed) {
      assert all[0] == c;
      forall k | 0 <= k < |text| ensures text[k] == all[k + 1] {}
    }
  }

  // ---------------------------------------------------------------- reading

  /** What is asked of a file before anything of it is given out. */
  ghost function FileRules<E>(raw: seq<Byte>, secret: SecretPolicy, told: Error -> E): seq<Check<E>> {
    [ Check(|raw| <= 10_000_000, told(ScanLimit)),
      Check(!secret(raw), told(SecretContent)),
      Check(Valid(raw) && CleanBytes(raw, {9, 10, 13}), told(BinaryForbidden)) ]
  }

  lemma FileRulesTell<E>(raw: seq<Byte>, secret: SecretPolicy, told: Error -> E)
    ensures Tells(FileRules(raw, secret, told),
                  match FileRefusal(raw, secret) case None => None case Some(e) => Some(told(e)))
  {
    if Valid(raw) {
      CleanByBytes(raw, BLANKS);
    }
    var h := FileRules(raw, secret, told);
    var k := if !h[0].passed then 0 else if !h[1].passed then 1 else if !h[2].passed then 2 else 3;
    assert k < 3 ==> FailsAt(h, k);
  }

  /** The offset lies in the file, and no continuation byte follows it. */
  predicate AtCharacter(raw: seq<Byte>, offset: int) {
    0 <= offset <= |raw| && (offset < |raw| ==> raw[offset] < 0x80 || raw[offset] >= 0xC0)
  }

  lemma BoundaryByByte(raw: seq<Byte>, offset: nat)
    requires Valid(raw) && offset <= |raw|
    ensures Valid(raw[..offset]) <==> AtCharacter(raw, offset)
  {
    if offset == |raw| {
      assert raw[..offset] == raw;
    } else {
      if Valid(raw[..offset]) {
        SplitAtBoundary(raw, offset);
        assert raw[offset..][0] == raw[offset];
      }
      if !Tail(raw[offset]) {
        LeadByteIsBoundary(raw, offset);
      }
    }
  }

  ghost function ReadRules(raw: seq<Byte>, offset: int, maxBytes: int, secret: SecretPolicy): seq<Check<Error>> {
    [Check(offset >= 0 && 1 <= maxBytes <= 64_000, BoundsInvalid)]
    + (FileRules(raw, secret, e => e)
       + [Check(offset <= |raw|, OffsetOutOfRange), Check(AtCharacter(raw, offset), BoundaryInvalid)])
  }

  lemma PlaceRulesTell(raw: seq<Byte>, offset: nat)
    requires Valid(raw)
    ensures Tells([Check(offset <= |raw|, OffsetOutOfRange), Check(AtCharacter(raw, offset), BoundaryInvalid)],
                  if offset > |raw| then Some(OffsetOutOfRange)
                  else if !Valid(raw[..offset]) then Some(BoundaryInvalid) else None)
  {
    var h := [Check(offset <= |raw|, OffsetOutOfRange), Check(AtCharacter(raw, offset), BoundaryInvalid)];
    if offset > |raw| {
      assert FailsAt(h, 0);
    } else {
      BoundaryByByte(raw, offset);
      if !Valid(raw[..offset]) {
        assert FailsAt(h, 1);
      }
    }
  }

  /** A window is refused with the error of the first rule it breaks, and only then. */
  lemma ReadRefusalTells(raw: seq<Byte>, offset: int, maxBytes: int, secret: SecretPolicy)
    ensures Tells(ReadRules(raw, offset, maxBytes, secret), ReadRefusal(raw, offset, maxBytes, secret))
  {
    var file := FileRules(raw, secret, (e: Error) => e);
    var place := [Check(offset <= |raw|, OffsetOutOfRange), Check(AtCharacter(raw, offset), BoundaryInvalid)];
    FileRulesTell(raw, secret, (e: Error) => e);
    var bounds := Check(offset >= 0 && 1 <= maxBytes <= 64_000, BoundsInvalid);
    if bounds.passed {
      if FileRefusal(raw, secret).None? {
        PlaceRulesTell(raw, offset);
      }
      TellsTogether(file, place, ReadRefusal(raw, offset, maxBytes, secret));
    }
    TellsFirst(bounds, file + place, ReadRefusal(raw, offset, maxBytes, secret));
  }

  // ---------------------------------------------------------------- searching

  ghost function SearchRules(raw: seq<Byte>, marker: seq<Byte>, maxScanBytes: Option<int>, maxMatches: int,
      secret: SecretPolicy): seq<Check<SearchError>>
  {
    [ Check(1 <= |marker| <= 512, MarkerBounds),
      Check(CleanBytes(marker, {}), MarkerControlChar),
      Check(!secret(marker), MarkerSecret),
      Check(maxScanBytes.Some? ==> 1 <= maxScanBytes.value <= 1_000_000, ScanBounds),
      Check(1 <= maxMatches <= 256, MatchBounds) ]
    + FileRules(raw, secret, e => FileRefused(e))
  }

  /** A search is refused with the error of the first rule it breaks, and only then. */
  lemma SearchRefusalTells(raw: seq<Byte>, marker: seq<Byte>, maxScanBytes: Option<int>, maxMatches: int,
      secret: SecretPolicy)
    requires Valid(marker)
    ensures Tells(SearchRules(raw, marker, maxScanBytes, maxMatches, secret),
                  MarkerSearch.Refusal(raw, marker, maxScanBytes, maxMatches, secret))
  {
    CleanByBytes(marker, {});
    var file := FileRules(raw, secret, e => FileRefused(e));
    var all := SearchRules(raw, marker, maxScanBytes, maxMatches, secret);
    var h := all[..5];
    assert all == h + file;
    FileRulesTell(raw, secret, e => FileRefused(e));
    var k := if !h[0].passed then 0 else if !h[1].passed then 1 else if !h[2].passed then 2
             else if !h[3].passed then 3 else if !h[4].passed then 4 else 5;
    assert k < 5 ==> FailsAt(h, k);
    TellsTogether(h, file, MarkerSearch.Refusal(raw, marker, maxScanBytes, maxMatches, secret));
  }

  // ---------------------------------------------------------------- lines

  function LineFeeds(s: seq<Byte>): set<int> {
    set k | 0 <= k < |s| && s[k] == 10
  }

  /** The line of a match is one more than the number of bytes 10 in front of it. */
  lemma {:induction false} NewlinesAreLineFeeds(s: seq<Byte>)
    ensures Newlines(s) == |LineFeeds(s)|
  {
    if s == [] {
    } else {
      var front, last := s[..|s| - 1], |s| - 1;
      NewlinesAreLineFeeds(front);
      assert LineFeeds(s) == LineFeeds(front) + if s[last] == 10 then {last} else {};
    }
  }
}
