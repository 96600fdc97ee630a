/** The literal marker search over the scanned prefix of a file. */
module MarkerSearch {
  import opened Common
  import opened Utf8
  import opened Utf8Window

  const NEWLINE: Byte := 10
  const MAX_MARKER_BYTES := 512
  const MAX_SCAN_BYTES := 1_000_000
  const MAX_MATCHES := 256

  predicate OccursAt(s: seq<Byte>, m: seq<Byte>, i: int) {
    0 <= i && i + |m| <= |s| && s[i..i + |m|] == m
  }

  /** The first occurrence at or after `from`, as the substring search of the host finds it. */
  function Find(s: seq<Byte>, m: seq<Byte>, from: nat): (r: Option<nat>)
    ensures r.Some? ==> from <= r.value && OccursAt(s, m, r.value)
    ensures r.Some? ==> forall i :: from <= i < r.value ==> !OccursAt(s, m, i)
    ensures r.None? ==> forall i :: from <= i ==> !OccursAt(s, m, i)
    decreases |s| - from
  {
    if from + |m| > |s| then None
    else if s[from..from + |m|] == m then Some(from)
    else
      var r := Find(s, m, from + 1);
      assert !OccursAt(s, m, from);
      r
  }

  function Newlines(s: seq<Byte>): nat {
    if s == [] then 0 else Newlines(s[..|s| - 1]) + if s[|s| - 1] == NEWLINE then 1 else 0
  }

  datatype SearchError =
    | MarkerBounds
    | MarkerControlChar
    | MarkerSecret
    | ScanBounds
    | MatchBounds
    | FileRefused(error: Error)

  datatype Report = Report(
    matchCount: nat,
    lineNumbers: seq<nat>,
    truncatedMatches: bool,
    bytesScanned: nat,
    scanTruncated: bool
  )

  /** Position `p` lies inside the match that starts at `offset`. */
  predicate StartsInside(p: int, offset: int, width: int) {
    offset <= p < offset + width
  }

  ghost predicate InsideSome(p: int, offsets: seq<nat>, width: int) {
    exists k :: 0 <= k < |offsets| && StartsInside(p, offsets[k], width)
  }

  ghost predicate Matches(s: seq<Byte>, m: seq<Byte>, offsets: seq<nat>) {
    && (forall k :: 0 <= k < |offsets| ==> OccursAt(s, m, offsets[k]))
    && (forall j, k :: 0 <= j < k < |offsets| ==> offsets[j] + |m| <= offsets[k])
  }

  /** Every occurrence before `bound` starts inside one of the matches. */
  ghost predicate Covered(s: seq<Byte>, m: seq<Byte>, offsets: seq<nat>, bound: int) {
    forall p :: OccursAt(s, m, p) && p < bound ==> InsideSome(p, offsets, |m|)
  }

  /** The matches are occurrences, in order and disjoint, and every occurrence in the text
      starts inside one of them. */
  ghost predicate LeftmostMatches(s: seq<Byte>, m: seq<Byte>, offsets: seq<nat>) {
    Matches(s, m, offsets) && Covered(s, m, offsets, |s|)
  }

  predicate Before(offsets: seq<nat>, width: nat, cursor: nat) {
    forall k :: 0 <= k < |offsets| ==> offsets[k] + width <= cursor
  }

  lemma ExtendMatches(s: seq<Byte>, m: seq<Byte>, offsets: seq<nat>, cursor: nat, index: nat)
    requires Matches(s, m, offsets) && Before(offsets, |m|, cursor) && cursor <= index && OccursAt(s, m, index)
    ensures Matches(s, m, offsets + [index]) && Before(offsets + [index], |m|, index + |m|)
  {}

  lemma ExtendCovered(s: seq<Byte>, m: seq<Byte>, offsets: seq<nat>, cursor: nat, index: nat)
    requires Covered(s, m, offsets, cursor)
    requires forall i :: cursor <= i < index ==> !OccursAt(s, m, i)
    ensures Covered(s, m, offsets + [index], index + |m|)
  {
    var more := offsets + [index];
    forall p | OccursAt(s, m, p) && p < index + |m| ensures InsideSome(p, more, |m|) {
      if p < cursor {
        assert InsideSome(p, offsets, |m|);
        var k :| 0 <= k < |offsets| && StartsInside(p, offsets[k], |m|);
        assert more[k] == offsets[k];
      } else {
        assert StartsInside(p, more[|offsets|], |m|);
      }
    }
  }

  lemma NothingAfter(s: seq<Byte>, m: seq<Byte>, offsets: seq<nat>, cursor: nat)
    requires Covered(s, m, offsets, cursor)
    requires forall i :: cursor <= i ==> !OccursAt(s, m, i)
    ensures Covered(s, m, offsets, |s|)
  {}

  /** The search loop: repeatedly the first occurrence at or after the end of the last match. */
  method SearchAll(scan: seq<Byte>, marker: seq<Byte>) returns (offsets: seq<nat>)
    requires marker != []
    ensures LeftmostMatches(scan, marker, offsets)
  {
    offsets := [];
    var cursor: nat := 0;
    while true
      invariant cursor <= |scan|
      invariant Matches(scan, marker, offsets) && Before(offsets, |marker|, cursor)
      invariant Covered(scan, marker, offsets, cursor)
      decreases |scan| - cursor
    {
      var index := Find(scan, marker, cursor);
      if index.None? {
        NothingAfter(scan, marker, offsets, cursor);
        break;
      }
      ExtendCovered(scan, marker, offsets, cursor, index.value);
      ExtendMatches(scan, marker, offsets, cursor, index.value);
      offsets := offsets + [index.value];
      cursor := index.value + |marker|;
    }
  }

  method LineNumbers(scan: seq<Byte>, visible: seq<nat>) returns (lines: seq<nat>)
    requires forall k :: 0 <= k < |visible| ==> visible[k] <= |scan|
    ensures |lines| == |visible|
    ensures forall k :: 0 <= k < |visible| ==> lines[k] == Newlines(scan[..visible[k]]) + 1
  {
    lines := [];
    for k := 0 to |visible|
      invariant |lines| == k
      invariant forall j :: 0 <= j < k ==> lines[j] == Newlines(scan[..visible[j]]) + 1
    {
      lines := lines + [Newlines(scan[..visible[k]]) + 1];
    }
  }

  predicate NoControlChar(text: seq<int>) {
    forall k :: 0 <= k < |text| ==> !ControlChar(text[k])
  }

  function ScanBound(maxScanBytes: Option<int>): int {
    if maxScanBytes.Some? then maxScanBytes.value else MAX_SCAN_BYTES
  }

  /** When the search refuses, and with what. */
  function Refusal(raw: seq<Byte>, marker: seq<Byte>, maxScanBytes: Option<int>, maxMatches: int, secret: SecretPolicy):
    Option<SearchError>
    requires Valid(marker)
  {
    if marker == [] || |marker| > MAX_MARKER_BYTES then Some(MarkerBounds)
    else if !NoControlChar(Decode(marker)) then Some(MarkerControlChar)
    else if secret(marker) then Some(MarkerSecret)
    else if !(1 <= ScanBound(maxScanBytes) <= MAX_SCAN_BYTES) then Some(ScanBounds)
    else if !(1 <= maxMatches <= MAX_MATCHES) then Some(MatchBounds)
    else match FileRefusal(raw, secret)
         case Some(error) => Some(FileRefused(error))
         case None => None
  }

  ghost predicate Reports(raw: seq<Byte>, marker: seq<Byte>, limit: nat, maxMatches: nat, report: Report,
      offsets: seq<nat>) {
    && report.bytesScanned == Min(|raw|, limit)
    && report.scanTruncated == (limit < |raw|)
    && LeftmostMatches(raw[..report.bytesScanned], marker, offsets)
    && report.matchCount == |offsets|
    && report.truncatedMatches == (|offsets| > maxMatches)
    && |report.lineNumbers| == Min(|offsets|, maxMatches)
    && forall k :: 0 <= k < |report.lineNumbers| ==>
         offsets[k] <= |raw| && report.lineNumbers[k] == Newlines(raw[..offsets[k]]) + 1
  }

  method FindLiteralMarker(raw: seq<Byte>, marker: seq<Byte>, maxScanBytes: Option<int>, maxMatches: int,
      secret: SecretPolicy)
    returns (r: Result<Report, SearchError>)
    requires Valid(marker)
    ensures match Refusal(raw, marker, maxScanBytes, maxMatches, secret)
      case Some(error) => r == Err(error)
      case None =>
        r.Ok? && exists offsets :: Reports(raw, marker, ScanBound(maxScanBytes), maxMatches, r.value, offsets)
  {
    if marker == [] || |marker| > MAX_MARKER_BYTES {
      return Err(MarkerBounds);
    }
    if !NoControlChar(Decode(marker)) {
      return Err(MarkerControlChar);
    }
    if secret(marker) {
      return Err(MarkerSecret);
    }
    var limit := ScanBound(maxScanBytes);
    if limit < 1 || limit > MAX_SCAN_BYTES {
      return Err(ScanBounds);
    }
    if maxMatches < 1 || maxMatches > MAX_MATCHES {
      return Err(MatchBounds);
    }
    var refused := FileRefusal(raw, secret);
    if refused.Some? {
      return Err(FileRefused(refused.value));
    }
    var scan := raw[..Min(|raw|, limit)];
    var found := SearchAll(scan, marker);
    var visible := found[..Min(|found|, maxMatches)];
    var lines := LineNumbers(scan, visible);
    forall k | 0 <= k < |lines| ensures found[k] <= |raw| && lines[k] == Newlines(raw[..found[k]]) + 1 {
      assert OccursAt(scan, marker, found[k]);
      assert scan[..visible[k]] == raw[..found[k]];
    }
    var report := Report(|found|, lines, |found| > |visible|, |scan|, |raw| > |scan|);
    assert Reports(raw, marker, limit, maxMatches, report, found);
    r := Ok(report);
  }

  // ---------------------------------------------------------------- the greedy choice is maximal

  ghost predicate Ahead(greedy: seq<nat>, other: seq<nat>, k: int) {
    k <= |other| && k <= |greedy| && forall j :: 0 <= j < k ==> greedy[j] <= other[j]
  }

  lemma StaysAheadOneMore(greedy: seq<nat>, other: seq<nat>, width: nat, k: nat)
    requires k < |other| && Ahead(greedy, other, k) && InsideSome(other[k], greedy, width)
    requires forall i, j :: 0 <= i < j < |greedy| ==> greedy[i] + width <= greedy[j]
    requires forall i, j :: 0 <= i < j < |other| ==> other[i] + width <= other[j]
    ensures Ahead(greedy, other, k + 1)
  {
    var j :| 0 <= j < |greedy| && StartsInside(other[k], greedy[j], width);
    assert j >= k;
  }

  lemma {:induction false} StaysAhead(s: seq<Byte>, m: seq<Byte>, greedy: seq<nat>, other: seq<nat>, k: nat)
    requires m != [] && LeftmostMatches(s, m, greedy) && Matches(s, m, other) && k <= |other|
    ensures Ahead(greedy, other, k)
  {
    if k == 0 {
    } else {
      StaysAhead(s, m, greedy, other, k - 1);
      assert OccursAt(s, m, other[k - 1]);
      StaysAheadOneMore(greedy, other, |m|, k - 1);
    }
  }

  /** However pairwise disjoint occurrences of the scanned prefix are chosen (`other`, listed in
      order), there are no more of them than the search reports, and each of the search's
      matches comes no later than the corresponding chosen one. */
  lemma ReportIsMaximal(s: seq<Byte>, m: seq<Byte>, greedy: seq<nat>, other: seq<nat>)
    requires m != [] && LeftmostMatches(s, m, greedy) && Matches(s, m, other)
    ensures |other| <= |greedy|
    ensures forall k :: 0 <= k < |other| ==> greedy[k] <= other[k]
  {
    StaysAhead(s, m, greedy, other, |other|);
  }

  /** The conditions on the matches leave one answer. */
  lemma ReportIsUnique(s: seq<Byte>, m: seq<Byte>, a: seq<nat>, b: seq<nat>)
    requires m != [] && LeftmostMatches(s, m, a) && LeftmostMatches(s, m, b)
    ensures a == b
  {
    ReportIsMaximal(s, m, a, b);
    ReportIsMaximal(s, m, b, a);
  }

  /** A match is a match of characters, not only of bytes: it starts and ends on character
      boundaries, even when the scanned prefix itself is cut inside a character. */
  lemma MatchesAreWholeCharacters(raw: seq<Byte>, m: seq<Byte>, scanned: nat, p: nat)
    requires Valid(raw) && Valid(m) && m != [] && scanned <= |raw| && OccursAt(raw[..scanned], m, p)
    ensures p + |m| <= |raw| && Valid(raw[..p]) && Valid(raw[..p + |m|])
    ensures Decode(raw[..p + |m|]) == Decode(raw[..p]) + Decode(m)
  {
    OccursInWhole(raw, m, scanned, p);
    LeadByteIsBoundary(raw, p);
    DecodeConcat(raw[..p], m);
  }

  lemma OccursInWhole(raw: seq<Byte>, m: seq<Byte>, scanned: nat, p: nat)
    requires m != [] && scanned <= |raw| && OccursAt(raw[..scanned], m, p)
    ensures p + |m| <= |raw| && raw[..p + |m|] == raw[..p] + m
    ensures CharLen(m) > 0 ==> !Tail(raw[p])
  {
    assert raw[..scanned][p..p + |m|] == raw[p..p + |m|];
    assert raw[p] == raw[p..p + |m|][0];
  }
}
