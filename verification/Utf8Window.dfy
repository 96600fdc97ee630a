/** Windowed reads of a UTF-8 file. */
module Utf8Window {
  import opened Common
  import opened Utf8

  const MAX_READ_BYTES := 64_000
  const MAX_SECRET_SCAN_BYTES := 10_000_000

  datatype Error = BoundsInvalid | ScanLimit | SecretContent | BinaryForbidden | OffsetOutOfRange | BoundaryInvalid

  datatype Window = Window(bytesRead: nat, eof: bool, content: seq<int>)

  function Min(a: nat, b: nat): nat {
    if a < b then a else b
  }

  /** The last character boundary at or before `limit`, for a window that starts at `offset`. */
  ghost predicate LastBoundary(raw: seq<Byte>, offset: nat, limit: nat, end: nat) {
    && offset <= end <= limit <= |raw|
    && Valid(raw[offset..end])
    && NoBoundaryAfter(raw, offset, end, limit)
  }

  /** What the secret policy says of some bytes. */
  type SecretPolicy = seq<Byte> -> bool

  /** Why a file is not read at all. */
  function FileRefusal(raw: seq<Byte>, secret: SecretPolicy): Option<Error> {
    if |raw| > MAX_SECRET_SCAN_BYTES then Some(ScanLimit)
    else if secret(raw) then Some(SecretContent)
    else if !SafeText(raw) then Some(BinaryForbidden)
    else None
  }

  /** Why a window is not read, in the order of the checks. */
  function ReadRefusal(raw: seq<Byte>, offset: int, maxBytes: int, secret: SecretPolicy): Option<Error> {
    if offset < 0 || maxBytes < 1 || maxBytes > MAX_READ_BYTES then Some(BoundsInvalid)
    else if FileRefusal(raw, secret).Some? then FileRefusal(raw, secret)
    else if offset > |raw| then Some(OffsetOutOfRange)
    else if !Valid(raw[..offset]) then Some(BoundaryInvalid)
    else None
  }

  /** The window: the longest stretch of whole characters that fits, at most three bytes short. */
  ghost predicate IsWindow(raw: seq<Byte>, offset: nat, maxBytes: nat, w: Window) {
    var limit, end := Min(|raw|, offset + maxBytes), offset + w.bytesRead;
    && LastBoundary(raw, offset, limit, end)
    && end + 3 >= limit
    && w.content == Decode(raw[offset..end])
    && w.eof == (end == |raw|)
  }

  method ReadText(raw: seq<Byte>, offset: int, maxBytes: int, secret: SecretPolicy) returns (r: Result<Window, Error>)
    ensures match ReadRefusal(raw, offset, maxBytes, secret)
      case Some(error) => r == Err(error)
      case None => r.Ok? && IsWindow(raw, offset, maxBytes, r.value)
  {
    if offset < 0 || maxBytes < 1 || maxBytes > MAX_READ_BYTES {
      return Err(BoundsInvalid);
    }
    var refused := FileRefusal(raw, secret);
    if refused.Some? {
      return Err(refused.value);
    }
    if offset > |raw| {
      return Err(OffsetOutOfRange);
    }
    if !Valid(raw[..offset]) {
      return Err(BoundaryInvalid);
    }
    var end := BackOff(raw, offset, Min(|raw|, offset + maxBytes));
    r := Ok(Window(end - offset, end >= |raw|, Decode(raw[offset..end])));
  }

  /** The loop that gives up bytes from the end until what is left decodes. */
  method BackOff(raw: seq<Byte>, offset: nat, limit: nat) returns (end: nat)
    requires Valid(raw) && offset <= limit <= |raw| && Valid(raw[..offset])
    ensures LastBoundary(raw, offset, limit, end) && end + 3 >= limit
  {
    ghost var near := NearLimit(raw, offset, limit);
    end := limit;
    while end > offset && !Valid(raw[offset..end])
      invariant near <= end <= limit && NoBoundaryAfter(raw, offset, end, limit)
    {
      NoBoundaryAt(raw, offset, end, limit);
      end := end - 1;
    }
  }

  ghost predicate NoBoundaryAfter(raw: seq<Byte>, offset: nat, end: nat, limit: nat)
    requires offset <= end && limit <= |raw|
  {
    forall e :: end < e <= limit ==> !Valid(raw[offset..e])
  }

  lemma NoBoundaryAt(raw: seq<Byte>, offset: nat, end: nat, limit: nat)
    requires offset < end <= limit <= |raw| && NoBoundaryAfter(raw, offset, end, limit) && !Valid(raw[offset..end])
    ensures NoBoundaryAfter(raw, offset, end - 1, limit)
  {}

  /** Both sides of a boundary are well-formed. */
  lemma SplitAtBoundary(raw: seq<Byte>, offset: nat)
    requires Valid(raw) && offset <= |raw| && Valid(raw[..offset])
    ensures Valid(raw[offset..])
  {
    assert raw == raw[..offset] + raw[offset..];
    ValidConcat(raw[..offset], raw[offset..]);
  }

  lemma NearLimit(raw: seq<Byte>, offset: nat, limit: nat) returns (near: nat)
    requires Valid(raw) && offset <= limit <= |raw| && Valid(raw[..offset])
    ensures offset <= near <= limit <= near + 3 && Valid(raw[offset..near])
  {
    SplitAtBoundary(raw, offset);
    var e := BoundaryNearby(raw[offset..], limit - offset);
    near := offset + e;
    assert raw[offset..][..e] == raw[offset..near];
  }

  // ---------------------------------------------------------------- a whole file, window by window

  /** The character after a boundary is a valid stretch of its own. */
  lemma NextCharacter(raw: seq<Byte>, offset: nat)
    requires Valid(raw) && offset < |raw| && Valid(raw[..offset])
    ensures var n := CharLen(raw[offset..]); 0 < n <= 4 && offset + n <= |raw| && Valid(raw[offset..offset + n])
  {
    SplitAtBoundary(raw, offset);
    OneChar(raw[offset..]);
    FrontOfRest(raw, offset, CharLen(raw[offset..]));
  }

  lemma FrontOfRest(raw: seq<Byte>, offset: nat, n: nat)
    requires offset + n <= |raw|
    ensures raw[offset..offset + n] == raw[offset..][..n]
  {}

  /** A window into which the next character fits takes it. */
  lemma NotEmptyIfItFits(raw: seq<Byte>, offset: nat, maxBytes: nat, end: nat)
    requires Valid(raw) && offset < |raw| && Valid(raw[..offset])
    requires LastBoundary(raw, offset, Min(|raw|, offset + maxBytes), end) && CharLen(raw[offset..]) <= maxBytes
    ensures end > offset
  {
    NextCharacter(raw, offset);
    var n := CharLen(raw[offset..]);
    assert offset + n <= Min(|raw|, offset + maxBytes) && Valid(raw[offset..offset + n]);
  }

  /** A window into which it does not fit stays empty. */
  lemma EmptyIfItDoesNot(raw: seq<Byte>, offset: nat, maxBytes: nat, end: nat)
    requires offset < |raw| && maxBytes < CharLen(raw[offset..])
    requires LastBoundary(raw, offset, Min(|raw|, offset + maxBytes), end)
    ensures end == offset
  {
    var s := raw[offset..];
    assert raw[offset..end] == s[..end - offset];
    CutCharInvalid(s, end - offset);
  }

  /** A window before the end of the file is empty exactly when the next character does not fit,
      which never happens with four bytes or more. */
  lemma EmptyExactlyWhenTooNarrow(raw: seq<Byte>, offset: nat, maxBytes: nat, end: nat)
    requires Valid(raw) && offset < |raw| && Valid(raw[..offset])
    requires LastBoundary(raw, offset, Min(|raw|, offset + maxBytes), end)
    ensures end == offset <==> maxBytes < CharLen(raw[offset..])
    ensures CharLen(raw[offset..]) <= 4
  {
    if CharLen(raw[offset..]) <= maxBytes {
      NotEmptyIfItFits(raw, offset, maxBytes, end);
    } else {
      EmptyIfItDoesNot(raw, offset, maxBytes, end);
    }
  }

  /** Two consecutive stretches of a text, the first starting at the beginning. */
  lemma JoinStretch(raw: seq<Byte>, offset: nat, end: nat)
    requires offset <= end <= |raw| && Valid(raw[..offset]) && Valid(raw[offset..end])
    ensures Valid(raw[..end])
    ensures Decode(raw[..end]) == Decode(raw[..offset]) + Decode(raw[offset..end])
  {
    assert raw[..end] == raw[..offset] + raw[offset..end];
    DecodeConcat(raw[..offset], raw[offset..end]);
  }

  ghost predicate WindowFrom(raw: seq<Byte>, maxBytes: nat, start: nat, end: nat) {
    start <= |raw| && LastBoundary(raw, start, Min(|raw|, start + maxBytes), end)
  }

  /** The successive ends of the windows of one reading that advances by `bytes_read` from 0. */
  ghost predicate Reading(raw: seq<Byte>, maxBytes: nat, ends: seq<nat>) {
    && |ends| > 0 && ends[0] == 0
    && forall k :: 0 < k < |ends| ==> WindowFrom(raw, maxBytes, ends[k - 1], ends[k])
  }

  /** The contents of the windows, put together. */
  ghost function Assembled(raw: seq<Byte>, maxBytes: nat, ends: seq<nat>): seq<int>
    requires Reading(raw, maxBytes, ends)
  {
    var n := |ends| - 1;
    if n == 0 then []
    else
      assert WindowFrom(raw, maxBytes, ends[n - 1], ends[n]);
      Assembled(raw, maxBytes, ends[..n]) + Decode(raw[ends[n - 1]..ends[n]])
  }

  /** The windows always assemble the text up to where they stand, and the next window may
      start there. */
  lemma {:induction false} WindowsAssemble(raw: seq<Byte>, maxBytes: nat, ends: seq<nat>)
    requires Valid(raw) && Reading(raw, maxBytes, ends)
    ensures var last := ends[|ends| - 1];
      last <= |raw| && Valid(raw[..last]) && Assembled(raw, maxBytes, ends) == Decode(raw[..last])
  {
    var n := |ends| - 1;
    if n == 0 {
      assert raw[..0] == [];
    } else {
      assert WindowFrom(raw, maxBytes, ends[n - 1], ends[n]);
      WindowsAssemble(raw, maxBytes, ends[..n]);
      JoinStretch(raw, ends[n - 1], ends[n]);
    }
  }

  /** With at least four bytes a window, every window before the end of the file moves on. */
  lemma {:induction false} WindowsMoveOn(raw: seq<Byte>, maxBytes: nat, ends: seq<nat>)
    requires Valid(raw) && Reading(raw, maxBytes, ends) && maxBytes >= 4
    ensures ends[|ends| - 1] == |raw| || |ends| - 1 <= ends[|ends| - 1] <= |raw|
  {
    var n := |ends| - 1;
    if n == 0 {
    } else {
      assert WindowFrom(raw, maxBytes, ends[n - 1], ends[n]);
      WindowsMoveOn(raw, maxBytes, ends[..n]);
      WindowsAssemble(raw, maxBytes, ends[..n]);
      if ends[n - 1] < |raw| {
        EmptyExactlyWhenTooNarrow(raw, ends[n - 1], maxBytes, ends[n]);
      }
    }
  }

  /** A reading that reached the end gives back the whole text, and with windows of at least four
      bytes every reading reaches it within as many windows as the file has bytes. */
  lemma WindowsReassemble(raw: seq<Byte>, maxBytes: nat, ends: seq<nat>)
    requires Valid(raw) && Reading(raw, maxBytes, ends)
    ensures ends[|ends| - 1] == |raw| ==> Assembled(raw, maxBytes, ends) == Decode(raw)
    ensures maxBytes >= 4 && |ends| > |raw| ==>
      ends[|ends| - 1] == |raw| && Assembled(raw, maxBytes, ends) == Decode(raw)
  {
    WindowsAssemble(raw, maxBytes, ends);
    if maxBytes >= 4 {
      WindowsMoveOn(raw, maxBytes, ends);
    }
    assert raw[..|raw|] == raw;
  }
}
