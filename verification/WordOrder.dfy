/** The words of a text assembled from pieces are the words of the pieces, in order. */
module WordOrder {
  import opened Common
  import opened Text

  predicate StartsApart(b: string) {
    b == "" || IsSpace(b[0])
  }

  lemma {:induction false} WordLengthApart(a: string, b: string)
    requires StartsApart(b)
    ensures WordLength(a + b) == WordLength(a)
  {
    if a == "" {
      assert a + b == b;
    } else {
      assert (a + b)[1..] == a[1..] + b;
      WordLengthApart(a[1..], b);
    }
  }

  lemma {:induction false} WordsApart(a: string, b: string)
    requires StartsApart(b)
    ensures Words(a + b) == Words(a) + Words(b)
    decreases |a|
  {
    if a == "" {
      assert a + b == b;
    } else {
      WordsApart(a[Stride(a)..], b);
      StrideApart(a, b);
    }
  }

  /** One space, or the word at the front. */
  function Stride(a: string): (n: nat)
    requires a != ""
    ensures 0 < n <= |a|
  {
    if IsSpace(a[0]) then 1 else WordLength(a)
  }

  lemma StrideApart(a: string, b: string)
    requires a != "" && StartsApart(b)
    requires Words(a[Stride(a)..] + b) == Words(a[Stride(a)..]) + Words(b)
    ensures Words(a + b) == Words(a) + Words(b)
  {
    if IsSpace(a[0]) {
      SkipSpace(a);
      SkipSpaceApart(a, b);
    } else {
      FirstWordApart(a, b);
      FirstWord(a);
    }
  }

  lemma FirstWordApart(a: string, b: string)
    requires a != "" && !IsSpace(a[0]) && StartsApart(b)
    ensures Words(a + b) == [a[..WordLength(a)]] + Words(a[WordLength(a)..] + b)
  {
    WordLengthApart(a, b);
    FirstWord(a + b);
    CutFront(a, b, WordLength(a));
  }

  lemma CutFront(a: string, b: string, n: nat)
    requires n <= |a|
    ensures (a + b)[..n] == a[..n] && (a + b)[n..] == a[n..] + b
  {}

  lemma SkipSpace(s: string)
    requires s != "" && IsSpace(s[0])
    ensures Words(s) == Words(s[1..])
  {
    WordsSkipSpaces(s[1..]);
  }

  lemma SkipSpaceApart(a: string, b: string)
    requires a != "" && IsSpace(a[0])
    ensures Words(a + b) == Words(a[1..] + b)
  {
    assert (a + b)[1..] == a[1..] + b;
    SkipSpace(a + b);
  }

  lemma WordsBeforeSpace(a: string, sp: char, b: string)
    requires IsSpace(sp)
    ensures Words(a + [sp] + b) == Words(a) + Words(b)
  {
    var tail := [sp] + b;
    assert a + [sp] + b == a + tail && tail[1..] == b;
    WordsApart(a, tail);
    SkipSpace(tail);
  }

  lemma WordsOfStrip(s: string)
    ensures Words(Strip(s)) == Words(s)
    ensures Strip(s) != "" ==> Words(s) != []
  {
    WordsSkipSpaces(s);
    WordsSkipTrailingSpaces(DropSpaces(s));
    var t := Strip(s);
    if t != "" {
      FirstWord(t);
    }
  }

  // ---------------------------------------------------------------- words between spaces and pipes

  /** Pipes count as spaces. */
  function NoPipes(s: string): (r: string)
    ensures |r| == |s|
    ensures forall k :: 0 <= k < |s| ==> r[k] == if s[k] == '|' then ' ' else s[k]
  {
    seq(|s|, i requires 0 <= i < |s| => if s[i] == '|' then ' ' else s[i])
  }

  function Pieces(s: string): seq<string> {
    Words(NoPipes(s))
  }

  function PiecesOf(parts: seq<string>): seq<string> {
    if parts == [] then [] else PiecesOf(parts[..|parts| - 1]) + Pieces(parts[|parts| - 1])
  }

  predicate Separates(c: char) {
    IsSpace(c) || c == '|'
  }

  lemma PiecesAround(a: string, sp: char, b: string)
    requires Separates(sp)
    ensures Pieces(a + [sp] + b) == Pieces(a) + Pieces(b)
  {
    var mid := NoPipes([sp])[0];
    assert NoPipes(a + [sp] + b) == NoPipes(a) + [mid] + NoPipes(b);
    WordsBeforeSpace(NoPipes(a), mid, NoPipes(b));
  }

  lemma PiecesAfter(sp: char, b: string)
    requires Separates(sp)
    ensures Pieces([sp] + b) == Pieces(b) && Pieces(b + [sp]) == Pieces(b)
  {
    PiecesAround("", sp, b);
    PiecesAround(b, sp, "");
    assert "" + [sp] + b == [sp] + b && b + [sp] + "" == b + [sp];
  }

  lemma {:induction false} PiecesOfConcat(a: seq<string>, b: seq<string>)
    ensures PiecesOf(a + b) == PiecesOf(a) + PiecesOf(b)
  {
    if b == [] {
      assert a + b == a;
    } else {
      var front, last := b[..|b| - 1], b[|b| - 1];
      PiecesOfConcat(a, front);
      PiecesOfMore(a + front, last);
      LastApart(a, b);
      Associate(PiecesOf(a), PiecesOf(front), Pieces(last));
    }
  }

  lemma PiecesOfMore(parts: seq<string>, part: string)
    ensures PiecesOf(parts + [part]) == PiecesOf(parts) + Pieces(part)
  {
    assert (parts + [part])[..|parts|] == parts;
  }

  lemma PiecesOfOne(a: string)
    ensures PiecesOf([a]) == Pieces(a)
  {
    assert [a][..0] == [];
    assert PiecesOf([]) == [];
  }

  /** Joining with separators only: nothing but the pieces of the parts. */
  lemma {:induction false} PiecesOfJoin(parts: seq<string>, sep: string)
    requires Separator(sep)
    ensures Pieces(Join(parts, sep)) == PiecesOf(parts)
  {
    if |parts| == 1 {
      assert parts == [parts[0]];
      PiecesOfOne(parts[0]);
    } else if |parts| > 1 {
      var rest := Join(parts[1..], sep);
      PiecesOfJoin(parts[1..], sep);
      PiecesOfSeparator(parts[0], sep, rest);
      PiecesOfConcat([parts[0]], parts[1..]);
      PiecesOfOne(parts[0]);
      assert parts == [parts[0]] + parts[1..];
    }
  }

  /** Text that only separates: spaces and pipes. */
  predicate Separator(sep: string) {
    sep != "" && forall k :: 0 <= k < |sep| ==> Separates(sep[k])
  }

  lemma {:induction false} PiecesAfterSeparator(sep: string, b: string)
    requires Separator(sep)
    ensures Pieces(sep + b) == Pieces(b)
  {
    PiecesAfter(sep[0], sep[1..] + b);
    FirstApart(sep, b);
    if |sep| == 1 {
      assert sep[1..] + b == b;
    } else {
      PiecesAfterSeparator(sep[1..], b);
    }
  }

  lemma FirstApart(sep: string, b: string)
    requires sep != ""
    ensures sep + b == [sep[0]] + (sep[1..] + b)
  {}

  lemma PiecesOfSeparator(a: string, sep: string, b: string)
    requires Separator(sep)
    ensures Pieces(a + sep + b) == Pieces(a) + Pieces(b)
  {
    var tail := sep + b;
    PiecesAfterSeparator(sep, b);
    PiecesAfter(tail[0], tail[1..]);
    HeadAndTail(tail);
    PiecesAround(a, tail[0], tail[1..]);
    Regroup(a, tail);
    Associate(a, sep, b);
  }

  // ---------------------------------------------------------------- cleaning keeps the pieces

  lemma HeadAndTail(s: string)
    requires s != ""
    ensures [s[0]] + s[1..] == s
  {}

  lemma PiecesSkipSpace(s: string)
    requires s != "" && IsSpace(s[0])
    ensures Pieces(s) == Pieces(s[1..])
  {
    HeadAndTail(s);
    PiecesAfter(s[0], s[1..]);
  }

  lemma PiecesAfterWord(w: string, rest: string)
    requires StartsApart(rest)
    ensures Pieces(w + rest) == Pieces(w) + Pieces(rest)
  {
    if rest == "" {
      assert w + rest == w;
    } else {
      PiecesSkipSpace(rest);
      Regroup(w, rest);
      PiecesAround(w, rest[0], rest[1..]);
    }
  }

  lemma Regroup(w: string, rest: string)
    requires rest != ""
    ensures w + rest == w + [rest[0]] + rest[1..]
  {}

  lemma {:induction false} PiecesOfWords(s: string)
    ensures PiecesOf(Words(s)) == Pieces(s)
    decreases |s|
  {
    if s == "" {
    } else if IsSpace(s[0]) {
      PiecesSkipSpace(s);
      SkipSpace(s);
      PiecesOfWords(s[1..]);
    } else {
      var w, rest := s[..WordLength(s)], s[WordLength(s)..];
      FirstWord(s);
      PiecesOfWords(rest);
      PiecesOfConcat([w], Words(rest));
      PiecesOfOne(w);
      PiecesAfterWord(w, rest);
      CutAndJoin(s, WordLength(s));
    }
  }

  lemma CutAndJoin(s: string, n: nat)
    requires n <= |s|
    ensures s[..n] + s[n..] == s
  {}

  lemma PiecesOfClean(s: string)
    ensures Pieces(Clean(s)) == Pieces(s)
  {
    CleanIsJoin(s);
    PiecesOfJoin(Words(s), " ");
    PiecesOfWords(s);
  }

  lemma PiecesOfStrip(s: string)
    ensures Pieces(Strip(s)) == Pieces(s)
  {
    WordsOfStrip(s);
    PiecesOfWords(s);
    PiecesOfWords(Strip(s));
  }
}
