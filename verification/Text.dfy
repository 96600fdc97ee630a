/** Whitespace handling of the host language's strings: strip, split, join, and the one-line
    cleaning the artifact code applies to every piece of text. */
module Text {
  predicate IsSpace(c: char) {
    var u := c as int;
    || 0x09 <= u <= 0x0D || 0x1C <= u <= 0x20 || u == 0x85 || u == 0xA0 || u == 0x1680
    || 0x2000 <= u <= 0x200A || u == 0x2028 || u == 0x2029 || u == 0x202F || u == 0x205F || u == 0x3000
  }

  function DropSpaces(s: string): (r: string)
    ensures |r| <= |s|
    ensures r == "" || !IsSpace(r[0])
    ensures s != "" && !IsSpace(s[|s| - 1]) ==> r != "" && r[|r| - 1] == s[|s| - 1]
  {
    if s != "" && IsSpace(s[0]) then DropSpaces(s[1..]) else s
  }

  function DropTrailingSpaces(s: string): (r: string)
    ensures |r| <= |s| && r == s[..|r|]
    ensures r == "" || !IsSpace(r[|r| - 1])
  {
    if s != "" && IsSpace(s[|s| - 1]) then DropTrailingSpaces(s[..|s| - 1]) else s
  }

  /** `str.strip()` */
  function Strip(s: string): string {
    DropTrailingSpaces(DropSpaces(s))
  }

  /** `re.sub(r"\s+", " ", s)` */
  function Collapse(s: string): string
    decreases |s|
  {
    if s == "" then ""
    else if IsSpace(s[0]) then
      assert DropSpaces(s) == DropSpaces(s[1..]);
      " " + Collapse(DropSpaces(s))
    else [s[0]] + Collapse(s[1..])
  }

  function Clean(s: string): string {
    Collapse(Strip(s))
  }

  /** The length of the word at the front. */
  function WordLength(s: string): (n: nat)
    ensures n <= |s|
    ensures forall k :: 0 <= k < n ==> !IsSpace(s[k])
    ensures n < |s| ==> IsSpace(s[n])
  {
    if s == "" || IsSpace(s[0]) then 0 else 1 + WordLength(s[1..])
  }

  /** `str.split()` */
  function Words(s: string): seq<string>
    decreases |s|
  {
    if s == "" then []
    else if IsSpace(s[0]) then
      assert DropSpaces(s) == DropSpaces(s[1..]);
      Words(DropSpaces(s))
    else
      var n := WordLength(s);
      [s[..n]] + Words(s[n..])
  }

  /** `sep.join(parts)` */
  function Join(parts: seq<string>, sep: string): string {
    if parts == [] then ""
    else if |parts| == 1 then parts[0]
    else parts[0] + sep + Join(parts[1..], sep)
  }

  predicate IsWord(w: string) {
    w != "" && forall k :: 0 <= k < |w| ==> !IsSpace(w[k])
  }

  predicate AllWords(ws: seq<string>) {
    forall k :: 0 <= k < |ws| ==> IsWord(ws[k])
  }

  // ---------------------------------------------------------------- cleaning is splitting and joining

  lemma {:induction false} WordsAreWords(s: string)
    ensures AllWords(Words(s))
    decreases |s|
  {
    if s == "" {
    } else if IsSpace(s[0]) {
      WordsAreWords(DropSpaces(s));
    } else {
      assert IsWord(s[..WordLength(s)]);
      WordsAreWords(s[WordLength(s)..]);
    }
  }

  lemma {:induction false} CollapseWord(s: string)
    ensures Collapse(s) == s[..WordLength(s)] + Collapse(s[WordLength(s)..])
  {
    if s == "" || IsSpace(s[0]) {
      assert s[0..] == s;
    } else {
      var n := WordLength(s[1..]);
      CollapseWord(s[1..]);
      assert s[..n + 1] == [s[0]] + s[1..][..n] && s[1..][n..] == s[n + 1..];
    }
  }

  lemma JoinStep(w: string, ws: seq<string>, sep: string)
    ensures Join([w] + ws, sep) == if ws == [] then w else w + sep + Join(ws, sep)
  {
    assert ([w] + ws)[1..] == ws;
  }

  /** A string with no space at either end collapses to its words with single spaces between. */
  lemma {:induction false} CollapseIsJoin(s: string)
    requires s != "" && !IsSpace(s[0]) && !IsSpace(s[|s| - 1])
    ensures Words(s) != [] && Collapse(s) == Join(Words(s), " ")
    decreases |s|
  {
    var w, rest := s[..WordLength(s)], s[WordLength(s)..];
    CollapseWord(s);
    FirstWord(s);
    if rest != "" {
      assert rest[|rest| - 1] == s[|s| - 1];
      AfterWord(rest);
      var t := DropSpaces(rest);
      CollapseIsJoin(t);
      GlueWord(w, Words(t), Collapse(s), Collapse(t));
    }
  }

  lemma GlueWord(w: string, ws: seq<string>, whole: string, tail: string)
    requires ws != [] && tail == Join(ws, " ") && whole == w + (" " + tail)
    ensures whole == Join([w] + ws, " ")
  {
    JoinStep(w, ws, " ");
    assert w + (" " + tail) == w + " " + tail;
  }

  lemma FirstWord(s: string)
    requires s != "" && !IsSpace(s[0])
    ensures Words(s) == [s[..WordLength(s)]] + Words(s[WordLength(s)..])
  {}

  lemma AfterWord(rest: string)
    requires rest != "" && IsSpace(rest[0]) && !IsSpace(rest[|rest| - 1])
    ensures var t := DropSpaces(rest);
      && t != "" && !IsSpace(t[0]) && !IsSpace(t[|t| - 1]) && |t| < |rest|
      && Collapse(rest) == " " + Collapse(t) && Words(rest) == Words(t)
  {}

  lemma {:induction false} WordsSkipSpaces(s: string)
    ensures Words(DropSpaces(s)) == Words(s)
  {}

  lemma {:induction false} WordsSkipTrailingSpace(s: string)
    requires s != "" && IsSpace(s[|s| - 1])
    ensures Words(s[..|s| - 1]) == Words(s)
    decreases |s|
  {
    var n := if IsSpace(s[0]) then 1 else WordLength(s);
    if n < |s| {
      var tail := s[n..];
      assert tail[|tail| - 1] == s[|s| - 1];
      WordsSkipTrailingSpace(tail);
      assert tail[..|tail| - 1] == s[..|s| - 1][n..];
    }
    if IsSpace(s[0]) {
      SkipLeadingSpace(s);
    } else {
      SameWordLength(s, s[..|s| - 1]);
      assert s[..|s| - 1][..n] == s[..n];
      FirstWord(s);
      FirstWord(s[..|s| - 1]);
    }
  }

  lemma SkipLeadingSpace(s: string)
    requires s != "" && IsSpace(s[0])
    ensures Words(s) == Words(s[1..])
    ensures |s| > 1 ==> Words(s[..|s| - 1]) == Words(s[..|s| - 1][1..])
    ensures |s| == 1 ==> Words(s) == []
  {
    WordsSkipSpaces(s[1..]);
    if |s| > 1 {
      WordsSkipSpaces(s[..|s| - 1][1..]);
    }
  }

  lemma {:induction false} SameWordLength(s: string, front: string)
    requires s != "" && front == s[..|s| - 1] && IsSpace(s[|s| - 1])
    ensures WordLength(s) == WordLength(front)
  {
    if IsSpace(s[0]) {
    } else {
      SameWordLength(s[1..], front[1..]);
    }
  }

  lemma {:induction false} WordsSkipTrailingSpaces(s: string)
    ensures Words(DropTrailingSpaces(s)) == Words(s)
  {
    if s == "" || !IsSpace(s[|s| - 1]) {
    } else {
      WordsSkipTrailingSpace(s);
      WordsSkipTrailingSpaces(s[..|s| - 1]);
    }
  }

  /** Cleaning a text is joining its words with single spaces. */
  lemma CleanIsJoin(s: string)
    ensures Clean(s) == Join(Words(s), " ")
  {
    var left := DropSpaces(s);
    var t := Strip(s);
    WordsSkipSpaces(s);
    WordsSkipTrailingSpaces(left);
    if t != "" {
      assert t[0] == left[0];
      CollapseIsJoin(t);
    }
  }

  lemma {:induction false} WordLengthOfWord(w: string, rest: string)
    requires IsWord(w) && (rest == "" || IsSpace(rest[0]))
    ensures WordLength(w + rest) == |w|
  {
    if |w| == 1 {
      assert (w + rest)[1..] == rest;
    } else {
      assert (w + rest)[1..] == w[1..] + rest;
      WordLengthOfWord(w[1..], rest);
    }
  }

  /** Splitting undoes joining. */
  lemma {:induction false} WordsOfJoin(ws: seq<string>)
    requires AllWords(ws)
    ensures Words(Join(ws, " ")) == ws
  {
    if ws == [] {
    } else {
      var rest := if |ws| == 1 then "" else " " + Join(ws[1..], " ");
      var s := Join(ws, " ");
      assert s == ws[0] + rest;
      WordLengthOfWord(ws[0], rest);
      assert s[..|ws[0]|] == ws[0] && s[|ws[0]|..] == rest;
      WordsOfJoin(ws[1..]);
      if rest != "" {
        assert rest[1..] == Join(ws[1..], " ");
        WordsSkipSpaces(rest[1..]);
      }
    }
  }

  /** Cleaning keeps every word, and cleaning twice changes nothing. */
  lemma CleanKeepsWords(s: string)
    ensures Words(Clean(s)) == Words(s) && Clean(Clean(s)) == Clean(s)
  {
    WordsAreWords(s);
    CleanIsJoin(s);
    WordsOfJoin(Words(s));
    CleanIsJoin(Clean(s));
  }

  // ---------------------------------------------------------------- joins of stretches

  lemma {:induction false} JoinConcat(a: seq<string>, b: seq<string>, sep: string)
    requires a != [] && b != []
    ensures Join(a + b, sep) == Join(a, sep) + sep + Join(b, sep)
  {
    if |a| == 1 {
      assert a + b == [a[0]] + b;
      JoinStep(a[0], b, sep);
    } else {
      assert a + b == [a[0]] + (a[1..] + b);
      JoinStep(a[0], a[1..] + b, sep);
      JoinConcat(a[1..], b, sep);
    }
  }

  lemma {:induction false} StripOfJoin(ws: seq<string>)
    requires AllWords(ws)
    ensures Strip(Join(ws, " ")) == Join(ws, " ")
    ensures ws != [] ==> Strip(" " + Join(ws, " ")) == Join(ws, " ")
  {
    if ws == [] {
    } else {
      var s := Join(ws, " ");
      JoinEnds(ws);
      assert (" " + s)[1..] == s;
    }
  }

  lemma {:induction false} JoinEnds(ws: seq<string>)
    requires ws != [] && AllWords(ws)
    ensures var s := Join(ws, " "); s != "" && !IsSpace(s[0]) && !IsSpace(s[|s| - 1])
  {
    if |ws| == 1 {
    } else {
      JoinEnds(ws[1..]);
    }
  }
}
