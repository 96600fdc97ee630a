/** The line classes as grammars: each recogniser accepts exactly the lines its pattern describes. */
module LineGrammar {
  import opened Common
  import opened Text
  import opened WordOrder
  import opened LineSyntax

  // ---------------------------------------------------------------- spaces around a text

  predicate AllSpaces(s: string) {
    s == "" || (IsSpace(s[0]) && AllSpaces(s[1..]))
  }

  lemma {:induction false} SpacesTogether(a: string, b: string)
    requires AllSpaces(a) && AllSpaces(b)
    ensures AllSpaces(a + b)
  {
    if a == "" {
      assert a + b == b;
    } else {
      SpacesTogether(a[1..], b);
      assert (a + b)[1..] == a[1..] + b;
    }
  }

  /** Taken off at the end instead. */
  lemma {:induction false} SpaceAtTheEnd(s: string)
    requires s != "" && AllSpaces(s)
    ensures IsSpace(s[|s| - 1]) && AllSpaces(s[..|s| - 1])
  {
    if |s| > 1 {
      SpaceAtTheEnd(s[1..]);
      assert s[..|s| - 1][1..] == s[1..][..|s| - 2];
    }
  }

  /** The whitespace characters, one by one. */
  const SPACES := {
    '\t', '\n', '\U{0B}', '\U{0C}', '\r', '\U{1C}', '\U{1D}', '\U{1E}', '\U{1F}', ' ', '\U{85}', '\U{A0}', '\U{1680}',
    '\U{2000}', '\U{2001}', '\U{2002}', '\U{2003}', '\U{2004}', '\U{2005}', '\U{2006}', '\U{2007}', '\U{2008}',
    '\U{2009}', '\U{200A}', '\U{2028}', '\U{2029}', '\U{202F}', '\U{205F}', '\U{3000}'}

  lemma SpacesAreListed(c: char)
    ensures IsSpace(c) <==> c in SPACES
  {}

  /** No space at either end. */
  predicate Trimmed(s: string) {
    s == "" || (!IsSpace(s[0]) && !IsSpace(s[|s| - 1]))
  }

  lemma {:induction false} DropsLead(lead: string, rest: string)
    requires AllSpaces(lead) && (rest == "" || !IsSpace(rest[0]))
    ensures DropSpaces(lead + rest) == rest
  {
    if lead == "" {
      assert lead + rest == rest;
    } else {
      assert (lead + rest)[1..] == lead[1..] + rest;
      DropsLead(lead[1..], rest);
    }
  }

  /** What dropping the leading spaces drops. */
  lemma {:induction false} Lead(s: string) returns (lead: string)
    ensures s == lead + DropSpaces(s) && AllSpaces(lead)
  {
    if s == "" || !IsSpace(s[0]) {
      lead := "";
    } else {
      var rest := Lead(s[1..]);
      lead := [s[0]] + rest;
      assert s == [s[0]] + s[1..] && lead[1..] == rest;
      Associate([s[0]], rest, DropSpaces(s));
    }
  }

  lemma {:induction false} DropsTrail(front: string, trail: string)
    requires AllSpaces(trail) && (front == "" || !IsSpace(front[|front| - 1]))
    ensures DropTrailingSpaces(front + trail) == front
  {
    if trail == "" {
      assert front + trail == front;
    } else {
      var n := |trail| - 1;
      SpaceAtTheEnd(trail);
      assert (front + trail)[..|front + trail| - 1] == front + trail[..n];
      DropsTrail(front, trail[..n]);
    }
  }

  lemma {:induction false} Trail(s: string) returns (trail: string)
    ensures s == DropTrailingSpaces(s) + trail && AllSpaces(trail)
  {
    if s == "" || !IsSpace(s[|s| - 1]) {
      trail := "";
    } else {
      var n := |s| - 1;
      var front := Trail(s[..n]);
      trail := front + [s[n]];
      SpacesTogether(front, [s[n]]);
      assert s == s[..n] + [s[n]];
      Associate(DropTrailingSpaces(s), front, [s[n]]);
    }
  }

  /** Spaces, the text, and spaces. */
  predicate Surrounds(s: string, lead: string, r: string, trail: string) {
    s == lead + r + trail && AllSpaces(lead) && AllSpaces(trail)
  }

  lemma StripSurrounds(s: string)
    ensures Trimmed(Strip(s)) && exists lead, trail :: Surrounds(s, lead, Strip(s), trail)
  {
    var lead := Lead(s);
    var trail := Trail(DropSpaces(s));
    Associate(lead, Strip(s), trail);
    assert Surrounds(s, lead, Strip(s), trail);
  }

  lemma SurroundedIsStripped(s: string, lead: string, r: string, trail: string)
    requires Trimmed(r) && Surrounds(s, lead, r, trail)
    ensures Strip(s) == r
  {
    if r == "" {
      assert s == (lead + trail) + "";
      SpacesTogether(lead, trail);
      DropsLead(lead + trail, "");
    } else {
      assert s == lead + (r + trail);
      DropsLead(lead, r + trail);
      DropsTrail(r, trail);
    }
  }

  /** Stripping takes exactly the spaces at both ends. */
  lemma StripExactlyWhen(s: string, r: string)
    ensures Strip(s) == r <==> Trimmed(r) && exists lead, trail :: Surrounds(s, lead, r, trail)
  {
    StripSurrounds(s);
    if Trimmed(r) && exists lead, trail :: Surrounds(s, lead, r, trail) {
      var lead, trail :| Surrounds(s, lead, r, trail);
      SurroundedIsStripped(s, lead, r, trail);
    }
  }

  // ---------------------------------------------------------------- headings

  predicate AllHashes(s: string) {
    forall k :: 0 <= k < |s| ==> s[k] == '#'
  }

  /** One to six hashes, spaces, and some text. */
  predicate IsHeading(line: string, marks: string, gap: string, body: string) {
    && line == marks + gap + body
    && AllHashes(marks) && 1 <= |marks| <= 6
    && gap != "" && AllSpaces(gap)
    && body != "" && !IsSpace(body[0])
  }

  lemma {:induction false} HashesCount(s: string)
    ensures AllHashes(s[..Hashes(s)]) && (Hashes(s) < |s| ==> s[Hashes(s)] != '#')
  {
    if s != "" && s[0] == '#' {
      HashesCount(s[1..]);
      assert s[..Hashes(s)] == [s[0]] + s[1..][..Hashes(s[1..])];
    }
  }

  lemma {:induction false} HashesOf(marks: string, rest: string)
    requires AllHashes(marks) && (rest == "" || rest[0] != '#')
    ensures Hashes(marks + rest) == |marks|
  {
    if marks == "" {
      assert marks + rest == rest;
    } else {
      assert (marks + rest)[1..] == marks[1..] + rest;
      HashesOf(marks[1..], rest);
    }
  }

  /** A heading is recognised exactly where there is one, with as many levels as hashes and the text
      behind the spaces. */
  lemma HeadingExactlyWhen(line: string, level: nat, body: string)
    ensures HeadingOf(line) == Some(HeadingMatch(level, body)) <==>
      exists marks, gap :: |marks| == level && IsHeading(line, marks, gap, body)
  {
    if HeadingOf(line) == Some(HeadingMatch(level, body)) {
      HeadingFound(line, level, body);
    }
    if exists marks, gap :: |marks| == level && IsHeading(line, marks, gap, body) {
      var marks, gap :| |marks| == level && IsHeading(line, marks, gap, body);
      HeadingIsFound(line, marks, gap, body);
    }
  }

  lemma HeadingFound(line: string, level: nat, body: string)
    requires HeadingOf(line) == Some(HeadingMatch(level, body))
    ensures exists marks, gap :: |marks| == level && IsHeading(line, marks, gap, body)
  {
    HashesCount(line);
    var marks := line[..level];
    var gap := Lead(line[level..]);
    assert line == marks + line[level..];
    Associate(marks, gap, body);
    assert gap != "";
    assert |marks| == level && IsHeading(line, marks, gap, body);
  }

  lemma HeadingIsFound(line: string, marks: string, gap: string, body: string)
    requires IsHeading(line, marks, gap, body)
    ensures HeadingOf(line) == Some(HeadingMatch(|marks|, body))
  {
    assert line == marks + (gap + body);
    HashesOf(marks, gap + body);
    assert line[|marks|..] == gap + body;
    DropsLead(gap, body);
  }

  // ---------------------------------------------------------------- list items

  /** A space and at least one character more. */
  predicate HasItem(tail: string) {
    |tail| >= 2 && IsSpace(tail[0])
  }

  lemma ItemTailExactlyWhen(tail: string)
    ensures ItemTail(tail).Some? <==> HasItem(tail)
  {}

  /** Where there is an item, its text is that of the tail. */
  lemma ItemTailText(tail: string)
    requires HasItem(tail)
    ensures ItemTail(tail).Some? && Clean(ItemTail(tail).value) == Clean(tail)
  {
    CleanIsJoin(tail);
    CleanIsJoin(ItemTail(tail).value);
    if DropSpaces(tail) == "" {
      LastSpaceIsNoWord(tail);
    } else {
      WordsOfStrip(tail);
    }
  }

  lemma LastSpaceIsNoWord(tail: string)
    requires tail != "" && DropSpaces(tail) == ""
    ensures Words(tail[|tail| - 1..]) == [] && Words(tail) == []
  {
    var lead := Lead(tail);
    assert tail == lead;
    SpaceAtTheEnd(tail);
    var last := tail[|tail| - 1..];
    SkipSpace(last);
    assert last[1..] == "";
    WordsOfStrip(tail);
  }

  /** Spaces, one of three marks, and an item. */
  predicate IsBullet(line: string, lead: string, mark: char, tail: string) {
    line == lead + [mark] + tail && AllSpaces(lead) && mark in {'-', '*', '+'} && HasItem(tail)
  }

  lemma MarksAreNoSpaces(c: char)
    ensures c in {'-', '*', '+', '.', ')', '|', '#', ':'} || '0' <= c <= '9' ==> !IsSpace(c)
  {}

  lemma BulletFound(line: string) returns (lead: string, mark: char, tail: string)
    requires BulletItem(line).Some?
    ensures IsBullet(line, lead, mark, tail)
  {
    var s := DropSpaces(line);
    mark, tail := s[0], s[1..];
    ItemTailExactlyWhen(tail);
    lead := Lead(line);
    ThreeParts(lead, s);
  }

  lemma ThreeParts(lead: string, s: string)
    requires s != ""
    ensures lead + s == lead + [s[0]] + s[1..]
  {
    assert s == [s[0]] + s[1..];
    Associate(lead, [s[0]], s[1..]);
  }

  lemma BulletIsFound(line: string, lead: string, mark: char, tail: string)
    requires IsBullet(line, lead, mark, tail)
    ensures BulletItem(line) == ItemTail(tail) && ItemTail(tail).Some?
  {
    MarksAreNoSpaces(mark);
    assert line == lead + ([mark] + tail);
    DropsLead(lead, [mark] + tail);
    assert ([mark] + tail)[1..] == tail;
    ItemTailExactlyWhen(tail);
  }

  /** A line is a bullet exactly where the pattern fits, and its item is what follows the mark. */
  lemma BulletExactlyWhen(line: string)
    ensures BulletItem(line).Some? <==> exists lead, mark, tail :: IsBullet(line, lead, mark, tail)
    ensures forall lead, mark, tail :: IsBullet(line, lead, mark, tail) ==>
      BulletItem(line).Some? && Clean(BulletItem(line).value) == Clean(tail)
  {
    if BulletItem(line).Some? {
      var lead, mark, tail := BulletFound(line);
    }
    forall lead, mark, tail | IsBullet(line, lead, mark, tail)
      ensures BulletItem(line).Some? && Clean(BulletItem(line).value) == Clean(tail)
    {
      BulletIsFound(line, lead, mark, tail);
      ItemTailText(tail);
    }
  }

  predicate AllDigits(s: string) {
    forall k :: 0 <= k < |s| ==> '0' <= s[k] <= '9'
  }

  /** Spaces, a number, a dot or a bracket, and an item. */
  predicate IsNumbered(line: string, lead: string, number: string, mark: char, tail: string) {
    && line == lead + number + [mark] + tail && AllSpaces(lead)
    && number != "" && AllDigits(number) && mark in {'.', ')'} && HasItem(tail)
  }

  lemma {:induction false} DigitsCount(s: string)
    ensures AllDigits(s[..Digits(s)])
  {
    if s != "" && '0' <= s[0] <= '9' {
      DigitsCount(s[1..]);
      assert s[..Digits(s)] == [s[0]] + s[1..][..Digits(s[1..])];
    }
  }

  lemma {:induction false} DigitsOf(number: string, rest: string)
    requires AllDigits(number) && (rest == "" || !('0' <= rest[0] <= '9'))
    ensures Digits(number + rest) == |number|
  {
    if number == "" {
      assert number + rest == rest;
    } else {
      assert (number + rest)[1..] == number[1..] + rest;
      DigitsOf(number[1..], rest);
    }
  }

  lemma NumberFound(line: string) returns (lead: string, number: string, mark: char, tail: string)
    requires NumberItem(line).Some?
    ensures IsNumbered(line, lead, number, mark, tail)
  {
    var s := DropSpaces(line);
    var n := Digits(s);
    number, mark, tail := s[..n], s[n], s[n + 1..];
    DigitsCount(s);
    ItemTailExactlyWhen(tail);
    lead := Lead(line);
    FourParts(lead, s, n);
  }

  lemma FourParts(lead: string, s: string, n: nat)
    requires n < |s|
    ensures lead + s == lead + s[..n] + [s[n]] + s[n + 1..]
  {
    assert s == s[..n] + ([s[n]] + s[n + 1..]);
    Associate(lead, s[..n], [s[n]] + s[n + 1..]);
    Associate(lead + s[..n], [s[n]], s[n + 1..]);
  }

  lemma NumberIsFound(line: string, lead: string, number: string, mark: char, tail: string)
    requires IsNumbered(line, lead, number, mark, tail)
    ensures NumberItem(line) == ItemTail(tail) && ItemTail(tail).Some?
  {
    NumberIsDropped(line, lead, number, mark, tail);
    NumberAtFront(DropSpaces(line), number, mark, tail);
    ItemTailExactlyWhen(tail);
  }

  lemma NumberIsDropped(line: string, lead: string, number: string, mark: char, tail: string)
    requires line == lead + number + [mark] + tail && AllSpaces(lead) && number != "" && AllDigits(number)
    ensures DropSpaces(line) == number + ([mark] + tail)
  {
    MarksAreNoSpaces(number[0]);
    assert line == lead + (number + ([mark] + tail));
    DropsLead(lead, number + ([mark] + tail));
  }

  lemma NumberAtFront(s: string, number: string, mark: char, tail: string)
    requires s == number + ([mark] + tail) && number != "" && AllDigits(number) && mark in {'.', ')'}
    ensures var n := Digits(s); 0 < n < |s| && s[n] == mark && s[n + 1..] == tail
  {
    DigitsOf(number, [mark] + tail);
  }

  /** So it is with numbered items. */
  lemma NumberExactlyWhen(line: string)
    ensures NumberItem(line).Some? <==> exists lead, number, mark, tail :: IsNumbered(line, lead, number, mark, tail)
    ensures forall lead, number, mark, tail :: IsNumbered(line, lead, number, mark, tail) ==>
      NumberItem(line).Some? && Clean(NumberItem(line).value) == Clean(tail)
  {
    if NumberItem(line).Some? {
      var lead, number, mark, tail := NumberFound(line);
    }
    forall lead, number, mark, tail | IsNumbered(line, lead, number, mark, tail)
      ensures NumberItem(line).Some? && Clean(NumberItem(line).value) == Clean(tail)
    {
      NumberIsFound(line, lead, number, mark, tail);
      ItemTailText(tail);
    }
  }

  // ---------------------------------------------------------------- page breaks

  /** The character is this lower-case one, or its capital, or the Kelvin sign for a k. */
  predicate Matches(c: char, t: char) {
    || c == t
    || ('a' <= t <= 'z' && c as int + 32 == t as int)
    || (t == 'k' && c == '\U{212A}')
  }

  predicate Spells(s: string, t: string) {
    |s| == |t| && forall k :: 0 <= k < |t| ==> Matches(s[k], t[k])
  }

  lemma LowerSpells(s: string, t: string)
    requires forall k :: 0 <= k < |t| ==> !('A' <= t[k] <= 'Z') && t[k] as int < 0x80
    ensures Lower(s) == t <==> Spells(s, t)
  {
    if Spells(s, t) {
      forall k | 0 <= k < |t| ensures Lower(s)[k] == t[k] {
        assert Matches(s[k], t[k]);
      }
    }
    if Lower(s) == t {
      forall k | 0 <= k < |t| ensures Matches(s[k], t[k]) {
        assert Lower(s)[k] == t[k];
      }
    }
  }

  /** Three spellings, capitals or not. */
  lemma PageBreakExactlyWhen(s: string)
    ensures IsPageBreak(s) <==>
      Spells(s, "[[page_break]]") || Spells(s, "<!-- pagebreak -->") || Spells(s, "<!-- page-break -->")
  {
    LowerSpells(s, "[[page_break]]");
    LowerSpells(s, "<!-- pagebreak -->");
    LowerSpells(s, "<!-- page-break -->");
  }
}
