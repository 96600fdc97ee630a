/** Where lines and paragraphs end. */
module DocumentLines {
  import opened Common
  import opened Text
  import opened LineSyntax
  import opened DocumentParser

  // ---------------------------------------------------------------- where a paragraph ends

  /** Were the parser to begin at this line, it would read a paragraph. */
  ghost predicate BeginsParagraph(lines: seq<string>, j: nat) {
    exists st: Step :: st.first == j && IsStep(lines, st) && ReadsParagraph(st)
  }

  predicate ReadsParagraph(st: Step) {
    |st.blocks| == 1 && st.blocks[0].Paragraph?
  }

  lemma {:induction false} NextInterruption(lines: seq<string>, first: nat) returns (next: nat)
    requires first <= |lines|
    ensures TextUntil(lines, first, next)
    decreases |lines| - first
  {
    if first == |lines| || Interrupts(lines, first) {
      next := first;
    } else {
      next := NextInterruption(lines, first + 1);
    }
  }

  /** A line ends a paragraph exactly where no paragraph could begin. */
  lemma InterruptsExactlyWhen(lines: seq<string>, j: nat)
    requires j < |lines|
    ensures Interrupts(lines, j) <==> !BeginsParagraph(lines, j)
  {
    if !Interrupts(lines, j) {
      var next := NextInterruption(lines, j + 1);
      var text := Clean(Join(Stripped(lines[j..next]), " "));
      var st := Step(j, next, [Paragraph(text)], [text]);
      assert IsParagraphStep(lines, st);
      assert IsStep(lines, st) && ReadsParagraph(st);
    } else {
      forall st: Step | st.first == j && IsStep(lines, st) ensures !ReadsParagraph(st) {
        InterruptionReadsOther(lines, st);
      }
    }
  }

  lemma InterruptionReadsOther(lines: seq<string>, st: Step)
    requires IsStep(lines, st) && Interrupts(lines, st.first)
    ensures !ReadsParagraph(st)
  {}

  /** A paragraph takes every line at which one could begin, and stops before the first at which none
      could. */
  lemma ParagraphIsMaximal(lines: seq<string>, st: Step)
    requires IsStep(lines, st) && ReadsParagraph(st)
    ensures forall j :: st.first <= j < st.next ==> BeginsParagraph(lines, j)
    ensures st.next < |lines| ==> !BeginsParagraph(lines, st.next)
  {
    forall j | st.first < j < st.next ensures BeginsParagraph(lines, j) {
      InterruptsExactlyWhen(lines, j);
    }
    if st.next < |lines| {
      InterruptsExactlyWhen(lines, st.next);
    }
  }

  // ---------------------------------------------------------------- where a line ends

  predicate OneLine(s: string) {
    '\n' !in s && '\r' !in s
  }

  predicate AllLines(lines: seq<string>) {
    forall k :: 0 <= k < |lines| ==> OneLine(lines[k])
  }

  lemma {:induction false} FeedsOfLine(line: string, rest: string)
    requires OneLine(line)
    ensures LineFeeds(line + rest) == line + LineFeeds(rest)
  {
    if line == "" {
      assert line + rest == rest && line + LineFeeds(rest) == LineFeeds(rest);
    } else {
      assert line[0] in line && forall c :: c in line[1..] ==> c in line;
      FeedsOfLine(line[1..], rest);
      assert (line + rest)[1..] == line[1..] + rest;
      assert [line[0]] + (line[1..] + LineFeeds(rest)) == line + LineFeeds(rest);
    }
  }

  lemma {:induction false} SplitOfLine(line: string, rest: string)
    requires OneLine(line)
    ensures SplitLines(line + ("\n" + rest)) == [line] + SplitLines(rest)
    ensures SplitLines(line) == [line]
  {
    var s := line + ("\n" + rest);
    if line == "" {
      assert s == "\n" + rest && s[1..] == rest;
    } else {
      assert line[0] in line && forall c :: c in line[1..] ==> c in line;
      SplitOfLine(line[1..], rest);
      assert s[1..] == line[1..] + ("\n" + rest);
      assert [line[0]] + line[1..] == line;
    }
  }

  /** One of the three line endings. */
  predicate EndsLine(end: string) {
    end == "\n" || end == "\r" || end == "\r\n"
  }

  lemma FeedOfEnd(end: string, rest: string)
    requires EndsLine(end) && (end == "\r" ==> rest == "" || rest[0] != '\n')
    ensures LineFeeds(end + rest) == "\n" + LineFeeds(rest)
  {
    if end == "\r\n" {
      assert (end + rest)[2..] == rest;
    } else {
      assert (end + rest)[1..] == rest;
    }
  }

  lemma JoinDoesNotFeed(lines: seq<string>)
    requires lines != [] && AllLines(lines)
    ensures var s := Join(lines, "\r"); s == "" || s[0] != '\n'
  {
    assert OneLine(lines[0]);
    if lines[0] != "" {
      assert lines[0][0] in lines[0];
    }
  }

  /** Whatever the line ending, the lines of a text come back as they were. */
  lemma {:induction false} LinesComeBack(lines: seq<string>, end: string)
    requires lines != [] && AllLines(lines) && EndsLine(end)
    ensures SplitLines(LineFeeds(Join(lines, end))) == lines
  {
    assert OneLine(lines[0]);
    if |lines| == 1 {
      FeedsOfLine(lines[0], "");
      SplitOfLine(lines[0], "");
      assert lines[0] + "" == lines[0] && lines == [lines[0]];
    } else {
      var rest := lines[1..];
      assert forall k :: 0 <= k < |rest| ==> rest[k] == lines[k + 1];
      LinesComeBack(rest, end);
      JoinDoesNotFeed(rest);
      var tail := Join(rest, end);
      Associate(lines[0], end, tail);
      FeedsOfLine(lines[0], end + tail);
      FeedOfEnd(end, tail);
      SplitOfLine(lines[0], LineFeeds(tail));
      assert lines == [lines[0]] + rest;
    }
  }
}
