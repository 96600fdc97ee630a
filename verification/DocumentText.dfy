/** What a parsed document keeps of its source, and the shape of its blocks. */
module DocumentText {
  import opened Common
  import opened Text
  import opened LineSyntax
  import opened WordOrder
  import opened DocumentParser

  // ---------------------------------------------------------------- one way to read a document

  lemma SameUntil(lines: seq<string>, ordered: bool, first: nat, a: nat, b: nat)
    ensures RowsUntil(lines, first, a) && RowsUntil(lines, first, b) ==> a == b
    ensures ItemsUntil(lines, ordered, first, a) && ItemsUntil(lines, ordered, first, b) ==> a == b
    ensures TextUntil(lines, first, a) && TextUntil(lines, first, b) ==> a == b
  {}

  lemma SamePadding(rows: seq<seq<string>>, a: seq<seq<string>>, c: nat, b: seq<seq<string>>, d: nat)
    requires PaddedTo(rows, a, c) && PaddedTo(rows, b, d)
    ensures a == b && c == d
  {}

  lemma SameTable(lines: seq<string>, a: Step, b: Step)
    requires a.first == b.first && IsTableStep(lines, a) && IsTableStep(lines, b)
    ensures a == b
  {
    SameUntil(lines, false, a.first + 2, a.next, b.next);
    var rowLines := RowLines(lines, a.first, a.next);
    var p, c :| MakesTable(rowLines, a, p, c);
    var q, d :| MakesTable(rowLines, b, q, d);
    SamePadding(RowsOf(rowLines), p, c, q, d);
  }

  lemma SameList(lines: seq<string>, ordered: bool, a: Step, b: Step)
    requires a.first == b.first && IsListStep(lines, ordered, a) && IsListStep(lines, ordered, b)
    ensures a == b
  {
    SameUntil(lines, ordered, a.first, a.next, b.next);
  }

  lemma SameParagraph(lines: seq<string>, a: Step, b: Step)
    requires a.first == b.first && IsParagraphStep(lines, a) && IsParagraphStep(lines, b)
    ensures a == b
  {
    SameUntil(lines, false, a.first + 1, a.next, b.next);
  }

  lemma SameStep(lines: seq<string>, a: Step, b: Step)
    requires a.first == b.first && IsStep(lines, a) && IsStep(lines, b)
    ensures a == b
  {
    var line := lines[a.first];
    if IsBlank(line) || IsPageBreak(Strip(line)) || HeadingOf(Strip(line)).Some? {
    } else if IsTableStart(lines, a.first) {
      SameTable(lines, a, b);
    } else if BulletItem(line).Some? || NumberItem(line).Some? {
      SameList(lines, NumberItem(line).Some?, a, b);
    } else {
      SameParagraph(lines, a, b);
    }
  }

  /** The steps at the same position are the same if they start at the same line. */
  predicate Deterministic(a: seq<Step>, b: seq<Step>) {
    forall j :: 0 <= j < |a| && j < |b| && a[j].first == b[j].first ==> a[j] == b[j]
  }

  lemma {:induction false} LinkedAgree(a: seq<Step>, m: nat, b: seq<Step>, n: nat, k: nat)
    requires Linked(a, m) && Linked(b, n) && Deterministic(a, b) && k <= |a| && k <= |b|
    ensures forall j :: 0 <= j < k ==> a[j] == b[j]
  {
    if k == 0 {
    } else {
      LinkedAgree(a, m, b, n, k - 1);
      assert k > 1 ==> a[k - 2] == b[k - 2];
      assert a[k - 1].first == b[k - 1].first;
    }
  }

  lemma ChainsAgree(lines: seq<string>, a: seq<Step>, b: seq<Step>)
    requires Chained(lines, a, |lines|) && Chained(lines, b, |lines|)
    ensures forall j :: 0 <= j < |a| && j < |b| ==> a[j] == b[j]
  {
    forall j | 0 <= j < |a| && j < |b| && a[j].first == b[j].first ensures a[j] == b[j] {
      SameStep(lines, a[j], b[j]);
    }
    LinkedAgree(a, |lines|, b, |lines|, if |a| < |b| then |a| else |b|);
  }

  predicate Forward(steps: seq<Step>, n: nat) {
    forall k :: 0 <= k < |steps| ==> steps[k].first < steps[k].next <= n
  }

  lemma GoesForward(lines: seq<string>, steps: seq<Step>, upTo: nat)
    requires Chained(lines, steps, upTo)
    ensures Forward(steps, |lines|) && Linked(steps, upTo)
  {
    forall k | 0 <= k < |steps| ensures steps[k].first < steps[k].next <= |lines| {
      assert IsStep(lines, steps[k]);
    }
  }

  lemma LinkedNotLonger(n: nat, a: seq<Step>, b: seq<Step>)
    requires Linked(a, n) && Linked(b, n) && Forward(b, n)
    requires forall j :: 0 <= j < |a| && j < |b| ==> a[j] == b[j]
    ensures |b| <= |a|
  {
    if b != [] {
      var k := if |a| < |b| then |a| else |b| - 1;
      assert b[k].first < b[k].next <= n;
    }
  }

  lemma ChainNotLonger(lines: seq<string>, a: seq<Step>, b: seq<Step>)
    requires Chained(lines, a, |lines|) && Chained(lines, b, |lines|)
    ensures |b| <= |a|
  {
    ChainsAgree(lines, a, b);
    GoesForward(lines, a, |lines|);
    GoesForward(lines, b, |lines|);
    LinkedNotLonger(|lines|, a, b);
  }

  /** The turns consume consecutive, disjoint ranges that cover all lines, and the lines alone
      decide where each range ends and what comes of it. */
  lemma OneReading(lines: seq<string>, a: seq<Step>, b: seq<Step>)
    requires Chained(lines, a, |lines|) && Chained(lines, b, |lines|)
    ensures a == b
  {
    ChainNotLonger(lines, a, b);
    ChainNotLonger(lines, b, a);
    ChainsAgree(lines, a, b);
  }

  // ---------------------------------------------------------------- the shape of the blocks

  /** Cleaning leaves nothing of any item. */
  predicate EmptyItems(part: seq<string>, ordered: bool) {
    forall j :: 0 <= j < |part| ==> ItemText(part[j], ordered) == ""
  }

  lemma {:induction false} NoTextMeansEmptyItems(part: seq<string>, ordered: bool)
    ensures ItemTexts(part, ordered) == [] <==> EmptyItems(part, ordered)
  {
    if part == [] {
    } else {
      var n := |part| - 1;
      NoTextMeansEmptyItems(part[..n], ordered);
      LastItem(part[..n], part[n], ordered);
      assert part == part[..n] + [part[n]];
    }
  }

  lemma LastItem(part: seq<string>, line: string, ordered: bool)
    ensures EmptyItems(part + [line], ordered) <==> EmptyItems(part, ordered) && ItemText(line, ordered) == ""
  {
    var more := part + [line];
    assert more[|part|] == line;
    assert forall j :: 0 <= j < |part| ==> more[j] == part[j];
  }

  /** Only a blank line or a list whose every item is empty leaves no block. */
  lemma GapsAreEmpty(lines: seq<string>, st: Step)
    requires IsStep(lines, st) && st.blocks == []
    ensures st.texts == []
    ensures !IsBlank(lines[st.first]) ==>
      exists ordered :: IsListStep(lines, ordered, st) && EmptyItems(lines[st.first..st.next], ordered)
    ensures IsBlank(lines[st.first]) ==> st.next == st.first + 1
  {
    var line := lines[st.first];
    if !IsBlank(line) {
      var ordered := NumberItem(line).Some?;
      assert IsListStep(lines, ordered, st);
      NoTextMeansEmptyItems(lines[st.first..st.next], ordered);
    }
  }

  ghost predicate Rectangular(rows: seq<seq<string>>) {
    |rows| > 0 && forall j, k :: 0 <= j < |rows| && 0 <= k < |rows| ==> |rows[j]| == |rows[k]|
  }

  /** A row: the given cells, then empty ones. */
  predicate FilledUp(cells: seq<string>, row: seq<string>) {
    && |cells| <= |row| && cells == row[..|cells|]
    && forall k :: |cells| <= k < |row| ==> row[k] == ""
  }

  lemma PaddedRows(rows: seq<seq<string>>, padded: seq<seq<string>>, cols: nat)
    requires PaddedTo(rows, padded, cols)
    ensures Rectangular(padded) && |padded| == |rows|
    ensures forall k :: 0 <= k < |rows| ==> FilledUp(rows[k], padded[k])
  {}

  ghost predicate HoldsCells(rowLines: seq<string>, rows: seq<seq<string>>) {
    |rows| == |rowLines| && forall k :: 0 <= k < |rows| ==> FilledUp(SplitRow(rowLines[k]), rows[k])
  }

  /** Every table is rectangular, one row for the header and one for each line below the
      separator, with the cells of the line at the front and empty cells behind them. */
  lemma TablesAreRectangular(lines: seq<string>, st: Step)
    requires IsTableStep(lines, st)
    ensures |st.blocks| == 1 && st.blocks[0].Table? && Rectangular(st.blocks[0].rows)
    ensures HoldsCells(RowLines(lines, st.first, st.next), st.blocks[0].rows)
  {
    var rowLines := RowLines(lines, st.first, st.next);
    var padded, cols :| MakesTable(rowLines, st, padded, cols);
    PaddedRows(RowsOf(rowLines), padded, cols);
  }

  lemma {:induction false} ItemsAreNotEmpty(part: seq<string>, ordered: bool)
    ensures "" !in ItemTexts(part, ordered)
  {
    if part == [] {
    } else {
      ItemsAreNotEmpty(part[..|part| - 1], ordered);
    }
  }

  /** No block is hollow: a heading has one of the six levels and some text, a paragraph has some
      text, a list has items and each of them has text, a table has rows. */
  predicate Meaningful(block: Block) {
    match block
    case Heading(text, level) => text != "" && 1 <= level <= 6
    case Paragraph(text) => text != ""
    case List(items, _) => items != [] && "" !in items
    case Table(rows) => rows != []
    case PageBreak => true
  }

  lemma BlocksAreMeaningful(lines: seq<string>, st: Step)
    requires IsStep(lines, st)
    ensures forall block :: block in st.blocks ==> Meaningful(block)
  {
    var line := lines[st.first];
    var heading := HeadingOf(Strip(line));
    if IsBlank(line) || IsPageBreak(Strip(line)) {
    } else if heading.Some? {
      CleanIsNotEmpty(heading.value.body);
    } else if IsTableStart(lines, st.first) {
      TableIsMeaningful(lines, st);
    } else if BulletItem(line).Some? || NumberItem(line).Some? {
      ListIsMeaningful(lines, NumberItem(line).Some?, st);
    } else {
      ParagraphIsMeaningful(lines, st);
    }
  }

  lemma TableIsMeaningful(lines: seq<string>, st: Step)
    requires IsTableStep(lines, st)
    ensures forall block :: block in st.blocks ==> Meaningful(block)
  {
    TablesAreRectangular(lines, st);
  }

  lemma ParagraphIsMeaningful(lines: seq<string>, st: Step)
    requires Within(lines, st) && IsParagraphStep(lines, st) && !IsBlank(lines[st.first])
    ensures forall block :: block in st.blocks ==> Meaningful(block)
  {
    ParagraphNeverEmpty(lines, st.first, st.next);
  }

  lemma CleanIsNotEmpty(body: string)
    requires body != "" && !IsSpace(body[0])
    ensures Clean(body) != ""
  {
    FirstWord(body);
    CleanKeepsWords(body);
  }

  lemma ListIsMeaningful(lines: seq<string>, ordered: bool, st: Step)
    requires Within(lines, st) && IsListStep(lines, ordered, st)
    ensures forall block :: block in st.blocks ==> Meaningful(block)
  {
    ItemsAreNotEmpty(lines[st.first..st.next], ordered);
  }

  predicate Names(block: Block) {
    block.Heading? || block.Paragraph?
  }

  /** The title is the text of the first heading or paragraph (of a paragraph, its first 120
      characters), and there is none exactly when there is neither. */
  lemma {:induction false} TitleIsFirstText(blocks: seq<Block>)
    requires forall k :: 0 <= k < |blocks| ==> Meaningful(blocks[k])
    ensures TitleOf(blocks) == "" <==> forall k :: 0 <= k < |blocks| ==> !Names(blocks[k])
    ensures forall k :: 0 <= k < |blocks| && Names(blocks[k]) && (forall j :: 0 <= j < k ==> !Names(blocks[j])) ==>
      TitleOf(blocks) == if blocks[k].Heading? then blocks[k].text else Take(blocks[k].text, 120)
  {
    if blocks == [] {
    } else {
      var front := blocks[..|blocks| - 1];
      TitleIsFirstText(front);
      assert forall j :: 0 <= j < |front| ==> front[j] == blocks[j];
    }
  }

  // ---------------------------------------------------------------- no text is lost

  predicate Within(lines: seq<string>, st: Step) {
    st.first < st.next <= |lines|
  }

  /** The parts of the lines of one turn that are text and not markup. */
  function Kept(lines: seq<string>, st: Step): seq<string>
    requires Within(lines, st)
  {
    var line := lines[st.first];
    var heading := HeadingOf(Strip(line));
    if IsBlank(line) || IsPageBreak(Strip(line)) then []
    else if heading.Some? then [heading.value.body]
    else if IsTableStart(lines, st.first) && st.first + 2 <= st.next then RowLines(lines, st.first, st.next)
    else if BulletItem(line).Some? || NumberItem(line).Some? then
      ItemBodies(lines[st.first..st.next], NumberItem(line).Some?)
    else lines[st.first..st.next]
  }

  function ItemBodies(lines: seq<string>, ordered: bool): seq<string> {
    if lines == [] then []
    else
      var item := ItemOf(lines[|lines| - 1], ordered);
      ItemBodies(lines[..|lines| - 1], ordered) + [if item.Some? then item.value else ""]
  }

  function AllKept(lines: seq<string>, steps: seq<Step>): seq<string>
    requires forall k :: 0 <= k < |steps| ==> Within(lines, steps[k])
  {
    if steps == [] then []
    else AllKept(lines, steps[..|steps| - 1]) + Kept(lines, steps[|steps| - 1])
  }

  lemma PiecesOfFirst(part: string, parts: seq<string>)
    ensures PiecesOf([part] + parts) == Pieces(part) + PiecesOf(parts)
  {
    PiecesOfConcat([part], parts);
    PiecesOfOne(part);
  }

  lemma PiecesOfEmpty()
    ensures Pieces("") == []
  {}

  lemma {:induction false} PiecesOfItems(lines: seq<string>, ordered: bool)
    ensures PiecesOf(ItemTexts(lines, ordered)) == PiecesOf(ItemBodies(lines, ordered))
  {
    if lines == [] {
    } else {
      var n := |lines| - 1;
      var item := ItemOf(lines[n], ordered);
      var body := if item.Some? then item.value else "";
      var texts := ItemTexts(lines[..n], ordered);
      PiecesOfItems(lines[..n], ordered);
      PiecesOfClean(body);
      PiecesOfMore(ItemBodies(lines[..n], ordered), body);
      if Clean(body) == "" {
        PiecesOfEmpty();
        assert texts + [] == texts;
      } else {
        PiecesOfMore(texts, Clean(body));
      }
    }
  }

  lemma {:induction false} PiecesOfStripped(lines: seq<string>)
    ensures PiecesOf(Stripped(lines)) == PiecesOf(lines)
  {
    if lines == [] {
    } else {
      var n := |lines| - 1;
      PiecesOfStripped(lines[..n]);
      PiecesOfStrip(lines[n]);
      PiecesOfMore(Stripped(lines[..n]), Strip(lines[n]));
    }
  }

  // Tables: splitting a line at its pipes, cleaning, padding and joining keep every piece.

  lemma {:induction false} PiecesOfSplit(front: string, s: string)
    ensures Pieces(front + s) == Pieces(front + SplitPipes(s)[0]) + PiecesOf(SplitPipes(s)[1..])
    decreases |s|
  {
    if s == "" {
      assert SplitPipes(s)[1..] == [];
    } else if s[0] == '|' {
      PiecesOfSplit("", s[1..]);
      SplitAtPipe(front, s);
    } else {
      PiecesOfSplit(front + [s[0]], s[1..]);
      SplitWithin(front, s);
    }
  }

  lemma SplitWithin(front: string, s: string)
    requires s != "" && s[0] != '|'
    ensures front + s == front + [s[0]] + s[1..]
    ensures front + SplitPipes(s)[0] == front + [s[0]] + SplitPipes(s[1..])[0]
    ensures SplitPipes(s)[1..] == SplitPipes(s[1..])[1..]
  {
    var rest := SplitPipes(s[1..]);
    assert SplitPipes(s) == [[s[0]] + rest[0]] + rest[1..];
    Regroup(front, s);
    Associate(front, [s[0]], rest[0]);
  }

  lemma SplitAtPipe(front: string, s: string)
    requires s != "" && s[0] == '|'
    requires Pieces("" + s[1..]) == Pieces("" + SplitPipes(s[1..])[0]) + PiecesOf(SplitPipes(s[1..])[1..])
    ensures Pieces(front + s) == Pieces(front + SplitPipes(s)[0]) + PiecesOf(SplitPipes(s)[1..])
  {
    var rest := SplitPipes(s[1..]);
    PiecesOfFirst(rest[0], rest[1..]);
    assert rest == [rest[0]] + rest[1..] && SplitPipes(s)[1..] == rest;
    assert "" + s[1..] == s[1..] && "" + rest[0] == rest[0];
    Regroup(front, s);
    PiecesAround(front, '|', s[1..]);
    assert front + "" == front;
  }

  lemma {:induction false} PiecesOfDropPipes(s: string)
    ensures Pieces(DropPipes(s)) == Pieces(s)
  {
    if s == "" || s[0] != '|' {
    } else {
      PiecesOfDropPipes(s[1..]);
      HeadAndTail(s);
      PiecesAfter('|', s[1..]);
    }
  }

  lemma {:induction false} PiecesOfDropTrailingPipes(s: string)
    ensures Pieces(DropTrailingPipes(s)) == Pieces(s)
  {
    if s == "" || s[|s| - 1] != '|' {
    } else {
      var front := s[..|s| - 1];
      PiecesOfDropTrailingPipes(front);
      PiecesAfter('|', front);
      assert s == front + ['|'];
    }
  }

  lemma {:induction false} PiecesOfCleanAll(parts: seq<string>)
    ensures PiecesOf(CleanAll(parts)) == PiecesOf(parts)
  {
    if parts == [] {
    } else {
      PiecesOfCleanAll(parts[1..]);
      PiecesOfClean(parts[0]);
      PiecesOfFirst(Clean(parts[0]), CleanAll(parts[1..]));
      PiecesOfFirst(parts[0], parts[1..]);
      assert parts == [parts[0]] + parts[1..];
    }
  }

  lemma PartsKeepPieces(s: string)
    ensures PiecesOf(SplitPipes(s)) == Pieces(s)
  {
    var parts := SplitPipes(s);
    PiecesOfSplit("", s);
    NothingAround(s);
    NothingAround(parts[0]);
    PiecesOfFirst(parts[0], parts[1..]);
    FirstAndRest(parts);
  }

  lemma BareKeepsPieces(line: string)
    ensures Pieces(StripPipes(Strip(line))) == Pieces(line)
  {
    PiecesOfStrip(line);
    PiecesOfDropPipes(Strip(line));
    PiecesOfDropTrailingPipes(DropPipes(Strip(line)));
  }

  lemma CellsKeepPieces(line: string)
    ensures PiecesOf(SplitRow(line)) == Pieces(line)
  {
    var inner := StripPipes(Strip(line));
    BareKeepsPieces(line);
    PartsKeepPieces(inner);
    PiecesOfCleanAll(SplitPipes(inner));
  }

  lemma {:induction false} PiecesOfFilled(row: seq<string>)
    ensures PiecesOf(Filled(row)) == PiecesOf(row)
  {
    if row == [] {
    } else {
      PiecesOfEmpty();
      PiecesOfFilled(row[1..]);
      PiecesOfFirst(row[0], Filled(row[1..]));
      PiecesOfFirst(row[0], row[1..]);
      assert row == [row[0]] + row[1..];
    }
  }

  lemma {:induction false} PiecesOfPadded(cells: seq<string>, row: seq<string>)
    requires FilledUp(cells, row)
    ensures PiecesOf(row) == PiecesOf(cells)
  {
    if row == cells {
    } else {
      var n := |row| - 1;
      PiecesOfPadded(cells, row[..n]);
      PiecesOfEmpty();
    }
  }

  lemma {:induction false} PiecesOfRows(rowLines: seq<string>, rows: seq<seq<string>>)
    requires HoldsCells(rowLines, rows)
    ensures PiecesOf(RowTexts(rows)) == PiecesOf(rowLines)
  {
    if rows == [] {
    } else {
      var n := |rows| - 1;
      PiecesOfRows(rowLines[..n], rows[..n]);
      RowKeepsPieces(rowLines[n], rows[n]);
      PiecesOfMore(RowTexts(rows[..n]), Join(Filled(rows[n]), " | "));
    }
  }

  lemma RowKeepsPieces(line: string, row: seq<string>)
    requires FilledUp(SplitRow(line), row)
    ensures Pieces(Join(Filled(row), " | ")) == Pieces(line)
  {
    CellsKeepPieces(line);
    PiecesOfPadded(SplitRow(line), row);
    PiecesOfFilled(row);
    PiecesOfJoin(Filled(row), " | ");
  }

  lemma TableKeepsText(lines: seq<string>, st: Step)
    requires IsTableStep(lines, st)
    ensures PiecesOf(st.texts) == PiecesOf(RowLines(lines, st.first, st.next))
  {
    var rowLines := RowLines(lines, st.first, st.next);
    var padded, cols :| MakesTable(rowLines, st, padded, cols);
    PaddedRows(RowsOf(rowLines), padded, cols);
    PiecesOfRows(rowLines, padded);
  }

  lemma ParagraphKeepsText(lines: seq<string>, st: Step)
    requires IsParagraphStep(lines, st)
    ensures PiecesOf(st.texts) == PiecesOf(lines[st.first..st.next])
  {
    var part := lines[st.first..st.next];
    var joined := Join(Stripped(part), " ");
    PiecesOfOne(Clean(joined));
    PiecesOfClean(joined);
    PiecesOfJoin(Stripped(part), " ");
    PiecesOfStripped(part);
  }

  lemma StepKeepsText(lines: seq<string>, st: Step)
    requires IsStep(lines, st)
    ensures PiecesOf(st.texts) == PiecesOf(Kept(lines, st))
  {
    var line := lines[st.first];
    var heading := HeadingOf(Strip(line));
    if IsBlank(line) || IsPageBreak(Strip(line)) {
    } else if heading.Some? {
      PiecesOfOne(heading.value.body);
      PiecesOfOne(Clean(heading.value.body));
      PiecesOfClean(heading.value.body);
    } else if IsTableStart(lines, st.first) {
      TableKeepsText(lines, st);
    } else if BulletItem(line).Some? || NumberItem(line).Some? {
      PiecesOfItems(lines[st.first..st.next], NumberItem(line).Some?);
    } else {
      ParagraphKeepsText(lines, st);
    }
  }

  lemma {:induction false} StepsKeepText(lines: seq<string>, steps: seq<Step>)
    requires forall k :: 0 <= k < |steps| ==> Within(lines, steps[k]) && IsStep(lines, steps[k])
    ensures PiecesOf(AllTexts(steps)) == PiecesOf(AllKept(lines, steps))
  {
    if steps == [] {
    } else {
      var n := |steps| - 1;
      StepsKeepText(lines, steps[..n]);
      StepKeepsText(lines, steps[n]);
      PiecesOfConcat(AllTexts(steps[..n]), steps[n].texts);
      PiecesOfConcat(AllKept(lines, steps[..n]), Kept(lines, steps[n]));
    }
  }

  /** The semantic text holds every piece of text of every heading, item, cell and paragraph, in
      the order of the lines, and nothing else. */
  lemma NoTextIsLost(lines: seq<string>, steps: seq<Step>)
    requires Chained(lines, steps, |lines|)
    ensures forall k :: 0 <= k < |steps| ==> Within(lines, steps[k])
    ensures Pieces(Strip(Join(AllTexts(steps), "\n"))) == PiecesOf(AllKept(lines, steps))
  {
    forall k | 0 <= k < |steps| ensures Within(lines, steps[k]) {
      assert IsStep(lines, steps[k]);
    }
    StepsKeepText(lines, steps);
    JoinedKeepsPieces(AllTexts(steps));
  }

  lemma JoinedKeepsPieces(texts: seq<string>)
    ensures Pieces(Strip(Join(texts, "\n"))) == PiecesOf(texts)
  {
    PiecesOfJoin(texts, "\n");
    PiecesOfStrip(Join(texts, "\n"));
  }

  // ---------------------------------------------------------------- from the content to its lines

  lemma {:induction false} PiecesOfLineFeeds(front: string, s: string)
    ensures Pieces(front + LineFeeds(s)) == Pieces(front + s)
    decreases |s|
  {
    if s == "" {
    } else if s[0] == '\r' {
      PiecesOfLineFeeds("", if |s| > 1 && s[1] == '\n' then s[2..] else s[1..]);
      ReturnIsSpace(front, s);
    } else {
      PiecesOfLineFeeds(front + [s[0]], s[1..]);
      Associate(front, [s[0]], LineFeeds(s[1..]));
      Regroup(front, s);
    }
  }

  lemma ReturnIsSpace(front: string, s: string)
    requires s != "" && s[0] == '\r'
    requires var rest := if |s| > 1 && s[1] == '\n' then s[2..] else s[1..];
      Pieces("" + LineFeeds(rest)) == Pieces("" + rest)
    ensures Pieces(front + LineFeeds(s)) == Pieces(front + s)
  {
    var rest := if |s| > 1 && s[1] == '\n' then s[2..] else s[1..];
    assert "" + LineFeeds(rest) == LineFeeds(rest) && "" + rest == rest;
    PiecesAround(front, '\n', LineFeeds(rest));
    Associate(front, "\n", LineFeeds(rest));
    Regroup(front, s);
    PiecesAround(front, '\r', s[1..]);
    if rest != s[1..] {
      PiecesSkipSpace(s[1..]);
      assert s[1..][1..] == rest;
    }
  }

  lemma {:induction false} PiecesOfLines(front: string, s: string)
    ensures Pieces(front + s) == Pieces(front + SplitLines(s)[0]) + PiecesOf(SplitLines(s)[1..])
    decreases |s|
  {
    if s == "" {
      assert SplitLines(s)[1..] == [];
    } else if s[0] == '\n' {
      PiecesOfLines("", s[1..]);
      SplitAtFeed(front, s[1..], SplitLines(s[1..]));
      Regroup(front, s);
    } else {
      PiecesOfLines(front + [s[0]], s[1..]);
      var rest := SplitLines(s[1..]);
      assert SplitLines(s) == [[s[0]] + rest[0]] + rest[1..];
      Regroup(front, s);
      Associate(front, [s[0]], rest[0]);
    }
  }

  lemma SplitAtFeed(front: string, tail: string, rest: seq<string>)
    requires rest != [] && Pieces("" + tail) == Pieces("" + rest[0]) + PiecesOf(rest[1..])
    ensures Pieces(front + ['\n'] + tail) == Pieces(front + "") + PiecesOf(rest)
  {
    NothingAround(tail);
    NothingAround(rest[0]);
    NothingAround(front);
    PiecesAround(front, '\n', tail);
    PiecesOfFirst(rest[0], rest[1..]);
    FirstAndRest(rest);
  }

  lemma NothingAround(s: string)
    ensures "" + s == s && s + "" == s
  {}

  lemma FirstAndRest(parts: seq<string>)
    requires parts != []
    ensures [parts[0]] + parts[1..] == parts
  {}

  /** Cutting the content into lines loses no text either. */
  lemma LinesKeepText(content: string)
    ensures PiecesOf(LinesOf(content)) == Pieces(content)
  {
    var source := Strip(LineFeeds(content));
    PiecesOfLineFeeds("", content);
    assert "" + LineFeeds(content) == LineFeeds(content) && "" + content == content;
    PiecesOfStrip(LineFeeds(content));
    if source == "" {
      PiecesOfEmpty();
    } else {
      var lines := SplitLines(source);
      PiecesOfLines("", source);
      PiecesOfFirst(lines[0], lines[1..]);
      assert "" + source == source && "" + lines[0] == lines[0] && [lines[0]] + lines[1..] == lines;
    }
  }
}
