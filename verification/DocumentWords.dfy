/** The words of the semantic text, exactly: pipes count as they stand. */
module DocumentWords {
  import opened Common
  import opened Text
  import opened LineSyntax
  import opened WordOrder
  import opened DocumentParser
  import opened DocumentText

  function WordsIn(parts: seq<string>): seq<string> {
    if parts == [] then [] else WordsIn(parts[..|parts| - 1]) + Words(parts[|parts| - 1])
  }

  lemma WordsInMore(parts: seq<string>, part: string)
    ensures WordsIn(parts + [part]) == WordsIn(parts) + Words(part)
  {
    assert (parts + [part])[..|parts|] == parts;
  }

  lemma {:induction false} WordsInConcat(a: seq<string>, b: seq<string>)
    ensures WordsIn(a + b) == WordsIn(a) + WordsIn(b)
  {
    if b == [] {
      assert a + b == a;
    } else {
      var front, last := b[..|b| - 1], b[|b| - 1];
      WordsInConcat(a, front);
      WordsInMore(a + front, last);
      LastApart(a, b);
      Associate(WordsIn(a), WordsIn(front), Words(last));
    }
  }

  lemma WordsInOne(part: string)
    ensures WordsIn([part]) == Words(part)
  {
    WordsInMore([], part);
    assert [] + [part] == [part];
    assert WordsIn([]) == [];
  }

  lemma {:induction false} WordsInJoin(parts: seq<string>, sp: char)
    requires IsSpace(sp)
    ensures Words(Join(parts, [sp])) == WordsIn(parts)
  {
    if parts == [] {
    } else if |parts| == 1 {
      WordsInOne(parts[0]);
      assert parts == [parts[0]];
    } else {
      WordsInJoin(parts[1..], sp);
      WordsBeforeSpace(parts[0], sp, Join(parts[1..], [sp]));
      WordsInConcat([parts[0]], parts[1..]);
      WordsInOne(parts[0]);
      assert parts == [parts[0]] + parts[1..];
    }
  }

  // ---------------------------------------------------------------- what each turn shows

  /** One text for each line of a table with cells: its non-empty cells. */
  function CellTexts(rowLines: seq<string>): seq<string> {
    if rowLines == [] then []
    else CellTexts(rowLines[..|rowLines| - 1]) + [Join(Filled(SplitRow(rowLines[|rowLines| - 1])), " | ")]
  }

  /** The text of one turn as the lines have it: the heading behind its marks, the items behind
      theirs, the cells of each row, the lines of a paragraph. */
  function Shown(lines: seq<string>, st: Step): seq<string>
    requires Within(lines, st)
  {
    if IsTableTurn(lines, st) then CellTexts(RowLines(lines, st.first, st.next)) else Kept(lines, st)
  }

  predicate IsTableTurn(lines: seq<string>, st: Step)
    requires Within(lines, st)
  {
    var line := lines[st.first];
    && !IsBlank(line) && !IsPageBreak(Strip(line)) && HeadingOf(Strip(line)).None?
    && IsTableStart(lines, st.first) && st.first + 2 <= st.next
  }

  function AllShown(lines: seq<string>, steps: seq<Step>): seq<string>
    requires forall k :: 0 <= k < |steps| ==> Within(lines, steps[k])
  {
    if steps == [] then []
    else AllShown(lines, steps[..|steps| - 1]) + Shown(lines, steps[|steps| - 1])
  }

  lemma {:induction false} PaddingIsEmpty(cells: seq<string>, row: seq<string>)
    requires FilledUp(cells, row)
    ensures Filled(row) == Filled(cells)
  {
    if cells == [] {
      AllEmpty(row);
    } else {
      assert cells[0] == row[0];
      assert row[1..][..|cells| - 1] == cells[1..];
      PaddingIsEmpty(cells[1..], row[1..]);
    }
  }

  lemma {:induction false} AllEmpty(row: seq<string>)
    requires forall k :: 0 <= k < |row| ==> row[k] == ""
    ensures Filled(row) == []
  {
    if row == [] {
    } else {
      AllEmpty(row[1..]);
    }
  }

  lemma {:induction false} PaddedTexts(rowLines: seq<string>, rows: seq<seq<string>>)
    requires HoldsCells(rowLines, rows)
    ensures RowTexts(rows) == CellTexts(rowLines)
  {
    if rows == [] {
    } else {
      var n := |rows| - 1;
      PaddedTexts(rowLines[..n], rows[..n]);
      PaddingIsEmpty(SplitRow(rowLines[n]), rows[n]);
    }
  }

  lemma TableShows(lines: seq<string>, st: Step)
    requires IsTableStep(lines, st)
    ensures st.texts == CellTexts(RowLines(lines, st.first, st.next))
  {
    var rowLines := RowLines(lines, st.first, st.next);
    var padded, cols :| MakesTable(rowLines, st, padded, cols);
    PaddedRows(RowsOf(rowLines), padded, cols);
    PaddedTexts(rowLines, padded);
  }

  lemma {:induction false} ItemsShow(lines: seq<string>, ordered: bool)
    ensures WordsIn(ItemTexts(lines, ordered)) == WordsIn(ItemBodies(lines, ordered))
  {
    if lines == [] {
    } else {
      var n := |lines| - 1;
      var item := ItemOf(lines[n], ordered);
      var body := if item.Some? then item.value else "";
      var texts := ItemTexts(lines[..n], ordered);
      ItemsShow(lines[..n], ordered);
      CleanKeepsWords(body);
      WordsInMore(ItemBodies(lines[..n], ordered), body);
      if Clean(body) == "" {
        assert texts + [] == texts && Words("") == [];
      } else {
        WordsInMore(texts, Clean(body));
      }
    }
  }

  lemma {:induction false} StrippedShow(lines: seq<string>)
    ensures WordsIn(Stripped(lines)) == WordsIn(lines)
  {
    if lines == [] {
    } else {
      var n := |lines| - 1;
      StrippedShow(lines[..n]);
      WordsOfStrip(lines[n]);
      WordsInMore(Stripped(lines[..n]), Strip(lines[n]));
    }
  }

  lemma ParagraphShows(lines: seq<string>, st: Step)
    requires IsParagraphStep(lines, st)
    ensures WordsIn(st.texts) == WordsIn(lines[st.first..st.next])
  {
    var part := lines[st.first..st.next];
    var joined := Join(Stripped(part), " ");
    WordsInOne(Clean(joined));
    CleanKeepsWords(joined);
    WordsInJoin(Stripped(part), ' ');
    StrippedShow(part);
  }

  lemma HeadingShows(body: string)
    ensures WordsIn([Clean(body)]) == WordsIn([body])
  {
    WordsInOne(body);
    WordsInOne(Clean(body));
    CleanKeepsWords(body);
  }

  ghost predicate Reads(lines: seq<string>, st: Step) {
    Within(lines, st) && IsStep(lines, st)
  }

  lemma StepShows(lines: seq<string>, st: Step)
    requires Reads(lines, st)
    ensures WordsIn(st.texts) == WordsIn(Shown(lines, st))
  {
    var line := lines[st.first];
    var heading := HeadingOf(Strip(line));
    if IsBlank(line) || IsPageBreak(Strip(line)) {
    } else if heading.Some? {
      HeadingShows(heading.value.body);
    } else if IsTableStart(lines, st.first) {
      TableShows(lines, st);
    } else if BulletItem(line).Some? || NumberItem(line).Some? {
      ItemsShow(lines[st.first..st.next], NumberItem(line).Some?);
    } else {
      ParagraphShows(lines, st);
    }
  }

  lemma {:induction false} StepsShow(lines: seq<string>, steps: seq<Step>)
    requires forall k :: 0 <= k < |steps| ==> Within(lines, steps[k])
    requires forall k :: 0 <= k < |steps| ==> Reads(lines, steps[k])
    ensures WordsIn(AllTexts(steps)) == WordsIn(AllShown(lines, steps))
  {
    if steps == [] {
    } else {
      var n := |steps| - 1;
      StepsShow(lines, steps[..n]);
      StepShows(lines, steps[n]);
      WordsInConcat(AllTexts(steps[..n]), steps[n].texts);
      WordsInConcat(AllShown(lines, steps[..n]), Shown(lines, steps[n]));
    }
  }

  /** Word for word, the semantic text is what the lines show, in their order: nothing of a heading,
      an item, a cell or a paragraph is lost, and nothing is added but the bars between cells. */
  lemma SemanticTextShowsEveryWord(lines: seq<string>, steps: seq<Step>)
    requires Chained(lines, steps, |lines|)
    ensures forall k :: 0 <= k < |steps| ==> Within(lines, steps[k])
    ensures Words(Strip(Join(AllTexts(steps), "\n"))) == WordsIn(AllShown(lines, steps))
  {
    forall k | 0 <= k < |steps| ensures Reads(lines, steps[k]) {
      assert IsStep(lines, steps[k]);
    }
    StepsShow(lines, steps);
    WordsInJoin(AllTexts(steps), '\n');
    WordsOfStrip(Join(AllTexts(steps), "\n"));
  }

  // ---------------------------------------------------------------- the text of the blocks

  /** The texts of a block: of a table, one for each row. */
  function BlockTexts(block: Block): seq<string> {
    match block
    case Heading(text, _) => [text]
    case Paragraph(text) => [text]
    case List(items, _) => items
    case Table(rows) => RowTexts(rows)
    case PageBreak => []
  }

  function TextsOf(blocks: seq<Block>): seq<string> {
    if blocks == [] then [] else TextsOf(blocks[..|blocks| - 1]) + BlockTexts(blocks[|blocks| - 1])
  }

  lemma TextsOfMore(blocks: seq<Block>, block: Block)
    ensures TextsOf(blocks + [block]) == TextsOf(blocks) + BlockTexts(block)
  {
    assert (blocks + [block])[..|blocks|] == blocks;
  }

  /** At most one block, and its texts. */
  predicate OneBlockAtMost(st: Step) {
    if st.blocks == [] then st.texts == [] else |st.blocks| == 1 && st.texts == BlockTexts(st.blocks[0])
  }

  lemma StepTexts(lines: seq<string>, st: Step)
    requires IsStep(lines, st)
    ensures OneBlockAtMost(st)
  {
    var line := lines[st.first];
    if IsBlank(line) || IsPageBreak(Strip(line)) || HeadingOf(Strip(line)).Some? {
    } else if IsTableStart(lines, st.first) {
      TableTurnTexts(lines, st);
    } else if BulletItem(line).Some? || NumberItem(line).Some? {
      ListTurnTexts(lines, NumberItem(line).Some?, st);
    } else {
      ParagraphTurnTexts(lines, st);
    }
  }

  lemma TableTurnTexts(lines: seq<string>, st: Step)
    requires IsTableStep(lines, st)
    ensures OneBlockAtMost(st)
  {
    var padded, cols :| MakesTable(RowLines(lines, st.first, st.next), st, padded, cols);
  }

  lemma ListTurnTexts(lines: seq<string>, ordered: bool, st: Step)
    requires IsListStep(lines, ordered, st)
    ensures OneBlockAtMost(st)
  {}

  lemma ParagraphTurnTexts(lines: seq<string>, st: Step)
    requires IsParagraphStep(lines, st)
    ensures OneBlockAtMost(st)
  {}

  /** The texts of a document are those of its blocks, in order. */
  lemma {:induction false} TextsAreOfBlocks(lines: seq<string>, steps: seq<Step>)
    requires forall k :: 0 <= k < |steps| ==> IsStep(lines, steps[k])
    ensures AllTexts(steps) == TextsOf(AllBlocks(steps))
  {
    if steps == [] {
    } else {
      var front, last := steps[..|steps| - 1], steps[|steps| - 1];
      TextsAreOfBlocks(lines, front);
      StepTexts(lines, last);
      LastTexts(AllBlocks(front), AllTexts(front), last);
    }
  }

  lemma LastTexts(blocks: seq<Block>, texts: seq<string>, st: Step)
    requires texts == TextsOf(blocks)
    requires OneBlockAtMost(st)
    ensures texts + st.texts == TextsOf(blocks + st.blocks)
  {
    if st.blocks == [] {
      assert blocks + st.blocks == blocks;
    } else {
      TextsOfMore(blocks, st.blocks[0]);
      assert st.blocks == [st.blocks[0]];
    }
  }

  /** The semantic text of a parsed document is the text of its blocks, in order. */
  lemma SemanticTextIsOfBlocks(lines: seq<string>, steps: seq<Step>, spec: DocumentSpec)
    requires Chained(lines, steps, |lines|) && spec.blocks == AllBlocks(steps)
    requires spec.semanticText == Strip(Join(AllTexts(steps), "\n"))
    ensures spec.semanticText == Strip(Join(TextsOf(spec.blocks), "\n"))
  {
    TextsAreOfBlocks(lines, steps);
  }
}
