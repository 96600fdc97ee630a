/** The block parser of the artifact documents. */
module DocumentParser {
  import opened Common
  import opened Text
  import opened LineSyntax
  import opened WordOrder

  datatype Block =
    | Heading(text: string, level: nat)
    | Paragraph(text: string)
    | List(items: seq<string>, ordered: bool)
    | Table(rows: seq<seq<string>>)
    | PageBreak

  datatype DocumentSpec = DocumentSpec(title: string, blocks: seq<Block>, semanticText: string)

  /** One turn of the parser: the lines it consumes, the block it makes, if any, and the texts it
      adds to the semantic text. */
  datatype Step = Step(first: nat, next: nat, blocks: seq<Block>, texts: seq<string>)

  // ---------------------------------------------------------------- what a turn must do

  predicate RowsUntil(lines: seq<string>, first: nat, next: nat) {
    && first <= next <= |lines|
    && (forall j :: first <= j < next ==> IsTableRow(lines[j]))
    && (next < |lines| ==> !IsTableRow(lines[next]))
  }

  predicate ItemsUntil(lines: seq<string>, ordered: bool, first: nat, next: nat) {
    && first <= next <= |lines|
    && (forall j :: first <= j < next ==> ItemOf(lines[j], ordered).Some?)
    && (next < |lines| ==> ItemOf(lines[next], ordered).None?)
  }

  /** A line that ends a paragraph. */
  predicate Interrupts(lines: seq<string>, j: nat)
    requires j < |lines|
  {
    || IsBlank(lines[j])
    || HeadingOf(Strip(lines[j])).Some? || BulletItem(lines[j]).Some? || NumberItem(lines[j]).Some?
    || IsPageBreak(Strip(lines[j])) || IsTableStart(lines, j)
  }

  predicate TextUntil(lines: seq<string>, first: nat, next: nat) {
    && first <= next <= |lines|
    && (forall j :: first <= j < next ==> !Interrupts(lines, j))
    && (next < |lines| ==> Interrupts(lines, next))
  }

  function Stripped(lines: seq<string>): (r: seq<string>)
    ensures |r| == |lines|
    ensures forall k :: 0 <= k < |lines| ==> r[k] == Strip(lines[k])
  {
    if lines == [] then [] else Stripped(lines[..|lines| - 1]) + [Strip(lines[|lines| - 1])]
  }

  function RowsOf(lines: seq<string>): (r: seq<seq<string>>)
    ensures |r| == |lines|
    ensures forall k :: 0 <= k < |lines| ==> r[k] == SplitRow(lines[k])
  {
    if lines == [] then [] else RowsOf(lines[..|lines| - 1]) + [SplitRow(lines[|lines| - 1])]
  }

  /** The cleaned items of the lines, without the empty ones. */
  function ItemTexts(lines: seq<string>, ordered: bool): seq<string> {
    if lines == [] then []
    else
      var text := ItemText(lines[|lines| - 1], ordered);
      ItemTexts(lines[..|lines| - 1], ordered) + if text == "" then [] else [text]
  }

  function ItemText(line: string, ordered: bool): string {
    var item := ItemOf(line, ordered);
    if item.Some? then Clean(item.value) else ""
  }

  /** `rows`, every row filled up with empty cells to the widest one. */
  ghost predicate PaddedTo(rows: seq<seq<string>>, padded: seq<seq<string>>, cols: nat) {
    && |padded| == |rows|
    && (exists k :: 0 <= k < |rows| && |rows[k]| == cols)
    && forall k :: 0 <= k < |rows| ==>
         |rows[k]| <= cols && padded[k] == rows[k] + seq(cols - |rows[k]|, _ => "")
  }

  function Filled(row: seq<string>): seq<string> {
    if row == [] then []
    else if row[0] == "" then Filled(row[1..])
    else [row[0]] + Filled(row[1..])
  }

  function RowTexts(rows: seq<seq<string>>): (r: seq<string>) {
    if rows == [] then [] else RowTexts(rows[..|rows| - 1]) + [Join(Filled(rows[|rows| - 1]), " | ")]
  }

  ghost predicate IsTableStep(lines: seq<string>, st: Step) {
    && st.first + 2 <= st.next && RowsUntil(lines, st.first + 2, st.next)
    && exists padded, cols :: MakesTable(RowLines(lines, st.first, st.next), st, padded, cols)
  }

  /** The lines of a table that hold cells: the header and those below the separator. */
  function RowLines(lines: seq<string>, first: nat, next: nat): seq<string>
    requires first + 2 <= next <= |lines|
  {
    [lines[first]] + lines[first + 2..next]
  }

  ghost predicate MakesTable(rowLines: seq<string>, st: Step, padded: seq<seq<string>>, cols: nat) {
    && PaddedTo(RowsOf(rowLines), padded, cols)
    && st.blocks == [Table(padded)] && st.texts == RowTexts(padded)
  }

  predicate IsListStep(lines: seq<string>, ordered: bool, st: Step) {
    && st.first < st.next && ItemsUntil(lines, ordered, st.first, st.next)
    && st.texts == ItemTexts(lines[st.first..st.next], ordered)
    && st.blocks == if st.texts == [] then [] else [List(st.texts, ordered)]
  }

  predicate IsParagraphStep(lines: seq<string>, st: Step) {
    && st.first < st.next && TextUntil(lines, st.first + 1, st.next)
    && var text := Clean(Join(Stripped(lines[st.first..st.next]), " "));
       st.texts == [text] && st.blocks == [Paragraph(text)]
  }

  /** What the turn that starts at `st.first` must be. */
  ghost predicate IsStep(lines: seq<string>, st: Step) {
    && st.first < st.next <= |lines|
    && var line := lines[st.first];
       var heading := HeadingOf(Strip(line));
       if IsBlank(line) then st == Step(st.first, st.first + 1, [], [])
       else if IsPageBreak(Strip(line)) then st == Step(st.first, st.first + 1, [PageBreak], [])
       else if heading.Some? then
         var text := Clean(heading.value.body);
         st == Step(st.first, st.first + 1, [Heading(text, heading.value.level)], [text])
       else if IsTableStart(lines, st.first) then IsTableStep(lines, st)
       else if BulletItem(line).Some? || NumberItem(line).Some? then
         IsListStep(lines, NumberItem(line).Some?, st)
       else IsParagraphStep(lines, st)
  }

  /** The ranges of the turns follow one another from line 0 to line `upTo`. */
  predicate Linked(steps: seq<Step>, upTo: nat) {
    && (forall k :: 0 < k < |steps| ==> steps[k].first == steps[k - 1].next)
    && (steps != [] ==> steps[0].first == 0)
    && upTo == if steps == [] then 0 else steps[|steps| - 1].next
  }

  /** The turns consume the first `upTo` lines, one after the other. */
  ghost predicate Chained(lines: seq<string>, steps: seq<Step>, upTo: nat) {
    && (forall k :: 0 <= k < |steps| ==> IsStep(lines, steps[k]))
    && Linked(steps, upTo)
  }

  function AllBlocks(steps: seq<Step>): seq<Block> {
    if steps == [] then [] else AllBlocks(steps[..|steps| - 1]) + steps[|steps| - 1].blocks
  }

  function AllTexts(steps: seq<Step>): seq<string> {
    if steps == [] then [] else AllTexts(steps[..|steps| - 1]) + steps[|steps| - 1].texts
  }

  function Take(s: string, n: nat): string {
    if |s| <= n then s else s[..n]
  }

  /** The first heading or paragraph names the document. */
  function TitleOf(blocks: seq<Block>): string {
    if blocks == [] then ""
    else
      var earlier := TitleOf(blocks[..|blocks| - 1]);
      if earlier != "" then earlier
      else match blocks[|blocks| - 1]
        case Heading(text, _) => text
        case Paragraph(text) => Take(text, 120)
        case _ => ""
  }

  // ---------------------------------------------------------------- the loops

  lemma Longer(lines: seq<string>, i: nat, next: nat)
    requires i <= next < |lines|
    ensures lines[i..next + 1] == lines[i..next] + [lines[next]]
    ensures lines[i..next + 1][..next - i] == lines[i..next]
  {}

  ghost predicate RowsSoFar(lines: seq<string>, i: nat, next: nat, rows: seq<seq<string>>) {
    && i + 2 <= next <= |lines|
    && (forall j :: i + 2 <= j < next ==> IsTableRow(lines[j]))
    && rows == RowsOf(RowLines(lines, i, next))
  }

  lemma OneRowMore(lines: seq<string>, i: nat, next: nat, rows: seq<seq<string>>)
    requires RowsSoFar(lines, i, next, rows) && next < |lines| && IsTableRow(lines[next])
    ensures RowsSoFar(lines, i, next + 1, rows + [SplitRow(lines[next])])
  {
    var more := RowLines(lines, i, next + 1);
    assert more == RowLines(lines, i, next) + [lines[next]];
    assert more[..next - i - 1] == RowLines(lines, i, next);
  }

  lemma RowsStart(lines: seq<string>, i: nat)
    requires IsTableStart(lines, i)
    ensures RowsSoFar(lines, i, i + 2, [SplitRow(lines[i])])
  {
    assert RowLines(lines, i, i + 2) == [lines[i]] && [lines[i]][..0] == [];
  }

  method ReadRows(lines: seq<string>, i: nat) returns (rows: seq<seq<string>>, next: nat)
    requires IsTableStart(lines, i)
    ensures i + 2 <= next && RowsUntil(lines, i + 2, next)
    ensures rows == RowsOf(RowLines(lines, i, next))
  {
    rows := [SplitRow(lines[i])];
    next := i + 2;
    RowsStart(lines, i);
    while next < |lines|
      invariant RowsSoFar(lines, i, next, rows)
    {
      if IsBlank(lines[next]) || '|' !in lines[next] {
        break;
      }
      OneRowMore(lines, i, next, rows);
      rows := rows + [SplitRow(lines[next])];
      next := next + 1;
    }
  }

  method Pad(rows: seq<seq<string>>) returns (padded: seq<seq<string>>)
    requires rows != []
    ensures exists cols :: PaddedTo(rows, padded, cols)
  {
    var width := |rows[0]|;
    for k := 1 to |rows|
      invariant exists j :: 0 <= j < k && |rows[j]| == width
      invariant forall j :: 0 <= j < k ==> |rows[j]| <= width
    {
      if |rows[k]| > width {
        width := |rows[k]|;
      }
    }
    padded := [];
    for k := 0 to |rows|
      invariant |padded| == k
      invariant forall j :: 0 <= j < k ==> padded[j] == rows[j] + seq(width - |rows[j]|, _ => "")
    {
      padded := padded + [rows[k] + seq(width - |rows[k]|, _ => "")];
    }
    assert PaddedTo(rows, padded, width);
  }

  method ReadTable(lines: seq<string>, i: nat) returns (ghost st: Step, rows: seq<seq<string>>, texts: seq<string>,
      next: nat)
    requires IsTableStart(lines, i)
    ensures st == Step(i, next, [Table(rows)], texts) && i < next <= |lines| && IsTableStep(lines, st)
  {
    var read;
    read, next := ReadRows(lines, i);
    rows := Pad(read);
    ghost var cols :| PaddedTo(read, rows, cols);
    texts := RowTexts(rows);
    st := Step(i, next, [Table(rows)], texts);
    assert MakesTable(RowLines(lines, i, next), st, rows, cols);
  }

  ghost predicate ItemsSoFar(lines: seq<string>, ordered: bool, i: nat, next: nat, items: seq<string>) {
    && i <= next <= |lines|
    && (forall j :: i <= j < next ==> ItemOf(lines[j], ordered).Some?)
    && items == ItemTexts(lines[i..next], ordered)
  }

  lemma OneItemMore(lines: seq<string>, ordered: bool, i: nat, next: nat, items: seq<string>, body: string)
    requires ItemsSoFar(lines, ordered, i, next, items) && next < |lines|
    requires ItemOf(lines[next], ordered) == Some(body)
    ensures ItemsSoFar(lines, ordered, i, next + 1, if Clean(body) == "" then items else items + [Clean(body)])
  {
    Longer(lines, i, next);
  }

  method ReadList(lines: seq<string>, ordered: bool, i: nat) returns (items: seq<string>, next: nat)
    requires i < |lines|
    ensures ItemsUntil(lines, ordered, i, next)
    ensures items == ItemTexts(lines[i..next], ordered)
  {
    items, next := [], i;
    assert lines[i..i] == [];
    while next < |lines|
      invariant ItemsSoFar(lines, ordered, i, next, items)
    {
      var item := ItemOf(lines[next], ordered);
      if item.None? {
        break;
      }
      OneItemMore(lines, ordered, i, next, items, item.value);
      var text := Clean(item.value);
      if text != "" {
        items := items + [text];
      }
      next := next + 1;
    }
  }

  ghost predicate TextSoFar(lines: seq<string>, i: nat, next: nat, parts: seq<string>) {
    && i < next <= |lines|
    && (forall j :: i + 1 <= j < next ==> !Interrupts(lines, j))
    && parts == Stripped(lines[i..next])
  }

  lemma OnePartMore(lines: seq<string>, i: nat, next: nat, parts: seq<string>)
    requires TextSoFar(lines, i, next, parts) && next < |lines| && !Interrupts(lines, next)
    ensures TextSoFar(lines, i, next + 1, parts + [Strip(lines[next])])
  {
    Longer(lines, i, next);
  }

  method ReadParagraph(lines: seq<string>, i: nat) returns (parts: seq<string>, next: nat)
    requires i < |lines|
    ensures i < next && TextUntil(lines, i + 1, next)
    ensures parts == Stripped(lines[i..next])
  {
    parts, next := [Strip(lines[i])], i + 1;
    assert lines[i..next] == [lines[i]];
    while next < |lines|
      invariant TextSoFar(lines, i, next, parts)
    {
      if Interrupts(lines, next) {
        break;
      }
      OnePartMore(lines, i, next, parts);
      parts := parts + [Strip(lines[next])];
      next := next + 1;
    }
  }

  method ReadBlock(lines: seq<string>, i: nat) returns (st: Step)
    requires i < |lines|
    ensures st.first == i && IsStep(lines, st)
  {
    var raw := lines[i];
    var stripped := Strip(raw);
    if stripped == "" {
      return Step(i, i + 1, [], []);
    }
    if IsPageBreak(stripped) {
      return Step(i, i + 1, [PageBreak], []);
    }
    var heading := HeadingOf(stripped);
    if heading.Some? {
      var text := Clean(heading.value.body);
      return Step(i, i + 1, [Heading(text, heading.value.level)], [text]);
    }
    if IsTableStart(lines, i) {
      ghost var table;
      var rows, texts, next;
      table, rows, texts, next := ReadTable(lines, i);
      return Step(i, next, [Table(rows)], texts);
    }
    var ordered := NumberItem(raw).Some?;
    if BulletItem(raw).Some? || ordered {
      var items, next := ReadList(lines, ordered, i);
      return Step(i, next, if items == [] then [] else [List(items, ordered)], items);
    }
    var parts, next := ReadParagraph(lines, i);
    var text := Clean(Join(parts, " "));
    ParagraphNeverEmpty(lines, i, next);
    st := Step(i, next, if text == "" then [] else [Paragraph(text)], if text == "" then [] else [text]);
  }

  /** The loop over the lines. */
  method ParseLines(lines: seq<string>)
    returns (blocks: seq<Block>, semantic: seq<string>, title: string, ghost steps: seq<Step>)
    ensures Chained(lines, steps, |lines|)
    ensures blocks == AllBlocks(steps) && semantic == AllTexts(steps) && title == TitleOf(blocks)
  {
    blocks, semantic, title, steps := [], [], "", [];
    var i := 0;
    while i < |lines|
      invariant i <= |lines| && Chained(lines, steps, i)
      invariant blocks == AllBlocks(steps) && semantic == AllTexts(steps) && title == TitleOf(blocks)
    {
      var st := ReadBlock(lines, i);
      ExtendChain(lines, steps, st);
      AtMostOneBlock(lines, st);
      TitleOfMore(blocks, st.blocks);
      if title == "" {
        title := TitleOf(st.blocks);
      }
      blocks := blocks + st.blocks;
      semantic := semantic + st.texts;
      steps := steps + [st];
      i := st.next;
    }
  }

  lemma TitleOfMore(blocks: seq<Block>, more: seq<Block>)
    requires |more| <= 1
    ensures TitleOf(blocks + more) == if TitleOf(blocks) == "" then TitleOf(more) else TitleOf(blocks)
  {
    if more == [] {
      assert blocks + more == blocks;
    } else {
      assert (blocks + more)[..|blocks|] == blocks && more[..0] == [];
      assert TitleOf([]) == "";
    }
  }

  lemma ExtendChain(lines: seq<string>, steps: seq<Step>, st: Step)
    requires IsStep(lines, st) && Chained(lines, steps, st.first)
    ensures Chained(lines, steps + [st], st.next)
    ensures AllBlocks(steps + [st]) == AllBlocks(steps) + st.blocks
    ensures AllTexts(steps + [st]) == AllTexts(steps) + st.texts
  {
    ExtendOutput(steps, st);
    ExtendLinks(steps, st);
    assert forall k :: 0 <= k < |steps| ==> (steps + [st])[k] == steps[k];
  }

  lemma ExtendOutput(steps: seq<Step>, st: Step)
    ensures AllBlocks(steps + [st]) == AllBlocks(steps) + st.blocks
    ensures AllTexts(steps + [st]) == AllTexts(steps) + st.texts
  {
    assert (steps + [st])[..|steps|] == steps;
  }

  lemma ExtendLinks(steps: seq<Step>, st: Step)
    requires Linked(steps, st.first)
    ensures Linked(steps + [st], st.next)
  {}

  lemma AtMostOneBlock(lines: seq<string>, st: Step)
    requires IsStep(lines, st)
    ensures |st.blocks| <= 1
  {}

  lemma ParagraphNeverEmpty(lines: seq<string>, i: nat, next: nat)
    requires i < next <= |lines| && !IsBlank(lines[i])
    ensures Clean(Join(Stripped(lines[i..next]), " ")) != ""
  {
    var parts := Stripped(lines[i..next]);
    var text := Join(parts, " ");
    assert parts[0] == Strip(lines[i]);
    FirstPartCounts(parts);
    CleanKeepsWords(text);
  }

  lemma FirstPartCounts(parts: seq<string>)
    requires parts != [] && parts[0] != "" && !IsSpace(parts[0][0])
    ensures Words(Join(parts, " ")) != []
  {
    FirstWord(parts[0]);
    if |parts| > 1 {
      WordsBeforeSpace(parts[0], ' ', Join(parts[1..], " "));
    }
  }

  // ---------------------------------------------------------------- the document

  /** Every line ending becomes a line feed. */
  function LineFeeds(s: string): string
    decreases |s|
  {
    if s == "" then ""
    else if s[0] == '\r' then
      "\n" + LineFeeds(if |s| > 1 && s[1] == '\n' then s[2..] else s[1..])
    else [s[0]] + LineFeeds(s[1..])
  }

  /** `split("\n")` */
  function SplitLines(s: string): (lines: seq<string>)
    ensures lines != []
  {
    if s == "" then [""]
    else if s[0] == '\n' then [""] + SplitLines(s[1..])
    else
      var rest := SplitLines(s[1..]);
      [[s[0]] + rest[0]] + rest[1..]
  }

  function LinesOf(content: string): seq<string> {
    var source := Strip(LineFeeds(content));
    if source == "" then [] else SplitLines(source)
  }

  const DEFAULT_TITLE := "Documento"

  method ParseDocumentSpec(content: string) returns (spec: DocumentSpec, ghost steps: seq<Step>)
    ensures Chained(LinesOf(content), steps, |LinesOf(content)|)
    ensures spec.blocks == AllBlocks(steps)
    ensures spec.semanticText == Strip(Join(AllTexts(steps), "\n"))
    ensures spec.title == Take(if TitleOf(spec.blocks) == "" then "Documento" else TitleOf(spec.blocks), 160)
  {
    var source := Strip(LineFeeds(content));
    if source == "" {
      return DocumentSpec(DEFAULT_TITLE, [], ""), [];
    }
    var lines := SplitLines(source);
    var blocks, semantic, title;
    blocks, semantic, title, steps := ParseLines(lines);
    spec := DocumentSpec(Take(if title == "" then DEFAULT_TITLE else title, 160), blocks, Strip(Join(semantic, "\n")));
  }
}
