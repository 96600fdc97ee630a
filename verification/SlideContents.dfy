/** What the slides of a document hold, in plain terms: rows, limits, titles. */
module SlideContents {
  import opened Common
  import opened Text
  import opened BulletChunks
  import opened DocumentParser
  import opened SlidePlan
  import opened SlideTheorems

  /** The first `n` characters, or all if there are fewer. */
  predicate CutTo(s: string, n: nat, r: string) {
    r <= s && |r| == if |s| < n then |s| else n
  }

  // ---------------------------------------------------------------- the bullet of a table row

  /** Header and row both reach this column, and one of them has text there. */
  predicate ShowsColumn(header: seq<string>, row: seq<string>, col: int) {
    0 <= col < |header| && col < |row| && (header[col] != "" || row[col] != "")
  }

  /** The columns that show, from left to right. */
  ghost predicate ShownColumns(header: seq<string>, row: seq<string>, cols: seq<nat>) {
    && (forall i, j :: 0 <= i < j < |cols| ==> cols[i] < cols[j])
    && (forall col :: col in cols <==> ShowsColumn(header, row, col))
  }

  /** For each of the columns its header, a colon, and its cell. */
  predicate ArePairs(header: seq<string>, row: seq<string>, cols: seq<nat>, pairs: seq<string>) {
    && |pairs| == |cols|
    && forall i :: 0 <= i < |cols| ==>
         cols[i] < |header| && cols[i] < |row| && pairs[i] == header[cols[i]] + ": " + row[cols[i]]
  }

  function Shifted(cols: seq<nat>): (r: seq<nat>)
    ensures |r| == |cols| && forall i :: 0 <= i < |cols| ==> r[i] == cols[i] + 1
  {
    seq(|cols|, i requires 0 <= i < |cols| => cols[i] + 1)
  }

  lemma {:induction false} PairsOfColumns(header: seq<string>, row: seq<string>) returns (cols: seq<nat>)
    ensures ShownColumns(header, row, cols) && ArePairs(header, row, cols, RowPairs(header, row))
  {
    if header == [] || row == [] {
      cols := [];
    } else {
      var rest := PairsOfColumns(header[1..], row[1..]);
      var first: seq<nat> := if ShowsColumn(header, row, 0) then [0] else [];
      cols := first + Shifted(rest);
      NextColumns(header, row, rest);
    }
  }

  lemma NextColumns(header: seq<string>, row: seq<string>, rest: seq<nat>)
    requires header != [] && row != [] && ShownColumns(header[1..], row[1..], rest)
    ensures ShownColumns(header, row, (if ShowsColumn(header, row, 0) then [0] else []) + Shifted(rest))
  {
    var first: seq<nat> := if ShowsColumn(header, row, 0) then [0] else [];
    forall col ensures col in first + Shifted(rest) <==> ShowsColumn(header, row, col) {
      if col > 0 {
        ShiftedHas(rest, col);
        assert ShowsColumn(header, row, col) <==> ShowsColumn(header[1..], row[1..], col - 1);
      }
    }
  }

  lemma ShiftedHas(cols: seq<nat>, col: int)
    requires col > 0
    ensures col in Shifted(cols) <==> col - 1 in cols
  {
    if col - 1 in cols {
      var i :| 0 <= i < |cols| && cols[i] == col - 1;
      assert Shifted(cols)[i] == col;
    }
  }

  /** No bullet for a row without anything to show; otherwise one, with the first 210 characters of
      its pairs between bars. */
  ghost predicate RowShown(header: seq<string>, row: seq<string>, bullets: seq<string>) {
    exists cols, pairs :: ShownColumns(header, row, cols) && ArePairs(header, row, cols, pairs)
      && if cols == [] then bullets == [] else |bullets| == 1 && CutTo(Join(pairs, " | "), 210, bullets[0])
  }

  lemma RowItemShows(header: seq<string>, row: seq<string>)
    ensures RowShown(header, row, RowItem(header, row))
  {
    var cols := PairsOfColumns(header, row);
    assert ShownColumns(header, row, cols) && ArePairs(header, row, cols, RowPairs(header, row));
  }

  /** Row by row. */
  ghost predicate TableShown(header: seq<string>, rows: seq<seq<string>>, bullets: seq<string>)
    decreases |rows|
  {
    if rows == [] then bullets == []
    else exists k: nat :: k <= |bullets| && LastRowFrom(header, rows, bullets, k)
  }

  ghost predicate LastRowFrom(header: seq<string>, rows: seq<seq<string>>, bullets: seq<string>, k: nat)
    requires rows != [] && k <= |bullets|
    decreases |rows|, 0
  {
    var n := |rows| - 1;
    TableShown(header, rows[..n], bullets[..k]) && RowShown(header, rows[n], bullets[k..])
  }

  lemma {:induction false} TableItemsShow(header: seq<string>, rows: seq<seq<string>>)
    ensures TableShown(header, rows, TableItems(header, rows))
    decreases |rows|
  {
    if rows == [] {
    } else {
      var n := |rows| - 1;
      var front, last := TableItems(header, rows[..n]), RowItem(header, rows[n]);
      TableItemsShow(header, rows[..n]);
      RowItemShows(header, rows[n]);
      assert (front + last)[..|front|] == front && (front + last)[|front|..] == last;
      assert LastRowFrom(header, rows, TableItems(header, rows), |front|);
    }
  }

  // ---------------------------------------------------------------- the bullets of a block

  /** The text in as few bullets as 210 characters allow, without breaking a word. */
  ghost predicate TextShown(text: string, bullets: seq<string>) {
    exists cuts :: GreedySplit(Words(text), 210, cuts, bullets)
  }

  ghost predicate TextsShown(texts: seq<string>, bullets: seq<string>)
    decreases |texts|, 1
  {
    if texts == [] then bullets == []
    else exists k: nat :: k <= |bullets| && LastTextFrom(texts, bullets, k)
  }

  ghost predicate LastTextFrom(texts: seq<string>, bullets: seq<string>, k: nat)
    requires texts != [] && k <= |bullets|
    decreases |texts|, 0
  {
    var n := |texts| - 1;
    TextsShown(texts[..n], bullets[..k]) && TextShown(texts[n], bullets[k..])
  }

  lemma {:induction false} AllChunkedShows(texts: seq<string>, bullets: seq<string>)
    requires AllChunked(texts, bullets)
    ensures TextsShown(texts, bullets)
    decreases |texts|
  {
    if texts == [] {
    } else {
      var n := |texts| - 1;
      var k: nat :| k <= |bullets| && AllChunked(texts[..n], bullets[..k]) && IsChunked(texts[n], bullets[k..]);
      AllChunkedShows(texts[..n], bullets[..k]);
      assert LastTextFrom(texts, bullets, k);
    }
  }

  /** What a block puts on the slides. */
  ghost predicate BlockShown(block: Block, bullets: seq<string>) {
    match block
    case Heading(text, level) => bullets == if level <= 2 then [] else [text]
    case Paragraph(text) => TextShown(text, bullets)
    case List(texts, _) => TextsShown(texts, bullets)
    case Table(rows) => if rows == [] then bullets == [] else TableShown(rows[0], rows[1..], bullets)
    case PageBreak => bullets == []
  }

  /** What is made of any block is shown so. */
  lemma ItemsAreShown(block: Block, bullets: seq<string>)
    requires BlockItems(block, bullets)
    ensures BlockShown(block, bullets)
  {
    match block
    case List(texts, _) => AllChunkedShows(texts, bullets);
    case Table(rows) =>
      if rows != [] {
        TableItemsShow(rows[0], rows[1..]);
      }
    case _ =>
  }

  // ---------------------------------------------------------------- the slides of a document

  lemma {:induction false} OutlineIsFlat(blocks: seq<Block>, items: seq<seq<string>>)
    requires |blocks| == |items|
    ensures Plain(Outline(blocks, items)) == Flat(items)
  {
    if blocks == [] {
    } else {
      var n := |blocks| - 1;
      OutlineIsFlat(blocks[..n], items[..n]);
      var front := Outline(blocks[..n], items[..n]);
      var last := Tag(Take(SectionTitle(blocks[..n]), 100), items[n]);
      assert Plain(front + last) == Plain(front) + items[n];
    }
  }

  /** For every document the parser makes, the slides show its blocks in order: each paragraph and
      item in chunks of 210 characters, each lower heading, and each table row with its headers. */
  lemma SlidesShowBlocks(
    lines: seq<string>, steps: seq<Step>, spec: DocumentSpec,
    items: seq<seq<string>>, sections: seq<Section>, slides: seq<Slide>)
    requires Chained(lines, steps, |lines|) && spec.blocks == AllBlocks(steps)
    requires PlannedSections(spec, items, sections) && IsDeck(sections, slides)
    ensures |items| == |spec.blocks| && forall k :: 0 <= k < |items| ==> BlockShown(spec.blocks[k], items[k])
    ensures Flat(items) != [] ==> Bullets(slides) == Flat(items)
  {
    forall k | 0 <= k < |items| ensures BlockShown(spec.blocks[k], items[k]) {
      ItemsAreShown(spec.blocks[k], items[k]);
    }
    OutlineIsFlat(spec.blocks, items);
    SlidesShowEveryBullet(lines, steps, spec, items, sections, slides);
  }

  // ---------------------------------------------------------------- titles and sizes

  predicate Blank(item: string) {
    Strip(item) == ""
  }

  /** The items in order, without those that are only spaces. */
  predicate WithoutBlanks(items: seq<string>, bullets: seq<string>) {
    if items == [] then bullets == []
    else if Blank(items[0]) then WithoutBlanks(items[1..], bullets)
    else bullets != [] && bullets[0] == items[0] && WithoutBlanks(items[1..], bullets[1..])
  }

  lemma {:induction false} OneItemMore(items: seq<string>, bullets: seq<string>, item: string)
    requires WithoutBlanks(items, bullets)
    ensures WithoutBlanks(items + [item], bullets + if Blank(item) then [] else [item])
  {
    var last := if Blank(item) then [] else [item];
    if items == [] {
      assert items + [item] == [item] && bullets + last == last;
    } else {
      assert (items + [item])[1..] == items[1..] + [item];
      if Blank(items[0]) {
        OneItemMore(items[1..], bullets, item);
      } else {
        OneItemMore(items[1..], bullets[1..], item);
        assert (bullets + last)[1..] == bullets[1..] + last;
      }
    }
  }

  lemma {:induction false} FilledDropsBlanks(items: seq<string>)
    ensures WithoutBlanks(items, SlidePlan.Filled(items))
  {
    if items == [] {
    } else {
      var n := |items| - 1;
      FilledDropsBlanks(items[..n]);
      OneItemMore(items[..n], SlidePlan.Filled(items[..n]), items[n]);
      assert items == items[..n] + [items[n]];
    }
  }

  lemma {:induction false} OneWayOnly(items: seq<string>, a: seq<string>, b: seq<string>)
    requires WithoutBlanks(items, a) && WithoutBlanks(items, b)
    ensures a == b
  {
    if items == [] {
    } else if Blank(items[0]) {
      OneWayOnly(items[1..], a, b);
    } else {
      OneWayOnly(items[1..], a[1..], b[1..]);
      assert a == [a[0]] + a[1..] && b == [b[0]] + b[1..];
    }
  }

  /** The slides of one section: full slides of six bullets and a last one with the rest; the title
      on the first and its continuation on the others, cut to 100 characters; the bullets that are
      more than spaces in order, or the filler if there are none. */
  ghost predicate LooksSo(section: Section, slides: seq<Slide>) {
    && slides != []
    && CutTo(section.title, 100, slides[0].title)
    && (forall k :: 1 <= k < |slides| ==> CutTo(section.title + " — continuação", 100, slides[k].title))
    && (forall k :: 0 <= k < |slides| - 1 ==> |slides[k].bullets| == 6)
    && 1 <= |slides[|slides| - 1].bullets| <= 6
    && if WithoutBlanks(section.items, []) then Bullets(slides) == ["Conteúdo"]
       else WithoutBlanks(section.items, Bullets(slides))
  }

  lemma SectionsLookSo(section: Section, slides: seq<Slide>)
    requires SlidesOf(section, slides)
    ensures LooksSo(section, slides)
  {
    FilledDropsBlanks(section.items);
    if WithoutBlanks(section.items, []) {
      OneWayOnly(section.items, SlidePlan.Filled(section.items), []);
    }
  }

  predicate IsTop(block: Block) {
    block.Heading? && block.level <= 2
  }

  predicate LastTop(blocks: seq<Block>, k: int) {
    0 <= k < |blocks| && IsTop(blocks[k]) && forall j :: k < j < |blocks| ==> !IsTop(blocks[j])
  }

  /** A section is titled by the last heading of level one or two before its end, and by the word for
      summary if there is none. */
  lemma {:induction false} TitleIsLastHeading(blocks: seq<Block>)
    ensures (forall k :: 0 <= k < |blocks| ==> !IsTop(blocks[k])) ==> SectionTitle(blocks) == "Resumo"
    ensures forall k :: LastTop(blocks, k) ==> SectionTitle(blocks) == blocks[k].text
  {
    if blocks == [] {
    } else {
      var n := |blocks| - 1;
      TitleIsLastHeading(blocks[..n]);
      forall k | LastTop(blocks, k) ensures SectionTitle(blocks) == blocks[k].text {
        assert k < n ==> LastTop(blocks[..n], k);
      }
    }
  }
}
