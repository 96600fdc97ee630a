/** Every bullet of a parsed document reaches its slide. */
module SlideTheorems {
  import opened Common
  import opened Text
  import opened WordOrder
  import opened LineSyntax
  import opened BulletChunks
  import opened DocumentParser
  import opened SlidePlan

  /** Some text, starting right away. */
  predicate Bold(s: string) {
    s != "" && !IsSpace(s[0])
  }

  predicate AllBold(items: seq<string>) {
    forall k :: 0 <= k < |items| ==> Bold(items[k])
  }

  lemma BoldIsNotBlank(s: string)
    requires Bold(s)
    ensures !IsBlankItem(s)
  {
    WordsOfStrip(s);
    FirstWord(s);
  }

  lemma CleanIsBold(s: string)
    ensures Clean(s) == "" || Bold(Clean(s))
  {
    CleanIsJoin(s);
    WordsAreWords(s);
    if Words(s) != [] {
      JoinEnds(Words(s));
    }
  }

  // ---------------------------------------------------------------- the parser writes clean blocks

  predicate CleanCells(rows: seq<seq<string>>) {
    forall j, k :: 0 <= j < |rows| && 0 <= k < |rows[j]| ==> rows[j][k] == "" || Bold(rows[j][k])
  }

  predicate TidyBlock(block: Block) {
    match block
    case Heading(text, _) => Bold(text)
    case Table(rows) => CleanCells(rows)
    case _ => true
  }

  lemma {:induction false} CleanAllBold(parts: seq<string>)
    ensures forall k :: 0 <= k < |parts| ==> CleanAll(parts)[k] == "" || Bold(CleanAll(parts)[k])
  {
    if parts == [] {
    } else {
      CleanIsBold(parts[0]);
      CleanAllBold(parts[1..]);
    }
  }

  lemma PaddedCells(rows: seq<seq<string>>, padded: seq<seq<string>>, cols: nat)
    requires PaddedTo(rows, padded, cols) && CleanCells(rows)
    ensures CleanCells(padded)
  {}

  lemma RowsAreClean(lines: seq<string>)
    ensures CleanCells(RowsOf(lines))
  {
    forall j | 0 <= j < |lines|
      ensures forall k :: 0 <= k < |RowsOf(lines)[j]| ==> RowsOf(lines)[j][k] == "" || Bold(RowsOf(lines)[j][k])
    {
      CleanAllBold(SplitPipes(StripPipes(Strip(lines[j]))));
    }
  }

  lemma TableIsTidy(lines: seq<string>, st: Step)
    requires IsTableStep(lines, st)
    ensures forall block :: block in st.blocks ==> TidyBlock(block)
  {
    var rowLines := RowLines(lines, st.first, st.next);
    var padded, cols :| MakesTable(rowLines, st, padded, cols);
    RowsAreClean(rowLines);
    PaddedCells(RowsOf(rowLines), padded, cols);
  }

  lemma HeadingIsTidy(body: string)
    requires Bold(body)
    ensures Bold(Clean(body))
  {
    CleanIsBold(body);
    FirstWord(body);
    CleanKeepsWords(body);
  }

  lemma ParsedBlocksAreTidy(lines: seq<string>, st: Step)
    requires IsStep(lines, st)
    ensures forall block :: block in st.blocks ==> TidyBlock(block)
  {
    var line := lines[st.first];
    var heading := HeadingOf(Strip(line));
    if IsBlank(line) || IsPageBreak(Strip(line)) {
    } else if heading.Some? {
      HeadingIsTidy(heading.value.body);
    } else if IsTableStart(lines, st.first) {
      TableIsTidy(lines, st);
    }
  }

  predicate TidyBlocks(blocks: seq<Block>) {
    forall k :: 0 <= k < |blocks| ==> TidyBlock(blocks[k])
  }

  lemma TidyConcat(a: seq<Block>, b: seq<Block>)
    requires TidyBlocks(a) && forall block :: block in b ==> TidyBlock(block)
    ensures TidyBlocks(a + b)
  {
    assert forall k :: 0 <= k < |b| ==> b[k] in b;
  }

  lemma {:induction false} AllBlocksAreTidy(lines: seq<string>, steps: seq<Step>)
    requires forall k :: 0 <= k < |steps| ==> IsStep(lines, steps[k])
    ensures TidyBlocks(AllBlocks(steps))
  {
    if steps == [] {
    } else {
      var n := |steps| - 1;
      AllBlocksAreTidy(lines, steps[..n]);
      LastIsTidy(lines, steps);
      TidyConcat(AllBlocks(steps[..n]), steps[n].blocks);
    }
  }

  lemma LastIsTidy(lines: seq<string>, steps: seq<Step>)
    requires steps != [] && forall k :: 0 <= k < |steps| ==> IsStep(lines, steps[k])
    ensures forall block :: block in steps[|steps| - 1].blocks ==> TidyBlock(block)
  {
    ParsedBlocksAreTidy(lines, steps[|steps| - 1]);
  }

  // ---------------------------------------------------------------- so no bullet is blank

  lemma ChunksAreBold(text: string, out: seq<string>)
    requires IsChunked(text, out)
    ensures AllBold(out)
  {
    var cuts :| GreedySplit(Words(text), MAX_CHARS, cuts, out);
    var ws := Words(text);
    WordsAreWords(text);
    forall k | 0 <= k < |out| ensures Bold(out[k]) {
      assert IsChunk(ws, cuts[k], cuts[k + 1], out[k]);
      assert Fits(ws, MAX_CHARS, cuts[k + 1 - 1], cuts[k + 1]);
      JoinEnds(ws[cuts[k]..cuts[k + 1]]);
    }
  }

  lemma {:induction false} AllChunksAreBold(texts: seq<string>, out: seq<string>)
    requires AllChunked(texts, out)
    ensures AllBold(out)
    decreases |texts|
  {
    if texts == [] {
    } else {
      var k: nat :| k <= |out| && AllChunked(texts[..|texts| - 1], out[..k]) && IsChunked(texts[|texts| - 1], out[k..]);
      AllChunksAreBold(texts[..|texts| - 1], out[..k]);
      ChunksAreBold(texts[|texts| - 1], out[k..]);
      assert out == out[..k] + out[k..];
    }
  }

  predicate CleanRow(row: seq<string>) {
    forall k :: 0 <= k < |row| ==> row[k] == "" || Bold(row[k])
  }

  lemma {:induction false} PairsAreBold(header: seq<string>, row: seq<string>)
    requires CleanRow(header) && CleanRow(row)
    ensures AllBold(RowPairs(header, row))
  {
    if header == [] || row == [] {
    } else {
      PairsAreBold(header[1..], row[1..]);
      var pair := header[0] + ": " + row[0];
      assert Bold(pair) by {
        assert header[0] == "" ==> pair[0] == ':';
      }
    }
  }

  lemma RowItemIsBold(header: seq<string>, row: seq<string>)
    requires CleanRow(header) && CleanRow(row)
    ensures AllBold(RowItem(header, row))
  {
    var pairs := RowPairs(header, row);
    PairsAreBold(header, row);
    if pairs != [] {
      assert Bold(Join(pairs, " | "));
    }
  }

  lemma {:induction false} TableItemsAreBold(header: seq<string>, rows: seq<seq<string>>)
    requires CleanRow(header) && forall j :: 0 <= j < |rows| ==> CleanRow(rows[j])
    ensures AllBold(TableItems(header, rows))
  {
    if rows == [] {
    } else {
      TableItemsAreBold(header, rows[..|rows| - 1]);
      RowItemIsBold(header, rows[|rows| - 1]);
    }
  }

  lemma ItemsAreBold(block: Block, items: seq<string>)
    requires TidyBlock(block) && BlockItems(block, items)
    ensures AllBold(items)
  {
    match block
    case Heading(_, _) =>
    case Paragraph(text) => ChunksAreBold(text, items);
    case List(texts, _) => AllChunksAreBold(texts, items);
    case Table(rows) =>
      if rows != [] {
        assert CleanRow(rows[0]) && forall j :: 0 <= j < |rows[1..]| ==> CleanRow(rows[1..][j]);
        TableItemsAreBold(rows[0], rows[1..]);
      }
    case PageBreak =>
  }

  // ---------------------------------------------------------------- the deck shows the outline

  function Plain(tagged: seq<Tagged>): (r: seq<string>)
    ensures |r| == |tagged|
    ensures forall k :: 0 <= k < |tagged| ==> r[k] == tagged[k].bullet
  {
    seq(|tagged|, i requires 0 <= i < |tagged| => tagged[i].bullet)
  }

  lemma {:induction false} OutlineIsBold(blocks: seq<Block>, items: seq<seq<string>>)
    requires ItemsAreOf(blocks, items) && TidyBlocks(blocks)
    ensures AllBold(Plain(Outline(blocks, items)))
  {
    if blocks == [] {
    } else {
      var n := |blocks| - 1;
      OutlineIsBold(blocks[..n], items[..n]);
      ItemsAreBold(blocks[n], items[n]);
    }
  }

  lemma {:induction false} BoldIsFilled(items: seq<string>)
    requires AllBold(items)
    ensures SlidePlan.Filled(items) == items
  {
    if items == [] {
    } else {
      var n := |items| - 1;
      BoldIsFilled(items[..n]);
      BoldIsNotBlank(items[n]);
      assert items == items[..n] + [items[n]];
    }
  }

  lemma {:induction false} BulletsConcat(a: seq<Slide>, b: seq<Slide>)
    ensures Bullets(a + b) == Bullets(a) + Bullets(b)
  {
    if b == [] {
      assert a + b == a;
    } else {
      var front, last := b[..|b| - 1], b[|b| - 1];
      BulletsConcat(a, front);
      BulletsMore(a + front, last);
      LastApart(a, b);
      Associate(Bullets(a), Bullets(front), last.bullets);
    }
  }

  lemma {:induction false} DeckShowsSections(sections: seq<Section>, slides: seq<Slide>)
    requires IsDeck(sections, slides) && NoEmptySection(sections) && AllBold(Plain(SectionBullets(sections)))
    ensures Bullets(slides) == Plain(SectionBullets(sections))
    decreases |sections|
  {
    if sections == [] {
    } else {
      var n := |sections| - 1;
      var front, back := LastSection(sections, slides);
      NoneEmptyBefore(sections);
      SplitBold(sections);
      DeckShowsSections(sections[..n], front);
      SlidesShowSection(sections[n], back);
      BulletsConcat(front, back);
    }
  }

  lemma NoneEmptyBefore(sections: seq<Section>)
    requires sections != [] && NoEmptySection(sections)
    ensures NoEmptySection(sections[..|sections| - 1]) && sections[|sections| - 1].items != []
  {}

  lemma LastSection(sections: seq<Section>, slides: seq<Slide>) returns (front: seq<Slide>, back: seq<Slide>)
    requires sections != [] && IsDeck(sections, slides)
    ensures slides == front + back && SlidesOf(sections[|sections| - 1], back)
    ensures IsDeck(sections[..|sections| - 1], front)
  {
    var k: nat :| k <= |slides| && LastFrom(sections, slides, k);
    front, back := slides[..k], slides[k..];
  }

  lemma SlidesShowSection(section: Section, slides: seq<Slide>)
    requires SlidesOf(section, slides) && section.items != [] && AllBold(section.items)
    ensures Bullets(slides) == section.items
  {
    BoldIsFilled(section.items);
  }

  lemma SplitBold(sections: seq<Section>)
    requires sections != [] && AllBold(Plain(SectionBullets(sections)))
    ensures var n := |sections| - 1;
      && AllBold(Plain(SectionBullets(sections[..n]))) && AllBold(sections[n].items)
      && Plain(SectionBullets(sections)) == Plain(SectionBullets(sections[..n])) + sections[n].items
  {
    var n := |sections| - 1;
    var front, last := SectionBullets(sections[..n]), Tag(sections[n].title, sections[n].items);
    assert SectionBullets(sections) == front + last;
    assert Plain(front + last) == Plain(front) + Plain(last) && Plain(last) == sections[n].items;
    BoldParts(Plain(front), Plain(last));
  }

  lemma BoldParts(a: seq<string>, b: seq<string>)
    requires AllBold(a + b)
    ensures AllBold(a) && AllBold(b)
  {
    var both := a + b;
    assert both[..|a|] == a && both[|a|..] == b;
  }

  /** For every document the parser makes, the slides show exactly the bullets of its blocks, in
      order: none is dropped, split over slides, or replaced by the filler. */
  lemma SlidesShowEveryBullet(
    lines: seq<string>, steps: seq<Step>, spec: DocumentSpec,
    items: seq<seq<string>>, sections: seq<Section>, slides: seq<Slide>)
    requires Chained(lines, steps, |lines|) && spec.blocks == AllBlocks(steps)
    requires PlannedSections(spec, items, sections) && IsDeck(sections, slides)
    ensures Outline(spec.blocks, items) != [] ==> Bullets(slides) == Plain(Outline(spec.blocks, items))
  {
    AllBlocksAreTidy(lines, steps);
    OutlineIsBold(spec.blocks, items);
    if Outline(spec.blocks, items) != [] {
      DeckShowsSections(sections, slides);
    }
  }

  lemma {:induction false} NoTextNoChunks(ws: seq<string>, cuts: seq<nat>, out: seq<string>)
    requires GreedySplit(ws, MAX_CHARS, cuts, out)
    ensures out == [] <==> ws == []
  {
    if out == [] {
    } else {
      assert Fits(ws, MAX_CHARS, cuts[1 - 1], cuts[1]);
    }
  }

  /** A document without bullets of its own is shown as its semantic text, word for word; if that
      text has no words either, the deck is empty or, for a text of spaces, the filler. */
  lemma BareDocumentShowsItsText(spec: DocumentSpec, items: seq<seq<string>>, sections: seq<Section>,
      slides: seq<Slide>)
    requires PlannedSections(spec, items, sections) && IsDeck(sections, slides) && Outline(spec.blocks, items) == []
    ensures Words(spec.semanticText) != [] ==> Words(Join(Bullets(slides), " ")) == Words(spec.semanticText)
    ensures Words(spec.semanticText) == [] ==> Bullets(slides) == if spec.semanticText == "" then [] else [FILLER]
  {
    if spec.semanticText == "" {
      NoSectionNoBullet(sections);
    } else {
      var chunks := sections[0].items;
      BareChunks(spec.semanticText, chunks);
      OneSection(sections, slides);
    }
  }

  lemma OneSection(sections: seq<Section>, slides: seq<Slide>)
    requires |sections| == 1 && IsDeck(sections, slides)
    ensures Bullets(slides) == Safe(sections[0].items)
  {
    var k: nat :| k <= |slides| && LastFrom(sections, slides, k);
    assert IsDeck(sections[..0], slides[..k]) && sections[..0] == [];
    assert slides[..k] == [] && slides[k..] == slides;
  }

  lemma BareChunks(text: string, chunks: seq<string>)
    requires IsChunked(text, chunks)
    ensures Words(text) != [] ==> Safe(chunks) == chunks && Words(Join(chunks, " ")) == Words(text)
    ensures Words(text) == [] ==> Safe(chunks) == [FILLER]
  {
    var cuts :| GreedySplit(Words(text), MAX_CHARS, cuts, chunks);
    ChunksAreBold(text, chunks);
    SplitKeepsEveryWord(text, MAX_CHARS, cuts, chunks);
    NoTextNoChunks(Words(text), cuts, chunks);
    BoldIsFilled(chunks);
  }

  /** The parser strips its semantic text, so the filler is never shown: a parsed document without
      bullets is shown as its text, and without text it has no slides. */
  lemma ParsedDocumentNeverShowsFiller(spec: DocumentSpec, texts: seq<string>, items: seq<seq<string>>,
                                       sections: seq<Section>, slides: seq<Slide>)
    requires spec.semanticText == Strip(Join(texts, "\n"))
    requires PlannedSections(spec, items, sections) && IsDeck(sections, slides) && Outline(spec.blocks, items) == []
    ensures spec.semanticText == "" ==> Bullets(slides) == []
    ensures Words(Join(Bullets(slides), " ")) == Words(spec.semanticText)
  {
    StrippedHasWords(Join(texts, "\n"));
    BareDocumentShowsItsText(spec, items, sections, slides);
    assert Join([], " ") == "" && Words("") == [];
  }

  lemma StrippedHasWords(s: string)
    ensures Strip(s) == "" || Words(Strip(s)) != []
  {
    if Strip(s) != "" {
      WordsOfStrip(s);
    }
  }
}
