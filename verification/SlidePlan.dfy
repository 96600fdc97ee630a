/** From the blocks of a document to slides of bullets. */
module SlidePlan {
  import opened Common
  import opened Text
  import opened BulletChunks
  import opened DocumentParser

  const MAX_BULLETS := 6
  const MAX_CHARS := 210
  const SUMMARY := "Resumo"
  const FILLER := "Conteúdo"
  const CONTINUED := " — continuação"

  datatype Section = Section(title: string, items: seq<string>)

  datatype Slide = Slide(title: string, bullets: seq<string>)

  // ---------------------------------------------------------------- the bullets of a block

  ghost predicate IsChunked(text: string, out: seq<string>) {
    exists cuts :: GreedySplit(Words(text), MAX_CHARS, cuts, out)
  }

  /** The chunks of several texts, one text after the other. */
  ghost predicate AllChunked(texts: seq<string>, out: seq<string>)
    decreases |texts|
  {
    if texts == [] then out == []
    else
      exists k: nat ::
        k <= |out| && AllChunked(texts[..|texts| - 1], out[..k]) && IsChunked(texts[|texts| - 1], out[k..])
  }

  function RowPairs(header: seq<string>, row: seq<string>): seq<string> {
    if header == [] || row == [] then []
    else
      (if header[0] != "" || row[0] != "" then [header[0] + ": " + row[0]] else [])
      + RowPairs(header[1..], row[1..])
  }

  function RowItem(header: seq<string>, row: seq<string>): seq<string> {
    var pairs := RowPairs(header, row);
    if pairs == [] then [] else [Take(Join(pairs, " | "), MAX_CHARS)]
  }

  function TableItems(header: seq<string>, rows: seq<seq<string>>): seq<string> {
    if rows == [] then [] else TableItems(header, rows[..|rows| - 1]) + RowItem(header, rows[|rows| - 1])
  }

  predicate StartsSection(block: Block) {
    block.Heading? && block.level <= 2
  }

  ghost predicate BlockItems(block: Block, items: seq<string>) {
    match block
    case Heading(text, level) => items == if level <= 2 then [] else [text]
    case Paragraph(text) => IsChunked(text, items)
    case List(texts, _) => AllChunked(texts, items)
    case Table(rows) => items == if rows == [] then [] else TableItems(rows[0], rows[1..])
    case PageBreak => items == []
  }

  method ItemsOfList(texts: seq<string>) returns (items: seq<string>)
    ensures AllChunked(texts, items)
  {
    items := [];
    for k := 0 to |texts|
      invariant AllChunked(texts[..k], items)
    {
      var chunks := BulletChunks.BulletChunks(texts[k], MAX_CHARS);
      OneTextMore(texts, k, items, chunks);
      items := items + chunks;
    }
    assert texts[..|texts|] == texts;
  }

  lemma OneTextMore(texts: seq<string>, k: nat, items: seq<string>, chunks: seq<string>)
    requires k < |texts| && AllChunked(texts[..k], items) && IsChunked(texts[k], chunks)
    ensures AllChunked(texts[..k + 1], items + chunks)
  {
    var n := |items|;
    assert texts[..k + 1][..k] == texts[..k];
    assert (items + chunks)[..n] == items && (items + chunks)[n..] == chunks;
  }

  method ItemsOfTable(header: seq<string>, rows: seq<seq<string>>) returns (items: seq<string>)
    ensures items == TableItems(header, rows)
  {
    items := [];
    for k := 0 to |rows|
      invariant items == TableItems(header, rows[..k])
    {
      assert rows[..k + 1][..k] == rows[..k];
      items := items + RowItem(header, rows[k]);
    }
    assert rows[..|rows|] == rows;
  }

  method ItemsOf(block: Block) returns (items: seq<string>)
    ensures BlockItems(block, items)
  {
    match block
    case Heading(text, level) =>
      items := if level <= 2 then [] else [text];
    case Paragraph(text) =>
      items := BulletChunks.BulletChunks(text, MAX_CHARS);
    case List(texts, _) =>
      items := ItemsOfList(texts);
    case Table(rows) =>
      if rows == [] {
        items := [];
      } else {
        items := ItemsOfTable(rows[0], rows[1..]);
      }
    case PageBreak =>
      items := [];
  }

  // ---------------------------------------------------------------- bullets under their headings

  /** A bullet and the title of the section it belongs to. */
  datatype Tagged = Tagged(title: string, bullet: string)

  function Tag(title: string, items: seq<string>): (r: seq<Tagged>)
    ensures |r| == |items|
    ensures forall k :: 0 <= k < |items| ==> r[k] == Tagged(title, items[k])
  {
    seq(|items|, i requires 0 <= i < |items| => Tagged(title, items[i]))
  }

  /** The text of the last heading of level one or two. */
  function SectionTitle(blocks: seq<Block>): string {
    if blocks == [] then SUMMARY
    else
      var last := blocks[|blocks| - 1];
      if StartsSection(last) then last.text else SectionTitle(blocks[..|blocks| - 1])
  }

  /** All bullets of the document, in order, each with the title of its section. */
  function Outline(blocks: seq<Block>, items: seq<seq<string>>): seq<Tagged>
    requires |blocks| == |items|
  {
    if blocks == [] then []
    else
      var n := |blocks| - 1;
      Outline(blocks[..n], items[..n]) + Tag(Take(SectionTitle(blocks[..n]), 100), items[n])
  }

  function SectionBullets(sections: seq<Section>): seq<Tagged> {
    if sections == [] then []
    else
      var last := sections[|sections| - 1];
      SectionBullets(sections[..|sections| - 1]) + Tag(last.title, last.items)
  }

  ghost predicate ItemsAreOf(blocks: seq<Block>, items: seq<seq<string>>) {
    |blocks| == |items| && forall k :: 0 <= k < |blocks| ==> BlockItems(blocks[k], items[k])
  }

  predicate NoEmptySection(sections: seq<Section>) {
    forall k :: 0 <= k < |sections| ==> sections[k].items != []
  }

  function Flushed(sections: seq<Section>, title: string, items: seq<string>): seq<Section> {
    if items == [] then sections else sections + [Section(Take(title, 100), items)]
  }

  lemma FlushKeepsBullets(sections: seq<Section>, title: string, items: seq<string>)
    ensures SectionBullets(Flushed(sections, title, items)) == SectionBullets(sections) + Tag(Take(title, 100), items)
  {
    if items != [] {
      var s := Section(Take(title, 100), items);
      assert (sections + [s])[..|sections|] == sections;
    }
  }

  lemma TagConcat(title: string, a: seq<string>, b: seq<string>)
    ensures Tag(title, a + b) == Tag(title, a) + Tag(title, b)
  {}

  /** After `k` blocks: the sections closed so far and the one being filled. */
  ghost predicate Halfway(
    blocks: seq<Block>, k: nat, items: seq<seq<string>>,
    sections: seq<Section>, title: string, current: seq<string>)
  {
    && k <= |blocks| && ItemsAreOf(blocks[..k], items) && title == SectionTitle(blocks[..k])
    && SectionBullets(sections) + Tag(Take(title, 100), current) == Outline(blocks[..k], items)
    && NoEmptySection(sections)
  }

  lemma HalfwayGrows(
    blocks: seq<Block>, k: nat, items: seq<seq<string>>,
    sections: seq<Section>, title: string, current: seq<string>, found: seq<string>)
    requires Halfway(blocks, k, items, sections, title, current) && k < |blocks|
    requires BlockItems(blocks[k], found) && !StartsSection(blocks[k])
    ensures Halfway(blocks, k + 1, items + [found], sections, title, current + found)
  {
    OneBlockMore(blocks, k, items, found);
    TagConcat(Take(title, 100), current, found);
    Associate(SectionBullets(sections), Tag(Take(title, 100), current), Tag(Take(title, 100), found));
  }

  lemma HalfwayCuts(
    blocks: seq<Block>, k: nat, items: seq<seq<string>>,
    sections: seq<Section>, title: string, current: seq<string>)
    requires Halfway(blocks, k, items, sections, title, current) && k < |blocks| && BlockItems(blocks[k], [])
    ensures Halfway(blocks, k + 1, items + [[]], Flushed(sections, title, current),
      if StartsSection(blocks[k]) then blocks[k].text else title, [])
  {
    OneBlockMore(blocks, k, items, []);
    FlushKeepsBullets(sections, title, current);
  }

  // ---------------------------------------------------------------- where sections are cut

  /** A heading of level one or two, or a page break. */
  predicate CutsAt(block: Block) {
    (block.Heading? && block.level <= 2) || block.PageBreak?
  }

  function Flat(items: seq<seq<string>>): seq<string> {
    if items == [] then [] else Flat(items[..|items| - 1]) + items[|items| - 1]
  }

  /** A stretch of blocks. */
  datatype Span = Span(first: nat, next: nat)

  /** The section holds the bullets of a whole stretch between two cuts. */
  predicate IsSpan(blocks: seq<Block>, items: seq<seq<string>>, section: Section, span: Span) {
    && span.first <= span.next <= |blocks| && span.next <= |items|
    && (forall j :: span.first <= j < span.next ==> !CutsAt(blocks[j]))
    && (span.first == 0 || CutsAt(blocks[span.first - 1]))
    && (span.next == |blocks| || CutsAt(blocks[span.next]))
    && section.items == Flat(items[span.first..span.next])
  }

  ghost predicate AreSpans(blocks: seq<Block>, items: seq<seq<string>>, sections: seq<Section>, spans: seq<Span>) {
    && |spans| == |sections|
    && (forall k :: 0 <= k < |spans| ==> IsSpan(blocks, items, sections[k], spans[k]))
    && (forall j, k :: 0 <= j < k < |spans| ==> spans[j].next < spans[k].first)
  }

  /** After `k` blocks: the stretches closed so far and the one being filled, which began at `start`. */
  ghost predicate Spanned(
    blocks: seq<Block>, k: nat, items: seq<seq<string>>,
    sections: seq<Section>, spans: seq<Span>, start: nat, current: seq<string>)
  {
    && start <= k <= |blocks| && |items| == k && AreSpans(blocks, items, sections, spans)
    && (forall j :: 0 <= j < |spans| ==> spans[j].next < start)
    && (forall j :: start <= j < k ==> !CutsAt(blocks[j]))
    && (start == 0 || CutsAt(blocks[start - 1]))
    && current == Flat(items[start..k])
  }

  lemma SpansLast(blocks: seq<Block>, items: seq<seq<string>>, sections: seq<Section>, spans: seq<Span>,
      found: seq<string>)
    requires AreSpans(blocks, items, sections, spans)
    ensures AreSpans(blocks, items + [found], sections, spans)
  {
    forall k | 0 <= k < |spans| ensures IsSpan(blocks, items + [found], sections[k], spans[k]) {
      assert IsSpan(blocks, items, sections[k], spans[k]);
      assert (items + [found])[spans[k].first..spans[k].next] == items[spans[k].first..spans[k].next];
    }
  }

  lemma SpannedGrows(
    blocks: seq<Block>, k: nat, items: seq<seq<string>>,
    sections: seq<Section>, spans: seq<Span>, start: nat, current: seq<string>, found: seq<string>)
    requires Spanned(blocks, k, items, sections, spans, start, current) && k < |blocks| && !CutsAt(blocks[k])
    ensures Spanned(blocks, k + 1, items + [found], sections, spans, start, current + found)
  {
    SpansLast(blocks, items, sections, spans, found);
    var more := (items + [found])[start..k + 1];
    assert more[..k - start] == items[start..k];
  }

  /** Closing the stretch at `k`, where there is a cut or the end. */
  lemma SpanCloses(
    blocks: seq<Block>, k: nat, items: seq<seq<string>>,
    sections: seq<Section>, spans: seq<Span>, start: nat, current: seq<string>, title: string)
    requires Spanned(blocks, k, items, sections, spans, start, current) && (k == |blocks| || CutsAt(blocks[k]))
    ensures var closed := Closed(spans, start, k, current);
      && AreSpans(blocks, items, Flushed(sections, title, current), closed)
      && forall j :: 0 <= j < |closed| ==> closed[j].next <= k
  {
    if current != [] {
      var section := Section(Take(title, 100), current);
      assert IsSpan(blocks, items, section, Span(start, k));
      OneSpanMore(blocks, items, sections, spans, section, Span(start, k));
    }
  }

  lemma OneSpanMore(blocks: seq<Block>, items: seq<seq<string>>, sections: seq<Section>, spans: seq<Span>,
      section: Section, span: Span)
    requires AreSpans(blocks, items, sections, spans) && IsSpan(blocks, items, section, span)
    requires forall j :: 0 <= j < |spans| ==> spans[j].next < span.first
    ensures AreSpans(blocks, items, sections + [section], spans + [span])
  {}

  function Closed(spans: seq<Span>, start: nat, k: nat, current: seq<string>): seq<Span> {
    if current == [] then spans else spans + [Span(start, k)]
  }

  lemma SpannedCuts(
    blocks: seq<Block>, k: nat, items: seq<seq<string>>,
    sections: seq<Section>, spans: seq<Span>, start: nat, current: seq<string>, title: string)
    requires Spanned(blocks, k, items, sections, spans, start, current) && k < |blocks| && CutsAt(blocks[k])
    ensures Spanned(blocks, k + 1, items + [[]], Flushed(sections, title, current), Closed(spans, start, k, current),
      k + 1, [])
  {
    SpanCloses(blocks, k, items, sections, spans, start, current, title);
    SpansLast(blocks, items, Flushed(sections, title, current), Closed(spans, start, k, current), []);
  }

  /** What the loop has done after `k` blocks. */
  ghost predicate Underway(
    blocks: seq<Block>, k: nat, items: seq<seq<string>>,
    sections: seq<Section>, spans: seq<Span>, start: nat, title: string, current: seq<string>)
  {
    Halfway(blocks, k, items, sections, title, current) && Spanned(blocks, k, items, sections, spans, start, current)
  }

  lemma UnderwayStarts(blocks: seq<Block>)
    ensures Underway(blocks, 0, [], [], [], 0, SUMMARY, [])
  {}

  lemma UnderwayEnds(
    blocks: seq<Block>, items: seq<seq<string>>,
    sections: seq<Section>, spans: seq<Span>, start: nat, title: string, current: seq<string>)
    requires Underway(blocks, |blocks|, items, sections, spans, start, title, current)
    ensures var flushed := Flushed(sections, title, current);
      && ItemsAreOf(blocks, items) && SectionBullets(flushed) == Outline(blocks, items) && NoEmptySection(flushed)
      && AreSpans(blocks, items, flushed, Closed(spans, start, |blocks|, current))
  {
    assert blocks[..|blocks|] == blocks;
    FlushKeepsBullets(sections, title, current);
    SpanCloses(blocks, |blocks|, items, sections, spans, start, current, title);
  }

  /** The loop over the blocks: sections are cut at headings of level one and two and at page
      breaks, and no bullet changes its place or its heading. */
  method Sections(blocks: seq<Block>)
    returns (sections: seq<Section>, ghost items: seq<seq<string>>, ghost spans: seq<Span>)
    ensures ItemsAreOf(blocks, items) && SectionBullets(sections) == Outline(blocks, items)
    ensures NoEmptySection(sections) && AreSpans(blocks, items, sections, spans)
  {
    sections, items, spans := [], [], [];
    var title, current := SUMMARY, [];
    ghost var start := 0;
    UnderwayStarts(blocks);
    for k := 0 to |blocks|
      invariant Underway(blocks, k, items, sections, spans, start, title, current)
    {
      var block := blocks[k];
      if StartsSection(block) || block.PageBreak? {
        HalfwayCuts(blocks, k, items, sections, title, current);
        SpannedCuts(blocks, k, items, sections, spans, start, current, title);
        spans, start := Closed(spans, start, k, current), k + 1;
        sections := Flushed(sections, title, current);
        title, current := if block.PageBreak? then title else block.text, [];
        items := items + [[]];
      } else {
        var found := ItemsOf(block);
        HalfwayGrows(blocks, k, items, sections, title, current, found);
        SpannedGrows(blocks, k, items, sections, spans, start, current, found);
        current := current + found;
        items := items + [found];
      }
    }
    UnderwayEnds(blocks, items, sections, spans, start, title, current);
    spans := Closed(spans, start, |blocks|, current);
    sections := Flushed(sections, title, current);
  }

  lemma OneBlockMore(blocks: seq<Block>, k: nat, items: seq<seq<string>>, found: seq<string>)
    requires k < |blocks| && ItemsAreOf(blocks[..k], items) && BlockItems(blocks[k], found)
    ensures ItemsAreOf(blocks[..k + 1], items + [found])
    ensures Outline(blocks[..k + 1], items + [found])
      == Outline(blocks[..k], items) + Tag(Take(SectionTitle(blocks[..k]), 100), found)
    ensures SectionTitle(blocks[..k + 1])
      == if StartsSection(blocks[k]) then blocks[k].text else SectionTitle(blocks[..k])
  {
    assert blocks[..k + 1][..k] == blocks[..k] && (items + [found])[..k] == items;
  }

  // ---------------------------------------------------------------- from sections to slides

  predicate IsBlankItem(item: string) {
    Strip(item) == ""
  }

  function Filled(items: seq<string>): (r: seq<string>) {
    if items == [] then []
    else
      var n := |items| - 1;
      Filled(items[..n]) + if IsBlankItem(items[n]) then [] else [items[n]]
  }

  function Safe(items: seq<string>): (r: seq<string>)
    ensures r != []
  {
    if Filled(items) == [] then [FILLER] else Filled(items)
  }

  function SlideTitle(title: string, first: bool): string {
    Take(if first then title else title + CONTINUED, 100)
  }

  /** The slides of one section: full ones, and a last one with the rest. */
  ghost predicate SlidesOf(section: Section, slides: seq<Slide>) {
    && slides != []
    && (forall k :: 0 <= k < |slides| ==> slides[k].title == SlideTitle(section.title, k == 0))
    && (forall k :: 0 <= k < |slides| - 1 ==> |slides[k].bullets| == MAX_BULLETS)
    && 1 <= |slides[|slides| - 1].bullets| <= MAX_BULLETS
    && Bullets(slides) == Safe(section.items)
  }

  function Bullets(slides: seq<Slide>): seq<string> {
    if slides == [] then [] else Bullets(slides[..|slides| - 1]) + slides[|slides| - 1].bullets
  }

  lemma BulletsMore(slides: seq<Slide>, slide: Slide)
    ensures Bullets(slides + [slide]) == Bullets(slides) + slide.bullets
  {
    assert (slides + [slide])[..|slides|] == slides;
  }

  /** The slides made of the first `off` bullets: only the last of them all may not be full. */
  ghost predicate SlidesUpTo(title: string, safe: seq<string>, slides: seq<Slide>, off: nat) {
    && off <= |safe| && Bullets(slides) == safe[..off]
    && (off == 0 <==> slides == [])
    && (forall k :: 0 <= k < |slides| ==> slides[k].title == SlideTitle(title, k == 0))
    && (forall k :: 0 <= k < |slides| ==> 1 <= |slides[k].bullets| <= MAX_BULLETS)
    && (forall k :: 0 <= k < |slides| && (k < |slides| - 1 || off < |safe|) ==> |slides[k].bullets| == MAX_BULLETS)
  }

  lemma NextSlide(title: string, safe: seq<string>, slides: seq<Slide>, off: nat, end: nat)
    requires SlidesUpTo(title, safe, slides, off) && off < |safe|
    requires end == if off + MAX_BULLETS < |safe| then off + MAX_BULLETS else |safe|
    ensures SlidesUpTo(title, safe, slides + [Slide(SlideTitle(title, off == 0), safe[off..end])], end)
  {
    BulletsMore(slides, Slide(SlideTitle(title, off == 0), safe[off..end]));
    assert safe[..end] == safe[..off] + safe[off..end];
  }

  method SlidesOfSection(section: Section) returns (slides: seq<Slide>)
    ensures SlidesOf(section, slides)
  {
    var safe := Safe(section.items);
    slides := [];
    var off := 0;
    while off < |safe|
      invariant SlidesUpTo(section.title, safe, slides, off)
    {
      var end := if off + MAX_BULLETS < |safe| then off + MAX_BULLETS else |safe|;
      NextSlide(section.title, safe, slides, off, end);
      slides := slides + [Slide(SlideTitle(section.title, off == 0), safe[off..end])];
      off := end;
    }
    assert safe[..|safe|] == safe;
  }

  // ---------------------------------------------------------------- the deck

  /** The deck, section by section. */
  ghost predicate IsDeck(sections: seq<Section>, slides: seq<Slide>)
    decreases |sections|, 1
  {
    if sections == [] then slides == []
    else exists k: nat :: k <= |slides| && LastFrom(sections, slides, k)
  }

  /** The last section has the slides from the `k`th on. */
  ghost predicate LastFrom(sections: seq<Section>, slides: seq<Slide>, k: nat)
    requires sections != [] && k <= |slides|
    decreases |sections|, 0
  {
    var n := |sections| - 1;
    IsDeck(sections[..n], slides[..k]) && SlidesOf(sections[n], slides[k..])
  }

  lemma DeckMore(sections: seq<Section>, k: nat, slides: seq<Slide>, more: seq<Slide>)
    requires k < |sections| && IsDeck(sections[..k], slides) && SlidesOf(sections[k], more)
    ensures IsDeck(sections[..k + 1], slides + more)
  {
    assert sections[..k + 1][..k] == sections[..k];
    assert (slides + more)[..|slides|] == slides && (slides + more)[|slides|..] == more;
    assert LastFrom(sections[..k + 1], slides + more, |slides|);
  }

  method Deck(sections: seq<Section>) returns (slides: seq<Slide>)
    ensures IsDeck(sections, slides)
  {
    slides := [];
    for k := 0 to |sections|
      invariant IsDeck(sections[..k], slides)
    {
      var more := SlidesOfSection(sections[k]);
      DeckMore(sections, k, slides, more);
      slides := slides + more;
    }
    assert sections[..|sections|] == sections;
  }

  /** The sections of the deck: those of the blocks, or the semantic text as one section when the
      blocks give none. */
  ghost predicate PlannedSections(spec: DocumentSpec, items: seq<seq<string>>, sections: seq<Section>) {
    && ItemsAreOf(spec.blocks, items)
    && if Outline(spec.blocks, items) == [] && spec.semanticText != "" then
         |sections| == 1 && sections[0].title == SUMMARY && IsChunked(spec.semanticText, sections[0].items)
       else
         && SectionBullets(sections) == Outline(spec.blocks, items) && NoEmptySection(sections)
         && exists spans :: AreSpans(spec.blocks, items, sections, spans)
  }

  lemma {:induction false} NoSectionNoBullet(sections: seq<Section>)
    requires NoEmptySection(sections)
    ensures SectionBullets(sections) == [] <==> sections == []
  {
    if sections == [] {
    } else {
      assert Tag(sections[|sections| - 1].title, sections[|sections| - 1].items) != [];
    }
  }

  method BuildSlidePlan(spec: DocumentSpec)
    returns (title: string, slides: seq<Slide>, ghost sections: seq<Section>, ghost items: seq<seq<string>>)
    ensures title == Take(spec.title, 100)
    ensures PlannedSections(spec, items, sections) && IsDeck(sections, slides)
  {
    var cut;
    ghost var spans;
    cut, items, spans := Sections(spec.blocks);
    assert AreSpans(spec.blocks, items, cut, spans);
    NoSectionNoBullet(cut);
    if cut == [] && spec.semanticText != "" {
      var chunks := BulletChunks.BulletChunks(spec.semanticText, MAX_CHARS);
      cut := [Section(SUMMARY, chunks)];
    }
    sections := cut;
    slides := Deck(cut);
    title := Take(spec.title, 100);
  }
}
