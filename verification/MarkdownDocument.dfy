/** The whole rendered document: its markup is only the renderer's, its counts and contents list
    are those of the source, and the imperative renderer produces it. */
module MarkdownDocument {
  import opened Decimals
  import opened Markdown
  import opened MarkdownInline
  import opened Sequences
  import opened Wrappers

  function ListName(kind: ListKind): Name {
    if kind == Bullets then Ul else Ol
  }

  function PieceText(p: Piece): string {
    match p
    case OpenList(kind) => TagText(Open(ListName(kind)))
    case CloseList(kind) => TagText(Close(ListName(kind)))
    case Item(html) => html
    case Standing(html) => html
  }

  /** `out.join("\n")` */
  function Html(out: seq<Piece>): string {
    if out == [] then ""
    else if |out| == 1 then PieceText(out[0])
    else Html(out[..|out| - 1]) + "\n" + PieceText(out[|out| - 1])
  }

  // ----- Only the renderer's markup

  lemma WrapIsSafe(n: Name, html: string)
    requires Safe(html)
    ensures Safe(Wrap(n, html))
  {
    TagsAround(Open(n), html, Close(n));
  }

  lemma {:induction false} CellsAreSafe(n: Name, cells: seq<string>)
    ensures Safe(CellsHtml(n, cells))
  {
    if cells == [] {
      PlainIsSafe("");
    } else {
      var last := cells[|cells| - 1];
      CellsAreSafe(n, cells[..|cells| - 1]);
      InlineIsSafe(last);
      WrapIsSafe(n, RenderInline(last));
      SafeJoin(CellsHtml(n, cells[..|cells| - 1]), Wrap(n, RenderInline(last)));
    }
  }

  lemma {:induction false} RowsAreSafe(rows: seq<seq<string>>)
    ensures Safe(RowsHtml(rows))
  {
    if rows == [] {
      PlainIsSafe("");
    } else {
      var front, last := rows[..|rows| - 1], rows[|rows| - 1];
      RowsAreSafe(front);
      CellsAreSafe(Cell, last);
      WrapIsSafe(TableRow, CellsHtml(Cell, last));
      SafeJoin(RowsHtml(front), Wrap(TableRow, CellsHtml(Cell, last)));
    }
  }

  lemma TableIsSafe(header: seq<string>, rows: seq<seq<string>>)
    ensures Safe(TableHtml(header, rows))
  {
    var cells := CellsHtml(HeadCell, header);
    CellsAreSafe(HeadCell, header);
    WrapIsSafe(TableRow, cells);
    WrapIsSafe(Head, Wrap(TableRow, cells));
    RowsAreSafe(rows);
    WrapIsSafe(Body, RowsHtml(rows));
    SafeJoin(Wrap(Head, Wrap(TableRow, cells)), Wrap(Body, RowsHtml(rows)));
    WrapIsSafe(Table, Wrap(Head, Wrap(TableRow, cells)) + Wrap(Body, RowsHtml(rows)));
  }

  lemma FenceHeadIsSafe(lang: string)
    ensures Safe(if lang == "" then TagText(Open(Code)) else TagText(Lang) + "language-" + EscapeHtml(lang) + "\">")
  {
    TagIsSafe(Open(Code));
    TagIsSafe(Lang);
    PlainIsSafe("language-");
    PlainIsSafe(EscapeHtml(lang));
    PlainIsSafe("\">");
    SafeJoin3(TagText(Lang), "language-", EscapeHtml(lang));
    SafeJoin(TagText(Lang) + "language-" + EscapeHtml(lang), "\">");
  }

  lemma FenceIsSafe(lang: string, body: seq<string>)
    ensures Safe(FenceHtml(lang, body))
  {
    var head := if lang == "" then TagText(Open(Code)) else TagText(Lang) + "language-" + EscapeHtml(lang) + "\">";
    var text := EscapeHtml(JoinWith(body, "\n"));
    FenceHeadIsSafe(lang);
    TagIsSafe(Open(Pre));
    TagIsSafe(Close(Code));
    TagIsSafe(Close(Pre));
    PlainIsSafe(text);
    PlainIsSafe("\n");
    SafeJoin3(TagText(Open(Pre)), head, text);
    SafeJoin3(TagText(Open(Pre)) + head + text, "\n", TagText(Close(Code)));
    SafeJoin(TagText(Open(Pre)) + head + text + "\n" + TagText(Close(Code)), TagText(Close(Pre)));
  }

  lemma HeadingIsSafe(level: nat, text: string, slug: string)
    requires Safe(slug)
    ensures Safe(HeadingHtml(level, text, slug))
  {
    TagIsSafe(Heading(level));
    TagIsSafe(EndHeading(level));
    PlainIsSafe("\">");
    InlineIsSafe(text);
    SafeJoin3(TagText(Heading(level)), slug, "\">");
    SafeJoin3(TagText(Heading(level)) + slug + "\">", RenderInline(text), TagText(EndHeading(level)));
  }

  lemma ItemIsSafe(item: ItemParts)
    ensures Safe(ItemHtml(item))
  {
    var box := if item.checked == None then "" else CheckboxHtml(item.checked.value);
    BoxIsSafe(item.checked);
    InlineIsSafe(item.text);
    SafeJoin(box, RenderInline(item.text));
    WrapIsSafe(ListItem, box + RenderInline(item.text));
  }

  lemma BoxIsSafe(checked: Option<bool>)
    ensures Safe(if checked == None then "" else CheckboxHtml(checked.value))
  {
    if checked == None {
      PlainIsSafe("");
    } else {
      var attrs := if checked.value then "checked disabled" else "disabled";
      TagIsSafe(Checkbox);
      PlainIsSafe("\"checkbox\" ");
      PlainIsSafe(attrs);
      PlainIsSafe(">");
      SafeJoin3(TagText(Checkbox), "\"checkbox\" ", attrs);
      SafeJoin(TagText(Checkbox) + "\"checkbox\" " + attrs, ">");
    }
  }

  lemma BlockIsSafe(b: Block)
    requires !b.ItemBlock? && !b.BlankBlock?
    ensures Safe(BlockHtml(b, ""))
  {
    match b
    case FenceBlock(lang, body) => FenceIsSafe(lang, body);
    case HeadingBlock(level, text) =>
      PlainIsSafe("");
      HeadingIsSafe(level, text, "");
    case RuleBlock => TagIsSafe(Open(Rule));
    case QuoteBlock(body) =>
      InlineIsSafe(JoinWith(body, " "));
      WrapIsSafe(Quote, RenderInline(JoinWith(body, " ")));
    case TableBlock(header, rows) => TableIsSafe(header, rows);
    case ParagraphBlock(body) =>
      InlineIsSafe(JoinWith(body, " "));
      WrapIsSafe(Para, RenderInline(JoinWith(body, " ")));
  }

  lemma SlugIsSafe(text: string, lower: string -> string, count: nat)
    ensures Safe(SlugOf(SlugBase(text, lower), count))
  {
    var base, digits := SlugBase(text, lower), Decimal(count);
    forall i | 0 <= i < |digits| ensures digits[i] != '<' {
      assert IsDigit(digits[i]);
    }
    PlainIsSafe(base);
    PlainIsSafe(digits);
    PlainIsSafe("-");
    SafeJoin3(base, "-", digits);
  }

  ghost predicate AllSafe(out: seq<Piece>) {
    forall i :: 0 <= i < |out| ==> Safe(PieceText(out[i]))
  }

  lemma {:induction false} CloseIsSafe(d: Doc, depth: nat)
    requires AllSafe(d.out)
    ensures AllSafe(CloseTo(d, depth).out)
    decreases |d.open|
  {
    if |d.open| > depth {
      var last := |d.open| - 1;
      TagIsSafe(Close(ListName(d.open[last])));
      CloseIsSafe(d.(open := d.open[..last], out := d.out + [CloseList(d.open[last])]), depth);
    }
  }

  lemma {:induction false} OpenIsSafe(d: Doc, kind: ListKind, depth: nat)
    requires AllSafe(d.out)
    ensures AllSafe(OpenTo(d, kind, depth).out)
    decreases depth - |d.open|
  {
    if |d.open| < depth {
      TagIsSafe(Open(ListName(kind)));
      OpenIsSafe(d.(open := d.open + [kind], out := d.out + [OpenList(kind)]), kind, depth);
    }
  }

  lemma AddIsSafe(d: Doc, b: Block, lower: string -> string)
    requires AllSafe(d.out)
    ensures AllSafe(Add(d, b, lower).out)
  {
    CloseIsSafe(d, 0);
    match b
    case ItemBlock(item) =>
      CloseIsSafe(d, item.depth);
      OpenIsSafe(CloseTo(d, item.depth), item.kind, item.depth);
      ItemIsSafe(item);
    case BlankBlock =>
    case HeadingBlock(level, text) =>
      var base := SlugBase(text, lower);
      SlugIsSafe(text, lower, CountFor(CloseTo(d, 0).seen, base));
      HeadingIsSafe(level, text, SlugOf(base, CountFor(CloseTo(d, 0).seen, base)));
    case _ => BlockIsSafe(b);
  }

  lemma {:induction false} AddAllIsSafe(d: Doc, blocks: seq<Block>, lower: string -> string)
    requires AllSafe(d.out)
    ensures AllSafe(AddAll(d, blocks, lower).out)
    decreases |blocks|
  {
    if blocks != [] {
      AddIsSafe(d, blocks[0], lower);
      AddAllIsSafe(Add(d, blocks[0], lower), blocks[1..], lower);
    }
  }

  lemma {:induction false} HtmlIsSafe(out: seq<Piece>)
    requires AllSafe(out)
    ensures Safe(Html(out))
  {
    if out == [] {
      PlainIsSafe("");
    } else if |out| > 1 {
      HtmlIsSafe(out[..|out| - 1]);
      PlainIsSafe("\n");
      SafeJoin3(Html(out[..|out| - 1]), "\n", PieceText(out[|out| - 1]));
    }
  }

  /** For every source text, every raw `<` of the document begins one of the renderer's own tags. */
  lemma DocumentIsSafe(src: string, lower: string -> string)
    ensures Safe(Html(Rendered(src, lower).out))
  {
    var blocks := Blocks(SplitOn(StripDocFrontmatter(src), '\n', 0), 0);
    AddAllIsSafe(EMPTY, blocks, lower);
    CloseIsSafe(AddAll(EMPTY, blocks, lower), 0);
    HtmlIsSafe(Rendered(src, lower).out);
  }

  // ----- Progress and contents

  function Boxes(blocks: seq<Block>): seq<bool> {
    if blocks == [] then []
    else
      (if blocks[0].ItemBlock? && blocks[0].item.checked != None then [blocks[0].item.checked.value] else [])
      + Boxes(blocks[1..])
  }

  function Ticks(boxes: seq<bool>): (r: nat)
    ensures r <= |boxes|
  {
    if boxes == [] then 0 else (if boxes[0] then 1 else 0) + Ticks(boxes[1..])
  }

  function Headings(blocks: seq<Block>): seq<(nat, string)> {
    if blocks == [] then []
    else (if blocks[0].HeadingBlock? then [(blocks[0].level, blocks[0].text)] else []) + Headings(blocks[1..])
  }

  function Entries(toc: seq<TocEntry>): seq<(nat, string)> {
    seq(|toc|, i requires 0 <= i < |toc| => (toc[i].level, toc[i].text))
  }

  lemma {:induction false} CloseKeeps(d: Doc, depth: nat)
    ensures CloseTo(d, depth).toc == d.toc && CloseTo(d, depth).done == d.done && CloseTo(d, depth).total == d.total
    decreases |d.open|
  {
    if |d.open| > depth {
      var last := |d.open| - 1;
      CloseKeeps(d.(open := d.open[..last], out := d.out + [CloseList(d.open[last])]), depth);
    }
  }

  lemma {:induction false} OpenKeeps(d: Doc, kind: ListKind, depth: nat)
    ensures var e := OpenTo(d, kind, depth);
            e.toc == d.toc && e.done == d.done && e.total == d.total
    decreases depth - |d.open|
  {
    if |d.open| < depth {
      OpenKeeps(d.(open := d.open + [kind], out := d.out + [OpenList(kind)]), kind, depth);
    }
  }

  /** What the blocks add to the counts and the contents list. */
  predicate Gains(d: Doc, e: Doc, blocks: seq<Block>) {
    && e.total == d.total + |Boxes(blocks)| && e.done == d.done + Ticks(Boxes(blocks))
    && Entries(e.toc) == Entries(d.toc) + Headings(blocks)
  }

  lemma AddCounts(d: Doc, b: Block, lower: string -> string)
    ensures Gains(d, Add(d, b, lower), [b])
  {
    CloseKeeps(d, 0);
    assert [b][1..] == [] && Boxes([]) == [] && Headings([]) == [];
    if b.ItemBlock? {
      CloseKeeps(d, b.item.depth);
      OpenKeeps(CloseTo(d, b.item.depth), b.item.kind, b.item.depth);
    }
  }

  lemma TicksJoin(a: seq<bool>, b: seq<bool>)
    ensures Ticks(a + b) == Ticks(a) + Ticks(b)
  {
    if a == [] {
      assert a + b == b;
    } else {
      assert (a + b)[1..] == a[1..] + b;
      TicksJoin(a[1..], b);
    }
  }

  lemma OneThenRest(b: Block, rest: seq<Block>)
    ensures Boxes([b] + rest) == Boxes([b]) + Boxes(rest)
    ensures Headings([b] + rest) == Headings([b]) + Headings(rest)
  {
    assert ([b] + rest)[1..] == rest && [b][1..] == [];
  }

  lemma GainsChain(d: Doc, e: Doc, f: Doc, b: Block, rest: seq<Block>)
    requires Gains(d, e, [b]) && Gains(e, f, rest)
    ensures Gains(d, f, [b] + rest)
  {
    OneThenRest(b, rest);
    TicksJoin(Boxes([b]), Boxes(rest));
  }

  lemma {:induction false} AddAllCounts(d: Doc, blocks: seq<Block>, lower: string -> string)
    ensures Gains(d, AddAll(d, blocks, lower), blocks)
    decreases |blocks|
  {
    if blocks != [] {
      var e := Add(d, blocks[0], lower);
      AddCounts(d, blocks[0], lower);
      AddAllCounts(e, blocks[1..], lower);
      GainsChain(d, e, AddAll(e, blocks[1..], lower), blocks[0], blocks[1..]);
      assert blocks == [blocks[0]] + blocks[1..];
    }
  }

  /** The progress counts the checkboxes, ticked ones among them, and the contents list is the
      headings in order. */
  lemma ProgressAndContents(src: string, lower: string -> string)
    ensures var (doc, blocks) := (Rendered(src, lower), Blocks(SplitOn(StripDocFrontmatter(src), '\n', 0), 0));
            && doc.total == |Boxes(blocks)| && doc.done == Ticks(Boxes(blocks)) <= doc.total
            && Entries(doc.toc) == Headings(blocks)
  {
    var blocks := Blocks(SplitOn(StripDocFrontmatter(src), '\n', 0), 0);
    AddAllCounts(EMPTY, blocks, lower);
    CloseKeeps(AddAll(EMPTY, blocks, lower), 0);
    assert Entries([]) + Headings(blocks) == Headings(blocks);
  }

  // ----- The renderer

  method Take(p: string -> bool, lines: seq<string>, from: nat) returns (body: seq<string>, next: nat)
    requires from <= |lines|
    ensures next == Until(p, lines, from) && body == lines[from..next]
  {
    body, next := [], from;
    while next < |lines| && p(lines[next])
      invariant from <= next <= |lines| && body == lines[from..next]
      invariant Until(p, lines, next) == Until(p, lines, from)
    {
      body, next := body + [lines[next]], next + 1;
    }
  }

  class Renderer {
    const lower: string -> string
    var out: seq<Piece>
    var openLists: seq<ListKind>
    var seenSlugs: map<string, nat>
    var toc: seq<TocEntry>
    var done: nat
    var total: nat

    function Snapshot(): Doc
      reads this
    {
      Doc(out, openLists, seenSlugs, toc, done, total)
    }

    constructor (lower: string -> string)
      ensures Snapshot() == EMPTY && this.lower == lower
    {
      this.lower := lower;
      out, openLists, seenSlugs, toc, done, total := [], [], map[], [], 0, 0;
    }

    method CloseLists(toDepth: nat)
      modifies this`out, this`openLists
      ensures Snapshot() == CloseTo(old(Snapshot()), toDepth)
    {
      while |openLists| > toDepth
        invariant CloseTo(Snapshot(), toDepth) == CloseTo(old(Snapshot()), toDepth)
        decreases |openLists|
      {
        var last := |openLists| - 1;
        out, openLists := out + [CloseList(openLists[last])], openLists[..last];
      }
    }

    method OpenLists(kind: ListKind, depth: nat)
      modifies this`out, this`openLists
      ensures Snapshot() == OpenTo(old(Snapshot()), kind, depth)
    {
      while |openLists| < depth
        invariant OpenTo(Snapshot(), kind, depth) == OpenTo(old(Snapshot()), kind, depth)
        decreases depth - |openLists|
      {
        openLists := openLists + [kind];
        out := out + [OpenList(kind)];
      }
    }

    method PushHeading(level: nat, text: string)
      modifies this
      ensures Snapshot() == Add(old(Snapshot()), HeadingBlock(level, text), lower)
    {
      CloseLists(0);
      var base := SlugBase(text, lower);
      var count := (if base in seenSlugs then seenSlugs[base] else 0) + 1;
      seenSlugs := seenSlugs[base := count];
      toc := toc + [TocEntry(level, text, SlugOf(base, count))];
      out := out + [Standing(HeadingHtml(level, text, SlugOf(base, count)))];
    }

    method PushItem(item: ItemParts)
      modifies this
      ensures Snapshot() == Add(old(Snapshot()), ItemBlock(item), lower)
    {
      CloseLists(item.depth);
      OpenLists(item.kind, item.depth);
      if item.checked != None {
        total := total + 1;
        if item.checked.value {
          done := done + 1;
        }
      }
      out := out + [Item(ItemHtml(item))];
    }

    method PushStanding(b: Block)
      requires !b.ItemBlock? && !b.BlankBlock? && !b.HeadingBlock?
      modifies this
      ensures Snapshot() == Add(old(Snapshot()), b, lower)
    {
      CloseLists(0);
      out := out + [Standing(BlockHtml(b, ""))];
    }

    method RenderFence(lines: seq<string>, index: nat) returns (next: nat)
      requires index < |lines| && IsFence(lines[index])
      modifies this
      ensures next == Until(NotFence(), lines, index + 1) + 1
      ensures Snapshot() == Add(old(Snapshot()), FenceBlock(FenceLang(lines[index]), lines[index + 1..next - 1]), lower)
    {
      var body;
      body, next := Take(NotFence(), lines, index + 1);
      next := next + 1;
      PushStanding(FenceBlock(FenceLang(lines[index]), body));
    }

    method RenderQuote(lines: seq<string>, index: nat) returns (next: nat)
      requires index < |lines|
      modifies this
      ensures next == Until(IsQuote(), lines, index)
      ensures Snapshot() == Add(old(Snapshot()), QuoteBlock(Map(Unquote(), lines[index..next])), lower)
    {
      var body;
      body, next := Take(IsQuote(), lines, index);
      PushStanding(QuoteBlock(Map(Unquote(), body)));
    }

    method RenderTable(lines: seq<string>, index: nat) returns (next: nat)
      requires index + 1 < |lines|
      modifies this
      ensures next == Until(IsPipe(), lines, index + 2)
      ensures Snapshot() == Add(old(Snapshot()),
                TableBlock(SplitRow(lines[index]), Map(Cells(), lines[index + 2..next])), lower)
    {
      var body;
      body, next := Take(IsPipe(), lines, index + 2);
      PushStanding(TableBlock(SplitRow(lines[index]), Map(Cells(), body)));
    }

    /** A line that breaks at once is emitted on its own: that is what keeps the loop moving. */
    method RenderParagraph(lines: seq<string>, index: nat) returns (next: nat)
      requires index < |lines|
      modifies this
      ensures var end := Until(InParagraph(), lines, index);
              && next == (if end > index then end else index + 1)
              && Snapshot() == Add(old(Snapshot()),
                  ParagraphBlock(if end > index then lines[index..end] else [lines[index]]), lower)
    {
      var body;
      body, next := Take(InParagraph(), lines, index);
      if next > index {
        PushStanding(ParagraphBlock(body));
      } else {
        PushStanding(ParagraphBlock([lines[index]]));
        next := index + 1;
      }
    }

    /** One turn of the loop: a whole block, and always at least one line. */
    method RenderBlock(lines: seq<string>, index: nat) returns (next: nat)
      requires index < |lines|
      modifies this
      ensures Snapshot() == Add(old(Snapshot()), BlockAt(lines, index).0, lower)
      ensures next == BlockAt(lines, index).1
    {
      var line := lines[index];
      next := index + 1;
      if IsFence(line) {
        next := RenderFence(lines, index);
      } else if HeadingOf(line) != None {
        PushHeading(HeadingOf(line).value.0, HeadingOf(line).value.1);
      } else if IsRule(line) {
        PushStanding(RuleBlock);
      } else if Leads(line, '>') {
        next := RenderQuote(lines, index);
      } else if Leads(line, '|') && index + 1 < |lines| && IsTableSeparator(lines[index + 1]) {
        next := RenderTable(lines, index);
      } else if ItemOf(line) != None {
        PushItem(ItemOf(line).value);
      } else if Blank(line) {
        CloseLists(0);
      } else {
        next := RenderParagraph(lines, index);
      }
    }
  }

  /** Terminates on every input with a safe document. */
  method RenderMarkdown(src: string, lower: string -> string)
    returns (html: string, toc: seq<TocEntry>, progress: Option<(nat, nat)>)
    ensures var doc := Rendered(src, lower);
            && html == Html(doc.out) && toc == doc.toc
            && progress == if doc.total > 0 then Some((doc.done, doc.total)) else None
    ensures Safe(html)
  {
    var lines := SplitOn(StripDocFrontmatter(src), '\n', 0);
    var r := new Renderer(lower);
    var index := 0;
    while index < |lines|
      invariant 0 <= index <= |lines| + 1
      invariant r.lower == lower
      invariant AddAll(r.Snapshot(), Blocks(lines, index), lower) == AddAll(EMPTY, Blocks(lines, 0), lower)
      decreases |lines| + 1 - index
    {
      index := r.RenderBlock(lines, index);
    }
    r.CloseLists(0);
    DocumentIsSafe(src, lower);
    return Html(r.out), r.toc, if r.total > 0 then Some((r.done, r.total)) else None;
  }
}
