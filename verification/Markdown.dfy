/** The block-level markdown renderer: a line-driven loop with a stack of open lists. */
module Markdown {
  import opened Decimals
  import opened MarkdownInline
  import opened Sequences
  import opened Texts
  import opened Wrappers

  // ----- Lines and whitespace

  function SplitOn(s: string, c: char, from: nat): (r: seq<string>)
    requires from <= |s|
    ensures r != []
    decreases |s| - from
  {
    var k := Next(s, c, from);
    if k == |s| then [s[from..]] else [s[from..k]] + SplitOn(s, c, k + 1)
  }

  function JoinWith(parts: seq<string>, sep: string): string {
    if parts == [] then ""
    else if |parts| == 1 then parts[0]
    else JoinWith(parts[..|parts| - 1], sep) + sep + parts[|parts| - 1]
  }

  function SkipSpaces(s: string, from: nat): (r: nat)
    requires from <= |s|
    ensures from <= r <= |s|
    decreases |s| - from
  {
    if from == |s| || !IsSpace(s[from]) then from else SkipSpaces(s, from + 1)
  }

  function TrimEnd(s: string, to: nat): (r: nat)
    requires to <= |s|
    ensures r <= to
  {
    if to == 0 || !IsSpace(s[to - 1]) then to else TrimEnd(s, to - 1)
  }

  function Trim(s: string): string {
    var start := SkipSpaces(s, 0);
    if start == |s| then "" else s[start..][..TrimEnd(s[start..], |s| - start)]
  }

  predicate Blank(line: string) {
    Trim(line) == ""
  }

  /** A character that `.` does not match. */
  predicate Terminator(c: char) {
    c == '\n' || c == '\r' || c == '\U{2028}' || c == '\U{2029}'
  }

  /** `\s+(.*)$` from `from`: where the captured rest begins. */
  function DotRest(s: string, from: nat): (r: Option<nat>)
    requires from <= |s|
    ensures r != None ==> r.value <= |s|
  {
    var n := SkipSpaces(s, from);
    if n == from || exists k :: n <= k < |s| && Terminator(s[k]) then None else Some(n)
  }

  function RunEnd(s: string, c: char, from: nat): (r: nat)
    requires from <= |s|
    ensures from <= r <= |s|
    decreases |s| - from
  {
    if from == |s| || s[from] != c then from else RunEnd(s, c, from + 1)
  }

  function StripDocFrontmatter(src: string): string {
    if !OccursAt(src, "---\n", 0) then src
    else
      var end := IndexOf(src, "\n---", 3);
      if end == -1 then src
      else
        var after := IndexOf(src, "\n", end + 1);
        if after == -1 then "" else src[after + 1..]
  }

  // ----- Recognising a line

  // /^```(\w*)/
  predicate IsFence(line: string) {
    OccursAt(line, "```", 0)
  }

  predicate IsWord(c: char) {
    'a' <= c <= 'z' || 'A' <= c <= 'Z' || '0' <= c <= '9' || c == '_'
  }

  function WordEnd(s: string, from: nat): (r: nat)
    requires from <= |s|
    ensures from <= r <= |s|
    decreases |s| - from
  {
    if from == |s| || !IsWord(s[from]) then from else WordEnd(s, from + 1)
  }

  function FenceLang(line: string): string
    requires IsFence(line)
  {
    line[3..WordEnd(line, 3)]
  }

  // /^(#{1,6})\s+(.*)$/
  function HeadingOf(line: string): Option<(nat, string)> {
    var level := RunEnd(line, '#', 0);
    if !(1 <= level <= 6) || DotRest(line, level) == None then None
    else Some((level, Trim(line[DotRest(line, level).value..])))
  }

  predicate LongRun(line: string, c: char) {
    var start := SkipSpaces(line, 0);
    var end := RunEnd(line, c, start);
    end >= start + 3 && SkipSpaces(line, end) == |line|
  }

  // /^\s*(---+|\*\*\*+)\s*$/
  predicate IsRule(line: string) {
    LongRun(line, '-') || LongRun(line, '*')
  }

  // /^\s*>/ and /^\s*\|/
  predicate Leads(line: string, c: char) {
    var start := SkipSpaces(line, 0);
    start < |line| && line[start] == c
  }

  // .replace(/^\s*>\s?/, "")
  function Unquoted(line: string): string {
    if !Leads(line, '>') then line
    else
      var after := SkipSpaces(line, 0) + 1;
      if after < |line| && IsSpace(line[after]) then line[after + 1..] else line[after..]
  }

  // /^\s*\|?[\s:-]*-[\s|:-]*$/: up to its first dash a separator has spaces, colons and at most
  // one pipe, before any colon; after it anything of its four kinds of characters.
  predicate IsTableSeparator(line: string) {
    var start := SkipSpaces(line, 0);
    var from := if start < |line| && line[start] == '|' then start + 1 else start;
    var dash := Next(line, '-', from);
    && dash < |line|
    && (forall k :: from <= k < dash ==> IsSpace(line[k]) || line[k] == ':')
    && (forall k :: dash <= k < |line| ==> IsSpace(line[k]) || line[k] in {'|', ':', '-'})
  }

  function TrimAll(parts: seq<string>): seq<string> {
    seq(|parts|, i requires 0 <= i < |parts| => Trim(parts[i]))
  }

  function SplitRow(line: string): seq<string> {
    var a := if Leads(line, '|') then line[SkipSpaces(line, 0) + 1..] else line;
    var end := TrimEnd(a, |a|);
    var b := if end > 0 && a[end - 1] == '|' then a[..end - 1] else a;
    TrimAll(SplitOn(b, '|', 0))
  }

  function DigitRun(s: string, from: nat): (r: nat)
    requires from <= |s|
    ensures from <= r <= |s|
    decreases |s| - from
  {
    if from == |s| || !IsDigit(s[from]) then from else DigitRun(s, from + 1)
  }

  /** `([-*]|\d+\.)` at `from`: where it ends, or `from` when it does not match. */
  function MarkerEnd(s: string, from: nat): (r: nat)
    requires from <= |s|
    ensures from <= r <= |s|
  {
    if from < |s| && s[from] in {'-', '*'} then from + 1
    else
      var end := DigitRun(s, from);
      if end > from && end < |s| && s[end] == '.' then end + 1 else from
  }

  datatype ListKind = Bullets | Numbers

  datatype ItemParts = ItemParts(depth: nat, kind: ListKind, checked: Option<bool>, text: string)

  // /^\[([ xX])\]\s*(.*)$/
  function WithCheckbox(depth: nat, kind: ListKind, text: string): ItemParts {
    if |text| >= 3 && text[0] == '[' && text[1] in {' ', 'x', 'X'} && text[2] == ']'
    then ItemParts(depth, kind, Some(text[1] != ' '), text[SkipSpaces(text, 3)..])
    else ItemParts(depth, kind, None, text)
  }

  // /^(\s*)([-*]|\d+\.)\s+(.*)$/
  function ItemOf(line: string): Option<ItemParts> {
    var indent := SkipSpaces(line, 0);
    var end := MarkerEnd(line, indent);
    if end == indent || DotRest(line, end) == None then None
    else
      Some(WithCheckbox(indent / 2 + 1, if line[indent] in {'-', '*'} then Bullets else Numbers,
                        line[DotRest(line, end).value..]))
  }

  // /^(#{1,6}\s|```|\s*>|\s*\|)/ or /^(\s*)([-*]|\d+\.)\s/
  predicate BreaksParagraph(line: string) {
    var level := RunEnd(line, '#', 0);
    var indent := SkipSpaces(line, 0);
    var end := MarkerEnd(line, indent);
    || (1 <= level <= 6 && level < |line| && IsSpace(line[level]))
    || IsFence(line) || Leads(line, '>') || Leads(line, '|')
    || (end > indent && end < |line| && IsSpace(line[end]))
  }

  // ----- Blocks

  datatype Block =
    | FenceBlock(lang: string, body: seq<string>)
    | HeadingBlock(level: nat, text: string)
    | RuleBlock
    | QuoteBlock(body: seq<string>)
    | TableBlock(header: seq<string>, rows: seq<seq<string>>)
    | ItemBlock(item: ItemParts)
    | BlankBlock
    | ParagraphBlock(body: seq<string>)

  function NotFence(): string -> bool { (l: string) => !IsFence(l) }
  function IsQuote(): string -> bool { (l: string) => Leads(l, '>') }
  function IsPipe(): string -> bool { (l: string) => Leads(l, '|') }
  function InParagraph(): string -> bool { (l: string) => !Blank(l) && !BreaksParagraph(l) }

  /** The first line from `i` on that does not satisfy `p`. */
  function Until(p: string -> bool, lines: seq<string>, i: nat): (r: nat)
    requires i <= |lines|
    ensures i <= r <= |lines|
    decreases |lines| - i
  {
    if i == |lines| || !p(lines[i]) then i else Until(p, lines, i + 1)
  }

  function Unquote(): string -> string { (l: string) => Unquoted(l) }
  function Cells(): string -> seq<string> { (l: string) => SplitRow(l) }

  /** The block that starts at line `i`, and the index after it. */
  function BlockAt(lines: seq<string>, i: nat): (r: (Block, nat))
    requires i < |lines|
    ensures i < r.1 <= |lines| + 1
  {
    var line := lines[i];
    if IsFence(line) then
      var end := Until(NotFence(), lines, i + 1);
      (FenceBlock(FenceLang(line), lines[i + 1..end]), end + 1)
    else if HeadingOf(line) != None then
      (HeadingBlock(HeadingOf(line).value.0, HeadingOf(line).value.1), i + 1)
    else if IsRule(line) then (RuleBlock, i + 1)
    else if Leads(line, '>') then
      var end := Until(IsQuote(), lines, i + 1);
      (QuoteBlock(Map(Unquote(), lines[i..end])), end)
    else if Leads(line, '|') && i + 1 < |lines| && IsTableSeparator(lines[i + 1]) then
      var end := Until(IsPipe(), lines, i + 2);
      (TableBlock(SplitRow(line), Map(Cells(), lines[i + 2..end])), end)
    else if ItemOf(line) != None then (ItemBlock(ItemOf(line).value), i + 1)
    else if Blank(line) then (BlankBlock, i + 1)
    else
      var end := Until(InParagraph(), lines, i);
      if end > i then (ParagraphBlock(lines[i..end]), end) else (ParagraphBlock([line]), i + 1)
  }

  lemma {:induction false} UntilStops(p: string -> bool, lines: seq<string>, i: nat)
    requires i <= |lines|
    ensures Until(p, lines, i) == |lines| <==> forall k :: i <= k < |lines| ==> p(lines[k])
    decreases |lines| - i
  {
    if i < |lines| && p(lines[i]) {
      UntilStops(p, lines, i + 1);
    }
  }

  /** The index leaves the source, by one, exactly at a fence that is never closed. */
  lemma OnlyOpenFenceOvershoots(lines: seq<string>, i: nat)
    requires i < |lines|
    ensures BlockAt(lines, i).1 > |lines| <==> IsFence(lines[i]) && forall k :: i < k < |lines| ==> !IsFence(lines[k])
    ensures BlockAt(lines, i).1 <= |lines| + 1
  {
    UntilStops(NotFence(), lines, i + 1);
    assert forall k :: i < k < |lines| ==> NotFence()(lines[k]) == !IsFence(lines[k]);
  }

  function Blocks(lines: seq<string>, i: nat): seq<Block>
    decreases |lines| - i
  {
    if i >= |lines| then [] else [BlockAt(lines, i).0] + Blocks(lines, BlockAt(lines, i).1)
  }

  // ----- Rendering a block

  function FenceHtml(lang: string, body: seq<string>): string {
    TagText(Open(Pre)) +
    (if lang == "" then TagText(Open(Code)) else TagText(Lang) + "language-" + EscapeHtml(lang) + "\">") +
    EscapeHtml(JoinWith(body, "\n")) + "\n" + TagText(Close(Code)) + TagText(Close(Pre))
  }

  function HeadingHtml(level: nat, text: string, slug: string): string {
    TagText(Heading(level)) + slug + "\">" + RenderInline(text) + TagText(EndHeading(level))
  }

  function Wrap(n: Name, html: string): string {
    TagText(Open(n)) + html + TagText(Close(n))
  }

  function CellsHtml(n: Name, cells: seq<string>): string {
    if cells == [] then ""
    else CellsHtml(n, cells[..|cells| - 1]) + Wrap(n, RenderInline(cells[|cells| - 1]))
  }

  function RowsHtml(rows: seq<seq<string>>): string {
    if rows == [] then ""
    else RowsHtml(rows[..|rows| - 1]) + Wrap(TableRow, CellsHtml(Cell, rows[|rows| - 1]))
  }

  function TableHtml(header: seq<string>, rows: seq<seq<string>>): string {
    Wrap(Table, Wrap(Head, Wrap(TableRow, CellsHtml(HeadCell, header))) + Wrap(Body, RowsHtml(rows)))
  }

  function CheckboxHtml(checked: bool): string {
    TagText(Checkbox) + "\"checkbox\" " + (if checked then "checked disabled" else "disabled") + ">"
  }

  function ItemHtml(item: ItemParts): string {
    Wrap(ListItem, (if item.checked == None then "" else CheckboxHtml(item.checked.value)) + RenderInline(item.text))
  }

  /** The markup of a block that stands outside every list. */
  function BlockHtml(b: Block, slug: string): string
    requires !b.ItemBlock? && !b.BlankBlock?
  {
    match b
    case FenceBlock(lang, body) => FenceHtml(lang, body)
    case HeadingBlock(level, text) => HeadingHtml(level, text, slug)
    case RuleBlock => TagText(Open(Rule))
    case QuoteBlock(body) => Wrap(Quote, RenderInline(JoinWith(body, " ")))
    case TableBlock(header, rows) => TableHtml(header, rows)
    case ParagraphBlock(body) => Wrap(Para, RenderInline(JoinWith(body, " ")))
  }

  // ----- Slugs

  predicate SlugChar(c: char) {
    'a' <= c <= 'z' || '0' <= c <= '9'
  }

  /** `.replace(/[^a-z0-9]+/g, "-")` */
  function Dashed(s: string): (r: string)
    ensures forall i :: 0 <= i < |r| ==> SlugChar(r[i]) || r[i] == '-'
  {
    if s == "" then ""
    else if SlugChar(s[0]) then [s[0]] + Dashed(s[1..])
    else if |s| > 1 && !SlugChar(s[1]) then Dashed(s[1..])
    else "-" + Dashed(s[1..])
  }

  function DashEnd(s: string, to: nat): (r: nat)
    requires to <= |s|
    ensures r <= to
  {
    if to == 0 || s[to - 1] != '-' then to else DashEnd(s, to - 1)
  }

  function Slugify(s: string): (r: string)
    ensures forall i :: 0 <= i < |r| ==> SlugChar(r[i]) || r[i] == '-'
  {
    var d := Dashed(s);
    var start := RunEnd(d, '-', 0);
    var t := d[start..];
    t[..DashEnd(t, |t|)]
  }

  function SlugBase(text: string, lower: string -> string): string {
    var slug := Slugify(lower(text));
    if slug == "" then "section" else slug
  }

  function SlugOf(base: string, count: nat): string {
    if count == 1 then base else base + "-" + Decimal(count)
  }

  // ----- The output

  /** What is pushed: the opening or closing tag of a list, an item, or a block. */
  datatype Piece = OpenList(kind: ListKind) | CloseList(kind: ListKind) | Item(html: string) | Standing(html: string)

  datatype TocEntry = TocEntry(level: nat, text: string, slug: string)

  datatype Doc = Doc(
    out: seq<Piece>, open: seq<ListKind>, seen: map<string, nat>, toc: seq<TocEntry>, done: nat, total: nat)

  const EMPTY := Doc([], [], map[], [], 0, 0)

  function CloseTo(d: Doc, depth: nat): (r: Doc)
    ensures |r.open| == if |d.open| <= depth then |d.open| else depth
    decreases |d.open|
  {
    if |d.open| <= depth then d
    else
      var last := |d.open| - 1;
      CloseTo(d.(open := d.open[..last], out := d.out + [CloseList(d.open[last])]), depth)
  }

  function OpenTo(d: Doc, kind: ListKind, depth: nat): Doc
    decreases depth - |d.open|
  {
    if |d.open| >= depth then d
    else OpenTo(d.(open := d.open + [kind], out := d.out + [OpenList(kind)]), kind, depth)
  }

  function AddItem(d: Doc, item: ItemParts): Doc {
    var e := OpenTo(CloseTo(d, item.depth), item.kind, item.depth);
    e.(out := e.out + [Item(ItemHtml(item))],
       total := e.total + (if item.checked == None then 0 else 1),
       done := e.done + (if item.checked == Some(true) then 1 else 0))
  }

  function CountFor(seen: map<string, nat>, base: string): nat {
    (if base in seen then seen[base] else 0) + 1
  }

  function AddHeading(d: Doc, level: nat, text: string, lower: string -> string): Doc {
    var base := SlugBase(text, lower);
    var slug := SlugOf(base, CountFor(d.seen, base));
    d.(seen := d.seen[base := CountFor(d.seen, base)],
       toc := d.toc + [TocEntry(level, text, slug)],
       out := d.out + [Standing(HeadingHtml(level, text, slug))])
  }

  /** Slugs can repeat: a second heading of one base takes the very slug that the first heading
      of the base with "-2" at its end gets. */
  lemma SlugsRepeat(level: nat, text: string, other: string, lower: string -> string)
    requires SlugBase(other, lower) == SlugBase(text, lower) + "-2"
    ensures var twice := AddHeading(AddHeading(EMPTY, level, text, lower), level, text, lower);
            var d := AddHeading(twice, level, other, lower);
            |d.toc| == 3 && d.toc[1].slug == d.toc[2].slug
  {
    var base := SlugBase(text, lower);
    assert |SlugBase(other, lower)| != |base|;
    assert Decimal(2) == "2";
    assert base + "-" + "2" == base + "-2";
  }

  lemma SlugOfLetter(lower: string -> string)
    requires lower("a") == "a" && lower("a-2") == "a-2"
    ensures SlugBase("a", lower) == "a" && SlugBase("a-2", lower) == "a-2"
  {
    assert Dashed("2") == "2" && Dashed("-2") == "-2" && Dashed("a-2") == "a-2";
    assert RunEnd("a-2", '-', 0) == 0 && DashEnd("a-2", 3) == 3;
    assert "a-2"[0..] == "a-2" && "a-2"[..3] == "a-2" && "a"[0..] == "a" && "a"[..1] == "a";
  }

  function Add(d: Doc, b: Block, lower: string -> string): Doc {
    match b
    case ItemBlock(item) => AddItem(d, item)
    case BlankBlock => CloseTo(d, 0)
    case HeadingBlock(level, text) => AddHeading(CloseTo(d, 0), level, text, lower)
    case _ =>
      var e := CloseTo(d, 0);
      e.(out := e.out + [Standing(BlockHtml(b, ""))])
  }

  function AddAll(d: Doc, blocks: seq<Block>, lower: string -> string): Doc
    decreases |blocks|
  {
    if blocks == [] then d else AddAll(Add(d, blocks[0], lower), blocks[1..], lower)
  }

  function Rendered(src: string, lower: string -> string): Doc {
    CloseTo(AddAll(EMPTY, Blocks(SplitOn(StripDocFrontmatter(src), '\n', 0), 0), lower), 0)
  }

  // ----- Lists nest

  /** Running the pieces against a stack of open lists: a close must match the innermost open
      list, an item must be in a list, any other block must be in none. */
  function Nest(pieces: seq<Piece>): Option<seq<ListKind>> {
    if pieces == [] then Some([])
    else
      var before := Nest(pieces[..|pieces| - 1]);
      if before == None then None
      else
        var open := before.value;
        match pieces[|pieces| - 1]
        case OpenList(kind) => Some(open + [kind])
        case CloseList(kind) => if open != [] && open[|open| - 1] == kind then Some(open[..|open| - 1]) else None
        case Item(_) => if open != [] then before else None
        case Standing(_) => if open == [] then before else None
  }

  lemma {:induction false} CloseNests(d: Doc, depth: nat)
    requires Nest(d.out) == Some(d.open)
    ensures Nest(CloseTo(d, depth).out) == Some(CloseTo(d, depth).open)
    decreases |d.open|
  {
    if |d.open| > depth {
      var last := |d.open| - 1;
      assert (d.out + [CloseList(d.open[last])])[..|d.out|] == d.out;
      CloseNests(d.(open := d.open[..last], out := d.out + [CloseList(d.open[last])]), depth);
    }
  }

  lemma {:induction false} OpenNests(d: Doc, kind: ListKind, depth: nat)
    requires Nest(d.out) == Some(d.open)
    ensures Nest(OpenTo(d, kind, depth).out) == Some(OpenTo(d, kind, depth).open)
    ensures |OpenTo(d, kind, depth).open| >= depth
    decreases depth - |d.open|
  {
    if |d.open| < depth {
      assert (d.out + [OpenList(kind)])[..|d.out|] == d.out;
      OpenNests(d.(open := d.open + [kind], out := d.out + [OpenList(kind)]), kind, depth);
    }
  }

  lemma PushNests(out: seq<Piece>, open: seq<ListKind>, p: Piece)
    requires Nest(out) == Some(open)
    requires (p.Item? && open != []) || (p.Standing? && open == [])
    ensures Nest(out + [p]) == Some(open)
  {
    assert (out + [p])[..|out|] == out;
  }

  lemma AddNests(d: Doc, b: Block, lower: string -> string)
    requires Nest(d.out) == Some(d.open) && (b.ItemBlock? ==> b.item.depth > 0)
    ensures Nest(Add(d, b, lower).out) == Some(Add(d, b, lower).open)
  {
    match b
    case ItemBlock(item) =>
      CloseNests(d, item.depth);
      OpenNests(CloseTo(d, item.depth), item.kind, item.depth);
      var e := OpenTo(CloseTo(d, item.depth), item.kind, item.depth);
      PushNests(e.out, e.open, Item(ItemHtml(item)));
    case BlankBlock => CloseNests(d, 0);
    case HeadingBlock(level, text) =>
      CloseNests(d, 0);
      var e, base := CloseTo(d, 0), SlugBase(text, lower);
      PushNests(e.out, e.open, Standing(HeadingHtml(level, text, SlugOf(base, CountFor(e.seen, base)))));
    case _ =>
      CloseNests(d, 0);
      PushNests(CloseTo(d, 0).out, CloseTo(d, 0).open, Standing(BlockHtml(b, "")));
  }

  lemma {:induction false} ItemsAreDeep(lines: seq<string>, i: nat)
    ensures forall k :: 0 <= k < |Blocks(lines, i)| && Blocks(lines, i)[k].ItemBlock? ==>
              Blocks(lines, i)[k].item.depth > 0
    decreases |lines| - i
  {
    if i < |lines| {
      ItemsAreDeep(lines, BlockAt(lines, i).1);
      var b := BlockAt(lines, i).0;
      assert b.ItemBlock? ==> b.item.depth > 0;
    }
  }

  lemma {:induction false} AddAllNests(d: Doc, blocks: seq<Block>, lower: string -> string)
    requires Nest(d.out) == Some(d.open)
    requires forall k :: 0 <= k < |blocks| && blocks[k].ItemBlock? ==> blocks[k].item.depth > 0
    ensures Nest(AddAll(d, blocks, lower).out) == Some(AddAll(d, blocks, lower).open)
    decreases |blocks|
  {
    if blocks != [] {
      AddNests(d, blocks[0], lower);
      AddAllNests(Add(d, blocks[0], lower), blocks[1..], lower);
    }
  }

  /** For every input the list tags balance and nest; items stand inside lists, other blocks outside. */
  lemma ListsNest(src: string, lower: string -> string)
    ensures Nest(Rendered(src, lower).out) == Some([])
  {
    var blocks := Blocks(SplitOn(StripDocFrontmatter(src), '\n', 0), 0);
    ItemsAreDeep(SplitOn(StripDocFrontmatter(src), '\n', 0), 0);
    AddAllNests(EMPTY, blocks, lower);
    CloseNests(AddAll(EMPTY, blocks, lower), 0);
    assert Rendered(src, lower).open == [];
  }
}
