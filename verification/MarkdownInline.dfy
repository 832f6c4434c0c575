/** Inline markdown: escaping, then four global replacements. Whatever the text, the only markup
    in the result is the renderer's own. */
module MarkdownInline {
  import opened Texts
  import opened Wrappers

  /** JavaScript `\s`. */
  predicate IsSpace(c: char) {
    || '\t' <= c <= '\r' || c == ' ' || c == '\U{00a0}' || c == '\U{1680}' || '\U{2000}' <= c <= '\U{200a}'
    || c == '\U{2028}' || c == '\U{2029}' || c == '\U{202f}' || c == '\U{205f}' || c == '\U{3000}' || c == '\U{feff}'
  }

  // ----- Escaping

  function EscapeChar(c: char): (r: string)
    ensures r != ""
    ensures forall i :: 0 <= i < |r| ==> r[i] !in {'<', '>', '"'}
  {
    if c == '&' then "&amp;"
    else if c == '<' then "&lt;"
    else if c == '>' then "&gt;"
    else if c == '"' then "&quot;"
    else [c]
  }

  function EscapeHtml(text: string): (r: string)
    ensures forall i :: 0 <= i < |r| ==> r[i] !in {'<', '>', '"'}
  {
    if text == "" then "" else EscapeChar(text[0]) + EscapeHtml(text[1..])
  }

  /** Reads the four entities back. */
  function Unescape(s: string): string {
    if s == "" then ""
    else if s[0] != '&' then [s[0]] + Unescape(s[1..])
    else if OccursAt(s, "&amp;", 0) then "&" + Unescape(s[5..])
    else if OccursAt(s, "&lt;", 0) then "<" + Unescape(s[4..])
    else if OccursAt(s, "&gt;", 0) then ">" + Unescape(s[4..])
    else if OccursAt(s, "&quot;", 0) then "\"" + Unescape(s[6..])
    else [s[0]] + Unescape(s[1..])
  }

  lemma UnescapeHead(c: char, rest: string)
    ensures Unescape(EscapeChar(c) + rest) == [c] + Unescape(rest)
  {
    var s := EscapeChar(c) + rest;
    assert s[|EscapeChar(c)|..] == rest;
    if c in {'&', '<', '>', '"'} {
      assert s[0] == '&' && s[0 + 1] == EscapeChar(c)[1];
      assert OccursAt(s, EscapeChar(c), 0);
      if c != '&' { Misses(s, "&amp;", 0, 1); }
      if c != '<' { Misses(s, "&lt;", 0, 1); }
      if c != '>' { Misses(s, "&gt;", 0, 1); }
    }
  }

  /** Escaping loses nothing. */
  lemma {:induction false} EscapeRoundTrips(text: string)
    ensures Unescape(EscapeHtml(text)) == text
  {
    if text != "" {
      UnescapeHead(text[0], EscapeHtml(text[1..]));
      EscapeRoundTrips(text[1..]);
    }
  }

  // ----- The renderer's tags

  datatype Name =
    | Code | Strong | Em | Anchor | Pre | Quote | Table | Head | Body
    | TableRow | HeadCell | Cell | ListItem | Para | Ul | Ol | Rule

  datatype Tag =
    | Open(name: Name) | Close(name: Name) | Link | Lang | Checkbox
    | Heading(level: nat) | EndHeading(level: nat)

  function NameText(n: Name): string {
    match n
    case Code => "code"
    case Strong => "strong"
    case Em => "em"
    case Anchor => "a"
    case Pre => "pre"
    case Quote => "blockquote"
    case Table => "table"
    case Head => "thead"
    case Body => "tbody"
    case TableRow => "tr"
    case HeadCell => "th"
    case Cell => "td"
    case ListItem => "li"
    case Para => "p"
    case Ul => "ul"
    case Ol => "ol"
    case Rule => "hr"
  }

  function LevelText(level: nat): string {
    if level == 1 then "1" else if level == 2 then "2" else if level == 3 then "3"
    else if level == 4 then "4" else if level == 5 then "5" else "6"
  }

  /** The text of a tag, after its `<`, up to its first variable part. */
  function TagRest(t: Tag): string {
    match t
    case Open(n) => NameText(n) + ">"
    case Close(n) => "/" + (NameText(n) + ">")
    case Link => "a href=\""
    case Lang => "code class=\""
    case Checkbox => "input type="
    case Heading(level) => "h" + (LevelText(level) + " id=\"")
    case EndHeading(level) => "/h" + (LevelText(level) + ">")
  }

  function TagText(t: Tag): string {
    "<" + TagRest(t)
  }

  /** The characters at which the inline passes cut a text. */
  predicate Delim(c: char) {
    c == '`' || c == '*' || c == '[' || c == ']' || c == '(' || c == ')'
  }

  predicate Inert(s: string) {
    forall i :: 0 <= i < |s| ==> s[i] != '<' && !Delim(s[i])
  }

  lemma NameIsInert(n: Name)
    ensures Inert(NameText(n))
  {
  }

  lemma InertJoin(a: string, b: string)
    requires Inert(a) && Inert(b)
    ensures Inert(a + b)
  {
  }

  lemma TagRestIsInert(t: Tag)
    ensures Inert(TagRest(t))
  {
    match t
    case Open(n) =>
      NameIsInert(n);
      InertJoin(NameText(n), ">");
    case Close(n) =>
      NameIsInert(n);
      InertJoin(NameText(n), ">");
      InertJoin("/", NameText(n) + ">");
    case Link => assert Inert("a href=\"");
    case Lang => assert Inert("code class=\"");
    case Checkbox => assert Inert("input type=");
    case Heading(level) =>
      assert Inert(LevelText(level)) && Inert(" id=\"");
      InertJoin(LevelText(level), " id=\"");
      InertJoin("h", LevelText(level) + " id=\"");
    case EndHeading(level) =>
      assert Inert(LevelText(level));
      InertJoin(LevelText(level), ">");
      InertJoin("/h", LevelText(level) + ">");
  }

  lemma TagShape(t: Tag, s: string)
    requires s == TagText(t)
    ensures s != "" && s[0] == '<'
    ensures forall k :: 1 <= k < |s| ==> s[k] != '<'
    ensures forall k :: 0 <= k < |s| ==> !Delim(s[k])
  {
    TagRestIsInert(t);
    forall k | 1 <= k < |s| ensures s[k] != '<' && !Delim(s[k]) {
      assert s[k] == TagRest(t)[k - 1];
    }
  }

  predicate Begins(s: string, i: int, t: Tag) {
    OccursAt(s, TagText(t), i)
  }

  ghost predicate TagAt(s: string, i: int) {
    exists t :: Begins(s, i, t)
  }

  /** Every `<` begins one of the renderer's tags. */
  ghost predicate Safe(s: string) {
    forall i :: 0 <= i < |s| && s[i] == '<' ==> TagAt(s, i)
  }

  lemma PlainIsSafe(s: string)
    requires forall i :: 0 <= i < |s| ==> s[i] != '<'
    ensures Safe(s)
  {
  }

  lemma TagIsSafe(t: Tag)
    ensures Safe(TagText(t))
  {
    var s := TagText(t);
    TagShape(t, s);
    assert Begins(s, 0, t);
    assert TagAt(s, 0);
  }

  lemma TagAtLeft(a: string, b: string, s: string, i: nat)
    requires s == a + b && TagAt(a, i)
    ensures TagAt(s, i)
  {
    var t :| Begins(a, i, t);
    assert Begins(s, i, t);
  }

  lemma TagAtRight(a: string, b: string, s: string, i: nat)
    requires s == a + b && TagAt(b, i)
    ensures TagAt(s, |a| + i)
  {
    var t :| Begins(b, i, t);
    OccursShift(a, b, TagText(t), i);
    assert Begins(s, |a| + i, t);
  }

  lemma TagAtJoin(a: string, b: string, s: string, i: nat)
    requires s == a + b && Safe(a) && Safe(b) && i < |s| && s[i] == '<'
    ensures TagAt(s, i)
  {
    if i < |a| {
      assert s[i] == a[i];
      TagAtLeft(a, b, s, i);
    } else {
      assert s[i] == b[i - |a|];
      TagAtRight(a, b, s, i - |a|);
    }
  }

  lemma SafeJoin(a: string, b: string)
    requires Safe(a) && Safe(b)
    ensures Safe(a + b)
  {
    var s := a + b;
    forall i | 0 <= i < |s| && s[i] == '<' ensures TagAt(s, i) {
      TagAtJoin(a, b, s, i);
    }
  }

  lemma SafeJoin3(a: string, b: string, c: string)
    requires Safe(a) && Safe(b) && Safe(c)
    ensures Safe(a + b + c)
  {
    SafeJoin(a, b);
    SafeJoin(a + b, c);
  }

  lemma OccursShift(a: string, b: string, pat: string, i: nat)
    requires OccursAt(b, pat, i)
    ensures OccursAt(a + b, pat, |a| + i)
  {
    forall k | 0 <= k < |pat| ensures (a + b)[|a| + i + k] == pat[k] {
      assert (a + b)[|a| + (i + k)] == b[i + k];
    }
  }

  /** No tag contains a delimiter, so a text may be cut before one, and anywhere after one. */
  lemma SafeCut(s: string, lo: nat, hi: nat)
    requires Safe(s) && lo <= hi <= |s| && (hi == |s| || Delim(s[hi]))
    ensures Safe(s[lo..hi])
  {
    var part := s[lo..hi];
    forall i | 0 <= i < |part| && part[i] == '<' ensures TagAt(part, i) {
      assert s[lo + i] == '<';
      TagInPart(s, lo, hi, part, i);
    }
  }

  lemma TagIsWithin(s: string, lo: nat, hi: nat, part: string, i: nat, t: Tag)
    requires lo <= hi <= |s| && (hi == |s| || Delim(s[hi])) && part == s[lo..hi]
    requires i < |part| && Begins(s, lo + i, t)
    ensures Begins(part, i, t)
  {
    TagEndsBefore(s, t, lo + i, hi);
    OccursIntoSlice(s, lo, hi, TagText(t), i);
  }

  lemma TagInPart(s: string, lo: nat, hi: nat, part: string, i: nat)
    requires lo <= hi <= |s| && (hi == |s| || Delim(s[hi])) && part == s[lo..hi]
    requires i < |part| && TagAt(s, lo + i)
    ensures TagAt(part, i)
  {
    var t :| Begins(s, lo + i, t);
    TagIsWithin(s, lo, hi, part, i, t);
  }

  lemma TagEndsBefore(s: string, t: Tag, i: nat, hi: nat)
    requires Begins(s, i, t) && i < hi <= |s| && (hi == |s| || Delim(s[hi]))
    ensures i + |TagText(t)| <= hi
  {
    TagShape(t, TagText(t));
    forall j | i <= j < i + |TagText(t)| ensures !Delim(s[j]) {
      assert s[i + (j - i)] == TagText(t)[j - i];
    }
  }

  // ----- The four passes

  datatype Pass = CodeSpans | StrongSpans | EmSpans | Links

  /** A match: the text before `start` stays, `text` is wrapped, `url` is set only for links. */
  datatype Match = Match(start: nat, text: (nat, nat), url: (nat, nat), end: nat)

  function Next(s: string, c: char, from: nat): (r: nat)
    requires from <= |s|
    ensures from <= r <= |s| && (r < |s| ==> s[r] == c)
    ensures forall k :: from <= k < r ==> s[k] != c
    decreases |s| - from
  {
    if from == |s| || s[from] == c then from else Next(s, c, from + 1)
  }

  function UrlEnd(s: string, from: nat): (r: nat)
    requires from <= |s|
    ensures from <= r <= |s|
    decreases |s| - from
  {
    if from == |s| || s[from] == ')' || IsSpace(s[from]) then from else UrlEnd(s, from + 1)
  }

  // /`([^`]+)`/ at `i`
  function CodeAt(s: string, i: nat): Option<Match>
    requires i < |s|
  {
    if s[i] != '`' then None
    else
      var k := Next(s, '`', i + 1);
      if k == |s| || k == i + 1 then None else Some(Match(i, (i + 1, k), (k, k), k + 1))
  }

  // /\*\*([^*]+)\*\*/ at `i`
  function StrongAt(s: string, i: nat): Option<Match>
    requires i < |s|
  {
    if !OccursAt(s, "**", i) then None
    else
      var k := Next(s, '*', i + 2);
      if k == i + 2 || !OccursAt(s, "**", k) then None else Some(Match(i, (i + 2, k), (k, k), k + 2))
  }

  // /\*([^*\s][^*]*)\*/ with its first star at `p`
  function EmFrom(s: string, p: nat): Option<Match>
    requires p < |s| && s[p] == '*'
  {
    if p + 1 == |s| || s[p + 1] == '*' || IsSpace(s[p + 1]) then None
    else
      var k := Next(s, '*', p + 1);
      if k == |s| then None else Some(Match(p, (p + 1, k), (k, k), k + 1))
  }

  // The same after `(^|[^*])` at `i`; the character before the star is kept.
  function EmAt(s: string, i: nat): Option<Match>
    requires i < |s|
  {
    if s[i] == '*' then (if i == 0 then EmFrom(s, 0) else None)
    else if i + 1 < |s| && s[i + 1] == '*' then EmFrom(s, i + 1)
    else None
  }

  // /\[([^\]]*)\]\(([^)\s]+)\)/ at `i`
  function LinkAt(s: string, i: nat): Option<Match>
    requires i < |s|
  {
    if s[i] != '[' then None
    else
      var j := Next(s, ']', i + 1);
      if !OccursAt(s, "](", j) then None
      else
        var k := UrlEnd(s, j + 2);
        if k == j + 2 || k == |s| || s[k] != ')' then None
        else Some(Match(i, (i + 1, j), (j + 2, k), k + 1))
  }

  function MatchAt(pass: Pass, s: string, i: nat): Option<Match>
    requires i < |s|
  {
    match pass
    case CodeSpans => CodeAt(s, i)
    case StrongSpans => StrongAt(s, i)
    case EmSpans => EmAt(s, i)
    case Links => LinkAt(s, i)
  }

  predicate CutsAtDelims(s: string, m: Match, from: nat) {
    && from <= m.start < m.text.0 <= m.text.1 <= m.url.0 <= m.url.1 < m.end <= |s|
    && Delim(s[m.start]) && Delim(s[m.text.1]) && Delim(s[m.url.1])
  }

  lemma MatchCutsAtDelims(pass: Pass, s: string, i: nat)
    requires i < |s| && MatchAt(pass, s, i) != None
    ensures CutsAtDelims(s, MatchAt(pass, s, i).value, i)
  {
    match pass
    case CodeSpans =>
    case StrongSpans => OccursHead(s, "**", i);
    case EmSpans =>
    case Links => OccursHead(s, "](", Next(s, ']', i + 1));
  }

  /** The leftmost match from `from` on. */
  function Find(pass: Pass, s: string, from: nat): (r: Option<Match>)
    requires from <= |s|
    ensures r != None ==> CutsAtDelims(s, r.value, from)
    decreases |s| - from
  {
    if from == |s| then None
    else
      var m := MatchAt(pass, s, from);
      if m == None then Find(pass, s, from + 1)
      else
        MatchCutsAtDelims(pass, s, from);
        m
  }

  function Wrapped(pass: Pass, text: string, url: string): string {
    match pass
    case CodeSpans => TagText(Open(Code)) + text + TagText(Close(Code))
    case StrongSpans => TagText(Open(Strong)) + text + TagText(Close(Strong))
    case EmSpans => TagText(Open(Em)) + text + TagText(Close(Em))
    case Links => TagText(Link) + url + "\">" + text + TagText(Close(Anchor))
  }

  function ReplaceFrom(pass: Pass, s: string, from: nat): string
    requires from <= |s|
    decreases |s| - from
  {
    match Find(pass, s, from)
    case None => s[from..]
    case Some(m) =>
      s[from..m.start] + Wrapped(pass, s[m.text.0..m.text.1], s[m.url.0..m.url.1]) + ReplaceFrom(pass, s, m.end)
  }

  function RenderInline(text: string): string {
    var code := ReplaceFrom(CodeSpans, EscapeHtml(text), 0);
    var strong := ReplaceFrom(StrongSpans, code, 0);
    var em := ReplaceFrom(EmSpans, strong, 0);
    ReplaceFrom(Links, em, 0)
  }

  lemma TagsAround(a: Tag, text: string, b: Tag)
    requires Safe(text)
    ensures Safe(TagText(a) + text + TagText(b))
  {
    TagIsSafe(a);
    TagIsSafe(b);
    SafeJoin3(TagText(a), text, TagText(b));
  }

  lemma WrappedIsSafe(pass: Pass, text: string, url: string)
    requires Safe(text) && Safe(url)
    ensures Safe(Wrapped(pass, text, url))
  {
    match pass
    case CodeSpans => TagsAround(Open(Code), text, Close(Code));
    case StrongSpans => TagsAround(Open(Strong), text, Close(Strong));
    case EmSpans => TagsAround(Open(Em), text, Close(Em));
    case Links =>
      TagIsSafe(Link);
      TagIsSafe(Close(Anchor));
      PlainIsSafe("\">");
      SafeJoin3(TagText(Link), url, "\">");
      SafeJoin3(TagText(Link) + url + "\">", text, TagText(Close(Anchor)));
  }

  /** Each pass keeps the text safe: it cuts only at delimiters and adds only whole tags. */
  lemma {:induction false} ReplaceIsSafe(pass: Pass, s: string, from: nat)
    requires Safe(s) && from <= |s|
    ensures Safe(ReplaceFrom(pass, s, from))
    decreases |s| - from
  {
    var found := Find(pass, s, from);
    if found == None {
      SafeCut(s, from, |s|);
      assert s[from..|s|] == s[from..];
    } else {
      var m := found.value;
      SafeCut(s, from, m.start);
      SafeCut(s, m.text.0, m.text.1);
      SafeCut(s, m.url.0, m.url.1);
      WrappedIsSafe(pass, s[m.text.0..m.text.1], s[m.url.0..m.url.1]);
      ReplaceIsSafe(pass, s, m.end);
      SafeJoin3(s[from..m.start], Wrapped(pass, s[m.text.0..m.text.1], s[m.url.0..m.url.1]),
          ReplaceFrom(pass, s, m.end));
    }
  }

  /** Whatever the text, every raw `<` in its rendering begins a tag the renderer wrote. */
  lemma InlineIsSafe(text: string)
    ensures Safe(RenderInline(text))
  {
    var code := ReplaceFrom(CodeSpans, EscapeHtml(text), 0);
    var strong := ReplaceFrom(StrongSpans, code, 0);
    var em := ReplaceFrom(EmSpans, strong, 0);
    PlainIsSafe(EscapeHtml(text));
    ReplaceIsSafe(CodeSpans, EscapeHtml(text), 0);
    ReplaceIsSafe(StrongSpans, code, 0);
    ReplaceIsSafe(EmSpans, strong, 0);
    ReplaceIsSafe(Links, em, 0);
  }

  /** A text without delimiters is only escaped, so it can be read back. */
  lemma PlainTextIsOnlyEscaped(text: string)
    requires forall i :: 0 <= i < |text| ==> !Delim(text[i])
    ensures RenderInline(text) == EscapeHtml(text) && Unescape(RenderInline(text)) == text
  {
    var s := EscapeHtml(text);
    EscapeKeepsUndelimited(text);
    forall pass: Pass ensures ReplaceFrom(pass, s, 0) == s {
      assert Find(pass, s, 0) == None;
    }
    EscapeRoundTrips(text);
  }

  lemma {:induction false} EscapeKeepsUndelimited(text: string)
    requires forall i :: 0 <= i < |text| ==> !Delim(text[i])
    ensures forall i :: 0 <= i < |EscapeHtml(text)| ==> !Delim(EscapeHtml(text)[i])
  {
    if text != "" {
      assert !Delim(text[0]);
      EscapeKeepsUndelimited(text[1..]);
    }
  }
}
