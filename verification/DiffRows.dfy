/** Anchoring the rows of a unified diff to lines of the old and the new file. */
module DiffRows {
  import opened Decimals
  import opened Texts
  import opened Wrappers

  datatype Side = Old | New

  datatype Anchor = Anchor(line: int, side: Side)

  datatype Kind = Add | Del | Context | HunkHead | Meta

  datatype Row = Row(kind: Kind, anchor: Option<Anchor>)

  const UNANCHORED := Row(Meta, None)

  // ----- The hunk header, `/^@@ -(\d+)(?:,\d+)? \+(\d+)(?:,\d+)? @@/`

  function DigitsEnd(s: string, from: nat): (r: nat)
    requires from <= |s|
    ensures from <= r <= |s|
    ensures forall k :: from <= k < r ==> IsDigit(s[k])
    ensures r < |s| ==> !IsDigit(s[r])
    decreases |s| - from
  {
    if from == |s| || !IsDigit(s[from]) then from else DigitsEnd(s, from + 1)
  }

  function CountEnd(s: string, from: nat): (r: nat)
    requires from <= |s|
    ensures from <= r <= |s|
  {
    if from < |s| && s[from] == ',' && DigitsEnd(s, from + 1) > from + 1 then DigitsEnd(s, from + 1) else from
  }

  /** `\d+(?:,\d+)?`: the number, and where the match ends. */
  function RangeAt(s: string, from: nat): (r: Option<(nat, nat)>)
    requires from <= |s|
    ensures r != None ==> r.value.1 <= |s|
  {
    var end := DigitsEnd(s, from);
    if end == from then None else Some((Value(s[from..end]), CountEnd(s, end)))
  }

  /** ` \+(\d+)(?:,\d+)? @@` */
  function NewStartAt(s: string, from: nat): Option<nat> {
    if !OccursAt(s, " +", from) then None
    else
      var n := RangeAt(s, from + 2);
      if n == None || !OccursAt(s, " @@", n.value.1) then None else Some(n.value.0)
  }

  /** The two starting lines of a hunk header. */
  function ParseHunk(s: string): Option<(nat, nat)> {
    if !OccursAt(s, "@@ -", 0) then None
    else
      var o := RangeAt(s, 4);
      if o == None then None
      else
        var n := NewStartAt(s, o.value.1);
        if n == None then None else Some((o.value.0, n.value))
  }

  // ----- The rows

  datatype State = State(oldLine: int, newLine: int, inHunk: bool)

  const START := State(0, 0, false)

  function IsSectionStart(raw: string): bool {
    OccursAt(raw, "diff --git ", 0)
  }

  function After(raw: string, st: State): State {
    if IsSectionStart(raw) then st.(inHunk := false)
    else if ParseHunk(raw) != None then State(ParseHunk(raw).value.0, ParseHunk(raw).value.1, true)
    else if !st.inHunk then st
    else if raw == "" then State(st.oldLine + 1, st.newLine + 1, true)
    else if raw[0] == '\\' then st
    else if raw[0] == '+' then st.(newLine := st.newLine + 1)
    else if raw[0] == '-' then st.(oldLine := st.oldLine + 1)
    else State(st.oldLine + 1, st.newLine + 1, true)
  }

  function RowOf(raw: string, st: State): Row {
    if IsSectionStart(raw) then UNANCHORED
    else if ParseHunk(raw) != None then Row(HunkHead, None)
    else if !st.inHunk then UNANCHORED
    else if raw == "" then Row(Context, Some(Anchor(st.newLine, New)))
    else if raw[0] == '\\' then UNANCHORED
    else if raw[0] == '+' then Row(Add, Some(Anchor(st.newLine, New)))
    else if raw[0] == '-' then Row(Del, Some(Anchor(st.oldLine, Old)))
    else Row(Context, Some(Anchor(st.newLine, New)))
  }

  function Rows(raws: seq<string>, st: State): seq<Row> {
    if raws == [] then [] else [RowOf(raws[0], st)] + Rows(raws[1..], After(raws[0], st))
  }

  function Through(raws: seq<string>, st: State): State {
    if raws == [] then st else Through(raws[1..], After(raws[0], st))
  }

  method MapDiffRows(rawDiffLines: seq<string>) returns (out: seq<Row>)
    ensures out == Rows(rawDiffLines, START)
  {
    out := [];
    var oldLine: int, newLine: int, inHunk := 0, 0, false;
    for i := 0 to |rawDiffLines|
      invariant out + Rows(rawDiffLines[i..], State(oldLine, newLine, inHunk)) == Rows(rawDiffLines, START)
    {
      var raw := rawDiffLines[i];
      ghost var st := State(oldLine, newLine, inHunk);
      assert rawDiffLines[i..][0] == raw && rawDiffLines[i..][1..] == rawDiffLines[i + 1..];
      assert out + [RowOf(raw, st)] + Rows(rawDiffLines[i + 1..], After(raw, st)) == Rows(rawDiffLines, START);
      var hunk := ParseHunk(raw);
      if IsSectionStart(raw) {
        inHunk := false;
        out := out + [UNANCHORED];
      } else if hunk != None {
        oldLine, newLine, inHunk := hunk.value.0, hunk.value.1, true;
        out := out + [Row(HunkHead, None)];
      } else if !inHunk || (raw != "" && raw[0] == '\\') {
        out := out + [UNANCHORED];
      } else if raw != "" && raw[0] == '+' {
        out := out + [Row(Add, Some(Anchor(newLine, New)))];
        newLine := newLine + 1;
      } else if raw != "" && raw[0] == '-' {
        out := out + [Row(Del, Some(Anchor(oldLine, Old)))];
        oldLine := oldLine + 1;
      } else {
        out := out + [Row(Context, Some(Anchor(newLine, New)))];
        oldLine, newLine := oldLine + 1, newLine + 1;
      }
    }
    assert out + [] == out;
  }

  lemma {:induction false} RowsJoin(a: seq<string>, b: seq<string>, st: State)
    ensures Rows(a + b, st) == Rows(a, st) + Rows(b, Through(a, st))
    ensures Through(a + b, st) == Through(b, Through(a, st))
  {
    if a == [] {
      assert a + b == b;
    } else {
      assert (a + b)[0] == a[0] && (a + b)[1..] == a[1..] + b;
      RowsJoin(a[1..], b, After(a[0], st));
    }
  }

  lemma {:induction false} OneRowEach(raws: seq<string>, st: State)
    ensures |Rows(raws, st)| == |raws|
  {
    if raws != [] {
      OneRowEach(raws[1..], After(raws[0], st));
    }
  }

  // ----- Reading a header back

  lemma DigitsEndIs(s: string, from: nat, end: nat)
    requires from <= end <= |s| && forall k :: from <= k < end ==> IsDigit(s[k])
    requires end < |s| ==> !IsDigit(s[end])
    ensures DigitsEnd(s, from) == end
  {
  }

  lemma NumberReads(s: string, from: nat, n: nat, text: string)
    requires text == Decimal(n) && OccursAt(s, text, from)
    requires from + |text| < |s| && !IsDigit(s[from + |text|])
    ensures DigitsEnd(s, from) == from + |text| && s[from..from + |text|] == text && Value(text) == n
  {
    forall k | from <= k < from + |text| ensures IsDigit(s[k]) {
      assert s[from + (k - from)] == text[k - from];
    }
    DigitsEndIs(s, from, from + |text|);
    SliceOccurs(s, text, from);
    ValueOfDecimal(n);
  }

  /** The optional `,count` of a range. */
  function CountText(count: Option<nat>): string {
    if count == None then "" else "," + Decimal(count.value)
  }

  lemma CountReads(s: string, from: nat, count: Option<nat>, text: string)
    requires text == CountText(count) && OccursAt(s, text, from)
    requires from + |text| < |s| && s[from + |text|] == ' '
    ensures CountEnd(s, from) == from + |text| && !IsDigit(s[from])
  {
    if count != None {
      var digits := Decimal(count.value);
      OccursHead(s, text, from);
      forall k | 0 <= k < |digits| ensures s[from + 1 + k] == digits[k] {
        assert s[from + (k + 1)] == text[k + 1];
      }
      NumberReads(s, from + 1, count.value, digits);
    }
  }

  function RangeText(start: nat, count: Option<nat>): string {
    Decimal(start) + CountText(count)
  }

  lemma OccursParts(s: string, a: string, b: string, i: nat)
    requires OccursAt(s, a + b, i)
    ensures OccursAt(s, a, i) && OccursAt(s, b, i + |a|)
  {
    forall k | 0 <= k < |a| ensures s[i + k] == a[k] {
      assert s[i + k] == (a + b)[k];
    }
    forall k | 0 <= k < |b| ensures s[i + |a| + k] == b[k] {
      assert s[i + (|a| + k)] == (a + b)[|a| + k];
    }
  }

  lemma RangeReads(s: string, from: nat, start: nat, count: Option<nat>, text: string)
    requires text == RangeText(start, count) && OccursAt(s, text, from)
    requires from + |text| < |s| && s[from + |text|] == ' '
    ensures RangeAt(s, from) == Some((start, from + |text|))
  {
    var (digits, rest) := (Decimal(start), CountText(count));
    OccursParts(s, digits, rest, from);
    CountReads(s, from + |digits|, count, rest);
    NumberReads(s, from, start, digits);
  }

  /** The header line of a hunk, as `diff -u` writes it: `@@ -10,3 +10,4 @@ def f():`. */
  function HunkHeader(h: Hunk): string {
    "@@ -" + (RangeText(h.oldStart, h.oldCount) + (" +" + (RangeText(h.newStart, h.newCount) + (" @@" + h.heading))))
  }

  lemma NewStartReads(s: string, start: nat, count: Option<nat>, n: string, b: nat, d: nat)
    requires n == RangeText(start, count)
    requires OccursAt(s, " +", b) && OccursAt(s, n, b + 2) && d == b + 2 + |n| && OccursAt(s, " @@", d)
    ensures NewStartAt(s, b) == Some(start)
  {
    OccursHead(s, " @@", d);
    RangeReads(s, b + 2, start, count, n);
  }

  lemma OldStartReads(s: string, start: nat, count: Option<nat>, o: string, b: nat, newStart: nat)
    requires o == RangeText(start, count)
    requires OccursAt(s, "@@ -", 0) && OccursAt(s, o, 4) && b == 4 + |o| && OccursAt(s, " +", b)
    requires NewStartAt(s, b) == Some(newStart)
    ensures ParseHunk(s) == Some((start, newStart))
  {
    OccursHead(s, " +", b);
    RangeReads(s, 4, start, count, o);
  }

  lemma PartsRead(s: string, h: Hunk, o: string, n: string, b: nat, d: nat)
    requires o == RangeText(h.oldStart, h.oldCount) && n == RangeText(h.newStart, h.newCount)
    requires OccursAt(s, "@@ -", 0) && OccursAt(s, o, 4) && b == 4 + |o| && OccursAt(s, " +", b)
    requires OccursAt(s, n, b + 2) && d == b + 2 + |n| && OccursAt(s, " @@", d)
    ensures ParseHunk(s) == Some((h.oldStart, h.newStart)) && !IsSectionStart(s)
  {
    HeaderIsNoTitle(s);
    NewStartReads(s, h.newStart, h.newCount, n, b, d);
    OldStartReads(s, h.oldStart, h.oldCount, o, b, h.newStart);
  }

  /** Whatever the numbers, optional counts and heading, the header gives back its two starts. */
  lemma HeaderRoundTrips(h: Hunk)
    ensures ParseHunk(HunkHeader(h)) == Some((h.oldStart, h.newStart))
    ensures !IsSectionStart(HunkHeader(h))
  {
    var o, n := RangeText(h.oldStart, h.oldCount), RangeText(h.newStart, h.newCount);
    HeaderParts(HunkHeader(h), o, n, h.heading);
    PartsRead(HunkHeader(h), h, o, n, 4 + |o|, 4 + |o| + 2 + |n|);
  }

  lemma HeaderIsNoTitle(s: string)
    requires OccursAt(s, "@@ -", 0)
    ensures !IsSectionStart(s)
  {
    OccursHead(s, "@@ -", 0);
    OccursHead(s, "diff --git ", 0);
  }

  lemma HeaderParts(s: string, o: string, n: string, heading: string)
    requires s == "@@ -" + (o + (" +" + (n + (" @@" + heading))))
    ensures OccursAt(s, "@@ -", 0) && OccursAt(s, o, 4) && OccursAt(s, " +", 4 + |o|)
    ensures OccursAt(s, n, 4 + |o| + 2) && OccursAt(s, " @@", 4 + |o| + 2 + |n|)
  {
    var tail := " @@" + heading;
    var (third, second, first) := (n + tail, " +" + (n + tail), o + (" +" + (n + tail)));
    OccursParts(s, "@@ -", first, 0);
    OccursParts(s, o, second, 4);
    OccursParts(s, " +", third, 4 + |o|);
    OccursParts(s, n, tail, 4 + |o| + 2);
    OccursParts(s, " @@", heading, 4 + |o| + 2 + |n|);
  }

  // ----- Well-formed diffs

  /** A body line: kept, removed, inserted, or the remark about a missing final newline. */
  datatype Line = Keep(text: string) | Remove(text: string) | Insert(text: string) | Remark(text: string)

  datatype Hunk = Hunk(
    oldStart: nat, oldCount: Option<nat>, newStart: nat, newCount: Option<nat>, heading: string, body: seq<Line>)

  /** One file's part of a diff: the `diff --git` line, other headers, hunks. */
  datatype Section = Section(title: string, headers: seq<string>, hunks: seq<Hunk>)

  function LineText(l: Line): string {
    (match l
     case Keep(_) => " "
     case Remove(_) => "-"
     case Insert(_) => "+"
     case Remark(_) => "\\") + l.text
  }

  function BodyText(body: seq<Line>): seq<string> {
    if body == [] then [] else [LineText(body[0])] + BodyText(body[1..])
  }

  function HunksText(hunks: seq<Hunk>): seq<string> {
    if hunks == [] then [] else [HunkHeader(hunks[0])] + BodyText(hunks[0].body) + HunksText(hunks[1..])
  }

  function SectionText(s: Section): seq<string> {
    ["diff --git " + s.title] + s.headers + HunksText(s.hunks)
  }

  predicate PlainHeaders(headers: seq<string>) {
    forall i :: 0 <= i < |headers| ==> !IsSectionStart(headers[i]) && ParseHunk(headers[i]) == None
  }

  // ----- The rows such a diff should get

  function OldLines(l: Line): nat {
    if l.Keep? || l.Remove? then 1 else 0
  }

  function NewLines(l: Line): nat {
    if l.Keep? || l.Insert? then 1 else 0
  }

  function LineRow(l: Line, o: int, n: int): Row {
    match l
    case Keep(_) => Row(Context, Some(Anchor(n, New)))
    case Remove(_) => Row(Del, Some(Anchor(o, Old)))
    case Insert(_) => Row(Add, Some(Anchor(n, New)))
    case Remark(_) => UNANCHORED
  }

  function BodyRows(body: seq<Line>, o: int, n: int): seq<Row> {
    if body == [] then []
    else [LineRow(body[0], o, n)] + BodyRows(body[1..], o + OldLines(body[0]), n + NewLines(body[0]))
  }

  function HunksRows(hunks: seq<Hunk>): seq<Row> {
    if hunks == [] then []
    else [Row(HunkHead, None)] + BodyRows(hunks[0].body, hunks[0].oldStart, hunks[0].newStart) + HunksRows(hunks[1..])
  }

  function Unanchored(n: nat): seq<Row> {
    seq(n, _ => UNANCHORED)
  }

  function SectionRows(s: Section): seq<Row> {
    Unanchored(1 + |s.headers|) + HunksRows(s.hunks)
  }

  /** No body line, whatever its text, can pass for a section start or a hunk header. */
  lemma BodyLineIsNoHeader(l: Line)
    ensures !IsSectionStart(LineText(l)) && ParseHunk(LineText(l)) == None
  {
    OccursHead(LineText(l), "diff --git ", 0);
    OccursHead(LineText(l), "@@ -", 0);
  }

  lemma LineRowIs(l: Line, st: State)
    requires st.inHunk
    ensures RowOf(LineText(l), st) == LineRow(l, st.oldLine, st.newLine)
    ensures After(LineText(l), st) == State(st.oldLine + OldLines(l), st.newLine + NewLines(l), true)
  {
    BodyLineIsNoHeader(l);
  }

  lemma BodyStep(l: Line, rest: seq<string>, st: State, next: State)
    requires st.inHunk && next == State(st.oldLine + OldLines(l), st.newLine + NewLines(l), true)
    ensures Rows([LineText(l)] + rest, st) == [LineRow(l, st.oldLine, st.newLine)] + Rows(rest, next)
    ensures Through([LineText(l)] + rest, st) == Through(rest, next)
  {
    LineRowIs(l, st);
    assert ([LineText(l)] + rest)[1..] == rest;
  }

  lemma {:induction false} BodyRowsAre(body: seq<Line>, st: State)
    requires st.inHunk
    ensures Rows(BodyText(body), st) == BodyRows(body, st.oldLine, st.newLine)
    ensures Through(BodyText(body), st).inHunk
  {
    if body != [] {
      var next := State(st.oldLine + OldLines(body[0]), st.newLine + NewLines(body[0]), true);
      BodyStep(body[0], BodyText(body[1..]), st, next);
      BodyRowsAre(body[1..], next);
    }
  }

  lemma HeaderRow(h: Hunk, st: State)
    ensures Rows([HunkHeader(h)], st) == [Row(HunkHead, None)]
    ensures Through([HunkHeader(h)], st) == State(h.oldStart, h.newStart, true)
  {
    HeaderRoundTrips(h);
    var s := HunkHeader(h);
    assert [s][1..] == [];
    assert RowOf(s, st) == Row(HunkHead, None);
  }

  lemma {:induction false} HunksRowsAre(hunks: seq<Hunk>, st: State)
    ensures Rows(HunksText(hunks), st) == HunksRows(hunks)
    decreases |hunks|
  {
    if hunks != [] {
      var head, body, rest := [HunkHeader(hunks[0])], BodyText(hunks[0].body), HunksText(hunks[1..]);
      var inside := State(hunks[0].oldStart, hunks[0].newStart, true);
      HeaderRow(hunks[0], st);
      BodyRowsAre(hunks[0].body, inside);
      RowsJoin(head, body, st);
      RowsJoin(head + body, rest, st);
      HunksRowsAre(hunks[1..], Through(body, inside));
    }
  }

  lemma {:induction false} PlainRows(headers: seq<string>, st: State)
    requires PlainHeaders(headers) && !st.inHunk
    ensures Rows(headers, st) == Unanchored(|headers|) && Through(headers, st) == st
  {
    if headers != [] {
      PlainRows(headers[1..], st);
    }
  }

  lemma TitleRow(title: string, st: State)
    ensures Rows(["diff --git " + title], st) == [UNANCHORED]
    ensures !Through(["diff --git " + title], st).inHunk
  {
    var s := "diff --git " + title;
    assert IsSectionStart(s);
    assert [s][1..] == [];
  }

  /** A section gets its expected rows wherever in a diff it stands: nothing carries over. */
  lemma SectionRowsAre(s: Section, st: State)
    requires PlainHeaders(s.headers)
    ensures Rows(SectionText(s), st) == SectionRows(s)
  {
    var title := ["diff --git " + s.title];
    TitleRow(s.title, st);
    PlainRows(s.headers, Through(title, st));
    HunksRowsAre(s.hunks, Through(s.headers, Through(title, st)));
    RowsJoin(title, s.headers, st);
    RowsJoin(title + s.headers, HunksText(s.hunks), st);
    assert [UNANCHORED] + Unanchored(|s.headers|) == Unanchored(1 + |s.headers|);
  }

  function DiffText(sections: seq<Section>): seq<string> {
    if sections == [] then [] else SectionText(sections[0]) + DiffText(sections[1..])
  }

  function DiffRowsOf(sections: seq<Section>): seq<Row> {
    if sections == [] then [] else SectionRows(sections[0]) + DiffRowsOf(sections[1..])
  }

  /** A whole diff, from any state. */
  lemma {:induction false} DiffRowsAre(sections: seq<Section>, st: State)
    requires forall i :: 0 <= i < |sections| ==> PlainHeaders(sections[i].headers)
    ensures Rows(DiffText(sections), st) == DiffRowsOf(sections)
    ensures |DiffRowsOf(sections)| == |DiffText(sections)|
    decreases |sections|
  {
    OneRowEach(DiffText(sections), st);
    if sections != [] {
      SectionRowsAre(sections[0], st);
      RowsJoin(SectionText(sections[0]), DiffText(sections[1..]), st);
      DiffRowsAre(sections[1..], Through(SectionText(sections[0]), st));
    }
  }

  // ----- What the anchors mean

  /** `anchorForRow`: no anchor for unanchored or missing rows. */
  function AnchorForRow(meta: seq<Row>, rowIndex: int): Option<Anchor> {
    if 0 <= rowIndex < |meta| then meta[rowIndex].anchor else None
  }

  predicate LineFits(l: Line, o: int, n: int, was: seq<string>, now: seq<string>) {
    && (OldLines(l) == 1 ==> 1 <= o <= |was| && was[o - 1] == l.text)
    && (NewLines(l) == 1 ==> 1 <= n <= |now| && now[n - 1] == l.text)
  }

  predicate BodyFits(body: seq<Line>, o: int, n: int, was: seq<string>, now: seq<string>) {
    body == [] ||
    (LineFits(body[0], o, n, was, now) &&
     BodyFits(body[1..], o + OldLines(body[0]), n + NewLines(body[0]), was, now))
  }

  function CountLines(body: seq<Line>, side: Side): nat {
    if body == [] then 0
    else (if side == Old then OldLines(body[0]) else NewLines(body[0])) + CountLines(body[1..], side)
  }

  function StartOf(h: Hunk, side: Side): nat {
    if side == Old then h.oldStart else h.newStart
  }

  /** The first line of a side that no hunk has shown yet. */
  function FreeAfter(h: Hunk, side: Side, free: nat): nat {
    var count := CountLines(h.body, side);
    if count == 0 then free else StartOf(h, side) + count
  }

  predicate InOrder(h: Hunk, side: Side, free: nat) {
    CountLines(h.body, side) > 0 ==> free <= StartOf(h, side)
  }

  /** The hunks show lines of the two files where they stand, each line once, going down. */
  predicate HunksFit(hunks: seq<Hunk>, oldFree: nat, newFree: nat, was: seq<string>, now: seq<string>)
    decreases |hunks|
  {
    hunks == [] ||
    (var h := hunks[0];
     && BodyFits(h.body, h.oldStart, h.newStart, was, now)
     && InOrder(h, Old, oldFree) && InOrder(h, New, newFree)
     && HunksFit(hunks[1..], FreeAfter(h, Old, oldFree), FreeAfter(h, New, newFree), was, now))
  }

  predicate DescribesChange(s: Section, was: seq<string>, now: seq<string>) {
    PlainHeaders(s.headers) && HunksFit(s.hunks, 0, 0, was, now)
  }

  /** An anchored row's text, after its mark, is the anchored line of the anchored file. */
  predicate Shows(raw: string, row: Row, was: seq<string>, now: seq<string>) {
    row.anchor != None ==>
      var (line, file) := (row.anchor.value.line, if row.anchor.value.side == Old then was else now);
      raw != "" && 1 <= line <= |file| && file[line - 1] == raw[1..]
  }

  predicate AllShow(raws: seq<string>, rows: seq<Row>, was: seq<string>, now: seq<string>) {
    |raws| == |rows| && forall i :: 0 <= i < |raws| ==> Shows(raws[i], rows[i], was, now)
  }

  lemma {:induction false} BodyShows(body: seq<Line>, o: int, n: int, was: seq<string>, now: seq<string>)
    requires BodyFits(body, o, n, was, now)
    ensures AllShow(BodyText(body), BodyRows(body, o, n), was, now)
  {
    if body != [] {
      assert LineText(body[0])[1..] == body[0].text;
      BodyShows(body[1..], o + OldLines(body[0]), n + NewLines(body[0]), was, now);
    }
  }

  lemma {:induction false} HunksShow(hunks: seq<Hunk>, oldFree: nat, newFree: nat, was: seq<string>, now: seq<string>)
    requires HunksFit(hunks, oldFree, newFree, was, now)
    ensures AllShow(HunksText(hunks), HunksRows(hunks), was, now)
    decreases |hunks|
  {
    if hunks != [] {
      var h := hunks[0];
      BodyShows(h.body, h.oldStart, h.newStart, was, now);
      HunksShow(hunks[1..], FreeAfter(h, Old, oldFree), FreeAfter(h, New, newFree), was, now);
    }
  }

  /** In every well-formed section, wherever it stands, each anchored row shows the line it is anchored to. */
  lemma AnchoredRowsShowTheirLine(s: Section, st: State, was: seq<string>, now: seq<string>)
    requires DescribesChange(s, was, now)
    ensures AllShow(SectionText(s), Rows(SectionText(s), st), was, now)
  {
    SectionRowsAre(s, st);
    HunksShow(s.hunks, 0, 0, was, now);
  }

  // ----- No two rows share an anchor

  predicate OnSide(row: Row, side: Side) {
    row.anchor != None && row.anchor.value.side == side
  }

  /** The anchors of a side strictly increase, from `lo` on. */
  ghost predicate Climbs(rows: seq<Row>, side: Side, lo: int) {
    && (forall i :: 0 <= i < |rows| && OnSide(rows[i], side) ==> lo <= rows[i].anchor.value.line)
    && (forall i, j :: 0 <= i < j < |rows| && OnSide(rows[i], side) && OnSide(rows[j], side) ==>
          rows[i].anchor.value.line < rows[j].anchor.value.line)
  }

  ghost predicate Under(rows: seq<Row>, side: Side, hi: int) {
    forall i :: 0 <= i < |rows| && OnSide(rows[i], side) ==> rows[i].anchor.value.line < hi
  }

  lemma ClimbsJoin(a: seq<Row>, b: seq<Row>, side: Side, lo: int, mid: int)
    requires Climbs(a, side, lo) && Under(a, side, mid) && Climbs(b, side, mid) && lo <= mid
    ensures Climbs(a + b, side, lo)
  {
  }

  lemma {:induction false} BodyClimbs(body: seq<Line>, o: int, n: int, side: Side)
    ensures var start := if side == Old then o else n;
            && Climbs(BodyRows(body, o, n), side, start)
            && Under(BodyRows(body, o, n), side, start + CountLines(body, side))
  {
    if body != [] {
      var first := [LineRow(body[0], o, n)];
      BodyClimbs(body[1..], o + OldLines(body[0]), n + NewLines(body[0]), side);
    }
  }

  lemma HunkClimbs(h: Hunk, side: Side, free: nat)
    requires InOrder(h, side, free)
    ensures Climbs(BodyRows(h.body, h.oldStart, h.newStart), side, free)
    ensures Under(BodyRows(h.body, h.oldStart, h.newStart), side, FreeAfter(h, side, free))
    ensures free <= FreeAfter(h, side, free)
  {
    BodyClimbs(h.body, h.oldStart, h.newStart, side);
  }

  lemma {:induction false} HunksClimb(hunks: seq<Hunk>, oldFree: nat, newFree: nat, was: seq<string>, now: seq<string>,
                                      side: Side)
    requires HunksFit(hunks, oldFree, newFree, was, now)
    ensures Climbs(HunksRows(hunks), side, if side == Old then oldFree else newFree)
    decreases |hunks|
  {
    if hunks != [] {
      var h, free := hunks[0], if side == Old then oldFree else newFree;
      var head, body := [Row(HunkHead, None)], BodyRows(h.body, h.oldStart, h.newStart);
      HunkClimbs(h, side, free);
      HunksClimb(hunks[1..], FreeAfter(h, Old, oldFree), FreeAfter(h, New, newFree), was, now, side);
      ClimbsJoin(head, body, side, free, free);
      ClimbsJoin(head + body, HunksRows(hunks[1..]), side, free, FreeAfter(h, side, free));
    }
  }

  /** Within a section no two rows have the same anchor. */
  lemma AnchorsAreDistinct(s: Section, st: State, was: seq<string>, now: seq<string>, i: nat, j: nat)
    requires DescribesChange(s, was, now)
    requires i < j && AnchorForRow(Rows(SectionText(s), st), i) != None
    ensures AnchorForRow(Rows(SectionText(s), st), i) != AnchorForRow(Rows(SectionText(s), st), j)
  {
    SectionRowsAre(s, st);
    var side := SectionRows(s)[i].anchor.value.side;
    HunksClimb(s.hunks, 0, 0, was, now, side);
    ClimbsJoin(Unanchored(1 + |s.headers|), HunksRows(s.hunks), side, 0, 0);
  }

  // ----- The trailing empty row

  lemma {:induction false} ThroughBody(body: seq<Line>, st: State)
    requires st.inHunk
    ensures Through(BodyText(body), st) ==
            State(st.oldLine + CountLines(body, Old), st.newLine + CountLines(body, New), true)
  {
    if body != [] {
      var next := State(st.oldLine + OldLines(body[0]), st.newLine + NewLines(body[0]), true);
      BodyStep(body[0], BodyText(body[1..]), st, next);
      ThroughBody(body[1..], next);
    }
  }

  lemma {:induction false} ThroughHunks(hunks: seq<Hunk>, st: State)
    requires hunks != []
    ensures var last := hunks[|hunks| - 1];
            Through(HunksText(hunks), st) ==
            State(last.oldStart + CountLines(last.body, Old), last.newStart + CountLines(last.body, New), true)
    decreases |hunks|
  {
    var h, rest := hunks[0], HunksText(hunks[1..]);
    var end := State(h.oldStart + CountLines(h.body, Old), h.newStart + CountLines(h.body, New), true);
    ThroughHunk(h, [HunkHeader(h)], BodyText(h.body), rest, st, end);
    if |hunks| > 1 {
      ThroughHunks(hunks[1..], end);
    }
  }

  lemma ThroughHunk(h: Hunk, head: seq<string>, body: seq<string>, rest: seq<string>, st: State, end: State)
    requires head == [HunkHeader(h)] && body == BodyText(h.body)
    requires end == State(h.oldStart + CountLines(h.body, Old), h.newStart + CountLines(h.body, New), true)
    ensures Through(head + body + rest, st) == Through(rest, end)
  {
    HeaderRow(h, st);
    ThroughBody(h.body, State(h.oldStart, h.newStart, true));
    ThroughParts(head, body, rest, st, State(h.oldStart, h.newStart, true), end);
  }

  lemma ThroughParts(head: seq<string>, body: seq<string>, rest: seq<string>, st: State, inside: State, end: State)
    requires Through(head, st) == inside && Through(body, inside) == end
    ensures Through(head + body + rest, st) == Through(rest, end)
  {
    RowsJoin(head, body, st);
    RowsJoin(head + body, rest, st);
  }

  /** Splitting a diff that ends in a newline leaves one empty string more. It is taken for a
      context row, anchored to the line after the last hunk's, and shows no line of either file. */
  lemma TrailingBlankIsAnchored(s: Section, st: State, was: seq<string>, now: seq<string>)
    requires DescribesChange(s, was, now) && s.hunks != []
    ensures var last := s.hunks[|s.hunks| - 1];
            var phantom := Row(Context, Some(Anchor(last.newStart + CountLines(last.body, New), New)));
            && Rows(SectionText(s) + [""], st) == SectionRows(s) + [phantom]
            && !Shows("", phantom, was, now)
  {
    var text := SectionText(s);
    ThroughSection(["diff --git " + s.title] + s.headers, s.hunks, st);
    SectionRowsAre(s, st);
    RowsJoin(text, [""], st);
    BlankRow(Through(text, st));
  }

  lemma ThroughSection(front: seq<string>, hunks: seq<Hunk>, st: State)
    requires hunks != []
    ensures var last := hunks[|hunks| - 1];
            Through(front + HunksText(hunks), st) ==
            State(last.oldStart + CountLines(last.body, Old), last.newStart + CountLines(last.body, New), true)
  {
    RowsJoin(front, HunksText(hunks), st);
    ThroughHunks(hunks, Through(front, st));
  }

  lemma PlainSectionEnds(s: Section, st: State)
    requires PlainHeaders(s.headers) && s.hunks == []
    ensures !Through(SectionText(s), st).inHunk
  {
    var title := ["diff --git " + s.title];
    TitleRow(s.title, st);
    PlainRows(s.headers, Through(title, st));
    RowsJoin(title, s.headers, st);
    RowsJoin(title + s.headers, [], st);
    assert SectionText(s) == title + s.headers + [];
  }

  /** The line of the new file after a hunk's. */
  function EndOf(h: Hunk): int {
    h.newStart + CountLines(h.body, New)
  }

  /** The state is inside a hunk exactly when there are hunks, past the last one's new lines. */
  predicate EndsAfter(end: State, hunks: seq<Hunk>) {
    if hunks == [] then !end.inHunk
    else end.inHunk && end.newLine == EndOf(hunks[|hunks| - 1])
  }

  lemma SectionEnds(s: Section, st: State) returns (end: State)
    requires PlainHeaders(s.headers)
    ensures end == Through(SectionText(s), st) && EndsAfter(end, s.hunks)
  {
    end := Through(SectionText(s), st);
    if s.hunks == [] {
      PlainSectionEnds(s, st);
    } else {
      ThroughSection(["diff --git " + s.title] + s.headers, s.hunks, st);
    }
  }

  lemma {:induction false} DiffEnds(sections: seq<Section>, st: State) returns (end: State)
    requires sections != [] && forall i :: 0 <= i < |sections| ==> PlainHeaders(sections[i].headers)
    ensures end == Through(DiffText(sections), st) && EndsAfter(end, sections[|sections| - 1].hunks)
    decreases |sections|
  {
    end := SectionEnds(sections[0], st);
    RowsJoin(SectionText(sections[0]), DiffText(sections[1..]), st);
    if |sections| > 1 {
      end := DiffEnds(sections[1..], end);
    }
  }

  /** The extra row of a whole diff is anchored exactly when its last section has hunks, and then to
      the line after the last one's. */
  lemma TrailingBlankExactly(sections: seq<Section>, st: State) returns (row: Row)
    requires sections != [] && forall i :: 0 <= i < |sections| ==> PlainHeaders(sections[i].headers)
    ensures Rows(DiffText(sections) + [""], st) == DiffRowsOf(sections) + [row]
    ensures var hunks := sections[|sections| - 1].hunks;
            row == if hunks == [] then UNANCHORED
                   else Row(Context, Some(Anchor(EndOf(hunks[|hunks| - 1]), New)))
  {
    var end := DiffEnds(sections, st);
    row := if end.inHunk then Row(Context, Some(Anchor(end.newLine, New))) else UNANCHORED;
    DiffRowsAre(sections, st);
    RowsJoin(DiffText(sections), [""], st);
    BlankRow(end);
  }

  lemma BlankRow(st: State)
    ensures Rows([""], st) == [if st.inHunk then Row(Context, Some(Anchor(st.newLine, New))) else UNANCHORED]
  {
    assert [""][1..] == [];
    assert !IsSectionStart("") && ParseHunk("") == None;
  }
}
