/** Which lines are headings and list items, and what they say. */
module MarkdownLines {
  import opened Markdown
  import opened MarkdownInline
  import opened Wrappers

  function Repeat(c: char, n: nat): (s: string)
    ensures |s| == n && forall i :: 0 <= i < n ==> s[i] == c
  {
    if n == 0 then "" else [c] + Repeat(c, n - 1)
  }

  /** Text that `(.*)` captures whole after the spaces before it. */
  predicate OneLine(text: string) {
    (text != "" ==> !IsSpace(text[0])) && forall i :: 0 <= i < |text| ==> !Terminator(text[i])
  }

  lemma {:induction false} RunEndIs(s: string, c: char, from: nat, end: nat)
    requires from <= end <= |s| && (end < |s| ==> s[end] != c) && forall i :: from <= i < end ==> s[i] == c
    ensures RunEnd(s, c, from) == end
    decreases |s| - from
  {
    if from < end {
      RunEndIs(s, c, from + 1, end);
    }
  }

  lemma {:induction false} SkipSpacesIs(s: string, from: nat, end: nat)
    requires from <= end <= |s| && (end < |s| ==> !IsSpace(s[end])) && forall i :: from <= i < end ==> IsSpace(s[i])
    ensures SkipSpaces(s, from) == end
    decreases |s| - from
  {
    if from < end {
      SkipSpacesIs(s, from + 1, end);
    }
  }

  lemma RestIs(line: string, before: string, text: string)
    requires line == before + " " + text && OneLine(text)
    ensures DotRest(line, |before|) == Some(|before| + 1) && line[|before| + 1..] == text
  {
    var n := |before| + 1;
    forall i | n <= i < |line| ensures line[i] == text[i - n] {}
    SkipSpacesIs(line, |before|, n);
  }

  /** One to six marks, a space and the text make a heading of that level; seven or more do not. */
  lemma HeadingReads(level: nat, text: string)
    requires OneLine(text)
    ensures HeadingOf(Repeat('#', level) + " " + text) == if 1 <= level <= 6 then Some((level, Trim(text))) else None
  {
    var marks := Repeat('#', level);
    var line := marks + " " + text;
    RunEndIs(line, '#', 0, level);
    RestIs(line, marks, text);
  }

  /** Two spaces of indent are one level of depth. */
  lemma BulletReads(depth: nat, text: string)
    requires OneLine(text)
    ensures ItemOf(Repeat(' ', 2 * depth) + "- " + text) == Some(WithCheckbox(depth + 1, Bullets, text))
  {
    var indent := Repeat(' ', 2 * depth);
    var line := indent + "- " + text;
    assert line == (indent + "-") + " " + text;
    SkipSpacesIs(line, 0, 2 * depth);
    RestIs(line, indent + "-", text);
  }

  /** A box is ticked by `x` or `X` and open with a space; the text is what follows it. */
  lemma CheckboxReads(depth: nat, kind: ListKind, mark: char, text: string)
    requires OneLine(text)
    ensures WithCheckbox(depth, kind, "[" + [mark] + "] " + text) ==
            if mark in {' ', 'x', 'X'} then ItemParts(depth, kind, Some(mark != ' '), text)
            else ItemParts(depth, kind, None, "[" + [mark] + "] " + text)
  {
    var s := "[" + [mark] + "] " + text;
    assert s[4..] == text && (text != "" ==> s[4] == text[0]);
    SkipSpacesIs(s, 3, 4);
  }
}
