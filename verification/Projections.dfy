/** Views of an observation: redaction of whole value trees, and text cut to a budget. */
module Projections {
  import opened Values
  import opened Wrappers

  // ----- Redaction

  const REDACTED := "[REDACTED]"

  /** A mapping comes out as a plain dict, a list as a list, a tuple as a tuple. */
  function Redacted(v: Value, redactions: set<string>): Value {
    match v
    case Str(s) => if s in redactions then Str(REDACTED) else v
    case Items(m, items) => Items(m, seq(|items|, i requires 0 <= i < |items| => Redacted(items[i], redactions)))
    case Fields(_, fields) => Fields(true, map k | k in fields :: Redacted(fields[k], redactions))
    case _ => v
  }

  /** Some string leaf of the tree is `s`. Keys are not leaves. */
  predicate Leaf(v: Value, s: string) {
    match v
    case Str(t) => t == s
    case Items(_, items) => exists i :: 0 <= i < |items| && Leaf(items[i], s)
    case Fields(_, fields) => exists k :: k in fields && Leaf(fields[k], s)
    case _ => false
  }

  /** The same tree up to the text of its strings, with dicts for mappings. */
  predicate SameShape(v: Value, w: Value) {
    match v
    case Str(_) => w.Str?
    case Items(m, items) =>
      && w.Items? && w.mutable == m && |w.items| == |items|
      && forall i :: 0 <= i < |items| ==> SameShape(items[i], w.items[i])
    case Fields(_, fields) =>
      && w.Fields? && w.mutable && w.fields.Keys == fields.Keys
      && forall k :: k in fields ==> SameShape(fields[k], w.fields[k])
    case _ => v == w
  }

  lemma {:induction false} RedactionKeepsShape(v: Value, redactions: set<string>)
    ensures SameShape(v, Redacted(v, redactions))
  {
    match v
    case Items(_, items) => forall i | 0 <= i < |items| { RedactionKeepsShape(items[i], redactions); }
    case Fields(_, fields) => forall k | k in fields { RedactionKeepsShape(fields[k], redactions); }
    case _ =>
  }

  /** A declared string is a leaf of something. */
  ghost predicate Matches(v: Value, redactions: set<string>) {
    exists s :: s in redactions && Leaf(v, s)
  }

  /** The leaves afterwards are the undeclared leaves from before, and the placeholder exactly
      when something matched or it was there already. */
  lemma {:induction false} LeavesAfterwards(v: Value, redactions: set<string>, s: string)
    ensures Leaf(Redacted(v, redactions), s) <==>
            (Leaf(v, s) && s !in redactions) || (s == REDACTED && Matches(v, redactions))
    decreases v, 1
  {
    match v
    case Str(t) =>
      assert Leaf(v, t);
    case Items(_, items) => LeavesOfItems(v, redactions, s);
    case Fields(_, fields) => LeavesOfFields(v, redactions, s);
    case _ =>
  }

  lemma MatchesItems(v: Value, redactions: set<string>)
    requires v.Items?
    ensures Matches(v, redactions) <==> exists i :: 0 <= i < |v.items| && Matches(v.items[i], redactions)
  {
    if Matches(v, redactions) {
      var s :| s in redactions && Leaf(v, s);
      var i :| 0 <= i < |v.items| && Leaf(v.items[i], s);
      assert Matches(v.items[i], redactions);
    }
    if i :| 0 <= i < |v.items| && Matches(v.items[i], redactions) {
      var s :| s in redactions && Leaf(v.items[i], s);
      assert Leaf(v, s);
    }
  }

  lemma MatchesFields(v: Value, redactions: set<string>)
    requires v.Fields?
    ensures Matches(v, redactions) <==> exists k :: k in v.fields && Matches(v.fields[k], redactions)
  {
    if Matches(v, redactions) {
      var s :| s in redactions && Leaf(v, s);
      var k :| k in v.fields && Leaf(v.fields[k], s);
      assert Matches(v.fields[k], redactions);
    }
    if k :| k in v.fields && Matches(v.fields[k], redactions) {
      var s :| s in redactions && Leaf(v.fields[k], s);
      assert Leaf(v, s);
    }
  }

  lemma {:induction false} LeavesOfItems(v: Value, redactions: set<string>, s: string)
    requires v.Items?
    ensures Leaf(Redacted(v, redactions), s) <==>
            (Leaf(v, s) && s !in redactions) || (s == REDACTED && Matches(v, redactions))
    decreases v, 0
  {
    var w := Redacted(v, redactions);
    forall i | 0 <= i < |v.items|
      ensures Leaf(w.items[i], s) <==>
              (Leaf(v.items[i], s) && s !in redactions) || (s == REDACTED && Matches(v.items[i], redactions))
    {
      LeavesAfterwards(v.items[i], redactions, s);
    }
    MatchesItems(v, redactions);
  }

  lemma {:induction false} LeavesOfFields(v: Value, redactions: set<string>, s: string)
    requires v.Fields?
    ensures Leaf(Redacted(v, redactions), s) <==>
            (Leaf(v, s) && s !in redactions) || (s == REDACTED && Matches(v, redactions))
    decreases v, 0
  {
    var w := Redacted(v, redactions);
    forall k | k in v.fields
      ensures Leaf(w.fields[k], s) <==>
              (Leaf(v.fields[k], s) && s !in redactions) || (s == REDACTED && Matches(v.fields[k], redactions))
    {
      LeavesAfterwards(v.fields[k], redactions, s);
    }
    MatchesFields(v, redactions);
  }

  /** No declared string survives as a leaf, unless it is the placeholder itself. */
  lemma NothingDeclaredSurvives(v: Value, redactions: set<string>, s: string)
    requires s in redactions && Leaf(Redacted(v, redactions), s)
    ensures s == REDACTED
  {
    LeavesAfterwards(v, redactions, s);
  }

  lemma {:induction false} RedactionIsIdempotent(v: Value, redactions: set<string>)
    ensures Redacted(Redacted(v, redactions), redactions) == Redacted(v, redactions)
  {
    var w := Redacted(v, redactions);
    match v
    case Items(_, items) =>
      forall i | 0 <= i < |items| { RedactionIsIdempotent(items[i], redactions); }
      ItemsAgree(Redacted(w, redactions), w);
    case Fields(_, fields) =>
      forall k | k in fields { RedactionIsIdempotent(fields[k], redactions); }
      FieldsAgree(Redacted(w, redactions), w);
    case _ =>
  }

  method RedactValue(v: Value, redactions: set<string>) returns (r: Value, redacted: bool)
    ensures r == Redacted(v, redactions)
    ensures redacted <==> Matches(v, redactions)
    decreases v, 1
  {
    match v
    case Str(s) =>
      assert Leaf(v, s);
      if s in redactions {
        return Str(REDACTED), true;
      }
      return v, false;
    case Items(_, _) => r, redacted := RedactItems(v, redactions);
    case Fields(_, _) => r, redacted := RedactFields(v, redactions);
    case _ => return v, false;
  }

  method RedactItems(v: Value, redactions: set<string>) returns (r: Value, redacted: bool)
    requires v.Items?
    ensures r == Redacted(v, redactions)
    ensures redacted <==> Matches(v, redactions)
    decreases v, 0
  {
    var out: seq<Value> := [];
    redacted := false;
    for i := 0 to |v.items|
      invariant |out| == i && forall j :: 0 <= j < i ==> out[j] == Redacted(v.items[j], redactions)
      invariant redacted <==> exists j :: 0 <= j < i && Matches(v.items[j], redactions)
    {
      var item, itemRedacted := RedactValue(v.items[i], redactions);
      out := out + [item];
      redacted := redacted || itemRedacted;
    }
    r := Items(v.mutable, out);
    ItemsAgree(r, Redacted(v, redactions));
    MatchesItems(v, redactions);
  }

  method RedactFields(v: Value, redactions: set<string>) returns (r: Value, redacted: bool)
    requires v.Fields?
    ensures r == Redacted(v, redactions)
    ensures redacted <==> Matches(v, redactions)
    decreases v, 0
  {
    var result: map<Key, Value> := map[];
    redacted := false;
    var todo := v.fields.Keys;
    while todo != {}
      invariant todo <= v.fields.Keys && result.Keys == v.fields.Keys - todo
      invariant forall k :: k in result ==> result[k] == Redacted(v.fields[k], redactions)
      invariant redacted <==> exists k :: k in result && Matches(v.fields[k], redactions)
      decreases |todo|
    {
      var k :| k in todo;
      var item, itemRedacted := RedactValue(v.fields[k], redactions);
      result := result[k := item];
      todo := todo - {k};
      redacted := redacted || itemRedacted;
    }
    r := Fields(true, result);
    FieldsAgree(r, Redacted(v, redactions));
    MatchesFields(v, redactions);
  }

  // ----- Text within a budget

  /** The characters at which Python's `splitlines` breaks. */
  predicate BreaksLine(c: char) {
    '\n' <= c <= '\r' || '\U{1c}' <= c <= '\U{1e}' || c == '\U{85}' || c == '\U{2028}' || c == '\U{2029}'
  }

  function FirstBreak(s: string, from: nat): (r: nat)
    requires from <= |s|
    ensures from <= r <= |s| && (r < |s| ==> BreaksLine(s[r]))
    ensures forall k :: from <= k < r ==> !BreaksLine(s[k])
    decreases |s| - from
  {
    if from == |s| || BreaksLine(s[from]) then from else FirstBreak(s, from + 1)
  }

  /** What follows the first line; a carriage return and newline break once. */
  function AfterLine(s: string): (r: string)
    ensures s != "" ==> |r| < |s|
  {
    var i := FirstBreak(s, 0);
    if i == |s| then ""
    else if s[i] == '\r' && i + 1 < |s| && s[i + 1] == '\n' then s[i + 2..]
    else s[i + 1..]
  }

  function SplitLines(s: string): seq<string>
    decreases |s|
  {
    if s == "" then [] else [s[..FirstBreak(s, 0)]] + SplitLines(AfterLine(s))
  }

  /** `"\n".join(lines)` */
  function JoinLines(lines: seq<string>): string {
    if lines == [] then ""
    else if |lines| == 1 then lines[0]
    else lines[0] + "\n" + JoinLines(lines[1..])
  }

  /** The first `k` lines fit the budget and one more would not. */
  predicate LongestFit(lines: seq<string>, k: nat, maxChars: nat) {
    && k <= |lines| && |JoinLines(lines[..k])| <= maxChars
    && (k < |lines| ==> |JoinLines(lines[..k + 1])| > maxChars)
  }

  function Width(lines: seq<string>): nat {
    if lines == [] then 0 else Width(lines[..|lines| - 1]) + |lines[|lines| - 1]| + if |lines| == 1 then 0 else 1
  }

  lemma {:induction false} JoinSnoc(lines: seq<string>, last: string)
    requires lines != []
    ensures |JoinLines(lines + [last])| == |JoinLines(lines)| + 1 + |last|
  {
    if |lines| == 1 {
      assert (lines + [last])[1..] == [last];
    } else {
      assert (lines + [last])[1..] == lines[1..] + [last];
      JoinSnoc(lines[1..], last);
    }
  }

  lemma {:induction false} WidthIsLength(lines: seq<string>)
    ensures Width(lines) == |JoinLines(lines)|
  {
    if |lines| == 1 {
      assert lines[..0] == [];
    } else if lines != [] {
      var front, last := lines[..|lines| - 1], lines[|lines| - 1];
      WidthIsLength(front);
      JoinSnoc(front, last);
      assert lines == front + [last];
    }
  }

  lemma WidthGrows(lines: seq<string>, k: nat)
    requires k < |lines|
    ensures Width(lines[..k + 1]) == Width(lines[..k]) + |lines[k]| + if k == 0 then 0 else 1
  {
    assert lines[..k + 1][..k] == lines[..k];
  }

  /** The longest run of whole first lines that fits, joined by newlines. */
  ghost predicate LongestCut(lines: seq<string>, maxChars: nat, cut: string) {
    exists k: nat :: LongestFit(lines, k, maxChars) && cut == JoinLines(lines[..k])
  }

  /** Text within the budget is left alone; longer text is cut to the longest run of whole lines
      that fits. */
  method FitText(text: string, maxChars: nat) returns (fitted: string, truncated: bool)
    ensures truncated <==> |text| > maxChars
    ensures |fitted| <= maxChars
    ensures if truncated then LongestCut(SplitLines(text), maxChars, fitted) else fitted == text
  {
    if |text| <= maxChars {
      return text, false;
    }
    var lines := SplitLines(text);
    var selected, used := [], 0;
    while |selected| < |lines|
      invariant |selected| <= |lines| && selected == lines[..|selected|] && used == Width(selected) <= maxChars
    {
      var line := lines[|selected|];
      var extra := if selected == [] then |line| else |line| + 1;
      WidthGrows(lines, |selected|);
      if used + extra > maxChars {
        break;
      }
      assert lines[..|selected| + 1] == selected + [line];
      selected, used := selected + [line], used + extra;
    }
    WidthIsLength(selected);
    if |selected| < |lines| {
      WidthGrows(lines, |selected|);
      WidthIsLength(lines[..|selected| + 1]);
    }
    assert LongestFit(lines, |selected|, maxChars);
    fitted, truncated := JoinLines(selected), true;
  }

  /** The first `k` lines end in plain newlines, the last of them aside. */
  predicate PlainBreaks(s: string, k: nat)
    decreases |s|
  {
    k <= 1 || s == "" || (FirstBreak(s, 0) < |s| && s[FirstBreak(s, 0)] == '\n' && PlainBreaks(AfterLine(s), k - 1))
  }

  predicate Prefix(a: string, s: string) {
    |a| <= |s| && forall i :: 0 <= i < |a| ==> a[i] == s[i]
  }

  lemma PrefixAfter(line: string, c: char, rest: string, tail: string)
    ensures Prefix(line + "\n" + tail, line + [c] + rest) <==> c == '\n' && Prefix(tail, rest)
  {
    var a, s := line + "\n" + tail, line + [c] + rest;
    assert a[|line|] == '\n' && s[|line|] == c;
    if Prefix(a, s) {
      forall i | 0 <= i < |tail| ensures tail[i] == rest[i] {
        assert a[|line| + 1 + i] == tail[i] && s[|line| + 1 + i] == rest[i];
      }
    }
  }

  lemma LineParts(s: string, i: nat)
    requires i < |s|
    ensures s == s[..i] + [s[i]] + s[i + 1..]
  {
  }

  /** Cut text is literally a beginning of the text exactly when the breaks kept in it are plain
      newlines; any other kind of line break comes out as a newline. */
  lemma {:induction false} CutIsPrefixExactly(text: string, k: nat)
    requires k <= |SplitLines(text)|
    ensures Prefix(JoinLines(SplitLines(text)[..k]), text) <==> PlainBreaks(text, k)
    decreases |text|
  {
    if k == 1 {
      assert SplitLines(text)[..1] == [text[..FirstBreak(text, 0)]];
    } else if k > 1 {
      var i, rest := FirstBreak(text, 0), AfterLine(text);
      var line, tail := text[..i], JoinLines(SplitLines(rest)[..k - 1]);
      assert i < |text|;
      JoinCut(text, k, line, rest);
      LineParts(text, i);
      PrefixAfter(line, text[i], text[i + 1..], tail);
      CutIsPrefixExactly(rest, k - 1);
    }
  }

  lemma JoinCut(text: string, k: nat, line: string, rest: string)
    requires 1 < k <= |SplitLines(text)| && line == text[..FirstBreak(text, 0)] && rest == AfterLine(text)
    ensures k - 1 <= |SplitLines(rest)|
    ensures JoinLines(SplitLines(text)[..k]) == line + "\n" + JoinLines(SplitLines(rest)[..k - 1])
  {
    assert SplitLines(text)[..k] == [line] + SplitLines(rest)[..k - 1];
    assert ([line] + SplitLines(rest)[..k - 1])[1..] == SplitLines(rest)[..k - 1];
  }

  datatype CompactError = NegativeBudget

  /** `agent_compact` on its full text: whatever the text, the view never exceeds the budget. */
  method AgentCompact(fullText: string, maxChars: int) returns (r: Result<(string, bool), CompactError>)
    ensures r.Err? <==> maxChars < 0
    ensures r.Ok? ==> |r.value.0| <= maxChars && (r.value.1 <==> |fullText| > maxChars)
    ensures r.Ok? && |fullText| <= maxChars ==> r.value.0 == fullText
    ensures r.Ok? && |fullText| > maxChars ==> LongestCut(SplitLines(fullText), maxChars, r.value.0)
  {
    if maxChars < 0 {
      return Err(NegativeBudget);
    }
    var text, truncated := FitText(fullText, maxChars);
    r := Ok((text, truncated));
  }
}
