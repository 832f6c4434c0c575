/** What inline markup means: a span is wrapped in its tags, its text and surroundings only escaped. */
module MarkdownSpans {
  import opened MarkdownInline
  import opened Texts
  import opened Wrappers

  predicate Undelimited(s: string, lo: int, hi: int) {
    forall i :: 0 <= lo <= i < hi <= |s| ==> !Delim(s[i])
  }

  predicate Ordinary(s: string) {
    Undelimited(s, 0, |s|)
  }

  lemma {:induction false} EscapeJoins(a: string, b: string)
    ensures EscapeHtml(a + b) == EscapeHtml(a) + EscapeHtml(b)
  {
    if a == "" {
      assert a + b == b;
    } else {
      assert (a + b)[0] == a[0] && (a + b)[1..] == a[1..] + b;
      EscapeJoins(a[1..], b);
    }
  }

  lemma EscapeKeepsOrdinary(a: string)
    requires Ordinary(a)
    ensures Ordinary(EscapeHtml(a))
  {
    EscapeKeepsUndelimited(a);
  }

  // ----- Passes with nothing to do

  function KeyOf(pass: Pass): char {
    match pass
    case CodeSpans => '`'
    case StrongSpans => '*'
    case EmSpans => '*'
    case Links => '['
  }

  lemma MatchStartsAtKey(pass: Pass, s: string, i: nat)
    requires i < |s| && MatchAt(pass, s, i) != None
    ensures MatchAt(pass, s, i).value.start < |s| && s[MatchAt(pass, s, i).value.start] == KeyOf(pass)
    ensures i <= MatchAt(pass, s, i).value.start
  {
    MatchCutsAtDelims(pass, s, i);
    if pass == StrongSpans {
      OccursHead(s, "**", i);
    }
  }

  lemma {:induction false} NothingFound(pass: Pass, s: string, from: nat)
    requires from <= |s| && forall i :: from <= i < |s| ==> s[i] != KeyOf(pass)
    ensures Find(pass, s, from) == None
    decreases |s| - from
  {
    if from < |s| {
      if MatchAt(pass, s, from) != None {
        MatchStartsAtKey(pass, s, from);
      } else {
        NothingFound(pass, s, from + 1);
      }
    }
  }

  lemma Idle(pass: Pass, s: string)
    requires forall i :: 0 <= i < |s| ==> s[i] != KeyOf(pass)
    ensures ReplaceFrom(pass, s, 0) == s
  {
    NothingFound(pass, s, 0);
  }

  lemma {:induction false} Skips(pass: Pass, s: string, from: nat, to: nat)
    requires from <= to <= |s| && forall i :: from <= i < to ==> MatchAt(pass, s, i) == None
    ensures Find(pass, s, from) == Find(pass, s, to)
    decreases |s| - from
  {
    if from < to {
      Skips(pass, s, from + 1, to);
    }
  }

  lemma NextIs(s: string, c: char, from: nat, k: nat)
    requires from <= k < |s| && s[k] == c && forall i :: from <= i < k ==> s[i] != c
    ensures Next(s, c, from) == k
  {
  }

  // ----- Passes with one span to find

  lemma CodeFound(s: string, p: nat, q: nat)
    requires p + 1 < q < |s| && s[p] == '`' && s[q] == '`'
    requires Undelimited(s, 0, p) && Undelimited(s, p + 1, q) && Undelimited(s, q + 1, |s|)
    ensures Find(CodeSpans, s, 0) == Some(Match(p, (p + 1, q), (q, q), q + 1)) && Find(CodeSpans, s, q + 1) == None
  {
    NextIs(s, '`', p + 1, q);
    Skips(CodeSpans, s, 0, p);
    NothingFound(CodeSpans, s, q + 1);
  }

  lemma TwoStars(s: string, i: nat)
    ensures OccursAt(s, "**", i) <==> i + 1 < |s| && s[i] == '*' && s[i + 1] == '*'
  {
    if OccursAt(s, "**", i) {
      assert s[i + 0] == "**"[0] && s[i + 1] == "**"[1];
    }
  }

  lemma StrongFound(s: string, p: nat, q: nat)
    requires p + 2 < q && q + 1 < |s| && s[p] == '*' && s[p + 1] == '*' && s[q] == '*' && s[q + 1] == '*'
    requires Undelimited(s, 0, p) && Undelimited(s, p + 2, q) && Undelimited(s, q + 2, |s|)
    ensures Find(StrongSpans, s, 0) == Some(Match(p, (p + 2, q), (q, q), q + 2)) && Find(StrongSpans, s, q + 2) == None
  {
    NextIs(s, '*', p + 2, q);
    TwoStars(s, p);
    TwoStars(s, q);
    forall i | 0 <= i < p ensures MatchAt(StrongSpans, s, i) == None { TwoStars(s, i); }
    Skips(StrongSpans, s, 0, p);
    NothingFound(StrongSpans, s, q + 2);
  }

  lemma EmFound(s: string, p: nat, q: nat)
    requires p + 1 < q < |s| && s[p] == '*' && s[q] == '*' && !IsSpace(s[p + 1])
    requires Undelimited(s, 0, p) && Undelimited(s, p + 1, q) && Undelimited(s, q + 1, |s|)
    ensures Find(EmSpans, s, 0) == Some(Match(p, (p + 1, q), (q, q), q + 1)) && Find(EmSpans, s, q + 1) == None
  {
    NextIs(s, '*', p + 1, q);
    Skips(EmSpans, s, 0, if p == 0 then 0 else p - 1);
    NothingFound(EmSpans, s, q + 1);
  }

  /** Single stars are never adjacent, so the strong pass leaves them. */
  lemma NoStrongFound(s: string, p: nat, q: nat)
    requires p + 1 < q < |s|
    requires Undelimited(s, 0, p) && Undelimited(s, p + 1, q) && Undelimited(s, q + 1, |s|)
    ensures Find(StrongSpans, s, 0) == None
  {
    forall i | 0 <= i < |s| ensures MatchAt(StrongSpans, s, i) == None { TwoStars(s, i); }
    Skips(StrongSpans, s, 0, |s|);
  }

  lemma {:induction false} UrlEndIs(s: string, from: nat, k: nat)
    requires from <= k < |s| && s[k] == ')' && forall i :: from <= i < k ==> s[i] != ')' && !IsSpace(s[i])
    ensures UrlEnd(s, from) == k
    decreases |s| - from
  {
    if from < k {
      UrlEndIs(s, from + 1, k);
    }
  }

  lemma LinkFound(s: string, p: nat, q: nat, k: nat)
    requires p < q && q + 2 < k < |s| && s[p] == '[' && s[q] == ']' && s[q + 1] == '(' && s[k] == ')'
    requires Undelimited(s, 0, p) && Undelimited(s, p + 1, q) && Undelimited(s, q + 2, k) && Undelimited(s, k + 1, |s|)
    requires forall i :: q + 2 <= i < k ==> !IsSpace(s[i])
    ensures Find(Links, s, 0) == Some(Match(p, (p + 1, q), (q + 2, k), k + 1)) && Find(Links, s, k + 1) == None
  {
    NextIs(s, ']', p + 1, q);
    UrlEndIs(s, q + 2, k);
    assert OccursAt(s, "](", q);
    Skips(Links, s, 0, p);
    NothingFound(Links, s, k + 1);
  }

  lemma Replaced(pass: Pass, s: string, m: Match)
    requires Find(pass, s, 0) == Some(m) && Find(pass, s, m.end) == None
    ensures ReplaceFrom(pass, s, 0) ==
            s[..m.start] + Wrapped(pass, s[m.text.0..m.text.1], s[m.url.0..m.url.1]) + s[m.end..]
  {
    assert s[0..m.start] == s[..m.start];
  }

  // ----- Rendering one span

  lemma OrdinaryJoin(a: string, b: string)
    requires Ordinary(a) && Ordinary(b)
    ensures Ordinary(a + b)
  {
  }

  lemma TagIsOrdinary(t: Tag)
    ensures Ordinary(TagText(t))
  {
    TagShape(t, TagText(t));
  }

  lemma WrappedIsOrdinary(pass: Pass, text: string, url: string)
    requires Ordinary(text) && Ordinary(url)
    ensures Ordinary(Wrapped(pass, text, url))
  {
    var (open, close) := match pass
      case CodeSpans => (Open(Code), Close(Code))
      case StrongSpans => (Open(Strong), Close(Strong))
      case EmSpans => (Open(Em), Close(Em))
      case Links => (Link, Close(Anchor));
    TagIsOrdinary(open);
    TagIsOrdinary(close);
    OrdinaryJoin(TagText(open), text);
    OrdinaryJoin(TagText(open) + text, TagText(close));
    if pass == Links {
      OrdinaryJoin(TagText(open), url);
      OrdinaryJoin(TagText(open) + url, "\">");
      OrdinaryJoin(TagText(open) + url + "\">", text);
      OrdinaryJoin(TagText(open) + url + "\">" + text, TagText(close));
    }
  }

  lemma OrdinaryIsIdle(pass: Pass, s: string)
    requires Ordinary(s)
    ensures ReplaceFrom(pass, s, 0) == s
  {
    Idle(pass, s);
  }

  lemma ResultIsOrdinary(a: string, mid: string, c: string)
    requires Ordinary(a) && Ordinary(mid) && Ordinary(c)
    ensures Ordinary(a + mid + c)
  {
    OrdinaryJoin(a, mid);
    OrdinaryJoin(a + mid, c);
  }

  lemma EscapeAround(a: string, open: string, b: string, close: string, c: string)
    ensures EscapeHtml(a + open + b + close + c) ==
            EscapeHtml(a) + EscapeHtml(open) + EscapeHtml(b) + EscapeHtml(close) + EscapeHtml(c)
  {
    EscapeJoins(a + open + b + close, c);
    EscapeJoins(a + open + b, close);
    EscapeJoins(a + open, b);
    EscapeJoins(a, open);
  }

  /** A span between ordinary texts, after escaping: where its parts lie. */
  lemma PartsOf(a: string, open: string, b: string, close: string, c: string, s: string, p: nat, q: nat, e: nat)
    requires s == a + open + b + close + c && p == |a| + |open| && q == p + |b| && e == q + |close|
    ensures e + |c| == |s| && s[..|a|] == a && s[p..q] == b && s[e..] == c
    ensures forall i :: 0 <= i < |open| ==> s[|a| + i] == open[i]
    ensures forall i :: 0 <= i < |close| ==> s[q + i] == close[i]
    ensures Ordinary(a) ==> Undelimited(s, 0, |a|)
    ensures Ordinary(b) ==> Undelimited(s, p, q)
    ensures Ordinary(c) ==> Undelimited(s, e, |s|)
  {
  }

  lemma CodePass(a: string, b: string, c: string, s: string)
    requires Ordinary(a) && Ordinary(b) && Ordinary(c) && b != "" && s == a + "`" + b + "`" + c
    ensures ReplaceFrom(CodeSpans, s, 0) == a + Wrapped(CodeSpans, b, "") + c
  {
    var p, q := |a|, |a| + 1 + |b|;
    PartsOf(a, "`", b, "`", c, s, p + 1, q, q + 1);
    assert s[|a| + 0] == '`' && s[q + 0] == '`';
    CodeFound(s, p, q);
    Replaced(CodeSpans, s, Match(p, (p + 1, q), (q, q), q + 1));
  }

  lemma StrongPass(a: string, b: string, c: string, s: string)
    requires Ordinary(a) && Ordinary(b) && Ordinary(c) && b != "" && s == a + "**" + b + "**" + c
    ensures ReplaceFrom(StrongSpans, s, 0) == a + Wrapped(StrongSpans, b, "") + c
  {
    var p, q := |a|, |a| + 2 + |b|;
    PartsOf(a, "**", b, "**", c, s, p + 2, q, q + 2);
    assert s[|a| + 0] == '*' && s[|a| + 1] == '*' && s[q + 0] == '*' && s[q + 1] == '*';
    StrongFound(s, p, q);
    Replaced(StrongSpans, s, Match(p, (p + 2, q), (q, q), q + 2));
  }

  lemma EmPasses(a: string, b: string, c: string, s: string)
    requires Ordinary(a) && Ordinary(b) && Ordinary(c) && b != "" && !IsSpace(b[0]) && s == a + "*" + b + "*" + c
    ensures ReplaceFrom(StrongSpans, s, 0) == s
    ensures ReplaceFrom(EmSpans, s, 0) == a + Wrapped(EmSpans, b, "") + c
  {
    var p, q := |a|, |a| + 1 + |b|;
    PartsOf(a, "*", b, "*", c, s, p + 1, q, q + 1);
    assert s[|a| + 0] == '*' && s[q + 0] == '*' && s[p + 1] == s[p + 1..q][0];
    NoStrongFound(s, p, q);
    EmFound(s, p, q);
    Replaced(EmSpans, s, Match(p, (p + 1, q), (q, q), q + 1));
  }

  lemma OrdinaryParts(a: string, b: string, c: string)
    requires Ordinary(a) && Ordinary(b) && Ordinary(c)
    ensures Ordinary(EscapeHtml(a)) && Ordinary(EscapeHtml(b)) && Ordinary(EscapeHtml(c))
    ensures b != "" ==> EscapeHtml(b) != ""
  {
    EscapeKeepsOrdinary(a);
    EscapeKeepsOrdinary(b);
    EscapeKeepsOrdinary(c);
  }

  lemma {:induction false} DelimsEscapeToThemselves(d: string)
    requires forall i :: 0 <= i < |d| ==> Delim(d[i])
    ensures EscapeHtml(d) == d
  {
    if d != "" {
      assert Delim(d[0]);
      DelimsEscapeToThemselves(d[1..]);
    }
  }

  lemma EscapedSpan(a: string, open: string, b: string, close: string, c: string)
    requires forall i :: 0 <= i < |open| ==> Delim(open[i])
    requires forall i :: 0 <= i < |close| ==> Delim(close[i])
    ensures EscapeHtml(a + open + b + close + c) == EscapeHtml(a) + open + EscapeHtml(b) + close + EscapeHtml(c)
  {
    EscapeAround(a, open, b, close, c);
    DelimsEscapeToThemselves(open);
    DelimsEscapeToThemselves(close);
  }

  lemma ResultIsIdle(pass: Pass, x: string, y: string, url: string, z: string, r: string)
    requires Ordinary(x) && Ordinary(y) && Ordinary(url) && Ordinary(z) && r == x + Wrapped(pass, y, url) + z
    ensures ReplaceFrom(StrongSpans, r, 0) == r && ReplaceFrom(EmSpans, r, 0) == r && ReplaceFrom(Links, r, 0) == r
  {
    WrappedIsOrdinary(pass, y, url);
    ResultIsOrdinary(x, Wrapped(pass, y, url), z);
    OrdinaryIsIdle(StrongSpans, r);
    OrdinaryIsIdle(EmSpans, r);
    OrdinaryIsIdle(Links, r);
  }

  /** Without a backtick the code pass does nothing. */
  lemma CodeIdle(x: string, open: string, y: string, close: string, z: string, s: string)
    requires Ordinary(x) && Ordinary(y) && Ordinary(z) && s == x + open + y + close + z
    requires (forall i :: 0 <= i < |open| ==> open[i] != '`') && (forall i :: 0 <= i < |close| ==> close[i] != '`')
    ensures ReplaceFrom(CodeSpans, s, 0) == s
  {
    assert Delim('`');
    Idle(CodeSpans, s);
  }

  /** The four passes in turn. */
  lemma Passes(text: string, escaped: string, code: string, strong: string, em: string, out: string)
    requires escaped == EscapeHtml(text) && code == ReplaceFrom(CodeSpans, escaped, 0)
    requires strong == ReplaceFrom(StrongSpans, code, 0) && em == ReplaceFrom(EmSpans, strong, 0)
    requires out == ReplaceFrom(Links, em, 0)
    ensures RenderInline(text) == out
  {
  }

  lemma CodeSteps(x: string, y: string, z: string, s: string, r: string)
    requires Ordinary(x) && Ordinary(y) && Ordinary(z) && y != ""
    requires s == x + "`" + y + "`" + z && r == x + Wrapped(CodeSpans, y, "") + z
    ensures ReplaceFrom(CodeSpans, s, 0) == r && ReplaceFrom(StrongSpans, r, 0) == r
    ensures ReplaceFrom(EmSpans, r, 0) == r && ReplaceFrom(Links, r, 0) == r
  {
    CodePass(x, y, z, s);
    ResultIsIdle(CodeSpans, x, y, "", z, r);
  }

  /** `code` */
  lemma CodeSpanRenders(a: string, b: string, c: string)
    requires Ordinary(a) && Ordinary(b) && Ordinary(c) && b != ""
    ensures RenderInline(a + "`" + b + "`" + c) == EscapeHtml(a) + Wrapped(CodeSpans, EscapeHtml(b), "") + EscapeHtml(c)
  {
    var (x, y, z) := (EscapeHtml(a), EscapeHtml(b), EscapeHtml(c));
    var (s, r) := (x + "`" + y + "`" + z, x + Wrapped(CodeSpans, y, "") + z);
    EscapedSpan(a, "`", b, "`", c);
    OrdinaryParts(a, b, c);
    CodeSteps(x, y, z, s, r);
    Passes(a + "`" + b + "`" + c, s, r, r, r, r);
  }

  lemma StrongSteps(x: string, y: string, z: string, s: string, r: string)
    requires Ordinary(x) && Ordinary(y) && Ordinary(z) && y != ""
    requires s == x + "**" + y + "**" + z && r == x + Wrapped(StrongSpans, y, "") + z
    ensures ReplaceFrom(CodeSpans, s, 0) == s && ReplaceFrom(StrongSpans, s, 0) == r
    ensures ReplaceFrom(EmSpans, r, 0) == r && ReplaceFrom(Links, r, 0) == r
  {
    CodeIdle(x, "**", y, "**", z, s);
    StrongPass(x, y, z, s);
    ResultIsIdle(StrongSpans, x, y, "", z, r);
  }

  /** **strong** */
  lemma StrongSpanRenders(a: string, b: string, c: string)
    requires Ordinary(a) && Ordinary(b) && Ordinary(c) && b != ""
    ensures RenderInline(a + "**" + b + "**" + c) ==
            EscapeHtml(a) + Wrapped(StrongSpans, EscapeHtml(b), "") + EscapeHtml(c)
  {
    var (x, y, z) := (EscapeHtml(a), EscapeHtml(b), EscapeHtml(c));
    var (s, r) := (x + "**" + y + "**" + z, x + Wrapped(StrongSpans, y, "") + z);
    EscapedSpan(a, "**", b, "**", c);
    OrdinaryParts(a, b, c);
    StrongSteps(x, y, z, s, r);
    Passes(a + "**" + b + "**" + c, s, s, r, r, r);
  }

  lemma EscapedHead(b: string)
    requires b != "" && !IsSpace(b[0])
    ensures EscapeHtml(b) != "" && !IsSpace(EscapeHtml(b)[0])
  {
    assert EscapeHtml(b)[0] == EscapeChar(b[0])[0];
  }

  lemma EmSteps(x: string, y: string, z: string, s: string, r: string)
    requires Ordinary(x) && Ordinary(y) && Ordinary(z) && y != "" && !IsSpace(y[0])
    requires s == x + "*" + y + "*" + z && r == x + Wrapped(EmSpans, y, "") + z
    ensures ReplaceFrom(CodeSpans, s, 0) == s && ReplaceFrom(StrongSpans, s, 0) == s
    ensures ReplaceFrom(EmSpans, s, 0) == r && ReplaceFrom(Links, r, 0) == r
  {
    CodeIdle(x, "*", y, "*", z, s);
    EmPasses(x, y, z, s);
    ResultIsIdle(EmSpans, x, y, "", z, r);
  }

  /** *em*, whose text may not begin with a space */
  lemma EmSpanRenders(a: string, b: string, c: string)
    requires Ordinary(a) && Ordinary(b) && Ordinary(c) && b != "" && !IsSpace(b[0])
    ensures RenderInline(a + "*" + b + "*" + c) == EscapeHtml(a) + Wrapped(EmSpans, EscapeHtml(b), "") + EscapeHtml(c)
  {
    var (x, y, z) := (EscapeHtml(a), EscapeHtml(b), EscapeHtml(c));
    var (s, r) := (x + "*" + y + "*" + z, x + Wrapped(EmSpans, y, "") + z);
    EscapedSpan(a, "*", b, "*", c);
    OrdinaryParts(a, b, c);
    EscapedHead(b);
    EmSteps(x, y, z, s, r);
    Passes(a + "*" + b + "*" + c, s, s, s, r, r);
  }

  // ----- Links

  predicate SpaceFree(s: string) {
    forall i :: 0 <= i < |s| ==> !IsSpace(s[i])
  }

  lemma {:induction false} EscapeKeepsSpaceFree(s: string)
    requires SpaceFree(s)
    ensures SpaceFree(EscapeHtml(s)) && (s != "" ==> EscapeHtml(s) != "")
  {
    if s != "" {
      assert !IsSpace(s[0]);
      EscapeKeepsSpaceFree(s[1..]);
    }
  }

  lemma LinkTail(s: string, rest: string, u: string, c: string, from: nat, k: nat)
    requires rest == u + ")" + c && from <= |s| && s[from..] == rest && k == from + |u|
    requires Ordinary(u) && Ordinary(c) && SpaceFree(u)
    ensures k < |s| && s[k] == ')' && s[from..k] == u && s[k + 1..] == c
    ensures Undelimited(s, from, k) && Undelimited(s, k + 1, |s|)
    ensures forall i :: from <= i < k ==> !IsSpace(s[i])
  {
    assert rest[|u|] == ')' && rest[..|u|] == u && rest[|u| + 1..] == c;
    forall i | from <= i < k ensures s[i] == u[i - from] { assert rest[i - from] == u[i - from]; }
    forall i | k + 1 <= i < |s| ensures s[i] == c[i - k - 1] { assert rest[i - from] == c[i - k - 1]; }
  }

  lemma LinkPlaces(a: string, b: string, u: string, c: string, s: string, p: nat, q: nat, k: nat)
    requires Ordinary(a) && Ordinary(b) && Ordinary(u) && Ordinary(c) && SpaceFree(u)
    requires s == a + "[" + b + "](" + (u + ")" + c) && p == |a| && q == p + 1 + |b| && k == q + 2 + |u|
    ensures k < |s| && s[p] == '[' && s[q] == ']' && s[q + 1] == '(' && s[k] == ')'
    ensures s[..p] == a && s[p + 1..q] == b && s[q + 2..k] == u && s[k + 1..] == c
    ensures Undelimited(s, 0, p) && Undelimited(s, p + 1, q) && Undelimited(s, q + 2, k) && Undelimited(s, k + 1, |s|)
    ensures forall i :: q + 2 <= i < k ==> !IsSpace(s[i])
  {
    var rest := u + ")" + c;
    PartsOf(a, "[", b, "](", rest, s, p + 1, q, q + 2);
    assert s[|a| + 0] == '[' && s[q + 0] == ']' && s[q + 1] == '(';
    LinkTail(s, rest, u, c, q + 2, k);
  }

  lemma ReplacedAs(pass: Pass, s: string, m: Match, a: string, b: string, u: string, c: string)
    requires Find(pass, s, 0) == Some(m) && Find(pass, s, m.end) == None
    requires s[..m.start] == a && s[m.text.0..m.text.1] == b && s[m.url.0..m.url.1] == u && s[m.end..] == c
    ensures ReplaceFrom(pass, s, 0) == a + Wrapped(pass, b, u) + c
  {
    Replaced(pass, s, m);
  }

  lemma LinkFoundIn(a: string, b: string, u: string, c: string, s: string, m: Match)
    requires Ordinary(a) && Ordinary(b) && Ordinary(u) && Ordinary(c) && u != "" && SpaceFree(u)
    requires s == a + "[" + b + "](" + (u + ")" + c)
    requires m.start == |a| && m.text == (|a| + 1, |a| + 1 + |b|)
    requires m.url == (|a| + 3 + |b|, |a| + 3 + |b| + |u|) && m.end == |a| + 4 + |b| + |u|
    ensures Find(Links, s, 0) == Some(m) && Find(Links, s, m.end) == None
  {
    LinkPlaces(a, b, u, c, s, |a|, |a| + 1 + |b|, |a| + 3 + |b| + |u|);
    LinkFound(s, |a|, |a| + 1 + |b|, |a| + 3 + |b| + |u|);
  }

  lemma LinkPass(a: string, b: string, u: string, c: string, s: string)
    requires Ordinary(a) && Ordinary(b) && Ordinary(u) && Ordinary(c) && u != "" && SpaceFree(u)
    requires s == a + "[" + b + "](" + (u + ")" + c)
    ensures ReplaceFrom(Links, s, 0) == a + Wrapped(Links, b, u) + c
  {
    var (q, k) := (|a| + 1 + |b|, |a| + 3 + |b| + |u|);
    var m := Match(|a|, (|a| + 1, q), (q + 2, k), k + 1);
    LinkPlaces(a, b, u, c, s, |a|, q, k);
    LinkFoundIn(a, b, u, c, s, m);
    ReplacedAs(Links, s, m, a, b, u, c);
  }

  lemma LinkHasNoStars(a: string, b: string, u: string, c: string, s: string)
    requires Ordinary(a) && Ordinary(b) && Ordinary(u) && Ordinary(c)
    requires s == a + "[" + b + "](" + (u + ")" + c)
    ensures forall i :: 0 <= i < |s| ==> s[i] != '*' && s[i] != '`'
  {
    assert Delim('*') && Delim('`');
    forall i | 0 <= i < |s| ensures s[i] != '*' && s[i] != '`' {
      if i >= |a| + 3 + |b| {
        assert s[i] == (u + ")" + c)[i - (|a| + 3 + |b|)];
      }
    }
  }

  lemma LinkSteps(a: string, b: string, u: string, c: string, s: string, r: string)
    requires Ordinary(a) && Ordinary(b) && Ordinary(u) && Ordinary(c) && u != "" && SpaceFree(u)
    requires s == a + "[" + b + "](" + (u + ")" + c) && r == a + Wrapped(Links, b, u) + c
    ensures ReplaceFrom(CodeSpans, s, 0) == s && ReplaceFrom(StrongSpans, s, 0) == s
    ensures ReplaceFrom(EmSpans, s, 0) == s && ReplaceFrom(Links, s, 0) == r
  {
    LinkPass(a, b, u, c, s);
    LinkHasNoStars(a, b, u, c, s);
    Idle(CodeSpans, s);
    Idle(StrongSpans, s);
    Idle(EmSpans, s);
  }

  lemma EscapedLink(a: string, b: string, u: string, c: string)
    ensures EscapeHtml(a + "[" + b + "](" + (u + ")" + c)) ==
            EscapeHtml(a) + "[" + EscapeHtml(b) + "](" + (EscapeHtml(u) + ")" + EscapeHtml(c))
  {
    EscapedSpan(a, "[", b, "](", u + ")" + c);
    EscapeJoins(u + ")", c);
    EscapeJoins(u, ")");
    DelimsEscapeToThemselves(")");
  }

  /** [text](url): the text inside, the url in the attribute */
  lemma LinkSpanRenders(a: string, b: string, u: string, c: string)
    requires Ordinary(a) && Ordinary(b) && Ordinary(u) && Ordinary(c) && u != "" && SpaceFree(u)
    ensures RenderInline(a + "[" + b + "](" + (u + ")" + c)) ==
            EscapeHtml(a) + Wrapped(Links, EscapeHtml(b), EscapeHtml(u)) + EscapeHtml(c)
  {
    var (x, y, v, z) := (EscapeHtml(a), EscapeHtml(b), EscapeHtml(u), EscapeHtml(c));
    var s := x + "[" + y + "](" + (v + ")" + z);
    EscapedLink(a, b, u, c);
    OrdinaryParts(a, b, c);
    EscapeKeepsOrdinary(u);
    EscapeKeepsSpaceFree(u);
    var r := x + Wrapped(Links, y, v) + z;
    LinkSteps(x, y, v, z, s, r);
    Passes(a + "[" + b + "](" + (u + ")" + c), s, s, s, s, r);
  }

  // ----- Spans across spans

  predicate NoTick(s: string) {
    forall i :: 0 <= i < |s| ==> s[i] != '`'
  }

  lemma OrdinaryHasNoTick(a: string, c: string)
    requires Ordinary(a) && Ordinary(c)
    ensures NoTick("*" + a) && NoTick(c + "*")
  {
    assert Delim('`');
  }

  lemma CodeFirstFound(s: string, mid: string, tail: string, q: nat)
    requires s == "`" + mid + "`" + tail && NoTick(mid) && NoTick(tail) && mid != "" && q == 1 + |mid|
    ensures Find(CodeSpans, s, 0) == Some(Match(0, (1, q), (q, q), q + 1)) && Find(CodeSpans, s, q + 1) == None
    ensures s[1..q] == mid && s[q + 1..] == tail
  {
    forall i | 1 <= i < q ensures s[i] != '`' { assert s[i] == mid[i - 1]; }
    forall i | q < i < |s| ensures s[i] != '`' { assert s[i] == tail[i - q - 1]; }
    NextIs(s, '`', 1, q);
    NothingFound(CodeSpans, s, q + 1);
  }

  lemma CodeFirst(s: string, mid: string, tail: string)
    requires s == "`" + mid + "`" + tail && NoTick(mid) && NoTick(tail) && mid != ""
    ensures ReplaceFrom(CodeSpans, s, 0) == "" + Wrapped(CodeSpans, mid, "") + tail
  {
    var q := 1 + |mid|;
    CodeFirstFound(s, mid, tail, q);
    ReplacedAs(CodeSpans, s, Match(0, (1, q), (q, q), q + 1), "", mid, "", tail);
  }

  /** Emphasis that starts inside a code span. */
  lemma CodePassLeavesStars(y: string, z: string, s: string, r: string)
    requires Ordinary(y) && Ordinary(z) && s == "" + "`*" + y + "`" + (z + "*")
    requires r == TagText(Open(Code)) + "*" + (y + TagText(Close(Code)) + z) + "*" + ""
    ensures ReplaceFrom(CodeSpans, s, 0) == r
  {
    var open, close := TagText(Open(Code)), TagText(Close(Code));
    OrdinaryHasNoTick(y, z);
    CodeFirst(s, "*" + y, z + "*");
    SameText(open, y, close, z);
  }

  lemma SameText(open: string, y: string, close: string, z: string)
    ensures "" + (open + ("*" + y) + close) + (z + "*") == open + "*" + (y + close + z) + "*" + ""
  {
  }

  lemma InterleavedSteps(y: string, z: string, s: string, r: string, out: string)
    requires Ordinary(y) && Ordinary(z) && y != "" && !IsSpace(y[0]) && s == "" + "`*" + y + "`" + (z + "*")
    requires r == TagText(Open(Code)) + "*" + (y + TagText(Close(Code)) + z) + "*" + ""
    requires out == TagText(Open(Code)) + Wrapped(EmSpans, y + TagText(Close(Code)) + z, "") + ""
    ensures ReplaceFrom(CodeSpans, s, 0) == r && ReplaceFrom(StrongSpans, r, 0) == r
    ensures ReplaceFrom(EmSpans, r, 0) == out && ReplaceFrom(Links, out, 0) == out
  {
    var open, inner := TagText(Open(Code)), y + TagText(Close(Code)) + z;
    CodePassLeavesStars(y, z, s, r);
    TagIsOrdinary(Open(Code));
    TagIsOrdinary(Close(Code));
    ResultIsOrdinary(y, TagText(Close(Code)), z);
    EmPasses(open, inner, "", r);
    ResultIsIdle(EmSpans, open, inner, "", "", out);
  }

  /** Inline tags need not nest: emphasis opened inside a code span and closed outside crosses it. */
  lemma InlineTagsInterleave(b: string, c: string)
    requires Ordinary(b) && Ordinary(c) && b != "" && !IsSpace(b[0])
    ensures RenderInline("" + "`*" + b + "`" + (c + "*")) ==
            TagText(Open(Code)) +
                (TagText(Open(Em)) + (EscapeHtml(b) + TagText(Close(Code)) + EscapeHtml(c)) + TagText(Close(Em))) + ""
  {
    var (y, z) := (EscapeHtml(b), EscapeHtml(c));
    var inner := y + TagText(Close(Code)) + z;
    var s, r := "" + "`*" + y + "`" + (z + "*"), TagText(Open(Code)) + "*" + inner + "*" + "";
    var out := TagText(Open(Code)) + Wrapped(EmSpans, inner, "") + "";
    EscapedSpan("", "`*", b, "`", c + "*");
    EscapeJoins(c, "*");
    DelimsEscapeToThemselves("*");
    OrdinaryParts(b, b, c);
    EscapedHead(b);
    InterleavedSteps(y, z, s, r, out);
    Passes("" + "`*" + b + "`" + (c + "*"), s, r, r, out, out);
  }
}
