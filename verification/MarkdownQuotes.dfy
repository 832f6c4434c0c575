/** Where the quotes of inline markup come from: only from link tags, so no source text can end
    the attribute it is put into. */
module MarkdownQuotes {
  import opened MarkdownInline
  import opened Texts
  import opened Wrappers

  predicate NoQuote(s: string) {
    forall i :: 0 <= i < |s| ==> s[i] != '"'
  }

  /** A link's opening tag lies at `p`, its address free of quotes and ended by the one at `q`. */
  predicate LinkTagAt(s: string, p: int, q: int) {
    && OccursAt(s, TagText(Link), p) && OccursAt(s, "\">", q)
    && p + |TagText(Link)| <= q && forall i :: p + |TagText(Link)| <= i < q ==> s[i] != '"'
  }

  /** The quote at `i` is one of the two of a link tag. */
  ghost predicate LinkQuote(s: string, i: int) {
    exists p, q :: LinkTagAt(s, p, q) && (i == p + |TagText(Link)| - 1 || i == q)
  }

  ghost predicate QuotesOwned(s: string) {
    forall i :: 0 <= i < |s| && s[i] == '"' ==> LinkQuote(s, i)
  }

  // ----- Passes that add no quote

  lemma NoQuoteJoin3(a: string, b: string, c: string)
    requires NoQuote(a) && NoQuote(b) && NoQuote(c)
    ensures NoQuote(a + b + c)
  {
  }

  lemma NameTextHasNoQuote(n: Name)
    ensures NoQuote(NameText(n))
  {
  }

  lemma NoQuoteJoin(a: string, b: string)
    requires NoQuote(a) && NoQuote(b)
    ensures NoQuote(a + b)
  {
  }

  lemma NameHasNoQuote(n: Name)
    ensures NoQuote(TagText(Open(n))) && NoQuote(TagText(Close(n)))
  {
    NameTextHasNoQuote(n);
    NoQuoteJoin(NameText(n), ">");
    NoQuoteJoin("<", NameText(n) + ">");
    NoQuoteJoin("/", NameText(n) + ">");
    NoQuoteJoin("<", "/" + (NameText(n) + ">"));
  }

  lemma WrappedHasNoQuote(pass: Pass, text: string)
    requires pass != Links && NoQuote(text)
    ensures NoQuote(Wrapped(pass, text, ""))
  {
    var n := match pass case CodeSpans => Code case StrongSpans => Strong case _ => Em;
    NameHasNoQuote(n);
    NoQuoteJoin3(TagText(Open(n)), text, TagText(Close(n)));
  }

  lemma {:induction false} PassAddsNoQuote(pass: Pass, s: string, from: nat) returns (r: string)
    requires pass != Links && NoQuote(s) && from <= |s|
    ensures r == ReplaceFrom(pass, s, from) && NoQuote(r)
    decreases |s| - from
  {
    r := ReplaceFrom(pass, s, from);
    if Find(pass, s, from) != None {
      var m := Find(pass, s, from).value;
      var rest := PassAddsNoQuote(pass, s, m.end);
      WrappedHasNoQuote(pass, s[m.text.0..m.text.1]);
      NoQuoteJoin3(s[from..m.start], Wrapped(pass, s[m.text.0..m.text.1], ""), rest);
    }
  }

  // ----- The link pass

  lemma TagOfLeft(a: string, b: string, s: string, i: nat)
    requires s == a + b && LinkQuote(a, i)
    ensures LinkQuote(s, i)
  {
    var p, q :| LinkTagAt(a, p, q) && (i == p + |TagText(Link)| - 1 || i == q);
    assert LinkTagAt(s, p, q);
  }

  lemma TagOfRight(a: string, b: string, s: string, i: nat)
    requires s == a + b && LinkQuote(b, i)
    ensures LinkQuote(s, |a| + i)
  {
    var p, q :| LinkTagAt(b, p, q) && (i == p + |TagText(Link)| - 1 || i == q);
    OccursShift(a, b, TagText(Link), p);
    OccursShift(a, b, "\">", q);
    forall k | |a| + p + |TagText(Link)| <= k < |a| + q ensures s[k] != '"' { assert s[k] == b[k - |a|]; }
    assert LinkTagAt(s, |a| + p, |a| + q);
  }

  lemma QuoteAtJoin(a: string, b: string, s: string, i: nat)
    requires s == a + b && QuotesOwned(a) && QuotesOwned(b) && i < |s| && s[i] == '"'
    ensures LinkQuote(s, i)
  {
    if i < |a| {
      assert a[i] == '"';
      TagOfLeft(a, b, s, i);
    } else {
      assert b[i - |a|] == '"';
      TagOfRight(a, b, s, i - |a|);
    }
  }

  lemma OwnedJoin(a: string, b: string)
    requires QuotesOwned(a) && QuotesOwned(b)
    ensures QuotesOwned(a + b)
  {
    var s := a + b;
    forall i | 0 <= i < |s| && s[i] == '"' ensures LinkQuote(s, i) { QuoteAtJoin(a, b, s, i); }
  }

  /** The opening tag of a link, as the renderer writes it. */
  lemma LinkTagIsOwned(url: string)
    requires NoQuote(url)
    ensures QuotesOwned(TagText(Link) + url + "\">")
  {
    var open: string, s := TagText(Link), TagText(Link) + url + "\">";
    var q := |open| + |url|;
    assert open == "<a href=\"";
    forall i | 0 <= i < |s| && s[i] == '"' ensures LinkQuote(s, i) {
      LinkTagIs(open, url, s, q);
      assert i == |open| - 1 || i == q;
    }
  }

  lemma LinkTagIs(open: string, url: string, s: string, q: nat)
    requires open == TagText(Link) && NoQuote(url) && s == open + url + "\">" && q == |open| + |url|
    ensures LinkTagAt(s, 0, q)
    ensures forall i :: 0 <= i < |s| && s[i] == '"' ==> i == |open| - 1 || i == q
  {
    forall i | |open| <= i < q ensures s[i] != '"' { assert s[i] == url[i - |open|]; }
    forall i | 0 <= i < |open| ensures s[i] == "<a href=\""[i] {}
  }

  lemma WrappedIsOwned(text: string, url: string)
    requires NoQuote(text) && NoQuote(url)
    ensures QuotesOwned(Wrapped(Links, text, url))
  {
    LinkTagIsOwned(url);
    NameHasNoQuote(Anchor);
    OwnedJoin(TagText(Link) + url + "\">", text);
    OwnedJoin(TagText(Link) + url + "\">" + text, TagText(Close(Anchor)));
  }

  lemma {:induction false} LinksOwnQuotes(s: string, from: nat) returns (r: string)
    requires NoQuote(s) && from <= |s|
    ensures r == ReplaceFrom(Links, s, from) && QuotesOwned(r)
    decreases |s| - from
  {
    r := ReplaceFrom(Links, s, from);
    if Find(Links, s, from) != None {
      var m := Find(Links, s, from).value;
      var rest := LinksOwnQuotes(s, m.end);
      var wrapped := Wrapped(Links, s[m.text.0..m.text.1], s[m.url.0..m.url.1]);
      WrappedIsOwned(s[m.text.0..m.text.1], s[m.url.0..m.url.1]);
      OwnedJoin(s[from..m.start], wrapped);
      OwnedJoin(s[from..m.start] + wrapped, rest);
    }
  }

  /** Whatever the text, every raw `"` of its rendering is one of a link tag's two, and the address
      between them holds none. */
  lemma InlineQuotesAreLinkTags(text: string)
    ensures QuotesOwned(RenderInline(text))
  {
    var code := PassAddsNoQuote(CodeSpans, EscapeHtml(text), 0);
    var strong := PassAddsNoQuote(StrongSpans, code, 0);
    var em := PassAddsNoQuote(EmSpans, strong, 0);
    var links := LinksOwnQuotes(em, 0);
  }
}
