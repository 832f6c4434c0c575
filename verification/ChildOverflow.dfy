/** What the buffer cap costs: it is applied before the buffer is split, so it can cut lines. */
module ChildOverflow {
  import opened ChildStream

  // ----- One call
  /** Cutting into the first line leaves the number of lines as it is. */
  lemma HeadCut(s: string, t: string, k: nat)
    requires k <= Break(s) && t == s[k..]
    ensures |Lines(t)| == |Lines(s)|
  {
    var i := Break(s);
    BreakIs(t, i - k);
    if i < |s| {
      Cut(s, s[..i], s[i + 1..], i);
      assert t[i - k + 1..] == s[i + 1..];
      Cut(t, t[..i - k], s[i + 1..], i - k);
    }
  }

  lemma {:induction false} FewerLines(s: string, t: string, k: nat)
    requires k <= |s| && t == s[k..]
    ensures |Lines(t)| <= |Lines(s)|
    ensures Break(s) < k ==> |Lines(t)| < |Lines(s)|
    decreases |s|
  {
    var i := Break(s);
    if i < k {
      var rest := s[i + 1..];
      assert t == rest[k - i - 1..];
      FewerLines(rest, t, k - i - 1);
      Cut(s, s[..i], rest, i);
    } else {
      HeadCut(s, t, k);
    }
  }

  lemma FirstLineShrinks(s: string, t: string, k: nat)
    requires 0 < k <= Break(s) < |s| && t == s[k..]
    ensures Lines(t) == Lines(s) <==> k == 1 && s[0] == '\r' && s[1] == '\n'
  {
    var i := Break(s);
    var line, cut, rest := s[..i], t[..i - k], s[i + 1..];
    BreakIs(t, i - k);
    assert cut == line[k..] && t[i - k + 1..] == rest;
    Cut(s, line, rest, i);
    Cut(t, cut, rest, i - k);
    ShrunkHead(line, cut, Lines(rest), k);
    assert line == "\r" <==> i == 1 && s[0] == '\r';
  }

  lemma ShrunkHead(line: string, cut: string, rest: seq<string>, k: nat)
    requires 0 < k <= |line| && cut == line[k..]
    ensures [Chomp(cut)] + rest == [Chomp(line)] + rest <==> k == 1 && line == "\r"
  {
    HeadsDecide(Chomp(line), Chomp(cut), rest);
    ChompShrinks(line, cut, k);
  }

  lemma HeadsDecide(a: string, b: string, rest: seq<string>)
    ensures [a] + rest == [b] + rest <==> a == b
  {
    assert ([a] + rest)[0] == a && ([b] + rest)[0] == b;
  }

  lemma ChompShrinks(line: string, cut: string, k: nat)
    requires 0 < k <= |line| && cut == line[k..]
    ensures Chomp(cut) == Chomp(line) <==> k == 1 && line == "\r"
  {
    if k < |line| {
      assert cut[|cut| - 1] == line[|line| - 1];
    }
  }

  lemma CutTextLoses(text: string, t: string, k: nat)
    requires 0 < k <= |text| && t == text[k..]
    ensures Lines(t) == Lines(text) <==>
              Break(text) == |text| || (k == 1 && |text| > 1 && text[0] == '\r' && text[1] == '\n')
  {
    FewerLines(text, t, k);
    if Break(text) == |text| {
      BreakIs(t, |t|);
      NoSeparator(text);
      NoSeparator(t);
    } else if k <= Break(text) {
      FirstLineShrinks(text, t, k);
    }
  }

  /** How many characters the cap takes off the front. */
  function CutOf(length: nat, maxLine: nat): nat {
    if maxLine == 0 || length <= maxLine then 0 else length - maxLine
  }

  /** With the first `gone` characters of a text gone, its lines are spared: none is gone, or there
      is no line in it yet, or only the carriage return of an empty first line is gone. */
  predicate LinesSpared(text: string, gone: nat) {
    gone == 0 || Break(text) == |text| || (gone == 1 && |text| > 1 && text[0] == '\r' && text[1] == '\n')
  }

  lemma LinesSparedExactly(text: string, t: string, missing: nat)
    requires missing <= |text| && t == text[missing..]
    ensures |Lines(t)| <= |Lines(text)|
    ensures Lines(t) == Lines(text) <==> LinesSpared(text, missing)
  {
    FewerLines(text, t, missing);
    if missing > 0 {
      CutTextLoses(text, t, missing);
    } else {
      assert t == text;
    }
  }

  /** What one call costs a buffer that held all of the pending text: its lines are left alone
      exactly when the text fits, holds no newline yet, or loses only the carriage return of an
      empty first line. */
  lemma OverflowCutsLines(text: string, maxLine: nat)
    ensures Lines(LastN(text, maxLine)) == Lines(text) <==> LinesSpared(text, CutOf(|text|, maxLine))
  {
    LinesSparedExactly(text, LastN(text, maxLine), CutOf(|text|, maxLine));
  }

  // ----- Overflow over a whole stream

  /** How many characters the remainder of the text then lacks. */
  function Lacking(text: string, gone: nat): (r: nat)
    requires gone <= |text|
    ensures r <= |Rest(text)|
  {
    var start := |text| - |Rest(text)|;
    if gone > start then gone - start else 0
  }

  /** No chunk's cut costs a line: `pending` is the remainder of the stream so far, of which the
      buffer lacks the first `missing` characters. */
  predicate Spared(pending: string, missing: nat, chunks: seq<string>, maxLine: nat)
    requires missing <= |pending|
    decreases |chunks|
  {
    chunks == [] ||
    (var text := pending + chunks[0];
     var gone := missing + CutOf(|text| - missing, maxLine);
     LinesSpared(text, gone) && Spared(Rest(text), Lacking(text, gone), chunks[1..], maxLine))
  }

  lemma RestOfHeadCut(s: string, t: string, i: nat, k: nat, rest: string)
    requires k <= i < |s| && Break(s) == i && t == s[k..] && rest == s[i + 1..]
    ensures Rest(t) == Rest(s) && Lacking(s, k) == 0
  {
    BreakIs(t, i - k);
    Cut(s, s[..i], rest, i);
    assert t[i - k + 1..] == rest;
    Cut(t, t[..i - k], rest, i - k);
  }

  lemma {:induction false} RestCut(s: string, t: string, k: nat) returns (left: string)
    requires k <= |s| && t == s[k..]
    ensures left == Rest(t) && left == Rest(s)[Lacking(s, k)..]
    decreases |s|
  {
    var i := Break(s);
    if i == |s| {
      BreakIs(t, |t|);
      NoSeparator(s);
      NoSeparator(t);
      left := t;
    } else if i < k {
      var rest := s[i + 1..];
      assert t == rest[k - i - 1..];
      left := RestCut(rest, t, k - i - 1);
      Cut(s, s[..i], rest, i);
    } else {
      RestOfHeadCut(s, t, i, k, s[i + 1..]);
      left := Rest(t);
    }
  }

  lemma PrefixesDecide<T>(a: seq<T>, b: seq<T>, c: seq<T>, d: seq<T>)
    requires |a| <= |c| && |b| <= |d|
    ensures |a + b| <= |c + d| && (a + b == c + d <==> a == c && b == d)
  {
    if a + b == c + d {
      assert |a| == |c|;
      assert a == (a + b)[..|a|] && c == (c + d)[..|c|];
      assert b == (a + b)[|a|..] && d == (c + d)[|c|..];
    }
  }

  /** One chunk, read by a buffer that lacks `missing` characters of the pending text. */
  lemma FeedCut(r: Reader, pending: string, missing: nat, chunk: string, maxLine: nat, tailChars: nat)
    returns (next: Reader, text: string, gone: nat, lines: seq<string>)
    requires missing <= |pending| && r.buffer == pending[missing..]
    ensures next == Feed(r, chunk, maxLine, tailChars)
    ensures text == pending + chunk && gone == missing + CutOf(|text| - missing, maxLine) && gone <= |text|
    ensures next.received == r.received + lines && next.buffer == Rest(text)[Lacking(text, gone)..]
    ensures |lines| <= |Lines(text)| && (lines == Lines(text) <==> LinesSpared(text, gone))
  {
    next, text := Feed(r, chunk, maxLine, tailChars), pending + chunk;
    gone := missing + CutOf(|text| - missing, maxLine);
    var cut := text[gone..];
    lines := Lines(cut);
    assert r.buffer + chunk == text[missing..];
    assert LastN(r.buffer + chunk, maxLine) == cut;
    LinesSparedExactly(text, cut, gone);
    var left := RestCut(text, cut, gone);
  }

  /** The lines of a text in two parts, beside those received from each. */
  lemma BothParts(text: string, later: string, all: string, lines: seq<string>, more: seq<string>)
    requires all == text + later && |lines| <= |Lines(text)| && |more| <= |Lines(Rest(text) + later)|
    ensures |lines + more| <= |Lines(all)|
    ensures lines + more == Lines(all) <==> lines == Lines(text) && more == Lines(Rest(text) + later)
  {
    FramingContinues(text, later);
    PrefixesDecide(lines, more, Lines(text), Lines(Rest(text) + later));
  }

  lemma FeedFirst(r: Reader, chunks: seq<string>, maxLine: nat, tailChars: nat, next: Reader)
    requires chunks != [] && next == Feed(r, chunks[0], maxLine, tailChars)
    ensures FeedAll(r, chunks, maxLine, tailChars) == FeedAll(next, chunks[1..], maxLine, tailChars)
  {
  }

  lemma JoinedFirst(pending: string, chunks: seq<string>, text: string)
    requires chunks != [] && text == pending + chunks[0]
    ensures pending + Joined(chunks) == text + Joined(chunks[1..])
  {
    Regroup(pending, chunks[0], Joined(chunks[1..]));
  }

  lemma SparedFirst(pending: string, missing: nat, chunks: seq<string>, maxLine: nat, text: string, gone: nat)
    requires chunks != [] && missing <= |pending| && text == pending + chunks[0]
    requires gone == missing + CutOf(|text| - missing, maxLine) && gone <= |text|
    ensures Spared(pending, missing, chunks, maxLine) <==>
            LinesSpared(text, gone) && Spared(Rest(text), Lacking(text, gone), chunks[1..], maxLine)
  {
  }

  /** The lines a reader still receives, beside those it should: never more, and the same exactly
      when no later chunk's cut costs one. */
  lemma {:induction false} StreamCut(r: Reader, pending: string, missing: nat, chunks: seq<string>, maxLine: nat,
                                     tailChars: nat)
    returns (end: Reader, more: seq<string>, all: string, spared: bool)
    requires missing <= |pending| && r.buffer == pending[missing..] && Break(pending) == |pending|
    ensures end == FeedAll(r, chunks, maxLine, tailChars) && all == pending + Joined(chunks)
    ensures spared == Spared(pending, missing, chunks, maxLine)
    ensures end.received == r.received + more
    ensures |more| <= |Lines(all)| && (more == Lines(all) <==> spared)
    decreases |chunks|
  {
    if chunks == [] {
      end, more, all, spared := r, [], pending, true;
      assert pending + "" == pending;
      NoSeparator(pending);
    } else {
      var next, text, gone, lines := FeedCut(r, pending, missing, chunks[0], maxLine, tailChars);
      var later, left;
      end, later, left, spared := StreamCut(next, Rest(text), Lacking(text, gone), chunks[1..], maxLine, tailChars);
      FeedFirst(r, chunks, maxLine, tailChars, next);
      JoinedFirst(pending, chunks, text);
      SparedFirst(pending, missing, chunks, maxLine, text, gone);
      more, all, spared := lines + later, text + Joined(chunks[1..]), LinesSpared(text, gone) && spared;
      BothParts(text, Joined(chunks[1..]), all, lines, later);
      Regroup(r.received, lines, later);
    }
  }

  /** Whatever the cap and the chunks, the lines received are those of the whole stream exactly when
      no chunk's cut costs one. */
  lemma StreamKeepsLinesExactly(chunks: seq<string>, maxLine: nat, tailChars: nat)
    ensures FeedAll(START, chunks, maxLine, tailChars).received == Lines(Joined(chunks)) <==>
            Spared("", 0, chunks, maxLine)
  {
    var end, more, all, spared := StreamCut(START, "", 0, chunks, maxLine, tailChars);
    assert "" + Joined(chunks) == Joined(chunks) && START.received + more == more;
  }

  /** A stream that never overflows the buffer is spared. */
  lemma FittingIsSpared(chunks: seq<string>, maxLine: nat)
    requires Fits("", chunks, maxLine)
    ensures Spared("", 0, chunks, maxLine)
  {
    ChunksDoNotMatter(START, chunks, maxLine, 0);
    StreamKeepsLinesExactly(chunks, maxLine, 0);
    assert "" + Joined(chunks) == Joined(chunks) && [] + Lines(Joined(chunks)) == Lines(Joined(chunks));
  }

  /** A complete line of two characters does not survive a cap of two. */
  lemma CapCutsALine()
    ensures Lines(LastN("ab\n", 2)) != Lines("ab\n")
  {
    BreakIs("ab\n", 2);
    OverflowCutsLines("ab\n", 2);
  }

  /** Cut text may hold no newline yet and still cost a line later: under a cap of one, the line "a"
      arrives empty when its terminator comes in a second chunk. */
  lemma CutHeadCostsALine(first: string, second: string, tailChars: nat)
    requires first == "a\r" && second == "\n"
    ensures LinesSpared(first, CutOf(2, 1))
    ensures FeedAll(START, [first] + [second], 1, tailChars).received != Lines(first + second)
  {
    var chunks, text := [first] + [second], first + second;
    BreakIs(first, 2);
    BreakIs(text, 2);
    NoSeparator(first);
    assert "" + first == first && chunks[1..] == [second] && chunks[0] == first;
    SparedFirst("", 0, chunks, 1, first, 1);
    SparedFirst(first, 1, [second], 1, text, 2);
    StreamKeepsLinesExactly(chunks, 1, tailChars);
    JoinedFirst("", chunks, first);
    JoinedFirst(first, [second], text);
    assert [second][1..] == [] && text + "" == text && "" + Joined(chunks) == Joined(chunks);
  }
}
