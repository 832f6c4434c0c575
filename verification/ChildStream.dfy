/** Chunk-to-line framing of a child's stdout: bounded memory, and the same lines whatever the
    chunk boundaries. */
module ChildStream {

  // ----- Text and lines

  function NewlineFrom(s: string, from: nat): (r: nat)
    requires from <= |s|
    ensures from <= r <= |s| && (r < |s| ==> s[r] == '\n')
    ensures forall k :: from <= k < r ==> s[k] != '\n'
    decreases |s| - from
  {
    if from == |s| || s[from] == '\n' then from else NewlineFrom(s, from + 1)
  }

  /** The index of the first newline, or the length when there is none. */
  function Break(s: string): (r: nat)
    ensures r <= |s| && (r < |s| ==> s[r] == '\n')
    ensures forall k :: 0 <= k < r ==> s[k] != '\n'
  {
    NewlineFrom(s, 0)
  }

  /** Drops one trailing carriage return. */
  function Chomp(line: string): string {
    if line != "" && line[|line| - 1] == '\r' then line[..|line| - 1] else line
  }

  /** The newline-terminated lines of a text. */
  function Lines(s: string): seq<string> {
    var i := Break(s);
    if i == |s| then [] else [Chomp(s[..i])] + Lines(s[i + 1..])
  }

  /** What follows the last newline. */
  function Rest(s: string): (r: string)
    ensures |r| <= |s|
    ensures Break(r) == |r|
  {
    var i := Break(s);
    if i == |s| then s else Rest(s[i + 1..])
  }

  /** `s.slice(-n)`: the last `n` characters, except that `slice(-0)` keeps everything. */
  function LastN(s: string, n: nat): (r: string)
    ensures n > 0 ==> |r| <= n
  {
    if n == 0 || |s| <= n then s else s[|s| - n..]
  }

  // ----- The one-shot split

  predicate SeparatorAt(s: string, i: nat) {
    i < |s| && (s[i] == '\n' || (s[i] == '\r' && i + 1 < |s| && s[i + 1] == '\n'))
  }

  function FirstSeparator(s: string, from: nat): (r: nat)
    requires from <= |s|
    ensures from <= r <= |s| && (r < |s| ==> SeparatorAt(s, r))
    ensures forall k :: from <= k < r ==> !SeparatorAt(s, k)
    decreases |s| - from
  {
    if from == |s| || SeparatorAt(s, from) then from else FirstSeparator(s, from + 1)
  }

  /** `s.split(/\r?\n/)`. */
  function Split(s: string): seq<string>
    decreases |s|
  {
    var i := FirstSeparator(s, 0);
    if i == |s| then [s]
    else [s[..i]] + Split(s[(if s[i] == '\n' then i + 1 else i + 2)..])
  }

  lemma JoinCuts(a: string, b: string, i: nat)
    requires i < |a|
    ensures (a + b)[..i] == a[..i] && (a + b)[i + 1..] == a[i + 1..] + b
  {
  }

  lemma Regroup<T>(a: seq<T>, b: seq<T>, c: seq<T>)
    ensures a + b + c == a + (b + c) && [] + c == c
  {
  }

  /** One step of the framing. */
  lemma Cut(s: string, line: string, rest: string, i: nat)
    requires i < |s| && Break(s) == i && line == s[..i] && rest == s[i + 1..]
    ensures Lines(s) == [Chomp(line)] + Lines(rest) && Rest(s) == Rest(rest)
  {
  }

  lemma SeparatorBeforeBreak(s: string)
    requires Break(s) < |s|
    ensures var (b, i) := (Break(s), FirstSeparator(s, 0));
            if b > 0 && s[b - 1] == '\r' then i == b - 1 && s[i] == '\r' else i == b
  {
    var b, i := Break(s), FirstSeparator(s, 0);
    assert SeparatorAt(s, b);
    if b > 0 && s[b - 1] == '\r' {
      assert SeparatorAt(s, b - 1);
    }
  }

  lemma SplitCut(s: string, line: string, rest: string, i: nat)
    requires i < |s| && Break(s) == i && line == s[..i] && rest == s[i + 1..]
    ensures Split(s) == [Chomp(line)] + Split(rest)
  {
    SeparatorBeforeBreak(s);
    assert i > 0 ==> line[|line| - 1] == s[i - 1];
    if i > 0 && s[i - 1] == '\r' {
      assert line[..i - 1] == s[..i - 1];
      assert s[(i - 1) + 2..] == rest;
    }
  }

  lemma NoSeparator(s: string)
    requires Break(s) == |s|
    ensures Split(s) == [s] && Lines(s) == [] && Rest(s) == s
  {
    forall k | 0 <= k < |s| ensures !SeparatorAt(s, k) {}
  }

  /** Splitting at once gives the terminated lines and then the unterminated remainder. */
  lemma {:induction false} SplitIsLinesThenRest(s: string)
    ensures Split(s) == Lines(s) + [Rest(s)]
    decreases |s|
  {
    var b := Break(s);
    if b < |s| {
      var line, rest := s[..b], s[b + 1..];
      SplitIsLinesThenRest(rest);
      SplitCut(s, line, rest, b);
      Cut(s, line, rest, b);
      Regroup([Chomp(line)], Lines(rest), [Rest(rest)]);
    } else {
      NoSeparator(s);
    }
  }

  // ----- Framing

  lemma BreakIs(s: string, i: nat)
    requires i <= |s| && (i < |s| ==> s[i] == '\n')
    requires forall k :: 0 <= k < i ==> s[k] != '\n'
    ensures Break(s) == i
  {
  }

  lemma CutOfJoin(a: string, b: string, ab: string, line: string, rest: string, restB: string, i: nat)
    requires i < |a| && Break(a) == i && line == a[..i] && rest == a[i + 1..]
    requires ab == a + b && ab[..i] == line && ab[i + 1..] == restB
    ensures Lines(a) == [Chomp(line)] + Lines(rest) && Rest(a) == Rest(rest)
    ensures Lines(ab) == [Chomp(line)] + Lines(restB) && Rest(ab) == Rest(restB)
  {
    BreakIs(ab, i);
    Cut(a, line, rest, i);
    Cut(ab, line, restB, i);
  }

  /** Framing a text in two parts: the second part continues from the first one's remainder. */
  lemma {:induction false} FramingContinues(a: string, b: string)
    ensures Lines(a + b) == Lines(a) + Lines(Rest(a) + b)
    ensures Rest(a + b) == Rest(Rest(a) + b)
    decreases |a|
  {
    var i := Break(a);
    if i < |a| {
      var line, rest := a[..i], a[i + 1..];
      FramingContinues(rest, b);
      JoinCuts(a, b, i);
      CutOfJoin(a, b, a + b, line, rest, rest + b, i);
      Regroup([Chomp(line)], Lines(rest), Lines(Rest(a) + b));
    } else {
      NoSeparator(a);
      Regroup(Lines(a), [], Lines(a + b));
    }
  }

  /** The accepted lines as text again. */
  function Accepted(lines: seq<string>): string {
    if lines == [] then "" else Accepted(lines[..|lines| - 1]) + (lines[|lines| - 1] + "\n")
  }

  function Joined(chunks: seq<string>): string {
    if chunks == [] then "" else chunks[0] + Joined(chunks[1..])
  }

  // ----- The reader

  datatype Reader = Reader(buffer: string, received: seq<string>, tail: string)

  function TailAfter(tail: string, lines: seq<string>, tailChars: nat): string {
    if lines == [] then tail
    else LastN(TailAfter(tail, lines[..|lines| - 1], tailChars) + lines[|lines| - 1] + "\n", tailChars)
  }

  function Feed(r: Reader, chunk: string, maxLine: nat, tailChars: nat): Reader {
    var text := LastN(r.buffer + chunk, maxLine);
    Reader(Rest(text), r.received + Lines(text), TailAfter(r.tail, Lines(text), tailChars))
  }

  function FeedAll(r: Reader, chunks: seq<string>, maxLine: nat, tailChars: nat): Reader
    decreases |chunks|
  {
    if chunks == [] then r else FeedAll(Feed(r, chunks[0], maxLine, tailChars), chunks[1..], maxLine, tailChars)
  }

  /** Every chunk joins what is left of the stream so far without overflowing the buffer. */
  predicate Fits(buffer: string, chunks: seq<string>, maxLine: nat)
    decreases |chunks|
  {
    chunks == [] ||
    (|buffer| + |chunks[0]| <= maxLine && Fits(Rest(buffer + chunks[0]), chunks[1..], maxLine))
  }

  /** However the stream is cut, the lines received are those of the whole text and the buffer
      holds its remainder. */
  lemma {:induction false} ChunksDoNotMatter(r: Reader, chunks: seq<string>, maxLine: nat, tailChars: nat)
    requires Fits(r.buffer, chunks, maxLine) && Break(r.buffer) == |r.buffer|
    ensures var text := r.buffer + Joined(chunks);
            var end := FeedAll(r, chunks, maxLine, tailChars);
            end.received == r.received + Lines(text) && end.buffer == Rest(text)
    decreases |chunks|
  {
    if chunks == [] {
      assert r.buffer + "" == r.buffer;
      Regroup(r.received, [], []);
    } else {
      var first, later := r.buffer + chunks[0], Joined(chunks[1..]);
      Regroup(r.buffer, chunks[0], later);
      FramingContinues(first, later);
      ChunksDoNotMatter(Feed(r, chunks[0], maxLine, tailChars), chunks[1..], maxLine, tailChars);
      Regroup(r.received, Lines(first), Lines(Rest(first) + later));
    }
  }

  const START := Reader("", [], "")

  /** Streaming a text receives exactly the lines of the one-shot split, less the last,
      unterminated one, which streaming never hands over. */
  lemma StreamedIsOneShotLessRemainder(chunks: seq<string>, maxLine: nat, tailChars: nat)
    requires Fits("", chunks, maxLine)
    ensures var end := FeedAll(START, chunks, maxLine, tailChars);
            Split(Joined(chunks)) == end.received + [end.buffer]
  {
    ChunksDoNotMatter(START, chunks, maxLine, tailChars);
    SplitIsLinesThenRest(Joined(chunks));
    assert START.buffer + Joined(chunks) == Joined(chunks);
    assert START.received + Lines(Joined(chunks)) == Lines(Joined(chunks));
  }

  // ----- Bounds

  /** Whatever arrives, the buffer stays within its cap. */
  lemma {:induction false} BufferStaysBounded(r: Reader, chunks: seq<string>, maxLine: nat, tailChars: nat)
    requires |r.buffer| <= maxLine && maxLine > 0
    ensures |FeedAll(r, chunks, maxLine, tailChars).buffer| <= maxLine
    decreases |chunks|
  {
    if chunks != [] {
      BufferStaysBounded(Feed(r, chunks[0], maxLine, tailChars), chunks[1..], maxLine, tailChars);
    }
  }

  lemma LastNOfJoin(a: string, b: string, n: nat)
    ensures LastN(LastN(a, n) + b, n) == LastN(a + b, n)
  {
  }

  lemma {:induction false} TailIsSuffix(received: seq<string>, lines: seq<string>, tailChars: nat)
    ensures TailAfter(LastN(Accepted(received), tailChars), lines, tailChars) ==
            LastN(Accepted(received + lines), tailChars)
    decreases |lines|
  {
    if lines == [] {
      assert received + lines == received;
    } else {
      var front, last := lines[..|lines| - 1], lines[|lines| - 1];
      TailIsSuffix(received, front, tailChars);
      assert (received + lines)[..|received + lines| - 1] == received + front;
      LastNOfJoin(Accepted(received + front), last + "\n", tailChars);
      assert LastN(Accepted(received + front), tailChars) + last + "\n" ==
             LastN(Accepted(received + front), tailChars) + (last + "\n");
    }
  }

  /** The diagnostics tail is always the end of all the text accepted so far, overflow or not. */
  lemma {:induction false} TailIsAccepted(r: Reader, chunks: seq<string>, maxLine: nat, tailChars: nat)
    requires r.tail == LastN(Accepted(r.received), tailChars)
    ensures var end := FeedAll(r, chunks, maxLine, tailChars);
            end.tail == LastN(Accepted(end.received), tailChars)
    decreases |chunks|
  {
    if chunks != [] {
      TailIsSuffix(r.received, Lines(LastN(r.buffer + chunks[0], maxLine)), tailChars);
      TailIsAccepted(Feed(r, chunks[0], maxLine, tailChars), chunks[1..], maxLine, tailChars);
    }
  }

  // ----- The stdout handler

  lemma LineTaken(text: string, lines: seq<string>, buffer: string, i: nat, line: string, rest: string)
    requires i < |buffer| && i == Break(buffer) && line == buffer[..i] && rest == buffer[i + 1..]
    requires Lines(text) == lines + Lines(buffer) && Rest(text) == Rest(buffer)
    ensures Lines(text) == (lines + [Chomp(line)]) + Lines(rest) && Rest(text) == Rest(rest)
  {
    Cut(buffer, line, rest, i);
    Regroup(lines, [Chomp(line)], Lines(rest));
  }

  lemma TailGrows(tail: string, lines: seq<string>, line: string, tailChars: nat)
    ensures TailAfter(tail, lines + [line], tailChars) ==
            LastN(TailAfter(tail, lines, tailChars) + line + "\n", tailChars)
  {
    assert (lines + [line])[..|lines|] == lines;
  }

  class Stdout {
    const maxLine: nat
    const tailChars: nat
    var outBuf: string
    var received: seq<string>
    var stdoutTail: string

    function Snapshot(): Reader
      reads this
    {
      Reader(outBuf, received, stdoutTail)
    }

    constructor (maxLine: nat, tailChars: nat)
      ensures Snapshot() == START && this.maxLine == maxLine && this.tailChars == tailChars
    {
      this.maxLine, this.tailChars := maxLine, tailChars;
      outBuf, received, stdoutTail := "", [], "";
    }

    method HandOver(line: string)
      modifies this`received, this`stdoutTail
      ensures received == old(received) + [line]
      ensures stdoutTail == LastN(old(stdoutTail) + line + "\n", tailChars)
    {
      received := received + [line];
      stdoutTail := LastN(stdoutTail + line + "\n", tailChars);
    }

    method OnData(chunk: string)
      modifies this
      ensures Snapshot() == Feed(old(Snapshot()), chunk, maxLine, tailChars)
    {
      outBuf := LastN(outBuf + chunk, maxLine);
      ghost var (text, before, tail) := (outBuf, received, stdoutTail);
      ghost var lines: seq<string> := [];
      var i := Break(outBuf);
      while i < |outBuf|
        invariant i == Break(outBuf)
        invariant Lines(text) == lines + Lines(outBuf) && Rest(text) == Rest(outBuf)
        invariant received == before + lines
        invariant stdoutTail == TailAfter(tail, lines, tailChars)
        decreases |outBuf|
      {
        var line := Chomp(outBuf[..i]);
        LineTaken(text, lines, outBuf, i, outBuf[..i], outBuf[i + 1..]);
        TailGrows(tail, lines, line, tailChars);
        HandOver(line);
        outBuf := outBuf[i + 1..];
        lines := lines + [line];
        i := Break(outBuf);
      }
      assert lines + [] == lines;
    }
  }
}
