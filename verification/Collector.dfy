/** What is kept of a child's event stream: the last assistant message's blocks under a
    character cap, and the keeper that tells a quiet child from a stalled one. */
module Collector {
  import opened ChildOverflow
  import opened ChildStream
  import opened Wrappers

  const MAX_ANSWER_CHARS := 1_000_000
  const MAX_EVENT_LINE_CHARS := 10 * 1024 * 1024

  datatype Block = Text(text: string) | Thinking(text: string) | Other

  datatype Message = NotAssistant | Assistant(content: Option<seq<Block>>)

  /** A parsed event: its type, its session id, the error text found in it, and its message. */
  datatype Event = Event(kind: Option<string>, id: Option<string>, error: Option<string>, message: Message)

  datatype Collected = Collected(
    texts: seq<string>, thinkings: seq<string>, accumulated: nat, capped: bool,
    messages: nat, events: nat, lastType: Option<string>, session: Option<string>, failure: Option<string>)

  const EMPTY := Collected([], [], 0, false, 0, 0, None, None, None)

  predicate IsError(kind: Option<string>) {
    kind == Some("error") || kind == Some("agent_error") || kind == Some("provider_error")
  }

  function Counted(c: Collected, e: Event): Collected {
    c.(events := c.events + 1,
       lastType := if e.kind == None then c.lastType else e.kind,
       session := if e.kind == Some("session") && e.id != None then e.id else c.session,
       failure := if IsError(e.kind) && c.failure == None then e.error else c.failure)
  }

  /** The content of an assistant message's end, when it is a list. */
  function ContentOf(e: Event): Option<seq<Block>> {
    if e.kind == Some("message_end") && e.message.Assistant? then e.message.content else None
  }

  function Append(c: Collected, b: Block, cap: nat): Collected {
    if b.Other? || c.capped then c
    else if c.accumulated + |b.text| > cap then c.(capped := true)
    else if b.Text? then c.(accumulated := c.accumulated + |b.text|, texts := c.texts + [b.text])
    else c.(accumulated := c.accumulated + |b.text|, thinkings := c.thinkings + [b.text])
  }

  function AppendAll(c: Collected, blocks: seq<Block>, cap: nat): Collected {
    if blocks == [] then c
    else Append(AppendAll(c, blocks[..|blocks| - 1], cap), blocks[|blocks| - 1], cap)
  }

  function Started(c: Collected): Collected {
    var d := c.(messages := c.messages + 1);
    if d.messages > 1 then d.(texts := [], thinkings := []) else d
  }

  function Classify(c: Collected, e: Event, cap: nat): Collected {
    var d := Counted(c, e);
    var content := ContentOf(e);
    if content != None then AppendAll(Started(d), content.value, cap)
    else if e.kind == Some("message_end") && e.message.Assistant? then d.(messages := d.messages + 1)
    else d
  }

  function Push(c: Collected, line: string, parse: string -> Option<Event>, cap: nat, maxLine: nat): Collected {
    if |line| > maxLine || parse(line) == None then c else Classify(c, parse(line).value, cap)
  }

  function PushAll(c: Collected, lines: seq<string>, parse: string -> Option<Event>, cap: nat, maxLine: nat)
    : Collected
  {
    if lines == [] then c
    else Push(PushAll(c, lines[..|lines| - 1], parse, cap, maxLine), lines[|lines| - 1], parse, cap, maxLine)
  }

  // ----- What the answer should be

  function TextsOf(blocks: seq<Block>): seq<string> {
    if blocks == [] then []
    else
      var last := blocks[|blocks| - 1];
      var rest := TextsOf(blocks[..|blocks| - 1]);
      if last.Text? then rest + [last.text] else rest
  }

  function ThinkingsOf(blocks: seq<Block>): seq<string> {
    if blocks == [] then []
    else
      var last := blocks[|blocks| - 1];
      var rest := ThinkingsOf(blocks[..|blocks| - 1]);
      if last.Thinking? then rest + [last.text] else rest
  }

  function CharsOf(blocks: seq<Block>): nat {
    if blocks == [] then 0
    else
      var last := blocks[|blocks| - 1];
      CharsOf(blocks[..|blocks| - 1]) + if last.Other? then 0 else |last.text|
  }

  /** The blocks of the last assistant message of the stream. */
  function LastContent(events: seq<Event>): seq<Block> {
    if events == [] then []
    else
      var content := ContentOf(events[|events| - 1]);
      if content != None then content.value else LastContent(events[..|events| - 1])
  }

  /** All the text of all the assistant messages. */
  function TotalChars(events: seq<Event>): nat {
    if events == [] then 0
    else
      var content := ContentOf(events[|events| - 1]);
      TotalChars(events[..|events| - 1]) + if content == None then 0 else CharsOf(content.value)
  }

  /** The assistant text of the messages before the last one. */
  function Before(events: seq<Event>): nat {
    if events == [] then 0
    else
      var front := events[..|events| - 1];
      if ContentOf(events[|events| - 1]) != None then TotalChars(front) else Before(front)
  }

  /** The longest beginning of a message whose text fits the room left for it. */
  function Fitting(blocks: seq<Block>, room: int): seq<Block> {
    if blocks == [] || CharsOf(blocks) <= room then blocks else Fitting(blocks[..|blocks| - 1], room)
  }

  lemma {:induction false} FittingIsLongest(blocks: seq<Block>, room: int) returns (r: seq<Block>)
    ensures r == Fitting(blocks, room)
    ensures |r| <= |blocks| && r == blocks[..|r|] && (r == [] || CharsOf(r) <= room)
    ensures |r| < |blocks| ==> CharsOf(blocks[..|r| + 1]) > room
  {
    r := blocks;
    if blocks == [] || CharsOf(blocks) <= room {
      assert blocks[..|blocks|] == blocks;
    } else {
      var front := blocks[..|blocks| - 1];
      r := FittingIsLongest(front, room);
      assert blocks[..|blocks|] == blocks;
      assert front[..|r|] == blocks[..|r|];
      assert |r| < |front| ==> front[..|r| + 1] == blocks[..|r| + 1];
    }
  }

  /** The events a stream of lines delivers: an over-long line and one that does not parse deliver none. */
  function Heard(lines: seq<string>, parse: string -> Option<Event>, maxLine: nat): seq<Event> {
    if lines == [] then []
    else
      var (heard, last) := (Heard(lines[..|lines| - 1], parse, maxLine), lines[|lines| - 1]);
      if |last| > maxLine || parse(last) == None then heard else heard + [parse(last).value]
  }

  predicate NoText(blocks: seq<Block>) {
    TextsOf(blocks) == [] && ThinkingsOf(blocks) == []
  }

  /** After `before` characters of earlier messages and the given blocks of this one. */
  predicate Tracks(c: Collected, before: nat, blocks: seq<Block>, cap: nat) {
    && (c.capped <==> before + CharsOf(blocks) > cap)
    && (!c.capped ==> c.accumulated == before + CharsOf(blocks))
    && c.texts == TextsOf(Fitting(blocks, cap - before))
    && c.thinkings == ThinkingsOf(Fitting(blocks, cap - before))
  }

  lemma FittingGrows(blocks: seq<Block>, b: Block, all: seq<Block>, room: int)
    requires all == blocks + [b]
    ensures CharsOf(all) == CharsOf(blocks) + if b.Other? then 0 else |b.text|
    ensures Fitting(all, room) == if CharsOf(all) <= room then all else Fitting(blocks, room)
    ensures CharsOf(blocks) <= room ==> Fitting(blocks, room) == blocks
  {
    assert all[..|all| - 1] == blocks;
  }

  lemma {:induction false} AppendTracks(c: Collected, before: nat, blocks: seq<Block>, cap: nat)
    requires Tracks(c, before, [], cap)
    ensures Tracks(AppendAll(c, blocks, cap), before, blocks, cap)
    ensures AppendAll(c, blocks, cap).messages == c.messages
  {
    if blocks != [] {
      var front, last := blocks[..|blocks| - 1], blocks[|blocks| - 1];
      AppendTracks(c, before, front, cap);
      FittingGrows(front, last, blocks, cap - before);
    }
  }

  /** One event, after `total` characters in all. */
  lemma ClassifyTracks(before: Collected, e: Event, total: nat, cap: nat) returns (c: Collected)
    requires (before.capped <==> total > cap) && (!before.capped ==> before.accumulated == total)
    requires before.messages == 0 ==> before.texts == [] && before.thinkings == []
    ensures c == Classify(before, e, cap)
    ensures ContentOf(e) != None ==> Tracks(c, total, ContentOf(e).value, cap)
    ensures ContentOf(e) == None ==>
              c.texts == before.texts && c.thinkings == before.thinkings
              && c.capped == before.capped && c.accumulated == before.accumulated
    ensures c.messages == 0 ==> c.texts == [] && c.thinkings == []
  {
    c := Classify(before, e, cap);
    if ContentOf(e) != None {
      AppendTracks(Started(Counted(before, e)), total, ContentOf(e).value, cap);
    }
  }

  lemma HeardLast(events: seq<Event>, e: Event, all: seq<Event>)
    requires all == events + [e]
    ensures TotalChars(all) == TotalChars(events) + if ContentOf(e) == None then 0 else CharsOf(ContentOf(e).value)
    ensures LastContent(all) == if ContentOf(e) == None then LastContent(events) else ContentOf(e).value
    ensures Before(all) == if ContentOf(e) == None then Before(events) else TotalChars(events)
  {
    assert all[..|all| - 1] == events;
  }

  ghost predicate KeptFrom(c: Collected, events: seq<Event>, cap: nat) {
    && Tracks(c, Before(events), LastContent(events), cap)
    && TotalChars(events) == Before(events) + CharsOf(LastContent(events))
    && (c.messages == 0 ==> c.texts == [] && c.thinkings == [])
  }

  lemma EventKept(before: Collected, events: seq<Event>, e: Event, cap: nat) returns (c: Collected)
    requires KeptFrom(before, events, cap)
    ensures c == Classify(before, e, cap) && KeptFrom(c, events + [e], cap)
  {
    HeardLast(events, e, events + [e]);
    c := ClassifyTracks(before, e, TotalChars(events), cap);
  }

  lemma {:induction false} StreamIsKept(lines: seq<string>, parse: string -> Option<Event>, cap: nat, maxLine: nat)
    returns (c: Collected, events: seq<Event>)
    ensures c == PushAll(EMPTY, lines, parse, cap, maxLine) && events == Heard(lines, parse, maxLine)
    ensures KeptFrom(c, events, cap)
  {
    c, events := EMPTY, [];
    if lines != [] {
      var last := lines[|lines| - 1];
      c, events := StreamIsKept(lines[..|lines| - 1], parse, cap, maxLine);
      if |last| <= maxLine && parse(last) != None {
        c := EventKept(c, events, parse(last).value, cap);
        events := events + [parse(last).value];
      }
    }
  }

  /** What is kept of a stream: of its last assistant message, the longest beginning that fits
      what the earlier ones left of the cap. */
  function Keeps(events: seq<Event>, cap: nat): seq<Block> {
    Fitting(LastContent(events), cap - Before(events))
  }

  /** Cutting a message short loses a block that the answer would have shown. */
  lemma {:induction false} FewerKept(blocks: seq<Block>, room: int)
    ensures |TextsOf(Fitting(blocks, room))| <= |TextsOf(blocks)|
    ensures |ThinkingsOf(Fitting(blocks, room))| <= |ThinkingsOf(blocks)|
    ensures CharsOf(blocks) > room && !NoText(blocks) ==>
              |TextsOf(Fitting(blocks, room))| + |ThinkingsOf(Fitting(blocks, room))| <
              |TextsOf(blocks)| + |ThinkingsOf(blocks)|
  {
    if blocks != [] && CharsOf(blocks) > room {
      FewerKept(blocks[..|blocks| - 1], room);
    }
  }

  lemma {:induction false} NoTextNoChars(blocks: seq<Block>)
    requires NoText(blocks)
    ensures CharsOf(blocks) == 0 && forall room :: NoText(Fitting(blocks, room))
  {
    if blocks != [] {
      NoTextNoChars(blocks[..|blocks| - 1]);
    }
  }

  lemma WholeExactly(c: Collected, events: seq<Event>, cap: nat)
    requires KeptFrom(c, events, cap)
    ensures c.texts == TextsOf(LastContent(events)) && c.thinkings == ThinkingsOf(LastContent(events)) <==>
            TotalChars(events) <= cap || NoText(LastContent(events))
  {
    FewerKept(LastContent(events), cap - Before(events));
    if NoText(LastContent(events)) {
      NoTextNoChars(LastContent(events));
    }
  }

  /** The answer is the last assistant message, whole, exactly when all the assistant text of the
      stream fits the cap, since the count is never reset, or that message has no text. */
  lemma AnswerIsLastMessage(lines: seq<string>, parse: string -> Option<Event>, cap: nat, maxLine: nat)
    ensures var (c, events) := (PushAll(EMPTY, lines, parse, cap, maxLine), Heard(lines, parse, maxLine));
            c.texts == TextsOf(LastContent(events)) && c.thinkings == ThinkingsOf(LastContent(events)) <==>
            TotalChars(events) <= cap || NoText(LastContent(events))
  {
    var c, events := StreamIsKept(lines, parse, cap, maxLine);
    WholeExactly(c, events, cap);
  }

  /** Two messages, the first of exactly the cap: of the second, which should be the answer, nothing is kept. */
  lemma EarlierTextCostsTheAnswer(first: string, second: string, lines: seq<string>, parse: string -> Option<Event>,
                                  cap: nat, maxLine: nat)
    requires |first| == cap && second != ""
    requires Heard(lines, parse, maxLine) == [] + [Ended(first)] + [Ended(second)]
    ensures PushAll(EMPTY, lines, parse, cap, maxLine).texts == []
    ensures LastContent(Heard(lines, parse, maxLine)) == [Text(second)]
  {
    var c, events := StreamIsKept(lines, parse, cap, maxLine);
    HeardLast([], Ended(first), [] + [Ended(first)]);
    HeardLast([] + [Ended(first)], Ended(second), events);
    OneText(first);
    OneText(second);
    var r := FittingIsLongest([Text(second)], 0);
  }

  /** The end of an assistant message of one text block. */
  function Ended(text: string): Event {
    Event(Some("message_end"), None, None, Assistant(Some([Text(text)])))
  }

  lemma OneText(text: string)
    ensures CharsOf([Text(text)]) == |text|
  {
    assert [Text(text)][..0] == [];
  }

  // ----- Retained text

  function Length(blocks: seq<string>): nat {
    if blocks == [] then 0 else Length(blocks[..|blocks| - 1]) + |blocks[|blocks| - 1]|
  }

  /** `blocks.join("\n")` */
  function Join(blocks: seq<string>): string {
    if blocks == [] then ""
    else if |blocks| == 1 then blocks[0]
    else Join(blocks[..|blocks| - 1]) + "\n" + blocks[|blocks| - 1]
  }

  function Answer(c: Collected): (string, bool) {
    if c.texts != [] then (Join(c.texts), false)
    else if c.thinkings != [] then (Join(c.thinkings), true)
    else ("", false)
  }

  lemma {:induction false} JoinLength(blocks: seq<string>)
    ensures |Join(blocks)| == Length(blocks) + if blocks == [] then 0 else |blocks| - 1
  {
    if |blocks| == 1 {
      assert blocks[..0] == [];
    } else if blocks != [] {
      JoinLength(blocks[..|blocks| - 1]);
    }
  }

  lemma LengthSnoc(blocks: seq<string>, text: string)
    ensures Length(blocks + [text]) == Length(blocks) + |text|
  {
    assert (blocks + [text])[..|blocks|] == blocks;
  }

  /** The text and the number of a message's blocks. */
  lemma {:induction false} CharsAreLengths(blocks: seq<Block>)
    ensures Length(TextsOf(blocks)) + Length(ThinkingsOf(blocks)) == CharsOf(blocks)
    ensures |TextsOf(blocks)| + |ThinkingsOf(blocks)| <= |blocks|
  {
    if blocks != [] {
      var front, last := blocks[..|blocks| - 1], blocks[|blocks| - 1];
      CharsAreLengths(front);
      if last.Text? {
        LengthSnoc(TextsOf(front), last.text);
      } else if last.Thinking? {
        LengthSnoc(ThinkingsOf(front), last.text);
      }
    }
  }

  lemma {:induction false} FittingIsLess(blocks: seq<Block>, room: int) returns (r: seq<Block>)
    ensures r == Fitting(blocks, room)
    ensures CharsOf(r) + |r| <= CharsOf(blocks) + |blocks| && (r == [] || CharsOf(r) <= room)
  {
    r := blocks;
    if blocks != [] && CharsOf(blocks) > room {
      r := FittingIsLess(blocks[..|blocks| - 1], room);
    }
  }

  /** A message is written out in its line: every block and every character of it takes up at least one. */
  ghost predicate WrittenOut(parse: string -> Option<Event>) {
    forall line :: parse(line) != None && ContentOf(parse(line).value) != None ==>
      CharsOf(ContentOf(parse(line).value).value) + |ContentOf(parse(line).value).value| <= |line|
  }

  lemma {:induction false} LastContentIsALine(lines: seq<string>, parse: string -> Option<Event>, maxLine: nat)
    requires WrittenOut(parse)
    ensures var blocks := LastContent(Heard(lines, parse, maxLine));
            CharsOf(blocks) + |blocks| <= maxLine
  {
    if lines != [] {
      var front, last := lines[..|lines| - 1], lines[|lines| - 1];
      LastContentIsALine(front, parse, maxLine);
      if |last| <= maxLine && parse(last) != None {
        var heard := Heard(front, parse, maxLine);
        assert (heard + [parse(last).value])[..|heard|] == heard;
      }
    }
  }

  lemma LengthsAre(c: Collected, kept: seq<Block>)
    requires c.texts == TextsOf(kept) && c.thinkings == ThinkingsOf(kept)
    ensures Length(c.texts) + Length(c.thinkings) == CharsOf(kept) && |c.texts| + |c.thinkings| <= |kept|
  {
    CharsAreLengths(kept);
  }

  lemma KeptIsBounded(c: Collected, events: seq<Event>, blocks: seq<Block>, cap: nat)
    requires KeptFrom(c, events, cap) && blocks == LastContent(events)
    ensures Length(c.texts) + Length(c.thinkings) <= cap
    ensures Length(c.texts) + |c.texts| + Length(c.thinkings) + |c.thinkings| <= CharsOf(blocks) + |blocks|
  {
    var kept := FittingIsLess(blocks, cap - Before(events));
    LengthsAre(c, kept);
  }

  lemma AnswerLength(c: Collected)
    ensures |Answer(c).0| == if c.texts != [] then Length(c.texts) + (|c.texts| - 1)
                             else if c.thinkings != [] then Length(c.thinkings) + (|c.thinkings| - 1)
                             else 0
  {
    JoinLength(c.texts);
    JoinLength(c.thinkings);
  }

  /** Memory stays bounded however long the stream: the kept text never exceeds the cap, and text
      and separators together never exceed one line. */
  lemma RetainedStaysBounded(lines: seq<string>, parse: string -> Option<Event>, cap: nat, maxLine: nat)
    ensures var c := PushAll(EMPTY, lines, parse, cap, maxLine);
            Length(c.texts) + Length(c.thinkings) <= cap
    ensures WrittenOut(parse) ==>
              var c := PushAll(EMPTY, lines, parse, cap, maxLine);
              && Length(c.texts) + |c.texts| + Length(c.thinkings) + |c.thinkings| <= maxLine
              && |Answer(c).0| <= maxLine
  {
    var c, events := StreamIsKept(lines, parse, cap, maxLine);
    KeptIsBounded(c, events, LastContent(events), cap);
    AnswerLength(c);
    if WrittenOut(parse) {
      LastContentIsALine(lines, parse, maxLine);
    }
  }

  /** The blocks an answer is made of. */
  function Shown(blocks: seq<Block>): seq<string> {
    if TextsOf(blocks) != [] then TextsOf(blocks) else ThinkingsOf(blocks)
  }

  lemma ShownLength(c: Collected, kept: seq<Block>, cap: nat)
    requires c.texts == TextsOf(kept) && c.thinkings == ThinkingsOf(kept)
    ensures |Answer(c).0| > cap <==> Length(Shown(kept)) + |Shown(kept)| > cap + 1
  {
    AnswerLength(c);
  }

  /** The cap does not count separators: an answer is longer than the cap exactly when the text and
      the separators of what is kept of the last message are. */
  lemma AnswerExceedsCapExactly(lines: seq<string>, parse: string -> Option<Event>, cap: nat, maxLine: nat)
    ensures var shown := Shown(Keeps(Heard(lines, parse, maxLine), cap));
            |Answer(PushAll(EMPTY, lines, parse, cap, maxLine)).0| > cap <==> Length(shown) + |shown| > cap + 1
    ensures var events := Heard(lines, parse, maxLine);
            TotalChars(events) <= cap ==> Keeps(events, cap) == LastContent(events)
  {
    var c, events := StreamIsKept(lines, parse, cap, maxLine);
    ShownLength(c, Keeps(events, cap), cap);
  }

  const MESSAGE := "{\"type\":\"message_end\",\"message\":{\"role\":\"assistant\",\"content\":["
  const BLOCK := "{\"type\":\"text\",\"text\":\""

  /** A line that ends an assistant message of two text blocks, the second one empty. */
  function TwoBlocks(text: string): string {
    MESSAGE + BLOCK + text + "\"}," + BLOCK + "\"}]}}"
  }

  lemma TwoBlocksAre(text: string, blocks: seq<Block>)
    requires blocks == [Text(text)] + [Text("")]
    ensures Shown(blocks) == [text] + [""] && CharsOf(blocks) == |text|
  {
    assert blocks[..1] == [Text(text)] && [Text(text)][..0] == [];
    assert TextsOf([Text(text)]) == [text] && CharsOf([Text(text)]) == |text|;
  }

  lemma OneLineHeard(line: string, e: Event, parse: string -> Option<Event>, maxLine: nat)
    requires |line| <= maxLine && parse(line) == Some(e) && ContentOf(e) != None
    ensures LastContent(Heard([line], parse, maxLine)) == ContentOf(e).value
    ensures Before(Heard([line], parse, maxLine)) == 0
  {
    assert [line][..0] == [];
    HeardLast([], e, [] + [e]);
  }

  lemma TwoBlocksFit(text: string)
    requires |text| == MAX_ANSWER_CHARS
    ensures |TwoBlocks(text)| < MAX_EVENT_LINE_CHARS
  {
  }

  /** One message of exactly the cap and an empty block is a line well within its own limit, and
      its answer is a character over the cap. */
  lemma SeparatorExceedsTheCap(text: string, parse: string -> Option<Event>)
    requires |text| == MAX_ANSWER_CHARS
    requires parse(TwoBlocks(text)) ==
             Some(Event(Some("message_end"), None, None, Assistant(Some([Text(text)] + [Text("")]))))
    ensures |TwoBlocks(text)| < MAX_EVENT_LINE_CHARS
    ensures |Answer(PushAll(EMPTY, [TwoBlocks(text)], parse, MAX_ANSWER_CHARS, MAX_EVENT_LINE_CHARS)).0| ==
            MAX_ANSWER_CHARS + 1
  {
    TwoBlocksFit(text);
    OneBlockOver(TwoBlocks(text), text, parse, MAX_ANSWER_CHARS, MAX_EVENT_LINE_CHARS);
  }

  lemma OneBlockOver(line: string, text: string, parse: string -> Option<Event>, cap: nat, maxLine: nat)
    requires |text| == cap && |line| <= maxLine
    requires parse(line) == Some(Event(Some("message_end"), None, None, Assistant(Some([Text(text)] + [Text("")]))))
    ensures |Answer(PushAll(EMPTY, [line], parse, cap, maxLine)).0| == cap + 1
  {
    var blocks := [Text(text)] + [Text("")];
    OneLineHeard(line, parse(line).value, parse, maxLine);
    TwoBlocksAre(text, blocks);
    var c, events := StreamIsKept([line], parse, cap, maxLine);
    assert Keeps(events, cap) == blocks;
    AnswerLength(c);
    TwoLengths(text);
  }

  lemma TwoLengths(text: string)
    ensures Length([text] + [""]) == |text|
  {
    LengthSnoc([text], "");
    LengthSnoc([], text);
    assert [] + [text] == [text];
  }

  // ----- Streaming against one shot

  lemma PushLast(c: Collected, lines: seq<string>, line: string, parse: string -> Option<Event>, cap: nat, maxLine: nat)
    ensures PushAll(c, lines + [line], parse, cap, maxLine) ==
            Push(PushAll(c, lines, parse, cap, maxLine), line, parse, cap, maxLine)
  {
    assert (lines + [line])[..|lines|] == lines;
  }

  /** Parsing a whole captured stream gives what streaming it in chunks gives, once the last,
      unterminated line is pushed too. */
  lemma OneShotPushesRemainder(chunks: seq<string>, parse: string -> Option<Event>, cap: nat, maxLine: nat,
                               tailChars: nat)
    requires Fits("", chunks, maxLine)
    ensures var end := FeedAll(START, chunks, maxLine, tailChars);
            PushAll(EMPTY, Split(Joined(chunks)), parse, cap, maxLine) ==
            Push(PushAll(EMPTY, end.received, parse, cap, maxLine), end.buffer, parse, cap, maxLine)
  {
    StreamedIsOneShotLessRemainder(chunks, maxLine, tailChars);
    var end := FeedAll(START, chunks, maxLine, tailChars);
    PushLast(EMPTY, end.received, end.buffer, parse, cap, maxLine);
  }

  lemma SparedIsOneShot(chunks: seq<string>, lines: seq<string>, parse: string -> Option<Event>, cap: nat, maxLine: nat,
                        tailChars: nat)
    requires Spared("", 0, chunks, maxLine) && parse("") == None && Rest(Joined(chunks)) == ""
    requires lines == FeedAll(START, chunks, maxLine, tailChars).received
    ensures PushAll(EMPTY, lines, parse, cap, maxLine) == PushAll(EMPTY, Split(Joined(chunks)), parse, cap, maxLine)
  {
    StreamKeepsLinesExactly(chunks, maxLine, tailChars);
    SplitIsLinesThenRest(Joined(chunks));
    PushLast(EMPTY, lines, "", parse, cap, maxLine);
  }

  /** A newline-terminated stream gives the same answer however it is cut, as long as the buffer's
      cap costs it no line; in particular when every chunk fits the buffer. */
  lemma StreamedAnswerIsOneShot(chunks: seq<string>, parse: string -> Option<Event>, cap: nat, maxLine: nat,
                                tailChars: nat)
    requires Spared("", 0, chunks, maxLine) && parse("") == None
    requires Rest(Joined(chunks)) == ""
    ensures Answer(PushAll(EMPTY, FeedAll(START, chunks, maxLine, tailChars).received, parse, cap, maxLine)) ==
            Answer(PushAll(EMPTY, Split(Joined(chunks)), parse, cap, maxLine))
  {
    SparedIsOneShot(chunks, FeedAll(START, chunks, maxLine, tailChars).received, parse, cap, maxLine, tailChars);
  }

  // ----- The collector

  class JsonlCollector {
    const cap: nat
    const maxLine: nat
    var textBlocks: seq<string>
    var thinkingBlocks: seq<string>
    var accumulated: nat
    var capped: bool
    var messages: nat
    var events: nat
    var lastType: Option<string>
    var session: Option<string>
    var failure: Option<string>

    function Snapshot(): Collected
      reads this
    {
      Collected(textBlocks, thinkingBlocks, accumulated, capped, messages, events, lastType, session, failure)
    }

    constructor (cap: nat, maxLine: nat)
      ensures Snapshot() == EMPTY && this.cap == cap && this.maxLine == maxLine
    {
      this.cap, this.maxLine := cap, maxLine;
      textBlocks, thinkingBlocks, accumulated, capped := [], [], 0, false;
      messages, events, lastType, session, failure := 0, 0, None, None, None;
    }

    method CapAppend(b: Block)
      modifies this`textBlocks, this`thinkingBlocks, this`accumulated, this`capped
      ensures Snapshot() == Append(old(Snapshot()), b, cap)
    {
      if b.Other? || capped {
        return;
      }
      if accumulated + |b.text| > cap {
        capped := true;
        return;
      }
      accumulated := accumulated + |b.text|;
      if b.Text? {
        textBlocks := textBlocks + [b.text];
      } else {
        thinkingBlocks := thinkingBlocks + [b.text];
      }
    }

    method Count(e: Event)
      modifies this`events, this`lastType, this`session, this`failure
      ensures Snapshot() == Counted(old(Snapshot()), e)
    {
      events := events + 1;
      if e.kind != None {
        lastType := e.kind;
      }
      if e.kind == Some("session") && e.id != None {
        session := e.id;
      }
      if IsError(e.kind) && failure == None {
        failure := e.error;
      }
    }

    method TakeContent(content: seq<Block>)
      modifies this`textBlocks, this`thinkingBlocks, this`accumulated, this`capped
      ensures Snapshot() == AppendAll(old(Snapshot()), content, cap)
    {
      ghost var start := Snapshot();
      for i := 0 to |content|
        invariant Snapshot() == AppendAll(start, content[..i], cap)
      {
        assert content[..i + 1][..i] == content[..i];
        CapAppend(content[i]);
      }
      assert content[..|content|] == content;
    }

    method PushLine(line: string, parse: string -> Option<Event>)
      modifies this
      ensures Snapshot() == Push(old(Snapshot()), line, parse, cap, maxLine)
    {
      if |line| > maxLine || parse(line) == None {
        return;
      }
      var e := parse(line).value;
      Count(e);
      if e.kind == Some("message_end") && e.message.Assistant? {
        messages := messages + 1;
        if e.message.content == None {
          return;
        }
        if messages > 1 {
          textBlocks, thinkingBlocks := [], [];
        }
        TakeContent(e.message.content.value);
      }
    }
  }

  // ----- The idle keeper

  /** What the keeper hears of: output from the child, or a full idle window with or without file writes. */
  datatype Signal = Live | Window(writing: bool)

  function Breaches(signals: seq<Signal>): nat {
    if signals == [] then 0
    else if signals[|signals| - 1] == Window(false) then Breaches(signals[..|signals| - 1]) + 1
    else 0
  }

  function Allowed(grace: nat): nat {
    if grace < 1 then 1 else grace
  }

  predicate SilentFrom(signals: seq<Signal>, from: int) {
    0 <= from && forall k :: from <= k < |signals| ==> signals[k] == Window(false)
  }

  lemma {:induction false} BreachesCountSilence(signals: seq<Signal>, n: nat)
    ensures Breaches(signals) >= n <==> SilentFrom(signals, |signals| - n)
  {
    if signals != [] && n > 0 {
      var front := signals[..|signals| - 1];
      BreachesCountSilence(front, n - 1);
      assert SilentFrom(front, |front| - (n - 1)) && signals[|signals| - 1] == Window(false) ==>
          SilentFrom(signals, |signals| - n);
      if SilentFrom(signals, |signals| - n) {
        assert signals[|signals| - 1] == Window(false);
        assert SilentFrom(front, |front| - (n - 1));
      }
    }
  }

  class IdleKeeper {
    const grace: nat
    var breaches: nat
    ghost var heard: seq<Signal>

    ghost predicate Valid()
      reads this
    {
      breaches == Breaches(heard)
    }

    constructor (grace: nat)
      ensures Valid() && heard == [] && this.grace == grace
    {
      this.grace := grace;
      breaches, heard := 0, [];
    }

    method NoteLive()
      requires Valid()
      modifies this
      ensures Valid() && heard == old(heard) + [Live]
    {
      breaches := 0;
      heard := heard + [Live];
    }

    /** Kills exactly when this window and at least `Allowed(grace)` signals before it were all
        silent windows: no output, no file writes. */
    method OnElapsed(writing: bool) returns (kill: bool)
      requires Valid()
      modifies this
      ensures Valid() && heard == old(heard) + [Window(writing)]
      ensures kill <==> SilentFrom(heard, |heard| - (Allowed(grace) + 1))
    {
      ghost var before := heard;
      heard := heard + [Window(writing)];
      assert heard[..|heard| - 1] == before;
      BreachesCountSilence(heard, Allowed(grace) + 1);
      if writing {
        breaches := 0;
        return false;
      }
      breaches := breaches + 1;
      kill := breaches > Allowed(grace);
    }
  }
}
