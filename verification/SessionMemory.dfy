/** The short-lived continuity store: expiry, supersede-by-topic, a hard cap, gap-filling ids,
    and the bounded rollup injected into the next session. */
module SessionMemory {
  import opened Capping
  import opened Decimals
  import opened Sequences
  import opened Wrappers

  /** Milliseconds. An expiry that cannot be parsed is `None` and counts as past. */
  type Time = int

  datatype Note = Note(
    id: string, topic: string, created: Time, expires: Option<Time>, actor: string, text: string,
    supersedes: Option<string>)

  datatype Config = Config(ttlHours: nat, maxEntries: nat, maxTokens: int, maxNoteTokens: nat)

  datatype Input = Input(topic: string, text: string, actor: string, ttlHours: Option<nat>)

  // ----- Ids

  function IdOf(n: nat): string {
    "sm-" + Padded(n, 4)
  }

  function Ids(entries: seq<Note>): set<string> {
    set e | e in entries :: e.id
  }

  lemma IdInjective(n: nat, m: nat)
    requires IdOf(n) == IdOf(m)
    ensures n == m
  {
    assert IdOf(n)[3..] == Padded(n, 4) && IdOf(m)[3..] == Padded(m, 4);
    PaddedInjective(n, m, 4);
  }

  /** The least number from `n` on whose id is free. Each id passed over uses up an entry. */
  function FirstFree(used: set<string>, n: nat): (r: nat)
    ensures n <= r <= n + |used| && IdOf(r) !in used
    ensures forall m :: n <= m < r ==> IdOf(m) in used
    decreases |used|
  {
    if IdOf(n) !in used then n
    else
      var r := FirstFree(used - {IdOf(n)}, n + 1);
      assert IdOf(r) !in used by {
        if IdOf(r) == IdOf(n) { IdInjective(r, n); }
      }
      r
  }

  function NextIdOf(entries: seq<Note>): string {
    IdOf(FirstFree(Ids(entries), 1))
  }

  lemma {:induction false} IdsBound(entries: seq<Note>)
    ensures |Ids(entries)| <= |entries|
  {
    if entries != [] {
      var front, last := entries[..|entries| - 1], entries[|entries| - 1];
      assert entries == front + [last];
      IdsBound(front);
      assert Ids(entries) == Ids(front) + {last.id};
    }
  }

  method CollectIds(entries: seq<Note>) returns (used: set<string>)
    ensures used == Ids(entries)
  {
    used := {};
    for i := 0 to |entries|
      invariant used == Ids(entries[..i])
    {
      assert Ids(entries[..i + 1]) == Ids(entries[..i]) + {entries[i].id};
      used := used + {entries[i].id};
    }
    assert entries[..|entries|] == entries;
  }

  /** The loop ends, by pigeonhole, at the least unused positive number. */
  method NextId(entries: seq<Note>) returns (id: string, n: nat)
    ensures id == NextIdOf(entries) && id == IdOf(n)
    ensures 1 <= n <= |entries| + 1 && id !in Ids(entries)
    ensures forall m :: 1 <= m < n ==> IdOf(m) in Ids(entries)
  {
    var used := CollectIds(entries);
    IdsBound(entries);
    ghost var goal: int := FirstFree(used, 1);
    n := 1;
    while IdOf(n) in used
      invariant 1 <= n <= goal
      decreases goal - n
    {
      n := n + 1;
    }
    assert n == goal;
    id := IdOf(n);
  }

  // ----- Retention

  function LiveAt(now: Time): Note -> bool {
    (e: Note) => e.expires != None && e.expires.value > now
  }

  function PruneExpired(entries: seq<Note>, now: Time): seq<Note> {
    Filter(LiveAt(now), entries)
  }

  function OffTopic(topic: string, now: Time): Note -> bool {
    (e: Note) => !(e.topic == topic && LiveAt(now)(e))
  }

  function SupersedeTopic(entries: seq<Note>, topic: string, now: Time): seq<Note> {
    Filter(OffTopic(topic, now), PruneExpired(entries, now))
  }

  function ByCreated(): (Note, Note) -> bool {
    (a: Note, b: Note) => a.created <= b.created
  }

  function IdKey(): Note -> string {
    (e: Note) => e.id
  }

  /** The newest `maxEntries` notes, in store order. */
  function EnforceCap(entries: seq<Note>, maxEntries: nat): seq<Note> {
    CapBy(ByCreated(), IdKey(), entries, maxEntries)
  }

  function FirstLive(entries: seq<Note>, topic: string, now: Time): Option<string> {
    if entries == [] then None
    else if entries[0].topic == topic && LiveAt(now)(entries[0]) then Some(entries[0].id)
    else FirstLive(entries[1..], topic, now)
  }

  function MakeNote(entries: seq<Note>, input: Input, cfg: Config, now: Time): Note {
    var ttl := if input.ttlHours == None then cfg.ttlHours else input.ttlHours.value;
    Note(NextIdOf(entries), input.topic, now, Some(now + ttl * 3_600_000), input.actor, input.text,
         FirstLive(entries, input.topic, now))
  }

  function AddNote(entries: seq<Note>, input: Input, cfg: Config, now: Time): seq<Note> {
    var note := MakeNote(entries, input, cfg, now);
    EnforceCap(PruneExpired(SupersedeTopic(entries, input.topic, now) + [note], now), cfg.maxEntries)
  }

  // ----- Rollup

  function Tokens(s: string): nat {
    if |s| <= 4 then 1 else (|s| + 3) / 4
  }

  function Line(e: Note, stamp: Option<Time> -> string, maxNoteTokens: nat): string {
    var text := if Tokens(e.text) > maxNoteTokens then e.text[..maxNoteTokens * 4] + "…" else e.text;
    "- [" + e.topic + "] (" + e.actor + ", until " + stamp(e.expires) + ") " + text
  }

  function Lines(notes: seq<Note>, stamp: Option<Time> -> string, maxNoteTokens: nat): (r: seq<string>)
    ensures |r| == |notes|
  {
    seq(|notes|, i requires 0 <= i < |notes| => Line(notes[i], stamp, maxNoteTokens))
  }

  function Cost(lines: seq<string>): nat {
    if lines == [] then 0 else Cost(lines[..|lines| - 1]) + Tokens(lines[|lines| - 1])
  }

  function Ordered(entries: seq<Note>, now: Time): seq<Note> {
    SortBy(ByCreated(), PruneExpired(entries, now))
  }

  /** The longest affordable prefix, but one line at least. */
  ghost predicate Packs(lines: seq<string>, all: seq<string>, maxTokens: int) {
    && 1 <= |lines| <= |all| && lines == all[..|lines|]
    && (Cost(lines) <= maxTokens || |lines| == 1)
    && (|lines| == |all| || Cost(all[..|lines| + 1]) > maxTokens)
  }

  lemma CostGrows(all: seq<string>, i: nat)
    requires i < |all|
    ensures Cost(all[..i + 1]) == Cost(all[..i]) + Tokens(all[i]) > Cost(all[..i])
  {
    assert all[..i + 1][..i] == all[..i];
  }

  method PackLines(all: seq<string>, maxTokens: int) returns (lines: seq<string>)
    requires all != []
    ensures lines == [] <==> maxTokens <= 0
    ensures lines != [] ==> Packs(lines, all, maxTokens)
  {
    lines := [];
    var budget := maxTokens;
    for i := 0 to |all|
      invariant lines == all[..i] && budget == maxTokens - Cost(lines)
      invariant i == 0 || (maxTokens > 0 && (budget >= 0 || i == 1))
    {
      CostGrows(all, i);
      if budget <= 0 {
        return;
      }
      budget := budget - Tokens(all[i]);
      if budget < 0 && |lines| > 0 {
        return;
      }
      lines := lines + [all[i]];
    }
  }

  /** The rollup's note lines: the longest prefix of the live notes, oldest first, within the
      token budget, but never less than one line while any budget is left. */
  method BuildMemoryRollup(entries: seq<Note>, now: Time, cfg: Config, stamp: Option<Time> -> string)
    returns (rollup: Option<seq<string>>)
    ensures rollup == None <==> PruneExpired(entries, now) == [] || cfg.maxTokens <= 0
    ensures rollup != None ==>
              Packs(rollup.value, Lines(Ordered(entries, now), stamp, cfg.maxNoteTokens), cfg.maxTokens)
  {
    if PruneExpired(entries, now) == [] {
      return None;
    }
    var lines := PackLines(Lines(Ordered(entries, now), stamp, cfg.maxNoteTokens), cfg.maxTokens);
    rollup := if lines == [] then None else Some(lines);
  }
}
