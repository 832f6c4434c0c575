/** `/remember` and the shutdown prune: the two operations that rewrite the store and record
    in the audit what they removed. */
module SessionRuns {
  import opened Capping
  import opened Sequences
  import opened SessionAudit
  import opened SessionMemory
  import opened Wrappers

  datatype Files = Files(store: seq<Note>, audit: seq<Entry>)

  /** The policy, read again at every command. */
  datatype Settings = Settings(memory: Config, auditMax: nat)

  datatype Command =
    | Remember(input: Input, settings: Settings, now: Time)
    | Prune(settings: Settings, now: Time)

  function LastSupersedes(entries: seq<Note>): Option<string> {
    if entries == [] then None else entries[|entries| - 1].supersedes
  }

  /** `/remember` knows two labels: whatever it did not supersede it calls capped, expired or not. */
  function RememberReason(superseded: Option<string>): Note -> Reason {
    (n: Note) => if superseded == Some(n.id) then Superseded else Capped
  }

  function PruneReason(now: Time): Note -> Reason {
    (n: Note) => if n.expires != None && n.expires.value <= now then Expired else Capped
  }

  function Record(f: Files, next: seq<Note>, reasonOf: Note -> Reason, now: Time, auditMax: nat): Files {
    var removed := RemovedNotes(f.store, next);
    Files(next, if removed == [] then f.audit else AppendAudit(f.audit, removed, reasonOf, now, auditMax))
  }

  function NextStore(store: seq<Note>, c: Command): seq<Note> {
    match c
    case Remember(input, policy, now) => AddNote(store, input, policy.memory, now)
    case Prune(policy, now) => EnforceCap(PruneExpired(store, now), policy.memory.maxEntries)
  }

  function ReasonFor(c: Command, next: seq<Note>): Note -> Reason {
    if c.Remember? then RememberReason(LastSupersedes(next)) else PruneReason(c.now)
  }

  function Step(f: Files, c: Command): Files {
    var next := NextStore(f.store, c);
    Record(f, next, ReasonFor(c, next), c.now, c.settings.auditMax)
  }

  // ----- The store as a sublist

  function TopicKey(): Note -> string {
    (n: Note) => n.topic
  }

  /** Ids and topics are unique and no note is from the future. */
  ghost predicate StoreOk(store: seq<Note>, now: Time) {
    UniqueBy(IdKey(), store) && UniqueBy(TopicKey(), store) && forall e :: e in store ==> e.created <= now
  }

  function TtlOf(input: Input, cfg: Config): nat {
    if input.ttlHours == None then cfg.ttlHours else input.ttlHours.value
  }

  /** The store as it is just before the cap, and what it was cut from. */
  function Candidates(store: seq<Note>, input: Input, cfg: Config, now: Time): seq<Note> {
    PruneExpired(SupersedeTopic(store, input.topic, now) + [MakeNote(store, input, cfg, now)], now)
  }

  lemma NewIdIsFresh(store: seq<Note>, input: Input, cfg: Config, now: Time)
    ensures var note := MakeNote(store, input, cfg, now);
            note.id !in Ids(store) && note !in store
  {
    var note := MakeNote(store, input, cfg, now);
    forall e | e in store ensures e.id in Ids(store) {}
  }

  lemma SupersededIsSub(store: seq<Note>, topic: string, now: Time)
    ensures Sub(SupersedeTopic(store, topic, now), store)
  {
    FilterIsSub(LiveAt(now), store);
    FilterOfSub(OffTopic(topic, now), PruneExpired(store, now), store);
  }

  lemma CandidatesAreSub(store: seq<Note>, input: Input, cfg: Config, now: Time)
    ensures Sub(Candidates(store, input, cfg, now), store + [MakeNote(store, input, cfg, now)])
  {
    var note := MakeNote(store, input, cfg, now);
    NewIdIsFresh(store, input, cfg, now);
    SupersededIsSub(store, input.topic, now);
    SubSnoc(SupersedeTopic(store, input.topic, now), store, note);
    FilterOfSub(LiveAt(now), SupersedeTopic(store, input.topic, now) + [note], store + [note]);
  }

  lemma AddNoteIsSub(store: seq<Note>, input: Input, cfg: Config, now: Time)
    ensures Sub(AddNote(store, input, cfg, now), store + [MakeNote(store, input, cfg, now)])
  {
    CandidatesAreSub(store, input, cfg, now);
    CapIsSub(ByCreated(), IdKey(), Candidates(store, input, cfg, now), cfg.maxEntries,
             store + [MakeNote(store, input, cfg, now)]);
  }

  lemma PruneIsSub(store: seq<Note>, cfg: Config, now: Time)
    ensures Sub(EnforceCap(PruneExpired(store, now), cfg.maxEntries), store)
  {
    FilterIsSub(LiveAt(now), store);
    CapIsSub(ByCreated(), IdKey(), PruneExpired(store, now), cfg.maxEntries, store);
  }

  lemma IdsUniqueWithNew(store: seq<Note>, input: Input, cfg: Config, now: Time)
    requires UniqueBy(IdKey(), store)
    ensures UniqueBy(IdKey(), store + [MakeNote(store, input, cfg, now)])
  {
    NewIdIsFresh(store, input, cfg, now);
    forall i | 0 <= i < |store| ensures IdKey()(store[i]) != MakeNote(store, input, cfg, now).id {
      assert store[i].id in Ids(store);
    }
  }

  /** The new note survives its own `/remember` exactly when it lives at all and the cap leaves room for one. */
  lemma NewNoteStays(store: seq<Note>, input: Input, cfg: Config, now: Time)
    requires forall e :: e in store ==> e.created <= now
    ensures MakeNote(store, input, cfg, now) in AddNote(store, input, cfg, now) <==>
            TtlOf(input, cfg) > 0 && cfg.maxEntries > 0
  {
    var note := MakeNote(store, input, cfg, now);
    var kept := SupersedeTopic(store, input.topic, now);
    var rest := PruneExpired(kept, now);
    FilterSnoc(LiveAt(now), kept, note);
    assert Candidates(store, input, cfg, now) == if TtlOf(input, cfg) > 0 then rest + [note] else rest + [];
    NewIdIsFresh(store, input, cfg, now);
    forall e | e in rest ensures ByCreated()(e, note) && e in store {
      FilterMembers(LiveAt(now), kept, e);
      FilterMembers(OffTopic(input.topic, now), PruneExpired(store, now), e);
      FilterMembers(LiveAt(now), store, e);
    }
    if TtlOf(input, cfg) > 0 {
      CapKeepsLast(ByCreated(), IdKey(), rest, note, cfg.maxEntries);
    } else {
      assert rest + [] == rest;
      FilterIsSub(LiveAt(now), kept);
      CapMembers(rest, cfg.maxEntries, note);
    }
  }

  lemma CapMembers(entries: seq<Note>, max: nat, n: Note)
    ensures n in EnforceCap(entries, max) ==> n in entries
  {
    if |entries| > max {
      FilterMembers(KeyIn(IdKey(), Keys(IdKey(), Newest(ByCreated(), entries, max))), entries, n);
    }
  }

  // ----- The invariant

  lemma SubStoreOk(next: seq<Note>, from: seq<Note>, now: Time)
    requires Sub(next, from) && StoreOk(from, now)
    ensures StoreOk(next, now)
  {
    SubUniqueBy(IdKey(), next, from);
    SubUniqueBy(TopicKey(), next, from);
  }

  lemma TopicCleared(store: seq<Note>, topic: string, now: Time, e: Note)
    requires e in SupersedeTopic(store, topic, now)
    ensures e.topic != topic && e in store
  {
    FilterMembers(OffTopic(topic, now), PruneExpired(store, now), e);
    FilterMembers(LiveAt(now), store, e);
  }

  lemma SupersededPlusNewOk(store: seq<Note>, input: Input, cfg: Config, now: Time)
    requires StoreOk(store, now)
    ensures StoreOk(SupersedeTopic(store, input.topic, now) + [MakeNote(store, input, cfg, now)], now)
  {
    var note := MakeNote(store, input, cfg, now);
    var kept := SupersedeTopic(store, input.topic, now);
    SupersededIsSub(store, input.topic, now);
    SubStoreOk(kept, store, now);
    NewIdIsFresh(store, input, cfg, now);
    forall i | 0 <= i < |kept| ensures kept[i].topic != note.topic && kept[i].id != note.id {
      TopicCleared(store, input.topic, now, kept[i]);
      assert kept[i].id in Ids(store);
    }
  }

  lemma AddNoteOk(store: seq<Note>, input: Input, cfg: Config, now: Time)
    requires StoreOk(store, now)
    ensures StoreOk(AddNote(store, input, cfg, now), now)
    ensures |AddNote(store, input, cfg, now)| <= cfg.maxEntries
  {
    var grown := SupersedeTopic(store, input.topic, now) + [MakeNote(store, input, cfg, now)];
    var live := PruneExpired(grown, now);
    SupersededPlusNewOk(store, input, cfg, now);
    FilterIsSub(LiveAt(now), grown);
    SubStoreOk(live, grown, now);
    CapSize(ByCreated(), IdKey(), live, cfg.maxEntries);
    CapStoreOk(live, cfg.maxEntries, now);
  }

  lemma CapStoreOk(entries: seq<Note>, max: nat, now: Time)
    requires StoreOk(entries, now)
    ensures StoreOk(EnforceCap(entries, max), now)
  {
    if |entries| > max {
      FilterIsSub(KeyIn(IdKey(), Keys(IdKey(), Newest(ByCreated(), entries, max))), entries);
      SubStoreOk(EnforceCap(entries, max), entries, now);
    }
  }

  lemma PruneOk(store: seq<Note>, cfg: Config, now: Time)
    requires StoreOk(store, now)
    ensures StoreOk(EnforceCap(PruneExpired(store, now), cfg.maxEntries), now)
    ensures |EnforceCap(PruneExpired(store, now), cfg.maxEntries)| <= cfg.maxEntries
  {
    var live := PruneExpired(store, now);
    FilterIsSub(LiveAt(now), store);
    SubStoreOk(live, store, now);
    CapSize(ByCreated(), IdKey(), live, cfg.maxEntries);
    CapStoreOk(live, cfg.maxEntries, now);
  }

  // ----- What a step removes

  /** Comparing by id finds exactly the notes that are gone. */
  lemma RemovedAre(store: seq<Note>, next: seq<Note>, from: seq<Note>)
    requires Sub(next, from) && UniqueBy(IdKey(), from)
    requires forall e :: e in store ==> e in from
    ensures RemovedNotes(store, next) == Filter(Not(In(next)), store)
  {
    SubUniqueBy(IdKey(), next, from);
    forall e | e in store ensures IdNotIn(Ids(next))(e) == Not(In(next))(e) {
      if e.id in Ids(next) {
        var n :| n in next && n.id == e.id;
        var i :| 0 <= i < |from| && from[i] == e;
        var j :| 0 <= j < |from| && from[j] == n;
        assert IdKey()(from[i]) == IdKey()(from[j]);
      }
    }
    FilterAgree(IdNotIn(Ids(next)), Not(In(next)), store);
  }

  function Kept(note: Note, next: seq<Note>): seq<Note> {
    if note in next then [note] else []
  }

  lemma RememberSplits(store: seq<Note>, next: seq<Note>, note: Note)
    requires Sub(next, store + [note]) && UniqueBy(IdKey(), store + [note])
    ensures next == Filter(In(next), store) + Kept(note, next)
    ensures multiset(next + RemovedNotes(store, next)) == multiset(store + Kept(note, next))
  {
    FilterSnoc(In(next), store, note);
    RemovedAre(store, next, store + [note]);
    FilterPartition(In(next), store);
  }

  lemma PruneSplits(store: seq<Note>, next: seq<Note>)
    requires Sub(next, store) && UniqueBy(IdKey(), store)
    ensures multiset(next + RemovedNotes(store, next)) == multiset(store)
  {
    RemovedAre(store, next, store);
    FilterPartition(In(next), store);
  }

  function NoteOf(f: Files, input: Input, cfg: Config, now: Time): Note {
    MakeNote(f.store, input, cfg, now)
  }

  /** Both operations keep ids and topics unique and the size within the cap. */
  lemma StepStoreOk(f: Files, c: Command)
    requires StoreOk(f.store, c.now)
    ensures StoreOk(Step(f, c).store, c.now) && |Step(f, c).store| <= c.settings.memory.maxEntries
  {
    match c
    case Remember(input, policy, now) => AddNoteOk(f.store, input, policy.memory, now);
    case Prune(policy, now) => PruneOk(f.store, policy.memory, now);
  }

  // ----- Labels

  lemma {:induction false} FirstLiveIs(store: seq<Note>, topic: string, now: Time, n: Note)
    requires UniqueBy(IdKey(), store) && UniqueBy(TopicKey(), store) && n in store
    ensures FirstLive(store, topic, now) == Some(n.id) <==> n.topic == topic && LiveAt(now)(n)
  {
    var k :| 0 <= k < |store| && store[k] == n;
    assert IdKey()(store[k]) == n.id && TopicKey()(store[k]) == n.topic;
    if k > 0 {
      assert IdKey()(store[0]) == store[0].id && TopicKey()(store[0]) == store[0].topic;
      assert n == store[1..][k - 1];
      FirstLiveIs(store[1..], topic, now, n);
    } else {
      FirstLiveNotId(store[1..], topic, now, n.id);
      forall i | 0 <= i < |store[1..]| ensures TopicKey()(store[1..][i]) != n.topic {}
    }
  }

  lemma {:induction false} FirstLiveNotId(store: seq<Note>, topic: string, now: Time, id: string)
    requires forall i :: 0 <= i < |store| ==> IdKey()(store[i]) != id
    ensures FirstLive(store, topic, now) != Some(id)
  {
    if store != [] {
      assert IdKey()(store[0]) == store[0].id;
      FirstLiveNotId(store[1..], topic, now, id);
    }
  }

  lemma FilterLast<T>(p: T -> bool, s: seq<T>)
    requires Filter(p, s) != []
    ensures Filter(p, s)[|Filter(p, s)| - 1] in s
  {
    FilterMembers(p, s, Filter(p, s)[|Filter(p, s)| - 1]);
  }

  /** A note `/remember` removes is labelled superseded exactly when it was the live note of the
      topic; one that had expired is labelled capped. When the new note does not outlive its own
      write, the label is read off whichever old note comes last, if any is left. */
  lemma RememberLabels(f: Files, input: Input, cfg: Config, now: Time, n: Note)
    requires StoreOk(f.store, now) && n in f.store
    ensures var next := AddNote(f.store, input, cfg, now);
            var reason := RememberReason(LastSupersedes(next))(n);
            if TtlOf(input, cfg) > 0 && cfg.maxEntries > 0 then
              reason == if n.topic == input.topic && LiveAt(now)(n) then Superseded else Capped
            else if next == [] then reason == Capped
            else
              && next[|next| - 1] in f.store
              && reason == if next[|next| - 1].supersedes == Some(n.id) then Superseded else Capped
  {
    var note, next := NoteOf(f, input, cfg, now), AddNote(f.store, input, cfg, now);
    AddNoteIsSub(f.store, input, cfg, now);
    IdsUniqueWithNew(f.store, input, cfg, now);
    RememberSplits(f.store, next, note);
    NewNoteStays(f.store, input, cfg, now);
    if note in next {
      assert next[|next| - 1] == note;
      FirstLiveIs(f.store, input.topic, now, n);
    } else {
      assert next == Filter(In(next), f.store);
      if next != [] {
        FilterLast(In(next), f.store);
      }
    }
  }

  // ----- The two files

  class SessionFiles {
    var store: seq<Note>
    var audit: seq<Entry>

    function Snapshot(): Files
      reads this
    {
      Files(store, audit)
    }

    constructor ()
      ensures Snapshot() == Files([], [])
    {
      store, audit := [], [];
    }

    method RecordRemoved(before: seq<Note>, reasonOf: Note -> Reason, now: Time, auditMax: nat)
      modifies this`audit
      ensures Snapshot() == Record(Files(before, old(audit)), old(store), reasonOf, now, auditMax)
    {
      var removed := RemovedNotes(before, store);
      if removed != [] {
        audit := AppendAudit(audit, removed, reasonOf, now, auditMax);
      }
    }

    method RememberNote(input: Input, cfg: Config, auditMax: nat, now: Time)
      modifies this
      ensures Snapshot() == Step(old(Snapshot()), Remember(input, Settings(cfg, auditMax), now))
    {
      var before := store;
      store := AddNote(before, input, cfg, now);
      RecordRemoved(before, RememberReason(LastSupersedes(store)), now, auditMax);
    }

    method PruneStore(cfg: Config, auditMax: nat, now: Time)
      modifies this
      ensures Snapshot() == Step(old(Snapshot()), Prune(Settings(cfg, auditMax), now))
    {
      var before := store;
      store := EnforceCap(PruneExpired(before, now), cfg.maxEntries);
      RecordRemoved(before, PruneReason(now), now, auditMax);
    }
  }
}
