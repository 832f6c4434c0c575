/** What is kept of every note ever written: in the store, in the audit, or lost to the audit's cap. */
module SessionConservation {
  import opened Capping
  import opened Sequences
  import opened SessionAudit
  import opened SessionMemory
  import opened SessionRuns
  import opened Wrappers

  // ----- Note instances

  /** What a note and its audit entry have in common: ids are reused, so an instance is all of it. */
  datatype Core = Core(id: string, topic: string, text: string, actor: string, created: Time, expires: Option<Time>)

  function CoreOf(n: Note): Core {
    Core(n.id, n.topic, n.text, n.actor, n.created, n.expires)
  }

  function NoteCore(): Note -> seq<Core> {
    (n: Note) => [CoreOf(n)]
  }

  function EntryCore(): Entry -> seq<Core> {
    (e: Entry) => [Core(e.id, e.topic, e.text, e.actor, e.created, e.expires)]
  }

  function StoreCores(store: seq<Note>): multiset<Core> {
    multiset(FlatMap(NoteCore(), store))
  }

  function AuditCores(audit: seq<Entry>): multiset<Core> {
    multiset(FlatMap(EntryCore(), audit))
  }

  function All(f: Files): multiset<Core> {
    StoreCores(f.store) + AuditCores(f.audit)
  }

  function RemovedBy(f: Files, c: Command): seq<Note> {
    RemovedNotes(f.store, NextStore(f.store, c))
  }

  /** The entries a command stamps for the audit. */
  function StampedBy(f: Files, c: Command): seq<Entry> {
    FlatMap(StampWith(ReasonFor(c, NextStore(f.store, c)), c.now), RemovedBy(f, c))
  }

  lemma {:induction false} StampedCores(notes: seq<Note>, reasonOf: Note -> Reason, now: Time)
    ensures FlatMap(EntryCore(), FlatMap(StampWith(reasonOf, now), notes)) == FlatMap(NoteCore(), notes)
    ensures |FlatMap(StampWith(reasonOf, now), notes)| == |notes|
  {
    if notes != [] {
      var front, last := notes[..|notes| - 1], notes[|notes| - 1];
      StampedCores(front, reasonOf, now);
      var stamped := StampWith(reasonOf, now)(last);
      FlatMapJoins(EntryCore(), FlatMap(StampWith(reasonOf, now), front), stamped);
      assert stamped[..0] == [];
    }
  }

  /** The audit after a step, given what was stamped. */
  function AuditAfter(audit: seq<Entry>, stamped: seq<Entry>, max: nat): seq<Entry> {
    if stamped == [] then audit else CapAudit(audit + stamped, max)
  }

  lemma StepIs(f: Files, c: Command)
    ensures Step(f, c).store == NextStore(f.store, c)
    ensures Step(f, c).audit == AuditAfter(f.audit, StampedBy(f, c), c.settings.auditMax)
    ensures AuditCores(StampedBy(f, c)) == StoreCores(RemovedBy(f, c)) && |StampedBy(f, c)| == |RemovedBy(f, c)|
  {
    StampedCores(RemovedBy(f, c), ReasonFor(c, NextStore(f.store, c)), c.now);
  }

  // ----- What a step keeps

  /** The command writes its note: it has time to live and the cap has room for one. */
  predicate Lives(c: Command) {
    c.Remember? && TtlOf(c.input, c.settings.memory) > 0 && c.settings.memory.maxEntries > 0
  }

  function WrittenBy(f: Files, c: Command): seq<Note> {
    if Lives(c) then [NoteOf(f, c.input, c.settings.memory, c.now)] else []
  }

  function AddedBy(f: Files, c: Command): multiset<Core> {
    StoreCores(WrittenBy(f, c))
  }

  lemma StepSplits(f: Files, c: Command)
    requires StoreOk(f.store, c.now)
    ensures multiset(NextStore(f.store, c) + RemovedBy(f, c)) == multiset(f.store + WrittenBy(f, c))
  {
    var next := NextStore(f.store, c);
    match c
    case Remember(input, policy, now) =>
      AddNoteIsSub(f.store, input, policy.memory, now);
      IdsUniqueWithNew(f.store, input, policy.memory, now);
      NewNoteStays(f.store, input, policy.memory, now);
      RememberSplits(f.store, next, NoteOf(f, input, policy.memory, now));
    case Prune(policy, now) =>
      PruneIsSub(f.store, policy.memory, now);
      PruneSplits(f.store, next);
      assert f.store + [] == f.store;
  }

  lemma SplitCores(next: seq<Note>, removed: seq<Note>, store: seq<Note>, written: seq<Note>)
    requires multiset(next + removed) == multiset(store + written)
    ensures StoreCores(next) + StoreCores(removed) == StoreCores(store) + StoreCores(written)
  {
    FlatMapPermutes(NoteCore(), next + removed, store + written);
    FlatMapJoins(NoteCore(), next, removed);
    FlatMapJoins(NoteCore(), store, written);
  }

  // ----- What the audit's cap loses

  lemma NoCores(entries: seq<Entry>)
    ensures AuditCores(entries) == multiset{} <==> entries == []
  {
    if entries != [] {
      var front, last := entries[..|entries| - 1], entries[|entries| - 1];
      assert FlatMap(EntryCore(), entries) == FlatMap(EntryCore(), front) + EntryCore()(last);
      assert EntryCore()(last)[0] in AuditCores(entries);
    }
  }

  lemma NoneLost(p: Entry -> bool, entries: seq<Entry>)
    ensures Filter(Not(p), entries) == [] <==> forall e :: e in entries ==> p(e)
  {
    var lost := Filter(Not(p), entries);
    forall e ensures e in lost <==> e in entries && !p(e) { FilterMembers(Not(p), entries, e); }
    if lost != [] {
      assert lost[0] in lost;
    }
  }

  lemma PartOf<T>(kept: multiset<T>, lost: multiset<T>)
    ensures kept <= kept + lost && (kept == kept + lost <==> lost == multiset{})
  {
    if kept == kept + lost {
      forall x ensures lost[x] == 0 { assert kept[x] == (kept + lost)[x]; }
    }
  }

  lemma FilteredCores(p: Entry -> bool, entries: seq<Entry>)
    ensures AuditCores(Filter(p, entries)) <= AuditCores(entries)
    ensures AuditCores(Filter(p, entries)) == AuditCores(entries) <==> forall e :: e in entries ==> p(e)
  {
    var kept, lost := Filter(p, entries), Filter(Not(p), entries);
    FilterPartition(p, entries);
    FlatMapPermutes(EntryCore(), kept + lost, entries);
    FlatMapJoins(EntryCore(), kept, lost);
    PartOf(AuditCores(kept), AuditCores(lost));
    NoCores(lost);
    NoneLost(p, entries);
  }

  /** Nothing the cap should drop is dropped for good: each such entry shares id and prune moment
      with one that is kept. */
  ghost predicate NothingDropped(entries: seq<Entry>, max: nat) {
    |entries| <= max ||
    forall e :: e in Oldest(ByPruned(), entries, max) ==>
      PruneKey()(e) in Keys(PruneKey(), Newest(ByPruned(), entries, max))
  }

  lemma CapLoses(entries: seq<Entry>, max: nat)
    ensures AuditCores(CapAudit(entries, max)) <= AuditCores(entries)
    ensures AuditCores(CapAudit(entries, max)) == AuditCores(entries) <==> NothingDropped(entries, max)
  {
    if |entries| > max {
      var (oldest, newest) := (Oldest(ByPruned(), entries, max), Newest(ByPruned(), entries, max));
      var p := KeyIn(PruneKey(), Keys(PruneKey(), newest));
      FilteredCores(p, entries);
      SortSplits(ByPruned(), entries, max);
      forall e ensures e in entries <==> e in oldest || e in newest { SameMembers(oldest + newest, entries, e); }
      forall e | e in newest ensures p(e) { KeysAre(PruneKey(), newest, PruneKey()(e)); }
    }
  }

  /** The step loses no note instance: it stamps nothing, or the cap drops nothing. */
  ghost predicate LosesNothing(f: Files, c: Command) {
    StampedBy(f, c) == [] || NothingDropped(f.audit + StampedBy(f, c), c.settings.auditMax)
  }

  lemma AuditLoses(audit: seq<Entry>, stamped: seq<Entry>, max: nat)
    ensures AuditCores(AuditAfter(audit, stamped, max)) <= AuditCores(audit) + AuditCores(stamped)
    ensures AuditCores(AuditAfter(audit, stamped, max)) == AuditCores(audit) + AuditCores(stamped) <==>
            stamped == [] || NothingDropped(audit + stamped, max)
  {
    CapLoses(audit + stamped, max);
    FlatMapJoins(EntryCore(), audit, stamped);
  }

  lemma Balance<T>(next: multiset<T>, removed: multiset<T>, store: multiset<T>, written: multiset<T>,
                   audit: multiset<T>, after: multiset<T>)
    requires next + removed == store + written && after <= audit + removed
    ensures next + after <= store + audit + written
    ensures next + after == store + audit + written <==> after == audit + removed
  {
    var all := store + audit + written;
    forall x ensures all[x] == next[x] + (audit + removed)[x] {
      assert (next + removed)[x] == (store + written)[x];
    }
    if next + after == all {
      forall x ensures after[x] == (audit + removed)[x] { assert (next + after)[x] == all[x]; }
      assert after == audit + removed;
    }
    if after == audit + removed {
      forall x ensures (next + after)[x] == all[x] {}
      assert next + after == all;
    }
  }

  /** A step writes its note if that can live and there is room for one, loses no other instance
      but to the audit's cap, and loses none exactly when that drops nothing. */
  lemma StepConserves(f: Files, c: Command) returns (g: Files)
    requires StoreOk(f.store, c.now)
    ensures g == Step(f, c)
    ensures All(g) <= All(f) + AddedBy(f, c)
    ensures All(g) == All(f) + AddedBy(f, c) <==> LosesNothing(f, c)
  {
    g := Step(f, c);
    var removed, stamped := RemovedBy(f, c), StampedBy(f, c);
    StepIs(f, c);
    StepSplits(f, c);
    SplitCores(g.store, removed, f.store, WrittenBy(f, c));
    AuditLoses(f.audit, stamped, c.settings.auditMax);
    Balance(StoreCores(g.store), StoreCores(removed), StoreCores(f.store), AddedBy(f, c),
            AuditCores(f.audit), AuditCores(g.audit));
  }

  // ----- Runs

  function LastTime(cmds: seq<Command>, t: Time): Time {
    if cmds == [] then t else cmds[|cmds| - 1].now
  }

  /** The clock never goes back. */
  ghost predicate Proper(cmds: seq<Command>, t: Time) {
    cmds == [] ||
    (var (front, last) := (cmds[..|cmds| - 1], cmds[|cmds| - 1]);
     Proper(front, t) && LastTime(front, t) <= last.now)
  }

  function Run(f: Files, cmds: seq<Command>): Files
    decreases |cmds|
  {
    if cmds == [] then f else Step(Run(f, cmds[..|cmds| - 1]), cmds[|cmds| - 1])
  }

  /** Every note instance the run writes, in whatever state it is written: a note with no time to
      live, or no room, is never written. */
  function Added(f: Files, cmds: seq<Command>): multiset<Core>
    decreases |cmds|
  {
    if cmds == [] then multiset{}
    else
      var front := cmds[..|cmds| - 1];
      Added(f, front) + AddedBy(Run(f, front), cmds[|cmds| - 1])
  }

  ghost predicate RunLosesNothing(f: Files, cmds: seq<Command>)
    decreases |cmds|
  {
    cmds == [] ||
    (var front := cmds[..|cmds| - 1];
     RunLosesNothing(f, front) && LosesNothing(Run(f, front), cmds[|cmds| - 1]))
  }

  /** The command stamps nothing, or the audit has room for what it stamps. */
  predicate HasRoom(f: Files, c: Command) {
    RemovedBy(f, c) == [] || |f.audit| + |RemovedBy(f, c)| <= c.settings.auditMax
  }

  predicate RoomThroughout(f: Files, cmds: seq<Command>)
    decreases |cmds|
  {
    cmds == [] ||
    (var front := cmds[..|cmds| - 1];
     RoomThroughout(f, front) && HasRoom(Run(f, front), cmds[|cmds| - 1]))
  }

  lemma StoreOkLater(store: seq<Note>, t: Time, now: Time)
    requires StoreOk(store, t) && t <= now
    ensures StoreOk(store, now)
  {
  }

  lemma Together<T>(all: multiset<T>, before: multiset<T>, end: multiset<T>, added: multiset<T>, more: multiset<T>)
    requires before <= all + added && end <= before + more
    ensures end <= all + (added + more)
    ensures end == all + (added + more) <==> before == all + added && end == before + more
  {
    assert all + (added + more) == (all + added) + more;
    if end == all + (added + more) {
      forall x ensures before[x] == (all + added)[x] {
        assert end[x] == (all + added)[x] + more[x];
      }
      assert before == all + added;
    }
  }

  /** Over every run whose clock never goes back, no note instance is ever in two places, ids and
      topics stay unique and the cap last read holds; and every instance ever written is still in
      store or audit exactly when no step's audit cap drops one. */
  lemma {:induction false} RunConserves(f: Files, cmds: seq<Command>, t: Time) returns (end: Files)
    requires StoreOk(f.store, t) && Proper(cmds, t)
    ensures end == Run(f, cmds) && StoreOk(end.store, LastTime(cmds, t))
    ensures cmds != [] ==> |end.store| <= cmds[|cmds| - 1].settings.memory.maxEntries
    ensures All(end) <= All(f) + Added(f, cmds)
    ensures All(end) == All(f) + Added(f, cmds) <==> RunLosesNothing(f, cmds)
    decreases |cmds|
  {
    end := f;
    if cmds != [] {
      var front, last := cmds[..|cmds| - 1], cmds[|cmds| - 1];
      var before := RunConserves(f, front, t);
      StoreOkLater(before.store, LastTime(front, t), last.now);
      StepStoreOk(before, last);
      end := StepConserves(before, last);
      Together(All(f), All(before), All(end), Added(f, front), AddedBy(before, last));
    }
  }

  lemma RoomLosesNothing(f: Files, c: Command)
    requires HasRoom(f, c)
    ensures LosesNothing(f, c)
  {
    StepIs(f, c);
  }

  /** So nothing is lost as long as, at every step, the audit has room for what that step removes. */
  lemma {:induction false} RunConservesWithRoom(f: Files, cmds: seq<Command>)
    requires RoomThroughout(f, cmds)
    ensures RunLosesNothing(f, cmds)
    decreases |cmds|
  {
    if cmds != [] {
      RunConservesWithRoom(f, cmds[..|cmds| - 1]);
      RoomLosesNothing(Run(f, cmds[..|cmds| - 1]), cmds[|cmds| - 1]);
    }
  }

  // ----- The audit over runs

  /** No note id is in the audit twice under one moment, and none from the future. */
  ghost predicate AuditOk(audit: seq<Entry>, now: Time) {
    UniqueBy(PruneKey(), audit) && forall e :: e in audit ==> e.prunedAt <= now
  }

  /** Every command comes strictly after the one before. */
  ghost predicate Advances(cmds: seq<Command>, t: Time) {
    cmds == [] ||
    (var (front, last) := (cmds[..|cmds| - 1], cmds[|cmds| - 1]);
     Advances(front, t) && LastTime(front, t) < last.now)
  }

  lemma {:induction false} StampedAre(notes: seq<Note>, reasonOf: Note -> Reason, now: Time) returns (r: seq<Entry>)
    ensures r == FlatMap(StampWith(reasonOf, now), notes) && |r| == |notes|
    ensures forall i :: 0 <= i < |notes| ==> r[i].id == notes[i].id && r[i].prunedAt == now
  {
    r := [];
    if notes != [] {
      var last := notes[|notes| - 1];
      var front := StampedAre(notes[..|notes| - 1], reasonOf, now);
      r := front + StampWith(reasonOf, now)(last);
    }
  }

  lemma NewEntriesOk(audit: seq<Entry>, stamped: seq<Entry>, removed: seq<Note>, t: Time, now: Time)
    requires AuditOk(audit, t) && t < now && UniqueBy(IdKey(), removed) && |stamped| == |removed|
    requires forall i :: 0 <= i < |removed| ==> stamped[i].id == removed[i].id && stamped[i].prunedAt == now
    ensures AuditOk(audit + stamped, now)
  {
    var all := audit + stamped;
    forall i, j | 0 <= i < j < |all| ensures PruneKey()(all[i]) != PruneKey()(all[j]) {
      if |audit| <= i {
        assert IdKey()(removed[i - |audit|]) != IdKey()(removed[j - |audit|]);
      } else if |audit| <= j {
        assert all[i] in audit && all[i].prunedAt <= t;
      }
    }
  }

  lemma CapAuditOk(entries: seq<Entry>, max: nat, now: Time)
    requires AuditOk(entries, now)
    ensures AuditOk(CapAudit(entries, max), now) && |CapAudit(entries, max)| <= max
  {
    CapSize(ByPruned(), PruneKey(), entries, max);
    if |entries| > max {
      var p := KeyIn(PruneKey(), Keys(PruneKey(), Newest(ByPruned(), entries, max)));
      FilterUniqueBy(PruneKey(), p, entries);
      forall e | e in CapAudit(entries, max) ensures e.prunedAt <= now { FilterMembers(p, entries, e); }
    }
  }

  lemma StampedOk(f: Files, c: Command, t: Time)
    requires StoreOk(f.store, t) && AuditOk(f.audit, t) && t < c.now
    ensures AuditOk(f.audit + StampedBy(f, c), c.now)
  {
    var next := NextStore(f.store, c);
    FilterUniqueBy(IdKey(), IdNotIn(Ids(next)), f.store);
    var stamped := StampedAre(RemovedBy(f, c), ReasonFor(c, next), c.now);
    NewEntriesOk(f.audit, stamped, RemovedBy(f, c), t, c.now);
  }

  lemma AuditStaysOk(audit: seq<Entry>, stamped: seq<Entry>, max: nat, t: Time, now: Time)
    requires AuditOk(audit, t) && t <= now && AuditOk(audit + stamped, now)
    ensures AuditOk(AuditAfter(audit, stamped, max), now)
    ensures AuditAfter(audit, stamped, max) == audit || |AuditAfter(audit, stamped, max)| <= max
  {
    CapAuditOk(audit + stamped, max, now);
  }

  lemma StepAuditOk(f: Files, c: Command, t: Time) returns (g: Files)
    requires StoreOk(f.store, t) && AuditOk(f.audit, t) && t < c.now
    ensures g == Step(f, c) && StoreOk(g.store, c.now) && AuditOk(g.audit, c.now)
    ensures g.audit == f.audit || |g.audit| <= c.settings.auditMax
  {
    g := Step(f, c);
    StoreOkLater(f.store, t, c.now);
    StepStoreOk(f, c);
    StepIs(f, c);
    StampedOk(f, c, t);
    AuditStaysOk(f.audit, StampedBy(f, c), c.settings.auditMax, t, c.now);
  }

  /** Over every run whose clock advances from command to command, no id is ever in the audit twice
      under one moment, so the audit never exceeds the caps it is given. */
  lemma {:induction false} RunKeepsAuditCap(f: Files, cmds: seq<Command>, max: nat, t: Time) returns (end: Files)
    requires StoreOk(f.store, t) && AuditOk(f.audit, t) && Advances(cmds, t)
    requires |f.audit| <= max && forall i :: 0 <= i < |cmds| ==> cmds[i].settings.auditMax <= max
    ensures end == Run(f, cmds) && StoreOk(end.store, LastTime(cmds, t)) && AuditOk(end.audit, LastTime(cmds, t))
    ensures |end.audit| <= max
    decreases |cmds|
  {
    end := f;
    if cmds != [] {
      var front, last := cmds[..|cmds| - 1], cmds[|cmds| - 1];
      var before := RunKeepsAuditCap(f, front, max, t);
      end := StepAuditOk(before, last, LastTime(front, t));
    }
  }

  /** Entries with distinct keys are all kept exactly when there is room for all. */
  lemma UniqueNothingDropped(entries: seq<Entry>, max: nat)
    requires UniqueBy(PruneKey(), entries)
    ensures NothingDropped(entries, max) <==> |entries| <= max
  {
    if |entries| > max {
      var (oldest, newest) := (Oldest(ByPruned(), entries, max), Newest(ByPruned(), entries, max));
      SortSplits(ByPruned(), entries, max);
      UniqueKeysApart(PruneKey(), entries, oldest, newest);
      assert oldest[0] in oldest;
    }
  }

  lemma RoomExactly(f: Files, c: Command, t: Time)
    requires StoreOk(f.store, t) && AuditOk(f.audit, t) && t < c.now
    ensures LosesNothing(f, c) <==> HasRoom(f, c)
  {
    StepIs(f, c);
    StampedOk(f, c, t);
    UniqueNothingDropped(f.audit + StampedBy(f, c), c.settings.auditMax);
  }

  lemma {:induction false} RoomIsNeeded(f: Files, cmds: seq<Command>, t: Time) returns (end: Files)
    requires StoreOk(f.store, t) && AuditOk(f.audit, t) && Advances(cmds, t)
    ensures end == Run(f, cmds) && StoreOk(end.store, LastTime(cmds, t)) && AuditOk(end.audit, LastTime(cmds, t))
    ensures RunLosesNothing(f, cmds) <==> RoomThroughout(f, cmds)
    ensures Proper(cmds, t)
    decreases |cmds|
  {
    end := f;
    if cmds != [] {
      var front, last := cmds[..|cmds| - 1], cmds[|cmds| - 1];
      var before := RoomIsNeeded(f, front, t);
      RoomExactly(before, last, LastTime(front, t));
      end := StepAuditOk(before, last, LastTime(front, t));
    }
  }

  /** Over every run whose clock advances, each instance ever written is in exactly one of store and
      audit exactly when, at every step, the audit has room for what that step removes. */
  lemma RunConservesExactly(f: Files, cmds: seq<Command>, t: Time) returns (end: Files)
    requires StoreOk(f.store, t) && AuditOk(f.audit, t) && Advances(cmds, t)
    ensures end == Run(f, cmds)
    ensures All(end) <= All(f) + Added(f, cmds)
    ensures All(end) == All(f) + Added(f, cmds) <==> RoomThroughout(f, cmds)
  {
    end := RoomIsNeeded(f, cmds, t);
    end := RunConserves(f, cmds, t);
  }

  /** And notes are lost: pruning one expired note under an audit cap of zero leaves it nowhere. */
  lemma FullAuditLoses(n: Note, memory: Config, now: Time)
    requires n.created < now && !LiveAt(now)(n)
    ensures var g := Step(Files([n], []), Prune(Settings(memory, 0), now));
            All(g) < All(Files([n], []))
  {
    var f, c := Files([n], []), Prune(Settings(memory, 0), now);
    ExpiredIsRemoved(n, memory, now);
    RoomExactly(f, c, n.created);
    var g := StepConserves(f, c);
  }

  lemma ExpiredIsRemoved(n: Note, memory: Config, now: Time)
    requires !LiveAt(now)(n)
    ensures RemovedBy(Files([n], []), Prune(Settings(memory, 0), now)) == [n]
  {
    assert PruneExpired([n], now) == [];
    assert RemovedNotes([n], []) == [n];
  }

  // ----- Which entries the audit keeps

  function LastOf<T>(s: seq<T>, n: nat): seq<T> {
    if |s| <= n then s else s[|s| - n..]
  }

  lemma LastOfJoin<T>(a: seq<T>, b: seq<T>, n: nat)
    ensures LastOf(LastOf(a, n) + b, n) == LastOf(a + b, n)
  {
  }

  /** Every entry there was, and every one the run stamped, in the order of stamping. */
  function EverStamped(f: Files, cmds: seq<Command>): seq<Entry>
    decreases |cmds|
  {
    if cmds == [] then f.audit
    else
      var front := cmds[..|cmds| - 1];
      EverStamped(f, front) + StampedBy(Run(f, front), cmds[|cmds| - 1])
  }

  lemma StaysSorted(audit: seq<Entry>, stamped: seq<Entry>, now: Time)
    requires Sorted(ByPruned(), audit) && forall e :: e in audit ==> e.prunedAt <= now
    requires forall e :: e in stamped ==> e.prunedAt == now
    ensures Sorted(ByPruned(), audit + stamped)
  {
    var all := audit + stamped;
    forall i, j | 0 <= i < j < |all| ensures ByPruned()(all[i], all[j]) {
      if |audit| <= j {
        assert all[j] in stamped;
        assert i < |audit| ==> all[i] in audit;
        assert |audit| <= i ==> all[i] in stamped;
      } else {
        assert ByPruned()(audit[i], audit[j]);
      }
    }
  }

  lemma StampedNow(f: Files, c: Command)
    ensures forall e :: e in StampedBy(f, c) ==> e.prunedAt == c.now
  {
    var r := StampedAre(RemovedBy(f, c), ReasonFor(c, NextStore(f.store, c)), c.now);
  }

  lemma AuditAfterIsLast(audit: seq<Entry>, stamped: seq<Entry>, max: nat)
    requires Sorted(ByPruned(), audit + stamped) && UniqueBy(PruneKey(), audit + stamped) && |audit| <= max
    ensures AuditAfter(audit, stamped, max) == LastOf(audit + stamped, max)
  {
    if stamped == [] {
      assert audit + stamped == audit;
    } else {
      CapOfSorted(ByPruned(), PruneKey(), audit + stamped, max);
    }
  }

  lemma LastOfSorted(s: seq<Entry>, n: nat)
    requires Sorted(ByPruned(), s)
    ensures Sorted(ByPruned(), LastOf(s, n))
  {
    if |s| > n {
      var k := |s| - n;
      forall i, j | 0 <= i < j < n ensures ByPruned()(s[k..][i], s[k..][j]) {
        assert ByPruned()(s[k + i], s[k + j]);
      }
    }
  }

  lemma StepKeepsNewest(f: Files, c: Command, t: Time) returns (g: Files)
    requires StoreOk(f.store, t) && AuditOk(f.audit, t) && t < c.now
    requires Sorted(ByPruned(), f.audit) && |f.audit| <= c.settings.auditMax
    ensures g == Step(f, c) && StoreOk(g.store, c.now) && AuditOk(g.audit, c.now) && Sorted(ByPruned(), g.audit)
    ensures g.audit == LastOf(f.audit + StampedBy(f, c), c.settings.auditMax)
    ensures |g.audit| <= c.settings.auditMax
  {
    g := StepAuditOk(f, c, t);
    StepIs(f, c);
    StampedOk(f, c, t);
    StampedNow(f, c);
    StaysSorted(f.audit, StampedBy(f, c), c.now);
    AuditAfterIsLast(f.audit, StampedBy(f, c), c.settings.auditMax);
    LastOfSorted(f.audit + StampedBy(f, c), c.settings.auditMax);
  }

  /** Under one cap, over every run whose clock advances, the audit is exactly the last `max` of all
      entries ever stamped; as they are stamped in order of time, the oldest prunes go first. */
  lemma {:induction false} RunKeepsNewest(f: Files, cmds: seq<Command>, max: nat, t: Time) returns (end: Files)
    requires StoreOk(f.store, t) && AuditOk(f.audit, t) && Sorted(ByPruned(), f.audit) && |f.audit| <= max
    requires Advances(cmds, t) && forall i :: 0 <= i < |cmds| ==> cmds[i].settings.auditMax == max
    ensures end == Run(f, cmds) && StoreOk(end.store, LastTime(cmds, t)) && AuditOk(end.audit, LastTime(cmds, t))
    ensures end.audit == LastOf(EverStamped(f, cmds), max)
    ensures Sorted(ByPruned(), EverStamped(f, cmds)) && forall e :: e in EverStamped(f, cmds) ==>
              e.prunedAt <= LastTime(cmds, t)
    decreases |cmds|
  {
    end := f;
    if cmds != [] {
      var front, last := cmds[..|cmds| - 1], cmds[|cmds| - 1];
      var before := RunKeepsNewest(f, front, max, t);
      LastOfSorted(EverStamped(f, front), max);
      end := StepKeepsNewest(before, last, LastTime(front, t));
      LastOfJoin(EverStamped(f, front), StampedBy(before, last), max);
      StampedNow(before, last);
      StaysSorted(EverStamped(f, front), StampedBy(before, last), last.now);
    }
  }
}
