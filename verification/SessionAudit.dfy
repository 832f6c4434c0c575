/** The append-only, capped trail of notes pruned from the continuity store. */
module SessionAudit {
  import opened Capping
  import opened Sequences
  import opened SessionMemory
  import opened Wrappers

  datatype Reason = Expired | Superseded | Capped

  datatype Entry = Entry(
    id: string, topic: string, text: string, actor: string, created: Time, expires: Option<Time>,
    prunedAt: Time, reason: Reason)

  function ByPruned(): (Entry, Entry) -> bool {
    (a: Entry, b: Entry) => a.prunedAt <= b.prunedAt
  }

  /** An entry is identified by its note id and the moment it was pruned. */
  function PruneKey(): Entry -> (string, Time) {
    (e: Entry) => (e.id, e.prunedAt)
  }

  function CapAudit(entries: seq<Entry>, max: nat): seq<Entry> {
    CapBy(ByPruned(), PruneKey(), entries, max)
  }

  function IdNotIn(ids: set<string>): Note -> bool {
    (e: Note) => e.id !in ids
  }

  function RemovedNotes(before: seq<Note>, after: seq<Note>): seq<Note> {
    Filter(IdNotIn(Ids(after)), before)
  }

  function StampWith(reasonOf: Note -> Reason, now: Time): Note -> seq<Entry> {
    (n: Note) => [Entry(n.id, n.topic, n.text, n.actor, n.created, n.expires, now, reasonOf(n))]
  }

  function AppendAudit(entries: seq<Entry>, notes: seq<Note>, reasonOf: Note -> Reason, now: Time, max: nat)
    : seq<Entry>
  {
    CapAudit(entries + FlatMap(StampWith(reasonOf, now), notes), max)
  }

  function ByNewestPruned(): (Entry, Entry) -> bool {
    (a: Entry, b: Entry) => a.prunedAt >= b.prunedAt
  }

  function RecentAudit(entries: seq<Entry>, n: nat): seq<Entry> {
    var sorted := SortBy(ByNewestPruned(), entries);
    if n <= |sorted| then sorted[..n] else sorted
  }

  lemma DroppedIsOlder(entries: seq<Entry>, max: nat, kept: Entry, dropped: Entry)
    requires UniqueBy(PruneKey(), entries)
    requires kept in CapAudit(entries, max) && dropped in entries && dropped !in CapAudit(entries, max)
    ensures dropped.prunedAt <= kept.prunedAt
  {
    CapDropsOldest(ByPruned(), PruneKey(), entries, max, kept, dropped);
  }

  /** The cap is exact and drops the oldest prunes, as long as no id is pruned twice in the same millisecond. */
  lemma CapAuditKeepsNewest(entries: seq<Entry>, max: nat)
    requires UniqueBy(PruneKey(), entries)
    ensures |CapAudit(entries, max)| == if |entries| <= max then |entries| else max
    ensures forall kept, dropped ::
              kept in CapAudit(entries, max) && dropped in entries && dropped !in CapAudit(entries, max) ==>
                dropped.prunedAt <= kept.prunedAt
  {
    CapSize(ByPruned(), PruneKey(), entries, max);
    forall kept, dropped | kept in CapAudit(entries, max) && dropped in entries && dropped !in CapAudit(entries, max)
      ensures dropped.prunedAt <= kept.prunedAt
    {
      DroppedIsOlder(entries, max, kept, dropped);
    }
  }

  /** In general the audit stays within its cap exactly when nothing it should drop was pruned
      under an id and at a moment that something it keeps was. */
  lemma CapAuditHoldsExactly(entries: seq<Entry>, max: nat)
    ensures |CapAudit(entries, max)| <= max <==>
            |entries| <= max ||
            KeysApart(PruneKey(), Oldest(ByPruned(), entries, max), Newest(ByPruned(), entries, max))
  {
    if |entries| > max {
      CapHoldsExactly(ByPruned(), PruneKey(), entries, max);
    }
  }

  /** Without that proviso the cap leaks: two prunes of one reused id at one moment both stay. */
  lemma CapAuditCanExceedItsCap(e: Entry)
    ensures |CapAudit([e, e], 1)| == 2
  {
    var s := [e, e];
    var newest := Newest(ByPruned(), s, 1);
    assert SortBy(ByPruned(), s) == s by {
      assert s[1..] == [e] && [e][1..] == [];
    }
    KeysAre(PruneKey(), newest, PruneKey()(e));
    assert newest[0] == e;
    FilterAll(KeyIn(PruneKey(), Keys(PruneKey(), newest)), s);
  }

  lemma SortedNewestFirst(entries: seq<Entry>)
    ensures Sorted(ByNewestPruned(), SortBy(ByNewestPruned(), entries))
  {
    SortBySorted(ByNewestPruned(), entries);
  }

  /** The audit view is the newest part: with the rest it makes up the audit, and nothing left
      out is newer than anything shown. */
  lemma RecentAuditIsNewest(entries: seq<Entry>, n: nat) returns (rest: seq<Entry>)
    ensures |RecentAudit(entries, n)| == if n <= |entries| then n else |entries|
    ensures multiset(RecentAudit(entries, n) + rest) == multiset(entries)
    ensures forall e, shown :: shown in RecentAudit(entries, n) && e in rest ==> e.prunedAt <= shown.prunedAt
  {
    var sorted := SortBy(ByNewestPruned(), entries);
    SortedNewestFirst(entries);
    var k := |RecentAudit(entries, n)|;
    rest := sorted[k..];
    assert sorted == sorted[..k] + rest;
    forall i, j | 0 <= i < k && 0 <= j < |rest| ensures rest[j].prunedAt <= sorted[i].prunedAt {
      assert ByNewestPruned()(sorted[i], sorted[k + j]);
    }
  }
}
