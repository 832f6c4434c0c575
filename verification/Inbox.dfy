/** The triage inbox: one sorted, de-duplicated list, and the fail-closed authoring-consent queue. */
module Inbox {
  import opened Capping
  import opened Decimals
  import opened Sequences
  import opened Wrappers

  datatype Item = Item(id: string, kind: string, evidence: string)

  // ----- One list from many sources

  function ById(): (Item, Item) -> bool {
    (a: Item, b: Item) => LexOrEqual()(a.id, b.id)
  }

  function HasId(id: string): Item -> bool {
    (x: Item) => x.id == id
  }

  /** The item collected first under an id. */
  function FirstWith(items: seq<Item>, id: string): Option<Item> {
    var found := Filter(HasId(id), items);
    if found == [] then None else Some(found[0])
  }

  ghost predicate StrictlySorted(items: seq<Item>) {
    forall i, j :: 0 <= i < j < |items| ==> Lex(items[i].id, items[j].id)
  }

  lemma ByIdIsPreorder()
    ensures TotalPreorder(ById())
  {
    LexIsPreorder();
    forall a: Item, b: Item ensures ById()(a, b) || ById()(b, a) {
      assert LexOrEqual()(a.id, b.id) || LexOrEqual()(b.id, a.id);
    }
    forall a: Item, b: Item, c: Item | ById()(a, b) && ById()(b, c) ensures ById()(a, c) {
      assert LexOrEqual()(a.id, b.id) && LexOrEqual()(b.id, c.id);
    }
  }

  lemma SortedById(items: seq<Item>)
    ensures Sorted(ById(), SortBy(ById(), items))
  {
    ByIdIsPreorder();
    SortBySorted(ById(), items);
  }

  /** The sort is stable, so it keeps which item comes first under each id. */
  lemma SortKeepsFirst(items: seq<Item>, id: string)
    ensures FirstWith(SortBy(ById(), items), id) == FirstWith(items, id)
  {
    forall a, b | HasId(id)(a) && HasId(id)(b) ensures ById()(a, b) {
      assert LexOrEqual()(a.id, b.id);
    }
    SortByStable(ById(), HasId(id), items);
  }

  lemma FirstIsNew(before: seq<Item>, x: Item, after: seq<Item>)
    requires forall y :: y in before ==> y.id != x.id
    ensures FirstWith(before + [x] + after, x.id) == Some(x)
  {
    var p := HasId(x.id);
    FilterNone(p, before);
    FilterSnoc(p, before, x);
    FilterJoins(p, before + [x], after);
  }

  lemma SnocStaysSorted(sorted: seq<Item>, i: nat, out: seq<Item>)
    requires Sorted(ById(), sorted) && i < |sorted| && StrictlySorted(out)
    requires forall x :: x in out ==> x in sorted[..i] && x.id != sorted[i].id
    ensures StrictlySorted(out + [sorted[i]])
  {
    forall j | 0 <= j < |out| ensures Lex(out[j].id, sorted[i].id) {
      assert out[j] in out;
      var k :| 0 <= k < i && sorted[k] == out[j];
      assert ById()(sorted[k], sorted[i]) && LexOrEqual()(sorted[k].id, sorted[i].id);
    }
  }

  method Dedupe(sorted: seq<Item>) returns (deduped: seq<Item>)
    requires Sorted(ById(), sorted)
    ensures StrictlySorted(deduped)
    ensures forall x :: x in deduped ==> FirstWith(sorted, x.id) == Some(x)
    ensures forall x :: x in sorted ==> exists y :: y in deduped && y.id == x.id
  {
    var seen: set<string> := {};
    deduped := [];
    for i := 0 to |sorted|
      invariant StrictlySorted(deduped)
      invariant forall x :: x in deduped ==> x in sorted[..i] && x.id in seen && FirstWith(sorted, x.id) == Some(x)
      invariant forall x :: x in sorted[..i] ==> x.id in seen
      invariant forall id :: id in seen ==> exists y :: y in deduped && y.id == id
    {
      var item := sorted[i];
      assert sorted[..i + 1] == sorted[..i] + [item];
      if item.id !in seen {
        assert sorted == sorted[..i] + [item] + sorted[i + 1..];
        FirstIsNew(sorted[..i], item, sorted[i + 1..]);
        SnocStaysSorted(sorted, i, deduped);
        seen := seen + {item.id};
        deduped := deduped + [item];
        assert item in deduped;
      }
    }
    assert sorted[..|sorted|] == sorted;
  }

  lemma SortKeepsMembers(items: seq<Item>, x: Item)
    ensures x in SortBy(ById(), items) <==> x in items
  {
    SameMembers(SortBy(ById(), items), items, x);
  }

  /** Strictly sorted by id, every collected id exactly once, and under each id the item that was
      collected first. */
  method ListItems(collected: seq<Item>) returns (items: seq<Item>)
    ensures StrictlySorted(items)
    ensures forall x :: x in items ==> FirstWith(collected, x.id) == Some(x)
    ensures forall x :: x in collected ==> exists y :: y in items && y.id == x.id
  {
    var sorted := SortBy(ById(), collected);
    SortedById(collected);
    items := Dedupe(sorted);
    forall x | x in items ensures FirstWith(collected, x.id) == Some(x) { SortKeepsFirst(collected, x.id); }
    forall x | x in collected ensures x in sorted { SortKeepsMembers(collected, x); }
  }

  // ----- Authoring consent

  datatype Action = Accept | Reject | Defer

  /** What checking a deferral's date against the clock answers. */
  datatype Freshness = Due | NotDue | BadDate

  datatype Decision = Decision(itemId: string, action: Action, freshness: Freshness)

  datatype DecisionFile = Absent | Corrupt | Recorded(gateId: string, artifactRef: string, decisions: seq<Decision>)

  /** A registered requirement: its path inside the project, if it lies inside, and whether its
      content is still what a recorded accept covered. */
  datatype Requirement = Requirement(id: string, path: Option<string>, current: bool)

  type Decisions = string -> DecisionFile

  function ItemId(id: string): string {
    "sr:" + id
  }

  function CountId(reqs: seq<Requirement>, id: string): nat {
    if reqs == [] then 0
    else CountId(reqs[..|reqs| - 1], id) + if reqs[|reqs| - 1].id == id then 1 else 0
  }

  predicate Matches(file: DecisionFile, itemId: string, artifactRef: string)
    requires file.Recorded?
  {
    file.gateId == itemId && file.artifactRef == artifactRef && |file.decisions| == 1 &&
        file.decisions[0].itemId == itemId
  }

  /** The branches of the consent check, for a requirement registered once and lying inside the
      project: why it stays pending, if it does. */
  function PendingReason(r: Requirement, file: DecisionFile): Option<string>
    requires r.path != None
  {
    match file
    case Absent => Some("no DecisionFile")
    case Corrupt => Some("invalid file")
    case Recorded(_, _, decisions) =>
      if !Matches(file, ItemId(r.id), "artifact:" + r.path.value) then Some("stale or mismatched")
      else
        match decisions[0].action
        case Defer =>
          if decisions[0].freshness == BadDate then Some("invalid defer")
          else if decisions[0].freshness == Due then Some("defer expired")
          else None
        case Accept => if r.current then None else Some("content changed")
        case Reject => None
  }

  /** A duplicate, or a requirement outside the project, falls through to the last branch, which
      overwrites its reason. */
  function ReasonFor(r: Requirement, duplicate: bool, decisions: Decisions): Option<string> {
    if duplicate || r.path == None then Some("no DecisionFile")
    else PendingReason(r, decisions(ItemId(r.id)))
  }

  function Emitted(reqs: seq<Requirement>, i: nat, decisions: Decisions): seq<Item>
    requires i < |reqs|
  {
    var r := reqs[i];
    var duplicate := CountId(reqs, r.id) > 1;
    if duplicate && CountId(reqs[..i], r.id) > 0 then []
    else
      match ReasonFor(r, duplicate, decisions)
      case None => []
      case Some(reason) => [Item(ItemId(r.id), "authoring_consent", reason)]
  }

  function ConsentUpTo(reqs: seq<Requirement>, i: nat, decisions: Decisions): seq<Item>
    requires i <= |reqs|
  {
    if i == 0 then [] else ConsentUpTo(reqs, i - 1, decisions) + Emitted(reqs, i - 1, decisions)
  }

  method CountOf(reqs: seq<Requirement>, id: string) returns (n: nat)
    ensures n == CountId(reqs, id)
  {
    n := 0;
    for i := 0 to |reqs|
      invariant n == CountId(reqs[..i], id)
    {
      assert reqs[..i + 1][..i] == reqs[..i];
      n := n + if reqs[i].id == id then 1 else 0;
    }
    assert reqs[..|reqs|] == reqs;
  }

  lemma CountSnoc(reqs: seq<Requirement>, i: nat, id: string)
    requires i < |reqs|
    ensures CountId(reqs[..i + 1], id) == CountId(reqs[..i], id) + if reqs[i].id == id then 1 else 0
  {
    assert reqs[..i + 1][..i] == reqs[..i];
  }

  lemma {:induction false} CountGrows(reqs: seq<Requirement>, i: nat, id: string)
    requires i <= |reqs|
    ensures CountId(reqs[..i], id) <= CountId(reqs, id)
    decreases |reqs| - i
  {
    if i == |reqs| {
      assert reqs[..i] == reqs;
    } else {
      CountSnoc(reqs, i, id);
      CountGrows(reqs, i + 1, id);
    }
  }

  // ----- Who is cleared, and how often an id appears

  /** Consent on record: a well-formed file for exactly this requirement whose one decision is a
      current accept, a defer not yet due, or a reject. */
  predicate Cleared(r: Requirement, file: DecisionFile) {
    && r.path != None && file.Recorded? && |file.decisions| == 1
    && file == Recorded(ItemId(r.id), "artifact:" + r.path.value, file.decisions)
    && file.decisions[0].itemId == ItemId(r.id)
    && (file.decisions[0].action == Accept ==> r.current)
    && (file.decisions[0].action == Defer ==> file.decisions[0].freshness == NotDue)
  }

  function ItemCount(items: seq<Item>, id: string): nat {
    multiset(Ids(items))[id]
  }

  function Ids(items: seq<Item>): seq<string> {
    seq(|items|, i requires 0 <= i < |items| => items[i].id)
  }

  lemma CountOfJoin(a: seq<Item>, b: seq<Item>, id: string)
    ensures ItemCount(a + b, id) == ItemCount(a, id) + ItemCount(b, id)
  {
    assert Ids(a + b) == Ids(a) + Ids(b);
  }

  lemma ItemIdInjective(a: string, b: string)
    requires ItemId(a) == ItemId(b)
    ensures a == b
  {
    assert ItemId(a)[3..] == a && ItemId(b)[3..] == b;
  }

  /** The `i`-th requirement's own contribution to the items of an id. */
  lemma EmittedCount(reqs: seq<Requirement>, i: nat, decisions: Decisions, id: string)
    requires i < |reqs|
    ensures ItemCount(Emitted(reqs, i, decisions), ItemId(id)) ==
            if reqs[i].id != id then 0
            else if CountId(reqs, id) > 1 then (if CountId(reqs[..i], id) > 0 then 0 else 1)
            else if Cleared(reqs[i], decisions(ItemId(id))) then 0 else 1
  {
    if reqs[i].id != id && ItemId(reqs[i].id) == ItemId(id) {
      ItemIdInjective(reqs[i].id, id);
    }
  }

  lemma {:induction false} DuplicatesCount(reqs: seq<Requirement>, i: nat, decisions: Decisions, id: string)
    requires i <= |reqs| && CountId(reqs, id) > 1
    ensures ItemCount(ConsentUpTo(reqs, i, decisions), ItemId(id)) == if CountId(reqs[..i], id) > 0 then 1 else 0
  {
    if i > 0 {
      DuplicatesCount(reqs, i - 1, decisions, id);
      EmittedCount(reqs, i - 1, decisions, id);
      CountOfJoin(ConsentUpTo(reqs, i - 1, decisions), Emitted(reqs, i - 1, decisions), ItemId(id));
      CountSnoc(reqs, i - 1, id);
    }
  }

  /** An id registered more than once stays pending, as exactly one item, whatever is on file. */
  lemma DuplicateIsOnePendingItem(reqs: seq<Requirement>, decisions: Decisions, id: string)
    requires CountId(reqs, id) > 1
    ensures ItemCount(ConsentUpTo(reqs, |reqs|, decisions), ItemId(id)) == 1
  {
    DuplicatesCount(reqs, |reqs|, decisions, id);
    assert reqs[..|reqs|] == reqs;
  }

  lemma {:induction false} UniqueCount(reqs: seq<Requirement>, i: nat, decisions: Decisions, r: Requirement)
    requires i <= |reqs| && CountId(reqs, r.id) == 1 && r in reqs
    ensures ItemCount(ConsentUpTo(reqs, i, decisions), ItemId(r.id)) ==
            if CountId(reqs[..i], r.id) > 0 && !Cleared(r, decisions(ItemId(r.id))) then 1 else 0
  {
    if i > 0 {
      UniqueCount(reqs, i - 1, decisions, r);
      UniqueEmits(reqs, i - 1, decisions, r);
      CountOfJoin(ConsentUpTo(reqs, i - 1, decisions), Emitted(reqs, i - 1, decisions), ItemId(r.id));
    }
  }

  lemma UniqueEmits(reqs: seq<Requirement>, i: nat, decisions: Decisions, r: Requirement)
    requires i < |reqs| && CountId(reqs, r.id) == 1 && r in reqs
    ensures CountId(reqs[..i + 1], r.id) == CountId(reqs[..i], r.id) + if reqs[i].id == r.id then 1 else 0
    ensures CountId(reqs[..i + 1], r.id) <= 1
    ensures ItemCount(Emitted(reqs, i, decisions), ItemId(r.id)) ==
            if reqs[i].id == r.id && !Cleared(r, decisions(ItemId(r.id))) then 1 else 0
  {
    EmittedCount(reqs, i, decisions, r.id);
    CountSnoc(reqs, i, r.id);
    CountGrows(reqs, i + 1, r.id);
    if reqs[i].id == r.id {
      OnlyOne(reqs, i, r);
    }
  }

  lemma CountPositive(reqs: seq<Requirement>, i: nat)
    requires i < |reqs|
    ensures CountId(reqs, reqs[i].id) > 0
  {
    CountSnoc(reqs, i, reqs[i].id);
    CountGrows(reqs, i + 1, reqs[i].id);
  }

  lemma OnlyOne(reqs: seq<Requirement>, i: nat, r: Requirement)
    requires i < |reqs| && r in reqs && reqs[i].id == r.id && CountId(reqs, r.id) == 1
    ensures reqs[i] == r
  {
    var k :| 0 <= k < |reqs| && reqs[k] == r;
    var (lo, hi) := if i < k then (i, k) else (k, i);
    if lo < hi {
      CountPositive(reqs[..hi], lo);
      CountSnoc(reqs, hi, r.id);
      CountGrows(reqs, hi + 1, r.id);
    }
  }

  /** Fail closed: a requirement registered once is off the queue exactly when its consent is on
      record, and otherwise on it exactly once. */
  lemma UniqueIsClearedExactly(reqs: seq<Requirement>, decisions: Decisions, r: Requirement)
    requires CountId(reqs, r.id) == 1 && r in reqs
    ensures ItemCount(ConsentUpTo(reqs, |reqs|, decisions), ItemId(r.id)) ==
            if Cleared(r, decisions(ItemId(r.id))) then 0 else 1
  {
    UniqueCount(reqs, |reqs|, decisions, r);
    assert reqs[..|reqs|] == reqs;
  }

  // ----- The queue

  /** The requirement register: there may be none, or it may not load. */
  datatype Register = NoDirectory | Unreadable(message: string) | Loaded(reqs: seq<Requirement>)

  /** A register that does not load is one visible item, never an empty queue; a missing one asks nothing. */
  method AuthoringConsentItems(register: Register, decisions: Decisions) returns (items: seq<Item>)
    ensures register == NoDirectory ==> items == []
    ensures register.Unreadable? ==> items == [Item("register:unreadable", "unreadable_register", register.message)]
    ensures register.Loaded? ==>
              && (forall id :: CountId(register.reqs, id) > 1 ==> ItemCount(items, ItemId(id)) == 1)
              && (forall r :: r in register.reqs && CountId(register.reqs, r.id) == 1 ==>
                    ItemCount(items, ItemId(r.id)) == if Cleared(r, decisions(ItemId(r.id))) then 0 else 1)
  {
    match register
    case NoDirectory => items := [];
    case Unreadable(message) => items := [Item("register:unreadable", "unreadable_register", message)];
    case Loaded(reqs) => items := ConsentItems(reqs, decisions);
  }

  /** Every requirement's items, each id's at most once: duplicated ids always, others unless cleared. */
  method ConsentItems(reqs: seq<Requirement>, decisions: Decisions) returns (items: seq<Item>)
    ensures items == ConsentUpTo(reqs, |reqs|, decisions)
    ensures forall id :: CountId(reqs, id) > 1 ==> ItemCount(items, ItemId(id)) == 1
    ensures forall r :: r in reqs && CountId(reqs, r.id) == 1 ==>
              ItemCount(items, ItemId(r.id)) == if Cleared(r, decisions(ItemId(r.id))) then 0 else 1
  {
    items := [];
    var emittedDuplicates: set<string> := {};
    for i := 0 to |reqs|
      invariant items == ConsentUpTo(reqs, i, decisions)
      invariant forall id :: id in emittedDuplicates <==> CountId(reqs, id) > 1 && CountId(reqs[..i], id) > 0
    {
      var r := reqs[i];
      forall id ensures CountId(reqs[..i + 1], id) == CountId(reqs[..i], id) + if r.id == id then 1 else 0 {
        CountSnoc(reqs, i, id);
      }
      var count := CountOf(reqs, r.id);
      if count > 1 && r.id in emittedDuplicates {
        continue;
      }
      if count > 1 {
        emittedDuplicates := emittedDuplicates + {r.id};
      }
      var reason := ReasonFor(r, count > 1, decisions);
      if reason != None {
        items := items + [Item(ItemId(r.id), "authoring_consent", reason.value)];
      }
    }
    forall id | CountId(reqs, id) > 1 ensures ItemCount(items, ItemId(id)) == 1 {
      DuplicateIsOnePendingItem(reqs, decisions, id);
    }
    forall r | r in reqs && CountId(reqs, r.id) == 1
      ensures ItemCount(items, ItemId(r.id)) == if Cleared(r, decisions(ItemId(r.id))) then 0 else 1
    {
      UniqueIsClearedExactly(reqs, decisions, r);
    }
  }
}
